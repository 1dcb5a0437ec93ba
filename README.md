# macroBuddy core, modelled in Dafny

macroBuddy is a browser front end for tracking nutrition. The user enters a
body profile: weight, height, age, gender, exercise days per week, goal and
meals per day. From it the application computes macro advice:

- the basal metabolic rate (BMR), by the Harris-Benedict formulas;
- the total energy expenditure (TEE);
- a goal-dependent split of the day's calories into grams of protein,
  carbohydrates and fats.

The user keeps a catalogue of meals and food logs (dated lists of meals).
Each food log is given a breakdown summary: the macros eaten, the calories
per macro, and the absolute deficits against the advice. The meal catalogue
can be sorted by any column, searched, selected and deleted in a table. The
application also suggests meals for a day by splitting the catalogue around
the average calories per meal and drawing shuffled meals from both halves.

This project models that core: the calculation utilities, the four Redux
reducers, and the state-handling logic of the profile form, the meal form,
the food log form and the meals table. One Dafny module corresponds to each
source file:

| module | source |
|---|---|
| `MacroAdviceUtil` | `src/utils/MacroAdviceUtil.ts` |
| `FoodLogUtil` | `src/utils/FoodLogUtil.ts` |
| `MealUtil` | `src/utils/MealUtil.ts` |
| `MealSuggestionUtil` | `src/utils/MealSuggestionUtil.ts` |
| `MealReducer`, `FoodLogReducer`, `ProfileReducer`, `MacroAdviceReducer` | `src/reducers/*.ts` |
| `ProfileForm` | `src/components/profileForm/ProfileForm.tsx` |
| `AddEditMealForm` | `src/components/addEditMeal/AddEditMealForm.tsx` |
| `AddEditFoodLogForm` | `src/components/addEditFoodLog/AddEditFoodLogForm.tsx` |
| `MealsTable` | `src/components/mealsTable/MealsTable.tsx` |
| `Models` | `src/models/*.ts` |

Some support modules are shared by the rest:

- `Wrappers`: `Option`.
- `Numbers`: rounding as `parseFloat(x.toFixed(0))` does it, and absolute value.
- `Strings`: lexicographic string order by code point, lower-casing, `includes`,
  and decimal strings.
- `IdLists`: the id-based `map`, `filter` and `filter(...)[0]` patterns
  that the reducers and forms use.

The model takes the source's own form:

- Pure utilities and reducers are functions.
- Loops are methods with invariants, proved against specification
  functions:
  - building the id-to-sort-key map;
  - the in-place sort of the meals array;
  - the in-place Fisher-Yates shuffle;
  - bucketing the meals around the average;
  - the suggestion loop;
  - the placeholder-meal loop of the food log form.
- The food log form's component state is a class, `FoodLogEditor`, whose
  methods reassign its `foodLog` field.

In four places the code does something other than its comments or names
suggest. The model follows the code:

- The profile validators are commented as "1 - 99" and "1 - 999", but they
  accept 0 as well. `AgeIsValid` and the other validators accept 0.
- `calculateTEE` tests four exercise-day ranges one after another, and 3
  falls in both of the first two. The later range wins, so 3 days gives
  1.55.
- `calculateBMR` leaves the BMR at 0 for a gender other than MALE or FEMALE.
- `sortMeals` compares names with a comparator that returns -1 when the
  first name is greater. An ASC sort by name therefore lists names from
  greatest to least, and DESC lists them from least to greatest. The model
  keeps this order.

## Model

| member | source | states |
|---|---|---|
| Numbers.Round | src/utils/MacroAdviceUtil.ts:35 | rounding to a whole number lands within one half of the input, with halves rounded away from zero |
| Numbers.RoundMonotone | src/utils/MacroAdviceUtil.ts:70 | rounding never reverses the order of two values |
| Numbers.RoundError | src/utils/MacroAdviceUtil.ts:35 | the rounded value differs from the input by at most 0.5 |
| MacroAdviceUtil.CalculateCaloriesForMacroType | src/utils/MacroAdviceUtil.ts:164-178 | converting grams of a macro gives calories; a non-negative amount never gives negative calories, and for protein, carbohydrates and fats the result is zero only for zero grams (the per-gram rates are stated by `CaloriesPerGram`) |
| MacroAdviceUtil.CaloriesPerGram | src/utils/MacroAdviceUtil.ts:164-178 | each macro converts at a fixed rate per gram: 4 for protein and carbohydrates, 9 for fats, 0 for any other type |
| MacroAdviceUtil.CalculateTotalCaloriesForMacros | src/utils/MacroAdviceUtil.ts:116-120 | total calories of a breakdown are 4·protein + 4·carbohydrates + 9·fats |
| MacroAdviceUtil.PerMacroConversionsAddUp | src/utils/MacroAdviceUtil.ts:116-120 | the per-macro conversions add up to the breakdown total |
| MacroAdviceUtil.CalculateBmr | src/utils/MacroAdviceUtil.ts:24-36 | the male and female Harris-Benedict formulas, rounded; 0 for any other gender |
| MacroAdviceUtil.BmrMonotone | src/utils/MacroAdviceUtil.ts:24-36 | more weight or height never lowers the BMR, and more age never raises it |
| MacroAdviceUtil.ActivityMultiplier | src/utils/MacroAdviceUtil.ts:44-68 | the multiplier is 1.2 for 0 days, 1.375 for 1-2, 1.55 for 3-5 (3 lands in the later range) and 1.725 for 6-7; it is 0 outside 0-7 |
| MacroAdviceUtil.CalculateTee | src/utils/MacroAdviceUtil.ts:44-71 | the TEE is 0 outside 0-7 exercise days; for a non-negative BMR and 0-7 days it lies between 1.2·BMR − 0.5 and 1.725·BMR + 0.5 (that it is at least the BMR is stated by `TeeBounds`) |
| MacroAdviceUtil.TeeBounds | src/utils/MacroAdviceUtil.ts:44-71 | for 0-7 exercise days the TEE is at least the BMR; outside that range it is 0 |
| MacroAdviceUtil.CalculateMacro | src/utils/MacroAdviceUtil.ts:81-109 | with R = TEE − 500 − 8·weight, WEIGHT_LOSS gives protein round(2·weight), carbohydrates round(0.6·R/4) and fats round(0.4·R/9); with C = TEE + 500, WEIGHT_GAIN gives round(0.3·C/4), round(0.4·C/4) and round(0.3·C/9); any other goal gives all zeros |
| MacroAdviceUtil.SplitCaloriesNearTarget | src/utils/MacroAdviceUtil.ts:81-109 | the calories of the rounded split stay within 8.5 kcal of TEE − 500 (loss) or TEE + 500 (gain) |
| MacroAdviceUtil.GenerateMacros | src/utils/MacroAdviceUtil.ts:127-155 | the result is null exactly when one of the six required profile fields is missing; otherwise it chains BMR → TEE → split, with current calories = calories of the split |
| MacroAdviceUtil.AdviceIgnoresOptionalFields | src/utils/MacroAdviceUtil.ts:127-155 | body fat and meals per day do not affect the advice |
| MacroAdviceUtil.WeightLossProtein | src/utils/MacroAdviceUtil.ts:84-98 | for a complete WEIGHT_LOSS profile the advised protein is twice the body weight, rounded |
| MacroAdviceUtil.CurrentCaloriesNearGoal | src/utils/MacroAdviceUtil.ts:127-155 | the advised current calories are within 8.5 kcal of TEE ∓ 500 for loss/gain; any other goal advises zeros |
| FoodLogUtil.GetMacroBreakdown | src/utils/FoodLogUtil.ts:62-73 | a log without meals has a zero breakdown, and a single meal's breakdown is that meal's macros; with `MacroBreakdownAppend` this fixes every field as the sum of the meals' macros |
| FoodLogUtil.MacroBreakdownAppend | src/utils/FoodLogUtil.ts:62-73 | the breakdown of two meal lists joined is the sum of their breakdowns |
| FoodLogUtil.MacroBreakdownCons | src/utils/FoodLogUtil.ts:62-73 | the breakdown of a meal followed by more meals is that meal's macros plus the breakdown of the rest |
| FoodLogUtil.TotalCaloriesAdditive | src/utils/FoodLogUtil.ts:94-101 | the calories of the summed macros equal the sum of each meal's macro calories |
| FoodLogUtil.GetMacroDeficitBreakdown | src/utils/FoodLogUtil.ts:81-87 | each deficit is non-negative, and zero exactly when eaten equals recommended |
| FoodLogUtil.DeficitSymmetric | src/utils/FoodLogUtil.ts:81-87 | the deficit is the same with eaten and recommended swapped |
| FoodLogUtil.DeficitFromNothing | src/utils/FoodLogUtil.ts:81-87 | against an empty intake the deficit is the absolute recommendation |
| FoodLogUtil.GetCaloriesBreakdown | src/utils/FoodLogUtil.ts:94-101 | protein and carbohydrates give 4 kcal per gram and fats 9, and the total is the sum of the three per-macro calories |
| FoodLogUtil.GetCaloriesDeficitBreakdown | src/utils/FoodLogUtil.ts:109-120 | each calorie deficit is the distance from its target: the total from the advice's current calories, protein and carbohydrates from 4 kcal per advised gram, fats from 9; each is non-negative and zero exactly when eaten equals the target |
| FoodLogUtil.GetCaloriesBreakdownForFoodLog | src/utils/FoodLogUtil.ts:35-55 | each summary part comes from the log's meals and the advice; the eaten total is the meals' macro calories; the suggested calories are 4/4/9 times the advised grams |
| FoodLogUtil.EatingTheAdviceLeavesNoDeficit | src/utils/FoodLogUtil.ts:35-55 | a log whose meals add up to the advised macros, against advice whose current calories are those macros' calories, shows no macro deficit and no calorie deficit |
| FoodLogUtil.EmptyLogBreakdown | src/utils/FoodLogUtil.ts:35-55 | an empty log eats nothing and its macro deficit is the whole recommendation |
| FoodLogUtil.GetCaloriesBreakdownForFoodLogs | src/utils/FoodLogUtil.ts:23-27 | one summary per log, in order |
| MealUtil.CreateMealIdToPropMap | src/utils/MealUtil.ts:14-31 | the loop builds the specified id-to-key map, whose keys are exactly the meals' ids |
| MealUtil.MealIdToPropMapKeys | src/utils/MealUtil.ts:14-31 | the map's keys are exactly the ids of the meals |
| MealUtil.MealIdToPropMapLastWins | src/utils/MealUtil.ts:28 | under each id the map holds the key of the last meal with that id |
| MealUtil.SharedIdSortsByLaterValue | src/utils/MealUtil.ts:28 | an earlier meal that shares an id with a later one is sorted by the later one's value |
| MealUtil.StringComparator | src/utils/MealUtil.ts:44 | the comparator never returns 0, not even for equal names; it is negative exactly when the first name is greater than the second in code-point order |
| MealUtil.Compare | src/utils/MealUtil.ts:46-60 | the comparator handed to `sort`: for a numeric column it is negative exactly when the first value is smaller (ASC) or larger (DESC) and zero exactly on equal values; for NAME it is never zero and negative exactly when the first name is greater (ASC) or smaller (DESC) (totality and transitivity of the order it induces are stated by `MayPrecedeTotal` and `MayPrecedeTransitive`) |
| MealUtil.MayPrecedeTotal | src/utils/MealUtil.ts:46-60 | every two keys are comparable under either sort order |
| MealUtil.MayPrecedeTransitive | src/utils/MealUtil.ts:46-60 | the comparator's order is transitive under either sort order, so `sort` has a consistent result |
| MealUtil.InsertingDone | src/utils/MealUtil.ts:46-60 | a key that has sunk into place extends the sorted prefix |
| MealUtil.InsertingStep | src/utils/MealUtil.ts:46-60 | swapping an out-of-order pair while the key sinks keeps the insertion invariant |
| MealUtil.InsertIntoPrefix | src/utils/MealUtil.ts:46-60 | inserting one element grows the sorted prefix, leaves the rest of the array alone and permutes the array |
| MealUtil.SortMeals | src/utils/MealUtil.ts:39-61 | the array is sorted in place (the same array is returned), is a permutation of the input, and is in comparator order under the map built from the input |
| MealUtil.SortedMeaning | src/utils/MealUtil.ts:42-60 | in sorted output numbers ascend under ASC and descend under DESC; names come in descending code-point order under ASC and in ascending order under DESC |
| MealUtil.DistinctIdsSortByOwnFields | src/utils/MealUtil.ts:14-31 | when ids are distinct, each meal is sorted by its own field value |
| MealUtil.DistinctIdsOfPermutation | src/utils/MealUtil.ts:14-31 | rearranging a list with distinct ids keeps its ids distinct, so the id-keyed map stays one key per meal |
| MealSuggestionUtil.CalculateCalories | src/utils/MealSuggestionUtil.ts:156-158 | the summed calories of a list of meals: non-negative when every meal's are, and a single meal's own calories (additivity and order-independence are stated by `CaloriesAppend` and `CaloriesPermutation`) |
| MealSuggestionUtil.CaloriesAppend | src/utils/MealSuggestionUtil.ts:156-158 | the calories of two lists joined are the sum of their calories |
| MealSuggestionUtil.CaloriesRemoveAt | src/utils/MealSuggestionUtil.ts:156-158 | removing one meal lowers the calories by that meal's calories |
| MealSuggestionUtil.CaloriesPermutation | src/utils/MealSuggestionUtil.ts:156-158 | reordering meals does not change their calories |
| MealSuggestionUtil.Swap | src/utils/MealSuggestionUtil.ts:146 | the destructuring swap exchanges two positions and keeps every other one |
| MealSuggestionUtil.SwapPermutes | src/utils/MealSuggestionUtil.ts:146 | a swap permutes the list |
| MealSuggestionUtil.ShuffleStepsPermutes | src/utils/MealSuggestionUtil.ts:143-149 | the shuffle's remaining steps keep the length and permute the list |
| MealSuggestionUtil.ShuffledPermutes | src/utils/MealSuggestionUtil.ts:143-149 | the shuffled list is a permutation of the input, whatever the random draws |
| MealSuggestionUtil.Shuffle | src/utils/MealSuggestionUtil.ts:143-149 | the loop shuffles the array in place to the specified Fisher-Yates result and returns the same array |
| MealSuggestionUtil.BucketCounts | src/utils/MealSuggestionUtil.ts:70-76 | each meal is counted in the high bucket when above the average, in the low bucket otherwise |
| MealSuggestionUtil.BucketsPartition | src/utils/MealSuggestionUtil.ts:66-82 | the two buckets together are the meals: above-average meals in one, the rest in the other |
| MealSuggestionUtil.BucketsOfPermutation | src/utils/MealSuggestionUtil.ts:66-82 | reordering the meals reorders the buckets but keeps their contents |
| MealSuggestionUtil.CreateMealsSubsets | src/utils/MealSuggestionUtil.ts:66-82 | the loop builds exactly the specified high and low buckets |
| MealSuggestionUtil.SuggestMoreThanOneMeal | src/utils/MealSuggestionUtil.ts:112-136 | the result is a sub-bag of the two buckets: all of them when they fit, n pool meals when a bucket is short, otherwise ⌊n/2⌋ high then ⌈n/2⌉ low |
| MealSuggestionUtil.PrefixIsSubBag | src/utils/MealSuggestionUtil.ts:128 | `slice(0, k)` takes a sub-bag of the list |
| MealSuggestionUtil.CreateSuggestions | src/utils/MealSuggestionUtil.ts:90-103 | nothing is suggested unless meals per day is 3 or 5; otherwise the suggestion is a sub-bag of the buckets |
| MealSuggestionUtil.SuggestionSize | src/utils/MealSuggestionUtil.ts:90-136 | for 3 or 5 meals a day the suggestion has min(pool size, meals per day) meals |
| MealSuggestionUtil.CreateSuggestionsAllocates | src/utils/MealSuggestionUtil.ts:66-136 | the buckets' suggestion is a valid allocation of the pool |
| MealSuggestionUtil.ValidAllocationPermutation | src/utils/MealSuggestionUtil.ts:52-57 | whether an allocation is valid depends on the pool's meals, not their order, so sorting first changes nothing |
| MealSuggestionUtil.WholePoolCalories | src/utils/MealSuggestionUtil.ts:121-122 | when the whole pool is suggested, its calories are the pool's |
| MealSuggestionUtil.GetMeals | src/utils/MealSuggestionUtil.ts:49-58 | the caller's array is left permuted and sorted by descending calories, and the result is a valid allocation of the original meals around the average |
| MealSuggestionUtil.SuggestionCount | src/utils/MealSuggestionUtil.ts:25-30 | the number of alternatives defaults to meals per day; a negative count gives none |
| MealSuggestionUtil.DescendingByOwnCalories | src/utils/MealSuggestionUtil.ts:52-55 | with distinct ids, a list sorted DESC by calories under the id-keyed map of a rearrangement has each meal's calories at least those of every later meal |
| MealSuggestionUtil.GetSuggestions | src/utils/MealSuggestionUtil.ts:25-39 | there are as many alternatives as requested; each totals its own meals' calories and is a valid allocation of the original meals; the array stays a permutation; it is untouched when no alternative is made, and otherwise left sorted by descending calories (under the keys of the rearrangement it was last sorted from, so by each meal's own calories when ids are distinct) |
| IdLists.ReplaceById | src/reducers/MealReducer.ts:15-26 | the length is kept; elements with the payload's id become the payload, and the rest are unchanged |
| IdLists.RemoveById | src/reducers/MealReducer.ts:28-31 | no element with the id remains, every other element stays, and nothing new appears |
| IdLists.RemoveByIdAppend | src/reducers/MealReducer.ts:28-31 | filtering by id distributes over concatenation |
| IdLists.FirstById | src/components/addEditFoodLog/AddEditFoodLogForm.tsx:165 | `filter(...)[0]` is the first element with the id; it is absent exactly when no element has that id |
| MealReducer.Reduce | src/reducers/MealReducer.ts:8-36 | ADD appends; EDIT replaces every meal with the payload's id in place; REMOVE drops exactly the meals with that id; other actions change nothing |
| MealReducer.RemoveKeepsOrder | src/reducers/MealReducer.ts:28-31 | removal keeps the relative order of the remaining meals |
| MealReducer.AbsentIdUnchanged | src/reducers/MealReducer.ts:15-31 | editing or removing an id not in the list changes nothing |
| MealReducer.AddThenRemove | src/reducers/MealReducer.ts:10-31 | adding a meal with a fresh id and then removing it restores the list |
| MealReducer.EditRemoveIdempotent | src/reducers/MealReducer.ts:15-31 | EDIT and REMOVE are idempotent |
| FoodLogReducer.Reduce | src/reducers/FoodLogReducer.ts:8-36 | ADD appends; EDIT replaces every log with the payload's id in place; REMOVE drops exactly the logs with that id; other actions change nothing |
| FoodLogReducer.RemoveKeepsOrder | src/reducers/FoodLogReducer.ts:28-31 | removal keeps the relative order of the remaining logs |
| FoodLogReducer.AbsentIdUnchanged | src/reducers/FoodLogReducer.ts:15-31 | editing or removing an id not in the list changes nothing |
| FoodLogReducer.AddThenRemove | src/reducers/FoodLogReducer.ts:10-31 | adding a log with a fresh id and then removing it restores the list |
| FoodLogReducer.EditRemoveIdempotent | src/reducers/FoodLogReducer.ts:15-31 | EDIT and REMOVE are idempotent |
| ProfileReducer.Spread | src/reducers/ProfileReducer.ts:11-14 | a key present in the payload wins; an absent one keeps the state's value |
| ProfileReducer.Reduce | src/reducers/ProfileReducer.ts:8-20 | SET_PROFILE spreads the payload over the state (an undefined payload changes nothing); other actions change nothing |
| ProfileReducer.MergeKeys | src/reducers/ProfileReducer.ts:11-14 | for each of the eight profile keys, the payload's value wins when present and the state's is kept otherwise |
| ProfileReducer.EmptyPayloadUnchanged | src/reducers/ProfileReducer.ts:10-15 | an empty payload leaves the profile as it was |
| ProfileReducer.ReduceIdempotent | src/reducers/ProfileReducer.ts:8-20 | applying the same action twice is the same as applying it once |
| MacroAdviceReducer.Merge | src/reducers/MacroAdviceReducer.ts:12-15 | a complete advice payload replaces every field of the state |
| MacroAdviceReducer.Reduce | src/reducers/MacroAdviceReducer.ts:9-21 | SET_MACRO_ADVICE stores the payload (an undefined payload changes nothing); other actions change nothing |
| MacroAdviceReducer.ReduceIdempotent | src/reducers/MacroAdviceReducer.ts:9-21 | applying the same action twice is the same as applying it once |
| ProfileForm.AgeIsValid | src/components/profileForm/ProfileForm.tsx:136-138 | an age is accepted exactly when it is in [0, 99] |
| ProfileForm.BodyWeightIsValid | src/components/profileForm/ProfileForm.tsx:144-146 | a weight is accepted exactly when it is in [0, 999] |
| ProfileForm.BodyHeightIsValid | src/components/profileForm/ProfileForm.tsx:152-154 | a height is accepted exactly when it is in [0, 999] |
| ProfileForm.BodyFatIsValid | src/components/profileForm/ProfileForm.tsx:160-162 | a body fat percentage is accepted exactly when it is in [0, 99] |
| ProfileForm.Accepts | src/components/profileForm/ProfileForm.tsx:193-197 | keys without a validator (gender, exercise days, meals per day, goal) are always accepted |
| ProfileForm.ProfileModelChangesOneKey | src/components/profileForm/ProfileForm.tsx:200-207 | the new profile differs from the old one only in the edited key, which holds the new value |
| ProfileForm.HandleChange | src/components/profileForm/ProfileForm.tsx:188-217 | a rejected value dispatches nothing; an accepted one stores the new profile and the advice generated from it; advice is never stored without the profile |
| ProfileForm.StoredProfile | src/components/profileForm/ProfileForm.tsx:200-211 | the profile reducer stores exactly the form's new profile; a rejected change leaves it as it was |
| ProfileForm.AdviceStoredWhenComplete | src/components/profileForm/ProfileForm.tsx:209-215 | advice is dispatched exactly when the new profile has every field the advice needs |
| AddEditMealForm.HandleSave | src/components/addEditMeal/AddEditMealForm.tsx:80-105 | a meal with an id is edited, one without is added; the saved calories are 4p + 4c + 9f; a new id is a decimal numeral no greater than 1000 |
| AddEditMealForm.SavedEditReplaces | src/components/addEditMeal/AddEditMealForm.tsx:88-94 | after an edit the store holds the saved meal under its id, and its calories match its macros |
| AddEditMealForm.HandleChange | src/components/addEditMeal/AddEditMealForm.tsx:112-138 | a name edit changes only the name; a macro edit changes only that macro; the id and calories are untouched; the calories key changes nothing |
| AddEditFoodLogForm.MealsPerDay | src/components/addEditFoodLog/AddEditFoodLogForm.tsx:252 | meals per day defaults to 3 when unset or 0; it is never 0 |
| AddEditFoodLogForm.PlaceholderIdsDistinct | src/components/addEditFoodLog/AddEditFoodLogForm.tsx:103 | placeholder ids `100<i>` are distinct for distinct slots |
| AddEditFoodLogForm.PlaceholderMeals | src/components/addEditFoodLog/AddEditFoodLogForm.tsx:101-104 | the loop makes one empty template meal per slot with id `100<i>`, and the ids are pairwise distinct |
| AddEditFoodLogForm.SelectionChanged | src/components/addEditFoodLog/AddEditFoodLogForm.tsx:163-178 | only the selected slot changes, and it becomes the first catalogue meal with the chosen id; an unknown id changes nothing |
| AddEditFoodLogForm.FoodLogEditor.constructor | src/components/addEditFoodLog/AddEditFoodLogForm.tsx:86 | the state starts as the log passed in |
| AddEditFoodLogForm.FoodLogEditor.SyncWithProps | src/components/addEditFoodLog/AddEditFoodLogForm.tsx:94-110 | a log with meals is taken as is; an empty one gets one placeholder per meal of the day, and its other fields are kept |
| AddEditFoodLogForm.FoodLogEditor.SelectMeal | src/components/addEditFoodLog/AddEditFoodLogForm.tsx:163-178 | the state becomes the selection-changed log |
| AddEditFoodLogForm.FoodLogEditor.HandleSave | src/components/addEditFoodLog/AddEditFoodLogForm.tsx:122-142 | with an unnamed meal nothing is dispatched and the state is unchanged; otherwise the log gets its breakdown and formatted date and is dispatched as an edit iff it has an id |
| AddEditFoodLogForm.PlaceholdersBlockSave | src/components/addEditFoodLog/AddEditFoodLogForm.tsx:94-126 | a log still holding its placeholders cannot be saved |
| AddEditFoodLogForm.SavedSummaryMatchesMeals | src/components/addEditFoodLog/AddEditFoodLogForm.tsx:129-133 | a saved log's summary totals its own meals |
| MealsTable.IsIndeterminate | src/components/mealsTable/MealsTable.tsx:182-188 | with no rows the header is indeterminate; otherwise it is indeterminate exactly when some but not all rows are selected |
| MealsTable.IsChecked | src/components/mealsTable/MealsTable.tsx:193-199 | the header is checked exactly when there are rows and all are selected |
| MealsTable.HeaderStatesExclusive | src/components/mealsTable/MealsTable.tsx:182-199 | the header is never both checked and indeterminate |
| MealsTable.EmptyRows | src/components/mealsTable/MealsTable.tsx:340 | the padding is never negative; it is 0 on a full page and fills a short page up to the page size |
| MealsTable.IndexOf | src/components/mealsTable/MealsTable.tsx:347 | the result is -1 exactly when the id is absent, and otherwise its first position |
| MealsTable.IsSelected | src/components/mealsTable/MealsTable.tsx:347 | a row is selected exactly when its id is in the selection |
| MealsTable.HandleSelectAllClick | src/components/mealsTable/MealsTable.tsx:387-394 | checking selects every meal's id in order; unchecking clears the selection |
| MealsTable.SelectAllChecksHeader | src/components/mealsTable/MealsTable.tsx:182-199 | after select-all the header is checked and not indeterminate |
| MealsTable.HandleRowCheckboxClick | src/components/mealsTable/MealsTable.tsx:402-420 | an absent id is appended; a present one is removed at its first position; the length changes by one |
| MealsTable.RemoveAtElements | src/components/mealsTable/MealsTable.tsx:408-416 | the concatenated slices drop one position and shift the later ones down |
| MealsTable.RowClickKeepsNoDuplicates | src/components/mealsTable/MealsTable.tsx:402-420 | a selection without duplicates stays without duplicates |
| MealsTable.RowClickFlipsRow | src/components/mealsTable/MealsTable.tsx:402-420 | a click flips the clicked row's selected state |
| MealsTable.RowClickKeepsOtherRows | src/components/mealsTable/MealsTable.tsx:402-420 | a click does not change any other row's state |
| MealsTable.RowClickTwiceRestores | src/components/mealsTable/MealsTable.tsx:402-420 | clicking an unselected row twice restores the selection |
| MealsTable.GetFilteredMeals | src/components/mealsTable/MealsTable.tsx:366-368 | a meal is kept exactly when its lower-cased name contains the lower-cased search text |
| MealsTable.FilterKeepsOrder | src/components/mealsTable/MealsTable.tsx:366-368 | filtering distributes over concatenation, so the order is kept |
| MealsTable.EmptySearchKeepsAll | src/components/mealsTable/MealsTable.tsx:366-368 | an empty search keeps every meal |
| MealsTable.HandleRequestSort | src/components/mealsTable/MealsTable.tsx:376-380 | the clicked column becomes the sort column; the order is ASC exactly when it was already this column in DESC |
| MealsTable.SecondClickFlips | src/components/mealsTable/MealsTable.tsx:376-380 | clicking the same header again flips the direction |
| MealsTable.MealIdToModelMap | src/components/mealsTable/MealsTable.tsx:449-454 | the id-to-meal map has exactly the ids of the meals as keys, and under each id one of the meals with that id (that it is the first such meal is stated by `MealIdToModelMapFirst`) |
| MealsTable.MealIdToModelMapFirst | src/components/mealsTable/MealsTable.tsx:449-454 | the map holds, under each id, the first meal with that id |
| MealsTable.FirstByIdOfLast | src/components/mealsTable/MealsTable.tsx:449-454 | the first meal with an id is found before the last meal, or is the last meal itself |
| MealsTable.HandleDeleteSelected | src/components/mealsTable/MealsTable.tsx:447-462 | one removal per selected id, in order, each the first meal with that id (absent if none); the selection is cleared |
| MealsTable.ApplyRemovals | src/components/mealsTable/MealsTable.tsx:457-459 | dispatching the removals one after the other either fails or leaves a store no longer than before, holding only meals it held before (exactly when it fails and which meals survive is stated by `ApplyRemovalsRemoves`) |
| MealsTable.ApplyRemovalsRemoves | src/components/mealsTable/MealsTable.tsx:457-459 | the removals fail exactly when an undefined payload arrives while the store still holds a meal whose id the earlier payloads did not remove; otherwise they keep exactly the meals whose ids were not removed |
| MealsTable.ApplyRemovalsToEmpty | src/reducers/MealReducer.ts:28-31 | removals against an empty store never fail and leave it empty, since `filter` never calls back on an empty list |
| MealsTable.RemovedIdsOfSelection | src/components/mealsTable/MealsTable.tsx:449-459 | a meal's id is removed by the first k payloads exactly when it is among the first k selected ids |
| MealsTable.DeleteRemovesSelected | src/components/mealsTable/MealsTable.tsx:447-462 | deletion fails exactly when some selected id belongs to no meal while a meal not selected before it is still in the store; otherwise it leaves exactly the meals that were not selected |
| Strings.LessTotal | src/utils/MealUtil.ts:44 | two different names are always ordered one way or the other |
| Strings.LessTransitive | src/utils/MealUtil.ts:44 | the code-point order of names is transitive |
| Strings.DecimalRoundTrip | src/components/addEditFoodLog/AddEditFoodLogForm.tsx:103 | reading back a number's decimal string gives the number |
| Strings.IncludesMeansOccurs | src/components/mealsTable/MealsTable.tsx:367 | `includes` holds exactly when the text occurs at some position |

## Left out

- Floating point: numbers are exact reals. `Numbers.Round` rounds halves away from zero, as `toFixed(0)` does for the values here. Binary representation error in products such as `13.7 * w` is not modelled.
- `Math.random`: in the shuffle, the draw for step `i` is a parameter (`Chooser`), reduced mod `i + 1`. In `GetSuggestions` the draws are indexed by alternative, shuffle and step (`Random`). In the meal form the id draw is a natural number reduced mod 1001, standing for `getRandomIntInclusive(0, 1000)`.
- `Array.prototype.sort`: its algorithm is unspecified. `MealUtil.SortMeals` uses insertion sort, which is one correct outcome. Its contract states the comparator's order, not a particular placement of equal keys.
- `MealUtil.KeyIn`: a meal whose id is not in the key map is read as key 0. This cannot happen for a map built from the same meals.
- `MealSuggestionUtil.SuggestMoreThanOneMeal`: uses the `Shuffled` function rather than calling the in-place `Shuffle` method. The arrays shuffled there are the spread concatenation and the two bucket arrays. `createMealsSubsets` builds the buckets fresh on every call, so no caller observes them change.
- `MealSuggestionUtil.GetMeals`: with 0 meals per day, the average is taken as 0 instead of dividing by zero. The result is `[]` either way.
- `AddEditFoodLogForm.MealsPerDay`: `||` treats 0 as falsy, so 0 meals per day becomes 3. Values other than 3 and 5 are not checked against the enum.
- String/number coercion of form inputs: the forms receive already-parsed values. The text-to-number conversion of `event.target.value` is not modelled.
- `Strings.ToLower` lower-cases only ASCII letters. Unicode case mapping is not modelled.
- `Strings.Less`: compares strings by Unicode code point, while JavaScript compares UTF-16 code units. The two orders differ only for characters beyond U+FFFF, which JavaScript stores as surrogate pairs. For example, JavaScript puts U+10000 before U+FFFF.
- Date handling: the `moment(...).format("MM/DD/YYYY")` call is a `formatDate` parameter, and `handleDateChange` is not modelled.
- Rendering: JSX, Material-UI, charts, paging handlers, dialogs and the Redux store wiring (`connect`, `combineReducers`) are not modelled. So are the action-creator modules, which only build the action records modelled as datatypes.
- The props-alias write in `handleSave` of the food log form: the source mutates the state object in place. The model reassigns the editor's `foodLog` field, so aliasing with the parent's props is not captured.
- Spreads of keys explicitly set to `undefined`: a profile payload key is either present with a value or absent (`None`).
- `MealsTable.HandleDeleteSelected`: always returns the cleared selection. In the source, a removal that throws stops the handler before `setSelected([])`, so the selection would stay. The model keeps the payloads and the store update (`ApplyRemovals`) apart from the selection.
- `MealsTable.ApplyRemovals`: `removeMeal(undefined)` throws in the reducer when `filter` calls back, that is when the store still holds a meal. It is modelled as a failed (`None`) result rather than an exception. Against an empty store it changes nothing.
- The `CaloriePerGram` enum, imported from `src/models` by `src/utils/MacroAdviceUtil.ts`, is not among the model's source files and is not a separate declaration. Its values are taken as 4/4/9, the rates the doc comment of `calculateCaloriesForMacroType` gives (`src/utils/MacroAdviceUtil.ts:157-158`), and are written into `CalculateCaloriesForMacroType`.
- Mock data (`src/models/MockData.ts`) and the colour/theme utilities are not part of this model.
