/**
 * The food-log dialog: the log being edited is the component's state.
 * A log without meals gets one placeholder meal per meal of the day (empty
 * name, ids "1000", "1001", ...); picking a catalog meal fills a slot;
 * save refuses while a slot is empty, otherwise writes the breakdown
 * summary and the formatted date into the log and dispatches it.
 */
module AddEditFoodLogForm {
  import opened Wrappers
  import opened Models
  import Strings
  import IdLists
  import FoodLogUtil
  import FoodLogReducer

  /** The template meal the placeholders copy. */
  const EmptyMeal := Meal("", "", NoMacros, 0.0)

  /** Meals a day as the dialog reads it: the profile's value, or 3 when that is missing or 0. */
  function MealsPerDay(profile: UserProfile): (n: int)
    ensures profile.numOfMealsInADay.None? ==> n == 3
    ensures n != 0
    ensures profile.numOfMealsInADay.Some? && profile.numOfMealsInADay.value != 0 ==> n == profile.numOfMealsInADay.value
  {
    if profile.numOfMealsInADay.None? || profile.numOfMealsInADay.value == 0 then 3
    else profile.numOfMealsInADay.value
  }

  /** The id of placeholder `i`: "100" followed by `i` in decimal. */
  function PlaceholderId(i: nat): string
  {
    "100" + Strings.DecimalString(i)
  }

  /** Distinct placeholders get distinct ids. */
  lemma PlaceholderIdsDistinct(i: nat, j: nat)
    requires i != j
    ensures PlaceholderId(i) != PlaceholderId(j)
  {
    if PlaceholderId(i) == PlaceholderId(j) {
      assert Strings.DecimalString(i) == PlaceholderId(i)[3..];
      assert Strings.DecimalString(j) == PlaceholderId(j)[3..];
      Strings.DecimalStringInjective(i, j);
    }
  }

  /** The loop of the effect: `n` copies of the template, each with its own id. */
  method PlaceholderMeals(numOfMealsInADay: int) returns (emptyMeals: seq<Meal>)
    ensures |emptyMeals| == if numOfMealsInADay < 0 then 0 else numOfMealsInADay
    ensures forall i :: 0 <= i < |emptyMeals| ==> emptyMeals[i] == EmptyMeal.(id := PlaceholderId(i))
    ensures forall i, j :: 0 <= i < j < |emptyMeals| ==> emptyMeals[i].id != emptyMeals[j].id
  {
    emptyMeals := [];
    var i := 0;
    while i < numOfMealsInADay
      invariant 0 <= i <= if numOfMealsInADay < 0 then 0 else numOfMealsInADay
      invariant |emptyMeals| == i
      invariant forall k :: 0 <= k < i ==> emptyMeals[k] == EmptyMeal.(id := PlaceholderId(k))
    {
      emptyMeals := emptyMeals + [EmptyMeal.(id := PlaceholderId(i))];
      i := i + 1;
    }
    forall i, j | 0 <= i < j < |emptyMeals|
      ensures emptyMeals[i].id != emptyMeals[j].id
    {
      PlaceholderIdsDistinct(i, j);
    }
  }

  /** `foodLog.meals.find(meal => meal.name === '')` found one. */
  predicate HasEmptyMeals(meals: seq<Meal>)
  {
    exists i :: 0 <= i < |meals| && meals[i].name == ""
  }

  /**
   * `handleSelectionChange(index)(event)`: slot `index` (one of the slots
   * the dialog renders) takes a copy of the first catalog meal with the
   * chosen id (`props.meals.filter(meal => meal.id === value)[0]`); with
   * no such meal the log is unchanged.
   */
  function SelectionChanged(foodLog: FoodLog, catalog: seq<Meal>, index: int, value: string): (r: FoodLog)
    requires 0 <= index < |foodLog.meals|
    ensures |r.meals| == |foodLog.meals|
    ensures r.id == foodLog.id && r.date == foodLog.date && r.breakdownSummary == foodLog.breakdownSummary
    ensures forall k :: 0 <= k < |r.meals| && k != index ==> r.meals[k] == foodLog.meals[k]
    ensures IdLists.FirstById(catalog, MealId, value).Some? ==> r.meals[index] == IdLists.FirstById(catalog, MealId, value).value
    ensures IdLists.FirstById(catalog, MealId, value).None? ==> r == foodLog
  {
    var matchingMenuItem := IdLists.FirstById(catalog, MealId, value);
    if matchingMenuItem.Some? then
      foodLog.(meals := foodLog.meals[index := matchingMenuItem.value])
    else
      foodLog
  }

  /** The dialog, holding the log being edited. */
  class FoodLogEditor {
    var foodLog: FoodLog

    constructor (foodLog: FoodLog)
      ensures this.foodLog == foodLog
    {
      this.foodLog := foodLog;
    }

    /** The effect run when the log or the meals a day change. */
    method SyncWithProps(propsFoodLog: FoodLog, numOfMealsInADay: int)
      modifies this
      ensures |propsFoodLog.meals| > 0 ==> foodLog == propsFoodLog
      ensures |propsFoodLog.meals| == 0 ==>
        foodLog.id == propsFoodLog.id && foodLog.date == propsFoodLog.date &&
        foodLog.breakdownSummary == propsFoodLog.breakdownSummary &&
        |foodLog.meals| == (if numOfMealsInADay < 0 then 0 else numOfMealsInADay) &&
        forall i :: 0 <= i < |foodLog.meals| ==> foodLog.meals[i] == EmptyMeal.(id := PlaceholderId(i))
    {
      if |propsFoodLog.meals| > 0 {
        foodLog := propsFoodLog;
      } else {
        var emptyMeals := PlaceholderMeals(numOfMealsInADay);
        foodLog := propsFoodLog.(meals := emptyMeals);
      }
    }

    /** `handleSelectionChange`: the new log replaces the state. */
    method SelectMeal(catalog: seq<Meal>, index: int, value: string)
      requires 0 <= index < |foodLog.meals|
      modifies this
      ensures foodLog == SelectionChanged(old(foodLog), catalog, index, value)
    {
      foodLog := SelectionChanged(foodLog, catalog, index, value);
    }

    /**
     * `handleSave`: nothing while a meal has an empty name; otherwise the
     * log itself is given its breakdown summary and its date in the
     * display format (`formatDate` stands for the date library), and is
     * dispatched as an edit when it has an id, as an add otherwise.
     */
    method HandleSave(macroAdvice: MacroAdvice, formatDate: string -> string)
      returns (dispatched: Option<FoodLogReducer.FoodLogAction>)
      modifies this
      ensures HasEmptyMeals(old(foodLog.meals)) ==> dispatched.None? && foodLog == old(foodLog)
      ensures !HasEmptyMeals(old(foodLog.meals)) ==>
        foodLog == old(foodLog).(breakdownSummary := FoodLogUtil.GetCaloriesBreakdownForFoodLog(old(foodLog), macroAdvice),
                                 date := formatDate(old(foodLog.date)))
      ensures !HasEmptyMeals(old(foodLog.meals)) && old(foodLog.id) != "" ==> dispatched == Some(FoodLogReducer.EditFoodLog(foodLog))
      ensures !HasEmptyMeals(old(foodLog.meals)) && old(foodLog.id) == "" ==> dispatched == Some(FoodLogReducer.AddFoodLog(foodLog))
    {
      if HasEmptyMeals(foodLog.meals) {
        return None;
      }
      var breakdownSummary := FoodLogUtil.GetCaloriesBreakdownForFoodLog(foodLog, macroAdvice);
      foodLog := foodLog.(breakdownSummary := breakdownSummary);
      foodLog := foodLog.(date := formatDate(foodLog.date));
      if foodLog.id != "" {
        dispatched := Some(FoodLogReducer.EditFoodLog(foodLog));
      } else {
        dispatched := Some(FoodLogReducer.AddFoodLog(foodLog));
      }
    }
  }

  /** A log given placeholders cannot be saved until every slot has been filled. */
  lemma PlaceholdersBlockSave(meals: seq<Meal>)
    requires |meals| > 0 && forall i :: 0 <= i < |meals| ==> meals[i] == EmptyMeal.(id := PlaceholderId(i))
    ensures HasEmptyMeals(meals)
  {
    assert meals[0].name == "";
  }

  /** The summary a saved log carries is the one computed from its own meals. */
  lemma SavedSummaryMatchesMeals(foodLog: FoodLog, macroAdvice: MacroAdvice, formatDate: string -> string)
    ensures var saved := foodLog.(breakdownSummary := FoodLogUtil.GetCaloriesBreakdownForFoodLog(foodLog, macroAdvice),
                                  date := formatDate(foodLog.date));
      saved.breakdownSummary.caloriesBreakdown.totalCalories == FoodLogUtil.MacroCaloriesSum(saved.meals) &&
      saved.breakdownSummary.macroBreakdown == FoodLogUtil.GetMacroBreakdown(saved.meals)
  {
  }
}
