/**
 * Meal suggestions: per alternative, the pool of meals is sorted by
 * descending calories, split into an above-average and an at-or-below
 * average bucket, and composed into one day's meals by one of three
 * policies, using an in-place Fisher-Yates shuffle.
 *
 * `Math.random` is not modelled; the shuffle takes a `Chooser` giving
 * the raw draw at each step, of which the index used is `draw % (i + 1)`,
 * so every index in `0..i` can be chosen.
 */
module MealSuggestionUtil {
  import opened Wrappers
  import opened Models
  import MealUtil

  /** The raw draw at each step `i` of one shuffle. */
  type Chooser = nat -> nat

  /** The raw draws of a whole `getSuggestions` call: alternative, shuffle within it, step. */
  type Random = (nat, nat, nat) -> nat

  /* ---------------------------------------------------------------- */
  /* calculateCalories                                                 */
  /* ---------------------------------------------------------------- */

  /** `meals.reduce((sum, meal) => sum + meal.calories, 0)`. */
  function CalculateCalories(meals: seq<Meal>): (r: real)
    ensures (forall i :: 0 <= i < |meals| ==> meals[i].calories >= 0.0) ==> r >= 0.0
    ensures |meals| == 1 ==> r == meals[0].calories
  {
    if meals == [] then 0.0 else CalculateCalories(meals[..|meals| - 1]) + meals[|meals| - 1].calories
  }

  lemma {:induction false} CaloriesAppend(a: seq<Meal>, b: seq<Meal>)
    ensures CalculateCalories(a + b) == CalculateCalories(a) + CalculateCalories(b)
    decreases |b|
  {
    if b == [] {
      assert a + b == a;
    } else {
      var n := |b| - 1;
      assert (a + b)[..|a + b| - 1] == a + b[..n];
      CaloriesAppend(a, b[..n]);
    }
  }

  /** Taking one meal out of a list takes its calories off the total. */
  lemma CaloriesRemoveAt(s: seq<Meal>, k: int)
    requires 0 <= k < |s|
    ensures CalculateCalories(s) == CalculateCalories(s[..k] + s[k + 1..]) + s[k].calories
  {
    var front, x, back := s[..k], s[k], s[k + 1..];
    assert (front + [x]) + back == s;
    CaloriesAppend(front + [x], back);
    assert (front + [x])[..|front|] == front;
    assert CalculateCalories(front + [x]) == CalculateCalories(front) + x.calories;
    CaloriesAppend(front, back);
  }

  /** The total does not depend on the order of the meals. */
  lemma {:induction false} CaloriesPermutation(a: seq<Meal>, b: seq<Meal>)
    requires multiset(a) == multiset(b)
    ensures CalculateCalories(a) == CalculateCalories(b)
    decreases |a|
  {
    if a != [] {
      var n := |a| - 1;
      var x := a[n];
      assert a == a[..n] + [x];
      assert x in multiset(b);
      var k :| 0 <= k < |b| && b[k] == x;
      var rest := b[..k] + b[k + 1..];
      assert b == b[..k] + [x] + b[k + 1..];
      assert multiset(rest) == multiset(b) - multiset{x};
      CaloriesPermutation(a[..n], rest);
      CaloriesRemoveAt(b, k);
    }
  }

  /* ---------------------------------------------------------------- */
  /* shuffle                                                           */
  /* ---------------------------------------------------------------- */

  function Swap(s: seq<Meal>, i: int, j: int): (r: seq<Meal>)
    requires 0 <= i < |s| && 0 <= j < |s|
    ensures |r| == |s| && r[i] == s[j] && r[j] == s[i]
    ensures forall k :: 0 <= k < |s| && k != i && k != j ==> r[k] == s[k]
  {
    s[i := s[j]][j := s[i]]
  }

  lemma SwapPermutes(s: seq<Meal>, i: int, j: int)
    requires 0 <= i < |s| && 0 <= j < |s|
    ensures multiset(Swap(s, i, j)) == multiset(s)
  {
    var t := s[i := s[j]];
    assert multiset(t) == multiset(s) - multiset{s[i]} + multiset{s[j]};
  }

  /** The steps `i`, `i - 1`, ..., `1` of the shuffle, each swapping index `i` with one in `0..i`. */
  function ShuffleSteps(s: seq<Meal>, i: nat, choose: Chooser): seq<Meal>
    requires i < |s|
    decreases i
  {
    if i == 0 then s else ShuffleSteps(Swap(s, i, choose(i) % (i + 1)), i - 1, choose)
  }

  /** The whole shuffle, from the last index down to 1. */
  function Shuffled(s: seq<Meal>, choose: Chooser): seq<Meal>
  {
    if s == [] then [] else ShuffleSteps(s, |s| - 1, choose)
  }

  lemma {:induction false} ShuffleStepsPermutes(s: seq<Meal>, i: nat, choose: Chooser)
    requires i < |s|
    ensures |ShuffleSteps(s, i, choose)| == |s|
    ensures multiset(ShuffleSteps(s, i, choose)) == multiset(s)
    decreases i
  {
    if i > 0 {
      var j := choose(i) % (i + 1);
      SwapPermutes(s, i, j);
      ShuffleStepsPermutes(Swap(s, i, j), i - 1, choose);
    }
  }

  /** A shuffle rearranges its argument: same length, same meals. */
  lemma ShuffledPermutes(s: seq<Meal>, choose: Chooser)
    ensures |Shuffled(s, choose)| == |s|
    ensures multiset(Shuffled(s, choose)) == multiset(s)
  {
    if s != [] {
      ShuffleStepsPermutes(s, |s| - 1, choose);
    }
  }

  /** `shuffle`: the in-place swap loop, returning the array it was given. */
  method Shuffle(meals: array<Meal>, choose: Chooser) returns (shuffled: array<Meal>)
    modifies meals
    ensures shuffled == meals
    ensures meals[..] == Shuffled(old(meals[..]), choose)
  {
    var i := meals.Length - 1;
    while i > 0
      invariant meals.Length == 0 ==> meals[..] == old(meals[..])
      invariant meals.Length > 0 ==> 0 <= i < meals.Length
      invariant meals.Length > 0 ==> ShuffleSteps(meals[..], i, choose) == Shuffled(old(meals[..]), choose)
    {
      var j := choose(i) % (i + 1);
      ghost var before := meals[..];
      meals[i], meals[j] := meals[j], meals[i];
      assert meals[..] == Swap(before, i, j);
      i := i - 1;
    }
    shuffled := meals;
  }

  /* ---------------------------------------------------------------- */
  /* createMealsSubsets                                                */
  /* ---------------------------------------------------------------- */

  /** The low and more calorie buckets. */
  datatype CalorieSubsets = CalorieSubsets(lowCaloriesList: seq<Meal>, moreCaloriesList: seq<Meal>)

  /** The meals above the average, in list order. */
  function MoreCalories(meals: seq<Meal>, averageCaloriesPerMeal: real): seq<Meal>
  {
    if meals == [] then []
    else
      var front := MoreCalories(meals[..|meals| - 1], averageCaloriesPerMeal);
      if meals[|meals| - 1].calories > averageCaloriesPerMeal then front + [meals[|meals| - 1]] else front
  }

  /** The meals at or below the average, in list order. */
  function LowCalories(meals: seq<Meal>, averageCaloriesPerMeal: real): seq<Meal>
  {
    if meals == [] then []
    else
      var front := LowCalories(meals[..|meals| - 1], averageCaloriesPerMeal);
      if meals[|meals| - 1].calories > averageCaloriesPerMeal then front else front + [meals[|meals| - 1]]
  }

  /**
   * The buckets hold each meal as often as the list does when it is on
   * their side of the average, and not at all otherwise.
   */
  lemma {:induction false} BucketCounts(meals: seq<Meal>, averageCaloriesPerMeal: real, x: Meal)
    ensures multiset(MoreCalories(meals, averageCaloriesPerMeal))[x] ==
      if x.calories > averageCaloriesPerMeal then multiset(meals)[x] else 0
    ensures multiset(LowCalories(meals, averageCaloriesPerMeal))[x] ==
      if x.calories > averageCaloriesPerMeal then 0 else multiset(meals)[x]
  {
    if meals != [] {
      var n := |meals| - 1;
      assert meals == meals[..n] + [meals[n]];
      BucketCounts(meals[..n], averageCaloriesPerMeal, x);
    }
  }

  /** Every meal lands in exactly one bucket, on the side of the average its calories put it. */
  lemma BucketsPartition(meals: seq<Meal>, averageCaloriesPerMeal: real)
    ensures multiset(MoreCalories(meals, averageCaloriesPerMeal)) + multiset(LowCalories(meals, averageCaloriesPerMeal)) == multiset(meals)
    ensures forall x :: x in MoreCalories(meals, averageCaloriesPerMeal) <==> x in meals && x.calories > averageCaloriesPerMeal
    ensures forall x :: x in LowCalories(meals, averageCaloriesPerMeal) <==> x in meals && x.calories <= averageCaloriesPerMeal
  {
    forall x
      ensures (multiset(MoreCalories(meals, averageCaloriesPerMeal)) + multiset(LowCalories(meals, averageCaloriesPerMeal)))[x] == multiset(meals)[x]
      ensures x in MoreCalories(meals, averageCaloriesPerMeal) <==> x in meals && x.calories > averageCaloriesPerMeal
      ensures x in LowCalories(meals, averageCaloriesPerMeal) <==> x in meals && x.calories <= averageCaloriesPerMeal
    {
      BucketCounts(meals, averageCaloriesPerMeal, x);
    }
  }

  /** The buckets of two rearrangements of one pool hold the same meals. */
  lemma BucketsOfPermutation(a: seq<Meal>, b: seq<Meal>, averageCaloriesPerMeal: real)
    requires multiset(a) == multiset(b)
    ensures multiset(MoreCalories(a, averageCaloriesPerMeal)) == multiset(MoreCalories(b, averageCaloriesPerMeal))
    ensures multiset(LowCalories(a, averageCaloriesPerMeal)) == multiset(LowCalories(b, averageCaloriesPerMeal))
  {
    forall x
      ensures multiset(MoreCalories(a, averageCaloriesPerMeal))[x] == multiset(MoreCalories(b, averageCaloriesPerMeal))[x]
      ensures multiset(LowCalories(a, averageCaloriesPerMeal))[x] == multiset(LowCalories(b, averageCaloriesPerMeal))[x]
    {
      BucketCounts(a, averageCaloriesPerMeal, x);
      BucketCounts(b, averageCaloriesPerMeal, x);
    }
  }

  /** `createMealsSubsets`: one pass over the meals, pushing each onto one of two lists. */
  method CreateMealsSubsets(meals: seq<Meal>, averageCaloriesPerMeal: real) returns (subsets: CalorieSubsets)
    ensures subsets.moreCaloriesList == MoreCalories(meals, averageCaloriesPerMeal)
    ensures subsets.lowCaloriesList == LowCalories(meals, averageCaloriesPerMeal)
  {
    var lowCaloriesList := [];
    var moreCaloriesList := [];
    for i := 0 to |meals|
      invariant moreCaloriesList == MoreCalories(meals[..i], averageCaloriesPerMeal)
      invariant lowCaloriesList == LowCalories(meals[..i], averageCaloriesPerMeal)
    {
      assert meals[..i + 1][..i] == meals[..i];
      if meals[i].calories > averageCaloriesPerMeal {
        moreCaloriesList := moreCaloriesList + [meals[i]];
      } else {
        lowCaloriesList := lowCaloriesList + [meals[i]];
      }
    }
    assert meals[..|meals|] == meals;
    subsets := CalorieSubsets(lowCaloriesList, moreCaloriesList);
  }

  /* ---------------------------------------------------------------- */
  /* suggestMoreThanOneMeal, createSuggestions                         */
  /* ---------------------------------------------------------------- */

  /**
   * `suggestMoreThanOneMeal` for `n` meals a day (`Math.floor(n / 2)` is
   * `n / 2` and `Math.ceil(n / 2)` is `(n + 1) / 2` on naturals):
   * the whole pool shuffled when it has at most `n` meals; else the first
   * `n` of the shuffled pool when a bucket is short; else `n / 2` shuffled
   * more-calorie meals followed by `(n + 1) / 2` shuffled low-calorie ones.
   */
  function SuggestMoreThanOneMeal(moreCaloriesList: seq<Meal>, lowCaloriesList: seq<Meal>, n: nat,
                                  first: Chooser, second: Chooser): (r: seq<Meal>)
    ensures multiset(r) <= multiset(moreCaloriesList + lowCaloriesList)
    ensures |moreCaloriesList| + |lowCaloriesList| <= n ==>
      multiset(r) == multiset(moreCaloriesList + lowCaloriesList)
    ensures n < |moreCaloriesList| + |lowCaloriesList| && (|moreCaloriesList| < n / 2 || |lowCaloriesList| < (n + 1) / 2) ==>
      |r| == n && multiset(r) <= multiset(moreCaloriesList + lowCaloriesList)
    ensures n < |moreCaloriesList| + |lowCaloriesList| && n / 2 <= |moreCaloriesList| && (n + 1) / 2 <= |lowCaloriesList| ==>
      |r| == n && multiset(r[..n / 2]) <= multiset(moreCaloriesList) && multiset(r[n / 2..]) <= multiset(lowCaloriesList)
  {
    var numOfMeals := |moreCaloriesList| + |lowCaloriesList|;
    var moreRange := n / 2;
    var lowRange := (n + 1) / 2;
    var pool := moreCaloriesList + lowCaloriesList;
    ShuffledPermutes(pool, first);
    if numOfMeals <= n then
      Shuffled(pool, first)
    else if |moreCaloriesList| < moreRange || |lowCaloriesList| < lowRange then
      var all := Shuffled(pool, first);
      PrefixIsSubBag(all, n);
      all[..n]
    else
      var more := Shuffled(moreCaloriesList, first);
      var low := Shuffled(lowCaloriesList, second);
      ShuffledPermutes(moreCaloriesList, first);
      ShuffledPermutes(lowCaloriesList, second);
      PrefixIsSubBag(more, moreRange);
      PrefixIsSubBag(low, lowRange);
      var r := more[..moreRange] + low[..lowRange];
      assert r[..moreRange] == more[..moreRange];
      assert r[moreRange..] == low[..lowRange];
      assert r == r[..moreRange] + r[moreRange..];
      r
  }

  lemma PrefixIsSubBag(s: seq<Meal>, k: int)
    requires 0 <= k <= |s|
    ensures multiset(s[..k]) <= multiset(s)
  {
    assert s == s[..k] + s[k..];
  }

  /** `createSuggestions`: the composition for 3 or 5 meals a day, nothing otherwise. */
  function CreateSuggestions(calorieSubsets: CalorieSubsets, numOfMealsInADay: int,
                             first: Chooser, second: Chooser): (r: seq<Meal>)
    ensures numOfMealsInADay != 3 && numOfMealsInADay != 5 ==> r == []
    ensures multiset(r) <= multiset(calorieSubsets.moreCaloriesList + calorieSubsets.lowCaloriesList)
  {
    var more := calorieSubsets.moreCaloriesList;
    var low := calorieSubsets.lowCaloriesList;
    if numOfMealsInADay == 5 then
      SuggestMoreThanOneMeal(more, low, 5, first, second)
    else if numOfMealsInADay == 3 then
      SuggestMoreThanOneMeal(more, low, 3, first, second)
    else
      []
  }

  /** The number of meals a suggestion holds for 3 or 5 meals a day: `n`, or the pool when smaller. */
  lemma SuggestionSize(calorieSubsets: CalorieSubsets, numOfMealsInADay: int, first: Chooser, second: Chooser)
    requires numOfMealsInADay == 3 || numOfMealsInADay == 5
    ensures var pool := |calorieSubsets.moreCaloriesList| + |calorieSubsets.lowCaloriesList|;
      |CreateSuggestions(calorieSubsets, numOfMealsInADay, first, second)| ==
        if pool <= numOfMealsInADay then pool else numOfMealsInADay
  {
    var r := CreateSuggestions(calorieSubsets, numOfMealsInADay, first, second);
    var pool := calorieSubsets.moreCaloriesList + calorieSubsets.lowCaloriesList;
    if |pool| <= numOfMealsInADay {
      assert |multiset(r)| == |multiset(pool)|;
    }
  }

  /* ---------------------------------------------------------------- */
  /* getMeals, getSuggestions                                          */
  /* ---------------------------------------------------------------- */

  /** `currentCalories / numOfMealsInADay`; with no meals a day the average is taken as 0. */
  function AverageCaloriesPerMeal(currentCalories: real, numOfMealsInADay: int): real
  {
    if numOfMealsInADay == 0 then 0.0 else currentCalories / numOfMealsInADay as real
  }

  /**
   * What one alternative drawn from `pool` is, whatever order the pool is
   * in and whatever the draws: nothing unless 3 or 5 meals a day; the whole
   * pool when it is small enough; `n` pool meals when a bucket is short;
   * otherwise `n / 2` more-calorie meals then `(n + 1) / 2` low-calorie ones.
   */
  predicate ValidAllocation(pool: seq<Meal>, n: int, averageCaloriesPerMeal: real, r: seq<Meal>)
  {
    var more := MoreCalories(pool, averageCaloriesPerMeal);
    var low := LowCalories(pool, averageCaloriesPerMeal);
    if n != 3 && n != 5 then r == []
    else if |pool| <= n then multiset(r) == multiset(pool)
    else if |more| < n / 2 || |low| < (n + 1) / 2 then |r| == n && multiset(r) <= multiset(pool)
    else |r| == n && multiset(r[..n / 2]) <= multiset(more) && multiset(r[n / 2..]) <= multiset(low)
  }

  /** The suggestions built from a pool's buckets are a valid allocation of that pool. */
  lemma CreateSuggestionsAllocates(pool: seq<Meal>, n: int, averageCaloriesPerMeal: real, first: Chooser, second: Chooser)
    ensures ValidAllocation(pool, n, averageCaloriesPerMeal,
      CreateSuggestions(CalorieSubsets(LowCalories(pool, averageCaloriesPerMeal), MoreCalories(pool, averageCaloriesPerMeal)), n, first, second))
  {
    var more := MoreCalories(pool, averageCaloriesPerMeal);
    var low := LowCalories(pool, averageCaloriesPerMeal);
    BucketsPartition(pool, averageCaloriesPerMeal);
    assert multiset(more + low) == multiset(pool);
    assert |more| + |low| == |pool| by {
      assert |multiset(more)| + |multiset(low)| == |multiset(pool)|;
    }
  }

  /** Whether an allocation is valid depends on the pool's meals, not their order. */
  lemma ValidAllocationPermutation(a: seq<Meal>, b: seq<Meal>, n: int, averageCaloriesPerMeal: real, r: seq<Meal>)
    requires multiset(a) == multiset(b)
    ensures ValidAllocation(a, n, averageCaloriesPerMeal, r) == ValidAllocation(b, n, averageCaloriesPerMeal, r)
  {
    BucketsOfPermutation(a, b, averageCaloriesPerMeal);
    assert |a| == |multiset(a)| == |b|;
    assert |MoreCalories(a, averageCaloriesPerMeal)| == |multiset(MoreCalories(a, averageCaloriesPerMeal))|;
    assert |MoreCalories(b, averageCaloriesPerMeal)| == |multiset(MoreCalories(b, averageCaloriesPerMeal))|;
    assert |LowCalories(a, averageCaloriesPerMeal)| == |multiset(LowCalories(a, averageCaloriesPerMeal))|;
    assert |LowCalories(b, averageCaloriesPerMeal)| == |multiset(LowCalories(b, averageCaloriesPerMeal))|;
  }

  /** When the whole pool is suggested, the suggestion's calories are the pool's. */
  lemma WholePoolCalories(pool: seq<Meal>, n: int, averageCaloriesPerMeal: real, r: seq<Meal>)
    requires (n == 3 || n == 5) && |pool| <= n && ValidAllocation(pool, n, averageCaloriesPerMeal, r)
    ensures CalculateCalories(r) == CalculateCalories(pool)
  {
    CaloriesPermutation(r, pool);
  }

  /** The meals are sorted by descending calories before they are split. */
  const DescendingCalories := MealSortModel(CaloriesField, Desc)

  /**
   * `getMeals`: re-sorts the caller's array in place by descending
   * calories, splits it around the average and composes one alternative.
   */
  method GetMeals(numOfMealsInADay: int, currentCalories: real, meals: array<Meal>,
                  first: Chooser, second: Chooser) returns (suggested: seq<Meal>)
    modifies meals
    ensures multiset(meals[..]) == multiset(old(meals[..]))
    ensures MealUtil.SortedBy(meals[..], MealUtil.MealIdToPropMap(old(meals[..]), CaloriesField), DescendingCalories)
    ensures ValidAllocation(old(meals[..]), numOfMealsInADay, AverageCaloriesPerMeal(currentCalories, numOfMealsInADay), suggested)
  {
    var averageCaloriesPerMeal := AverageCaloriesPerMeal(currentCalories, numOfMealsInADay);
    var sortedMeals := MealUtil.SortMeals(meals, DescendingCalories);
    var calorieSubsets := CreateMealsSubsets(sortedMeals[..], averageCaloriesPerMeal);
    suggested := CreateSuggestions(calorieSubsets, numOfMealsInADay, first, second);
    CreateSuggestionsAllocates(sortedMeals[..], numOfMealsInADay, averageCaloriesPerMeal, first, second);
    ValidAllocationPermutation(meals[..], old(meals[..]), numOfMealsInADay, averageCaloriesPerMeal, suggested);
  }

  /**
   * `s` is in descending-calorie order under the keys of some
   * rearrangement of `original`: the order `getMeals` leaves the caller's
   * array in, whichever rearrangement it was sorted from.
   */
  ghost predicate DescendingUnderRearrangement(s: seq<Meal>, original: seq<Meal>)
  {
    exists pre :: multiset(pre) == multiset(original) &&
      MealUtil.SortedBy(s, MealUtil.MealIdToPropMap(pre, CaloriesField), DescendingCalories)
  }

  /**
   * With distinct ids, meals in descending-calorie order under the keys of
   * a rearrangement of the catalogue are ordered by their own calories.
   */
  lemma DescendingByOwnCalories(pre: seq<Meal>, s: seq<Meal>)
    requires MealUtil.DistinctIds(pre) && multiset(s) == multiset(pre)
    requires MealUtil.SortedBy(s, MealUtil.MealIdToPropMap(pre, CaloriesField), DescendingCalories)
    ensures forall p, q :: 0 <= p < q < |s| ==> s[p].calories >= s[q].calories
  {
    var keys := MealUtil.MealIdToPropMap(pre, CaloriesField);
    MealUtil.DistinctIdsSortByOwnFields(pre, s, CaloriesField);
    forall p, q | 0 <= p < q < |s| ensures s[p].calories >= s[q].calories {
      MealUtil.SortedMeaning(s, keys, DescendingCalories, p, q);
    }
  }

  /** The number of alternatives: the one asked for, by default the meals a day. */
  function SuggestionCount(numOfMealsInADay: int, numOfSuggestions: Option<int>): (count: nat)
    ensures numOfSuggestions.None? && numOfMealsInADay >= 0 ==> count == numOfMealsInADay
    ensures numOfSuggestions.Some? && numOfSuggestions.value >= 0 ==> count == numOfSuggestions.value
    ensures numOfSuggestions.GetOr(numOfMealsInADay) < 0 ==> count == 0
  {
    var k := numOfSuggestions.GetOr(numOfMealsInADay);
    if k < 0 then 0 else k
  }

  /**
   * `getSuggestions`: one alternative per round, each drawn from the pool
   * with its own draws and carrying the sum of its meals' calories.
   */
  method GetSuggestions(numOfMealsInADay: int, currentCalories: real, meals: array<Meal>,
                        numOfSuggestions: Option<int>, random: Random) returns (list: seq<MealSuggestion>)
    modifies meals
    ensures |list| == SuggestionCount(numOfMealsInADay, numOfSuggestions)
    ensures forall k :: 0 <= k < |list| ==> list[k].totalCalories == CalculateCalories(list[k].meals)
    ensures forall k :: 0 <= k < |list| ==>
      ValidAllocation(old(meals[..]), numOfMealsInADay, AverageCaloriesPerMeal(currentCalories, numOfMealsInADay), list[k].meals)
    ensures multiset(meals[..]) == multiset(old(meals[..]))
    ensures |list| == 0 ==> meals[..] == old(meals[..])
    ensures |list| > 0 ==> DescendingUnderRearrangement(meals[..], old(meals[..]))
    ensures |list| > 0 && MealUtil.DistinctIds(old(meals[..])) ==>
      forall p, q :: 0 <= p < q < meals.Length ==> meals[p].calories >= meals[q].calories
  {
    var averageCaloriesPerMeal := AverageCaloriesPerMeal(currentCalories, numOfMealsInADay);
    var count := SuggestionCount(numOfMealsInADay, numOfSuggestions);
    list := [];
    for i := 0 to count
      invariant |list| == i
      invariant forall k :: 0 <= k < i ==> list[k].totalCalories == CalculateCalories(list[k].meals)
      invariant forall k :: 0 <= k < i ==> ValidAllocation(old(meals[..]), numOfMealsInADay, averageCaloriesPerMeal, list[k].meals)
      invariant multiset(meals[..]) == multiset(old(meals[..]))
      invariant i == 0 ==> meals[..] == old(meals[..])
      invariant i > 0 ==> DescendingUnderRearrangement(meals[..], old(meals[..]))
      invariant i > 0 && MealUtil.DistinctIds(old(meals[..])) ==>
        forall p, q :: 0 <= p < q < meals.Length ==> meals[p].calories >= meals[q].calories
    {
      ghost var pool := meals[..];
      var suggestedMeals := GetMeals(numOfMealsInADay, currentCalories, meals,
                                     (step: nat) => random(i, 0, step), (step: nat) => random(i, 1, step));
      ValidAllocationPermutation(pool, old(meals[..]), numOfMealsInADay, averageCaloriesPerMeal, suggestedMeals);
      assert multiset(pool) == multiset(old(meals[..])) &&
        MealUtil.SortedBy(meals[..], MealUtil.MealIdToPropMap(pool, CaloriesField), DescendingCalories);
      assert DescendingUnderRearrangement(meals[..], old(meals[..]));
      if MealUtil.DistinctIds(old(meals[..])) {
        MealUtil.DistinctIdsOfPermutation(old(meals[..]), pool);
        DescendingByOwnCalories(pool, meals[..]);
      }
      list := list + [MealSuggestion(suggestedMeals, CalculateCalories(suggestedMeals))];
    }
  }
}
