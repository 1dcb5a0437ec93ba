/**
 * The food log breakdown: per-macro sums over a log's meals, absolute
 * differences against the macro advice, and the same three views in
 * calories.
 */
module FoodLogUtil {
  import opened Numbers
  import opened Models
  import opened MacroAdviceUtil

  function AddMacros(a: MacroBreakdown, b: MacroBreakdown): MacroBreakdown
  {
    MacroBreakdown(a.protein + b.protein, a.carbohydrates + b.carbohydrates, a.fats + b.fats)
  }

  /**
   * `meals.reduce` into a fresh all-zero accumulator, adding each meal's
   * macros in turn (a left fold, so the last meal is added last).
   */
  function GetMacroBreakdown(meals: seq<Meal>): (r: MacroBreakdown)
    ensures meals == [] ==> r == NoMacros
    ensures |meals| == 1 ==> r == meals[0].macros
  {
    if meals == [] then NoMacros
    else AddMacros(GetMacroBreakdown(meals[..|meals| - 1]), meals[|meals| - 1].macros)
  }

  /** The breakdown of two lists of meals one after the other is the sum of their breakdowns. */
  lemma {:induction false} MacroBreakdownAppend(a: seq<Meal>, b: seq<Meal>)
    ensures GetMacroBreakdown(a + b) == AddMacros(GetMacroBreakdown(a), GetMacroBreakdown(b))
  {
    if b == [] {
      assert a + b == a;
    } else {
      var b' := b[..|b| - 1];
      assert (a + b)[..|a + b| - 1] == a + b';
      MacroBreakdownAppend(a, b');
    }
  }

  /**
   * Read from the front: the breakdown of a meal followed by more meals is
   * that meal's macros plus the breakdown of the rest.
   */
  lemma MacroBreakdownCons(m: Meal, rest: seq<Meal>)
    ensures GetMacroBreakdown([m] + rest) == AddMacros(m.macros, GetMacroBreakdown(rest))
  {
    MacroBreakdownAppend([m], rest);
  }

  /** The sum of the meals' calories, each computed from its macros. */
  function MacroCaloriesSum(meals: seq<Meal>): real
  {
    if meals == [] then 0.0
    else MacroCaloriesSum(meals[..|meals| - 1]) + CalculateTotalCaloriesForMacros(meals[|meals| - 1].macros)
  }

  /**
   * Total calories are additive across meals: the total of the summed
   * macros is the sum of the meals' own totals.
   */
  lemma {:induction false} TotalCaloriesAdditive(meals: seq<Meal>)
    ensures CalculateTotalCaloriesForMacros(GetMacroBreakdown(meals)) == MacroCaloriesSum(meals)
  {
    if meals != [] {
      TotalCaloriesAdditive(meals[..|meals| - 1]);
    }
  }

  /** Per-macro absolute difference between the eaten and the advised grams. */
  function GetMacroDeficitBreakdown(macroBreakdown: MacroBreakdown, recommended: MacroBreakdown): (r: MacroBreakdown)
    ensures r.protein >= 0.0 && r.carbohydrates >= 0.0 && r.fats >= 0.0
    ensures r.protein == 0.0 <==> macroBreakdown.protein == recommended.protein
    ensures r.carbohydrates == 0.0 <==> macroBreakdown.carbohydrates == recommended.carbohydrates
    ensures r.fats == 0.0 <==> macroBreakdown.fats == recommended.fats
  {
    MacroBreakdown(
      Abs(macroBreakdown.protein - recommended.protein),
      Abs(macroBreakdown.carbohydrates - recommended.carbohydrates),
      Abs(macroBreakdown.fats - recommended.fats))
  }

  /** The deficit does not depend on which side is the advice. */
  lemma DeficitSymmetric(a: MacroBreakdown, b: MacroBreakdown)
    ensures GetMacroDeficitBreakdown(a, b) == GetMacroDeficitBreakdown(b, a)
  {
  }

  /** Against nothing eaten, the deficit is the size of each advised amount. */
  lemma DeficitFromNothing(recommended: MacroBreakdown)
    ensures GetMacroDeficitBreakdown(NoMacros, recommended) ==
      MacroBreakdown(Abs(recommended.protein), Abs(recommended.carbohydrates), Abs(recommended.fats))
  {
  }

  /** A macro breakdown in calories: the total and each macro's share. */
  function GetCaloriesBreakdown(macroBreakdown: MacroBreakdown): (r: CaloriesBreakdown)
    ensures r.totalCalories == r.proteinCalories + r.carbohydratesCalories + r.fatsCalories
    ensures r.proteinCalories == 4.0 * macroBreakdown.protein
    ensures r.carbohydratesCalories == 4.0 * macroBreakdown.carbohydrates
    ensures r.fatsCalories == 9.0 * macroBreakdown.fats
  {
    CaloriesBreakdown(
      CalculateTotalCaloriesForMacros(macroBreakdown),
      CalculateCaloriesForMacroType(Protein, macroBreakdown.protein),
      CalculateCaloriesForMacroType(Carbohydrates, macroBreakdown.carbohydrates),
      CalculateCaloriesForMacroType(Fats, macroBreakdown.fats))
  }

  /**
   * Per-component absolute difference in calories: the total is compared
   * with the advice's current calories, each macro with the calories of
   * the advised grams.
   */
  function GetCaloriesDeficitBreakdown(caloriesBreakdown: CaloriesBreakdown, advice: MacroAdvice): (r: CaloriesBreakdown)
    ensures r.totalCalories >= 0.0 && r.proteinCalories >= 0.0 && r.carbohydratesCalories >= 0.0 && r.fatsCalories >= 0.0
    ensures r.totalCalories == 0.0 <==> caloriesBreakdown.totalCalories == advice.currentCalories
    ensures r.proteinCalories == 0.0 <==> caloriesBreakdown.proteinCalories == 4.0 * advice.macros.protein
    ensures r.carbohydratesCalories == 0.0 <==> caloriesBreakdown.carbohydratesCalories == 4.0 * advice.macros.carbohydrates
    ensures r.fatsCalories == 0.0 <==> caloriesBreakdown.fatsCalories == 9.0 * advice.macros.fats
    ensures r.proteinCalories == Abs(4.0 * advice.macros.protein - caloriesBreakdown.proteinCalories)
    ensures r.carbohydratesCalories == Abs(4.0 * advice.macros.carbohydrates - caloriesBreakdown.carbohydratesCalories)
    ensures r.fatsCalories == Abs(9.0 * advice.macros.fats - caloriesBreakdown.fatsCalories)
  {
    CaloriesBreakdown(
      Abs(caloriesBreakdown.totalCalories - advice.currentCalories),
      Abs(caloriesBreakdown.proteinCalories - CalculateCaloriesForMacroType(Protein, advice.macros.protein)),
      Abs(caloriesBreakdown.carbohydratesCalories - CalculateCaloriesForMacroType(Carbohydrates, advice.macros.carbohydrates)),
      Abs(caloriesBreakdown.fatsCalories - CalculateCaloriesForMacroType(Fats, advice.macros.fats)))
  }

  /**
   * A log whose meals add up to exactly the advised macros, against advice
   * whose current calories are those of its macros (as generated advice
   * is), shows no deficit at all.
   */
  lemma EatingTheAdviceLeavesNoDeficit(foodLog: FoodLog, advice: MacroAdvice)
    requires GetMacroBreakdown(foodLog.meals) == advice.macros
    requires advice.currentCalories == CalculateTotalCaloriesForMacros(advice.macros)
    ensures GetCaloriesBreakdownForFoodLog(foodLog, advice).macroDeficitBreakdown == NoMacros
    ensures GetCaloriesBreakdownForFoodLog(foodLog, advice).caloriesDeficitBreakdown == NoCalories
  {
  }

  /** The breakdown summary of one food log against the advice. */
  function GetCaloriesBreakdownForFoodLog(foodLog: FoodLog, advice: MacroAdvice): (r: FoodLogBreakdownSummary)
    ensures r.macroBreakdown == GetMacroBreakdown(foodLog.meals)
    ensures r.macroDeficitBreakdown == GetMacroDeficitBreakdown(r.macroBreakdown, advice.macros)
    ensures r.macroSuggestedBreakdown == advice.macros
    ensures r.caloriesBreakdown == GetCaloriesBreakdown(r.macroBreakdown)
    ensures r.caloriesDeficitBreakdown == GetCaloriesDeficitBreakdown(r.caloriesBreakdown, advice)
    ensures r.caloriesBreakdown.totalCalories == MacroCaloriesSum(foodLog.meals)
    ensures r.caloriesBreakdown.totalCalories ==
      r.caloriesBreakdown.proteinCalories + r.caloriesBreakdown.carbohydratesCalories + r.caloriesBreakdown.fatsCalories
    ensures r.caloriesDeficitBreakdown.totalCalories == Abs(r.caloriesBreakdown.totalCalories - advice.currentCalories)
    ensures r.caloriesSuggestedBreakdown.totalCalories == advice.totalCalories
    ensures r.caloriesSuggestedBreakdown.proteinCalories == 4.0 * advice.macros.protein
    ensures r.caloriesSuggestedBreakdown.carbohydratesCalories == 4.0 * advice.macros.carbohydrates
    ensures r.caloriesSuggestedBreakdown.fatsCalories == 9.0 * advice.macros.fats
  {
    TotalCaloriesAdditive(foodLog.meals);
    var macroBreakdown := GetMacroBreakdown(foodLog.meals);
    var macroDiffBreakdown := GetMacroDeficitBreakdown(macroBreakdown, advice.macros);
    var caloriesBreakdown := GetCaloriesBreakdown(macroBreakdown);
    var caloriesDiffBreakdown := GetCaloriesDeficitBreakdown(caloriesBreakdown, advice);
    FoodLogBreakdownSummary(
      macroBreakdown,
      macroDiffBreakdown,
      advice.macros,
      caloriesBreakdown,
      caloriesDiffBreakdown,
      CaloriesBreakdown(
        advice.totalCalories,
        CalculateCaloriesForMacroType(Protein, advice.macros.protein),
        CalculateCaloriesForMacroType(Carbohydrates, advice.macros.carbohydrates),
        CalculateCaloriesForMacroType(Fats, advice.macros.fats)))
  }

  /**
   * A log without meals has eaten nothing, and its macro deficit is the
   * size of the advised grams.
   */
  lemma EmptyLogBreakdown(foodLog: FoodLog, advice: MacroAdvice)
    requires foodLog.meals == []
    ensures var r := GetCaloriesBreakdownForFoodLog(foodLog, advice);
      && r.macroBreakdown == NoMacros
      && r.caloriesBreakdown == NoCalories
      && r.macroDeficitBreakdown ==
           MacroBreakdown(Abs(advice.macros.protein), Abs(advice.macros.carbohydrates), Abs(advice.macros.fats))
  {
    DeficitFromNothing(advice.macros);
  }

  /** One summary per food log, in the order of the logs (`foodLogs.map`). */
  function GetCaloriesBreakdownForFoodLogs(foodLogs: seq<FoodLog>, advice: MacroAdvice): (r: seq<FoodLogBreakdownSummary>)
    ensures |r| == |foodLogs|
    ensures forall i :: 0 <= i < |foodLogs| ==> r[i] == GetCaloriesBreakdownForFoodLog(foodLogs[i], advice)
  {
    seq(|foodLogs|, i requires 0 <= i < |foodLogs| => GetCaloriesBreakdownForFoodLog(foodLogs[i], advice))
  }
}
