/**
 * The macro advisory engine: basal metabolic rate (BMR) from the body
 * profile, total energy expenditure (TEE) from BMR and exercise days, the
 * goal-dependent split into protein, carbohydrate and fat grams, and the
 * calorie conversions at 4/4/9 kcal per gram.
 */
module MacroAdviceUtil {
  import opened Wrappers
  import opened Numbers
  import opened Models

  /**
   * Calories in `value` grams of the macro nutrient `t` (4 kcal per gram of
   * protein or carbohydrates, 9 per gram of fats); 0 for any other type.
   */
  function CalculateCaloriesForMacroType(t: MacroType, value: real): (r: real)
    ensures value >= 0.0 ==> r >= 0.0
    ensures t != OtherMacroType ==> (r == 0.0 <==> value == 0.0)
  {
    match t
    case Protein => value * 4.0
    case Carbohydrates => value * 4.0
    case Fats => value * 9.0
    case OtherMacroType => 0.0
  }

  /**
   * Each conversion is a fixed rate per gram: 4 for protein and
   * carbohydrates, 9 for fats and 0 for any other type.
   */
  lemma CaloriesPerGram(t: MacroType, value: real)
    ensures CalculateCaloriesForMacroType(t, value) == CalculateCaloriesForMacroType(t, 1.0) * value
    ensures CalculateCaloriesForMacroType(Protein, 1.0) == 4.0
    ensures CalculateCaloriesForMacroType(Carbohydrates, 1.0) == 4.0
    ensures CalculateCaloriesForMacroType(Fats, 1.0) == 9.0
    ensures CalculateCaloriesForMacroType(OtherMacroType, value) == 0.0
  {
  }

  /** Total calories of a macro breakdown: the sum of the three per-macro conversions. */
  function CalculateTotalCaloriesForMacros(macros: MacroBreakdown): (r: real)
    ensures r == 4.0 * macros.protein + 4.0 * macros.carbohydrates + 9.0 * macros.fats
  {
    CalculateCaloriesForMacroType(Protein, macros.protein) +
    CalculateCaloriesForMacroType(Carbohydrates, macros.carbohydrates) +
    CalculateCaloriesForMacroType(Fats, macros.fats)
  }

  /**
   * Converting the same number of grams of each macro separately and
   * adding up gives the total of the breakdown with that amount of each.
   */
  lemma PerMacroConversionsAddUp(g: real)
    ensures CalculateCaloriesForMacroType(Protein, g) + CalculateCaloriesForMacroType(Carbohydrates, g)
            + CalculateCaloriesForMacroType(Fats, g)
            == CalculateTotalCaloriesForMacros(MacroBreakdown(g, g, g))
  {
  }

  /**
   * BMR by the Harris-Benedict formulas, rounded; the FEMALE branch comes
   * second and overrides, and any other gender leaves the initial 0.
   */
  function CalculateBmr(gender: Gender, bodyWeight: real, bodyHeight: real, age: real): (r: int)
    ensures gender == Male ==> r == Round(66.0 + 13.7 * bodyWeight + 5.0 * bodyHeight - 6.8 * age)
    ensures gender == Female ==> r == Round(655.0 + 9.6 * bodyWeight + 1.8 * bodyHeight - 4.7 * age)
    ensures gender == OtherGender ==> r == 0
  {
    var bmr0 := 0.0;
    var bmr1 := if gender == Male then 66.0 + (13.7 * bodyWeight) + (5.0 * bodyHeight) - (6.8 * age) else bmr0;
    var bmr2 := if gender == Female then 655.0 + (9.6 * bodyWeight) + (1.8 * bodyHeight) - (4.7 * age) else bmr1;
    Round(bmr2)
  }

  /** A heavier or taller body never has a lower BMR, an older one never a higher one. */
  lemma BmrMonotone(gender: Gender, w1: real, w2: real, h1: real, h2: real, a1: real, a2: real)
    requires w1 <= w2 && h1 <= h2 && a2 <= a1
    ensures CalculateBmr(gender, w1, h1, a1) <= CalculateBmr(gender, w2, h2, a2)
  {
    if gender == Male {
      RoundMonotone(66.0 + 13.7 * w1 + 5.0 * h1 - 6.8 * a1, 66.0 + 13.7 * w2 + 5.0 * h2 - 6.8 * a2);
    } else if gender == Female {
      RoundMonotone(655.0 + 9.6 * w1 + 1.8 * h1 - 4.7 * a1, 655.0 + 9.6 * w2 + 1.8 * h2 - 4.7 * a2);
    }
  }

  /**
   * The activity multiplier for a number of exercise days per week. The
   * source tests four overlapping ranges in sequence and each match
   * overwrites the previous one, so day 3 lands in the 3-5 range.
   */
  function ActivityMultiplier(numOfExerciseDays: int): (m: real)
    ensures numOfExerciseDays == 0 ==> m == 1.2
    ensures 1 <= numOfExerciseDays <= 2 ==> m == 1.375
    ensures 3 <= numOfExerciseDays <= 5 ==> m == 1.55
    ensures 6 <= numOfExerciseDays <= 7 ==> m == 1.725
    ensures numOfExerciseDays < 0 || numOfExerciseDays > 7 ==> m == 0.0
  {
    var m0 := 0.0;
    var m1 := if numOfExerciseDays == 0 then 1.2 else m0;
    var m2 := if 1 <= numOfExerciseDays <= 3 then 1.375 else m1;
    var m3 := if 3 <= numOfExerciseDays <= 5 then 1.55 else m2;
    var m4 := if 6 <= numOfExerciseDays <= 7 then 1.725 else m3;
    m4
  }

  /** TEE: BMR times the activity multiplier, rounded. */
  function CalculateTee(bmrCalories: real, numOfExerciseDays: int): (r: int)
    ensures numOfExerciseDays < 0 || numOfExerciseDays > 7 ==> r == 0
    ensures bmrCalories >= 0.0 ==> r >= 0
    ensures 0 <= numOfExerciseDays <= 7 && bmrCalories >= 0.0 ==> r as real >= 1.2 * bmrCalories - 0.5
    ensures 0 <= numOfExerciseDays <= 7 && bmrCalories >= 0.0 ==> r as real <= 1.725 * bmrCalories + 0.5
  {
    Round(bmrCalories * ActivityMultiplier(numOfExerciseDays))
  }

  /**
   * For a whole, non-negative BMR and 0 to 7 exercise days the TEE is at
   * least the BMR; outside 0 to 7 days it is 0.
   */
  lemma TeeBounds(bmrCalories: int, numOfExerciseDays: int)
    requires bmrCalories >= 0
    ensures 0 <= numOfExerciseDays <= 7 ==> CalculateTee(bmrCalories as real, numOfExerciseDays) >= bmrCalories
    ensures numOfExerciseDays < 0 || numOfExerciseDays > 7 ==> CalculateTee(bmrCalories as real, numOfExerciseDays) == 0
  {
    var m := ActivityMultiplier(numOfExerciseDays);
    if 0 <= numOfExerciseDays <= 7 {
      assert m >= 1.2;
      assert bmrCalories as real * m >= bmrCalories as real;
      RoundMonotone(bmrCalories as real, bmrCalories as real * m);
      RoundOfInteger(bmrCalories);
    }
  }

  /** The calories the goal allows per day: TEE - 500, TEE + 500, or 0 for any other goal. */
  function CaloriesToEat(totalCalories: real, goal: Goal): real
  {
    match goal
    case WeightLoss => totalCalories - 500.0
    case WeightGain => totalCalories + 500.0
    case OtherGoal => 0.0
  }

  /**
   * The macro split for a goal. WEIGHT_LOSS fixes protein at 2 g per kg of
   * body weight and shares the remaining calories 60/40 between
   * carbohydrates and fats; WEIGHT_GAIN shares the calories to eat 30/40/30
   * between protein, carbohydrates and fats; any other goal gives no
   * macros at all. Grams are rounded.
   */
  function CalculateMacro(totalCalories: real, bodyWeight: real, goal: Goal): (r: MacroBreakdown)
    ensures goal == WeightLoss ==> r.protein == Round(2.0 * bodyWeight) as real
    ensures goal == WeightLoss ==>
      r.carbohydrates == Round(0.15 * (totalCalories - 500.0 - 8.0 * bodyWeight)) as real
    ensures goal == WeightLoss ==>
      r.fats == Round((totalCalories - 500.0 - 8.0 * bodyWeight) * 2.0 / 45.0) as real
    ensures goal == WeightGain ==> r.protein == Round(0.075 * (totalCalories + 500.0)) as real
    ensures goal == WeightGain ==> r.carbohydrates == Round(0.1 * (totalCalories + 500.0)) as real
    ensures goal == WeightGain ==> r.fats == Round((totalCalories + 500.0) / 30.0) as real
    ensures goal == OtherGoal ==> r == NoMacros
  {
    if goal == WeightLoss then
      var totalCaloriesToEat := totalCalories - 500.0;
      var proteinInGrams := 2.0 * bodyWeight;
      var proteinCalories := CalculateCaloriesForMacroType(Protein, proteinInGrams);
      var remainingCalories := totalCaloriesToEat - proteinCalories;
      var carbohydratesInGrams := (remainingCalories * 0.60) / 4.0;
      var fatsInGrams := (remainingCalories * 0.40) / 9.0;
      MacroBreakdown(Round(proteinInGrams) as real, Round(carbohydratesInGrams) as real, Round(fatsInGrams) as real)
    else
      var totalCaloriesToEat := if goal == WeightGain then totalCalories + 500.0 else 0.0;
      MacroBreakdown(
        Round((totalCaloriesToEat * 0.30) / 4.0) as real,
        Round((totalCaloriesToEat * 0.40) / 4.0) as real,
        Round((totalCaloriesToEat * 0.30) / 9.0) as real)
  }

  /**
   * Rounding each macro on its own moves the calories of the split at most
   * 8.5 kcal (2 + 2 + 4.5) away from the calories the goal allows.
   */
  lemma SplitCaloriesNearTarget(totalCalories: real, bodyWeight: real, goal: Goal)
    ensures Abs(CalculateTotalCaloriesForMacros(CalculateMacro(totalCalories, bodyWeight, goal))
                - CaloriesToEat(totalCalories, goal)) <= 8.5
  {
    var toEat := CaloriesToEat(totalCalories, goal);
    var p, c, f;
    if goal == WeightLoss {
      var remaining := toEat - 8.0 * bodyWeight;
      p, c, f := 2.0 * bodyWeight, (remaining * 0.60) / 4.0, (remaining * 0.40) / 9.0;
    } else {
      p, c, f := (toEat * 0.30) / 4.0, (toEat * 0.40) / 4.0, (toEat * 0.30) / 9.0;
    }
    assert 4.0 * p + 4.0 * c + 9.0 * f == toEat;
    RoundError(p);
    RoundError(c);
    RoundError(f);
  }

  /** The profile has every field the advice needs. */
  predicate HasRequiredFields(p: UserProfile)
  {
    p.bodyWeightInKGS.Some? && p.bodyHeightInCMS.Some? && p.age.Some? &&
    p.gender.Some? && p.numOfExerciseDays.Some? && p.goal.Some?
  }

  /**
   * Macro advice for a profile: null when a required field is missing,
   * otherwise BMR, then TEE, then the split, and as current calories the
   * calories of the split.
   */
  function GenerateMacros(p: UserProfile): (r: Option<MacroAdvice>)
    ensures r.None? <==>
      p.bodyWeightInKGS.None? || p.bodyHeightInCMS.None? || p.age.None? ||
      p.gender.None? || p.numOfExerciseDays.None? || p.goal.None?
    ensures r.Some? ==>
      r.value.bmrCalories == CalculateBmr(p.gender.value, p.bodyWeightInKGS.value, p.bodyHeightInCMS.value, p.age.value) as real &&
      r.value.totalCalories == CalculateTee(r.value.bmrCalories, p.numOfExerciseDays.value) as real &&
      r.value.macros == CalculateMacro(r.value.totalCalories, p.bodyWeightInKGS.value, p.goal.value) &&
      r.value.currentCalories == CalculateTotalCaloriesForMacros(r.value.macros)
  {
    if !HasRequiredFields(p) then None
    else
      var bmrCalories := CalculateBmr(p.gender.value, p.bodyWeightInKGS.value, p.bodyHeightInCMS.value, p.age.value) as real;
      var totalCalories := CalculateTee(bmrCalories, p.numOfExerciseDays.value) as real;
      var macros := CalculateMacro(totalCalories, p.bodyWeightInKGS.value, p.goal.value);
      var currentCalories := CalculateTotalCaloriesForMacros(macros);
      Some(MacroAdvice(bmrCalories, totalCalories, currentCalories, macros))
  }

  /** Body fat and meals per day play no part in the advice. */
  lemma AdviceIgnoresOptionalFields(p: UserProfile, bodyFat: Option<real>, mealsPerDay: Option<int>)
    ensures GenerateMacros(p.(bodyFatInPercentage := bodyFat, numOfMealsInADay := mealsPerDay)) == GenerateMacros(p)
  {
  }

  /** Under WEIGHT_LOSS the advised protein is twice the body weight, rounded. */
  lemma WeightLossProtein(p: UserProfile)
    requires HasRequiredFields(p) && p.goal == Some(WeightLoss)
    ensures GenerateMacros(p).Some?
    ensures GenerateMacros(p).value.macros.protein == Round(2.0 * p.bodyWeightInKGS.value) as real
  {
  }

  /**
   * The advised current calories stay within 8.5 kcal of TEE - 500 for
   * WEIGHT_LOSS and of TEE + 500 for WEIGHT_GAIN; any other goal advises
   * nothing at all.
   */
  lemma CurrentCaloriesNearGoal(p: UserProfile)
    requires HasRequiredFields(p)
    ensures GenerateMacros(p).Some?
    ensures var a := GenerateMacros(p).value;
      && (p.goal.value == WeightLoss ==> Abs(a.currentCalories - (a.totalCalories - 500.0)) <= 8.5)
      && (p.goal.value == WeightGain ==> Abs(a.currentCalories - (a.totalCalories + 500.0)) <= 8.5)
      && (p.goal.value == OtherGoal ==> a.macros == NoMacros && a.currentCalories == 0.0)
  {
    var a := GenerateMacros(p).value;
    SplitCaloriesNearTarget(a.totalCalories, p.bodyWeightInKGS.value, p.goal.value);
  }
}
