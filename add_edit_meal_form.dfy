/**
 * The meal dialog's handlers: a change updates one key of the meal being
 * edited; save dispatches an edit (the meal has an id) or an add (it gets
 * a random id in 0..1000), in both cases with the calories recomputed
 * from the macros.
 */
module AddEditMealForm {
  import opened Models
  import Strings
  import MacroAdviceUtil
  import MealReducer

  /**
   * `handleSave`: the action dispatched. `draw` stands for the random
   * number; the id used is `draw % 1001`, so any of 0..1000 can come out.
   */
  function HandleSave(meal: Meal, draw: nat): (r: MealReducer.MealAction)
    ensures r.EditMeal? <==> meal.id != ""
    ensures r.AddMeal? <==> meal.id == ""
    ensures (r.EditMeal? || r.AddMeal?) && r.payload.name == meal.name && r.payload.macros == meal.macros
    ensures r.payload.calories == 4.0 * meal.macros.protein + 4.0 * meal.macros.carbohydrates + 9.0 * meal.macros.fats
    ensures r.EditMeal? ==> r.payload.id == meal.id
    ensures r.AddMeal? ==> r.payload.id != ""
    ensures r.AddMeal? ==> forall i :: 0 <= i < |r.payload.id| ==> '0' <= r.payload.id[i] <= '9'
    ensures r.AddMeal? ==> Strings.DecimalValue(r.payload.id) <= 1000
  {
    var macros := MacroBreakdown(meal.macros.protein, meal.macros.carbohydrates, meal.macros.fats);
    var calories := MacroAdviceUtil.CalculateTotalCaloriesForMacros(macros);
    if meal.id != "" then
      MealReducer.EditMeal(Meal(meal.id, meal.name, macros, calories))
    else
      var randomId := draw % 1001;
      Strings.DecimalRoundTrip(randomId);
      MealReducer.AddMeal(Meal(Strings.DecimalString(randomId), meal.name, macros, calories))
  }

  /**
   * Saving an edit leaves the meal list as long as it was, with every meal
   * carrying the id now holding the saved meal and its recomputed calories.
   */
  lemma SavedEditReplaces(list: seq<Meal>, meal: Meal, draw: nat)
    requires meal.id != ""
    ensures var saved := HandleSave(meal, draw).payload;
      var stored := MealReducer.Reduce(list, HandleSave(meal, draw));
      |stored| == |list| &&
      forall i :: 0 <= i < |list| && list[i].id == meal.id ==>
        stored[i] == saved && stored[i].calories == MacroAdviceUtil.CalculateTotalCaloriesForMacros(stored[i].macros)
  {
  }

  /**
   * `handleChange(key)(event)`: NAME sets the name and a macro key sets
   * that macro; `text` and `number` stand for the typed value read as
   * each. CALORIES is not handled. Calories are left as they were until
   * save recomputes them.
   */
  function HandleChange(meal: Meal, key: MealSortField, text: string, number: real): (r: Meal)
    ensures r.id == meal.id && r.calories == meal.calories
    ensures key == NameField ==> r.name == text && r.macros == meal.macros
    ensures key != NameField ==> r.name == meal.name
    ensures key == ProteinField ==>
      r.macros.protein == number && r.macros.carbohydrates == meal.macros.carbohydrates && r.macros.fats == meal.macros.fats
    ensures key == CarbohydratesField ==>
      r.macros.carbohydrates == number && r.macros.protein == meal.macros.protein && r.macros.fats == meal.macros.fats
    ensures key == FatsField ==>
      r.macros.fats == number && r.macros.protein == meal.macros.protein && r.macros.carbohydrates == meal.macros.carbohydrates
    ensures key == CaloriesField ==> r == meal
  {
    var named := if key == NameField then meal.(name := text) else meal;
    if key == ProteinField then named.(macros := named.macros.(protein := number))
    else if key == CarbohydratesField then named.(macros := named.macros.(carbohydrates := number))
    else if key == FatsField then named.(macros := named.macros.(fats := number))
    else named
  }
}
