/** The meal list's reducer: append, replace by id, remove by id. */
module MealReducer {
  import opened Models
  import IdLists

  /** ADD_MEAL, EDIT_MEAL, REMOVE_MEAL, and any other action the store dispatches. */
  datatype MealAction = AddMeal(payload: Meal) | EditMeal(payload: Meal) | RemoveMeal(payload: Meal) | OtherMealAction

  /** `mealReducer` on the state's list. */
  function Reduce(list: seq<Meal>, action: MealAction): (r: seq<Meal>)
    ensures action.AddMeal? ==> |r| == |list| + 1 && r[..|list|] == list && r[|list|] == action.payload
    ensures action.EditMeal? ==> |r| == |list|
    ensures action.EditMeal? ==>
      forall i :: 0 <= i < |list| ==> r[i] == if list[i].id == action.payload.id then action.payload else list[i]
    ensures action.RemoveMeal? ==> |r| <= |list|
    ensures action.RemoveMeal? ==>
      (forall i :: 0 <= i < |r| ==> r[i].id != action.payload.id) &&
      (forall m :: m in list && m.id != action.payload.id ==> m in r) &&
      (forall m :: m in r ==> m in list)
    ensures action.OtherMealAction? ==> r == list
  {
    match action
    case AddMeal(meal) => list + [meal]
    case EditMeal(meal) => IdLists.ReplaceById(list, MealId, meal)
    case RemoveMeal(meal) => IdLists.RemoveById(list, MealId, meal.id)
    case OtherMealAction => list
  }

  /** Removal keeps the other meals in their order: it splits over any cut of the list. */
  lemma RemoveKeepsOrder(front: seq<Meal>, back: seq<Meal>, meal: Meal)
    ensures Reduce(front + back, RemoveMeal(meal)) == Reduce(front, RemoveMeal(meal)) + Reduce(back, RemoveMeal(meal))
  {
    IdLists.RemoveByIdAppend(front, back, MealId, meal.id);
  }

  /** Editing or removing an id no meal has leaves the list as it was. */
  lemma AbsentIdUnchanged(list: seq<Meal>, meal: Meal)
    requires forall i :: 0 <= i < |list| ==> list[i].id != meal.id
    ensures Reduce(list, EditMeal(meal)) == list
    ensures Reduce(list, RemoveMeal(meal)) == list
  {
    IdLists.RemoveAbsentId(list, MealId, meal.id);
  }

  /** Adding a meal with a fresh id and then removing it restores the list. */
  lemma AddThenRemove(list: seq<Meal>, meal: Meal)
    requires forall i :: 0 <= i < |list| ==> list[i].id != meal.id
    ensures Reduce(Reduce(list, AddMeal(meal)), RemoveMeal(meal)) == list
  {
    IdLists.AppendThenRemove(list, MealId, meal);
  }

  /** Editing and removing are idempotent. */
  lemma EditRemoveIdempotent(list: seq<Meal>, meal: Meal)
    ensures Reduce(Reduce(list, EditMeal(meal)), EditMeal(meal)) == Reduce(list, EditMeal(meal))
    ensures Reduce(Reduce(list, RemoveMeal(meal)), RemoveMeal(meal)) == Reduce(list, RemoveMeal(meal))
  {
    IdLists.ReplaceIdempotent(list, MealId, meal);
    IdLists.RemoveIdempotent(list, MealId, meal.id);
  }
}
