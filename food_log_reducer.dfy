/** The food-log list's reducer: append, replace by id, remove by id. */
module FoodLogReducer {
  import opened Models
  import IdLists

  /** ADD_FOOD_LOG, EDIT_FOOD_LOG, REMOVE_FOOD_LOG, and any other action the store dispatches. */
  datatype FoodLogAction = AddFoodLog(payload: FoodLog) | EditFoodLog(payload: FoodLog) | RemoveFoodLog(payload: FoodLog) | OtherFoodLogAction

  /** `foodLogReducer` on the state's list. */
  function Reduce(list: seq<FoodLog>, action: FoodLogAction): (r: seq<FoodLog>)
    ensures action.AddFoodLog? ==> |r| == |list| + 1 && r[..|list|] == list && r[|list|] == action.payload
    ensures action.EditFoodLog? ==> |r| == |list|
    ensures action.EditFoodLog? ==>
      forall i :: 0 <= i < |list| ==> r[i] == if list[i].id == action.payload.id then action.payload else list[i]
    ensures action.RemoveFoodLog? ==>
      (forall i :: 0 <= i < |r| ==> r[i].id != action.payload.id) &&
      (forall m :: m in list && m.id != action.payload.id ==> m in r) &&
      (forall m :: m in r ==> m in list)
    ensures action.OtherFoodLogAction? ==> r == list
  {
    match action
    case AddFoodLog(log) => list + [log]
    case EditFoodLog(log) => IdLists.ReplaceById(list, FoodLogId, log)
    case RemoveFoodLog(log) => IdLists.RemoveById(list, FoodLogId, log.id)
    case OtherFoodLogAction => list
  }

  /** Removal keeps the other logs in their order: it splits over any cut of the list. */
  lemma RemoveKeepsOrder(front: seq<FoodLog>, back: seq<FoodLog>, log: FoodLog)
    ensures Reduce(front + back, RemoveFoodLog(log)) == Reduce(front, RemoveFoodLog(log)) + Reduce(back, RemoveFoodLog(log))
  {
    IdLists.RemoveByIdAppend(front, back, FoodLogId, log.id);
  }

  /** Editing or removing an id no log has leaves the list as it was. */
  lemma AbsentIdUnchanged(list: seq<FoodLog>, log: FoodLog)
    requires forall i :: 0 <= i < |list| ==> list[i].id != log.id
    ensures Reduce(list, EditFoodLog(log)) == list
    ensures Reduce(list, RemoveFoodLog(log)) == list
  {
    IdLists.RemoveAbsentId(list, FoodLogId, log.id);
  }

  /** Adding a log with a fresh id and then removing it restores the list. */
  lemma AddThenRemove(list: seq<FoodLog>, log: FoodLog)
    requires forall i :: 0 <= i < |list| ==> list[i].id != log.id
    ensures Reduce(Reduce(list, AddFoodLog(log)), RemoveFoodLog(log)) == list
  {
    IdLists.AppendThenRemove(list, FoodLogId, log);
  }

  /** Editing and removing are idempotent. */
  lemma EditRemoveIdempotent(list: seq<FoodLog>, log: FoodLog)
    ensures Reduce(Reduce(list, EditFoodLog(log)), EditFoodLog(log)) == Reduce(list, EditFoodLog(log))
    ensures Reduce(Reduce(list, RemoveFoodLog(log)), RemoveFoodLog(log)) == Reduce(list, RemoveFoodLog(log))
  {
    IdLists.ReplaceIdempotent(list, FoodLogId, log);
    IdLists.RemoveIdempotent(list, FoodLogId, log.id);
  }
}
