/**
 * The meals table's state logic: the header checkbox states, the empty
 * rows that pad the last page, the row selection (a list of meal ids),
 * the name search, the sort-direction toggle and the deletion of the
 * selected meals.
 */
module MealsTable {
  import opened Wrappers
  import opened Models
  import Numbers
  import Strings
  import IdLists
  import MealReducer

  /* ---------------------------------------------------------------- */
  /* header checkbox, empty rows                                       */
  /* ---------------------------------------------------------------- */

  /** `isIndeterminate`: always with no rows, else when some but not all rows are selected. */
  function IsIndeterminate(numSelected: int, rowCount: int): (b: bool)
    ensures rowCount == 0 ==> b
    ensures rowCount != 0 ==> (b <==> 0 < numSelected < rowCount)
  {
    if rowCount == 0 then true else numSelected > 0 && numSelected < rowCount
  }

  /** `isChecked`: never with no rows, else when every row is selected. */
  function IsChecked(numSelected: int, rowCount: int): (b: bool)
    ensures b <==> rowCount != 0 && numSelected == rowCount
  {
    if rowCount == 0 then false else numSelected == rowCount
  }

  /** The header checkbox is never both checked and indeterminate. */
  lemma HeaderStatesExclusive(numSelected: int, rowCount: int)
    ensures !(IsChecked(numSelected, rowCount) && IsIndeterminate(numSelected, rowCount))
  {
  }

  /** `emptyRows`: the rows that pad the current page when fewer meals than a page remain. */
  function EmptyRows(rowsPerPage: int, mealCount: int, page: int): (r: int)
    ensures r >= 0
    ensures mealCount - page * rowsPerPage >= rowsPerPage ==> r == 0
    ensures 0 <= rowsPerPage && 0 <= mealCount - page * rowsPerPage ==> r <= rowsPerPage
    ensures mealCount - page * rowsPerPage < rowsPerPage ==> r + (mealCount - page * rowsPerPage) == rowsPerPage
  {
    rowsPerPage - Numbers.Min(rowsPerPage, mealCount - page * rowsPerPage)
  }

  /* ---------------------------------------------------------------- */
  /* selection                                                         */
  /* ---------------------------------------------------------------- */

  /** `indexOf`: the first position of `x`, or -1. */
  function IndexOf(s: seq<string>, x: string): (k: int)
    ensures k == -1 <==> x !in s
    ensures k != -1 ==> 0 <= k < |s| && s[k] == x && x !in s[..k]
  {
    if s == [] then -1
    else if s[0] == x then 0
    else
      var k := IndexOf(s[1..], x);
      if k == -1 then -1
      else
        assert s[..k + 1] == [s[0]] + s[1..][..k];
        k + 1
  }

  /** `isSelected`. */
  function IsSelected(selected: seq<string>, id: string): (b: bool)
    ensures b <==> id in selected
  {
    IndexOf(selected, id) != -1
  }

  /** `handleSelectAllClick`: every meal's id when checked, none otherwise. */
  function HandleSelectAllClick(meals: seq<Meal>, checked: bool): (r: seq<string>)
    ensures checked ==> |r| == |meals| && forall i :: 0 <= i < |meals| ==> r[i] == meals[i].id
    ensures !checked ==> r == []
  {
    if checked then seq(|meals|, i requires 0 <= i < |meals| => meals[i].id) else []
  }

  /** After selecting all rows of a non-empty table the header checkbox is checked. */
  lemma SelectAllChecksHeader(meals: seq<Meal>)
    requires |meals| > 0
    ensures IsChecked(|HandleSelectAllClick(meals, true)|, |meals|)
    ensures !IsIndeterminate(|HandleSelectAllClick(meals, true)|, |meals|)
  {
  }

  /**
   * `handleRowCheckboxClick`: an id not selected is appended; a selected
   * one loses its first occurrence, through whichever of the slicing
   * branches (first, last, middle) applies.
   */
  function HandleRowCheckboxClick(selected: seq<string>, id: string): (r: seq<string>)
    ensures id !in selected ==> r == selected + [id]
    ensures id in selected ==> r == RemoveAt(selected, IndexOf(selected, id))
    ensures |r| == if id in selected then |selected| - 1 else |selected| + 1
  {
    var selectedIndex := IndexOf(selected, id);
    if selectedIndex == -1 then
      selected + [id]
    else if selectedIndex == 0 then
      selected[1..]
    else if selectedIndex == |selected| - 1 then
      selected[..|selected| - 1]
    else if selectedIndex > 0 then
      selected[..selectedIndex] + selected[selectedIndex + 1..]
    else
      []
  }

  /** No id is selected twice. */
  predicate NoDuplicates(s: seq<string>)
  {
    forall i, j :: 0 <= i < j < |s| ==> s[i] != s[j]
  }

  /** The selection without its position `k`. */
  function RemoveAt(s: seq<string>, k: int): seq<string>
    requires 0 <= k < |s|
  {
    s[..k] + s[k + 1..]
  }

  /** The selection without its position `k`, read position by position. */
  lemma RemoveAtElements(s: seq<string>, k: int)
    requires 0 <= k < |s|
    ensures |RemoveAt(s, k)| == |s| - 1
    ensures forall i :: 0 <= i < k ==> RemoveAt(s, k)[i] == s[i]
    ensures forall i :: k <= i < |s| - 1 ==> RemoveAt(s, k)[i] == s[i + 1]
  {
  }

  /** A click keeps a selection without repeats free of repeats. */
  lemma RowClickKeepsNoDuplicates(selected: seq<string>, id: string)
    requires NoDuplicates(selected)
    ensures NoDuplicates(HandleRowCheckboxClick(selected, id))
  {
    if id in selected {
      var k := IndexOf(selected, id);
      var r := HandleRowCheckboxClick(selected, id);
      RemoveAtElements(selected, k);
      forall i, j | 0 <= i < j < |r| ensures r[i] != r[j] {
        var i', j' := if i < k then i else i + 1, if j < k then j else j + 1;
        assert r[i] == selected[i'] && r[j] == selected[j'];
      }
    }
  }

  /** On a selection without repeats a click flips the clicked row. */
  lemma RowClickFlipsRow(selected: seq<string>, id: string)
    requires NoDuplicates(selected)
    ensures IsSelected(HandleRowCheckboxClick(selected, id), id) <==> !IsSelected(selected, id)
  {
    if id in selected {
      var k := IndexOf(selected, id);
      var r := HandleRowCheckboxClick(selected, id);
      RemoveAtElements(selected, k);
      forall i | 0 <= i < |r| ensures r[i] != id {
        var i' := if i < k then i else i + 1;
        assert r[i] == selected[i'] && i' != k;
      }
    }
  }

  /** A click leaves every other row as it was. */
  lemma RowClickKeepsOtherRows(selected: seq<string>, id: string, other: string)
    requires other != id
    ensures IsSelected(HandleRowCheckboxClick(selected, id), other) <==> IsSelected(selected, other)
  {
    if id in selected && other in selected {
      var k := IndexOf(selected, id);
      var r := HandleRowCheckboxClick(selected, id);
      RemoveAtElements(selected, k);
      var i :| 0 <= i < |selected| && selected[i] == other;
      if i < k {
        assert r[i] == other;
      } else {
        assert r[i - 1] == other;
      }
    }
  }

  /** Clicking an unselected row twice restores the selection. */
  lemma RowClickTwiceRestores(selected: seq<string>, id: string)
    requires id !in selected
    ensures HandleRowCheckboxClick(HandleRowCheckboxClick(selected, id), id) == selected
  {
    var once := selected + [id];
    assert IndexOf(once, id) == |selected| by {
      assert id !in once[..|selected|] by {
        assert once[..|selected|] == selected;
      }
    }
    assert once[..|selected|] == selected;
  }

  /* ---------------------------------------------------------------- */
  /* search                                                            */
  /* ---------------------------------------------------------------- */

  /** A meal matches when its lower-cased name contains the lower-cased search text. */
  predicate Matches(meal: Meal, searchText: string)
  {
    Strings.Includes(Strings.ToLower(meal.name), Strings.ToLower(searchText))
  }

  /** `getFilteredMeals`. */
  function GetFilteredMeals(meals: seq<Meal>, searchText: string): (r: seq<Meal>)
    ensures |r| <= |meals|
    ensures forall m :: m in r <==> m in meals && Matches(m, searchText)
  {
    if meals == [] then []
    else (if Matches(meals[0], searchText) then [meals[0]] else []) + GetFilteredMeals(meals[1..], searchText)
  }

  /** Filtering splits over any cut of the list, so matches keep their order. */
  lemma {:induction false} FilterKeepsOrder(front: seq<Meal>, back: seq<Meal>, searchText: string)
    ensures GetFilteredMeals(front + back, searchText) == GetFilteredMeals(front, searchText) + GetFilteredMeals(back, searchText)
  {
    if front == [] {
      assert front + back == back;
    } else {
      assert (front + back)[1..] == front[1..] + back;
      FilterKeepsOrder(front[1..], back, searchText);
    }
  }

  /** An empty search keeps every meal. */
  lemma {:induction false} EmptySearchKeepsAll(meals: seq<Meal>)
    ensures GetFilteredMeals(meals, "") == meals
  {
    if meals != [] {
      Strings.EmptyIsIncluded(Strings.ToLower(meals[0].name));
      assert Strings.ToLower("") == "";
      EmptySearchKeepsAll(meals[1..]);
    }
  }

  /* ---------------------------------------------------------------- */
  /* sort toggle                                                       */
  /* ---------------------------------------------------------------- */

  /** The table's `order` and `orderBy` state. */
  datatype TableSort = TableSort(order: SortOrder, orderBy: MealSortField)

  /** `handleRequestSort`: the clicked field, ascending only when it was the field sorted descending. */
  function HandleRequestSort(state: TableSort, mealSortField: MealSortField): (r: TableSort)
    ensures r.orderBy == mealSortField
    ensures r.order == Asc <==> state.orderBy == mealSortField && state.order == Desc
  {
    var isDesc := state.orderBy == mealSortField && state.order == Desc;
    TableSort(if isDesc then Asc else Desc, mealSortField)
  }

  /** Clicking the same header again flips the direction. */
  lemma SecondClickFlips(state: TableSort, mealSortField: MealSortField)
    ensures HandleRequestSort(HandleRequestSort(state, mealSortField), mealSortField).order !=
      HandleRequestSort(state, mealSortField).order
  {
  }

  /* ---------------------------------------------------------------- */
  /* delete                                                            */
  /* ---------------------------------------------------------------- */

  /** The `reduce` building the id-to-meal map: a meal is stored only when its id is not yet there. */
  function MealIdToModelMap(meals: seq<Meal>): (r: map<string, Meal>)
    ensures r.Keys == set m | m in meals :: m.id
    ensures forall id :: id in r ==> r[id] in meals && r[id].id == id
  {
    if meals == [] then map[]
    else
      var m := MealIdToModelMap(meals[..|meals| - 1]);
      var meal := meals[|meals| - 1];
      if meal.id in m then m else m[meal.id := meal]
  }

  /** The map holds, under each id of the list, the first meal with that id. */
  lemma {:induction false} MealIdToModelMapFirst(meals: seq<Meal>, id: string)
    ensures id in MealIdToModelMap(meals) ==> IdLists.FirstById(meals, MealId, id) == Some(MealIdToModelMap(meals)[id])
    ensures id !in MealIdToModelMap(meals) ==> IdLists.FirstById(meals, MealId, id) == None
  {
    if meals != [] {
      MealIdToModelMapFirst(meals[..|meals| - 1], id);
      FirstByIdOfLast(meals, id);
    }
  }

  /** The first meal with an id, given the first one before the last meal. */
  lemma FirstByIdOfLast(s: seq<Meal>, id: string)
    requires s != []
    ensures var front, last := s[..|s| - 1], s[|s| - 1];
      IdLists.FirstById(s, MealId, id) ==
        if IdLists.FirstById(front, MealId, id).Some? then IdLists.FirstById(front, MealId, id)
        else if last.id == id then Some(last) else None
  {
    var front, last := s[..|s| - 1], s[|s| - 1];
    var r := IdLists.FirstById(s, MealId, id);
    var f := IdLists.FirstById(front, MealId, id);
    if f.Some? {
      var k :| IdLists.FirstAt(front, MealId, id, k) && front[k] == f.value;
      assert IdLists.FirstAt(s, MealId, id, k);
      var k' :| IdLists.FirstAt(s, MealId, id, k') && s[k'] == r.value;
      IdLists.FirstAtUnique(s, MealId, id, k, k');
    } else if last.id == id {
      assert s[|front|].id == id;
      var k' :| IdLists.FirstAt(s, MealId, id, k') && s[k'] == r.value;
      assert k' == |front|;
    } else {
      forall k | 0 <= k < |s| ensures s[k].id != id {
        if k < |front| {
          assert s[k] == front[k];
        }
      }
    }
  }

  /**
   * What a delete dispatches: one `removeMeal` payload per selected id
   * (`None` when no meal has the id, where the source passes `undefined`),
   * and the emptied selection.
   */
  datatype DeleteOutcome = DeleteOutcome(removals: seq<Option<Meal>>, selected: seq<string>)

  /** `handleDeleteSelected`. */
  function HandleDeleteSelected(meals: seq<Meal>, selected: seq<string>): (r: DeleteOutcome)
    ensures |r.removals| == |selected| && r.selected == []
    ensures forall k :: 0 <= k < |selected| ==> r.removals[k] == IdLists.FirstById(meals, MealId, selected[k])
  {
    forall id {
      MealIdToModelMapFirst(meals, id);
    }
    var mealIdToModelMap := MealIdToModelMap(meals);
    DeleteOutcome(
      seq(|selected|, k requires 0 <= k < |selected| =>
        if selected[k] in mealIdToModelMap then Some(mealIdToModelMap[selected[k]]) else None),
      [])
  }

  /**
   * The meal store after the removals, one after the other. A missing
   * payload makes the reducer fail reading its id, but only once `filter`
   * calls back, that is when the list still holds a meal; the result is
   * then `None`.
   */
  function ApplyRemovals(list: seq<Meal>, removals: seq<Option<Meal>>): (r: Option<seq<Meal>>)
    ensures r.Some? ==> |r.value| <= |list|
    ensures r.Some? ==> forall m :: m in r.value ==> m in list
    decreases |removals|
  {
    if removals == [] then Some(list)
    else if removals[0].None? then
      (if list == [] then ApplyRemovals(list, removals[1..]) else None)
    else ApplyRemovals(MealReducer.Reduce(list, MealReducer.RemoveMeal(removals[0].value)), removals[1..])
  }

  /** The ids of the meals removed. */
  function RemovedIds(removals: seq<Option<Meal>>): set<string>
  {
    set k | 0 <= k < |removals| && removals[k].Some? :: removals[k].value.id
  }

  /** Every meal of `list` has been removed by `done`. */
  predicate Cleared(list: seq<Meal>, done: seq<Option<Meal>>)
  {
    forall m :: m in list ==> m.id in RemovedIds(done)
  }

  /** The ids removed by a sequence starting with a payload are its id and those of the rest. */
  lemma RemovedIdsCons(removals: seq<Option<Meal>>)
    requires removals != [] && removals[0].Some?
    ensures RemovedIds(removals) == {removals[0].value.id} + RemovedIds(removals[1..])
  {
    forall id | id in RemovedIds(removals) ensures id in {removals[0].value.id} + RemovedIds(removals[1..]) {
      var k :| 0 <= k < |removals| && removals[k].Some? && removals[k].value.id == id;
      if k > 0 {
        assert removals[1..][k - 1] == removals[k];
      }
    }
    forall id | id in RemovedIds(removals[1..]) ensures id in RemovedIds(removals) {
      var k :| 0 <= k < |removals[1..]| && removals[1..][k].Some? && removals[1..][k].value.id == id;
      assert removals[k + 1] == removals[1..][k];
    }
  }

  /** Removing one payload's id first: what is cleared afterwards is what the whole prefix clears. */
  lemma ClearedAfterFirst(list: seq<Meal>, removals: seq<Option<Meal>>, k: int)
    requires removals != [] && removals[0].Some? && 0 <= k < |removals| - 1
    ensures Cleared(MealReducer.Reduce(list, MealReducer.RemoveMeal(removals[0].value)), removals[1..][..k]) <==>
      Cleared(list, removals[..k + 1])
  {
    var front := removals[..k + 1];
    assert front[1..] == removals[1..][..k];
    RemovedIdsCons(front);
  }

  /** Nothing is left to fail on once the store is empty. */
  lemma {:induction false} ApplyRemovalsToEmpty(removals: seq<Option<Meal>>)
    ensures ApplyRemovals([], removals) == Some([])
    decreases |removals|
  {
    if removals != [] {
      ApplyRemovalsToEmpty(removals[1..]);
    }
  }

  /**
   * The removals succeed exactly when every missing payload comes after
   * the earlier payloads have removed every meal of the list; then they
   * leave precisely the meals whose ids were not removed.
   */
  lemma {:induction false} ApplyRemovalsRemoves(list: seq<Meal>, removals: seq<Option<Meal>>)
    ensures ApplyRemovals(list, removals).Some? <==>
      forall k :: 0 <= k < |removals| && removals[k].None? ==> Cleared(list, removals[..k])
    ensures ApplyRemovals(list, removals).Some? ==>
      forall m :: m in ApplyRemovals(list, removals).value <==> m in list && m.id !in RemovedIds(removals)
    decreases |removals|
  {
    if removals == [] {
    } else if removals[0].Some? {
      var next := MealReducer.Reduce(list, MealReducer.RemoveMeal(removals[0].value));
      ApplyRemovalsRemoves(next, removals[1..]);
      RemovedIdsCons(removals);
      forall k | 0 <= k < |removals[1..]| ensures removals[1..][k] == removals[k + 1] { }
      forall k | 0 <= k < |removals| - 1
        ensures Cleared(next, removals[1..][..k]) <==> Cleared(list, removals[..k + 1])
      {
        ClearedAfterFirst(list, removals, k);
      }
      if ApplyRemovals(list, removals).Some? {
        forall k | 0 <= k < |removals| && removals[k].None? ensures Cleared(list, removals[..k]) {
          assert removals[1..][k - 1] == removals[k];
        }
      } else {
        var k' :| 0 <= k' < |removals[1..]| && removals[1..][k'].None? && !Cleared(next, removals[1..][..k']);
        assert removals[k' + 1].None? && !Cleared(list, removals[..k' + 1]);
      }
    } else if list == [] {
      ApplyRemovalsToEmpty(removals[1..]);
    } else {
      assert removals[..0] == [];
      assert !Cleared(list, removals[..0]) by {
        assert list[0] in list;
      }
    }
  }

  /** A meal's id has been removed by the first `k` payloads exactly when it is among the first `k` selected ids. */
  lemma RemovedIdsOfSelection(meals: seq<Meal>, selected: seq<string>, k: int, m: Meal)
    requires m in meals && 0 <= k <= |selected|
    ensures m.id in RemovedIds(HandleDeleteSelected(meals, selected).removals[..k]) <==> m.id in selected[..k]
  {
    var removals := HandleDeleteSelected(meals, selected).removals;
    var done := removals[..k];
    if m.id in RemovedIds(done) {
      var j :| 0 <= j < |done| && done[j].Some? && done[j].value.id == m.id;
      var i :| IdLists.FirstAt(meals, MealId, selected[j], i) && meals[i] == removals[j].value;
      assert selected[..k][j] == selected[j];
    }
    if m.id in selected[..k] {
      var j :| 0 <= j < k && selected[j] == m.id;
      var i :| 0 <= i < |meals| && meals[i] == m;
      assert MealId(meals[i]) == selected[j];
      var i' :| IdLists.FirstAt(meals, MealId, selected[j], i') && meals[i'] == removals[j].value;
      assert done[j] == removals[j];
    }
  }

  /**
   * Deleting the selection through the meal reducer fails exactly when a
   * selected id belongs to no meal while a meal not selected before it is
   * still in the store; otherwise it leaves precisely the meals whose ids
   * were not selected.
   */
  lemma DeleteRemovesSelected(meals: seq<Meal>, selected: seq<string>)
    ensures var out := ApplyRemovals(meals, HandleDeleteSelected(meals, selected).removals);
      (out.Some? <==> forall k :: 0 <= k < |selected| && !IdLists.HasId(meals, MealId, selected[k]) ==>
                        forall m :: m in meals ==> m.id in selected[..k]) &&
      (out.Some? ==> forall m :: m in out.value <==> m in meals && m.id !in selected)
  {
    var removals := HandleDeleteSelected(meals, selected).removals;
    ApplyRemovalsRemoves(meals, removals);
    forall k | 0 <= k < |selected|
      ensures removals[k].None? <==> !IdLists.HasId(meals, MealId, selected[k])
    {
    }
    forall k, m | 0 <= k <= |selected| && m in meals
      ensures m.id in RemovedIds(removals[..k]) <==> m.id in selected[..k]
    {
      RemovedIdsOfSelection(meals, selected, k, m);
    }
    assert removals[..|selected|] == removals;
    assert selected[..|selected|] == selected;
  }
}
