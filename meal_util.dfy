/**
 * Sorting a meal list in place by a field and an order. The sort key of
 * each meal is looked up by id in a map built beforehand, and pairs are
 * compared with a numeric comparator (a - b) or a string comparator that
 * never answers "equal".
 */
module MealUtil {
  import opened Models
  import Strings

  /** A value the sort compares: a number, or a name for the NAME field. */
  datatype SortKey = NumberKey(number: real) | TextKey(text: string)

  /** The macro value for the three macro fields, the top-level field otherwise. */
  function SortKeyOf(meal: Meal, field: MealSortField): SortKey
  {
    match field
    case ProteinField => NumberKey(meal.macros.protein)
    case CarbohydratesField => NumberKey(meal.macros.carbohydrates)
    case FatsField => NumberKey(meal.macros.fats)
    case NameField => TextKey(meal.name)
    case CaloriesField => NumberKey(meal.calories)
  }

  /** The ids of a list of meals. */
  function Ids(meals: seq<Meal>): set<string>
  {
    set i | 0 <= i < |meals| :: meals[i].id
  }

  /** No later meal of the list has the id of the meal at `i`. */
  predicate LastWithId(meals: seq<Meal>, i: int)
    requires 0 <= i < |meals|
  {
    forall j :: i < j < |meals| ==> meals[j].id != meals[i].id
  }

  /**
   * The id-to-key map the source fills in a `forEach`: meal by meal, each
   * meal's key stored under its id, so a later meal overwrites an earlier
   * one with the same id.
   */
  function MealIdToPropMap(meals: seq<Meal>, field: MealSortField): map<string, SortKey>
  {
    if meals == [] then map[]
    else MealIdToPropMap(meals[..|meals| - 1], field)[meals[|meals| - 1].id := SortKeyOf(meals[|meals| - 1], field)]
  }

  /** The map holds exactly the ids of the meals. */
  lemma {:induction false} MealIdToPropMapKeys(meals: seq<Meal>, field: MealSortField)
    ensures MealIdToPropMap(meals, field).Keys == Ids(meals)
  {
    if meals != [] {
      var n := |meals| - 1;
      var front := meals[..n];
      MealIdToPropMapKeys(front, field);
      forall id | id in Ids(meals) ensures id in Ids(front) + {meals[n].id} {
        var i :| 0 <= i < |meals| && meals[i].id == id;
        if i < n {
          assert front[i] == meals[i];
        }
      }
      forall id | id in Ids(front) ensures id in Ids(meals) {
        var i :| 0 <= i < |front| && front[i].id == id;
        assert meals[i] == front[i];
      }
    }
  }

  /** Under each id the map holds the key of the last meal with that id. */
  lemma {:induction false} MealIdToPropMapLastWins(meals: seq<Meal>, field: MealSortField, i: int)
    requires 0 <= i < |meals| && LastWithId(meals, i)
    ensures meals[i].id in MealIdToPropMap(meals, field)
    ensures MealIdToPropMap(meals, field)[meals[i].id] == SortKeyOf(meals[i], field)
  {
    var n := |meals| - 1;
    if i < n {
      var front := meals[..n];
      assert meals[n].id != meals[i].id;
      assert front[i] == meals[i];
      assert LastWithId(front, i) by {
        forall j | i < j < |front| ensures front[j].id != front[i].id {
          assert front[j] == meals[j];
        }
      }
      MealIdToPropMapLastWins(front, field, i);
    }
  }

  /** Two meals with the same id share one key, that of the later of the two meals. */
  lemma SharedIdSortsByLaterValue(meals: seq<Meal>, field: MealSortField, i: int, j: int)
    requires 0 <= i < j < |meals| && meals[i].id == meals[j].id && LastWithId(meals, j)
    ensures meals[i].id in MealIdToPropMap(meals, field)
    ensures MealIdToPropMap(meals, field)[meals[i].id] == SortKeyOf(meals[j], field)
  {
    MealIdToPropMapLastWins(meals, field, j);
  }

  /** `createMealIdToPropMap`: the loop that fills the map. */
  method CreateMealIdToPropMap(meals: seq<Meal>, sortField: MealSortField) returns (mealIdToPropMap: map<string, SortKey>)
    ensures mealIdToPropMap == MealIdToPropMap(meals, sortField)
    ensures mealIdToPropMap.Keys == Ids(meals)
  {
    mealIdToPropMap := map[];
    for i := 0 to |meals|
      invariant mealIdToPropMap == MealIdToPropMap(meals[..i], sortField)
    {
      assert meals[..i + 1][..i] == meals[..i];
      mealIdToPropMap := mealIdToPropMap[meals[i].id := SortKeyOf(meals[i], sortField)];
    }
    assert meals[..|meals|] == meals;
    MealIdToPropMapKeys(meals, sortField);
  }

  /** The key of a meal in the map; a meal whose id is missing reads as 0 (the source would read `undefined`). */
  function KeyIn(keys: map<string, SortKey>, meal: Meal): SortKey
  {
    if meal.id in keys then keys[meal.id] else NumberKey(0.0)
  }

  function KeyNumber(k: SortKey): real
  {
    if k.NumberKey? then k.number else 0.0
  }

  function KeyText(k: SortKey): string
  {
    if k.TextKey? then k.text else ""
  }

  /** `(a, b) => a - b`. */
  function NumericComparator(a: real, b: real): real
  {
    a - b
  }

  /** `(a, b) => a > b ? -1 : 1`: negative exactly when `a > b`, and never 0. */
  function StringComparator(a: string, b: string): (r: int)
    ensures r != 0
    ensures r < 0 <==> Strings.Less(b, a)
  {
    if Strings.Less(b, a) then -1 else 1
  }

  /**
   * The comparator handed to `meals.sort`: for ASC it compares the first
   * key with the second, for DESC the second with the first; NAME uses the
   * string comparator, every other field the numeric one.
   */
  function Compare(sortModel: MealSortModel, x: SortKey, y: SortKey): (r: real)
    ensures sortModel.sortProperty == NameField ==> r != 0.0
    ensures sortModel.sortProperty == NameField && sortModel.sortOrder == Asc ==>
      (r < 0.0 <==> Strings.Less(KeyText(y), KeyText(x)))
    ensures sortModel.sortProperty == NameField && sortModel.sortOrder != Asc ==>
      (r < 0.0 <==> Strings.Less(KeyText(x), KeyText(y)))
    ensures sortModel.sortProperty != NameField && sortModel.sortOrder == Asc ==>
      (r < 0.0 <==> KeyNumber(x) < KeyNumber(y)) && (r == 0.0 <==> KeyNumber(x) == KeyNumber(y))
    ensures sortModel.sortProperty != NameField && sortModel.sortOrder != Asc ==>
      (r < 0.0 <==> KeyNumber(y) < KeyNumber(x)) && (r == 0.0 <==> KeyNumber(x) == KeyNumber(y))
  {
    if sortModel.sortOrder == Asc then
      if sortModel.sortProperty == NameField then StringComparator(KeyText(x), KeyText(y)) as real
      else NumericComparator(KeyNumber(x), KeyNumber(y))
    else
      if sortModel.sortProperty == NameField then StringComparator(KeyText(y), KeyText(x)) as real
      else NumericComparator(KeyNumber(y), KeyNumber(x))
  }

  /** `x` may stand before `y`: the comparator does not put `y` strictly first. */
  predicate MayPrecede(sortModel: MealSortModel, x: SortKey, y: SortKey)
  {
    Compare(sortModel, y, x) >= 0.0
  }

  /** Of any two keys, one may stand before the other. */
  lemma MayPrecedeTotal(sortModel: MealSortModel, x: SortKey, y: SortKey)
    ensures MayPrecede(sortModel, x, y) || MayPrecede(sortModel, y, x)
  {
    Strings.LessAsymmetric(KeyText(x), KeyText(y));
  }

  lemma MayPrecedeTransitive(sortModel: MealSortModel, x: SortKey, y: SortKey, z: SortKey)
    requires MayPrecede(sortModel, x, y) && MayPrecede(sortModel, y, z)
    ensures MayPrecede(sortModel, x, z)
  {
    if sortModel.sortProperty == NameField {
      var tx, ty, tz := KeyText(x), KeyText(y), KeyText(z);
      Strings.LessTotal(tx, ty);
      Strings.LessTotal(ty, tz);
      if sortModel.sortOrder == Asc {
        // no name is greater than the one before it
        if Strings.Less(tx, tz) {
          if Strings.Less(ty, tx) {
            Strings.LessTransitive(ty, tx, tz);
          } else if Strings.Less(tz, ty) {
            Strings.LessTransitive(tx, tz, ty);
          }
        }
      } else {
        if Strings.Less(tz, tx) {
          if Strings.Less(tx, ty) {
            Strings.LessTransitive(tz, tx, ty);
          } else if Strings.Less(ty, tz) {
            Strings.LessTransitive(ty, tz, tx);
          }
        }
      }
    }
  }

  /** Meal `a` may stand before meal `b` under the keys of the map. */
  predicate InOrder(keys: map<string, SortKey>, sortModel: MealSortModel, a: Meal, b: Meal)
  {
    MayPrecede(sortModel, KeyIn(keys, a), KeyIn(keys, b))
  }

  /** Every meal may stand before every later one. */
  predicate SortedBy(s: seq<Meal>, keys: map<string, SortKey>, sortModel: MealSortModel)
  {
    forall p, q :: 0 <= p < q < |s| ==> InOrder(keys, sortModel, s[p], s[q])
  }

  /** The first `i` meals are in order. */
  predicate PrefixSorted(s: seq<Meal>, i: int, keys: map<string, SortKey>, sortModel: MealSortModel)
    requires 0 <= i <= |s|
  {
    forall p, q :: 0 <= p < q < i ==> InOrder(keys, sortModel, s[p], s[q])
  }

  /**
   * The state while a meal moves down into the sorted prefix: the meals up
   * to `i` other than the one at `j` are in order, and the one at `j` may
   * stand before all meals above it.
   */
  predicate Inserting(s: seq<Meal>, i: int, j: int, keys: map<string, SortKey>, sortModel: MealSortModel)
    requires 0 <= j <= i < |s|
  {
    (forall p, q :: 0 <= p < q <= i && p != j && q != j ==> InOrder(keys, sortModel, s[p], s[q])) &&
    (forall q :: j < q <= i ==> InOrder(keys, sortModel, s[j], s[q]))
  }

  /** Once the moving meal may follow its lower neighbour, the first `i + 1` meals are in order. */
  lemma InsertingDone(s: seq<Meal>, i: int, j: int, keys: map<string, SortKey>, sortModel: MealSortModel)
    requires 0 <= j <= i < |s| && Inserting(s, i, j, keys, sortModel)
    requires j == 0 || InOrder(keys, sortModel, s[j - 1], s[j])
    ensures PrefixSorted(s, i + 1, keys, sortModel)
  {
    forall p, q | 0 <= p < q <= i
      ensures InOrder(keys, sortModel, s[p], s[q])
    {
      if q == j && p < j - 1 {
        MayPrecedeTransitive(sortModel, KeyIn(keys, s[p]), KeyIn(keys, s[j - 1]), KeyIn(keys, s[j]));
      }
    }
  }

  /** Swapping the moving meal with a lower neighbour it must precede keeps `Inserting`. */
  lemma InsertingStep(s: seq<Meal>, i: int, j: int, keys: map<string, SortKey>, sortModel: MealSortModel)
    requires 0 < j <= i < |s| && Inserting(s, i, j, keys, sortModel)
    requires !InOrder(keys, sortModel, s[j - 1], s[j])
    ensures Inserting(s[j - 1 := s[j]][j := s[j - 1]], i, j - 1, keys, sortModel)
  {
    MayPrecedeTotal(sortModel, KeyIn(keys, s[j - 1]), KeyIn(keys, s[j]));
  }

  /** Moves the meal at `i` down into the sorted prefix before it. */
  method InsertIntoPrefix(meals: array<Meal>, i: int, keys: map<string, SortKey>, sortModel: MealSortModel)
    requires 0 <= i < meals.Length && PrefixSorted(meals[..], i, keys, sortModel)
    modifies meals
    ensures PrefixSorted(meals[..], i + 1, keys, sortModel)
    ensures meals[i + 1..] == old(meals[i + 1..])
    ensures multiset(meals[..]) == multiset(old(meals[..]))
  {
    var j := i;
    while j > 0 && !InOrder(keys, sortModel, meals[j - 1], meals[j])
      invariant 0 <= j <= i
      invariant Inserting(meals[..], i, j, keys, sortModel)
      invariant meals[i + 1..] == old(meals[i + 1..])
      invariant multiset(meals[..]) == multiset(old(meals[..]))
    {
      InsertingStep(meals[..], i, j, keys, sortModel);
      meals[j - 1], meals[j] := meals[j], meals[j - 1];
      j := j - 1;
    }
    InsertingDone(meals[..], i, j, keys, sortModel);
  }

  /**
   * `sortMeals`: builds the key map, then sorts the caller's array in place
   * and returns that same array. The engine's sort algorithm is not the
   * source's; this one (insertion) yields an order the comparator accepts.
   */
  method SortMeals(meals: array<Meal>, sortModel: MealSortModel) returns (sorted: array<Meal>)
    modifies meals
    ensures sorted == meals
    ensures multiset(meals[..]) == multiset(old(meals[..]))
    ensures SortedBy(meals[..], MealIdToPropMap(old(meals[..]), sortModel.sortProperty), sortModel)
  {
    var keys := CreateMealIdToPropMap(meals[..], sortModel.sortProperty);
    for i := 0 to meals.Length
      invariant PrefixSorted(meals[..], i, keys, sortModel)
      invariant multiset(meals[..]) == multiset(old(meals[..]))
    {
      InsertIntoPrefix(meals, i, keys, sortModel);
    }
    sorted := meals;
  }

  /**
   * What the order means: numbers ascend for ASC and descend for DESC;
   * names, through the string comparator, come out the other way round
   * (ASC leaves no name greater than the one before it).
   */
  lemma SortedMeaning(s: seq<Meal>, keys: map<string, SortKey>, sortModel: MealSortModel, p: int, q: int)
    requires SortedBy(s, keys, sortModel) && 0 <= p < q < |s|
    ensures sortModel.sortProperty != NameField && sortModel.sortOrder == Asc ==>
      KeyNumber(KeyIn(keys, s[p])) <= KeyNumber(KeyIn(keys, s[q]))
    ensures sortModel.sortProperty != NameField && sortModel.sortOrder == Desc ==>
      KeyNumber(KeyIn(keys, s[p])) >= KeyNumber(KeyIn(keys, s[q]))
    ensures sortModel.sortProperty == NameField && sortModel.sortOrder == Asc ==>
      !Strings.Less(KeyText(KeyIn(keys, s[p])), KeyText(KeyIn(keys, s[q])))
    ensures sortModel.sortProperty == NameField && sortModel.sortOrder == Desc ==>
      !Strings.Less(KeyText(KeyIn(keys, s[q])), KeyText(KeyIn(keys, s[p])))
  {
    assert InOrder(keys, sortModel, s[p], s[q]);
  }

  /** No two meals share an id. */
  predicate DistinctIds(meals: seq<Meal>)
  {
    forall i, j :: 0 <= i < j < |meals| ==> meals[i].id != meals[j].id
  }

  /** A meal occurs once in a list with distinct ids. */
  lemma DistinctIdsOccurOnce(meals: seq<Meal>, i: int)
    requires DistinctIds(meals) && 0 <= i < |meals|
    ensures multiset(meals)[meals[i]] == 1
  {
    assert meals == meals[..i] + [meals[i]] + meals[i + 1..];
  }

  /** Distinct ids survive a rearrangement. */
  lemma DistinctIdsOfPermutation(a: seq<Meal>, b: seq<Meal>)
    requires DistinctIds(a) && multiset(a) == multiset(b)
    ensures DistinctIds(b)
  {
    forall i, j | 0 <= i < j < |b| ensures b[i].id != b[j].id {
      if b[i].id == b[j].id {
        assert b[i] in multiset(a) && b[j] in multiset(a);
        var i' :| 0 <= i' < |a| && a[i'] == b[i];
        var j' :| 0 <= j' < |a| && a[j'] == b[j];
        assert i' == j';
        assert b == b[..j] + [b[j]] + b[j + 1..];
        assert b[..j][i] == b[i];
        assert multiset(b)[b[j]] >= 2;
        DistinctIdsOccurOnce(a, i');
        assert false;
      }
    }
  }

  /**
   * When ids are distinct, every meal of a rearrangement of the list is
   * sorted by its own field.
   */
  lemma DistinctIdsSortByOwnFields(original: seq<Meal>, s: seq<Meal>, field: MealSortField)
    requires DistinctIds(original) && multiset(s) == multiset(original)
    ensures forall k :: 0 <= k < |s| ==> KeyIn(MealIdToPropMap(original, field), s[k]) == SortKeyOf(s[k], field)
  {
    forall k | 0 <= k < |s|
      ensures KeyIn(MealIdToPropMap(original, field), s[k]) == SortKeyOf(s[k], field)
    {
      assert s[k] in multiset(original);
      var i :| 0 <= i < |original| && original[i] == s[k];
      MealIdToPropMapLastWins(original, field, i);
    }
  }
}
