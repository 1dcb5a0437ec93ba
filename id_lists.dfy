/**
 * The three list updates the store's reducers perform on records keyed by
 * an id: append, replace every record with a given id (`map`), and drop
 * every record with a given id (`filter`). `idOf` reads a record's id.
 */
module IdLists {
  import opened Wrappers

  /** `list.map(x => idOf(x) === idOf(y) ? {...y} : x)`. */
  function ReplaceById<T>(s: seq<T>, idOf: T -> string, y: T): (r: seq<T>)
    ensures |r| == |s|
    ensures forall i :: 0 <= i < |s| && idOf(s[i]) == idOf(y) ==> r[i] == y
    ensures forall i :: 0 <= i < |s| && idOf(s[i]) != idOf(y) ==> r[i] == s[i]
  {
    if s == [] then [] else [if idOf(s[0]) == idOf(y) then y else s[0]] + ReplaceById(s[1..], idOf, y)
  }

  /** `list.filter(x => idOf(x) !== id)`. */
  function RemoveById<T>(s: seq<T>, idOf: T -> string, id: string): (r: seq<T>)
    ensures |r| <= |s|
    ensures forall i :: 0 <= i < |r| ==> idOf(r[i]) != id
    ensures forall x :: x in s && idOf(x) != id ==> x in r
    ensures forall x :: x in r ==> x in s
  {
    if s == [] then []
    else if idOf(s[0]) == id then RemoveById(s[1..], idOf, id)
    else [s[0]] + RemoveById(s[1..], idOf, id)
  }

  /** Some record of `s` carries the id. */
  predicate HasId<T>(s: seq<T>, idOf: T -> string, id: string)
  {
    exists i :: 0 <= i < |s| && idOf(s[i]) == id
  }

  /** Filtering distributes over concatenation, so the kept records stay in their order. */
  lemma {:induction false} RemoveByIdAppend<T>(a: seq<T>, b: seq<T>, idOf: T -> string, id: string)
    ensures RemoveById(a + b, idOf, id) == RemoveById(a, idOf, id) + RemoveById(b, idOf, id)
  {
    if a != [] {
      var ab := a + b;
      assert ab[0] == a[0] && ab[1..] == a[1..] + b;
      var front, back := RemoveById(a[1..], idOf, id), RemoveById(b, idOf, id);
      RemoveByIdAppend(a[1..], b, idOf, id);
      if idOf(a[0]) != id {
        calc {
          RemoveById(ab, idOf, id);
          [a[0]] + (front + back);
          ([a[0]] + front) + back;
        }
      }
    } else {
      assert a + b == b;
    }
  }

  /** Removing an id that no record carries changes nothing. */
  lemma {:induction false} RemoveAbsentId<T>(s: seq<T>, idOf: T -> string, id: string)
    requires !HasId(s, idOf, id)
    ensures RemoveById(s, idOf, id) == s
  {
    if s != [] {
      assert !HasId(s[1..], idOf, id) by {
        forall i | 0 <= i < |s[1..]| ensures idOf(s[1..][i]) != id {
          assert s[1..][i] == s[i + 1];
        }
      }
      RemoveAbsentId(s[1..], idOf, id);
    }
  }

  /** Replacing by an id that no record carries changes nothing. */
  lemma ReplaceAbsentId<T>(s: seq<T>, idOf: T -> string, y: T)
    requires !HasId(s, idOf, idOf(y))
    ensures ReplaceById(s, idOf, y) == s
  {
  }

  /** Replacing twice with the same record is the same as replacing once. */
  lemma ReplaceIdempotent<T>(s: seq<T>, idOf: T -> string, y: T)
    ensures ReplaceById(ReplaceById(s, idOf, y), idOf, y) == ReplaceById(s, idOf, y)
  {
  }

  /** Appending a record with a fresh id and then removing that id restores the list. */
  lemma AppendThenRemove<T>(s: seq<T>, idOf: T -> string, y: T)
    requires !HasId(s, idOf, idOf(y))
    ensures RemoveById(s + [y], idOf, idOf(y)) == s
  {
    RemoveByIdAppend(s, [y], idOf, idOf(y));
    RemoveAbsentId(s, idOf, idOf(y));
    assert RemoveById([y], idOf, idOf(y)) == [];
  }

  /** Removing is idempotent. */
  lemma RemoveIdempotent<T>(s: seq<T>, idOf: T -> string, id: string)
    ensures RemoveById(RemoveById(s, idOf, id), idOf, id) == RemoveById(s, idOf, id)
  {
    RemoveAbsentId(RemoveById(s, idOf, id), idOf, id);
  }

  /** The record at `k` is the first of `s` carrying the id. */
  predicate FirstAt<T>(s: seq<T>, idOf: T -> string, id: string, k: int)
  {
    0 <= k < |s| && idOf(s[k]) == id && forall p :: 0 <= p < k ==> idOf(s[p]) != id
  }

  /** Only one position holds the first record with an id. */
  lemma FirstAtUnique<T>(s: seq<T>, idOf: T -> string, id: string, j: int, k: int)
    requires FirstAt(s, idOf, id, j) && FirstAt(s, idOf, id, k)
    ensures j == k
  {
  }

  /** `list.filter(x => idOf(x) === id)[0]`, `None` standing for `undefined`. */
  function FirstById<T>(s: seq<T>, idOf: T -> string, id: string): (r: Option<T>)
    ensures r.Some? ==> exists k :: FirstAt(s, idOf, id, k) && s[k] == r.value
    ensures r.None? <==> forall k :: 0 <= k < |s| ==> idOf(s[k]) != id
  {
    if s == [] then None
    else if idOf(s[0]) == id then
      assert FirstAt(s, idOf, id, 0);
      Some(s[0])
    else
      var rest := FirstById(s[1..], idOf, id);
      if rest.Some? then
        assert exists k :: FirstAt(s, idOf, id, k) && s[k] == rest.value by {
          var k :| FirstAt(s[1..], idOf, id, k) && s[1..][k] == rest.value;
          assert FirstAt(s, idOf, id, k + 1);
        }
        rest
      else
        None
  }
}
