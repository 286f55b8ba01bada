/**
  The list edits shared by the cycles and events reducers: append, replace the
  first record with the payload's id (`findIndex` then assignment) and drop
  every record with a given id (`filter`). A record's optional id is read
  through `idOf`; `undefined === undefined` holds in JavaScript, which `None ==
  None` reproduces.
*/
module Records {
  import opened Wrappers
  import opened Seqs

  /** The test of `findIndex` in an update reducer: the record has the payload's id. */
  function SameId<T>(idOf: T -> Option<int>, x: T): T -> bool {
    (y: T) => idOf(y) == idOf(x)
  }

  /** The test of `filter` in a delete reducer: the record's id is not `id`. */
  function OtherId<T>(idOf: T -> Option<int>, id: int): T -> bool {
    (y: T) => idOf(y) != Some(id)
  }

  /** No record of `s` carries the id `id`. */
  predicate Fresh<T>(s: seq<T>, idOf: T -> Option<int>, id: int) {
    forall k :: 0 <= k < |s| ==> idOf(s[k]) != Some(id)
  }

  /** Replace the first record with the id of `x` by `x`; nothing happens when no id matches. */
  function UpdateById<T>(s: seq<T>, idOf: T -> Option<int>, x: T): (r: seq<T>)
    ensures |r| == |s|
    ensures (forall j :: 0 <= j < |s| ==> idOf(s[j]) != idOf(x)) ==> r == s
    ensures forall i :: 0 <= i < |s| && idOf(s[i]) == idOf(x) && (forall j :: 0 <= j < i ==> idOf(s[j]) != idOf(x)) ==>
      r[i] == x && forall k :: 0 <= k < |s| && k != i ==> r[k] == s[k]
  {
    ReplaceFirst(s, SameId(idOf, x), x)
  }

  /** Drop every record with the id `id`, keeping the others in order. */
  function DeleteById<T>(s: seq<T>, idOf: T -> Option<int>, id: int): (r: seq<T>)
    ensures |r| <= |s|
    ensures Fresh(r, idOf, id)
    ensures forall y :: y in r ==> y in s
  {
    var r := Filter(s, OtherId(idOf, id));
    assert forall k :: 0 <= k < |r| ==> r[k] in r;
    r
  }

  /**
    Deletion keeps every record with another id as often as it occurs, drops
    the others, and keeps the order.
  */
  lemma DeleteByIdContents<T(!new)>(s: seq<T>, idOf: T -> Option<int>, id: int)
    ensures forall y :: multiset(DeleteById(s, idOf, id))[y] == if idOf(y) != Some(id) then multiset(s)[y] else 0
    ensures Subsequence(DeleteById(s, idOf, id), s)
  {
    FilterContents(s, OtherId(idOf, id));
  }

  /** Deleting an id no record carries changes nothing. */
  lemma DeleteFresh<T>(s: seq<T>, idOf: T -> Option<int>, id: int)
    requires Fresh(s, idOf, id)
    ensures DeleteById(s, idOf, id) == s
  {
    FilterAll(s, OtherId(idOf, id));
  }

  /** Deleting twice is deleting once. */
  lemma DeleteIdempotent<T>(s: seq<T>, idOf: T -> Option<int>, id: int)
    ensures DeleteById(DeleteById(s, idOf, id), idOf, id) == DeleteById(s, idOf, id)
  {
    DeleteFresh(DeleteById(s, idOf, id), idOf, id);
  }

  /** Appending a record with a fresh id and then deleting that id restores the list. */
  lemma DeleteAfterAppend<T>(s: seq<T>, idOf: T -> Option<int>, x: T, id: int)
    requires idOf(x) == Some(id)
    requires Fresh(s, idOf, id)
    ensures DeleteById(s + [x], idOf, id) == s
  {
    FilterConcat(s, [x], OtherId(idOf, id));
    DeleteFresh(s, idOf, id);
    assert Filter([x], OtherId(idOf, id)) == [];
  }

  /** Replacing the first record whose id matches peels off like the list. */
  lemma UpdateStep<T>(s: seq<T>, idOf: T -> Option<int>, x: T)
    requires |s| > 0
    ensures UpdateById(s, idOf, x) ==
      if idOf(s[0]) == idOf(x) then [x] + s[1..] else [s[0]] + UpdateById(s[1..], idOf, x)
  {
  }

  /** Updating twice with the same record is updating once. */
  lemma {:induction false} UpdateIdempotent<T>(s: seq<T>, idOf: T -> Option<int>, x: T)
    ensures UpdateById(UpdateById(s, idOf, x), idOf, x) == UpdateById(s, idOf, x)
    decreases |s|
  {
    if |s| > 0 {
      var r := UpdateById(s, idOf, x);
      UpdateStep(s, idOf, x);
      UpdateStep(r, idOf, x);
      if idOf(s[0]) == idOf(x) {
        assert r[1..] == s[1..];
      } else {
        assert r[1..] == UpdateById(s[1..], idOf, x);
        UpdateIdempotent(s[1..], idOf, x);
      }
    }
  }

  /**
    Deleting the id of an updated record removes the update with it: the rest
    of the list is as if the update had not happened.
  */
  lemma {:induction false} DeleteAfterUpdate<T>(s: seq<T>, idOf: T -> Option<int>, x: T, id: int)
    requires idOf(x) == Some(id)
    ensures DeleteById(UpdateById(s, idOf, x), idOf, id) == DeleteById(s, idOf, id)
    decreases |s|
  {
    if |s| > 0 {
      var r := UpdateById(s, idOf, x);
      UpdateStep(s, idOf, x);
      assert r[1..] == if idOf(s[0]) == idOf(x) then s[1..] else UpdateById(s[1..], idOf, x);
      if idOf(s[0]) != idOf(x) {
        DeleteAfterUpdate(s[1..], idOf, x, id);
      }
    }
  }

  /** Updating a record appended with a fresh id replaces that record. */
  lemma UpdateAfterAppend<T>(s: seq<T>, idOf: T -> Option<int>, x: T, y: T, id: int)
    requires idOf(x) == Some(id) && idOf(y) == Some(id)
    requires Fresh(s, idOf, id)
    ensures UpdateById(s + [x], idOf, y) == s + [y]
  {
    var t := s + [x];
    assert t[|s|] == x;
    assert forall j :: 0 <= j < |s| ==> idOf(t[j]) != idOf(y) by {
      forall j | 0 <= j < |s| ensures idOf(t[j]) != idOf(y) {
        assert t[j] == s[j];
      }
    }
    var r := UpdateById(t, idOf, y);
    assert r == s + [y] by {
      forall k | 0 <= k < |r| ensures r[k] == (s + [y])[k] {
        if k < |s| { assert r[k] == t[k]; }
      }
    }
  }

  /** No two records share an id; records without an id are not constrained. */
  predicate DistinctIds<T>(s: seq<T>, idOf: T -> Option<int>) {
    forall i, j :: 0 <= i < j < |s| && idOf(s[i]).Some? ==> idOf(s[i]) != idOf(s[j])
  }

  /** Dropping the first record keeps the ids distinct. */
  lemma DistinctTail<T>(s: seq<T>, idOf: T -> Option<int>)
    requires |s| > 0 && DistinctIds(s, idOf)
    ensures DistinctIds(s[1..], idOf)
    ensures idOf(s[0]).Some? ==> Fresh(s[1..], idOf, idOf(s[0]).value)
  {
    var t := s[1..];
    forall i, j | 0 <= i < j < |t| && idOf(t[i]).Some? ensures idOf(t[i]) != idOf(t[j]) {
      assert t[i] == s[i + 1] && t[j] == s[j + 1];
    }
    if idOf(s[0]).Some? {
      forall k | 0 <= k < |t| ensures idOf(t[k]) != idOf(s[0]) {
        assert t[k] == s[k + 1];
      }
    }
  }

  /** With distinct ids a deletion removes at most one record. */
  lemma {:induction false} DeleteRemovesAtMostOne<T>(s: seq<T>, idOf: T -> Option<int>, id: int)
    requires DistinctIds(s, idOf)
    ensures |DeleteById(s, idOf, id)| + 1 >= |s|
    decreases |s|
  {
    if |s| > 0 {
      var t := s[1..];
      DistinctTail(s, idOf);
      if idOf(s[0]) != Some(id) {
        DeleteRemovesAtMostOne(t, idOf, id);
      } else {
        DeleteFresh(t, idOf, id);
      }
    }
  }

  /** Deleting keeps the ids distinct. */
  lemma {:induction false} DeleteKeepsDistinct<T>(s: seq<T>, idOf: T -> Option<int>, id: int)
    requires DistinctIds(s, idOf)
    ensures DistinctIds(DeleteById(s, idOf, id), idOf)
    decreases |s|
  {
    if |s| > 0 {
      var t := s[1..];
      DistinctTail(s, idOf);
      DeleteKeepsDistinct(t, idOf, id);
      var rest := DeleteById(t, idOf, id);
      if idOf(s[0]) != Some(id) {
        var r := [s[0]] + rest;
        assert DeleteById(s, idOf, id) == r;
        forall i, j | 0 <= i < j < |r| && idOf(r[i]).Some? ensures idOf(r[i]) != idOf(r[j]) {
          if i == 0 {
            assert r[j] == rest[j - 1] && r[j] in rest;
            var k :| 0 <= k < |t| && t[k] == r[j];
          } else {
            assert r[i] == rest[i - 1] && r[j] == rest[j - 1];
          }
        }
      }
    }
  }

  /** An update keeps the id found at every position. */
  lemma UpdateKeepsIds<T>(s: seq<T>, idOf: T -> Option<int>, x: T)
    ensures forall k :: 0 <= k < |s| ==> idOf(UpdateById(s, idOf, x)[k]) == idOf(s[k])
  {
    match FirstIndex(s, SameId(idOf, x))
    case None =>
    case Some(i) =>
      assert forall j :: 0 <= j < i ==> idOf(s[j]) != idOf(x);
  }

  /** An update keeps the ids distinct. */
  lemma UpdateKeepsDistinct<T>(s: seq<T>, idOf: T -> Option<int>, x: T)
    requires DistinctIds(s, idOf)
    ensures DistinctIds(UpdateById(s, idOf, x), idOf)
  {
    UpdateKeepsIds(s, idOf, x);
  }

  /** Appending a record without an id, or with a fresh one, keeps the ids distinct. */
  lemma AppendKeepsDistinct<T>(s: seq<T>, idOf: T -> Option<int>, x: T)
    requires DistinctIds(s, idOf)
    requires idOf(x).Some? ==> Fresh(s, idOf, idOf(x).value)
    ensures DistinctIds(s + [x], idOf)
  {
    var r := s + [x];
    forall i, j | 0 <= i < j < |r| && idOf(r[i]).Some? ensures idOf(r[i]) != idOf(r[j]) {
      assert r[i] == s[i];
      if j < |s| { assert r[j] == s[j]; }
    }
  }
}
