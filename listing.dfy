/** Ordered listings: `.sort({ field: ±1 })` over a set of documents, given
    each document's sort key. Documents with equal keys are listed by id. */
module Listing {
  import opened Base

  /** `a` comes no later than `b`: a smaller key, or an equal key and a smaller id. */
  predicate Precedes(key: map<Id, int>, a: Id, b: Id)
    requires a in key && b in key
  {
    key[a] < key[b] || (key[a] == key[b] && a <= b)
  }

  predicate IsFirst(key: map<Id, int>, k: Id, ids: set<Id>)
    requires ids <= key.Keys
  {
    k in ids && forall j :: j in ids ==> Precedes(key, k, j)
  }

  /** Every non-empty set of ids has a first element. */
  lemma {:induction false} FirstExists(key: map<Id, int>, ids: set<Id>)
    requires ids <= key.Keys && ids != {}
    ensures exists k :: IsFirst(key, k, ids)
    decreases ids
  {
    var x :| x in ids;
    if ids != {x} {
      var rest := ids - {x};
      FirstExists(key, rest);
      var y :| IsFirst(key, y, rest);
      if Precedes(key, x, y) {
        forall j | j in ids ensures Precedes(key, x, j) {
          if j != x { assert Precedes(key, y, j); }
        }
        assert IsFirst(key, x, ids);
      } else {
        assert IsFirst(key, y, ids);
      }
    } else {
      assert IsFirst(key, x, ids);
    }
  }

  /** `r` lists each id of `ids` exactly once, in ascending order of key. */
  ghost predicate ListsInOrder(key: map<Id, int>, ids: set<Id>, r: seq<Id>)
    requires ids <= key.Keys
  {
    && |r| == |ids|
    && (forall k :: k in r <==> k in ids)
    && (forall i, j :: 0 <= i < j < |r| ==> r[i] != r[j])
    && (forall i, j :: 0 <= i < j < |r| ==> r[i] in key && r[j] in key && key[r[i]] <= key[r[j]])
  }

  /** Putting the first id in front of an ordered listing of the others
      gives an ordered listing of all of them. */
  lemma ConsInOrder(key: map<Id, int>, ids: set<Id>, k: Id, rest: seq<Id>)
    requires ids <= key.Keys && IsFirst(key, k, ids)
    requires ListsInOrder(key, ids - {k}, rest)
    ensures ListsInOrder(key, ids, [k] + rest)
  {
    var r := [k] + rest;
    assert |ids - {k}| == |ids| - 1;
    forall i, j | 0 <= i < j < |r| ensures r[i] != r[j] && key[r[i]] <= key[r[j]] {
      assert r[j] == rest[j - 1] && rest[j - 1] in rest;
      if i > 0 { assert r[i] == rest[i - 1]; }
    }
  }

  /** The ids in ascending order of their keys: each appears exactly once. */
  function SortBy(key: map<Id, int>, ids: set<Id>): (r: seq<Id>)
    requires ids <= key.Keys
    ensures |r| == |ids|
    ensures forall k :: k in r <==> k in ids
    ensures forall i, j :: 0 <= i < j < |r| ==> r[i] != r[j]
    ensures forall i, j :: 0 <= i < j < |r| ==> r[i] in key && r[j] in key && key[r[i]] <= key[r[j]]
    decreases ids
  {
    if ids == {} then []
    else
      FirstExists(key, ids);
      var k :| IsFirst(key, k, ids);
      var rest := SortBy(key, ids - {k});
      ConsInOrder(key, ids, k, rest);
      [k] + rest
  }
}
