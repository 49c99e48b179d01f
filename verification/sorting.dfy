/**
 Ordering of query results. A set of primary keys is listed by repeatedly
 taking the first remaining key, where keys compare by an integer sort key
 and, on equal sort keys, by their own value. This is how the listings
 realise `order_by(...)`.
 */
module Sorting {

  ghost predicate Distinct(s: seq<int>) {
    forall i, j :: 0 <= i < j < |s| ==> s[i] != s[j]
  }

  /** `a` comes no later than `b`: a smaller sort key, or the same sort key and a smaller or equal value. */
  predicate Before(key: int -> int, a: int, b: int) {
    key(a) < key(b) || (key(a) == key(b) && a <= b)
  }

  predicate IsFirst(m: int, s: set<int>, key: int -> int) {
    m in s && forall y :: y in s ==> Before(key, m, y)
  }

  lemma NonEmptyHasElement(s: set<int>)
    requires s != {}
    ensures exists x :: x in s
  {
    if forall y :: y !in s {
      assert false;
    }
  }

  /** Every non-empty finite set has a first element. */
  lemma {:induction false} FirstExists(s: set<int>, key: int -> int)
    requires s != {}
    ensures exists m :: IsFirst(m, s, key)
    decreases |s|
  {
    NonEmptyHasElement(s);
    var x :| x in s;
    if !IsFirst(x, s, key) {
      var y :| y in s && !Before(key, x, y);
      var rest := s - {x};
      assert y in rest;
      FirstExists(rest, key);
      var m :| IsFirst(m, rest, key);
      assert Before(key, y, x);
      forall z | z in s ensures Before(key, m, z) {
        if z != x { assert z in rest; }
      }
      assert IsFirst(m, s, key);
    } else {
      assert IsFirst(x, s, key);
    }
  }

  /** The first element of a set is unique: `Before` is antisymmetric. */
  lemma FirstIsUnique(a: int, b: int, s: set<int>, key: int -> int)
    requires IsFirst(a, s, key) && IsFirst(b, s, key)
    ensures a == b
  {
  }

  /**
   Every key of `ids` exactly once, ordered by `key`; keys with equal sort
   keys come in ascending order.
   */
  function OrderBy(ids: set<int>, key: int -> int): (r: seq<int>)
    ensures |r| == |ids|
    ensures forall x :: x in r <==> x in ids
    ensures forall i, j :: 0 <= i < j < |r| ==> Before(key, r[i], r[j]) && r[i] != r[j]
    decreases |ids|
  {
    if ids == {} then []
    else
      FirstExists(ids, key);
      forall a, b | IsFirst(a, ids, key) && IsFirst(b, ids, key) ensures a == b {
        FirstIsUnique(a, b, ids, key);
      }
      var m :| IsFirst(m, ids, key);
      var rest := OrderBy(ids - {m}, key);
      var r := [m] + rest;
      forall i, j | 0 <= i < j < |r| ensures Before(key, r[i], r[j]) && r[i] != r[j] {
        if i == 0 {
          assert r[j] == rest[j - 1] && r[j] in ids - {m};
        } else {
          assert r[i] == rest[i - 1] && r[j] == rest[j - 1];
        }
      }
      r
  }
}
