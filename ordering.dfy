/**
 * `ORDER BY <key> DESC LIMIT ?` over the rows of a table, as the session
 * list and the draw history read them (backend/database.py). SQLite leaves
 * the order of rows with equal keys open; the model picks one, and the
 * contracts promise only what any order would give: the rows come from the
 * table, keys never increase, and the ones left out are no larger than the
 * last one returned.
 */
module Ordering {

  /** Keys never increase along `s`. */
  predicate SortedDesc<T>(s: seq<T>, key: T -> int) {
    forall i, j | 0 <= i < j < |s| :: key(s[i]) >= key(s[j])
  }

  /** No key in `s` exceeds `bound`. */
  predicate AtMost<T>(s: seq<T>, bound: int, key: T -> int) {
    forall j | 0 <= j < |s| :: key(s[j]) <= bound
  }

  /** `x` placed in front of the first element of `s` whose key is not larger. */
  function Insert<T>(x: T, s: seq<T>, key: T -> int): (r: seq<T>)
    requires SortedDesc(s, key)
    ensures multiset(r) == multiset(s) + multiset{x}
    ensures |r| == |s| + 1
    ensures SortedDesc(r, key)
  {
    if s == [] || key(s[0]) <= key(x) then
      assert AtMost(s, key(x), key) by {
        if s != [] {
          assert forall j | 0 <= j < |s| :: key(s[j]) <= key(s[0]);
        }
      }
      ConsSorted(x, s, key);
      [x] + s
    else
      var t := Insert(x, s[1..], key);
      assert s == [s[0]] + s[1..];
      assert AtMost(s[1..] + [x], key(s[0]), key);
      AtMostPerm(s[1..] + [x], t, key(s[0]), key);
      ConsSorted(s[0], t, key);
      [s[0]] + t
  }

  lemma ConsSorted<T>(h: T, t: seq<T>, key: T -> int)
    requires SortedDesc(t, key) && AtMost(t, key(h), key)
    ensures SortedDesc([h] + t, key)
  {
  }

  /** A bound on the keys holds of every rearrangement. */
  lemma AtMostPerm<T>(s: seq<T>, t: seq<T>, bound: int, key: T -> int)
    requires multiset(s) == multiset(t) && AtMost(s, bound, key)
    ensures AtMost(t, bound, key)
  {
    forall j | 0 <= j < |t|
      ensures key(t[j]) <= bound
    {
      assert t[j] in multiset(s);
      var i :| 0 <= i < |s| && s[i] == t[j];
    }
  }

  /** The rows of `s`, largest key first. */
  function SortDesc<T>(s: seq<T>, key: T -> int): (r: seq<T>)
    ensures multiset(r) == multiset(s)
    ensures |r| == |s|
    ensures SortedDesc(r, key)
  {
    if s == [] then []
    else
      assert s == [s[0]] + s[1..];
      Insert(s[0], SortDesc(s[1..], key), key)
  }

  /** `LIMIT n`: SQLite returns every row when `n` is negative. */
  function Take<T>(s: seq<T>, limit: int): (r: seq<T>)
    ensures |r| == if 0 <= limit < |s| then limit else |s|
    ensures r == s[..|r|]
  {
    if 0 <= limit < |s| then s[..limit] else s
  }

  /** `ORDER BY key DESC LIMIT limit`. */
  function Top<T>(s: seq<T>, key: T -> int, limit: int): (r: seq<T>)
    ensures SortedDesc(r, key)
    ensures multiset(r) <= multiset(s)
    ensures |r| == if 0 <= limit < |s| then limit else |s|
    ensures forall x | x in multiset(s) - multiset(r) :: forall j | 0 <= j < |r| :: key(x) <= key(r[j])
  {
    var p := SortDesc(s, key);
    var r := Take(p, limit);
    TakeSplit(p, |r|, key);
    r
  }

  /** Cutting a sorted sequence: the cut-off part is a multiset difference
      and holds no key above any kept key. */
  lemma TakeSplit<T>(p: seq<T>, k: nat, key: T -> int)
    requires k <= |p| && SortedDesc(p, key)
    ensures multiset(p[..k]) <= multiset(p)
    ensures multiset(p) - multiset(p[..k]) == multiset(p[k..])
    ensures forall x | x in multiset(p[k..]) :: forall j | 0 <= j < k :: key(x) <= key(p[j])
  {
    assert p == p[..k] + p[k..];
    forall x | x in multiset(p[k..])
      ensures forall j | 0 <= j < k :: key(x) <= key(p[j])
    {
      var i :| 0 <= i < |p[k..]| && p[k..][i] == x;
      assert x == p[k + i];
    }
  }
}
