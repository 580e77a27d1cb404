/** Finite sets of ids as sorted lists, in either direction. */
module Ordering {
  import opened Prelude

  predicate Precedes(x: int, y: int, down: bool) {
    if down then x > y else x < y
  }

  ghost predicate Ordered(r: seq<int>, down: bool) {
    forall i, j :: 0 <= i < j < |r| ==> Precedes(r[i], r[j], down)
  }

  function First(s: set<int>, down: bool): (m: int)
    requires s != {}
    ensures m in s && forall x :: x in s && x != m ==> Precedes(m, x, down)
  {
    if down then MaxOf(s) else MinOf(s)
  }

  /** The elements in order. */
  function Sorted(s: set<int>, down: bool): seq<int> {
    if s == {} then [] else [First(s, down)] + Sorted(s - {First(s, down)}, down)
  }

  ghost predicate Lists(r: seq<int>, s: set<int>, down: bool) {
    Ordered(r, down) && |r| == |s| && forall x :: x in r <==> x in s
  }

  lemma ConsLists(m: int, rest: seq<int>, s: set<int>, down: bool)
    requires m in s && (forall x :: x in s && x != m ==> Precedes(m, x, down)) && Lists(rest, s - {m}, down)
    ensures Lists([m] + rest, s, down)
  {
    forall i | 0 <= i < |rest| ensures Precedes(m, rest[i], down) {
      assert rest[i] in rest;
    }
  }

  lemma {:induction false} SortedLists(s: set<int>, down: bool)
    ensures Lists(Sorted(s, down), s, down)
  {
    if s != {} {
      SortedLists(s - {First(s, down)}, down);
      ConsLists(First(s, down), Sorted(s - {First(s, down)}, down), s, down);
    }
  }
}
