/** JSON values with ordered object members, and their canonical form
    (`canonicalize_json`; `sort_all_objects` computes the same form). */
module CanonicalJson {
  import opened KeySort

  datatype Json =
    | Null
    | Bool(b: bool)
    | Number(text: string)
    | String(s: string)
    | Array(items: seq<Json>)
    | Object(members: seq<Member>)

  datatype Member = Member(key: string, value: Json)

  function KeyOf(m: Member): string {
    m.key
  }

  /** A parsed object has at most one member per key. */
  ghost predicate WellFormed(j: Json) {
    match j
    case Array(items) => forall i :: 0 <= i < |items| ==> WellFormed(items[i])
    case Object(ms) => DistinctKeys(ms, KeyOf) && forall i :: 0 <= i < |ms| ==> WellFormed(ms[i].value)
    case _ => true
  }

  /** The canonical form: members of every object sorted by key. */
  function Canonical(j: Json): (c: Json) {
    match j
    case Array(items) =>
      Array(seq(|items|, i requires 0 <= i < |items| => Canonical(items[i])))
    case Object(ms) =>
      Object(SortBy(seq(|ms|, i requires 0 <= i < |ms| => Member(ms[i].key, Canonical(ms[i].value))), KeyOf))
    case _ => j
  }

  /** The same value written with object members in some other order. */
  ghost predicate SameUpToKeyOrder(a: Json, b: Json)
    decreases a
  {
    if a.Array? && b.Array? then
      |a.items| == |b.items| && forall i :: 0 <= i < |a.items| ==> SameUpToKeyOrder(a.items[i], b.items[i])
    else if a.Object? && b.Object? then
      Keys(a.members) == Keys(b.members)
      && forall i, k :: 0 <= i < |a.members| && 0 <= k < |b.members| && a.members[i].key == b.members[k].key ==>
           SameUpToKeyOrder(a.members[i].value, b.members[k].value)
    else
      a == b
  }

  function Keys(ms: seq<Member>): set<string> {
    set i | 0 <= i < |ms| :: ms[i].key
  }

  function CanonicalMembers(ms: seq<Member>): (r: seq<Member>) {
    seq(|ms|, i requires 0 <= i < |ms| => Member(ms[i].key, Canonical(ms[i].value)))
  }

  lemma ObjectForm(ms: seq<Member>)
    ensures Canonical(Object(ms)) == Object(SortBy(CanonicalMembers(ms), KeyOf))
  {
    assert CanonicalMembers(ms) == seq(|ms|, i requires 0 <= i < |ms| => Member(ms[i].key, Canonical(ms[i].value)));
  }

  /** The sorted members of an object: same elements, distinct keys, in order. */
  lemma SortedMembers(ms: seq<Member>)
    requires DistinctKeys(ms, KeyOf)
    ensures var r := SortBy(CanonicalMembers(ms), KeyOf);
            && SortedBy(r, KeyOf) && DistinctKeys(r, KeyOf) && |r| == |ms|
            && forall m :: m in r <==> m in CanonicalMembers(ms)
  {
    var c := CanonicalMembers(ms);
    SortByKeeps(c, KeyOf);
    SameElements(SortBy(c, KeyOf), c);
    assert DistinctKeys(c, KeyOf);
    DistinctUnderPermutation(c, SortBy(c, KeyOf), KeyOf);
  }

  /** Canonical forms are equal exactly for values that differ only in the
      order of object members, at any depth. */
  lemma {:induction false} CanonicalIffSame(a: Json, b: Json)
    requires WellFormed(a) && WellFormed(b)
    ensures Canonical(a) == Canonical(b) <==> SameUpToKeyOrder(a, b)
  {
    match (a, b)
    case (Array(xs), Array(ys)) =>
      if |xs| == |ys| {
        forall i | 0 <= i < |xs| ensures Canonical(xs[i]) == Canonical(ys[i]) <==> SameUpToKeyOrder(xs[i], ys[i]) {
          CanonicalIffSame(xs[i], ys[i]);
        }
        var cx, cy := Canonical(a).items, Canonical(b).items;
        assert forall i :: 0 <= i < |xs| ==> cx[i] == Canonical(xs[i]) && cy[i] == Canonical(ys[i]);
      } else {
        assert |Canonical(a).items| != |Canonical(b).items|;
      }
    case (Object(ms), Object(ns)) =>
      forall i, k | 0 <= i < |ms| && 0 <= k < |ns|
        ensures Canonical(ms[i].value) == Canonical(ns[k].value) <==> SameUpToKeyOrder(ms[i].value, ns[k].value)
      {
        CanonicalIffSame(ms[i].value, ns[k].value);
      }
      ObjectForm(ms);
      ObjectForm(ns);
      SortedMembers(ms);
      SortedMembers(ns);
      if SameUpToKeyOrder(a, b) {
        SameMembers(ms, ns);
        SortedUnique(SortBy(CanonicalMembers(ms), KeyOf), SortBy(CanonicalMembers(ns), KeyOf), KeyOf);
      }
      if Canonical(a) == Canonical(b) {
        MembersSame(ms, ns);
      }
    case _ =>
      assert a.Object? && !b.Object? ==> Canonical(a) != Canonical(b);
  }

  lemma SameMembers(ms: seq<Member>, ns: seq<Member>)
    requires SameUpToKeyOrder(Object(ms), Object(ns))
    requires forall i, k :: 0 <= i < |ms| && 0 <= k < |ns| ==>
               (Canonical(ms[i].value) == Canonical(ns[k].value) <==> SameUpToKeyOrder(ms[i].value, ns[k].value))
    ensures forall m :: m in CanonicalMembers(ms) <==> m in CanonicalMembers(ns)
  {
    var c, d := CanonicalMembers(ms), CanonicalMembers(ns);
    forall i | 0 <= i < |c| ensures c[i] in d {
      assert ms[i].key in Keys(ns);
      var k :| 0 <= k < |ns| && ns[k].key == ms[i].key;
      assert d[k] == c[i];
    }
    forall k | 0 <= k < |d| ensures d[k] in c {
      assert ns[k].key in Keys(ms);
      var i :| 0 <= i < |ms| && ms[i].key == ns[k].key;
      assert c[i] == d[k];
    }
  }

  lemma MembersSame(ms: seq<Member>, ns: seq<Member>)
    requires DistinctKeys(ms, KeyOf) && DistinctKeys(ns, KeyOf)
    requires forall i, k :: 0 <= i < |ms| && 0 <= k < |ns| ==>
               (Canonical(ms[i].value) == Canonical(ns[k].value) <==> SameUpToKeyOrder(ms[i].value, ns[k].value))
    requires forall m :: m in CanonicalMembers(ms) <==> m in CanonicalMembers(ns)
    ensures SameUpToKeyOrder(Object(ms), Object(ns))
  {
    SameKeys(ms, ns);
    SameKeys(ns, ms);
    forall i, k | 0 <= i < |ms| && 0 <= k < |ns| && ms[i].key == ns[k].key
      ensures SameUpToKeyOrder(ms[i].value, ns[k].value)
    {
      MatchingValue(ms, ns, i, k);
    }
  }

  lemma SameKeys(ms: seq<Member>, ns: seq<Member>)
    requires forall m :: m in CanonicalMembers(ms) ==> m in CanonicalMembers(ns)
    ensures Keys(ms) <= Keys(ns)
  {
    forall i | 0 <= i < |ms| ensures ms[i].key in Keys(ns) {
      assert CanonicalMembers(ms)[i] in CanonicalMembers(ns);
    }
  }

  /** Where the canonical members agree, so do the values under equal keys. */
  lemma MatchingValue(ms: seq<Member>, ns: seq<Member>, i: nat, k: nat)
    requires DistinctKeys(ns, KeyOf) && i < |ms| && k < |ns| && ms[i].key == ns[k].key
    requires CanonicalMembers(ms)[i] in CanonicalMembers(ns)
    ensures Canonical(ms[i].value) == Canonical(ns[k].value)
  {
    var l :| 0 <= l < |ns| && CanonicalMembers(ns)[l] == CanonicalMembers(ms)[i];
    assert KeyOf(ns[l]) == KeyOf(ns[k]);
  }

  /** Canonicalising keeps a value well formed. */
  lemma {:induction false} CanonicalWellFormed(j: Json)
    requires WellFormed(j)
    ensures WellFormed(Canonical(j))
  {
    match j
    case Array(items) =>
      forall i | 0 <= i < |items| ensures WellFormed(Canonical(items[i])) {
        CanonicalWellFormed(items[i]);
      }
    case Object(ms) =>
      forall i | 0 <= i < |ms| ensures WellFormed(Canonical(ms[i].value)) {
        CanonicalWellFormed(ms[i].value);
      }
      ObjectForm(ms);
      SortedMembers(ms);
      var c, r := CanonicalMembers(ms), SortBy(CanonicalMembers(ms), KeyOf);
      forall i | 0 <= i < |r| ensures WellFormed(r[i].value) {
        assert r[i] in c;
      }
    case _ =>
  }

  /** Canonicalising twice is canonicalising once, so by the lemma above the
      canonical form is the same value with its members reordered. */
  lemma {:induction false} CanonicalIdempotent(j: Json)
    requires WellFormed(j)
    ensures Canonical(Canonical(j)) == Canonical(j)
    ensures SameUpToKeyOrder(Canonical(j), j)
  {
    match j {
      case Array(items) =>
        forall i | 0 <= i < |items| ensures Canonical(Canonical(items[i])) == Canonical(items[i]) {
          CanonicalIdempotent(items[i]);
        }
      case Object(ms) =>
        forall i | 0 <= i < |ms| ensures Canonical(Canonical(ms[i].value)) == Canonical(ms[i].value) {
          CanonicalIdempotent(ms[i].value);
        }
        ObjectIdempotent(ms);
      case _ =>
    }
    CanonicalWellFormed(j);
    CanonicalIffSame(Canonical(j), j);
  }

  lemma ObjectIdempotent(ms: seq<Member>)
    requires DistinctKeys(ms, KeyOf)
    requires forall i :: 0 <= i < |ms| ==> Canonical(Canonical(ms[i].value)) == Canonical(ms[i].value)
    ensures Canonical(Canonical(Object(ms))) == Canonical(Object(ms))
  {
    var c, r := CanonicalMembers(ms), SortBy(CanonicalMembers(ms), KeyOf);
    ObjectForm(ms);
    SortedMembers(ms);
    forall i | 0 <= i < |r| ensures CanonicalMembers(r)[i] == r[i] {
      assert r[i] in c;
    }
    assert CanonicalMembers(r) == r;
    ObjectForm(r);
    SortedMembers(r);
    SortedUnique(SortBy(r, KeyOf), r, KeyOf);
  }
}
