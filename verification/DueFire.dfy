/** Searching a cron expression's fire times. A parsed expression in a time zone is
    a strictly increasing, unbounded sequence of instants. */
module DueFire {
  import opened Prelude

  /** Microseconds. */
  type Time = int
  const SECOND := 1_000_000
  const MINUTE := 60 * SECOND
  const DAY := 24 * 60 * MINUTE

  ghost predicate Increasing(fires: nat -> Time) {
    forall i: nat, j: nat :: i < j ==> fires(i) < fires(j)
  }

  /** Fires fall on whole seconds. */
  ghost predicate WholeSeconds(fires: nat -> Time) {
    forall i: nat :: fires(i) % SECOND == 0
  }

  predicate AtOrAfter(x: Time, start: Time, inclusive: bool) {
    if inclusive then start <= x else start < x
  }

  /** `iter_from(start)` begins at the first fire at or after `start`; whether a
      fire exactly at `start` counts is left open by `inclusive`. */
  function FirstFrom(fires: nat -> Time, start: Time, inclusive: bool, i: nat := 0): (k: nat)
    requires Increasing(fires)
    requires forall j: nat :: j < i ==> !AtOrAfter(fires(j), start, inclusive)
    ensures AtOrAfter(fires(k), start, inclusive)
    ensures forall j: nat :: j < k ==> !AtOrAfter(fires(j), start, inclusive)
    decreases start - fires(i) + 1
  {
    if AtOrAfter(fires(i), start, inclusive) then i
    else
      assert fires(i) < fires(i + 1);
      FirstFrom(fires, start, inclusive, i + 1)
  }

  /** `x` may be enqueued: found by a search from `start`, after the last fire, due. */
  predicate Eligible(x: Time, start: Time, inclusive: bool, last: Option<Time>, now: Time) {
    AtOrAfter(x, start, inclusive) && (last.None? || last.value < x) && x <= now
  }

  ghost predicate SomeEligible(fires: nat -> Time, start: Time, inclusive: bool, last: Option<Time>, now: Time) {
    exists i: nat :: Eligible(fires(i), start, inclusive, last, now)
  }

  /** `r` is the greatest eligible fire, or none when there is none. */
  ghost predicate IsLatest(r: Option<Time>, fires: nat -> Time, start: Time, inclusive: bool,
                          last: Option<Time>, now: Time) {
    match r
    case None => !SomeEligible(fires, start, inclusive, last, now)
    case Some(x) =>
      && (exists i: nat :: fires(i) == x && Eligible(fires(i), start, inclusive, last, now))
      && (forall i: nat :: Eligible(fires(i), start, inclusive, last, now) ==> fires(i) <= x)
  }

  lemma LatestUnique(a: Option<Time>, b: Option<Time>, fires: nat -> Time, start: Time, inclusive: bool,
                     last: Option<Time>, now: Time)
    requires IsLatest(a, fires, start, inclusive, last, now) && IsLatest(b, fires, start, inclusive, last, now)
    ensures a == b
  {
  }

  /** The scan both `latest_fire_time` and `latest_due_fire_in_window` run. */
  method ScanLatest(fires: nat -> Time, start: Time, inclusive: bool, last: Option<Time>, now: Time)
    returns (latest: Option<Time>)
    requires Increasing(fires)
    ensures IsLatest(latest, fires, start, inclusive, last, now)
  {
    latest := None;
    var i := FirstFrom(fires, start, inclusive);
    ghost var first := i;
    while fires(i) <= now
      invariant first <= i
      invariant match latest
                case None => forall j: nat :: j < i ==> !Eligible(fires(j), start, inclusive, last, now)
                case Some(x) => && (exists j: nat :: fires(j) == x && Eligible(fires(j), start, inclusive, last, now))
                                && (forall j: nat :: j < i && Eligible(fires(j), start, inclusive, last, now) ==>
                                      fires(j) <= x)
                                && x < fires(i)
      decreases now - fires(i) + 1
    {
      assert fires(first) <= fires(i) < fires(i + 1);
      if last.None? || last.value < fires(i) {
        assert Eligible(fires(i), start, inclusive, last, now);
        latest := Some(fires(i));
      }
      i := i + 1;
    }
    NoneLater(fires, i, now);
  }

  /** Past the first fire after `now` every fire is after `now`. */
  lemma NoneLater(fires: nat -> Time, i: nat, now: Time)
    requires Increasing(fires) && now < fires(i)
    ensures forall j: nat :: i <= j ==> now < fires(j)
  {
    forall j: nat | i <= j ensures now < fires(j) {
      assert i < j ==> fires(i) < fires(j);
    }
  }

  /** `PeriodicJob::latest_fire_time`: the greatest fire in `(after, now]`, or with
      no `after` in the last day. */
  method LatestFireTime(fires: nat -> Time, inclusive: bool, now: Time, after: Option<Time>)
    returns (latest: Option<Time>)
    requires Increasing(fires)
    ensures IsLatest(latest, fires, after.GetOr(now - DAY), inclusive, after, now)
    ensures after.Some? && latest.Some? ==> after.value < latest.value <= now
    ensures after.Some? ==> (latest.None? <==> forall i: nat :: !(after.value < fires(i) <= now))
  {
    latest := ScanLatest(fires, after.GetOr(now - DAY), inclusive, after, now);
    assert after.Some? ==>
           forall i: nat :: Eligible(fires(i), after.value, inclusive, after, now) <==> after.value < fires(i) <= now;
  }

  /** Evaluating again from the fire just found, at the same instant, finds none. */
  lemma LatestIsConsumed(x: Time, fires: nat -> Time, start: Time, inclusive: bool, last: Option<Time>, now: Time)
    requires IsLatest(Some(x), fires, start, inclusive, last, now)
    ensures IsLatest(None, fires, x, inclusive, Some(x), now)
  {
    forall i: nat ensures !Eligible(fires(i), x, inclusive, Some(x), now) {
      if x < fires(i) <= now {
        assert Eligible(fires(i), start, inclusive, last, now);
      }
    }
  }

  // ---- The worker's search ------------------------------------------------------

  /** `first_due_fire` */
  method FirstDueFire(fires: nat -> Time, start: Time, inclusive: bool, last: Option<Time>, now: Time)
    returns (first: Option<Time>)
    requires Increasing(fires)
    ensures first.None? ==> !SomeEligible(fires, start, inclusive, last, now)
    ensures first.Some? ==>
              && (exists i: nat :: fires(i) == first.value && Eligible(fires(i), start, inclusive, last, now))
              && (forall i: nat :: Eligible(fires(i), start, inclusive, last, now) ==> first.value <= fires(i))
  {
    var i := FirstFrom(fires, start, inclusive);
    ghost var from := i;
    while fires(i) <= now
      invariant from <= i
      invariant forall j: nat :: j < i ==> !Eligible(fires(j), start, inclusive, last, now)
      decreases now - fires(i) + 1
    {
      assert fires(from) <= fires(i) < fires(i + 1);
      if last.None? || last.value < fires(i) {
        forall j: nat | Eligible(fires(j), start, inclusive, last, now) ensures fires(i) <= fires(j) {
          if i < j { assert fires(i) < fires(j); }
        }
        return Some(fires(i));
      }
      i := i + 1;
    }
    NoneLater(fires, i, now);
    first := None;
  }

  /** Whole-second fires at least a second apart. */
  lemma SecondsApart(fires: nat -> Time, i: nat, j: nat)
    requires WholeSeconds(fires) && fires(i) < fires(j)
    ensures fires(i) + SECOND <= fires(j)
  {
    assert fires(i) % SECOND == 0 && fires(j) % SECOND == 0;
  }

  /** An eligible fire of a window that begins no earlier than the first due one
      is eligible, and the window holds every later one. */
  lemma LatestOfWindow(r: Option<Time>, fires: nat -> Time, start: Time, inclusive: bool, last: Option<Time>, now: Time,
                       first: Time, window: Time)
    requires first <= window && IsLatest(r, fires, window, inclusive, last, now)
    requires exists i: nat :: fires(i) == first && Eligible(first, start, inclusive, last, now)
    requires SomeEligible(fires, window, inclusive, last, now)
    ensures r.Some? && IsLatest(r, fires, start, inclusive, last, now)
  {
    forall i: nat | Eligible(fires(i), start, inclusive, last, now) ensures fires(i) <= r.value {
      if !AtOrAfter(fires(i), window, inclusive) {
        var k: nat :| fires(k) == r.value && Eligible(fires(k), window, inclusive, last, now);
      }
    }
    var k: nat :| fires(k) == r.value && Eligible(fires(k), window, inclusive, last, now);
    assert Eligible(fires(k), start, inclusive, last, now);
  }

  /** A window that opens less than a second after the first due fire and holds no
      other leaves that fire as the latest. */
  lemma OnlyFirst(fires: nat -> Time, start: Time, inclusive: bool, last: Option<Time>, now: Time,
                  first: Time, window: Time)
    requires WholeSeconds(fires)
    requires exists i: nat :: fires(i) == first && Eligible(fires(i), start, inclusive, last, now)
    requires forall i: nat :: Eligible(fires(i), start, inclusive, last, now) ==> first <= fires(i)
    requires window < first + SECOND || now < first + SECOND
    requires first <= window && !SomeEligible(fires, window, inclusive, last, now)
    ensures IsLatest(Some(first), fires, start, inclusive, last, now)
  {
    var f: nat :| fires(f) == first && Eligible(fires(f), start, inclusive, last, now);
    forall i: nat | first < fires(i) ensures !Eligible(fires(i), start, inclusive, last, now) {
      SecondsApart(fires, f, i);
      assert !Eligible(fires(i), window, inclusive, last, now);
    }
  }

  /** `latest_due_fire`: looks back from `now` through windows that double in
      length, and scans only the first that holds a fire. It finds what a scan of
      everything since `start` would. */
  method LatestDueFire(fires: nat -> Time, start: Time, inclusive: bool, last: Option<Time>, now: Time)
    returns (latest: Option<Time>)
    requires Increasing(fires) && WholeSeconds(fires)
    ensures IsLatest(latest, fires, start, inclusive, last, now)
  {
    var firstDue := FirstDueFire(fires, start, inclusive, last, now);
    if firstDue.None? { return None; }
    var first := firstDue.value;
    var total := Max((now - first) / SECOND, 1);
    var lookback := 1;
    while true
      invariant 1 <= lookback <= total
      decreases total - lookback
    {
      var window := Max(now - lookback * SECOND, first);
      var next := fires(FirstFrom(fires, window, inclusive));
      if next <= now && (last.None? || last.value < next) {
        assert SomeEligible(fires, window, inclusive, last, now);
        var found := ScanLatest(fires, window, inclusive, last, now);
        LatestOfWindow(found, fires, start, inclusive, last, now, first, window);
        return found;
      }
      NoneFromNext(fires, window, inclusive, last, now);
      if lookback >= total {
        OnlyFirst(fires, start, inclusive, last, now, first, window);
        return Some(first);
      }
      lookback := Min(lookback * 2, total);
    }
  }

  lemma NoneFromNext(fires: nat -> Time, window: Time, inclusive: bool, last: Option<Time>, now: Time)
    requires Increasing(fires)
    requires var next := fires(FirstFrom(fires, window, inclusive)); now < next || (last.Some? && next <= last.value)
    requires last.Some? ==> last.value < window
    ensures !SomeEligible(fires, window, inclusive, last, now)
  {
    var k := FirstFrom(fires, window, inclusive);
    forall i: nat ensures !Eligible(fires(i), window, inclusive, last, now) {
      if k < i { assert fires(k) < fires(i); }
    }
  }

  /** The fires to enqueue after `last`: the first of them and those that follow it
      up to `now`, in order, at most `limit`. */
  ghost predicate IsCatchUp(r: seq<Time>, fires: nat -> Time, last: Time, now: Time, limit: nat)
    requires Increasing(fires)
  {
    var k := FirstFrom(fires, last, false);
    && |r| <= limit
    && (forall i :: 0 <= i < |r| ==> r[i] == fires(k + i) && r[i] <= now)
    && (|r| < limit ==> now < fires(k + |r|))
  }

  /** The fires collected so far, up to the one at `i`. */
  ghost predicate Collected(r: seq<Time>, fires: nat -> Time, last: Time, now: Time, k: nat, i: nat) {
    && ((i == k + |r| && last < fires(i)) || (i + 1 == k && r == [] && fires(i) <= last))
    && (forall j :: 0 <= j < |r| ==> r[j] == fires(k + j) && r[j] <= now)
  }

  lemma CollectNext(r: seq<Time>, fires: nat -> Time, last: Time, now: Time, k: nat, i: nat)
    requires Increasing(fires) && last < fires(k) && Collected(r, fires, last, now, k, i) && fires(i) <= now
    ensures Collected(if last < fires(i) then r + [fires(i)] else r, fires, last, now, k, i + 1)
  {
    assert fires(i) < fires(i + 1);
  }

  /** The loop of the catch-up branch, from the fire at `first`. */
  method CollectFires(fires: nat -> Time, first: nat, last: Time, now: Time, limit: nat, ghost k: nat)
    returns (r: seq<Time>)
    requires Increasing(fires) && last < fires(k) && Collected([], fires, last, now, k, first)
    ensures |r| <= limit && forall j :: 0 <= j < |r| ==> r[j] == fires(k + j) && r[j] <= now
    ensures |r| < limit ==> now < fires(k + |r|)
  {
    r := [];
    var i := first;
    while fires(i) <= now && |r| < limit
      invariant |r| <= limit && Collected(r, fires, last, now, k, i)
      decreases limit - |r|, k + |r| - i
    {
      CollectNext(r, fires, last, now, k, i);
      if last < fires(i) {
        r := r + [fires(i)];
      }
      i := i + 1;
    }
    CollectEnds(r, fires, last, now, k, i);
  }

  lemma CollectEnds(r: seq<Time>, fires: nat -> Time, last: Time, now: Time, k: nat, i: nat)
    requires Increasing(fires) && Collected(r, fires, last, now, k, i)
    ensures now < fires(i) ==> now < fires(k + |r|)
  {
    assert i + 1 == k ==> fires(i) < fires(k);
  }

  /** The catch-up branch of `compute_fire_times`. */
  method CatchUpFires(fires: nat -> Time, inclusive: bool, last: Time, now: Time, limit: nat) returns (r: seq<Time>)
    requires Increasing(fires) && limit > 0
    ensures IsCatchUp(r, fires, last, now, limit)
  {
    FirstAfter(fires, last, inclusive);
    r := CollectFires(fires, FirstFrom(fires, last, inclusive), last, now, limit, FirstFrom(fires, last, false));
  }

  /** A search from `last` meets at most one fire that is not after it. */
  lemma FirstAfter(fires: nat -> Time, last: Time, inclusive: bool)
    requires Increasing(fires)
    ensures var i, k := FirstFrom(fires, last, inclusive), FirstFrom(fires, last, false);
            i == k || (i + 1 == k && fires(i) == last)
  {
    var i, k := FirstFrom(fires, last, inclusive), FirstFrom(fires, last, false);
    assert fires(i) < fires(i + 1);
    assert k < i ==> fires(k) < fires(i);
  }

  /** What a leader may enqueue: strictly increasing, after the row's last fire,
      not beyond the leader's clock. */
  ghost predicate DueSequence(r: seq<Time>, last: Option<Time>, now: Time) {
    && (forall i, j :: 0 <= i < j < |r| ==> r[i] < r[j])
    && (forall i :: 0 <= i < |r| ==> r[i] <= now && (last.Some? ==> last.value < r[i]))
  }

  /** What a pass over a row created at `createdAt` may set out to enqueue: whole-second
      fires due by `now`, and before the first fire of the row a single one, no earlier
      than the search start. */
  ghost predicate MayEnqueue(r: seq<Time>, createdAt: Time, last: Option<Time>, now: Time, inclusive: bool) {
    && DueSequence(r, last, now)
    && (forall i :: 0 <= i < |r| ==> r[i] % SECOND == 0)
    && (last.None? ==> |r| <= 1 && forall i :: 0 <= i < |r| ==> AtOrAfter(r[i], createdAt - MINUTE, inclusive))
  }

  /** `compute_fire_times` on a row whose expression parses: the latest due fire, or
      under catch-up, and once the schedule has fired, every missed one in order. */
  method ComputeFireTimes(fires: nat -> Time, inclusive: bool, createdAt: Time, last: Option<Time>, catchUp: bool,
                          now: Time, limit: nat)
    returns (r: seq<Time>)
    requires Increasing(fires) && WholeSeconds(fires) && limit > 0
    ensures MayEnqueue(r, createdAt, last, now, inclusive)
    ensures last.Some? && catchUp ==> IsCatchUp(r, fires, last.value, now, limit)
    ensures !(last.Some? && catchUp) ==>
              && |r| <= 1
              && IsLatest(if r == [] then None else Some(r[0]),
                          fires, last.GetOr(createdAt - MINUTE), inclusive, last, now)
  {
    if last.Some? && catchUp {
      r := CatchUpFires(fires, inclusive, last.value, now, limit);
      CatchUpIsDue(r, fires, last.value, now, limit);
    } else {
      var latest := LatestDueFire(fires, last.GetOr(createdAt - MINUTE), inclusive, last, now);
      r := if latest.Some? then [latest.value] else [];
    }
  }

  lemma CatchUpIsDue(r: seq<Time>, fires: nat -> Time, last: Time, now: Time, limit: nat)
    requires Increasing(fires) && WholeSeconds(fires) && IsCatchUp(r, fires, last, now, limit)
    ensures DueSequence(r, Some(last), now) && forall i :: 0 <= i < |r| ==> r[i] % SECOND == 0
  {
    var k := FirstFrom(fires, last, false);
    forall i, j | 0 <= i < j < |r| ensures r[i] < r[j] {
      assert fires(k + i) < fires(k + j);
    }
    forall i | 0 <= i < |r| ensures last < r[i] {
      assert i > 0 ==> fires(k) < fires(k + i);
    }
  }
}
