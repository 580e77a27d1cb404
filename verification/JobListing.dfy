/** The over-fetching paged job listing against filter, sort and take. */
module JobListing {
  import opened Prelude
  import opened Jobs
  import opened Ordering

  datatype Job = Job(state: JobState, kind: string, queue: string, tags: seq<string>)

  datatype Filter = Filter(
    state: Option<JobState>,
    kind: Option<string>,
    queue: Option<string>,
    tag: Option<string>,
    beforeId: Option<JobId>,
    limit: Option<int>)

  /** What the candidate query checks; tags are only checked on the loaded job. */
  predicate Candidate(f: Filter, job: Job) {
    && (f.state.None? || job.state == f.state.value)
    && (f.kind.None? || job.kind == f.kind.value)
    && (f.queue.None? || job.queue == f.queue.value)
  }

  predicate Matches(f: Filter, job: Job) {
    Candidate(f, job) && (f.tag.None? || f.tag.value in job.tags)
  }

  predicate Below(id: JobId, cursor: Option<JobId>) {
    cursor.None? || id < cursor.value
  }

  function Limit(f: Filter): nat {
    Max(1, Min(f.limit.GetOr(100), 1000))
  }

  function CandidateLimit(f: Filter): nat {
    if f.tag.Some? then Min(Limit(f) * 10, 5000) else Min(Limit(f) * 3, 2000)
  }

  /** The jobs the caller asked for. */
  function Wanted(f: Filter, jobs: map<JobId, Job>): set<JobId> {
    set id | id in jobs && Matches(f, jobs[id]) && Below(id, f.beforeId)
  }

  function Candidates(f: Filter, jobs: map<JobId, Job>, cursor: Option<JobId>): set<JobId> {
    set id | id in jobs && Candidate(f, jobs[id]) && Below(id, cursor)
  }

  /** The job has the state, kind, queue and tag the caller names, and an id below theirs. */
  predicate AskedFor(f: Filter, id: JobId, job: Job) {
    && (f.state.Some? ==> job.state == f.state.value)
    && (f.kind.Some? ==> job.kind == f.kind.value)
    && (f.queue.Some? ==> job.queue == f.queue.value)
    && (f.tag.Some? ==> exists i :: 0 <= i < |job.tags| && job.tags[i] == f.tag.value)
    && (f.beforeId.Some? ==> id < f.beforeId.value)
  }

  lemma WantedIff(f: Filter, jobs: map<JobId, Job>, id: JobId)
    ensures id in Wanted(f, jobs) <==> id in jobs && AskedFor(f, id, jobs[id])
  {
  }

  /** The asked length, 100 without one, and from 1 to 1000 in any case. */
  lemma LimitIs(f: Filter)
    ensures 1 <= Limit(f) <= 1000
    ensures f.limit.None? ==> Limit(f) == 100
    ensures f.limit.Some? && 1 <= f.limit.value <= 1000 ==> Limit(f) == f.limit.value
    ensures f.limit.Some? && f.limit.value < 1 ==> Limit(f) == 1
    ensures f.limit.Some? && f.limit.value > 1000 ==> Limit(f) == 1000
  {
  }

  predicate Decreasing(s: seq<JobId>) {
    forall i, j :: 0 <= i < j < |s| ==> s[i] > s[j]
  }

  /** The first `limit` elements of `s` in descending order. */
  ghost predicate IsTop(r: seq<JobId>, s: set<JobId>, limit: nat) {
    && Decreasing(r)
    && |r| == Min(limit, |s|)
    && (forall x :: x in r ==> x in s)
    && (forall x, y :: x in r && y in s && y !in r ==> x > y)
  }

  // ---- The query ---------------------------------------------------------------------------

  lemma PrefixIsTop(sorted: seq<JobId>, s: set<JobId>, limit: nat)
    requires Lists(sorted, s, true)
    ensures IsTop(sorted[..Min(limit, |sorted|)], s, limit)
  {
    var r := sorted[..Min(limit, |sorted|)];
    assert forall i, j :: 0 <= i < j < |sorted| ==> Precedes(sorted[i], sorted[j], true);
    forall x, y | x in r && y in s && y !in r ensures x > y {
      var i :| 0 <= i < |r| && r[i] == x;
      var j :| 0 <= j < |sorted| && sorted[j] == y;
      assert j >= |r|;
    }
  }

  /** `ORDER BY job_id DESC LIMIT n`, with the two bounds the caller checks. */
  method Query(f: Filter, jobs: map<JobId, Job>, cursor: Option<JobId>, limit: nat) returns (ids: seq<JobId>)
    ensures IsTop(ids, Candidates(f, jobs, cursor), limit)
  {
    var sorted := Sorted(Candidates(f, jobs, cursor), true);
    SortedLists(Candidates(f, jobs, cursor), true);
    PrefixIsTop(sorted, Candidates(f, jobs, cursor), limit);
    ids := sorted[..Min(limit, |sorted|)];
  }

  // ---- The loop ------------------------------------------------------------------------------

  /** `found` are the wanted jobs down to `ids[i]`, or down to the cursor if `i` is 0. */
  ghost predicate FoundSoFar(found: seq<JobId>, wanted: set<JobId>, cursor: Option<JobId>, seen: seq<JobId>) {
    Decreasing(found) && forall x :: x in found <==> x in wanted && (!Below(x, cursor) || x in seen)
  }

  lemma FoundNext(found: seq<JobId>, wanted: set<JobId>, cursor: Option<JobId>, ids: seq<JobId>, i: nat)
    requires i < |ids| && Decreasing(ids) && (forall x :: x in ids ==> Below(x, cursor))
    requires FoundSoFar(found, wanted, cursor, ids[..i])
    ensures FoundSoFar(if ids[i] in wanted then found + [ids[i]] else found, wanted, cursor, ids[..i+1])
  {
    assert ids[..i+1] == ids[..i] + [ids[i]];
    forall x | x in found ensures ids[i] < x {
      if Below(x, cursor) {
        assert x in ids[..i];
      } else {
        assert ids[i] in ids;
      }
    }
    assert forall k :: 0 <= k < |found| ==> found[k] in found;
    assert ids[i] in ids;
  }

  /** A list of the wanted jobs above some point is a top list once it is long enough,
      or once nothing wanted is left. */
  lemma FoundIsTop(found: seq<JobId>, wanted: set<JobId>, cursor: Option<JobId>, seen: seq<JobId>, limit: nat)
    requires FoundSoFar(found, wanted, cursor, seen) && |found| <= limit
    requires forall x, y :: x in found && y in wanted && y !in found ==> x > y
    requires |found| == limit || forall x :: x in wanted ==> x in found
    ensures IsTop(found, wanted, limit)
  {
    var members := set x | x in found;
    Distinct(found);
    assert members <= wanted;
    Subset(members, wanted);
    if |found| < limit {
      assert forall x :: x in wanted ==> x in members;
      assert members == wanted;
    }
  }

  lemma {:induction false} Distinct(s: seq<JobId>)
    requires Decreasing(s)
    ensures |set x | x in s| == |s|
  {
    if s != [] {
      var rest := s[..|s|-1];
      Distinct(rest);
      assert (set x | x in s) == (set x | x in rest) + {s[|s|-1]};
    }
  }

  lemma Subset(a: set<JobId>, b: set<JobId>)
    requires a <= b
    ensures |a| <= |b|
  {
    assert b == a + (b - a);
  }

  /** What is still to be found lies below all that was found. */
  lemma RestBelow(f: Filter, jobs: map<JobId, Job>, cursor: Option<JobId>, ids: seq<JobId>,
                  seen: nat, found: seq<JobId>)
    requires IsTop(ids, Candidates(f, jobs, cursor), CandidateLimit(f)) && seen <= |ids|
    requires FoundSoFar(found, Wanted(f, jobs), cursor, ids[..seen])
    ensures forall x, y :: x in found && y in Wanted(f, jobs) && y !in found ==> x > y
  {
    forall x, y | x in found && y in Wanted(f, jobs) && y !in found ensures x > y {
      assert Below(y, cursor) && y in Candidates(f, jobs, cursor);
      if Below(x, cursor) {
        var i :| 0 <= i < seen && ids[i] == x;
        if y in ids {
          var j :| 0 <= j < |ids| && ids[j] == y;
          assert ids[..seen][if j < seen then j else 0] == if j < seen then y else ids[0];
        } else {
          assert x in ids;
        }
      }
    }
  }

  /** A short page holds every candidate, so nothing wanted is left. */
  lemma ShortPage(f: Filter, jobs: map<JobId, Job>, cursor: Option<JobId>, ids: seq<JobId>, found: seq<JobId>)
    requires IsTop(ids, Candidates(f, jobs, cursor), CandidateLimit(f)) && |ids| < CandidateLimit(f)
    requires FoundSoFar(found, Wanted(f, jobs), cursor, ids)
    ensures forall x :: x in Wanted(f, jobs) ==> x in found
  {
    var members := set x | x in ids;
    var all := Candidates(f, jobs, cursor);
    Distinct(ids);
    SameSize(members, all);
    forall x | x in Wanted(f, jobs) ensures x in found {
      assert Below(x, cursor) ==> x in all;
    }
  }

  lemma SameSize(a: set<JobId>, b: set<JobId>)
    requires a <= b && |a| == |b|
    ensures a == b
  {
    assert b == a + (b - a);
    assert |b - a| == 0;
  }

  /** The inner loop: reload and filter one page, stopping at the limit. */
  method FilterPage(f: Filter, jobs: map<JobId, Job>, ids: seq<JobId>, cursor: Option<JobId>, before: seq<JobId>)
    returns (found: seq<JobId>, seen: nat)
    requires IsTop(ids, Candidates(f, jobs, cursor), CandidateLimit(f))
    requires FoundSoFar(before, Wanted(f, jobs), cursor, []) && |before| < Limit(f)
    requires cursor.Some? || f.beforeId.None?
    requires f.beforeId.Some? ==> cursor.value <= f.beforeId.value
    ensures seen <= |ids| && FoundSoFar(found, Wanted(f, jobs), cursor, ids[..seen]) && |found| <= Limit(f)
    ensures |found| < Limit(f) ==> seen == |ids|
  {
    found, seen := before, 0;
    assert ids[..0] == [];
    while seen < |ids| && |found| < Limit(f)
      invariant seen <= |ids| && |found| <= Limit(f)
      invariant FoundSoFar(found, Wanted(f, jobs), cursor, ids[..seen])
    {
      var id := ids[seen];
      assert id in ids && id in Candidates(f, jobs, cursor);
      FoundNext(found, Wanted(f, jobs), cursor, ids, seen);
      if id in jobs && Matches(f, jobs[id]) {
        found := found + [id];
      }
      seen := seen + 1;
    }
  }

  /** Once a page is used up, its last id is the new cursor. */
  lemma Advance(f: Filter, jobs: map<JobId, Job>, cursor: Option<JobId>, ids: seq<JobId>, found: seq<JobId>)
    requires ids != [] && IsTop(ids, Candidates(f, jobs, cursor), CandidateLimit(f))
    requires FoundSoFar(found, Wanted(f, jobs), cursor, ids)
    ensures Below(ids[|ids|-1], cursor)
    ensures |Candidates(f, jobs, Some(ids[|ids|-1]))| < |Candidates(f, jobs, cursor)|
    ensures FoundSoFar(found, Wanted(f, jobs), Some(ids[|ids|-1]), [])
  {
    var last := ids[|ids|-1];
    assert last in ids && last in Candidates(f, jobs, cursor);
    Subset(Candidates(f, jobs, Some(last)) + {last}, Candidates(f, jobs, cursor));
    forall x | x in Wanted(f, jobs) ensures last <= x <==> !Below(x, cursor) || x in ids {
      if last <= x && Below(x, cursor) {
        assert x in Candidates(f, jobs, cursor);
      }
    }
  }

  /** `list_queue_storage_jobs` over a table that does not change: exactly the first
      `limit` matching jobs below `before_id`, in descending order. */
  method ListJobs(f: Filter, jobs: map<JobId, Job>) returns (r: seq<JobId>)
    ensures IsTop(r, Wanted(f, jobs), Limit(f)) && |r| <= 1000
    ensures forall id :: id in r ==> id in jobs && AskedFor(f, id, jobs[id])
    ensures forall id :: id in jobs && AskedFor(f, id, jobs[id]) && id !in r ==>
              |r| == Limit(f) && forall x :: x in r ==> x > id
  {
    ghost var wanted := Wanted(f, jobs);
    var cursor := f.beforeId;
    r := [];
    while true
      invariant |r| < Limit(f) && FoundSoFar(r, wanted, cursor, [])
      invariant cursor.Some? || f.beforeId.None?
      invariant f.beforeId.Some? ==> cursor.value <= f.beforeId.value
      decreases |Candidates(f, jobs, cursor)|
    {
      var ids := Query(f, jobs, cursor, CandidateLimit(f));
      if ids == [] {
        ShortPage(f, jobs, cursor, ids, r);
        FoundIsTop(r, wanted, cursor, ids, Limit(f));
        break;
      }
      var seen;
      r, seen := FilterPage(f, jobs, ids, cursor, r);
      assert seen == |ids| ==> ids[..seen] == ids;
      if |r| >= Limit(f) || |ids| < CandidateLimit(f) {
        RestBelow(f, jobs, cursor, ids, seen, r);
        if |r| < Limit(f) {
          ShortPage(f, jobs, cursor, ids, r);
        }
        FoundIsTop(r, wanted, cursor, ids[..seen], Limit(f));
        break;
      }
      Advance(f, jobs, cursor, ids, r);
      cursor := Some(ids[|ids|-1]);
    }
    SortedAlready(r);
    r := SortDescending(r);
    LimitIs(f);
    TopOfAsked(f, jobs, r);
  }

  lemma TopOfAsked(f: Filter, jobs: map<JobId, Job>, r: seq<JobId>)
    requires IsTop(r, Wanted(f, jobs), Limit(f))
    ensures forall id :: id in r ==> id in jobs && AskedFor(f, id, jobs[id])
    ensures forall id :: id in jobs && AskedFor(f, id, jobs[id]) && id !in r ==>
              |r| == Limit(f) && forall x :: x in r ==> x > id
  {
    forall id | id in r ensures id in jobs && AskedFor(f, id, jobs[id]) {
      WantedIff(f, jobs, id);
    }
    forall id | id in jobs && AskedFor(f, id, jobs[id]) && id !in r
      ensures |r| == Limit(f) && forall x :: x in r ==> x > id
    {
      WantedIff(f, jobs, id);
      var members := set x | x in r;
      Distinct(r);
      Subset(members + {id}, Wanted(f, jobs));
    }
  }

  // ---- The final sort --------------------------------------------------------------------------

  function InsertDescending(x: JobId, s: seq<JobId>): seq<JobId> {
    if s == [] || x >= s[0] then [x] + s else [s[0]] + InsertDescending(x, s[1..])
  }

  function SortDescending(s: seq<JobId>): seq<JobId> {
    if s == [] then [] else InsertDescending(s[0], SortDescending(s[1..]))
  }

  /** The pages already come in descending order, so the final sort changes nothing. */
  lemma {:induction false} SortedAlready(s: seq<JobId>)
    requires Decreasing(s)
    ensures SortDescending(s) == s
  {
    if s != [] {
      SortedAlready(s[1..]);
      assert s == [s[0]] + s[1..];
    }
  }

  lemma {:induction false} DecreasingUnique(r: seq<JobId>, q: seq<JobId>)
    requires Decreasing(r) && Decreasing(q) && |r| == |q| && forall x :: x in r <==> x in q
    ensures r == q
  {
    if r != [] {
      assert r[0] in q && q[0] in r;
      forall x ensures x in r[1..] <==> x in q[1..] {
        assert r == [r[0]] + r[1..] && q == [q[0]] + q[1..];
        assert x in r[1..] <==> x in r && x != r[0];
        assert x in q[1..] <==> x in q && x != q[0];
      }
      DecreasingUnique(r[1..], q[1..]);
      assert r == [r[0]] + r[1..] && q == [q[0]] + q[1..];
    }
  }

  lemma TopMember(r: seq<JobId>, q: seq<JobId>, s: set<JobId>, limit: nat, x: JobId)
    requires IsTop(r, s, limit) && IsTop(q, s, limit) && x in r
    ensures x in q
  {
    var members := set y | y in r;
    var others := set y | y in q;
    Distinct(r);
    Distinct(q);
    assert x in members;
    if others <= members {
      SameSize(others, members);
    }
  }

  /** A top list is determined by its set. */
  lemma TopUnique(r: seq<JobId>, q: seq<JobId>, s: set<JobId>, limit: nat)
    requires IsTop(r, s, limit) && IsTop(q, s, limit)
    ensures r == q
  {
    forall x ensures x in r <==> x in q {
      if x in r {
        TopMember(r, q, s, limit, x);
      }
      if x in q {
        TopMember(q, r, s, limit, x);
      }
    }
    DecreasingUnique(r, q);
  }
}
