/** Job rows as batch operations see them: filters, mutations and ordered pages. */
module BatchJobs {
  import opened Prelude
  import opened Jobs
  import opened Ordering

  /** `originalPriority` and `originalQueue` are the metadata keys
      `_awa_original_priority` and `_awa_original_queue`. */
  datatype Job = Job(
    state: JobState,
    kind: string,
    queue: string,
    priority: int,
    tags: set<string>,
    createdAt: int,
    originalPriority: Option<int>,
    originalQueue: Option<string>)

  datatype Filter = Filter(
    kind: Option<string>,
    queue: Option<string>,
    ids: Option<set<JobId>>,
    tag: Option<string>,
    state: Option<JobState>,
    createdFrom: Option<int>,
    createdBefore: Option<int>)

  datatype Spec = SetPriority(priority: int) | MoveQueue(queue: string, newPriority: Option<int>)

  predicate Unfiltered(f: Filter) {
    f.kind.None? && f.queue.None? && (f.ids.None? || f.ids.value == {}) && f.tag.None? && f.state.None?
    && f.createdFrom.None? && f.createdBefore.None?
  }

  predicate ValidPriority(p: int) {
    1 <= p <= 4
  }

  /** `submit_batch_operation`'s checks. */
  predicate Acceptable(spec: Spec, f: Filter, allowAll: bool) {
    && (match spec
        case SetPriority(p) => ValidPriority(p)
        case MoveQueue(q, p) => q != "" && Utf8Length(q) <= 200 && (p.None? || ValidPriority(p.value)))
    && (f.state.None? || f.state.value.Scheduled? || f.state.value.Available?)
    && (!Unfiltered(f) || allowAll)
  }

  predicate Open(job: Job) {
    job.state.Available? || job.state.Scheduled?
  }

  predicate Matches(f: Filter, id: JobId, job: Job) {
    && Open(job)
    && (f.state.None? || job.state == f.state.value)
    && (f.kind.None? || job.kind == f.kind.value)
    && (f.queue.None? || job.queue == f.queue.value)
    && (f.tag.None? || f.tag.value in job.tags)
    && (f.ids.None? || id in f.ids.value)
    && (f.createdFrom.None? || f.createdFrom.value <= job.createdAt)
    && (f.createdBefore.None? || job.createdAt < f.createdBefore.value)
  }

  function Matching(f: Filter, jobs: map<JobId, Job>): set<JobId> {
    set id | id in jobs && Matches(f, id, jobs[id])
  }

  /** The job meets every condition the filter names. */
  predicate Meets(f: Filter, id: JobId, job: Job) {
    && (f.state.Some? ==> job.state == f.state.value)
    && (f.kind.Some? ==> job.kind == f.kind.value)
    && (f.queue.Some? ==> job.queue == f.queue.value)
    && (f.tag.Some? ==> f.tag.value in job.tags)
    && (f.ids.Some? ==> id in f.ids.value)
    && (f.createdFrom.Some? ==> f.createdFrom.value <= job.createdAt)
    && (f.createdBefore.Some? ==> job.createdAt < f.createdBefore.value)
  }

  /** What matches is what has not started and meets every named condition. */
  lemma MatchesIff(f: Filter, id: JobId, job: Job)
    ensures Matches(f, id, job) <==> (job.state.Available? || job.state.Scheduled?) && Meets(f, id, job)
  {
  }

  /** A filter that names a condition leaves out some open job. */
  lemma ConditionExcludes(f: Filter) returns (id: JobId, job: Job)
    requires !Unfiltered(f)
    ensures (job.state.Available? || job.state.Scheduled?) && !Matches(f, id, job)
  {
    id, job := 1, Job(Available, "", "", 1, {}, 0, None, None);
    if f.kind.Some? {
      job := job.(kind := f.kind.value + "x");
      assert |job.kind| != |f.kind.value|;
    } else if f.queue.Some? {
      job := job.(queue := f.queue.value + "x");
      assert |job.queue| != |f.queue.value|;
    } else if f.ids.Some? {
      id := if f.ids.value == {} then 1 else MaxOf(f.ids.value) + 1;
    } else if f.state.Some? {
      job := job.(state := if f.state.value.Available? then Scheduled else Available);
    } else if f.createdFrom.Some? {
      job := job.(createdAt := f.createdFrom.value - 1);
    } else if f.createdBefore.Some? {
      job := job.(createdAt := f.createdBefore.value);
    }
  }

  /** Without `allow_all`, an accepted operation leaves out some open job. */
  lemma AllowAllNeeded(spec: Spec, f: Filter, allowAll: bool)
    requires Acceptable(spec, f, allowAll) && !allowAll
    ensures exists id, job: Job :: (job.state.Available? || job.state.Scheduled?) && !Matches(f, id, job)
  {
    var id, job := ConditionExcludes(f);
  }

  /** An accepted filter is not void: unless it lists no id or an empty span of dates, some
      open job matches it. */
  lemma AcceptedCanMatch(spec: Spec, f: Filter, allowAll: bool) returns (id: JobId, job: Job)
    requires Acceptable(spec, f, allowAll)
    requires f.ids.Some? ==> f.ids.value != {}
    requires f.createdFrom.Some? && f.createdBefore.Some? ==> f.createdFrom.value < f.createdBefore.value
    ensures Matches(f, id, job)
  {
    id := if f.ids.Some? then MaxOf(f.ids.value) else 1;
    var createdAt := if f.createdBefore.Some? then f.createdBefore.value - 1 else f.createdFrom.GetOr(0);
    job := Job(f.state.GetOr(Available), f.kind.GetOr(""), f.queue.GetOr(""), 1,
               if f.tag.Some? then {f.tag.value} else {}, createdAt, None, None);
  }

  // ---- Mutations -----------------------------------------------------------------

  /** The row the mutation's `WHERE` selects. */
  predicate Selects(spec: Spec, job: Job) {
    Open(job) && match spec
                 case SetPriority(p) => job.priority != p
                 case MoveQueue(q, p) => job.queue != q || (p.Some? && job.priority != p.value)
  }

  /** `canonical_set_priority_tx` and `canonical_move_queue_tx` on a selected row. */
  function Mutated(spec: Spec, job: Job): Job {
    match spec
    case SetPriority(p) =>
      job.(priority := p, originalPriority := Some(job.originalPriority.GetOr(job.priority)))
    case MoveQueue(q, p) =>
      job.(queue := q, priority := p.GetOr(job.priority),
           originalPriority := if p.None? then job.originalPriority else Some(job.originalPriority.GetOr(job.priority)),
           originalQueue := Some(job.originalQueue.GetOr(job.queue)))
  }

  function Mutate(spec: Spec, job: Job): Job {
    if Selects(spec, job) then Mutated(spec, job) else job
  }

  /** A mutation reports a change exactly when the row differs afterwards, and then a
      second application would change nothing. */
  lemma MutateOnce(spec: Spec, job: Job)
    ensures Selects(spec, job) <==> Mutate(spec, job) != job
    ensures !Selects(spec, Mutate(spec, job))
  {
  }

  /** A mutation writes the priority, the queue and the two stamps, and nothing else: the
      priority and queue that were asked for, each kept where none was. A stamp is set once,
      to the value before. */
  lemma MutateMeans(spec: Spec, job: Job)
    ensures var m := Mutate(spec, job);
            && m == job.(priority := m.priority, queue := m.queue,
                         originalPriority := m.originalPriority, originalQueue := m.originalQueue)
            && (!job.state.Available? && !job.state.Scheduled? ==> m == job)
            && (job.state.Available? || job.state.Scheduled? ==>
                  && (spec.SetPriority? ==> m.priority == spec.priority && m.queue == job.queue)
                  && (spec.MoveQueue? ==> m.queue == spec.queue)
                  && (spec.MoveQueue? && spec.newPriority.Some? ==> m.priority == spec.newPriority.value)
                  && (spec.MoveQueue? && spec.newPriority.None? ==> m.priority == job.priority))
            && (m.originalPriority == job.originalPriority
                || (job.originalPriority.None? && m.originalPriority == Some(job.priority)))
            && (m.originalQueue == job.originalQueue
                || (job.originalQueue.None? && m.originalQueue == Some(job.queue)))
  {
  }

  /** Accepted operations keep priorities in range and queues named. */
  lemma MutateKeepsRange(spec: Spec, f: Filter, allowAll: bool, job: Job)
    requires Acceptable(spec, f, allowAll) && 1 <= job.priority <= 4 && 1 <= |job.queue| <= 200
    ensures var m := Mutate(spec, job); 1 <= m.priority <= 4 && 1 <= |m.queue| <= 200
  {
    if spec.MoveQueue? {
      BytesAtLeast(spec.queue);
    }
  }

  function MutateAll(specs: seq<Spec>, job: Job): Job {
    if specs == [] then job else MutateAll(specs[1..], Mutate(specs[0], job))
  }

  /** Where a job came from: its stamps where it has them, itself elsewhere. */
  function Origin(job: Job): (int, string) {
    (job.originalPriority.GetOr(job.priority), job.originalQueue.GetOr(job.queue))
  }

  /** First touch wins: however many operations touch a row, the stamps still give
      the priority and queue it had before the first of them. */
  lemma {:induction false} OriginKept(specs: seq<Spec>, job: Job)
    ensures Origin(MutateAll(specs, job)) == Origin(job)
  {
    if specs != [] {
      OriginKept(specs[1..], Mutate(specs[0], job));
    }
  }

  // ---- Ordered pages ---------------------------------------------------------------

  predicate Increasing(r: seq<int>) {
    forall i, j :: 0 <= i < j < |r| ==> r[i] < r[j]
  }

  /** The elements in increasing order. */
  function Ascending(s: set<int>): seq<int> {
    Sorted(s, false)
  }

  lemma AscendingLists(s: set<int>)
    ensures Lists(Ascending(s), s, false) && Increasing(Ascending(s))
  {
    SortedLists(s, false);
    assert forall i, j :: 0 <= i < j < |Ascending(s)| ==> Precedes(Ascending(s)[i], Ascending(s)[j], false);
  }

  function Window(ids: set<int>, after: int, max: int): set<int> {
    set x | x in ids && after < x <= max
  }

  /** `ORDER BY id LIMIT n` over ids in `(after, max]`. */
  function Page(ids: set<int>, after: int, max: int, limit: nat): (r: seq<int>)
    ensures |r| <= limit
  {
    var sorted := Ascending(Window(ids, after, max));
    sorted[..Min(limit, |sorted|)]
  }

  /** A page holds ids of its window in order, all of them if it is not full, and in
      any case all of them up to its last. */
  ghost predicate IsPage(r: seq<int>, window: set<int>, limit: nat) {
    && Increasing(r)
    && |r| == Min(limit, |window|)
    && (forall x :: x in r ==> x in window)
    && (|r| < limit ==> forall x :: x in window ==> x in r)
    && (r != [] ==> forall x :: x in window && x <= r[|r|-1] ==> x in r)
  }

  lemma PrefixIsPage(sorted: seq<int>, window: set<int>, limit: nat)
    requires Lists(sorted, window, false)
    ensures IsPage(sorted[..Min(limit, |sorted|)], window, limit)
  {
    var r := sorted[..Min(limit, |sorted|)];
    assert forall i, j :: 0 <= i < j < |sorted| ==> Precedes(sorted[i], sorted[j], false);
    forall x | x in window && r != [] && x <= r[|r|-1] ensures x in r {
      var i :| 0 <= i < |sorted| && sorted[i] == x;
      assert i < |r|;
    }
  }

  lemma PageIs(ids: set<int>, after: int, max: int, limit: nat)
    ensures IsPage(Page(ids, after, max, limit), Window(ids, after, max), limit)
  {
    AscendingLists(Window(ids, after, max));
    PrefixIsPage(Ascending(Window(ids, after, max)), Window(ids, after, max), limit);
  }
}
