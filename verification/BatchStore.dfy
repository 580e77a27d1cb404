/** The runner as it is written: loops over transactions, with other sessions
    committing in between. Everything it does is a run of the machine in
    `BatchRunner`, so every theorem about runs is about this code. */
module BatchStore {
  import opened Prelude
  import opened Jobs
  import opened BatchJobs
  import opened BatchRunner

  /** What happens to an item's transactions: they commit; the job update fails and
      its error is recorded; that record fails too; or nothing of it commits. */
  datatype Fate = Commits | Fails | FailsTwice | Vanishes

  datatype Outcome = Outcome(claimed: bool, finalized: bool, processed: nat, skipped: nat, errored: nat)

  const NothingDone := Outcome(false, false, 0, 0, 0)

  /** The same place in the runner's code; other sessions can only have made jobs stop
      matching. */
  predicate SamePlace(p: Phase, q: Phase) {
    p == q
    || (Scans(p) && !p.Bounding? && Scans(q) && !q.Bounding?
        && p == q.(scan := q.scan.(steady := p.scan.steady)))
  }

  predicate ByOthers(s: Step) {
    s.Submit? || s.Cancel? || s.Environment?
  }

  lemma OthersKeep(w: World, s: Step, o: OpId)
    requires ByOthers(s) && o in w.ops
    ensures SamePlace(w.phase, Next(w, s).phase)
    ensures o in Next(w, s).ops && Next(w, s).ops[o].applied == w.ops[o].applied
  {
  }

  /** In the scan loop of operation `o` with these local variables. */
  predicate AtScan(p: Phase, o: OpId, after: JobId, max: JobId, total: nat) {
    Scans(p) && !p.Bounding? && p.op == o && p.scan.after == after && p.scan.max == max && p.scan.total == total
  }

  lemma NonePending(items: map<JobId, ItemState>)
    ensures InState(items, Untouched) == {} <==> forall j :: j in items ==> !items[j].Untouched?
  {
    if j :| j in items && items[j].Untouched? {
      assert j in InState(items, Untouched);
    } else {
      assert forall j :: j !in InState(items, Untouched);
    }
  }

  lemma MaxMatchingIs(f: Filter, jobs: map<JobId, Job>)
    ensures var max := MaxMatching(Matching(f, jobs));
            && (forall j :: j in jobs && Matches(f, j, jobs[j]) ==> j <= max)
            && (max == 0 || (max in jobs && Matches(f, max, jobs[max])))
  {
    var ids := Matching(f, jobs);
    forall j | j in jobs && Matches(f, j, jobs[j]) ensures j <= MaxMatching(ids) {
      assert j in ids;
    }
  }

  /** The unfinished operations not locked by another session. */
  function Unlocked(ops: map<OpId, Operation>, locked: set<OpId>): set<OpId> {
    set o | o in ops && o !in locked && Claimable(ops[o].state)
  }

  method Oldest(ops: map<OpId, Operation>, open: set<OpId>) returns (o: OpId)
    requires open != {} && open <= ops.Keys
    ensures o in open && forall q :: q in open ==> ops[o].submittedAt <= ops[q].submittedAt
  {
    ghost var some := Pick(open);
    var times := set q | q in open :: ops[q].submittedAt;
    assert ops[some].submittedAt in times;
    var first := MinOf(times);
    o :| o in open && ops[o].submittedAt == first;
    assert forall q :: q in open ==> ops[q].submittedAt in times;
  }

  class Store {
    var ops: map<OpId, Operation>
    var jobs: map<JobId, Job>
    /** What other sessions are about to commit, in order. */
    var others: seq<Step>
    ghost var phase: Phase
    ghost var trace: seq<Step>

    ghost function State(): World
      reads this
    {
      World(ops, jobs, phase)
    }

    /** The store's past is a run of the machine. */
    ghost predicate Valid()
      reads this
    {
      && State() == RunFrom(Start, trace)
      && (forall i :: 0 <= i < |others| ==> ByOthers(others[i]))
    }

    constructor (others: seq<Step>)
      requires forall i :: 0 <= i < |others| ==> ByOthers(others[i])
      ensures Valid() && phase.Idle? && ops == map[] && this.others == others
    {
      ops, jobs, phase, trace := map[], map[], Idle, [];
      this.others := others;
    }

    /** So the machine's invariant holds of it. */
    lemma Known()
      requires Valid()
      ensures Inv(State())
    {
      RunInv(trace);
    }

    lemma Held()
      requires Valid() && !phase.Idle?
      ensures phase.op in ops
    {
      Known();
    }

    /** Notes the step that the preceding statements amount to. */
    ghost method Note(s: Step, before: World)
      requires before == RunFrom(Start, trace)
      requires Next(before, s).ops == ops && Next(before, s).jobs == jobs
      requires forall i :: 0 <= i < |others| ==> ByOthers(others[i])
      modifies `phase, `trace
      ensures Valid() && State() == Next(before, s) && trace == old(trace) + [s]
    {
      phase := Next(before, s).phase;
      assert (trace + [s])[..|trace + [s]| - 1] == trace;
      trace := trace + [s];
    }

    /** One transaction of another session. */
    method CommitOther()
      requires Valid() && others != []
      modifies this
      ensures Valid() && old(trace) <= trace
      ensures State() == Next(old(State()), old(others)[0]) && others == old(others)[1..]
      ensures var s := old(others)[0];
              s.Cancel? && s.id in old(ops) && !Terminal(old(ops)[s.id].state) ==>
                s.id in ops && ops[s.id].state.Cancelling?
    {
      ghost var before := State();
      var s := others[0];
      match s {
        case Submit(o, spec, filter, allowAll, at) =>
          if o !in ops && Acceptable(spec, filter, allowAll) {
            ops := ops[o := NewOperation(spec, filter, at)];
          }
        case Cancel(o) =>
          if o in ops && (ops[o].state.Pending? || ops[o].state.Scanning? || ops[o].state.Running?) {
            ops := ops[o := ops[o].(state := Cancelling, disturbed := true)];
          }
        case Environment(rows) =>
          if forall j :: j in rows ==> 0 < j {
            jobs := rows;
          }
      }
      others := others[1..];
      Note(s, before);
    }

    /** Between two transactions of a run of `o`, others commit any number of theirs. */
    method Yield(ghost o: OpId)
      requires Valid() && o in ops
      modifies this
      ensures Valid() && old(trace) <= trace && SamePlace(old(phase), phase)
      ensures o in ops && ops[o].applied == old(ops)[o].applied
    {
      var count: nat :| count <= |others|;
      for i := 0 to count
        invariant Valid() && old(trace) <= trace && SamePlace(old(phase), phase) && |others| >= count - i
        invariant o in ops && ops[o].applied == old(ops)[o].applied
      {
        OthersKeep(State(), others[0], o);
        CommitOther();
      }
    }

    // ---- The scan -----------------------------------------------------------------------

    /** `max_matching_job_id` */
    method ReadMax(o: OpId) returns (max: JobId)
      requires Valid() && phase == Bounding(o)
      modifies this
      ensures Valid() && trace == old(trace) + [ReadBound] && ops == old(ops)
      ensures phase.Counting? && AtScan(phase, o, 0, max, 0) && o in ops
      ensures forall j :: j in jobs && Matches(ops[o].filter, j, jobs[j]) ==> j <= max
      ensures max == 0 || (max in jobs && Matches(ops[o].filter, max, jobs[max]))
    {
      Held();
      max := MaxMatching(Matching(ops[o].filter, jobs));
      MaxMatchingIs(ops[o].filter, jobs);
      Note(ReadBound, State());
    }

    /** `count_matching_jobs` */
    method CountMatching(o: OpId, max: JobId) returns (total: nat)
      requires Valid() && phase.Counting? && AtScan(phase, o, 0, max, 0)
      modifies this
      ensures Valid() && trace == old(trace) + [ReadCount] && ops == old(ops)
      ensures phase.Paging? && AtScan(phase, o, 0, max, total)
    {
      Held();
      total := if max == 0 then 0 else |Window(Matching(ops[o].filter, jobs), 0, max)|;
      Note(ReadCount, State());
    }

    /** `load_matching_job_ids` */
    method LoadIds(o: OpId, after: JobId, max: JobId, total: nat, pageSize: int) returns (ids: seq<JobId>)
      requires Valid() && phase.Paging? && AtScan(phase, o, after, max, total) && after < max
      modifies this
      ensures Valid() && trace == old(trace) + [LoadPage(pageSize)] && ops == old(ops)
      ensures if ids == [] then phase.Starting? && AtScan(phase, o, after, max, total)
              else phase.Inserting? && phase.page == ids && after < ids[|ids|-1] <= max
                   && AtScan(phase, o, ids[|ids|-1], max, total)
    {
      Known();
      LoadPageInv(State(), pageSize);
      ids := Page(Matching(ops[o].filter, jobs), after, max, Max(1, pageSize));
      Note(LoadPage(pageSize), State());
    }

    /** `insert_operation_items` */
    method InsertIds(o: OpId, ids: seq<JobId>, ghost after: JobId, ghost max: JobId, ghost total: nat)
      requires Valid() && phase.Inserting? && AtScan(phase, o, after, max, total) && phase.page == ids
      modifies this
      ensures Valid() && trace == old(trace) + [InsertPage]
      ensures o in ops && ops == old(ops)[o := InsertItems(old(ops)[o], ids)]
      ensures phase.Checking? && AtScan(phase, o, after, max, total)
    {
      Held();
      ghost var before := State();
      ops := ops[o := InsertItems(ops[o], ids)];
      Note(InsertPage, before);
    }

    method Cancelled(o: OpId, ghost after: JobId, ghost max: JobId, ghost total: nat) returns (yes: bool)
      requires Valid() && phase.Checking? && AtScan(phase, o, after, max, total)
      modifies this
      ensures Valid() && trace == old(trace) + [CheckState] && ops == old(ops) && o in ops
      ensures yes <==> ops[o].state.Cancelling?
      ensures if yes then phase.Idle? && ops[o].state.Cancelling?
              else phase.Paging? && AtScan(phase, o, after, max, total)
    {
      Held();
      yes := ops[o].state.Cancelling?;
      Note(CheckState, State());
    }

    method StartRunning(o: OpId, total: nat) returns (running: bool)
      requires Valid() && phase.Starting? && phase.op == o && phase.scan.total == total
      modifies this
      ensures Valid() && trace == old(trace) + [FinishScan]
      ensures o in old(ops) && o in ops && ops[o].applied == old(ops)[o].applied
      ensures running <==> old(ops)[o].state.Scanning?
      ensures running ==> ops[o].state.Running? && ops[o].totalMatched == Some(total)
      ensures if running then phase == Selecting(o) else phase.Idle? && ops[o].state.Cancelling?
    {
      Known();
      ghost var before := State();
      running := ops[o].state.Scanning?;
      if running {
        ops := ops[o := ops[o].(state := OpState.Running, totalMatched := Some(total))];
      }
      Note(FinishScan, before);
    }

    /** The state check after each page of `scan_operation`. */
    method InsertAndCheck(o: OpId, ids: seq<JobId>, ghost after: JobId, ghost max: JobId, ghost total: nat)
      returns (cancelled: bool)
      requires Valid() && phase.Inserting? && AtScan(phase, o, after, max, total) && phase.page == ids
      modifies this
      ensures Valid() && old(trace) <= trace && o in old(ops) && o in ops && ops[o].applied == old(ops)[o].applied
      ensures if cancelled then phase.Idle? && ops[o].state.Cancelling?
              else phase.Paging? && AtScan(phase, o, after, max, total)
    {
      Held();
      Yield(o);
      InsertIds(o, ids, after, max, total);
      Yield(o);
      cancelled := Cancelled(o, after, max, total);
    }

    /** The page loop of `scan_operation`. */
    method ScanPages(o: OpId, max: JobId, total: nat, pageSize: int) returns (cancelled: bool)
      requires Valid() && phase.Paging? && AtScan(phase, o, 0, max, total)
      modifies this
      ensures Valid() && old(trace) <= trace && o in old(ops) && o in ops && ops[o].applied == old(ops)[o].applied
      ensures if cancelled then phase.Idle? && ops[o].state.Cancelling?
              else phase.Starting? && phase.op == o && phase.scan.total == total
    {
      Held();
      var after := 0;
      while after < max
        invariant Valid() && old(trace) <= trace && o in ops && ops[o].applied == old(ops)[o].applied
        invariant phase.Paging? && AtScan(phase, o, after, max, total)
        decreases max - after
      {
        Yield(o);
        var ids := LoadIds(o, after, max, total, pageSize);
        if ids == [] {
          return false;
        }
        after := ids[|ids|-1];
        cancelled := InsertAndCheck(o, ids, after, max, total);
        if cancelled {
          return;
        }
      }
      cancelled := false;
      Note(LoadPage(pageSize), State());
    }

    /** The bound and the count, read one after the other. */
    method BeginScan(o: OpId) returns (max: JobId, total: nat)
      requires Valid() && phase == Bounding(o)
      modifies this
      ensures Valid() && old(trace) <= trace && o in old(ops) && o in ops && ops[o].applied == old(ops)[o].applied
      ensures phase.Paging? && AtScan(phase, o, 0, max, total)
    {
      Held();
      max := ReadMax(o);
      Yield(o);
      total := CountMatching(o, max);
    }

    /** `scan_operation`: whether the operation is now running. */
    method ScanOperation(o: OpId, pageSize: int) returns (running: bool)
      requires Valid() && phase == Bounding(o)
      modifies this
      ensures Valid() && old(trace) <= trace && o in old(ops) && o in ops && ops[o].applied == old(ops)[o].applied
      ensures if running then phase == Selecting(o) else phase.Idle? && ops[o].state.Cancelling?
    {
      Held();
      var max, total := BeginScan(o);
      var cancelled := ScanPages(o, max, total, pageSize);
      if cancelled {
        return false;
      }
      Yield(o);
      running := StartRunning(o, total);
    }

    // ---- The chunk ----------------------------------------------------------------------

    /** `claim_next_operation`: the oldest unfinished operation whose row no other session
        has locked. */
    method ClaimNext(locked: set<OpId>) returns (r: Option<OpId>)
      requires Valid() && phase.Idle?
      modifies this
      ensures Valid() && trace == old(trace) + if r.Some? then [Claim(r.value)] else []
      ensures r.None? ==> State() == old(State()) && Unlocked(ops, locked) == {}
      ensures r.Some? ==>
                && r.value in Unlocked(old(ops), locked)
                && (forall o :: o in Unlocked(old(ops), locked) ==>
                      old(ops)[r.value].submittedAt <= old(ops)[o].submittedAt)
                && State() == Next(old(State()), Claim(r.value))
    {
      var open := Unlocked(ops, locked);
      if open == {} {
        return None;
      }
      ghost var before := State();
      var o := Oldest(ops, open);
      var st := if ops[o].state.Pending? then Scanning else ops[o].state;
      ops := ops[o := ops[o].(state := st, claims := ops[o].claims + 1)];
      Note(Claim(o), before);
      r := Some(o);
    }

    /** `claim_pending_items` */
    method SelectIds(o: OpId, limit: int) returns (ids: seq<JobId>)
      requires Valid() && phase == Selecting(o)
      modifies this
      ensures Valid() && trace == old(trace) + [Select(limit)] && ops == old(ops)
      ensures o in ops && IsPage(ids, InState(ops[o].items, Untouched), Max(1, limit))
      ensures phase == if ids == [] then Finalizing(o, OpState.Completed) else Applying(o, ids)
    {
      Held();
      ids := Chunk(ops[o], limit);
      ChunkIs(ops[o], limit);
      Note(Select(limit), State());
    }

    /** `apply_item` when its transaction commits. */
    method CommitItem(o: OpId, ghost ids: seq<JobId>, j: JobId) returns (outcome: ItemState)
      requires Valid() && phase == Applying(o, ids) && ids != [] && ids[0] == j
      modifies this
      ensures Valid() && trace == old(trace) + [Apply] && phase == Applying(o, ids[1..]) && !outcome.Untouched?
      ensures o in old(ops) && o in ops
      ensures |ops[o].applied| == |old(ops)[o].applied| + if outcome.Done? then 1 else 0
    {
      Held();
      ghost var before := State();
      if j in jobs && Selects(ops[o].spec, jobs[j]) {
        ops, jobs := ops[o := Record(ops[o], j, Done).(applied := ops[o].applied + [j])],
                     jobs[j := Mutated(ops[o].spec, jobs[j])];
        outcome := Done;
      } else {
        ops := ops[o := Record(ops[o], j, Passed)];
        outcome := Passed;
      }
      Note(Apply, before);
    }

    /** `apply_item` when the whole of it fails; the item stays pending. */
    method LoseItem(o: OpId, ghost ids: seq<JobId>)
      requires Valid() && phase == Applying(o, ids) && ids != []
      modifies this
      ensures Valid() && trace == old(trace) + [ApplyLost] && phase == Applying(o, ids[1..])
      ensures o in old(ops) && o in ops && ops[o].applied == old(ops)[o].applied
    {
      Held();
      ghost var before := State();
      ops := ops[o := ops[o].(disturbed := true)];
      Note(ApplyLost, before);
    }

    method RollBack(o: OpId, ghost ids: seq<JobId>)
      requires Valid() && phase == Applying(o, ids) && ids != []
      modifies this
      ensures Valid() && trace == old(trace) + [ApplyFails] && ops == old(ops) && phase == Recording(o, ids) && o in ops
    {
      Held();
      Note(ApplyFails, State());
    }

    /** The transaction that records a failed job update. */
    method RecordFailure(o: OpId, ghost ids: seq<JobId>, j: JobId, commits: bool)
      requires Valid() && phase == Recording(o, ids) && ids != [] && ids[0] == j
      modifies this
      ensures Valid() && trace == old(trace) + [if commits then RecordError else RecordLost]
      ensures phase == Applying(o, ids[1..])
      ensures o in old(ops) && o in ops && ops[o].applied == old(ops)[o].applied
    {
      Held();
      ghost var before := State();
      ops := ops[o := if commits then Record(ops[o], j, Broken) else ops[o].(disturbed := true)];
      Note(if commits then RecordError else RecordLost, before);
    }

    /** `apply_item`: whether it processed, skipped or failed. Only a processed item
        adds to the committed mutations. */
    method ApplyOne(o: OpId, ghost ids: seq<JobId>, j: JobId, fate: Fate) returns (outcome: ItemState)
      requires Valid() && phase == Applying(o, ids) && ids != [] && ids[0] == j
      modifies this
      ensures Valid() && old(trace) <= trace && phase == Applying(o, ids[1..]) && !outcome.Untouched?
      ensures o in old(ops) && o in ops
      ensures |ops[o].applied| == |old(ops)[o].applied| + if outcome.Done? then 1 else 0
    {
      Held();
      match fate
      case Commits =>
        outcome := CommitItem(o, ids, j);
      case Vanishes =>
        LoseItem(o, ids);
        outcome := Broken;
      case _ =>
        RollBack(o, ids);
        Yield(o);
        RecordFailure(o, ids, j, fate.Fails?);
        outcome := Broken;
    }

    /** The loop over a chunk. */
    method ApplyChunk(o: OpId, ids: seq<JobId>, fates: JobId -> Fate)
      returns (processed: nat, skipped: nat, errored: nat)
      requires Valid() && phase == Applying(o, ids)
      modifies this
      ensures Valid() && old(trace) <= trace && phase == Applying(o, []) && o in old(ops) && o in ops
      ensures processed + skipped + errored == |ids|
      ensures |ops[o].applied| == |old(ops)[o].applied| + processed
    {
      Held();
      processed, skipped, errored := 0, 0, 0;
      for i := 0 to |ids|
        invariant Valid() && old(trace) <= trace && phase == Applying(o, ids[i..]) && o in ops
        invariant processed + skipped + errored == i
        invariant |ops[o].applied| == |old(ops)[o].applied| + processed
      {
        Yield(o);
        var outcome := ApplyOne(o, ids[i..], ids[i], fates(ids[i]));
        match outcome
        case Done => processed := processed + 1;
        case Passed => skipped := skipped + 1;
        case Broken => errored := errored + 1;
      }
    }

    method CountPending(o: OpId) returns (none: bool)
      requires Valid() && phase == Applying(o, [])
      modifies this
      ensures Valid() && trace == old(trace) + [Tally] && ops == old(ops) && phase == Deciding(o, none)
      ensures o in ops && (none <==> forall j :: j in ops[o].items ==> !ops[o].items[j].Untouched?)
    {
      Held();
      none := InState(ops[o].items, Untouched) == {};
      NonePending(ops[o].items);
      Note(Tally, State());
    }

    method ReadState(o: OpId, none: bool) returns (cancelling: bool)
      requires Valid() && phase == Deciding(o, none)
      modifies this
      ensures Valid() && trace == old(trace) + [Decide] && ops == old(ops) && o in ops
      ensures cancelling <==> ops[o].state.Cancelling?
      ensures phase == if !none then Idle else if cancelling then Skipping(o) else Finalizing(o, OpState.Completed)
      ensures !none ==> ops[o].state.Running? || ops[o].state.Cancelling?
    {
      Known();
      cancelling := ops[o].state.Cancelling?;
      Note(Decide, State());
    }

    /** `skip_pending_items` */
    method SkipPendingItems(o: OpId)
      requires Valid() && phase == Skipping(o)
      modifies this
      ensures Valid() && trace == old(trace) + [SkipAll]
      ensures o in old(ops) && o in ops && ops[o].applied == old(ops)[o].applied
      ensures phase == Finalizing(o, OpState.Cancelled)
    {
      Held();
      ghost var before := State();
      ops := ops[o := SkipPending(ops[o])];
      Note(SkipAll, before);
    }

    /** `finalize_operation` */
    method FinalizeOperation(o: OpId, last: OpState)
      requires Valid() && phase == Finalizing(o, last)
      modifies this
      ensures Valid() && trace == old(trace) + [Finalize] && phase.Idle? && o in old(ops) && o in ops
      ensures ops[o] == old(ops)[o].(state := last) && Terminal(last)
    {
      Known();
      ghost var before := State();
      ops := ops[o := ops[o].(state := last)];
      Note(Finalize, before);
    }

    /** The end of a run that found nothing pending, or was asked to cancel. */
    method Finish(o: OpId, last: OpState)
      requires Valid() && phase == if last.Cancelled? then Skipping(o) else Finalizing(o, last)
      modifies this
      ensures Valid() && old(trace) <= trace && phase.Idle? && o in old(ops) && o in ops
      ensures ops[o].state == last && Terminal(last) && ops[o].applied == old(ops)[o].applied
    {
      Held();
      Yield(o);
      if last.Cancelled? {
        SkipPendingItems(o);
        Yield(o);
      }
      FinalizeOperation(o, last);
    }

    /** After the chunk: finish if nothing is left. */
    method Conclude(o: OpId) returns (finalized: bool)
      requires Valid() && phase == Applying(o, [])
      modifies this
      ensures Valid() && old(trace) <= trace && phase.Idle? && o in old(ops) && o in ops
      ensures finalized == Terminal(ops[o].state) && ops[o].applied == old(ops)[o].applied
    {
      Held();
      Yield(o);
      finalized := CountPending(o);
      Yield(o);
      var cancelling := ReadState(o, finalized);
      if finalized {
        Finish(o, if cancelling then OpState.Cancelled else OpState.Completed);
      }
    }

    /** From the selection of a chunk to the end of the run. */
    method RunChunk(o: OpId, chunkSize: int, fates: JobId -> Fate) returns (r: Outcome)
      requires Valid() && phase == Selecting(o)
      modifies this
      ensures Valid() && old(trace) <= trace && phase.Idle? && o in old(ops) && o in ops
      ensures r.claimed && r.finalized == Terminal(ops[o].state)
      ensures |ops[o].applied| == |old(ops)[o].applied| + r.processed
    {
      Held();
      Yield(o);
      var ids := SelectIds(o, chunkSize);
      if ids == [] {
        Finish(o, OpState.Completed);
        return Outcome(true, true, 0, 0, 0);
      }
      var processed, skipped, errored := ApplyChunk(o, ids, fates);
      var finalized := Conclude(o);
      r := Outcome(true, finalized, processed, skipped, errored);
    }

    /** `run_one_batch_operation_chunk_locked`: one run of the machine from idle to
        idle. It reports as finalized exactly an operation that is now finished, and
        as processed exactly the number of mutations it committed. */
    method RunOneChunk(chunkSize: int, pageSize: int, fates: JobId -> Fate, locked: set<OpId>)
      returns (r: Outcome, claim: Option<OpId>)
      requires Valid() && phase.Idle?
      modifies this
      ensures Valid() && old(trace) <= trace && phase.Idle?
      ensures r.claimed == claim.Some?
      ensures claim.None? ==> r == NothingDone && ops == old(ops)
      ensures claim.Some? ==>
                && claim.value in old(ops) && claim.value in ops
                && r.finalized == Terminal(ops[claim.value].state)
                && |ops[claim.value].applied| == |old(ops)[claim.value].applied| + r.processed
                && (old(ops)[claim.value].state.Cancelling? ==>
                      ops[claim.value].state.Cancelled? && ops[claim.value].applied == old(ops)[claim.value].applied)
    {
      claim := ClaimNext(locked);
      if claim.None? {
        return NothingDone, None;
      }
      var o := claim.value;
      if ops[o].state.Cancelling? {
        Finish(o, OpState.Cancelled);
        return Outcome(true, true, 0, 0, 0), claim;
      }
      if ops[o].state.Scanning? {
        var running := ScanOperation(o, pageSize);
        if !running {
          return Outcome(true, false, 0, 0, 0), claim;
        }
      }
      r := RunChunk(o, chunkSize, fates);
    }
  }
}
