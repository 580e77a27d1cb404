/** Durable batch operations as a machine whose steps are the runner's transactions
    and reads, the requests of other sessions, and crashes. One runner at a time
    holds the advisory lock, so its local state is one `Phase`. */
module BatchRunner {
  import opened Prelude
  import opened Jobs
  import opened BatchJobs

  type OpId = int

  datatype ItemState = Untouched | Done | Passed | Broken

  datatype OpState = Pending | Scanning | Running | Cancelling | Completed | Cancelled

  /** An operation row and its item rows. An item is pending (`Untouched`), processed
      (`Done`), skipped (`Passed`) or errored (`Broken`). The last three fields are
      history: the jobs whose mutation committed, in order; how often the operation
      was claimed; and whether a run of it was cut short or it was asked to cancel. */
  datatype Operation = Operation(
    submittedAt: int,
    spec: Spec,
    filter: Filter,
    state: OpState,
    items: map<JobId, ItemState>,
    totalMatched: Option<nat>,
    processed: nat,
    skipped: nat,
    errored: nat,
    applied: seq<JobId>,
    claims: nat,
    disturbed: bool)

  /** A scan in progress; `steady` are the jobs that have matched ever since its bound
      was read. */
  datatype Scan = Scan(after: JobId, max: JobId, total: nat, steady: set<JobId>)

  /** Where the runner is. Every phase but `Idle` names the operation it works on. */
  datatype Phase =
    | Idle
    | Bounding(op: OpId)
    | Counting(op: OpId, scan: Scan)
    | Paging(op: OpId, scan: Scan)
    | Inserting(op: OpId, scan: Scan, page: seq<JobId>)
    | Checking(op: OpId, scan: Scan)
    | Starting(op: OpId, scan: Scan)
    | Selecting(op: OpId)
    | Applying(op: OpId, chunk: seq<JobId>)
    | Recording(op: OpId, chunk: seq<JobId>)
    | Deciding(op: OpId, none: bool)
    | Skipping(op: OpId)
    | Finalizing(op: OpId, last: OpState)

  datatype World = World(ops: map<OpId, Operation>, jobs: map<JobId, Job>, phase: Phase)

  datatype Step =
    | Submit(id: OpId, spec: Spec, filter: Filter, allowAll: bool, at: int)
    | Cancel(id: OpId)
    | Environment(jobs: map<JobId, Job>)
    | Crash
    | Claim(id: OpId)
    | ReadBound
    | ReadCount
    | LoadPage(limit: int)
    | InsertPage
    | CheckState
    | FinishScan
    | Select(chunk: int)
    | Apply
    | ApplyFails
    | ApplyLost
    | RecordError
    | RecordLost
    | Tally
    | Decide
    | SkipAll
    | Finalize

  // ---- What each transaction does to an operation ------------------------------------

  function NewOperation(spec: Spec, filter: Filter, at: int): Operation {
    Operation(at, spec, filter, Pending, map[], None, 0, 0, 0, [], 0, false)
  }

  function InState(items: map<JobId, ItemState>, st: ItemState): set<JobId> {
    set j | j in items && items[j] == st
  }

  /** `insert_operation_items`, `ON CONFLICT DO NOTHING`. */
  function InsertItems(op: Operation, ids: seq<JobId>): Operation {
    op.(items := (map j | j in ids :: Untouched) + op.items)
  }

  /** `record_item_outcome_tx`: the item moves only if it is pending, the counters
      always. */
  function Record(op: Operation, j: JobId, outcome: ItemState): Operation {
    op.(items := if j in op.items && op.items[j].Untouched? then op.items[j := outcome] else op.items,
        processed := op.processed + if outcome.Done? then 1 else 0,
        skipped := op.skipped + if outcome.Passed? then 1 else 0,
        errored := op.errored + if outcome.Broken? then 1 else 0)
  }

  /** `skip_pending_items` */
  function SkipPending(op: Operation): Operation {
    op.(items := map j | j in op.items :: if op.items[j].Untouched? then Passed else op.items[j],
        skipped := op.skipped + |InState(op.items, Untouched)|)
  }

  predicate Claimable(st: OpState) {
    st.Pending? || st.Scanning? || st.Running? || st.Cancelling?
  }

  predicate Terminal(st: OpState) {
    st.Completed? || st.Cancelled?
  }

  // ---- Steps ---------------------------------------------------------------------------

  function With(w: World, o: OpId, op: Operation, phase: Phase): World {
    World(w.ops[o := op], w.jobs, phase)
  }

  /** The claim returns the row; what it says decides where the run starts. */
  function ClaimOperation(w: World, o: OpId): World {
    if !w.phase.Idle? || o !in w.ops || !Claimable(w.ops[o].state) then w
    else
      var st := if w.ops[o].state.Pending? then Scanning else w.ops[o].state;
      With(w, o, w.ops[o].(state := st, claims := w.ops[o].claims + 1),
           if st.Cancelling? then Skipping(o) else if st.Scanning? then Bounding(o) else Selecting(o))
  }

  function MaxMatching(ids: set<JobId>): JobId {
    if ids == {} then 0 else MaxOf(ids)
  }

  function ScanStep(w: World, s: Step): World
    requires w.phase.Bounding? || w.phase.Counting? || w.phase.Paging?
             || w.phase.Inserting? || w.phase.Checking? || w.phase.Starting?
    requires w.phase.op in w.ops
  {
    var o, op := w.phase.op, w.ops[w.phase.op];
    var matching := Matching(op.filter, w.jobs);
    match (w.phase, s)
    case (Bounding(_), ReadBound) =>
      w.(phase := Counting(o, Scan(0, MaxMatching(matching), 0, matching)))
    case (Counting(_, scan), ReadCount) =>
      w.(phase := Paging(o, scan.(total := if scan.max == 0 then 0 else |Window(matching, 0, scan.max)|)))
    case (Paging(_, scan), LoadPage(limit)) =>
      var page := Page(matching, scan.after, scan.max, Max(1, limit));
      w.(phase := if scan.after < scan.max && page != [] then Inserting(o, scan.(after := page[|page|-1]), page)
                  else Starting(o, scan))
    case (Inserting(_, scan, page), InsertPage) => With(w, o, InsertItems(op, page), Checking(o, scan))
    case (Checking(_, scan), CheckState) => w.(phase := if op.state.Cancelling? then Idle else Paging(o, scan))
    case (Starting(_, scan), FinishScan) =>
      if op.state.Scanning?
      then With(w, o, op.(state := OpState.Running, totalMatched := Some(scan.total)), Selecting(o))
      else w.(phase := Idle)
    case _ => w
  }

  function Chunk(op: Operation, limit: int): seq<JobId> {
    var pending := Ascending(InState(op.items, Untouched));
    pending[..Min(Max(1, limit), |pending|)]
  }

  /** `apply_item` when nothing fails: the mutation and its outcome commit together. */
  function ApplyItem(w: World, o: OpId, j: JobId, rest: seq<JobId>): World
    requires o in w.ops
  {
    var op := w.ops[o];
    if j in w.jobs && Selects(op.spec, w.jobs[j]) then
      World(w.ops[o := Record(op, j, Done).(applied := op.applied + [j])],
            w.jobs[j := Mutated(op.spec, w.jobs[j])], Applying(o, rest))
    else With(w, o, Record(op, j, Passed), Applying(o, rest))
  }

  function ChunkStep(w: World, s: Step): World
    requires !w.phase.Idle? && w.phase.op in w.ops
  {
    var o, op := w.phase.op, w.ops[w.phase.op];
    match (w.phase, s)
    case (Selecting(_), Select(limit)) =>
      var chunk := Chunk(op, limit);
      w.(phase := if chunk == [] then Finalizing(o, OpState.Completed) else Applying(o, chunk))
    case (Applying(_, chunk), Apply) => if chunk == [] then w else ApplyItem(w, o, chunk[0], chunk[1..])
    case (Applying(_, chunk), ApplyFails) => if chunk == [] then w else w.(phase := Recording(o, chunk))
    case (Applying(_, chunk), ApplyLost) =>
      if chunk == [] then w else With(w, o, op.(disturbed := true), Applying(o, chunk[1..]))
    case (Recording(_, chunk), RecordError) =>
      if chunk == [] then w else With(w, o, Record(op, chunk[0], Broken), Applying(o, chunk[1..]))
    case (Recording(_, chunk), RecordLost) =>
      if chunk == [] then w else With(w, o, op.(disturbed := true), Applying(o, chunk[1..]))
    case (Applying(_, chunk), Tally) =>
      if chunk != [] then w else w.(phase := Deciding(o, InState(op.items, Untouched) == {}))
    case (Deciding(_, none), Decide) =>
      w.(phase := if !none then Idle
                  else if op.state.Cancelling? then Skipping(o) else Finalizing(o, OpState.Completed))
    case (Skipping(_), SkipAll) => With(w, o, SkipPending(op), Finalizing(o, OpState.Cancelled))
    case (Finalizing(_, last), Finalize) => With(w, o, op.(state := last), Idle)
    case _ => w
  }

  predicate Scans(p: Phase) {
    p.Bounding? || p.Counting? || p.Paging? || p.Inserting? || p.Checking? || p.Starting?
  }

  /** Other sessions changed job rows: what stopped matching is no longer steady. */
  function Steadied(p: Phase, matching: set<JobId>): Phase {
    if Scans(p) && !p.Bounding? then p.(scan := p.scan.(steady := p.scan.steady * matching)) else p
  }

  function Interrupted(w: World): World {
    if w.phase.Idle? || w.phase.op !in w.ops then w.(phase := Idle)
    else With(w, w.phase.op, w.ops[w.phase.op].(disturbed := true), Idle)
  }

  /** One step; a step whose moment has not come changes nothing. Job ids come from a
      sequence, so they are positive. */
  function Next(w: World, s: Step): World {
    match s
    case Submit(o, spec, filter, allowAll, at) =>
      if o in w.ops || !Acceptable(spec, filter, allowAll) then w
      else World(w.ops[o := NewOperation(spec, filter, at)], w.jobs, w.phase)
    case Cancel(o) =>
      if o !in w.ops || !Claimable(w.ops[o].state) || w.ops[o].state.Cancelling? then w
      else World(w.ops[o := w.ops[o].(state := Cancelling, disturbed := true)], w.jobs, w.phase)
    case Environment(jobs) =>
      if exists j :: j in jobs && j <= 0 then w
      else if Scans(w.phase) && w.phase.op in w.ops
      then World(w.ops, jobs, Steadied(w.phase, Matching(w.ops[w.phase.op].filter, jobs)))
      else World(w.ops, jobs, w.phase)
    case Crash => Interrupted(w)
    case Claim(o) => ClaimOperation(w, o)
    case _ =>
      if w.phase.Idle? || w.phase.op !in w.ops then w
      else if Scans(w.phase) then ScanStep(w, s)
      else ChunkStep(w, s)
  }

  const Start := World(map[], map[], Idle)

  function RunFrom(w: World, steps: seq<Step>): World {
    if steps == [] then w else Next(RunFrom(w, steps[..|steps|-1]), steps[|steps|-1])
  }

  // ---- The invariant -------------------------------------------------------------------

  /** Each counter is the number of items in its state; the committed mutations are
      exactly the processed items, each once; and the states that promise something
      about items keep it. */
  ghost predicate OperationInv(op: Operation) {
    && Conserved(op)
    && (forall i, j :: 0 <= i < j < |op.applied| ==> op.applied[i] != op.applied[j])
    && (forall j :: j in op.applied <==> j in InState(op.items, Done))
    && (op.state.Pending? || op.state.Scanning? ==> AllUntouched(op))
    && (Terminal(op.state) ==> InState(op.items, Untouched) == {})
    && (op.state.Running? || op.state.Completed? ==> op.totalMatched.Some?)
  }

  ghost predicate Conserved(op: Operation) {
    && op.processed == |InState(op.items, Done)|
    && op.skipped == |InState(op.items, Passed)|
    && op.errored == |InState(op.items, Broken)|
  }

  ghost predicate AllUntouched(op: Operation) {
    op.applied == [] && forall j :: j in op.items ==> op.items[j].Untouched?
  }

  ghost predicate ScanInv(op: Operation, p: Phase, matching: set<JobId>)
    requires Scans(p)
  {
    && AllUntouched(op)
    && (op.state.Scanning? || op.state.Cancelling?)
    && (!p.Bounding? ==>
          && 0 <= p.scan.after
          && p.scan.steady <= matching
          && (forall j :: j in p.scan.steady ==> 0 < j <= p.scan.max)
          && (forall j :: j in p.scan.steady && j <= p.scan.after ==> j in op.items || (p.Inserting? && j in p.page))
          && (p.Counting? ==> p.scan.after == 0)
          && (p.Starting? ==> p.scan.steady <= op.items.Keys))
  }

  ghost predicate ChunkInv(op: Operation, p: Phase) {
    && (op.state.Running? || op.state.Cancelling?)
    && (p.Applying? || p.Recording? ==>
          && Increasing(p.chunk)
          && (forall j :: j in p.chunk ==> j in InState(op.items, Untouched)))
    && (p.Recording? ==> p.chunk != [])
    && (p.Deciding? && p.none ==> InState(op.items, Untouched) == {})
    && (p.Skipping? ==> op.state.Cancelling?)
    && (!p.Skipping? && !(p.Finalizing? && p.last.Cancelled?) ==> op.totalMatched.Some?)
    && (p.Finalizing? ==> Terminal(p.last) && InState(op.items, Untouched) == {})
  }

  ghost predicate PhaseInv(w: World) {
    !w.phase.Idle? ==>
      && w.phase.op in w.ops
      && var op := w.ops[w.phase.op];
         if Scans(w.phase) then ScanInv(op, w.phase, Matching(op.filter, w.jobs)) else ChunkInv(op, w.phase)
  }

  ghost predicate Inv(w: World) {
    && (forall o :: o in w.ops ==> OperationInv(w.ops[o]))
    && PhaseInv(w)
    && (forall j :: j in w.jobs ==> 0 < j)
  }

  // ---- Each transaction keeps it -------------------------------------------------------

  lemma PendingLoses(op: Operation, j: JobId, outcome: ItemState)
    requires j in op.items && op.items[j].Untouched? && !outcome.Untouched?
    ensures InState(Record(op, j, outcome).items, Untouched) == InState(op.items, Untouched) - {j}
  {
  }

  /** Moving a pending item moves one unit between the counts. */
  lemma RecordCounts(op: Operation, j: JobId, outcome: ItemState)
    requires j in op.items && op.items[j].Untouched? && !outcome.Untouched?
    ensures InState(Record(op, j, outcome).items, Untouched) == InState(op.items, Untouched) - {j}
    ensures InState(Record(op, j, outcome).items, Done) == InState(op.items, Done) + if outcome.Done? then {j} else {}
    ensures InState(Record(op, j, outcome).items, Passed)
            == InState(op.items, Passed) + if outcome.Passed? then {j} else {}
    ensures InState(Record(op, j, outcome).items, Broken)
            == InState(op.items, Broken) + if outcome.Broken? then {j} else {}
  {
  }

  lemma RecordConserves(op: Operation, j: JobId, outcome: ItemState)
    requires Conserved(op) && j in op.items && op.items[j].Untouched? && !outcome.Untouched?
    ensures Conserved(Record(op, j, outcome))
  {
    RecordCounts(op, j, outcome);
    assert j !in InState(op.items, outcome);
  }

  lemma RecordInv(op: Operation, j: JobId, outcome: ItemState)
    requires OperationInv(op) && j in InState(op.items, Untouched)
    requires op.state.Running? || op.state.Cancelling?
    requires outcome.Passed? || outcome.Broken?
    ensures OperationInv(Record(op, j, outcome))
  {
    RecordConserves(op, j, outcome);
    RecordCounts(op, j, outcome);
  }

  lemma RecordDoneInv(op: Operation, j: JobId)
    requires OperationInv(op) && j in InState(op.items, Untouched)
    requires op.state.Running? || op.state.Cancelling?
    ensures OperationInv(Record(op, j, Done).(applied := op.applied + [j]))
  {
    RecordConserves(op, j, Done);
    RecordCounts(op, j, Done);
  }

  /** Exactly what the runner lock buys: recording an outcome keeps the counters equal
      to the item counts if and only if the item is still pending. */
  lemma RecordConservesIff(op: Operation, j: JobId, outcome: ItemState)
    requires OperationInv(op) && !outcome.Untouched?
    ensures Conserved(Record(op, j, outcome)) <==> j in InState(op.items, Untouched)
  {
    if j in InState(op.items, Untouched) {
      RecordConserves(op, j, outcome);
    }
  }

  lemma SkipInv(op: Operation)
    requires OperationInv(op) && op.state.Cancelling?
    ensures OperationInv(SkipPending(op)) && InState(SkipPending(op).items, Untouched) == {}
  {
    var after := SkipPending(op);
    var waiting := InState(op.items, Untouched);
    assert InState(after.items, Passed) == InState(op.items, Passed) + waiting;
    assert InState(after.items, Done) == InState(op.items, Done);
    assert InState(after.items, Broken) == InState(op.items, Broken);
  }

  lemma InsertInv(op: Operation, ids: seq<JobId>)
    requires OperationInv(op) && AllUntouched(op) && (op.state.Scanning? || op.state.Cancelling?)
    ensures OperationInv(InsertItems(op, ids)) && AllUntouched(InsertItems(op, ids))
    ensures InsertItems(op, ids).items.Keys == op.items.Keys + set j | j in ids
  {
    var after := InsertItems(op, ids);
    forall st: ItemState | !st.Untouched? ensures InState(after.items, st) == InState(op.items, st) {
      assert forall j :: j !in InState(after.items, st) && j !in InState(op.items, st);
    }
    assert after.items.Keys == op.items.Keys + set j | j in ids;
  }

  // ---- Every step keeps it ----------------------------------------------------------------

  /** The cursor grows with every page, and nothing steady is left behind it. */
  lemma LoadPageInv(w: World, limit: int)
    requires Inv(w) && w.phase.Paging?
    ensures Inv(Next(w, LoadPage(limit)))
    ensures var p := Next(w, LoadPage(limit)).phase;
            p.Starting? || (p.Inserting? && w.phase.scan.after < p.scan.after <= p.scan.max == w.phase.scan.max)
  {
    var scan := w.phase.scan;
    var matching := Matching(w.ops[w.phase.op].filter, w.jobs);
    PageIs(matching, scan.after, scan.max, Max(1, limit));
    var page := Page(matching, scan.after, scan.max, Max(1, limit));
    assert forall j :: j in matching && scan.after < j <= scan.max ==> j in Window(matching, scan.after, scan.max);
    if page != [] {
      assert page[|page|-1] in page;
    }
  }

  lemma InsertPageInv(w: World)
    requires Inv(w) && w.phase.Inserting?
    ensures Inv(Next(w, InsertPage))
  {
    InsertInv(w.ops[w.phase.op], w.phase.page);
  }

  lemma ScanStepInv(w: World, s: Step)
    requires Inv(w) && Scans(w.phase)
    ensures Inv(ScanStep(w, s))
  {
    match (w.phase, s)
    case (Paging(_, _), LoadPage(limit)) => LoadPageInv(w, limit);
    case (Inserting(_, _, _), InsertPage) => InsertPageInv(w);
    case _ =>
  }

  lemma ChunkIs(op: Operation, limit: int)
    ensures IsPage(Chunk(op, limit), InState(op.items, Untouched), Max(1, limit))
    ensures Increasing(Chunk(op, limit)) && forall j :: j in Chunk(op, limit) ==> j in InState(op.items, Untouched)
    ensures Chunk(op, limit) == [] ==> InState(op.items, Untouched) == {}
  {
    var pending := InState(op.items, Untouched);
    AscendingLists(pending);
    PrefixIsPage(Ascending(pending), pending, Max(1, limit));
  }

  lemma SelectInv(w: World, limit: int)
    requires Inv(w) && w.phase.Selecting?
    ensures Inv(Next(w, Select(limit)))
  {
    ChunkIs(w.ops[w.phase.op], limit);
  }

  /** The rest of a chunk is still pending when its first item is not. */
  lemma RestPending(op: Operation, chunk: seq<JobId>, outcome: ItemState)
    requires chunk != [] && Increasing(chunk) && !outcome.Untouched?
    requires forall j :: j in chunk ==> j in InState(op.items, Untouched)
    ensures Increasing(chunk[1..])
    ensures forall j :: j in chunk[1..] ==> j in InState(op.items, Untouched)
    ensures forall j :: j in chunk[1..] ==> j in InState(Record(op, chunk[0], outcome).items, Untouched)
  {
    assert chunk[0] in chunk;
    PendingLoses(op, chunk[0], outcome);
  }

  lemma ApplyInv(w: World)
    requires Inv(w) && w.phase.Applying? && w.phase.chunk != []
    ensures Inv(Next(w, Apply))
  {
    var op, chunk := w.ops[w.phase.op], w.phase.chunk;
    RecordInv(op, chunk[0], Passed);
    RecordDoneInv(op, chunk[0]);
    RestPending(op, chunk, Passed);
    RestPending(op, chunk, Done);
  }

  lemma RecordErrorInv(w: World, s: Step)
    requires Inv(w) && w.phase.Recording?
    ensures Inv(ChunkStep(w, s))
  {
    var op, chunk := w.ops[w.phase.op], w.phase.chunk;
    RecordInv(op, chunk[0], Broken);
    RestPending(op, chunk, Broken);
  }

  lemma ApplyingInv(w: World, s: Step)
    requires Inv(w) && w.phase.Applying?
    ensures Inv(ChunkStep(w, s))
  {
    if w.phase.chunk != [] {
      if s.Apply? {
        ApplyInv(w);
      } else {
        RestPending(w.ops[w.phase.op], w.phase.chunk, Broken);
      }
    }
  }

  lemma ChunkStepInv(w: World, s: Step)
    requires Inv(w) && !w.phase.Idle? && !Scans(w.phase)
    ensures Inv(ChunkStep(w, s))
  {
    match (w.phase, s)
    case (Selecting(_), Select(limit)) => SelectInv(w, limit);
    case (Applying(_, _), _) => ApplyingInv(w, s);
    case (Recording(_, _), _) => RecordErrorInv(w, s);
    case (Skipping(o), SkipAll) => SkipInv(w.ops[o]);
    case _ =>
  }

  lemma SteadiedInv(op: Operation, p: Phase, matching: set<JobId>, matching1: set<JobId>)
    requires Scans(p) && ScanInv(op, p, matching)
    ensures Scans(Steadied(p, matching1)) && Steadied(p, matching1).op == p.op
    ensures ScanInv(op, Steadied(p, matching1), matching1)
  {
  }

  lemma EnvironmentInv(w: World, jobs: map<JobId, Job>)
    requires Inv(w)
    ensures Inv(Next(w, Environment(jobs)))
  {
    if Scans(w.phase) {
      var op := w.ops[w.phase.op];
      SteadiedInv(op, w.phase, Matching(op.filter, w.jobs), Matching(op.filter, jobs));
    }
  }

  lemma ClaimInv(w: World, o: OpId)
    requires Inv(w)
    ensures Inv(Next(w, Claim(o)))
  {
  }

  lemma RequestInv(w: World, s: Step)
    requires Inv(w) && (s.Submit? || s.Cancel? || s.Crash?)
    ensures Inv(Next(w, s))
  {
  }

  lemma StepInv(w: World, s: Step)
    requires Inv(w)
    ensures Inv(Next(w, s))
  {
    if s.Environment? {
      EnvironmentInv(w, s.jobs);
    } else if s.Claim? {
      ClaimInv(w, s.id);
    } else if s.Submit? || s.Cancel? || s.Crash? {
      RequestInv(w, s);
    } else if !w.phase.Idle? {
      if Scans(w.phase) {
        ScanStepInv(w, s);
      } else {
        ChunkStepInv(w, s);
      }
    }
  }

  lemma {:induction false} RunInv(steps: seq<Step>)
    ensures Inv(RunFrom(Start, steps))
  {
    if steps != [] {
      RunInv(steps[..|steps|-1]);
      StepInv(RunFrom(Start, steps[..|steps|-1]), steps[|steps|-1]);
    }
  }

  // ---- Frames ---------------------------------------------------------------------------------

  predicate FromOutside(s: Step) {
    s.Submit? || s.Cancel? || s.Crash? || s.Claim? || s.Environment?
  }

  /** The run works on `o`. */
  predicate WorksOn(w: World, o: OpId) {
    !w.phase.Idle? && w.phase.op == o
  }

  lemma ScanFrame(w: World, s: Step, o: OpId)
    requires Scans(w.phase) && w.phase.op in w.ops
    ensures var v := ScanStep(w, s);
            && v.jobs == w.jobs && v.ops.Keys == w.ops.Keys
            && (v.phase.Idle? || v.phase.op == w.phase.op)
            && (o in w.ops && o != w.phase.op ==> v.ops[o] == w.ops[o])
  {
  }

  lemma ChunkFrame(w: World, s: Step, o: OpId)
    requires !w.phase.Idle? && !Scans(w.phase) && w.phase.op in w.ops
    ensures var v := ChunkStep(w, s);
            && v.ops.Keys == w.ops.Keys
            && !Scans(v.phase) && (v.phase.Idle? || v.phase.op == w.phase.op)
            && (o in w.ops && o != w.phase.op ==> v.ops[o] == w.ops[o])
  {
  }

  lemma ChunkKeepsItems(w: World, s: Step)
    requires !w.phase.Idle? && !Scans(w.phase) && w.phase.op in w.ops
    ensures var v, o := ChunkStep(w, s), w.phase.op;
            o in v.ops && v.ops[o].items.Keys == w.ops[o].items.Keys && v.ops[o].totalMatched == w.ops[o].totalMatched
  {
  }

  /** The runner leaves alone every operation but the one it works on. */
  lemma RunnerFrame(w: World, s: Step, o: OpId)
    requires PhaseInv(w) && !FromOutside(s) && o in w.ops && !WorksOn(w, o)
    ensures o in Next(w, s).ops && Next(w, s).ops[o] == w.ops[o] && !WorksOn(Next(w, s), o)
  {
    if !w.phase.Idle? {
      if Scans(w.phase) {
        ScanFrame(w, s, o);
      } else {
        ChunkFrame(w, s, o);
      }
    }
  }

  /** An operation appears only by being submitted, and no run works on it yet. */
  lemma SubmittedNow(w: World, s: Step, o: OpId)
    requires PhaseInv(w) && o !in w.ops && o in Next(w, s).ops
    ensures s.Submit? && Next(w, s).ops[o] == NewOperation(s.spec, s.filter, s.at) && !WorksOn(Next(w, s), o)
  {
    if !FromOutside(s) && !w.phase.Idle? {
      if Scans(w.phase) {
        ScanFrame(w, s, o);
      } else {
        ChunkFrame(w, s, o);
      }
    }
  }

  // ---- Exactly once, conservation and finality ----------------------------------------------

  /** After any run, with crashes after any transaction and cancellation at any point,
      every operation's committed mutations are its processed items, each exactly
      once, every counter is the number of its items, and a finished operation has no
      pending item. */
  lemma ExactlyOnce(steps: seq<Step>, o: OpId)
    requires o in RunFrom(Start, steps).ops
    ensures var op := RunFrom(Start, steps).ops[o];
            && (forall j :: multiset(op.applied)[j] == if j in op.items && op.items[j].Done? then 1 else 0)
            && Conserved(op)
            && (Terminal(op.state) ==> op.processed + op.skipped + op.errored == |op.items|)
  {
    RunInv(steps);
    var op := RunFrom(Start, steps).ops[o];
    forall j ensures multiset(op.applied)[j] == if j in op.items && op.items[j].Done? then 1 else 0 {
      CountDistinct(op.applied, j);
      assert j in op.applied <==> j in InState(op.items, Done);
    }
    if Terminal(op.state) {
      ItemsPartition(op.items);
    }
  }

  lemma {:induction false} CountDistinct(s: seq<JobId>, x: JobId)
    requires forall i, j :: 0 <= i < j < |s| ==> s[i] != s[j]
    ensures multiset(s)[x] == if x in s then 1 else 0
  {
    if s != [] {
      CountDistinct(s[..|s|-1], x);
      assert s == s[..|s|-1] + [s[|s|-1]];
    }
  }

  lemma ItemsPartition(items: map<JobId, ItemState>)
    ensures |items|
            == |InState(items, Untouched)| + |InState(items, Done)|
               + |InState(items, Passed)| + |InState(items, Broken)|
  {
    var a, b, c, d := InState(items, Untouched), InState(items, Done), InState(items, Passed), InState(items, Broken);
    forall j | j in items ensures j in a + b + c + d {
      assert items[j].Untouched? || items[j].Done? || items[j].Passed? || items[j].Broken?;
    }
    assert items.Keys == a + b + c + d;
    assert |items.Keys| == |items|;
  }

  predicate AppliesNow(w: World, s: Step) {
    s.Apply? && w.phase.Applying? && w.phase.chunk != []
  }

  /** The history is honest: only an item's own transaction changes a job row or adds
      to the committed mutations ... */
  lemma OnlyApplyMutates(w: World, s: Step, o: OpId)
    requires Inv(w) && !s.Environment? && !AppliesNow(w, s) && o in w.ops
    ensures Next(w, s).jobs == w.jobs && o in Next(w, s).ops && Next(w, s).ops[o].applied == w.ops[o].applied
  {
    if !FromOutside(s) && !w.phase.Idle? {
      if Scans(w.phase) {
        ScanFrame(w, s, o);
        ScanMutatesNothing(w, s);
      } else {
        ChunkMutatesOnlyHere(w, s, o);
      }
    }
  }

  lemma ScanMutatesNothing(w: World, s: Step)
    requires Scans(w.phase) && w.phase.op in w.ops
    ensures w.phase.op in ScanStep(w, s).ops && ScanStep(w, s).ops[w.phase.op].applied == w.ops[w.phase.op].applied
  {
  }

  lemma ChunkMutatesOnlyHere(w: World, s: Step, o: OpId)
    requires !w.phase.Idle? && w.phase.op in w.ops && !AppliesNow(w, s) && o in w.ops
    ensures var v := ChunkStep(w, s);
            v.jobs == w.jobs && o in v.ops && v.ops[o].applied == w.ops[o].applied
  {
  }

  /** ... and it changes the row exactly when it adds the job, by the operation's own
      mutation; another operation's history is untouched. */
  lemma ApplyMutates(w: World, o: OpId)
    requires Inv(w) && AppliesNow(w, Apply) && o in w.ops
    ensures var v, j := Next(w, Apply), w.phase.chunk[0];
            && o in v.ops
            && v.jobs == (if j in w.jobs then w.jobs[j := Mutate(w.ops[w.phase.op].spec, w.jobs[j])] else w.jobs)
            && v.ops[o].applied == w.ops[o].applied + if o == w.phase.op && v.jobs != w.jobs then [j] else []
  {
    var j := w.phase.chunk[0];
    if j in w.jobs {
      MutateOnce(w.ops[w.phase.op].spec, w.jobs[j]);
      assert w.jobs[j := w.jobs[j]] == w.jobs;
    }
  }

  /** A finished operation never changes again. */
  lemma TerminalIsFinal(w: World, s: Step, o: OpId)
    requires Inv(w) && o in w.ops && Terminal(w.ops[o].state)
    ensures o in Next(w, s).ops && Next(w, s).ops[o] == w.ops[o]
  {
    assert !WorksOn(w, o);
    if !FromOutside(s) {
      RunnerFrame(w, s, o);
    }
  }
}
