/** How many claims it takes to finish an operation nothing disturbs. */
module BatchProgress {
  import opened Prelude
  import opened Jobs
  import opened BatchJobs
  import opened BatchRunner
  import opened BatchCancel

  /** Runs needed for `n` pending items in chunks of `c`: one even for none. */
  function Chunks(n: nat, c: nat): nat
    requires c > 0
  {
    if n <= c then 1 else 1 + Chunks(n - c, c)
  }

  lemma {:induction false} ChunksIsCeiling(n: nat, c: nat)
    requires c > 0
    ensures Chunks(n, c) == Max(1, (n + c - 1) / c)
  {
    if n == 0 {
      Quotient(c - 1, c, 0);
    } else if n <= c {
      Quotient(n + c - 1, c, 1);
    } else {
      ChunksIsCeiling(n - c, c);
      QuotientStep(n - c + c - 1, c);
    }
  }

  lemma Quotient(a: nat, c: nat, q: nat)
    requires c > 0 && q * c <= a < (q + 1) * c
    ensures a / c == q
  {
    var r := a / c;
    assert r < q ==> (r + 1) * c <= q * c;
    assert r > q ==> (q + 1) * c <= r * c;
  }

  lemma QuotientStep(a: nat, c: nat)
    requires c > 0
    ensures (a + c) / c == a / c + 1
  {
    assert (a / c + 1) * c == (a / c) * c + c;
    Quotient(a + c, c, a / c + 1);
  }

  function Waiting(op: Operation): nat {
    |InState(op.items, Untouched)|
  }

  /** `claims` runs have begun and `left` items wait beyond the current one. */
  predicate OnTrack(op: Operation, claims: nat, left: nat, c: nat)
    requires c > 0
  {
    claims + (if left == 0 then 0 else Chunks(left, c)) == Chunks(|op.items|, c)
  }

  /** Where an undisturbed operation stands while no run works on it. */
  predicate Rests(op: Operation, c: nat)
    requires c > 0
  {
    match op.state
    case Pending => op.claims == 0
    case Running => Waiting(op) > 0 && OnTrack(op, op.claims, Waiting(op), c)
    case Completed => OnTrack(op, op.claims, 0, c)
    case _ => false
  }

  /** Where it stands during a run. */
  predicate Works(op: Operation, p: Phase, c: nat)
    requires c > 0
  {
    match p
    case Selecting(_) =>
      op.state.Running? && op.claims > 0 && op.claims - 1 + Chunks(Waiting(op), c) == Chunks(|op.items|, c)
    case Applying(_, chunk) =>
      op.state.Running? && |chunk| <= Waiting(op) && OnTrack(op, op.claims, Waiting(op) - |chunk|, c)
    case Recording(_, chunk) =>
      op.state.Running? && |chunk| <= Waiting(op) && OnTrack(op, op.claims, Waiting(op) - |chunk|, c)
    case Deciding(_, none) => op.state.Running? && none == (Waiting(op) == 0) && OnTrack(op, op.claims, Waiting(op), c)
    case Finalizing(_, last) => op.state.Running? && last.Completed? && OnTrack(op, op.claims, 0, c)
    case Skipping(_) => false
    case _ => op.state.Scanning? && op.claims == 1
  }

  predicate ProgressInv(w: World, o: OpId, c: nat)
    requires c > 0 && o in w.ops
  {
    w.ops[o].disturbed ||
    if WorksOn(w, o) then Works(w.ops[o], w.phase, c) else Rests(w.ops[o], c)
  }

  predicate UsesChunk(s: Step, c: nat) {
    s.Select? ==> Max(1, s.chunk) == c
  }

  lemma ChunkLength(op: Operation, limit: int)
    ensures |Chunk(op, limit)| == Min(Max(1, limit), Waiting(op))
  {
    AscendingLists(InState(op.items, Untouched));
  }

  lemma SelectProgress(w: World, limit: int, c: nat)
    requires c > 0 && Inv(w) && w.phase.Selecting? && ProgressInv(w, w.phase.op, c) && Max(1, limit) == c
    ensures ProgressInv(Next(w, Select(limit)), w.phase.op, c)
  {
    ChunkLength(w.ops[w.phase.op], limit);
  }

  /** One item less waits, and one item less is left of the chunk. */
  lemma RecordProgress(op: Operation, chunk: seq<JobId>, outcome: ItemState)
    requires chunk != [] && !outcome.Untouched? && forall j :: j in chunk ==> j in InState(op.items, Untouched)
    ensures Waiting(Record(op, chunk[0], outcome)) == Waiting(op) - 1
    ensures |Record(op, chunk[0], outcome).items| == |op.items|
  {
    assert chunk[0] in chunk;
    PendingLoses(op, chunk[0], outcome);
    assert Record(op, chunk[0], outcome).items.Keys == op.items.Keys;
    assert |op.items.Keys| == |op.items|;
  }

  lemma ApplyProgress(w: World, c: nat)
    requires c > 0 && Inv(w) && w.phase.Applying? && w.phase.chunk != [] && ProgressInv(w, w.phase.op, c)
    ensures ProgressInv(Next(w, Apply), w.phase.op, c)
  {
    RecordProgress(w.ops[w.phase.op], w.phase.chunk, Done);
    RecordProgress(w.ops[w.phase.op], w.phase.chunk, Passed);
  }

  lemma ItemProgress(w: World, s: Step, c: nat)
    requires c > 0 && Inv(w) && (w.phase.Applying? || w.phase.Recording?) && ProgressInv(w, w.phase.op, c)
    ensures w.phase.op in ChunkStep(w, s).ops && ProgressInv(ChunkStep(w, s), w.phase.op, c)
  {
    if w.phase.Applying? && w.phase.chunk != [] && s.Apply? {
      ApplyProgress(w, c);
    } else if w.phase.Recording? {
      RecordProgress(w.ops[w.phase.op], w.phase.chunk, Broken);
    }
  }

  lemma StartProgress(op: Operation, c: nat)
    requires c > 0 && AllUntouched(op)
    ensures Waiting(op) == |op.items|
  {
    assert forall j :: j in op.items <==> j in InState(op.items, Untouched);
    assert InState(op.items, Untouched) == op.items.Keys;
    assert |op.items.Keys| == |op.items|;
  }

  lemma ScanProgress(w: World, s: Step, c: nat)
    requires c > 0 && Inv(w) && Scans(w.phase) && ProgressInv(w, w.phase.op, c)
    ensures w.phase.op in ScanStep(w, s).ops && ProgressInv(ScanStep(w, s), w.phase.op, c)
  {
    StartProgress(w.ops[w.phase.op], c);
  }

  lemma TailProgress(w: World, s: Step, c: nat)
    requires c > 0 && Inv(w) && (w.phase.Deciding? || w.phase.Skipping? || w.phase.Finalizing?)
    requires ProgressInv(w, w.phase.op, c)
    ensures w.phase.op in ChunkStep(w, s).ops && ProgressInv(ChunkStep(w, s), w.phase.op, c)
  {
  }

  lemma RunnerProgress(w: World, s: Step, c: nat)
    requires c > 0 && Inv(w) && !w.phase.Idle? && ProgressInv(w, w.phase.op, c) && UsesChunk(s, c)
    requires !FromOutside(s)
    ensures w.phase.op in Next(w, s).ops && ProgressInv(Next(w, s), w.phase.op, c)
  {
    if Scans(w.phase) {
      ScanProgress(w, s, c);
    } else if w.phase.Selecting? {
      if s.Select? {
        SelectProgress(w, s.chunk, c);
      }
    } else if w.phase.Applying? || w.phase.Recording? {
      ItemProgress(w, s, c);
    } else {
      TailProgress(w, s, c);
    }
  }

  lemma OtherProgress(w: World, s: Step, o: OpId, c: nat)
    requires c > 0 && Inv(w) && o in w.ops && ProgressInv(w, o, c) && !WorksOn(w, o) && !FromOutside(s)
    ensures o in Next(w, s).ops && ProgressInv(Next(w, s), o, c)
  {
    RunnerFrame(w, s, o);
  }

  lemma ClaimProgress(w: World, o: OpId, claimed: OpId, c: nat)
    requires c > 0 && Inv(w) && o in w.ops && ProgressInv(w, o, c)
    ensures o in Next(w, Claim(claimed)).ops && ProgressInv(Next(w, Claim(claimed)), o, c)
  {
  }

  lemma RequestProgress(w: World, s: Step, o: OpId, c: nat)
    requires c > 0 && Inv(w) && o in w.ops && ProgressInv(w, o, c)
    requires FromOutside(s) && !s.Claim?
    ensures o in Next(w, s).ops && ProgressInv(Next(w, s), o, c)
  {
  }

  lemma StepProgress(w: World, s: Step, o: OpId, c: nat)
    requires c > 0 && Inv(w) && o in w.ops && ProgressInv(w, o, c) && UsesChunk(s, c)
    ensures o in Next(w, s).ops && ProgressInv(Next(w, s), o, c)
  {
    if s.Claim? {
      ClaimProgress(w, o, s.id, c);
    } else if FromOutside(s) {
      RequestProgress(w, s, o, c);
    } else if WorksOn(w, o) {
      RunnerProgress(w, s, c);
    } else {
      OtherProgress(w, s, o, c);
    }
  }

  lemma NewProgress(w: World, s: Step, o: OpId, c: nat)
    requires c > 0 && PhaseInv(w) && o !in w.ops && o in Next(w, s).ops
    ensures ProgressInv(Next(w, s), o, c)
  {
    SubmittedNow(w, s, o);
  }

  lemma {:induction false} RunProgress(steps: seq<Step>, o: OpId, c: nat)
    requires c > 0 && o in RunFrom(Start, steps).ops && forall i :: 0 <= i < |steps| ==> UsesChunk(steps[i], c)
    ensures ProgressInv(RunFrom(Start, steps), o, c)
  {
    if steps != [] {
      var before, s := steps[..|steps|-1], steps[|steps|-1];
      RunInv(before);
      if o in RunFrom(Start, before).ops {
        RunProgress(before, o, c);
        StepProgress(RunFrom(Start, before), s, o, c);
      } else {
        NewProgress(RunFrom(Start, before), s, o, c);
      }
    }
  }

  /** Between runs: completed exactly after max(1, ceil(n/c)) claims, running before. */
  predicate OnSchedule(op: Operation, c: nat)
    requires c > 0
  {
    var runs := Max(1, (|op.items| + c - 1) / c);
    && op.claims <= runs
    && (op.state.Completed? <==> op.claims == runs)
    && (op.state.Running? <==> op.claims < runs)
  }

  lemma RestBound(op: Operation, c: nat)
    requires c > 0 && Rests(op, c) && op.claims > 0
    ensures OnSchedule(op, c)
  {
    ChunksIsCeiling(|op.items|, c);
    assert op.state.Completed? ==> op.claims == Chunks(|op.items|, c);
  }

  /** With chunks of `c`, no cancellation, no crash in a run of it and no lost item
      transaction, an operation
      between runs is completed exactly when it has been claimed max(1, ceil(n/c))
      times, counting the claim that scanned its `n` items, and has never been claimed
      more often. */
  lemma ProgressBound(steps: seq<Step>, o: OpId, c: nat)
    requires c > 0 && forall i :: 0 <= i < |steps| ==> UsesChunk(steps[i], c)
    requires o in RunFrom(Start, steps).ops && Undisturbed(steps, o)
    requires RunFrom(Start, steps).phase.Idle? && RunFrom(Start, steps).ops[o].claims > 0
    ensures OnSchedule(RunFrom(Start, steps).ops[o], c)
  {
    DisturbedMeans(steps, o);
    RunProgress(steps, o, c);
    RestBound(RunFrom(Start, steps).ops[o], c);
  }
}
