/** What an operation keeps from its submission, what disturbs it, and what a cancellation
    request brings about, over whole runs. */
module BatchCancel {
  import opened Prelude
  import opened Jobs
  import opened BatchJobs
  import opened BatchRunner

  // ---- Submission -------------------------------------------------------------------------

  lemma ScanKeepsRequest(w: World, s: Step)
    requires Scans(w.phase) && w.phase.op in w.ops
    ensures var v, o := ScanStep(w, s), w.phase.op;
            && o in v.ops && v.ops[o].spec == w.ops[o].spec && v.ops[o].filter == w.ops[o].filter
            && v.ops[o].submittedAt == w.ops[o].submittedAt
  {
  }

  lemma ChunkKeepsRequest(w: World, s: Step)
    requires !w.phase.Idle? && !Scans(w.phase) && w.phase.op in w.ops
    ensures var v, o := ChunkStep(w, s), w.phase.op;
            && o in v.ops && v.ops[o].spec == w.ops[o].spec && v.ops[o].filter == w.ops[o].filter
            && v.ops[o].submittedAt == w.ops[o].submittedAt
  {
  }

  /** No step changes what an operation was asked to do. */
  lemma RequestKept(w: World, s: Step, o: OpId)
    requires PhaseInv(w) && o in w.ops
    ensures var v := Next(w, s);
            && o in v.ops && v.ops[o].spec == w.ops[o].spec && v.ops[o].filter == w.ops[o].filter
            && v.ops[o].submittedAt == w.ops[o].submittedAt
  {
    if !FromOutside(s) {
      if !WorksOn(w, o) {
        RunnerFrame(w, s, o);
      } else if Scans(w.phase) {
        ScanKeepsRequest(w, s);
      } else {
        ChunkKeepsRequest(w, s);
      }
    }
  }

  /** The step submitted the operation as it stands, and passed every check. */
  predicate Submits(s: Step, o: OpId, op: Operation) {
    && s.Submit? && s.id == o && Acceptable(s.spec, s.filter, s.allowAll)
    && s.spec == op.spec && s.filter == op.filter && s.at == op.submittedAt
  }

  /** Every operation is what some accepted submission asked for. */
  lemma {:induction false} SubmittedAs(steps: seq<Step>, o: OpId) returns (i: nat)
    requires o in RunFrom(Start, steps).ops
    ensures i < |steps| && Submits(steps[i], o, RunFrom(Start, steps).ops[o])
  {
    var before, s := steps[..|steps|-1], steps[|steps|-1];
    RunInv(before);
    if o in RunFrom(Start, before).ops {
      i := SubmittedAs(before, o);
      RequestKept(RunFrom(Start, before), s, o);
    } else {
      i := |steps| - 1;
      SubmittedNow(RunFrom(Start, before), s, o);
    }
  }

  /** An accepted submission is pending and untouched, and no other operation changes. */
  lemma SubmitMeans(w: World, s: Step)
    requires s.Submit? && s.id !in w.ops
    ensures var v := Next(w, s);
            && (s.id in v.ops <==> Acceptable(s.spec, s.filter, s.allowAll))
            && v.ops - {s.id} == w.ops && v.jobs == w.jobs && v.phase == w.phase
            && (s.id in v.ops ==>
                  && Submits(s, s.id, v.ops[s.id]) && v.ops[s.id].state.Pending?
                  && v.ops[s.id].items == map[] && v.ops[s.id].applied == [])
  {
  }

  // ---- Disturbance ----------------------------------------------------------------------------

  /** The step cuts a run of `o` short, loses one of its transactions, or asks it to stop. */
  predicate Disturbs(w: World, s: Step, o: OpId) {
    && o in w.ops
    && ((s.Cancel? && s.id == o && (w.ops[o].state.Pending? || w.ops[o].state.Scanning? || w.ops[o].state.Running?))
        || (WorksOn(w, o) && (s.Crash?
                              || (s.ApplyLost? && w.phase.Applying? && w.phase.chunk != [])
                              || (s.RecordLost? && w.phase.Recording? && w.phase.chunk != []))))
  }

  lemma DisturbedOutside(w: World, s: Step, o: OpId)
    requires PhaseInv(w) && o in w.ops && FromOutside(s)
    ensures o in Next(w, s).ops && (Next(w, s).ops[o].disturbed <==> w.ops[o].disturbed || Disturbs(w, s, o))
  {
  }

  lemma DisturbedInScan(w: World, s: Step)
    requires PhaseInv(w) && Scans(w.phase)
    ensures var v, o := ScanStep(w, s), w.phase.op;
            o in v.ops && v.ops[o].disturbed == w.ops[o].disturbed
  {
  }

  lemma DisturbedInChunk(w: World, s: Step)
    requires PhaseInv(w) && !w.phase.Idle? && !Scans(w.phase) && !FromOutside(s)
    ensures var v, o := ChunkStep(w, s), w.phase.op;
            o in v.ops && (v.ops[o].disturbed <==> w.ops[o].disturbed || Disturbs(w, s, o))
  {
  }

  lemma DisturbedStep(w: World, s: Step, o: OpId)
    requires PhaseInv(w) && o in w.ops
    ensures o in Next(w, s).ops && (Next(w, s).ops[o].disturbed <==> w.ops[o].disturbed || Disturbs(w, s, o))
  {
    if FromOutside(s) {
      DisturbedOutside(w, s, o);
    } else if !WorksOn(w, o) {
      RunnerFrame(w, s, o);
    } else if Scans(w.phase) {
      DisturbedInScan(w, s);
    } else {
      DisturbedInChunk(w, s);
    }
  }

  ghost predicate DisturbedAt(steps: seq<Step>, o: OpId, i: nat) {
    i < |steps| && Disturbs(RunFrom(Start, steps[..i]), steps[i], o)
  }

  ghost predicate Undisturbed(steps: seq<Step>, o: OpId) {
    forall i: nat :: !DisturbedAt(steps, o, i)
  }

  lemma SameDisturbance(steps: seq<Step>, o: OpId, i: nat)
    requires steps != [] && i < |steps| - 1
    ensures DisturbedAt(steps[..|steps|-1], o, i) <==> DisturbedAt(steps, o, i)
  {
    assert steps[..|steps|-1][..i] == steps[..i];
  }

  /** The flag says exactly whether any step of the run disturbed the operation. */
  lemma {:induction false} DisturbedMeans(steps: seq<Step>, o: OpId)
    requires o in RunFrom(Start, steps).ops
    ensures RunFrom(Start, steps).ops[o].disturbed <==> !Undisturbed(steps, o)
  {
    var before, s := steps[..|steps|-1], steps[|steps|-1];
    RunInv(before);
    UndisturbedLonger(steps, o);
    if o in RunFrom(Start, before).ops {
      DisturbedMeans(before, o);
      DisturbedStep(RunFrom(Start, before), s, o);
    } else {
      SubmittedNow(RunFrom(Start, before), s, o);
      NotYetDisturbed(before, o);
    }
  }

  lemma UndisturbedLonger(steps: seq<Step>, o: OpId)
    requires steps != []
    ensures Undisturbed(steps, o) <==>
              Undisturbed(steps[..|steps|-1], o) && !DisturbedAt(steps, o, |steps| - 1)
  {
    var before := steps[..|steps|-1];
    forall i: nat | i != |before| ensures DisturbedAt(before, o, i) <==> DisturbedAt(steps, o, i) {
      if i < |before| {
        SameDisturbance(steps, o, i);
      }
    }
  }

  /** Operations are never deleted, so one that is not there never was. */
  lemma {:induction false} NotYetDisturbed(steps: seq<Step>, o: OpId)
    requires o !in RunFrom(Start, steps).ops
    ensures Undisturbed(steps, o)
  {
    if steps != [] {
      var before, s := steps[..|steps|-1], steps[|steps|-1];
      RunInv(before);
      if o in RunFrom(Start, before).ops {
        RequestKept(RunFrom(Start, before), s, o);
      }
      NotYetDisturbed(before, o);
      UndisturbedLonger(steps, o);
    }
  }

  // ---- Cancellation -----------------------------------------------------------------------------

  predicate Stopping(st: OpState) {
    st.Cancelling? || st.Completed? || st.Cancelled?
  }

  /** A request reaches every operation that is not finished and changes nothing of it but
      its state. */
  lemma CancelTakes(w: World, o: OpId)
    requires o in w.ops
    ensures var v := Next(w, Cancel(o));
            && o in v.ops && Stopping(v.ops[o].state)
            && v.ops[o] == w.ops[o].(state := v.ops[o].state, disturbed := v.ops[o].disturbed)
            && (Stopping(w.ops[o].state) ==> v == w)
            && (!Stopping(w.ops[o].state) ==> v.ops[o].state.Cancelling?)
            && v.ops - {o} == w.ops - {o} && v.jobs == w.jobs && v.phase == w.phase
  {
    assert w.ops[o := w.ops[o]] == w.ops;
  }

  lemma StoppingOutside(w: World, s: Step, o: OpId)
    requires PhaseInv(w) && FromOutside(s) && o in w.ops && Stopping(w.ops[o].state)
    ensures o in Next(w, s).ops && Stopping(Next(w, s).ops[o].state)
  {
  }

  lemma StoppingHere(w: World, s: Step)
    requires PhaseInv(w) && !w.phase.Idle? && Stopping(w.ops[w.phase.op].state)
    ensures var v, o := if Scans(w.phase) then ScanStep(w, s) else ChunkStep(w, s), w.phase.op;
            o in v.ops && Stopping(v.ops[o].state)
  {
  }

  lemma StoppingStep(w: World, s: Step, o: OpId)
    requires PhaseInv(w) && o in w.ops && Stopping(w.ops[o].state)
    ensures o in Next(w, s).ops && Stopping(Next(w, s).ops[o].state)
  {
    if FromOutside(s) {
      StoppingOutside(w, s, o);
    } else if !WorksOn(w, o) {
      RunnerFrame(w, s, o);
    } else {
      StoppingHere(w, s);
    }
  }

  /** From then on it is cancelling or finished, whatever happens. */
  lemma {:induction false} StaysStopping(w: World, steps: seq<Step>, o: OpId)
    requires Inv(w) && o in w.ops && Stopping(w.ops[o].state)
    ensures var v := RunFrom(w, steps);
            Inv(v) && o in v.ops && Stopping(v.ops[o].state)
  {
    if steps != [] {
      var before, s := steps[..|steps|-1], steps[|steps|-1];
      StaysStopping(w, before, o);
      StepInv(RunFrom(w, before), s);
      StoppingStep(RunFrom(w, before), s, o);
    }
  }

  /** The step inserts a page of items into `o`. */
  predicate InsertsNow(w: World, s: Step, o: OpId) {
    s.InsertPage? && w.phase.Inserting? && w.phase.op == o && o in w.ops
  }

  /** Pages the scan in progress may still insert once it was told to stop. */
  function PagesLeft(w: World, o: OpId): nat {
    if WorksOn(w, o) && (w.phase.Bounding? || w.phase.Counting? || w.phase.Paging? || w.phase.Inserting?) then 1 else 0
  }

  lemma PagesLeftOutside(w: World, s: Step, o: OpId)
    requires PhaseInv(w) && FromOutside(s) && o in w.ops && Stopping(w.ops[o].state)
    ensures PagesLeft(Next(w, s), o) <= PagesLeft(w, o)
  {
  }

  lemma PagesLeftInScan(w: World, s: Step)
    requires PhaseInv(w) && Scans(w.phase) && Stopping(w.ops[w.phase.op].state)
    ensures var o := w.phase.op;
            (if InsertsNow(w, s, o) then 1 else 0) + PagesLeft(ScanStep(w, s), o) <= PagesLeft(w, o)
  {
  }

  lemma PagesLeftStep(w: World, s: Step, o: OpId)
    requires PhaseInv(w) && o in w.ops && Stopping(w.ops[o].state)
    ensures (if InsertsNow(w, s, o) then 1 else 0) + PagesLeft(Next(w, s), o) <= PagesLeft(w, o)
  {
    if FromOutside(s) {
      PagesLeftOutside(w, s, o);
    } else if !WorksOn(w, o) {
      RunnerFrame(w, s, o);
    } else if Scans(w.phase) {
      PagesLeftInScan(w, s);
    } else {
      ChunkFrame(w, s, o);
    }
  }

  /** How many pages the run inserts into `o`. */
  ghost function Inserts(w: World, steps: seq<Step>, o: OpId): nat {
    if steps == [] then 0
    else
      var before, s := steps[..|steps|-1], steps[|steps|-1];
      Inserts(w, before, o) + if InsertsNow(RunFrom(w, before), s, o) then 1 else 0
  }

  /** A scan that was asked to stop inserts at most the page it is about, whatever follows. */
  lemma {:induction false} OneMorePage(w: World, steps: seq<Step>, o: OpId)
    requires Inv(w) && o in w.ops && Stopping(w.ops[o].state)
    ensures Inserts(w, steps, o) + PagesLeft(RunFrom(w, steps), o) <= PagesLeft(w, o) <= 1
  {
    if steps != [] {
      var before, s := steps[..|steps|-1], steps[|steps|-1];
      OneMorePage(w, before, o);
      StaysStopping(w, before, o);
      PagesLeftStep(RunFrom(w, before), s, o);
    }
  }

  /** The items as cancellation leaves them: what was pending is skipped. */
  function AllSkipped(items: map<JobId, ItemState>): map<JobId, ItemState> {
    map j | j in items :: if items[j].Untouched? then Passed else items[j]
  }

  /** Where a cancelled operation stands that had the items and mutations of `op` when no
      run was working on it. */
  predicate WindsDown(w: World, o: OpId, op: Operation)
    requires o in w.ops
  {
    && w.ops[o].applied == op.applied
    && (w.ops[o].items == op.items || w.ops[o].items == AllSkipped(op.items))
    && match w.ops[o].state
       case Cancelling =>
         !WorksOn(w, o) || w.phase.Skipping?
         || (w.phase == Finalizing(o, OpState.Cancelled) && w.ops[o].items == AllSkipped(op.items))
       case Cancelled => !WorksOn(w, o) && w.ops[o].items == AllSkipped(op.items)
       case _ => false
  }

  lemma SkippingOnce(op: Operation)
    ensures SkipPending(op).items == AllSkipped(op.items)
    ensures AllSkipped(AllSkipped(op.items)) == AllSkipped(op.items)
  {
  }

  lemma WindsDownOutside(w: World, s: Step, o: OpId, op: Operation)
    requires PhaseInv(w) && FromOutside(s) && o in w.ops && WindsDown(w, o, op)
    ensures o in Next(w, s).ops && WindsDown(Next(w, s), o, op)
  {
  }

  lemma WindsDownHere(w: World, s: Step, o: OpId, op: Operation)
    requires WorksOn(w, o) && o in w.ops && WindsDown(w, o, op)
    ensures o in ChunkStep(w, s).ops && WindsDown(ChunkStep(w, s), o, op)
  {
    SkippingOnce(w.ops[o]);
    SkippingOnce(op);
  }

  lemma WindsDownStep(w: World, s: Step, o: OpId, op: Operation)
    requires PhaseInv(w) && o in w.ops && WindsDown(w, o, op)
    ensures o in Next(w, s).ops && WindsDown(Next(w, s), o, op)
  {
    if FromOutside(s) {
      WindsDownOutside(w, s, o, op);
    } else if !WorksOn(w, o) {
      RunnerFrame(w, s, o);
    } else {
      WindsDownHere(w, s, o, op);
    }
  }

  /** Once an operation is cancelling and the run that was working on it, if any, is over,
      no mutation of it ever commits again. It does not complete: it is cancelling, or
      cancelled with every pending item skipped and every other item as it was. */
  lemma {:induction false} CancelledCleanly(w: World, steps: seq<Step>, o: OpId)
    requires Inv(w) && o in w.ops && w.ops[o].state.Cancelling? && !WorksOn(w, o)
    ensures var v := RunFrom(w, steps);
            && Inv(v) && o in v.ops && WindsDown(v, o, w.ops[o])
            && v.ops[o].applied == w.ops[o].applied
            && (v.ops[o].state.Cancelling? || v.ops[o].state.Cancelled?)
            && (v.ops[o].state.Cancelled? ==> v.ops[o].items == AllSkipped(w.ops[o].items))
  {
    if steps != [] {
      var before, s := steps[..|steps|-1], steps[|steps|-1];
      CancelledCleanly(w, before, o);
      StepInv(RunFrom(w, before), s);
      WindsDownStep(RunFrom(w, before), s, o, w.ops[o]);
    }
  }

  lemma RunLonger(w: World, steps: seq<Step>, s: Step)
    ensures RunFrom(w, steps + [s]) == Next(RunFrom(w, steps), s)
  {
    assert (steps + [s])[..|steps + [s]| - 1] == steps;
  }

  lemma ThreeSteps(w: World, a: Step, b: Step, c: Step)
    ensures RunFrom(w, [a, b, c]) == Next(Next(Next(w, a), b), c)
  {
    RunLonger(w, [], a);
    RunLonger(w, [a], b);
    RunLonger(w, [a, b], c);
    assert [] + [a] == [a] && [a] + [b] == [a, b] && [a, b] + [c] == [a, b, c];
  }

  lemma ClaimToSkip(w: World, o: OpId)
    requires w.phase.Idle? && o in w.ops && w.ops[o].state.Cancelling?
    ensures var v := Next(w, Claim(o));
            && v.phase == Skipping(o) && v.jobs == w.jobs && o in v.ops && v.ops[o].state.Cancelling?
            && v.ops[o].items == w.ops[o].items && v.ops[o].applied == w.ops[o].applied
  {
  }

  lemma SkipToFinish(w: World, o: OpId)
    requires w.phase == Skipping(o) && o in w.ops
    ensures var v := Next(Next(w, SkipAll), Finalize);
            && v.phase.Idle? && v.jobs == w.jobs && o in v.ops && v.ops[o].state.Cancelled?
            && v.ops[o].items == AllSkipped(w.ops[o].items) && v.ops[o].applied == w.ops[o].applied
  {
    SkippingOnce(w.ops[o]);
    assert Next(w, SkipAll) == With(w, o, SkipPending(w.ops[o]), Finalizing(o, OpState.Cancelled));
  }

  /** And the next run of it that is not cut short ends it. */
  lemma CancelFinishes(w: World, o: OpId)
    requires Inv(w) && w.phase.Idle? && o in w.ops && w.ops[o].state.Cancelling?
    ensures var v := RunFrom(w, [Claim(o), SkipAll, Finalize]);
            && v.phase.Idle? && v.jobs == w.jobs && o in v.ops && v.ops[o].state.Cancelled?
            && v.ops[o].items == AllSkipped(w.ops[o].items) && v.ops[o].applied == w.ops[o].applied
  {
    ThreeSteps(w, Claim(o), SkipAll, Finalize);
    ClaimToSkip(w, o);
    SkipToFinish(Next(w, Claim(o)), o);
  }
}
