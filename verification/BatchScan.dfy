/** What the paged scan collects, over whole runs. */
module BatchScan {
  import opened Prelude
  import opened Jobs
  import opened BatchJobs
  import opened BatchRunner

  /** The world after the first `i` steps. */
  ghost function After(steps: seq<Step>, i: nat): World
    requires i <= |steps|
  {
    RunFrom(Start, steps[..i])
  }

  ghost predicate MatchedAt(steps: seq<Step>, o: OpId, j: JobId, i: nat) {
    && i <= |steps|
    && o in After(steps, i).ops
    && j in Matching(After(steps, i).ops[o].filter, After(steps, i).jobs)
  }

  lemma Earlier(steps: seq<Step>, o: OpId, j: JobId, i: nat)
    requires steps != [] && i < |steps|
    ensures MatchedAt(steps[..|steps|-1], o, j, i) <==> MatchedAt(steps, o, j, i)
  {
    assert steps[..|steps|-1][..i] == steps[..i];
  }

  lemma LastStep(steps: seq<Step>)
    requires steps != []
    ensures After(steps, |steps|) == RunFrom(Start, steps)
    ensures After(steps, |steps| - 1) == RunFrom(Start, steps[..|steps|-1])
    ensures RunFrom(Start, steps) == Next(RunFrom(Start, steps[..|steps|-1]), steps[|steps|-1])
  {
    assert steps[..|steps|] == steps;
  }

  // ---- Nothing but matching jobs ---------------------------------------------------------

  /** The jobs an operation holds, or is about to insert. */
  function Held(w: World, o: OpId): set<JobId>
    requires o in w.ops
  {
    w.ops[o].items.Keys + if w.phase.Inserting? && w.phase.op == o then set j | j in w.phase.page else {}
  }

  lemma ChunkHolds(w: World, s: Step, o: OpId)
    requires !w.phase.Idle? && !Scans(w.phase) && w.phase.op in w.ops && o in w.ops
    ensures o in ChunkStep(w, s).ops && Held(ChunkStep(w, s), o) <= Held(w, o)
  {
    ChunkFrame(w, s, o);
    ChunkKeepsItems(w, s);
  }

  lemma ScanHolds(w: World, s: Step, o: OpId)
    requires Scans(w.phase) && w.phase.op in w.ops && o in w.ops
    ensures o in ScanStep(w, s).ops && Held(ScanStep(w, s), o) <= Held(w, o) + Matching(w.ops[o].filter, w.jobs)
  {
    if w.phase.Paging? && s.LoadPage? {
      PageIs(Matching(w.ops[w.phase.op].filter, w.jobs), w.phase.scan.after, w.phase.scan.max, Max(1, s.limit));
    }
  }

  lemma RequestHolds(w: World, s: Step, o: OpId)
    requires PhaseInv(w) && FromOutside(s) && o in Next(w, s).ops
    ensures Held(Next(w, s), o) <= if o in w.ops then Held(w, o) else {}
  {
  }

  lemma NewlyHeld(w: World, s: Step, o: OpId)
    requires PhaseInv(w) && o in Next(w, s).ops
    ensures Held(Next(w, s), o) <= if o in w.ops then Held(w, o) + Matching(w.ops[o].filter, w.jobs) else {}
  {
    if FromOutside(s) {
      RequestHolds(w, s, o);
    } else if !w.phase.Idle? && o in w.ops {
      if Scans(w.phase) {
        ScanHolds(w, s, o);
      } else {
        ChunkHolds(w, s, o);
      }
    }
  }

  /** Every item matched its operation's filter at some moment of the run. */
  lemma {:induction false} ItemsMatched(steps: seq<Step>, o: OpId, j: JobId) returns (i: nat)
    requires o in RunFrom(Start, steps).ops && j in Held(RunFrom(Start, steps), o)
    ensures MatchedAt(steps, o, j, i)
  {
    LastStep(steps);
    var before := steps[..|steps|-1];
    RunInv(before);
    NewlyHeld(RunFrom(Start, before), steps[|steps|-1], o);
    if j in Held(RunFrom(Start, before), o) {
      i := ItemsMatched(before, o, j);
    } else {
      i := |before|;
      assert before[..i] == before;
      assert MatchedAt(before, o, j, i);
    }
    Earlier(steps, o, j, i);
  }

  /** The job had not started and met every condition the filter names, at this moment. */
  ghost predicate MetAt(steps: seq<Step>, o: OpId, j: JobId, i: nat) {
    && i <= |steps| && o in After(steps, i).ops && j in After(steps, i).jobs
    && var job := After(steps, i).jobs[j];
       (job.state.Available? || job.state.Scheduled?) && Meets(After(steps, i).ops[o].filter, j, job)
  }

  lemma MatchedIsMet(steps: seq<Step>, o: OpId, j: JobId, i: nat)
    ensures MatchedAt(steps, o, j, i) <==> MetAt(steps, o, j, i)
  {
    if i <= |steps| && o in After(steps, i).ops && j in After(steps, i).jobs {
      MatchesIff(After(steps, i).ops[o].filter, j, After(steps, i).jobs[j]);
    }
  }

  /** So a job outside a named state, kind, queue, tag, id or date bound is never an item. */
  lemma ItemsMet(steps: seq<Step>, o: OpId, j: JobId) returns (i: nat)
    requires o in RunFrom(Start, steps).ops && j in RunFrom(Start, steps).ops[o].items
    ensures MetAt(steps, o, j, i)
  {
    i := ItemsMatched(steps, o, j);
    MatchedIsMet(steps, o, j, i);
  }

  // ---- All jobs that matched throughout --------------------------------------------------

  /** A scan that has read its bound. */
  predicate Underway(p: Phase) {
    Scans(p) && !p.Bounding?
  }

  /** When the scan in progress read its bound: the number of steps up to then. */
  ghost function ScanStart(steps: seq<Step>): (k: nat)
    requires Underway(RunFrom(Start, steps).phase)
    ensures k <= |steps|
  {
    var before := steps[..|steps|-1];
    if Underway(RunFrom(Start, before).phase) then ScanStart(before) else |steps|
  }

  /** Within a scan, a step starts it with everything that matches or keeps its steady
      jobs. */
  lemma SteadyInScan(w: World, s: Step)
    requires PhaseInv(w) && Scans(w.phase) && Underway(ScanStep(w, s).phase)
    ensures var v := ScanStep(w, s);
            && v.phase.op == w.phase.op && v.phase.op in v.ops && w.ops[v.phase.op].filter == v.ops[v.phase.op].filter
            && v.jobs == w.jobs
            && v.phase.scan.steady == if Underway(w.phase) then w.phase.scan.steady
                                      else Matching(w.ops[w.phase.op].filter, w.jobs)
  {
  }

  lemma SteadyOutside(w: World, s: Step)
    requires PhaseInv(w) && FromOutside(s) && Underway(Next(w, s).phase)
    ensures var v := Next(w, s);
            && Underway(w.phase) && v.phase.op == w.phase.op
            && v.phase.op in v.ops && w.ops[v.phase.op].filter == v.ops[v.phase.op].filter
            && v.phase.scan.steady == w.phase.scan.steady * Matching(v.ops[v.phase.op].filter, v.jobs)
  {
  }

  /** A step either starts the scan, with everything that matches, or keeps those of
      its steady jobs that still match. */
  lemma SteadyStep(w: World, s: Step)
    requires PhaseInv(w) && Underway(Next(w, s).phase)
    ensures var v := Next(w, s);
            && v.phase.op in w.ops && v.phase.op in v.ops && w.ops[v.phase.op].filter == v.ops[v.phase.op].filter
            && var matching := Matching(v.ops[v.phase.op].filter, v.jobs);
               if Underway(w.phase)
               then v.phase.op == w.phase.op && v.phase.scan.steady == w.phase.scan.steady * matching
               else v.phase.scan.steady == matching
  {
    if FromOutside(s) {
      SteadyOutside(w, s);
    } else if !w.phase.Idle? {
      if Scans(w.phase) {
        SteadyInScan(w, s);
      } else {
        ChunkFrame(w, s, w.phase.op);
      }
    }
  }

  /** Matched at every moment from the `k`-th on. */
  ghost predicate Throughout(steps: seq<Step>, o: OpId, j: JobId, k: nat) {
    forall i: nat :: k <= i <= |steps| ==> MatchedAt(steps, o, j, i)
  }

  lemma ThroughoutLonger(steps: seq<Step>, o: OpId, j: JobId, k: nat)
    requires steps != [] && k <= |steps|
    ensures Throughout(steps, o, j, k) <==>
            ((k < |steps| ==> Throughout(steps[..|steps|-1], o, j, k)) && MatchedAt(steps, o, j, |steps|))
  {
    var before := steps[..|steps|-1];
    if Throughout(steps, o, j, k) {
      forall i: nat | k <= i <= |before| ensures MatchedAt(before, o, j, i) {
        Earlier(steps, o, j, i);
      }
    } else {
      var i: nat :| k <= i <= |steps| && !MatchedAt(steps, o, j, i);
      if i < |steps| {
        Earlier(steps, o, j, i);
      }
    }
  }

  /** The steady jobs are exactly those that matched throughout the scan so far. */
  lemma {:induction false} SteadyMeans(steps: seq<Step>, j: JobId)
    requires Underway(RunFrom(Start, steps).phase)
    ensures var p := RunFrom(Start, steps).phase;
            j in p.scan.steady <==> Throughout(steps, p.op, j, ScanStart(steps))
  {
    LastStep(steps);
    var before := steps[..|steps|-1];
    RunInv(before);
    SteadyStep(RunFrom(Start, before), steps[|steps|-1]);
    if Underway(RunFrom(Start, before).phase) {
      SteadyMeans(before, j);
    }
    ThroughoutLonger(steps, RunFrom(Start, steps).phase.op, j, ScanStart(steps));
  }

  predicate StartsNow(w: World, s: Step, o: OpId) {
    o in w.ops && !w.ops[o].state.Running? && o in Next(w, s).ops && Next(w, s).ops[o].state.Running?
  }

  lemma StartsRunning(w: World, s: Step, o: OpId)
    requires PhaseInv(w) && StartsNow(w, s, o)
    ensures w.phase.Starting? && w.phase.op == o && Next(w, s).ops[o].items == w.ops[o].items
  {
    if !FromOutside(s) && !WorksOn(w, o) {
      RunnerFrame(w, s, o);
    }
  }

  /** Completeness: when an operation starts running, its items include every job that
      matched throughout the scan that just finished, whatever came and went and
      whatever earlier scans were cut short. */
  lemma ScanComplete(steps: seq<Step>, s: Step, o: OpId, j: JobId)
    requires StartsNow(RunFrom(Start, steps), s, o)
    ensures Underway(RunFrom(Start, steps).phase)
    ensures Throughout(steps, o, j, ScanStart(steps)) ==> j in Next(RunFrom(Start, steps), s).ops[o].items
  {
    RunInv(steps);
    StartsRunning(RunFrom(Start, steps), s, o);
    SteadyMeans(steps, j);
  }

  /** The same from the rows: a job that had not started and met every named condition from
      the moment the bound was read is an item. */
  lemma ScanHoldsMet(steps: seq<Step>, s: Step, o: OpId, j: JobId)
    requires StartsNow(RunFrom(Start, steps), s, o) && Underway(RunFrom(Start, steps).phase)
    requires forall i: nat :: ScanStart(steps) <= i <= |steps| ==> MetAt(steps, o, j, i)
    ensures j in Next(RunFrom(Start, steps), s).ops[o].items
  {
    forall i: nat | ScanStart(steps) <= i <= |steps| ensures MatchedAt(steps, o, j, i) {
      MatchedIsMet(steps, o, j, i);
    }
    ScanComplete(steps, s, o, j);
  }

  // ---- A match set that does not change ----------------------------------------------------

  /** At every moment at which the operation exists, exactly `m` matches. */
  ghost predicate Static(steps: seq<Step>, o: OpId, m: set<JobId>) {
    forall i: nat :: i <= |steps| && o in After(steps, i).ops ==>
      Matching(After(steps, i).ops[o].filter, After(steps, i).jobs) == m
  }

  ghost predicate StaticInv(w: World, o: OpId, m: set<JobId>)
    requires o in w.ops
  {
    && (w.ops[o].totalMatched.Some? ==> m <= w.ops[o].items.Keys && w.ops[o].totalMatched.value == |m|)
    && (Underway(w.phase) && w.phase.op == o ==>
          && w.phase.scan.steady == m
          && w.phase.scan.max == MaxMatching(m)
          && (!w.phase.Counting? ==> w.phase.scan.total == |m|))
  }

  lemma WholeWindow(m: set<JobId>)
    requires forall j :: j in m ==> 0 < j
    ensures Window(m, 0, MaxMatching(m)) == m && (MaxMatching(m) == 0 ==> m == {})
  {
    if m != {} {
      assert MaxOf(m) in m;
    }
  }

  lemma StaticScanStep(w: World, s: Step, o: OpId, m: set<JobId>)
    requires Inv(w) && Scans(w.phase) && o in w.ops && StaticInv(w, o, m) && Matching(w.ops[o].filter, w.jobs) == m
    ensures o in ScanStep(w, s).ops && StaticInv(ScanStep(w, s), o, m)
  {
    assert forall j :: j in m ==> 0 < j;
    WholeWindow(m);
  }

  lemma StaticChunkStep(w: World, s: Step, o: OpId, m: set<JobId>)
    requires Inv(w) && !w.phase.Idle? && !Scans(w.phase) && o in w.ops && StaticInv(w, o, m)
    ensures o in ChunkStep(w, s).ops && StaticInv(ChunkStep(w, s), o, m)
  {
    ChunkFrame(w, s, o);
    ChunkKeepsItems(w, s);
  }

  lemma StaticEnvironment(w: World, s: Step, o: OpId, m: set<JobId>)
    requires Inv(w) && s.Environment? && o in w.ops && StaticInv(w, o, m)
    requires o in Next(w, s).ops && Matching(Next(w, s).ops[o].filter, Next(w, s).jobs) == m
    ensures StaticInv(Next(w, s), o, m)
  {
  }

  lemma StaticRequest(w: World, s: Step, o: OpId, m: set<JobId>)
    requires Inv(w) && FromOutside(s) && !s.Environment? && o in w.ops && StaticInv(w, o, m)
    requires o in Next(w, s).ops
    ensures StaticInv(Next(w, s), o, m)
  {
  }

  lemma StaticStep(w: World, s: Step, o: OpId, m: set<JobId>)
    requires Inv(w) && o in w.ops && StaticInv(w, o, m) && Matching(w.ops[o].filter, w.jobs) == m
    requires o in Next(w, s).ops && Matching(Next(w, s).ops[o].filter, Next(w, s).jobs) == m
    ensures StaticInv(Next(w, s), o, m)
  {
    if s.Environment? {
      StaticEnvironment(w, s, o, m);
    } else if FromOutside(s) {
      StaticRequest(w, s, o, m);
    } else if !w.phase.Idle? {
      if Scans(w.phase) {
        StaticScanStep(w, s, o, m);
      } else {
        StaticChunkStep(w, s, o, m);
      }
    }
  }

  lemma StaticNew(w: World, s: Step, o: OpId, m: set<JobId>)
    requires PhaseInv(w) && o !in w.ops && o in Next(w, s).ops
    ensures StaticInv(Next(w, s), o, m)
  {
    SubmittedNow(w, s, o);
  }

  lemma {:induction false} StaticRun(steps: seq<Step>, o: OpId, m: set<JobId>)
    requires Static(steps, o, m) && o in RunFrom(Start, steps).ops
    ensures StaticInv(RunFrom(Start, steps), o, m)
  {
    LastStep(steps);
    var before := steps[..|steps|-1];
    RunInv(before);
    forall i: nat | i < |steps| ensures After(before, i) == After(steps, i) {
      assert before[..i] == steps[..i];
    }
    if o in RunFrom(Start, before).ops {
      StaticRun(before, o, m);
      StaticStep(RunFrom(Start, before), steps[|steps|-1], o, m);
    } else {
      StaticNew(RunFrom(Start, before), steps[|steps|-1], o, m);
    }
  }

  /** Over an unchanging match set, with any page sizes and any number of crashes and
      rescans, the scan that finishes has collected exactly the matching jobs, and
      `total_matched` counts them. */
  lemma StaticScan(steps: seq<Step>, o: OpId, m: set<JobId>)
    requires Static(steps, o, m) && o in RunFrom(Start, steps).ops && RunFrom(Start, steps).ops[o].totalMatched.Some?
    ensures RunFrom(Start, steps).ops[o].items.Keys == m
    ensures RunFrom(Start, steps).ops[o].totalMatched == Some(|m|)
  {
    StaticRun(steps, o, m);
    forall j | j in RunFrom(Start, steps).ops[o].items ensures j in m {
      var i := ItemsMatched(steps, o, j);
      assert o in After(steps, i).ops;
    }
  }
}
