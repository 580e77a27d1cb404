/** Exactly when fires stay in order: across a restore, and across deleting a schedule
    and creating it again. */
module CronFiringExact {
  import opened Prelude
  import opened CronManifest
  import opened CronTables
  import opened CronEvaluation
  import opened CronCertificate
  import opened CronFiring
  import D = DueFire

  // ---- Single steps in a run ---------------------------------------------------------------

  lemma RunStep(steps: seq<WorldStep>, inclusive: bool, s: WorldStep)
    requires Enabled(Run(steps, inclusive), s)
    ensures Run(steps + [s], inclusive) == NextWorld(Run(steps, inclusive), s)
  {
    assert (steps + [s])[..|steps + [s]| - 1] == steps;
  }

  lemma {:induction false} RunInclusive(steps: seq<WorldStep>, inclusive: bool)
    ensures Run(steps, inclusive).inclusive == inclusive
  {
    if steps != [] {
      var w, s := Run(steps[..|steps|-1], inclusive), steps[|steps|-1];
      RunInclusive(steps[..|steps|-1], inclusive);
      if Enabled(w, s) {
        StepInclusive(w, s);
      }
    }
  }

  lemma StepInclusive(w: World, s: WorldStep)
    requires Inv(w.tables) && Enabled(w, s)
    ensures NextWorld(w, s).inclusive == w.inclusive
  {
  }

  /** The two steps of a pass that commits one fire. */
  function Pass(l: int, n: Name, x: Time, now: Time): seq<WorldStep> {
    [Read(l, n, x, [x], now), Fire(l, now)]
  }

  /** From `w` to `v` exactly the fire `x` of `n` committed. */
  ghost predicate Committed(w: World, v: World, n: Name, x: Time) {
    && n in w.tables.schedules && Active(v, n)
    && v.log == w.log + [Firing(n, Generation(w, n), x)]
    && v.clock == w.clock && v.generations == w.generations
    && v.tables.schedules[n] == w.tables.schedules[n].(lastEnqueuedAt := Some(x))
  }

  lemma SwapCommits(w: World, l: int)
    requires Inv(w.tables) && Wins(w, l)
    ensures Committed(w, NextWorld(w, Fire(l, w.clock)), w.leaders[l].name, w.leaders[l].pending[0])
  {
    FireForm(w, l, w.clock);
  }

  lemma ReadThenWins(w: World, l: int, n: Name, x: Time)
    requires Inv(w.tables) && Active(w, n)
    requires var row := w.tables.schedules[n];
             D.MayEnqueue([x], row.createdAt, row.lastEnqueuedAt, x, w.inclusive)
    ensures var read := Read(l, n, x, [x], w.clock);
            && Enabled(w, read)
            && var r := NextWorld(w, read);
               && r == w.(leaders := w.leaders[l := Cursor(n, w.tables.schedules[n].lastEnqueuedAt, [x])])
               && Wins(r, l)
  {
  }

  /** A pass over an active row, by a leader whose clock says `x`, commits `x`. */
  lemma PassCommits(steps: seq<WorldStep>, inclusive: bool, l: int, n: Name, x: Time)
    requires Active(Run(steps, inclusive), n)
    requires var row := Run(steps, inclusive).tables.schedules[n];
             D.MayEnqueue([x], row.createdAt, row.lastEnqueuedAt, x, inclusive)
    ensures var w := Run(steps, inclusive);
            Committed(w, Run(steps + Pass(l, n, x, w.clock), inclusive), n, x)
  {
    var w := Run(steps, inclusive);
    var read := Read(l, n, x, [x], w.clock);
    RunInclusive(steps, inclusive);
    ReadThenWins(w, l, n, x);
    RunStep(steps, inclusive, read);
    var r := Run(steps + [read], inclusive);
    SwapCommits(r, l);
    RunStep(steps + [read], inclusive, Fire(l, w.clock));
    assert steps + [read] + [Fire(l, w.clock)] == steps + Pass(l, n, x, w.clock);
    SameCommit(w, r, Run(steps + Pass(l, n, x, w.clock), inclusive), n, x);
  }

  lemma SameCommit(w: World, r: World, v: World, n: Name, x: Time)
    requires r == w.(leaders := r.leaders) && Committed(r, v, n, x)
    ensures Committed(w, v, n, x)
  {
  }

  // ---- Across a restore ----------------------------------------------------------------------

  function RestoreStep(n: Name, actor: string, now: Time): WorldStep {
    Protocol(OperatorAction(Restore(n), actor, now))
  }

  /** Whatever follows, as long as its own restores are in time, the log stays in order. */
  ghost predicate KeepsOrder(prefix: seq<WorldStep>, more: seq<WorldStep>, inclusive: bool) {
    RestoresInTime(prefix + more, inclusive, |prefix|) ==> InOrder(Run(prefix + more, inclusive).log)
  }

  lemma RestoreRevives(w: World, n: Name, actor: string, now: Time)
    requires Inv(w.tables) && w.clock <= now && !Blank(actor)
    requires n in w.tables.schedules && w.tables.schedules[n].retirement.Some?
    ensures var s := RestoreStep(n, actor, now);
            var v := NextWorld(w, s);
            && RevivedBy(w, s) == {n}
            && n in v.tables.schedules && v.tables.schedules[n].retirement.None?
            && v.tables.schedules[n].lastEnqueuedAt == Some(now)
            && v.log == w.log && v.generations == w.generations && v.clock == now
  {
    OperatedRowIs(w.tables, Restore(n), actor, now, n);
  }

  lemma ResumeActivates(w: World, n: Name, now: Time)
    requires Inv(w.tables) && w.clock <= now
    requires n in w.tables.schedules && w.tables.schedules[n].retirement.None?
    ensures var v := NextWorld(w, ResumeSchedule(n, now));
            && Active(v, n) && v.tables.schedules[n].lastEnqueuedAt == w.tables.schedules[n].lastEnqueuedAt
            && v.tables.schedules[n].createdAt == w.tables.schedules[n].createdAt
            && v.log == w.log && v.generations == w.generations && v.clock == now
  {
  }

  lemma RestoreKeepsOrder(steps: seq<WorldStep>, inclusive: bool, s: WorldStep, more: seq<WorldStep>)
    requires RestoresInTime(steps, inclusive, 0)
    requires Enabled(Run(steps, inclusive), s) && RestoreInTime(Run(steps, inclusive), s)
    ensures KeepsOrder(steps + [s], more, inclusive)
  {
    var w, prefix := Run(steps, inclusive), steps + [s];
    assert Run(steps[..0], inclusive) == NoWorld(inclusive);
    RunOrder(steps, inclusive, 0);
    RunSafe(steps, inclusive);
    RunStep(steps, inclusive, s);
    WorldStepOrder(w, s);
    if RestoresInTime(prefix + more, inclusive, |prefix|) {
      assert (prefix + more)[..|prefix|] == prefix;
      RunOrder(prefix + more, inclusive, |prefix|);
    }
  }

  /** What commits the last fire again after a late restore. */
  function Again(n: Name, x: Time, now: Time): seq<WorldStep> {
    [ResumeSchedule(n, now)] + Pass(1, n, x, now)
  }

  lemma AgainCommits(prefix: seq<WorldStep>, inclusive: bool, n: Name, x: Time)
    requires var v := Run(prefix, inclusive);
             && n in v.tables.schedules && v.tables.schedules[n].retirement.None?
             && v.tables.schedules[n].lastEnqueuedAt == Some(v.clock)
             && v.clock < x && x % D.SECOND == 0
    ensures var v := Run(prefix, inclusive);
            Run(prefix + Again(n, x, v.clock), inclusive).log == v.log + [Firing(n, Generation(v, n), x)]
  {
    var v := Run(prefix, inclusive);
    var resume := ResumeSchedule(n, v.clock);
    ResumeActivates(v, n, v.clock);
    RunStep(prefix, inclusive, resume);
    LaterMayFire(Run(prefix + [resume], inclusive).tables.schedules[n].createdAt, v.clock, x, inclusive);
    PassCommits(prefix + [resume], inclusive, 1, n, x);
    assert prefix + [resume] + Pass(1, n, x, v.clock) == prefix + Again(n, x, v.clock);
  }

  lemma LaterMayFire(createdAt: Time, last: Time, x: Time, inclusive: bool)
    requires last < x && x % D.SECOND == 0
    ensures D.MayEnqueue([x], createdAt, Some(last), x, inclusive)
  {
  }

  lemma FirstMayFire(createdAt: Time, x: Time, inclusive: bool)
    requires D.AtOrAfter(x, createdAt - D.MINUTE, inclusive) && x % D.SECOND == 0
    ensures D.MayEnqueue([x], createdAt, None, x, inclusive)
  {
  }

  lemma NoRestoresInTime(prefix: seq<WorldStep>, more: seq<WorldStep>, inclusive: bool)
    requires forall i :: 0 <= i < |more| ==> !more[i].Protocol?
    ensures RestoresInTime(prefix + more, inclusive, |prefix|)
  {
  }

  lemma RepeatBreaksOrder(log: seq<Firing>, f: Firing)
    requires f in log
    ensures !InOrder(log + [f])
  {
    var k :| 0 <= k < |log| && log[k] == f;
    var longer := log + [f];
    assert longer[k] == f && longer[|log|] == f;
  }

  /** A last fire ahead of the clock is a logged one. */
  lemma AheadIsLogged(steps: seq<WorldStep>, inclusive: bool, n: Name)
    requires var w := Run(steps, inclusive);
             && n in w.tables.schedules && w.tables.schedules[n].lastEnqueuedAt.Some?
             && w.clock < w.tables.schedules[n].lastEnqueuedAt.value
    ensures var w := Run(steps, inclusive);
            var x := w.tables.schedules[n].lastEnqueuedAt.value;
            Firing(n, Generation(w, n), x) in w.log && x % D.SECOND == 0
  {
    RunSafe(steps, inclusive);
    var w := Run(steps, inclusive);
    assert LastKnown(w, n);
    var k :| 0 <= k < |w.log| && w.log[k] == Firing(n, Generation(w, n), w.tables.schedules[n].lastEnqueuedAt.value);
  }

  /** The run that ends in a restore. */
  lemma RestoredRun(steps: seq<WorldStep>, inclusive: bool, n: Name, actor: string, now: Time)
    requires var w := Run(steps, inclusive);
             && n in w.tables.schedules && w.tables.schedules[n].retirement.Some?
             && w.clock <= now && !Blank(actor)
    ensures var w := Run(steps, inclusive);
            var v := Run(steps + [RestoreStep(n, actor, now)], inclusive);
            && n in v.tables.schedules && v.tables.schedules[n].retirement.None?
            && v.tables.schedules[n].lastEnqueuedAt == Some(now)
            && v.log == w.log && Generation(v, n) == Generation(w, n) && v.clock == now
  {
    RestoreRevives(Run(steps, inclusive), n, actor, now);
    RunStep(steps, inclusive, RestoreStep(n, actor, now));
  }

  /** A restore that comes too late for the last fire lets it commit a second time. */
  lemma LateRestoreRepeats(steps: seq<WorldStep>, inclusive: bool, n: Name, actor: string, now: Time)
    requires var w := Run(steps, inclusive);
             && n in w.tables.schedules && w.tables.schedules[n].retirement.Some?
             && w.tables.schedules[n].lastEnqueuedAt.Some? && now < w.tables.schedules[n].lastEnqueuedAt.value
             && w.clock <= now && !Blank(actor)
    ensures var w := Run(steps, inclusive);
            var x := w.tables.schedules[n].lastEnqueuedAt.value;
            var prefix, f := steps + [RestoreStep(n, actor, now)], Firing(n, Generation(w, n), x);
            && f in w.log && Run(prefix + Again(n, x, now), inclusive).log == w.log + [f]
            && !KeepsOrder(prefix, Again(n, x, now), inclusive)
  {
    var w, s := Run(steps, inclusive), RestoreStep(n, actor, now);
    var x := w.tables.schedules[n].lastEnqueuedAt.value;
    AheadIsLogged(steps, inclusive, n);
    RestoredRun(steps, inclusive, n, actor, now);
    AgainCommits(steps + [s], inclusive, n, x);
    NoRestoresInTime(steps + [s], Again(n, x, now), inclusive);
    RepeatBreaksOrder(w.log, Firing(n, Generation(w, n), x));
  }

  /** Restoring a schedule keeps its fires in order, whatever follows, if and only if its
      last fire is not ahead of the database clock. */
  lemma RestoreSafeIff(steps: seq<WorldStep>, inclusive: bool, n: Name, actor: string, now: Time)
    requires RestoresInTime(steps, inclusive, 0)
    requires var w := Run(steps, inclusive);
             && n in w.tables.schedules && w.tables.schedules[n].retirement.Some?
             && w.clock <= now && !Blank(actor)
    ensures var last := Run(steps, inclusive).tables.schedules[n].lastEnqueuedAt;
            (forall more :: KeepsOrder(steps + [RestoreStep(n, actor, now)], more, inclusive))
            <==> (last.None? || last.value <= now)
  {
    var w, s := Run(steps, inclusive), RestoreStep(n, actor, now);
    var last := w.tables.schedules[n].lastEnqueuedAt;
    if last.Some? && now < last.value {
      LateRestoreRepeats(steps, inclusive, n, actor, now);
    } else {
      RestoreRevives(w, n, actor, now);
      forall more ensures KeepsOrder(steps + [s], more, inclusive) {
        RestoreKeepsOrder(steps, inclusive, s, more);
      }
    }
  }

  // ---- Across delete and create ----------------------------------------------------------------

  /** Every fire of this generation is later than `x`. */
  ghost predicate LaterThan(log: seq<Firing>, n: Name, generation: nat, x: Time) {
    forall k :: 0 <= k < |log| && log[k].name == n && log[k].generation == generation ==> x < log[k].at
  }

  /** A cursor read before the row's first fire. */
  predicate Stale(w: World, l: int, n: Name) {
    l in w.leaders && w.leaders[l].name == n && w.leaders[l].previous.None? && w.leaders[l].pending != []
  }

  ghost predicate StaleLater(w: World, n: Name, x: Time) {
    forall l :: Stale(w, l, n) ==> x < w.leaders[l].pending[0]
  }

  /** The row's next fire is later than `x`: its last one is, or the search for its first
      cannot reach `x` and neither does any cursor that thinks it has not fired. */
  ghost predicate RowLater(w: World, n: Name, x: Time)
    requires n in w.tables.schedules
  {
    var row := w.tables.schedules[n];
    if row.lastEnqueuedAt.Some? then x < row.lastEnqueuedAt.value
    else !D.AtOrAfter(x, row.createdAt - D.MINUTE, w.inclusive) && StaleLater(w, n, x)
  }

  ghost predicate LaterInv(w: World, n: Name, generation: nat, x: Time) {
    && generation <= Generation(w, n) && x < w.clock && LaterThan(w.log, n, generation, x)
    && (generation == Generation(w, n) ==> n in w.tables.schedules && RowLater(w, n, x))
  }

  lemma TableStepLater(w: World, v: World, revived: set<Name>, now: Time, n: Name, generation: nat, x: Time)
    requires TableStep(w, v, revived, now) && LaterInv(w, n, generation, x)
    ensures LaterInv(v, n, generation, x)
  {
    if generation == Generation(w, n) && StaleLater(w, n, x) {
      assert forall l :: Stale(v, l, n) ==> Stale(w, l, n);
    }
  }

  lemma QuietLater(w: World, v: World, now: Time, n: Name, generation: nat, x: Time)
    requires QuietStep(w, v, now) && LaterInv(w, n, generation, x)
    requires generation == Generation(v, n) && v.tables.schedules[n].lastEnqueuedAt.None? ==> StaleLater(v, n, x)
    ensures LaterInv(v, n, generation, x)
  {
  }

  lemma DeleteLater(w: World, s: WorldStep, n: Name, generation: nat, x: Time)
    requires Inv(w.tables) && Enabled(w, s) && s.Delete? && LaterInv(w, n, generation, x)
    ensures LaterInv(NextWorld(w, s), n, generation, x)
  {
    var v := NextWorld(w, s);
    DeleteForm(w, s.name, s.now);
    assert forall l :: Stale(v, l, n) ==> Stale(w, l, n);
    QuietLater(w, v, s.now, n, generation, x);
  }

  lemma LostLater(w: World, s: WorldStep, n: Name, generation: nat, x: Time)
    requires Inv(w.tables) && Enabled(w, s) && s.Fire? && !Wins(w, s.leader) && LaterInv(w, n, generation, x)
    ensures LaterInv(NextWorld(w, s), n, generation, x)
  {
    var v := NextWorld(w, s);
    LostForm(w, s);
    assert forall l :: Stale(v, l, n) ==> Stale(w, l, n) && v.leaders[l] == w.leaders[l];
    QuietLater(w, v, s.now, n, generation, x);
  }

  lemma ReadLater(w: World, s: WorldStep, n: Name, generation: nat, x: Time)
    requires Inv(w.tables) && Enabled(w, s) && s.Read? && LaterInv(w, n, generation, x)
    ensures LaterInv(NextWorld(w, s), n, generation, x)
  {
    var v := NextWorld(w, s);
    ReadForm(w, s);
    if generation == Generation(v, n) && v.tables.schedules[n].lastEnqueuedAt.None? {
      forall l | Stale(v, l, n) ensures x < v.leaders[l].pending[0] {
        assert l != s.leader ==> Stale(w, l, n);
        assert v.leaders == w.leaders ==> Stale(w, l, n);
      }
    }
    QuietLater(w, v, s.now, n, generation, x);
  }

  lemma FireLater(w: World, l: int, now: Time, n: Name, generation: nat, x: Time)
    requires SafeInv(w) && w.clock <= now && Wins(w, l) && LaterInv(w, n, generation, x)
    ensures LaterInv(NextWorld(w, Fire(l, now)), n, generation, x)
  {
    var v, c := NextWorld(w, Fire(l, now)), w.leaders[l];
    FireForm(w, l, now);
    FireIsLater(w, l);
    assert c.name == n && c.previous.None? ==> Stale(w, l, n);
    assert forall j :: Stale(v, j, n) ==> j != l && Stale(w, j, n);
  }

  lemma WorldStepLater(w: World, s: WorldStep, n: Name, generation: nat, x: Time)
    requires SafeInv(w) && Enabled(w, s) && LaterInv(w, n, generation, x)
    ensures LaterInv(NextWorld(w, s), n, generation, x)
  {
    if RewritesTables(s) {
      TableStepForm(w, s);
      TableStepLater(w, NextWorld(w, s), RevivedBy(w, s), At(s), n, generation, x);
    } else if s.Delete? {
      DeleteLater(w, s, n, generation, x);
    } else if s.Read? {
      ReadLater(w, s, n, generation, x);
    } else if Wins(w, s.leader) {
      FireLater(w, s.leader, s.now, n, generation, x);
    } else {
      LostLater(w, s, n, generation, x);
    }
  }

  lemma {:induction false} RunLater(prefix: seq<WorldStep>, more: seq<WorldStep>, inclusive: bool,
                                    n: Name, generation: nat, x: Time)
    requires LaterInv(Run(prefix, inclusive), n, generation, x)
    ensures LaterInv(Run(prefix + more, inclusive), n, generation, x)
  {
    if more == [] {
      assert prefix + more == prefix;
    } else {
      var less, s := more[..|more|-1], more[|more|-1];
      assert (prefix + more)[..|prefix + more| - 1] == prefix + less;
      RunLater(prefix, less, inclusive, n, generation, x);
      RunSafe(prefix + less, inclusive);
      if Enabled(Run(prefix + less, inclusive), s) {
        WorldStepLater(Run(prefix + less, inclusive), s, n, generation, x);
      }
    }
  }

  // ---- What a step creates ---------------------------------------------------------------------

  ghost predicate Fresh(row: Schedule) {
    row.lastEnqueuedAt.None? && row.pausedAt.None? && row.retirement.None?
  }

  lemma SyncCreates(t: Tables, p: Plan, n: Name)
    requires p.desiredHash.Some? && (p.owner, p.desiredHash.value) in t.manifests
    requires n in Synced(t, p).schedules && n !in t.schedules
    ensures Fresh(Synced(t, p).schedules[n])
  {
  }

  lemma RetireKeepsFresh(t: Tables, p: Plan, n: Name)
    requires p.declarations != map[] && n !in p.changes.retirements
    requires n in RetireAbsent(Record(t, p), p).schedules
    ensures n in t.schedules && RetireAbsent(Record(t, p), p).schedules[n] == t.schedules[n]
  {
  }

  lemma EvaluateCreates(t: Tables, o: Owner, now: Time, mode: Mode, n: Name)
    requires Backed(t)
    requires n in Evaluate(t, o, now, mode).after.schedules && n !in t.schedules
    ensures Fresh(Evaluate(t, o, now, mode).after.schedules[n])
  {
    EvidenceShape(t, o, now);
    var p := Compared(t, o, now, mode);
    var q := Graced(t, p);
    SyncCreates(t, q, n);
    RetireKeepsFresh(Synced(t, q), q, n);
  }

  lemma HeartbeatKeepsFresh(t: Tables, o: Owner, now: Time, n: Name)
    requires Backed(t) && n in t.schedules && Fresh(t.schedules[n])
    ensures var after := Evaluate(t, o, now, Heartbeat).after;
            n in after.schedules && Fresh(after.schedules[n])
  {
    EvidenceShape(t, o, now);
  }

  lemma PublishCreates(t: Tables, s: Step, n: Name)
    requires Inv(t) && WellFormedStep(s) && s.Publish? && n !in t.schedules && n in Next(t, s).schedules
    ensures Fresh(Next(t, s).schedules[n])
  {
    DeclaredBacked(t, s.instance, s.config, s.manifest, s.seenAt);
    var d := Declared(t, s.instance, s.config, s.manifest, s.seenAt);
    if n in d.schedules {
      HeartbeatKeepsFresh(d, s.config.owner, s.now, n);
    } else {
      EvaluateCreates(d, s.config.owner, s.now, Heartbeat, n);
    }
  }

  /** The step makes a row of a name that had none. */
  ghost predicate Creates(w: World, s: WorldStep, n: Name)
    requires Inv(w.tables)
  {
    Enabled(w, s) && n !in w.tables.schedules && n in NextWorld(w, s).tables.schedules
  }

  lemma OthersCreateNothing(w: World, s: WorldStep, n: Name)
    requires Inv(w.tables) && Enabled(w, s) && !RewritesTables(s)
    ensures n in NextWorld(w, s).tables.schedules ==> n in w.tables.schedules
  {
    if s.Delete? {
      DeleteForm(w, s.name, s.now);
    } else if s.Read? {
      ReadForm(w, s);
    } else if Wins(w, s.leader) {
      FireForm(w, s.leader, s.now);
    } else {
      LostForm(w, s);
    }
  }

  lemma CreatesFresh(w: World, s: WorldStep, n: Name)
    requires Inv(w.tables) && Creates(w, s, n)
    ensures RewritesTables(s) && Fresh(NextWorld(w, s).tables.schedules[n])
  {
    assert RewritesTables(s) by {
      if !RewritesTables(s) {
        OthersCreateNothing(w, s, n);
      }
    }
    if s.Protocol? {
      ProtocolCreates(w.tables, s.step, n);
    }
  }

  lemma ProtocolCreates(t: Tables, s: Step, n: Name)
    requires Inv(t) && WellFormedStep(s) && ProtocolStep(s) && n !in t.schedules && n in Next(t, s).schedules
    ensures Fresh(Next(t, s).schedules[n])
  {
    if s.Publish? {
      PublishCreates(t, s, n);
    } else if s.Reconcile? {
      EvaluateCreates(t, s.owner, s.now, Apply, n);
    }
  }

  // ---- The exact condition ----------------------------------------------------------------------

  /** Whatever follows, the fires of this generation are later than `x`. */
  ghost predicate KeepsLater(prefix: seq<WorldStep>, more: seq<WorldStep>, inclusive: bool,
                             n: Name, generation: nat, x: Time)
  {
    LaterThan(Run(prefix + more, inclusive).log, n, generation, x)
  }

  lemma CreatedLater(w: World, s: WorldStep, n: Name, x: Time)
    requires SafeInv(w) && Creates(w, s, n)
    requires !D.AtOrAfter(x, NextWorld(w, s).tables.schedules[n].createdAt - D.MINUTE, w.inclusive)
    requires StaleLater(w, n, x)
    ensures LaterInv(NextWorld(w, s), n, Generation(w, n), x)
  {
    var v := NextWorld(w, s);
    CreatesFresh(w, s, n);
    TableStepForm(w, s);
    assert forall l :: Stale(v, l, n) ==> Stale(w, l, n);
    forall k | 0 <= k < |w.log| ensures !(w.log[k].name == n && w.log[k].generation == Generation(w, n)) {
      assert Logged(w, w.log[k]);
    }
  }

  /** A search that reaches `x` commits it. */
  lemma ReachedCommits(steps: seq<WorldStep>, inclusive: bool, s: WorldStep, n: Name, x: Time)
    requires Creates(Run(steps, inclusive), s, n) && x % D.SECOND == 0
    requires D.AtOrAfter(x, NextWorld(Run(steps, inclusive), s).tables.schedules[n].createdAt - D.MINUTE, inclusive)
    ensures var w, v := Run(steps, inclusive), NextWorld(Run(steps, inclusive), s);
            !KeepsLater(steps + [s], Pass(1, n, x, v.clock), inclusive, n, Generation(w, n), x)
  {
    var w, v := Run(steps, inclusive), NextWorld(Run(steps, inclusive), s);
    CreatesFresh(w, s, n);
    TableStepForm(w, s);
    RunStep(steps, inclusive, s);
    FirstMayFire(v.tables.schedules[n].createdAt, x, inclusive);
    PassCommits(steps + [s], inclusive, 1, n, x);
    var log := Run(steps + [s] + Pass(1, n, x, v.clock), inclusive).log;
    assert log[|w.log|] == Firing(n, Generation(w, n), x);
  }

  /** A cursor read from the deleted row commits its fire on the new one. */
  lemma StaleCommits(steps: seq<WorldStep>, inclusive: bool, s: WorldStep, n: Name, x: Time, l: int)
    requires Creates(Run(steps, inclusive), s, n)
    requires Stale(Run(steps, inclusive), l, n) && Run(steps, inclusive).leaders[l].pending[0] <= x
    ensures var w, v := Run(steps, inclusive), NextWorld(Run(steps, inclusive), s);
            !KeepsLater(steps + [s], [Fire(l, v.clock)], inclusive, n, Generation(w, n), x)
  {
    var w, v := Run(steps, inclusive), NextWorld(Run(steps, inclusive), s);
    CreatesFresh(w, s, n);
    TableStepForm(w, s);
    RunStep(steps, inclusive, s);
    SwapCommits(v, l);
    RunStep(steps + [s], inclusive, Fire(l, v.clock));
    var log := Run(steps + [s] + [Fire(l, v.clock)], inclusive).log;
    assert log[|w.log|] == Firing(n, Generation(w, n), w.leaders[l].pending[0]);
  }

  ghost predicate OutOfReach(w: World, s: WorldStep, n: Name, x: Time)
    requires Inv(w.tables) && Creates(w, s, n)
  {
    && !D.AtOrAfter(x, NextWorld(w, s).tables.schedules[n].createdAt - D.MINUTE, w.inclusive)
    && StaleLater(w, n, x)
  }

  lemma OutOfReachIsSafe(steps: seq<WorldStep>, inclusive: bool, s: WorldStep, n: Name, x: Time, more: seq<WorldStep>)
    requires Creates(Run(steps, inclusive), s, n) && OutOfReach(Run(steps, inclusive), s, n, x)
    ensures KeepsLater(steps + [s], more, inclusive, n, Generation(Run(steps, inclusive), n), x)
  {
    RunSafe(steps, inclusive);
    CreatedLater(Run(steps, inclusive), s, n, x);
    RunStep(steps, inclusive, s);
    RunLater(steps + [s], more, inclusive, n, Generation(Run(steps, inclusive), n), x);
  }

  lemma WithinReachRepeats(steps: seq<WorldStep>, inclusive: bool, s: WorldStep, n: Name, x: Time)
    returns (more: seq<WorldStep>)
    requires Creates(Run(steps, inclusive), s, n) && !OutOfReach(Run(steps, inclusive), s, n, x)
    requires x % D.SECOND == 0
    ensures !KeepsLater(steps + [s], more, inclusive, n, Generation(Run(steps, inclusive), n), x)
  {
    var w := Run(steps, inclusive);
    var v := NextWorld(w, s);
    RunInclusive(steps, inclusive);
    if D.AtOrAfter(x, v.tables.schedules[n].createdAt - D.MINUTE, inclusive) {
      ReachedCommits(steps, inclusive, s, n, x);
      more := Pass(1, n, x, v.clock);
    } else {
      var l :| Stale(w, l, n) && w.leaders[l].pending[0] <= x;
      StaleCommits(steps, inclusive, s, n, x, l);
      more := [Fire(l, v.clock)];
    }
  }

  /** A schedule created again under a name that fired before has forgotten its last fire.
      Whatever follows, every fire of the new row is later than the old fire if and only if
      the search for the first fire of the new row starts after it, and no leader still
      holds such a fire from a row of that name it read before its first fire. */
  lemma RecreateSafeIff(steps: seq<WorldStep>, inclusive: bool, s: WorldStep, n: Name, k: nat)
    requires Creates(Run(steps, inclusive), s, n)
    requires k < |Run(steps, inclusive).log| && Run(steps, inclusive).log[k].name == n
    ensures var w := Run(steps, inclusive);
            var x := w.log[k].at;
            (forall more :: KeepsLater(steps + [s], more, inclusive, n, Generation(w, n), x))
            <==> OutOfReach(w, s, n, x)
  {
    var w := Run(steps, inclusive);
    var x := w.log[k].at;
    if OutOfReach(w, s, n, x) {
      forall more ensures KeepsLater(steps + [s], more, inclusive, n, Generation(w, n), x) {
        OutOfReachIsSafe(steps, inclusive, s, n, x, more);
      }
    } else {
      RunSafe(steps, inclusive);
      var _ := WithinReachRepeats(steps, inclusive, s, n, x);
    }
  }

  // ---- Two runs that fire twice ------------------------------------------------------------------

  lemma Registered(job: PeriodicJob, now: Time, inclusive: bool) returns (steps: seq<WorldStep>)
    requires now >= 0
    ensures Active(Run(steps, inclusive), job.name) && Run(steps, inclusive).clock == now
    ensures Run(steps, inclusive).tables.schedules[job.name] == NewSchedule(job.definition, None, now)
    ensures Run(steps, inclusive).log == [] && Run(steps, inclusive).generations == map[]
  {
    RunStep([], inclusive, Register(job, now));
    steps := [] + [Register(job, now)];
  }

  lemma RetireSteps(steps: seq<WorldStep>, inclusive: bool, n: Name, actor: string)
    requires Active(Run(steps, inclusive), n) && !Blank(actor)
    ensures var w := Run(steps, inclusive);
            var v := Run(steps + [Protocol(OperatorAction(RetireOne(n), actor, w.clock))], inclusive);
            && n in v.tables.schedules && v.tables.schedules[n].retirement.Some?
            && v.tables.schedules[n].lastEnqueuedAt == w.tables.schedules[n].lastEnqueuedAt
            && v.clock == w.clock
  {
    var w := Run(steps, inclusive);
    OperatedRowIs(w.tables, RetireOne(n), actor, w.clock, n);
    RunStep(steps, inclusive, Protocol(OperatorAction(RetireOne(n), actor, w.clock)));
  }

  /** Registered at `now`, then fired at `x` by a leader whose clock says so. */
  lemma RegisteredAndFired(job: PeriodicJob, now: Time, x: Time, inclusive: bool) returns (steps: seq<WorldStep>)
    requires 0 <= now <= x && x % D.SECOND == 0
    ensures var v := Run(steps, inclusive);
            && Active(v, job.name) && v.clock == now && v.generations == map[]
            && v.log == [Firing(job.name, 0, x)]
            && v.tables.schedules[job.name].owner.None? && v.tables.schedules[job.name].lastEnqueuedAt == Some(x)
  {
    steps := Registered(job, now, inclusive);
    FirstMayFire(now, x, inclusive);
    PassCommits(steps, inclusive, 1, job.name, x);
    steps := steps + Pass(1, job.name, x, now);
  }

  /** A leader a second ahead fires early; a retirement and a restore at the database's
      earlier time then let the same fire commit again. */
  lemma LeaderAheadFiresTwice(job: PeriodicJob, actor: string, inclusive: bool) returns (steps: seq<WorldStep>)
    requires !Blank(actor)
    ensures Run(steps, inclusive).log == [Firing(job.name, 0, D.SECOND), Firing(job.name, 0, D.SECOND)]
  {
    var n := job.name;
    steps := RegisteredAndFired(job, 0, D.SECOND, inclusive);
    RetireSteps(steps, inclusive, n, actor);
    steps := steps + [Protocol(OperatorAction(RetireOne(n), actor, 0))];
    LateRestoreRepeats(steps, inclusive, n, actor, 0);
    steps := steps + [RestoreStep(n, actor, 0)] + Again(n, D.SECOND, 0);
  }

  lemma DeleteSteps(steps: seq<WorldStep>, inclusive: bool, n: Name)
    requires Active(Run(steps, inclusive), n) && Run(steps, inclusive).tables.schedules[n].owner.None?
    ensures var w := Run(steps, inclusive);
            var v := Run(steps + [Delete(n, w.clock)], inclusive);
            && n !in v.tables.schedules && v.log == w.log && v.clock == w.clock
            && Generation(v, n) == Generation(w, n) + 1
  {
    var w := Run(steps, inclusive);
    RunStep(steps, inclusive, Delete(n, w.clock));
  }

  lemma RegisterSteps(steps: seq<WorldStep>, inclusive: bool, job: PeriodicJob)
    requires job.name !in Run(steps, inclusive).tables.schedules
    ensures var w := Run(steps, inclusive);
            var v := Run(steps + [Register(job, w.clock)], inclusive);
            && Active(v, job.name) && v.log == w.log && v.clock == w.clock && v.generations == w.generations
            && v.tables.schedules[job.name] == NewSchedule(job.definition, None, w.clock)
  {
    RunStep(steps, inclusive, Register(job, Run(steps, inclusive).clock));
  }

  /** Without any clock ahead, a schedule deleted and registered again within a minute of
      its fire commits that fire again. */
  lemma RecreatedFiresTwice(job: PeriodicJob, inclusive: bool) returns (steps: seq<WorldStep>)
    ensures Run(steps, inclusive).log == [Firing(job.name, 0, D.SECOND), Firing(job.name, 1, D.SECOND)]
  {
    var n, x := job.name, D.SECOND;
    steps := RegisteredAndFired(job, x, x, inclusive);
    DeleteSteps(steps, inclusive, n);
    steps := steps + [Delete(n, x)];
    RegisterSteps(steps, inclusive, job);
    steps := steps + [Register(job, x)];
    FirstMayFire(x, x, inclusive);
    PassCommits(steps, inclusive, 1, n, x);
    steps := steps + Pass(1, n, x, x);
  }
}
