/** Firing by compare-and-swap: any number of leaders read schedules, compute due
    fires and race on `last_enqueued_at`, interleaved with every other transaction
    of the cron tables. */
module CronFiring {
  import opened Prelude
  import opened CronManifest
  import opened CronTables
  import opened CronEvaluation
  import opened CronCertificate
  import D = DueFire

  /** A leader's pass over one row: what it read as `last_enqueued_at`, advanced by
      its own successes, and the fires it still means to enqueue. */
  datatype Cursor = Cursor(name: Name, previous: Option<Time>, pending: seq<Time>)

  /** A committed automatic enqueue. Deleting a schedule ends its generation. */
  datatype Firing = Firing(name: Name, generation: nat, at: Time)

  /** A schedule restored at `at`, when the log had `position` entries. */
  datatype Restored = Restored(name: Name, generation: nat, at: Time, position: nat)

  /** `generations`, `log` and `restores` are history; `inclusive` says whether the
      fire iterator yields a fire exactly at its start. */
  datatype World = World(
    tables: Tables,
    clock: Time,
    leaders: map<int, Cursor>,
    generations: map<Name, nat>,
    log: seq<Firing>,
    restores: set<Restored>,
    inclusive: bool)

  function Generation(w: World, n: Name): nat {
    if n in w.generations then w.generations[n] else 0
  }

  datatype WorldStep =
    | Protocol(step: Step)
    | Register(job: PeriodicJob, now: Time)
    | PauseSchedule(name: Name, now: Time)
    | ResumeSchedule(name: Name, now: Time)
    | Delete(name: Name, now: Time)
    | Read(leader: int, name: Name, leaderClock: Time, fires: seq<Time>, now: Time)
    | Fire(leader: int, now: Time)

  function At(s: WorldStep): Time {
    if s.Protocol? then s.step.now else s.now
  }

  /** The rows an operator's restore brings back. */
  function Revived(t: Tables, s: Step): set<Name> {
    if s.OperatorAction? && (s.action.Restore? || s.action.RestoreOwner?) && Permitted(t, s.action, s.actor)
    then set n | n in Selected(t, s.action) && n in t.schedules && t.schedules[n].retirement.Some?
    else {}
  }

  function RevivedBy(w: World, s: WorldStep): set<Name> {
    if s.Protocol? then Revived(w.tables, s.step) else {}
  }

  ghost predicate Active(w: World, n: Name) {
    n in w.tables.schedules && w.tables.schedules[n].pausedAt.None? && w.tables.schedules[n].retirement.None?
  }

  /** A leader passes over rows it sees paused or retired. */
  ghost function ReadRow(w: World, leader: int, name: Name, fires: seq<Time>): World {
    if Active(w, name)
    then w.(leaders := w.leaders[leader := Cursor(name, w.tables.schedules[name].lastEnqueuedAt, fires)])
    else w
  }

  /** The next compare-and-swap of a leader; a lost race ends its pass. */
  function FireNext(w: World, leader: int): World {
    if leader !in w.leaders || w.leaders[leader].pending == [] then w
    else
      var c := w.leaders[leader];
      var (t, won) := AtomicEnqueue(w.tables, c.name, c.pending[0], c.previous);
      if won then
        w.(tables := t,
           leaders := w.leaders[leader := Cursor(c.name, Some(c.pending[0]), c.pending[1..])],
           log := w.log + [Firing(c.name, Generation(w, c.name), c.pending[0])])
      else w.(leaders := w.leaders - {leader})
  }

  predicate ProtocolStep(s: Step) {
    s.Snapshot? || s.CleanupRuntimes? || s.Publish? || s.Reconcile? || s.OperatorAction?
  }

  /** A step happens no earlier than the last; a leader sets out to enqueue only what
      `ComputeFireTimes` may return for the row it reads, by its own clock. */
  ghost predicate Enabled(w: World, s: WorldStep) {
    && w.clock <= At(s)
    && (s.Protocol? ==> ProtocolStep(s.step) && WellFormedStep(s.step))
    && (s.Read? && s.name in w.tables.schedules ==>
          var row := w.tables.schedules[s.name];
          D.MayEnqueue(s.fires, row.createdAt, row.lastEnqueuedAt, s.leaderClock, w.inclusive))
  }

  ghost function NextWorld(w: World, s: WorldStep): World
    requires Inv(w.tables) && Enabled(w, s)
  {
    var v := w.(clock := At(s));
    match s
    case Protocol(step) =>
      v.(tables := Next(w.tables, step),
         restores := w.restores +
           set n | n in Revived(w.tables, step) :: Restored(n, Generation(w, n), step.now, |w.log|))
    case Register(job, now) => v.(tables := AdditiveUpsert(w.tables, job, now).0)
    case PauseSchedule(n, now) => v.(tables := Pause(w.tables, n, now))
    case ResumeSchedule(n, _) => v.(tables := Resume(w.tables, n))
    case Delete(n, _) =>
      var t := ForeignDelete(w.tables, n);
      v.(tables := t,
         generations := if t != w.tables then w.generations[n := Generation(w, n) + 1] else w.generations)
    case Read(l, n, _, fires, _) => ReadRow(v, l, n, fires)
    case Fire(l, _) => FireNext(v, l)
  }

  // ---- Runs ------------------------------------------------------------------------

  function NoWorld(inclusive: bool): World {
    World(EmptyTables, 0, map[], map[], [], {}, inclusive)
  }

  lemma RequestTablesInv(w: World, s: WorldStep)
    requires Inv(w.tables) && Enabled(w, s) && (s.Register? || s.PauseSchedule? || s.ResumeSchedule? || s.Delete?)
    ensures Inv(NextWorld(w, s).tables)
  {
    match s
    case Register(job, now) => AdditiveUpsertInv(w.tables, job, now);
    case PauseSchedule(n, now) => FiringWritesInv(w.tables, n, now, None);
    case ResumeSchedule(n, now) => FiringWritesInv(w.tables, n, now, None);
    case Delete(n, now) => PlainInv(w.tables, PlainDelete(n, now));
  }

  /** Every step keeps the tables' invariant. */
  lemma NextTablesInv(w: World, s: WorldStep)
    requires Inv(w.tables) && Enabled(w, s)
    ensures Inv(NextWorld(w, s).tables)
  {
    if s.Protocol? {
      StepInv(w.tables, s.step);
    } else if s.Fire? {
      if s.leader in w.leaders && w.leaders[s.leader].pending != [] {
        FireTablesInv(w.(clock := s.now), s.leader);
      }
    } else if !s.Read? {
      RequestTablesInv(w, s);
    }
  }

  lemma FireTablesInv(w: World, l: int)
    requires Inv(w.tables) && l in w.leaders && w.leaders[l].pending != []
    ensures Inv(FireNext(w, l).tables)
  {
    var c := w.leaders[l];
    FiringWritesInv(w.tables, c.name, c.pending[0], c.previous);
  }

  /** The world after a sequence of steps; a step that is not enabled is skipped. */
  ghost function Run(steps: seq<WorldStep>, inclusive: bool): (w: World)
    ensures Inv(w.tables)
  {
    if steps == [] then
      InitInv();
      NoWorld(inclusive)
    else
      var w, s := Run(steps[..|steps|-1], inclusive), steps[|steps|-1];
      if Enabled(w, s) then
        NextTablesInv(w, s);
        NextWorld(w, s)
      else w
  }

  // ---- The invariants -----------------------------------------------------------------

  /** Whatever happened to this name at `at` in this generation, its row's
      `last_enqueued_at` is not earlier, if the generation is still the current one. */
  ghost predicate Bounded(w: World, n: Name, generation: nat, at: Time) {
    && generation <= Generation(w, n)
    && (generation == Generation(w, n) ==>
          && n in w.tables.schedules
          && w.tables.schedules[n].lastEnqueuedAt.Some?
          && at <= w.tables.schedules[n].lastEnqueuedAt.value)
  }

  /** A cursor only goes forward, over whole seconds; one read before the row's first
      fire holds at most one. */
  ghost predicate CursorOk(c: Cursor) {
    && (forall i, j :: 0 <= i < j < |c.pending| ==> c.pending[i] < c.pending[j])
    && (forall i :: 0 <= i < |c.pending| ==>
          c.pending[i] % D.SECOND == 0 && (c.previous.Some? ==> c.previous.value < c.pending[i]))
    && (c.previous.None? ==> |c.pending| <= 1)
  }

  ghost predicate CursorsOk(w: World) {
    forall l :: l in w.leaders ==> CursorOk(w.leaders[l])
  }

  /** Fires of one generation commit in strictly increasing order. */
  ghost predicate InOrder(log: seq<Firing>) {
    forall i, j ::
      0 <= i < j < |log| && log[i].name == log[j].name && log[i].generation == log[j].generation ==>
        log[i].at < log[j].at
  }

  /** Every fire logged after a restore is later than the restore. */
  ghost predicate NoReplay(log: seq<Firing>, r: Restored) {
    && r.position <= |log|
    && forall k ::
         r.position <= k < |log| && log[k].name == r.name && log[k].generation == r.generation ==> r.at < log[k].at
  }

  ghost predicate RestoresOk(w: World) {
    forall r :: r in w.restores ==>
      r.at <= w.clock && Bounded(w, r.name, r.generation, r.at) && NoReplay(w.log, r)
  }

  /** A row's `last_enqueued_at` lies in the past unless it is a logged fire. */
  ghost predicate LastKnown(w: World, n: Name)
    requires n in w.tables.schedules
  {
    var row := w.tables.schedules[n];
    && row.createdAt <= w.clock
    && (row.lastEnqueuedAt.Some? ==>
          row.lastEnqueuedAt.value <= w.clock || Firing(n, Generation(w, n), row.lastEnqueuedAt.value) in w.log)
  }

  ghost predicate LastsKnown(w: World) {
    forall n :: n in w.tables.schedules ==> LastKnown(w, n)
  }

  /** A fire belongs to the current generation of its row, which then has fired, or to an
      earlier one. */
  ghost predicate Logged(w: World, f: Firing) {
    && f.generation <= Generation(w, f.name)
    && (f.generation == Generation(w, f.name) ==>
          f.name in w.tables.schedules && w.tables.schedules[f.name].lastEnqueuedAt.Some?)
  }

  ghost predicate LogOk(w: World) {
    forall k :: 0 <= k < |w.log| ==> w.log[k].at % D.SECOND == 0 && Logged(w, w.log[k])
  }

  /** What holds in every run. */
  ghost predicate SafeInv(w: World) {
    Inv(w.tables) && CursorsOk(w) && RestoresOk(w) && LastsKnown(w) && LogOk(w)
  }

  /** What holds as long as restores are in time. */
  ghost predicate OrderInv(w: World) {
    && InOrder(w.log)
    && forall k :: 0 <= k < |w.log| ==> Bounded(w, w.log[k].name, w.log[k].generation, w.log[k].at)
  }

  /** No row the step restores has fired ahead of the database clock. */
  ghost predicate RestoreInTime(w: World, s: WorldStep) {
    forall n :: n in RevivedBy(w, s) && n in w.tables.schedules && w.tables.schedules[n].lastEnqueuedAt.Some? ==>
      w.tables.schedules[n].lastEnqueuedAt.value <= At(s)
  }

  // ---- What each transaction does to a row ---------------------------------------------

  /** A transaction other than a fire keeps a row's `last_enqueued_at`, except that a
      restore moves it to the current time; a row it creates has none. */
  ghost predicate LastKept(t: Tables, t1: Tables, revived: set<Name>, now: Time) {
    && (forall n :: n in t.schedules ==>
          && n in t1.schedules
          && t1.schedules[n].createdAt == t.schedules[n].createdAt
          && t1.schedules[n].lastEnqueuedAt == if n in revived then Some(now) else t.schedules[n].lastEnqueuedAt)
    && (forall n :: n in t1.schedules && n !in t.schedules ==>
          t1.schedules[n].lastEnqueuedAt.None? && t1.schedules[n].createdAt <= now)
  }

  lemma LastKeptTwice(t: Tables, t1: Tables, t2: Tables, now: Time)
    requires LastKept(t, t1, {}, now) && LastKept(t1, t2, {}, now)
    ensures LastKept(t, t2, {}, now)
  {
  }

  lemma SyncKeepsLast(t: Tables, p: Plan)
    requires p.desiredHash.Some? && (p.owner, p.desiredHash.value) in t.manifests
    ensures LastKept(t, Synced(t, p), {}, p.evaluatedAt)
  {
  }

  lemma RetireKeepsLast(t: Tables, p: Plan)
    requires p.declarations != map[]
    ensures LastKept(t, Record(t, p), {}, p.evaluatedAt)
    ensures LastKept(t, RetireAbsent(Record(t, p), p), {}, p.evaluatedAt)
  {
  }

  lemma EvaluateKeepsLast(t: Tables, o: Owner, now: Time, mode: Mode)
    requires Backed(t)
    ensures LastKept(t, Evaluate(t, o, now, mode).after, {}, now)
  {
    EvidenceShape(t, o, now);
    var p := Compared(t, o, now, mode);
    if p.blockers == [] && !mode.DryRun? {
      var q := Graced(t, p);
      SyncKeepsLast(t, q);
      RetireKeepsLast(Synced(t, q), q);
      LastKeptTwice(t, Synced(t, q), Evaluate(t, o, now, mode).after, now);
    }
  }

  lemma PublishKeepsLast(t: Tables, s: Step)
    requires Inv(t) && WellFormedStep(s) && s.Publish?
    ensures LastKept(t, Next(t, s), {}, s.now)
  {
    if Publishes(t, s.instance, s.config) {
      DeclaredBacked(t, s.instance, s.config, s.manifest, s.seenAt);
      var d := Declared(t, s.instance, s.config, s.manifest, s.seenAt);
      EvaluateKeepsLast(d, s.config.owner, s.now, Heartbeat);
      LastKeptTwice(t, d, Next(t, s), s.now);
    }
  }

  lemma OperatedRowKeeps(row: Schedule, a: Action, actor: string, now: Time)
    ensures var row1 := OperatedRow(row, a, actor, now);
            && row1.createdAt == row.createdAt && row1.pausedAt == row.pausedAt
            && row1.lastEnqueuedAt ==
               if (a.Restore? || a.RestoreOwner?) && row.retirement.Some? then Some(now) else row.lastEnqueuedAt
  {
  }

  lemma OperatedRowIs(t: Tables, a: Action, actor: string, now: Time, n: Name)
    requires n in t.schedules
    ensures n in Operate(t, a, actor, now).schedules
    ensures Operate(t, a, actor, now).schedules[n] ==
            if Permitted(t, a, actor) && n in Selected(t, a) then OperatedRow(t.schedules[n], a, actor, now)
            else t.schedules[n]
  {
  }

  lemma RevivedRow(t: Tables, s: Step, n: Name, row1: Schedule)
    requires s.OperatorAction? && n in t.schedules
    requires row1 == if Permitted(t, s.action, s.actor) && n in Selected(t, s.action)
                     then OperatedRow(t.schedules[n], s.action, s.actor, s.now) else t.schedules[n]
    ensures row1.createdAt == t.schedules[n].createdAt
    ensures row1.lastEnqueuedAt == if n in Revived(t, s) then Some(s.now) else t.schedules[n].lastEnqueuedAt
  {
    OperatedRowKeeps(t.schedules[n], s.action, s.actor, s.now);
  }

  lemma OperateKeepsRow(t: Tables, s: Step, n: Name)
    requires s.OperatorAction? && n in t.schedules
    ensures var t1 := Operate(t, s.action, s.actor, s.now);
            && n in t1.schedules
            && t1.schedules[n].createdAt == t.schedules[n].createdAt
            && t1.schedules[n].lastEnqueuedAt ==
               if n in Revived(t, s) then Some(s.now) else t.schedules[n].lastEnqueuedAt
  {
    OperatedRowIs(t, s.action, s.actor, s.now, n);
    RevivedRow(t, s, n, Operate(t, s.action, s.actor, s.now).schedules[n]);
  }

  lemma OperateKeepsLast(t: Tables, s: Step)
    requires Inv(t) && s.OperatorAction?
    ensures LastKept(t, Next(t, s), Revived(t, s), s.now)
  {
    var t1 := Operate(t, s.action, s.actor, s.now);
    forall n | n in t.schedules
      ensures n in t1.schedules && t1.schedules[n].createdAt == t.schedules[n].createdAt
      ensures t1.schedules[n].lastEnqueuedAt ==
              if n in Revived(t, s) then Some(s.now) else t.schedules[n].lastEnqueuedAt
    {
      OperateKeepsRow(t, s, n);
    }
  }

  lemma ProtocolKeepsLast(t: Tables, s: Step)
    requires Inv(t) && WellFormedStep(s) && ProtocolStep(s)
    ensures LastKept(t, Next(t, s), Revived(t, s), s.now)
  {
    match s
    case Publish(_, _, _, _, _) => PublishKeepsLast(t, s);
    case Reconcile(o, now) => EvaluateKeepsLast(t, o, now, Apply);
    case OperatorAction(_, _, _) => OperateKeepsLast(t, s);
    case _ =>
  }

  lemma RegisterKeepsLast(t: Tables, job: PeriodicJob, now: Time)
    ensures LastKept(t, AdditiveUpsert(t, job, now).0, {}, now)
  {
  }

  lemma PauseKeepsLast(t: Tables, n: Name, now: Time)
    ensures LastKept(t, Pause(t, n, now), {}, now)
  {
  }

  lemma ResumeKeepsLast(t: Tables, n: Name, now: Time)
    ensures LastKept(t, Resume(t, n), {}, now)
  {
  }

  /** A step that only rewrites tables. */
  predicate RewritesTables(s: WorldStep) {
    s.Protocol? || s.Register? || s.PauseSchedule? || s.ResumeSchedule?
  }

  ghost predicate TableStep(w: World, v: World, revived: set<Name>, now: Time) {
    && w.clock <= now && Inv(v.tables) && LastKept(w.tables, v.tables, revived, now)
    && revived <= w.tables.schedules.Keys
    && v == w.(clock := now, tables := v.tables,
               restores := w.restores + set n | n in revived :: Restored(n, Generation(w, n), now, |w.log|))
  }

  lemma TableStepForm(w: World, s: WorldStep)
    requires Inv(w.tables) && Enabled(w, s) && RewritesTables(s)
    ensures TableStep(w, NextWorld(w, s), RevivedBy(w, s), At(s))
  {
    NextTablesInv(w, s);
    match s
    case Protocol(step) => ProtocolKeepsLast(w.tables, step);
    case Register(job, now) => RegisterKeepsLast(w.tables, job, now);
    case PauseSchedule(n, now) => PauseKeepsLast(w.tables, n, now);
    case ResumeSchedule(n, now) => ResumeKeepsLast(w.tables, n, now);
  }

  /** A successful swap changes one cell of one active row. */
  lemma EnqueueIsSwap(t: Tables, n: Name, x: Time, previous: Option<Time>)
    requires AtomicEnqueue(t, n, x, previous).1
    ensures n in t.schedules && t.schedules[n].pausedAt.None? && t.schedules[n].retirement.None?
    ensures t.schedules[n].lastEnqueuedAt == previous
    ensures AtomicEnqueue(t, n, x, previous).0
         == t.(schedules := t.schedules[n := t.schedules[n].(lastEnqueuedAt := Some(x))])
  {
  }

  /** The swap of leader `l` goes through. */
  ghost predicate Wins(w: World, l: int) {
    && l in w.leaders && w.leaders[l].pending != []
    && var c := w.leaders[l];
       Active(w, c.name) && w.tables.schedules[c.name].lastEnqueuedAt == c.previous
  }

  /** What a winning swap does. */
  ghost predicate FireStep(w: World, v: World, l: int, now: Time)
    requires Wins(w, l)
  {
    var c := w.leaders[l];
    var x := c.pending[0];
    && w.clock <= now && Inv(v.tables)
    && v == w.(clock := now,
               tables := w.tables.(schedules :=
                 w.tables.schedules[c.name := w.tables.schedules[c.name].(lastEnqueuedAt := Some(x))]),
               leaders := w.leaders[l := Cursor(c.name, Some(x), c.pending[1..])],
               log := w.log + [Firing(c.name, Generation(w, c.name), x)])
  }

  lemma FireForm(w: World, l: int, now: Time)
    requires Inv(w.tables) && w.clock <= now && Wins(w, l)
    ensures FireStep(w, NextWorld(w, Fire(l, now)), l, now)
  {
    var c := w.leaders[l];
    NextTablesInv(w, Fire(l, now));
    EnqueueIsSwap(w.tables, c.name, c.pending[0], c.previous);
  }

  /** A step that neither rewrites tables nor fires: a read, a lost race, a delete. */
  ghost predicate QuietStep(w: World, v: World, now: Time) {
    && w.clock <= now && v.clock == now && Inv(v.tables)
    && v.log == w.log && v.restores == w.restores && v.inclusive == w.inclusive
    && (forall n :: n in v.tables.schedules ==>
          n in w.tables.schedules && v.tables.schedules[n] == w.tables.schedules[n])
    && (forall n :: Generation(w, n) <= Generation(v, n))
    && (forall n :: Generation(v, n) == Generation(w, n) ==>
          (n in v.tables.schedules <==> n in w.tables.schedules))
    && (forall n :: n in v.tables.schedules ==> Generation(v, n) == Generation(w, n))
  }

  lemma DeleteForm(w: World, n: Name, now: Time)
    requires Inv(w.tables) && w.clock <= now
    ensures QuietStep(w, NextWorld(w, Delete(n, now)), now)
  {
    NextTablesInv(w, Delete(n, now));
  }

  /** A read leaves the tables alone and sets one cursor at most. */
  lemma ReadForm(w: World, s: WorldStep)
    requires Inv(w.tables) && Enabled(w, s) && s.Read?
    ensures QuietStep(w, NextWorld(w, s), s.now) && NextWorld(w, s).tables == w.tables
    ensures NextWorld(w, s).leaders ==
            if Active(w, s.name)
            then w.leaders[s.leader := Cursor(s.name, w.tables.schedules[s.name].lastEnqueuedAt, s.fires)]
            else w.leaders
  {
  }

  /** A lost race drops a cursor at most. */
  lemma LostForm(w: World, s: WorldStep)
    requires Inv(w.tables) && Enabled(w, s) && s.Fire? && !Wins(w, s.leader)
    ensures QuietStep(w, NextWorld(w, s), s.now) && NextWorld(w, s).tables == w.tables
    ensures NextWorld(w, s).leaders == w.leaders || NextWorld(w, s).leaders == w.leaders - {s.leader}
  {
  }

  // ---- Every step keeps the safe invariant ---------------------------------------------

  lemma BoundedKept(w: World, v: World, revived: set<Name>, now: Time, n: Name, generation: nat, at: Time)
    requires TableStep(w, v, revived, now) && Bounded(w, n, generation, at)
    requires at <= now || n !in revived
    ensures Bounded(v, n, generation, at)
  {
  }

  lemma TableStepRestores(w: World, v: World, revived: set<Name>, now: Time)
    requires TableStep(w, v, revived, now) && RestoresOk(w)
    ensures RestoresOk(v)
  {
    forall r | r in v.restores ensures r.at <= v.clock && Bounded(v, r.name, r.generation, r.at) && NoReplay(v.log, r) {
      if r in w.restores {
        BoundedKept(w, v, revived, now, r.name, r.generation, r.at);
      }
    }
  }

  lemma TableStepLasts(w: World, v: World, revived: set<Name>, now: Time)
    requires TableStep(w, v, revived, now) && LastsKnown(w)
    ensures LastsKnown(v)
  {
    forall n | n in v.tables.schedules ensures LastKnown(v, n) {
      assert n in w.tables.schedules ==> LastKnown(w, n);
    }
  }

  lemma TableStepLog(w: World, v: World, revived: set<Name>, now: Time)
    requires TableStep(w, v, revived, now) && LogOk(w)
    ensures LogOk(v)
  {
    forall k | 0 <= k < |v.log| ensures v.log[k].at % D.SECOND == 0 && Logged(v, v.log[k]) {
      assert Logged(w, w.log[k]);
    }
  }

  lemma TableStepSafe(w: World, s: WorldStep)
    requires SafeInv(w) && Enabled(w, s) && RewritesTables(s)
    ensures SafeInv(NextWorld(w, s))
  {
    TableStepForm(w, s);
    TableStepRestores(w, NextWorld(w, s), RevivedBy(w, s), At(s));
    TableStepLasts(w, NextWorld(w, s), RevivedBy(w, s), At(s));
    TableStepLog(w, NextWorld(w, s), RevivedBy(w, s), At(s));
  }

  lemma QuietBounded(w: World, v: World, now: Time, n: Name, generation: nat, at: Time)
    requires QuietStep(w, v, now) && Bounded(w, n, generation, at)
    ensures Bounded(v, n, generation, at)
  {
  }

  lemma QuietSafe(w: World, v: World, now: Time)
    requires SafeInv(w) && QuietStep(w, v, now) && CursorsOk(v)
    ensures SafeInv(v)
  {
    forall r | r in v.restores ensures r.at <= v.clock && Bounded(v, r.name, r.generation, r.at) && NoReplay(v.log, r) {
      QuietBounded(w, v, now, r.name, r.generation, r.at);
    }
    forall n | n in v.tables.schedules ensures LastKnown(v, n) {
      assert LastKnown(w, n);
    }
    forall k | 0 <= k < |v.log| ensures v.log[k].at % D.SECOND == 0 && Logged(v, v.log[k]) {
      assert Logged(w, w.log[k]);
    }
  }

  lemma ReadSafe(w: World, s: WorldStep)
    requires SafeInv(w) && Enabled(w, s) && s.Read?
    ensures SafeInv(NextWorld(w, s))
  {
    ReadForm(w, s);
    QuietSafe(w, NextWorld(w, s), s.now);
  }

  lemma LostSafe(w: World, s: WorldStep)
    requires SafeInv(w) && Enabled(w, s) && s.Fire? && !Wins(w, s.leader)
    ensures SafeInv(NextWorld(w, s))
  {
    LostForm(w, s);
    QuietSafe(w, NextWorld(w, s), s.now);
  }

  lemma DeleteSafe(w: World, n: Name, now: Time)
    requires SafeInv(w) && w.clock <= now
    ensures SafeInv(NextWorld(w, Delete(n, now)))
  {
    DeleteForm(w, n, now);
    QuietSafe(w, NextWorld(w, Delete(n, now)), now);
  }

  /** A fire commits later than the row's `last_enqueued_at`. */
  lemma FireIsLater(w: World, l: int)
    requires CursorsOk(w) && Wins(w, l)
    ensures var c := w.leaders[l];
            && c.pending[0] % D.SECOND == 0
            && (c.previous.Some? ==> c.previous.value < c.pending[0])
            && CursorOk(Cursor(c.name, Some(c.pending[0]), c.pending[1..]))
  {
    assert CursorOk(w.leaders[l]);
  }

  lemma FireBounded(w: World, v: World, l: int, now: Time, n: Name, generation: nat, at: Time)
    requires CursorsOk(w) && Wins(w, l) && FireStep(w, v, l, now) && Bounded(w, n, generation, at)
    ensures Bounded(v, n, generation, at)
    ensures n == w.leaders[l].name && generation == Generation(w, n) ==> at < w.leaders[l].pending[0]
  {
    FireIsLater(w, l);
  }

  lemma FireRestores(w: World, v: World, l: int, now: Time)
    requires CursorsOk(w) && RestoresOk(w) && Wins(w, l) && FireStep(w, v, l, now)
    ensures RestoresOk(v)
  {
    forall r | r in v.restores ensures r.at <= v.clock && Bounded(v, r.name, r.generation, r.at) && NoReplay(v.log, r) {
      assert NoReplay(w.log, r);
      FireBounded(w, v, l, now, r.name, r.generation, r.at);
    }
  }

  lemma FireLasts(w: World, v: World, l: int, now: Time)
    requires LastsKnown(w) && Wins(w, l) && FireStep(w, v, l, now)
    ensures LastsKnown(v)
  {
    var f := Firing(w.leaders[l].name, Generation(w, w.leaders[l].name), w.leaders[l].pending[0]);
    assert v.log[|w.log|] == f;
    forall n | n in v.tables.schedules ensures LastKnown(v, n) {
      assert LastKnown(w, n);
      assert forall g :: g in w.log ==> g in v.log;
    }
  }

  lemma FireLog(w: World, v: World, l: int, now: Time)
    requires CursorsOk(w) && LogOk(w) && Wins(w, l) && FireStep(w, v, l, now)
    ensures LogOk(v)
  {
    FireIsLater(w, l);
    forall k | 0 <= k < |v.log| ensures v.log[k].at % D.SECOND == 0 && Logged(v, v.log[k]) {
      assert k < |w.log| ==> Logged(w, w.log[k]);
    }
  }

  lemma FireSafe(w: World, l: int, now: Time)
    requires SafeInv(w) && w.clock <= now && Wins(w, l)
    ensures SafeInv(NextWorld(w, Fire(l, now)))
  {
    var v := NextWorld(w, Fire(l, now));
    FireForm(w, l, now);
    FireIsLater(w, l);
    FireRestores(w, v, l, now);
    FireLasts(w, v, l, now);
    FireLog(w, v, l, now);
  }

  /** Every step of every leader, and every other cron transaction, keeps it. */
  lemma WorldStepSafe(w: World, s: WorldStep)
    requires SafeInv(w) && Enabled(w, s)
    ensures SafeInv(NextWorld(w, s))
  {
    if RewritesTables(s) {
      TableStepSafe(w, s);
    } else if s.Delete? {
      DeleteSafe(w, s.name, s.now);
    } else if s.Fire? && Wins(w, s.leader) {
      FireSafe(w, s.leader, s.now);
    } else if s.Fire? {
      LostSafe(w, s);
    } else {
      ReadSafe(w, s);
    }
  }

  lemma {:induction false} RunSafe(steps: seq<WorldStep>, inclusive: bool)
    ensures SafeInv(Run(steps, inclusive))
  {
    if steps != [] {
      var w, s := Run(steps[..|steps|-1], inclusive), steps[|steps|-1];
      RunSafe(steps[..|steps|-1], inclusive);
      if Enabled(w, s) {
        WorldStepSafe(w, s);
      }
    }
  }

  /** No replay. Over every interleaving of any number of leaders, whatever their
      clocks, with every other cron transaction: every automatic enqueue logged after a
      restore is later than the restore. */
  lemma NoReplayAfterRestore(steps: seq<WorldStep>, inclusive: bool, r: Restored)
    requires r in Run(steps, inclusive).restores
    ensures NoReplay(Run(steps, inclusive).log, r)
  {
    RunSafe(steps, inclusive);
  }

  // ---- Order, as long as restores are in time ----------------------------------------------

  lemma TableStepOrder(w: World, s: WorldStep)
    requires SafeInv(w) && OrderInv(w) && Enabled(w, s) && RewritesTables(s) && RestoreInTime(w, s)
    ensures OrderInv(NextWorld(w, s))
  {
    var v := NextWorld(w, s);
    TableStepForm(w, s);
    forall k | 0 <= k < |v.log| ensures Bounded(v, v.log[k].name, v.log[k].generation, v.log[k].at) {
      var f := w.log[k];
      assert Bounded(w, f.name, f.generation, f.at);
      InTimeKeeps(w, v, s, f);
    }
  }

  lemma InTimeKeeps(w: World, v: World, s: WorldStep, f: Firing)
    requires TableStep(w, v, RevivedBy(w, s), At(s)) && RestoreInTime(w, s)
    requires Bounded(w, f.name, f.generation, f.at)
    ensures Bounded(v, f.name, f.generation, f.at)
  {
  }

  lemma QuietOrder(w: World, v: World, now: Time)
    requires OrderInv(w) && QuietStep(w, v, now)
    ensures OrderInv(v)
  {
    forall k | 0 <= k < |v.log| ensures Bounded(v, v.log[k].name, v.log[k].generation, v.log[k].at) {
      QuietBounded(w, v, now, w.log[k].name, w.log[k].generation, w.log[k].at);
    }
  }

  lemma FireOrder(w: World, l: int, now: Time)
    requires SafeInv(w) && OrderInv(w) && w.clock <= now && Wins(w, l)
    ensures OrderInv(NextWorld(w, Fire(l, now)))
  {
    var v := NextWorld(w, Fire(l, now));
    FireForm(w, l, now);
    forall k | 0 <= k < |w.log|
      ensures Bounded(v, w.log[k].name, w.log[k].generation, w.log[k].at)
      ensures w.log[k].name == v.log[|w.log|].name && w.log[k].generation == v.log[|w.log|].generation ==>
                w.log[k].at < v.log[|w.log|].at
    {
      FireBounded(w, v, l, now, w.log[k].name, w.log[k].generation, w.log[k].at);
    }
  }

  lemma WorldStepOrder(w: World, s: WorldStep)
    requires SafeInv(w) && OrderInv(w) && Enabled(w, s) && RestoreInTime(w, s)
    ensures OrderInv(NextWorld(w, s))
  {
    if RewritesTables(s) {
      TableStepOrder(w, s);
    } else if s.Delete? {
      DeleteForm(w, s.name, s.now);
      QuietOrder(w, NextWorld(w, s), s.now);
    } else if s.Fire? && Wins(w, s.leader) {
      FireOrder(w, s.leader, s.now);
    } else if s.Fire? {
      LostForm(w, s);
      QuietOrder(w, NextWorld(w, s), s.now);
    } else {
      ReadForm(w, s);
      QuietOrder(w, NextWorld(w, s), s.now);
    }
  }

  /** Every restore of the run, from the `from`-th step on, is in time. */
  ghost predicate RestoresInTime(steps: seq<WorldStep>, inclusive: bool, from: nat) {
    forall i :: from <= i < |steps| ==> RestoreInTime(Run(steps[..i], inclusive), steps[i])
  }

  lemma EarlierInTime(steps: seq<WorldStep>, inclusive: bool, from: nat)
    requires steps != [] && RestoresInTime(steps, inclusive, from)
    ensures RestoresInTime(steps[..|steps|-1], inclusive, from)
  {
    var before := steps[..|steps|-1];
    forall i | from <= i < |before| ensures RestoreInTime(Run(before[..i], inclusive), before[i]) {
      assert before[..i] == steps[..i];
    }
  }

  /** Once in order, a run stays in order while its restores are in time. */
  lemma {:induction false} RunOrder(steps: seq<WorldStep>, inclusive: bool, from: nat)
    requires from <= |steps| && OrderInv(Run(steps[..from], inclusive)) && RestoresInTime(steps, inclusive, from)
    ensures OrderInv(Run(steps, inclusive))
  {
    if from == |steps| {
      assert steps[..from] == steps;
    } else {
      var before, s := steps[..|steps|-1], steps[|steps|-1];
      assert before[..from] == steps[..from] && steps[..|steps|-1] == before;
      EarlierInTime(steps, inclusive, from);
      RunOrder(before, inclusive, from);
      RunSafe(before, inclusive);
      assert RestoreInTime(Run(before, inclusive), s);
      if Enabled(Run(before, inclusive), s) {
        WorldStepOrder(Run(before, inclusive), s);
      }
    }
  }

  /** No double fire. Over every interleaving, whatever the leaders' clocks, if no
      restore finds a last fire ahead of the database clock: the automatic enqueues of
      one generation of a schedule commit at strictly increasing fire times. */
  lemma NoDoubleFire(steps: seq<WorldStep>, inclusive: bool)
    requires RestoresInTime(steps, inclusive, 0)
    ensures InOrder(Run(steps, inclusive).log)
  {
    assert Run(steps[..0], inclusive) == NoWorld(inclusive);
    RunOrder(steps, inclusive, 0);
  }

  // ---- Leaders that are not ahead ------------------------------------------------------------

  /** No leader's clock is ahead of the database's. */
  ghost predicate ClocksNotAhead(steps: seq<WorldStep>) {
    forall i :: 0 <= i < |steps| && steps[i].Read? ==> steps[i].leaderClock <= steps[i].now
  }

  /** Nothing fired or about to fire lies beyond the clock. */
  ghost predicate NothingAhead(w: World) {
    && (forall n :: n in w.tables.schedules && w.tables.schedules[n].lastEnqueuedAt.Some? ==>
          w.tables.schedules[n].lastEnqueuedAt.value <= w.clock)
    && (forall l, i :: l in w.leaders && 0 <= i < |w.leaders[l].pending| ==> w.leaders[l].pending[i] <= w.clock)
  }

  lemma StepNotAhead(w: World, s: WorldStep)
    requires Inv(w.tables) && NothingAhead(w) && Enabled(w, s) && (s.Read? ==> s.leaderClock <= s.now)
    ensures NothingAhead(NextWorld(w, s))
  {
    if RewritesTables(s) {
      TableStepForm(w, s);
    } else if s.Fire? && Wins(w, s.leader) {
      FireForm(w, s.leader, s.now);
    } else if s.Delete? {
      DeleteForm(w, s.name, s.now);
    } else if s.Fire? {
      LostForm(w, s);
    } else {
      ReadForm(w, s);
    }
  }

  lemma {:induction false} RunNotAhead(steps: seq<WorldStep>, inclusive: bool)
    requires ClocksNotAhead(steps)
    ensures NothingAhead(Run(steps, inclusive))
  {
    if steps != [] {
      var w, s := Run(steps[..|steps|-1], inclusive), steps[|steps|-1];
      RunNotAhead(steps[..|steps|-1], inclusive);
      if Enabled(w, s) {
        StepNotAhead(w, s);
      }
    }
  }

  /** If no leader's clock is ahead, every restore that takes effect is in time, so the
      fires of a generation stay in order. */
  lemma NotAheadInOrder(steps: seq<WorldStep>, inclusive: bool)
    requires ClocksNotAhead(steps)
    ensures InOrder(Run(steps, inclusive).log)
  {
    NotAheadOrderInv(steps, inclusive);
  }

  lemma {:induction false} NotAheadOrderInv(steps: seq<WorldStep>, inclusive: bool)
    requires ClocksNotAhead(steps)
    ensures OrderInv(Run(steps, inclusive))
  {
    if steps != [] {
      var w, s := Run(steps[..|steps|-1], inclusive), steps[|steps|-1];
      NotAheadOrderInv(steps[..|steps|-1], inclusive);
      RunNotAhead(steps[..|steps|-1], inclusive);
      RunSafe(steps[..|steps|-1], inclusive);
      if Enabled(w, s) {
        WorldStepOrder(w, s);
      }
    }
  }

  /** A step logs at most one fire, and only against a row that is neither paused
      nor retired, even if the leader read it before that changed. */
  lemma FiresOnlyActive(w: World, s: WorldStep)
    requires Inv(w.tables) && Enabled(w, s)
    ensures var v := NextWorld(w, s);
            v.log == w.log
            || (|v.log| == |w.log| + 1 && v.log[..|w.log|] == w.log
                && var n := v.log[|w.log|].name;
                   && Active(w, n) && n in v.tables.schedules
                   && v.tables.schedules[n].lastEnqueuedAt == Some(v.log[|w.log|].at))
  {
    if s.Fire? && Wins(w, s.leader) {
      FireForm(w, s.leader, s.now);
    }
  }
}
