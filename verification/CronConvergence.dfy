/** What one evaluation promises: the cached heartbeat path computes what the
    uncached one would, a dry run predicts an application, and an application
    leaves nothing to do. */
module CronConvergence {
  import opened Prelude
  import opened KeySort
  import opened CronManifest
  import opened CronTables
  import opened CronEvaluation
  import opened CronCertificate

  // ---- The reference: no certificate, every evaluation describes and syncs ----

  function FullCompared(t: Tables, owner: Owner, now: Time): (p: Plan)
    requires Backed(t)
  {
    EvidenceShape(t, owner, now);
    var p := Evidence(t, owner, now);
    var changes := if p.desiredHash.Some?
                   then Describe(t.schedules, owner, Wanted(t.manifests[(owner, p.desiredHash.value)]))
                   else NoChanges;
    p.(changes := changes,
       blockers := p.blockers + if changes.conflicts != {} then [OwnershipOrRetirementConflict] else [])
  }

  function FullEvaluate(t: Tables, owner: Owner, now: Time, apply: bool): (e: Evaluated)
    requires Backed(t)
  {
    EvidenceShape(t, owner, now);
    var p0 := FullCompared(t, owner, now);
    if p0.blockers != [] then Evaluated(p0, Disagree(t, owner))
    else
      var p := Graced(t, p0);
      var recorded := Record(SyncDefinitions(t, owner, p.desiredHash.value, now), p);
      if apply && p.blockers == [] then Evaluated(p.(applied := true), RetireAbsent(recorded, p))
      else Evaluated(p, recorded)
  }

  /** Under the certificate for `h`, synchronising to `h` changes nothing. */
  lemma CertifiedSyncIsIdle(t: Tables, o: Owner, h: Digest, now: Time)
    requires Inv(t) && o in t.owners && (o, h) in t.manifests && t.owners[o].syncedHash == Some(h)
    ensures SyncDefinitions(t, o, h, now) == t
  {
    assert CertifiedFor(t, o);
    CertifiedHasNoChanges(t.schedules, o, Wanted(t.manifests[(o, h)]));
    assert t.owners[o := t.owners[o].(syncedHash := Some(h))] == t.owners;
  }

  /** The optimised evaluation refines the reference: same tables, same blockers
      and conflicts, same window and grace, and for a reconciliation the same plan. */
  lemma FastPathIsFull(t: Tables, owner: Owner, now: Time, apply: bool)
    requires Inv(t)
    ensures var fast := Evaluate(t, owner, now, if apply then Apply else Heartbeat);
            var full := FullEvaluate(t, owner, now, apply);
            && fast.after == full.after
            && fast.plan.(changes := NoChanges) == full.plan.(changes := NoChanges)
            && fast.plan.changes.conflicts == full.plan.changes.conflicts
            && (apply ==> fast.plan == full.plan)
  {
    EvidenceShape(t, owner, now);
    HeartbeatSeesConflicts(t, owner, now);
    var p := Compared(t, owner, now, if apply then Apply else Heartbeat);
    var q := FullCompared(t, owner, now);
    assert q == Compared(t, owner, now, DryRun);
    assert p.(changes := NoChanges) == q.(changes := NoChanges);
    if p.blockers == [] {
      AgreedIsFull(t, p, q);
    }
  }

  /** With the same evidence, skipping or running the sync records the same tables. */
  lemma AgreedIsFull(t: Tables, p: Plan, q: Plan)
    requires Inv(t) && p.(changes := NoChanges) == q.(changes := NoChanges)
    requires p.owner in t.owners && p.desiredHash.Some? && p.declarations != map[]
    requires (p.owner, p.desiredHash.value) in t.manifests
    ensures Graced(t, p).(changes := NoChanges) == Graced(t, q).(changes := NoChanges)
    ensures Record(Synced(t, Graced(t, p)), Graced(t, p))
            == Record(SyncDefinitions(t, p.owner, p.desiredHash.value, p.evaluatedAt), Graced(t, q))
  {
    if t.owners[p.owner].syncedHash == p.desiredHash {
      CertifiedSyncIsIdle(t, p.owner, p.desiredHash.value, p.evaluatedAt);
    }
  }

  /** A dry run predicts a reconciliation of the same state at the same instant:
      same plan, and it is applied exactly when nothing blocks. */
  lemma DryRunPredictsApply(t: Tables, owner: Owner, now: Time)
    requires Backed(t)
    ensures var dry := Evaluate(t, owner, now, DryRun);
            var run := Evaluate(t, owner, now, Apply);
            && dry.after == t && !dry.plan.applied
            && run.plan == dry.plan.(applied := dry.plan.blockers == [])
            && (!run.plan.applied ==> forall n :: n in t.schedules ==>
                  n in run.after.schedules && run.after.schedules[n].retirement == t.schedules[n].retirement)
  {
    EvidenceShape(t, owner, now);
    var p := Compared(t, owner, now, Apply);
    assert p == Compared(t, owner, now, DryRun);
    if p.blockers == [] {
      var q := Graced(t, p);
      assert forall n :: n in t.schedules ==> n in Synced(t, q).schedules;
    }
  }

  // ---- Convergence ------------------------------------------------------------

  /** The owner's active definitions. */
  function ActiveDefinitions(schedules: map<Name, Schedule>, owner: Owner): map<Name, Definition> {
    map n | n in schedules && Held(schedules[n], owner) :: schedules[n].definition
  }

  /** Retiring what the plan lists leaves exactly the wanted rows active. */
  lemma RetiringLeavesWanted(t: Tables, p: Plan, want: map<Name, Definition>)
    requires Certifies(t.schedules, p.owner, want)
    requires forall n :: n in t.schedules && Held(t.schedules[n], p.owner) && n !in want ==> n in p.changes.retirements
    requires p.changes.retirements !! want.Keys
    ensures ActiveDefinitions(RetireAbsent(t, p).schedules, p.owner) == want
    ensures Describe(RetireAbsent(t, p).schedules, p.owner, want) == NoChanges
  {
    var after := RetireAbsent(t, p).schedules;
    assert Certifies(after, p.owner, want);
    CertifiedHasNoChanges(after, p.owner, want);
    assert forall n :: n in after && Held(after[n], p.owner) <==> n in want;
    assert ActiveDefinitions(after, p.owner).Keys == want.Keys;
  }

  /** A sync adds no active row of the owner outside the manifest. */
  lemma SyncAddsOnlyWanted(t: Tables, p: Plan, n: Name)
    requires p.owner in t.owners && p.desiredHash.Some? && (p.owner, p.desiredHash.value) in t.manifests
    requires n in Synced(t, p).schedules && Held(Synced(t, p).schedules[n], p.owner)
    requires n !in Wanted(t.manifests[(p.owner, p.desiredHash.value)])
    ensures n in t.schedules && Held(t.schedules[n], p.owner)
  {
  }

  /** The owner's rows and agreement say exactly what the plan says. */
  ghost predicate Settled(t: Tables, p: Plan) {
    && p.desiredHash.Some? && p.declarations != map[]
    && p.owner in t.owners && (p.owner, p.desiredHash.value) in t.manifests
    && t.owners[p.owner] == Agreement(p.desiredHash, p.desiredHash, p.agreedSince, Some(EarliestExpiry(p.declarations)))
    && ActiveDefinitions(t.schedules, p.owner) == Wanted(t.manifests[(p.owner, p.desiredHash.value)])
    && Describe(t.schedules, p.owner, Wanted(t.manifests[(p.owner, p.desiredHash.value)])) == NoChanges
  }

  /** The shape of an applied reconciliation. */
  lemma AppliedForm(t: Tables, owner: Owner, now: Time) returns (p: Plan)
    requires Backed(t) && Evaluate(t, owner, now, Apply).plan.applied
    ensures p.owner == owner && p.evaluatedAt == now && p.blockers == []
    ensures p.declarations == LiveDeclarations(t, owner, now) != map[]
    ensures p.desiredHash.Some? && (owner, p.desiredHash.value) in t.manifests && owner in t.owners
    ensures p.changes == Describe(t.schedules, owner, Wanted(t.manifests[(owner, p.desiredHash.value)]))
    ensures p.changes.conflicts == {}
    ensures p.agreedSince.Some? && GraceRemaining(p.declarations, p.agreedSince.value, now) == p.graceRemainingMs == 0
    ensures Evaluate(t, owner, now, Apply) == Evaluated(p.(applied := true), RetireAbsent(Record(Synced(t, p), p), p))
  {
    EvidenceShape(t, owner, now);
    p := Graced(t, Compared(t, owner, now, Apply));
  }

  /** An applied reconciliation settles the tables. */
  lemma AppliedSettles(t: Tables, owner: Owner, now: Time, plan: Plan, after: Tables)
    requires Inv(t) && Evaluate(t, owner, now, Apply) == Evaluated(plan, after) && plan.applied
    ensures Settled(after, plan)
    ensures after.declarations == t.declarations && after.runtimes == t.runtimes
  {
    var p := AppliedForm(t, owner, now);
    SyncedInv(t, p);
    AgreedSettles(t, p);
  }

  lemma AgreedSettles(t: Tables, p: Plan)
    requires p.desiredHash.Some? && p.declarations != map[] && p.owner in t.owners
    requires (p.owner, p.desiredHash.value) in t.manifests
    requires Inv(Synced(t, p)) && Synced(t, p).manifests == t.manifests && p.owner in Synced(t, p).owners
    requires Synced(t, p).owners[p.owner].syncedHash == p.desiredHash
    requires p.changes == Describe(t.schedules, p.owner, Wanted(t.manifests[(p.owner, p.desiredHash.value)]))
    ensures var after := RetireAbsent(Record(Synced(t, p), p), p);
            Settled(after, p.(applied := true)) && after.declarations == t.declarations && after.runtimes == t.runtimes
  {
    var want := Wanted(t.manifests[(p.owner, p.desiredHash.value)]);
    assert CertifiedFor(Synced(t, p), p.owner);
    forall n | n in Synced(t, p).schedules && Held(Synced(t, p).schedules[n], p.owner) && n !in want
      ensures n in p.changes.retirements
    {
      SyncAddsOnlyWanted(t, p, n);
    }
    RetiringLeavesWanted(Record(Synced(t, p), p), p, want);
  }

  /** Settled tables evaluated at the settling instant: nothing blocks, nothing
      changes, and reconciling once more is a no-op. */
  lemma SettledIsFixed(t: Tables, p: Plan)
    requires Backed(t) && Settled(t, p) && p.blockers == []
    requires Evidence(t, p.owner, p.evaluatedAt)
             == p.(blockers := [], changes := NoChanges, agreedSince := None, graceRemainingMs := 0, applied := false)
    requires p.agreedSince.Some? && EarliestExpiry(p.declarations) > p.evaluatedAt
    requires p.graceRemainingMs == GraceRemaining(p.declarations, p.agreedSince.value, p.evaluatedAt) == 0
    ensures DryRunPlan(t, p.owner, p.evaluatedAt) == p.(changes := NoChanges, applied := false)
    ensures Evaluate(t, p.owner, p.evaluatedAt, Apply).after == t
  {
    var q := p.(changes := NoChanges, applied := false);
    assert Graced(t, Compared(t, p.owner, p.evaluatedAt, Apply)) == q;
    RewritingSettled(t, q);
  }

  lemma RewritingSettled(t: Tables, p: Plan)
    requires Settled(t, p) && p.changes == NoChanges
    ensures RetireAbsent(Record(Synced(t, p), p), p) == t
  {
    assert Record(t, p).owners == t.owners;
    assert RetireAbsent(t, p).schedules == t.schedules;
  }

  /** Convergence: a plan at the instant of an applied reconciliation has no
      blockers and nothing to add, update, retire or dispute; the owner's active
      rows are exactly the agreed manifest; and reconciling again changes nothing. */
  lemma Convergence(t: Tables, owner: Owner, now: Time, plan: Plan, after: Tables)
    requires Inv(t) && Evaluate(t, owner, now, Apply) == Evaluated(plan, after) && plan.applied
    ensures Inv(after) && plan.desiredHash.Some?
    ensures DryRunPlan(after, owner, now) == plan.(changes := NoChanges, applied := false)
    ensures plan.blockers == []
    ensures ActiveDefinitions(after.schedules, owner) == Wanted(plan.desiredHash.value.of)
    ensures Evaluate(after, owner, now, Apply).after == after
  {
    EvaluateInv(t, owner, now, Apply);
    AppliedSettles(t, owner, now, plan, after);
    EvidenceShape(t, owner, now);
    ExpiryAhead(t, owner, now);
    assert Evidence(after, owner, now) == Evidence(t, owner, now);
    SettledIsFixed(after, plan);
  }

  /** What a reconciliation promises its caller. */
  lemma ReconcileMeans(t: Tables, owner: Owner, now: Time)
    requires Backed(t)
    ensures var e := Evaluate(t, owner, now, Apply);
            && e.plan == DryRunPlan(t, owner, now).(applied := e.plan.blockers == [])
            && (Inv(t) ==> Inv(e.after))
            && Backed(e.after)
            && (Inv(t) && e.plan.applied ==>
                  DryRunPlan(e.after, owner, now) == e.plan.(changes := NoChanges, applied := false))
  {
    DryRunPredictsApply(t, owner, now);
    EvaluateBacked(t, owner, now, Apply);
    if Inv(t) {
      EvaluateInv(t, owner, now, Apply);
      var e := Evaluate(t, owner, now, Apply);
      if e.plan.applied {
        Convergence(t, owner, now, e.plan, e.after);
      }
    }
  }

  /** A row that existed: an evaluation never changes its owner, pause, last fire or age, and
      nothing at all unless it is an active row of the evaluated owner. */
  ghost predicate RowEvaluated(owner: Owner, mode: Mode, row: Schedule, row1: Schedule) {
    && row1 == row.(definition := row1.definition, retirement := row1.retirement)
    && (!Held(row, owner) ==> row1 == row)
    && (!mode.Apply? ==> row1.retirement == row.retirement)
  }

  /** A row that is new: the owner's, active, unpaused and never fired. */
  predicate RowCreated(row: Schedule, owner: Owner, d: Definition, at: Time) {
    && row.owner == Some(owner) && row.definition == d && row.createdAt == at
    && row.retirement.None? && row.pausedAt.None? && row.lastEnqueuedAt.None?
  }

  lemma SyncedRow(t: Tables, p: Plan, n: Name)
    requires p.desiredHash.Some? && (p.owner, p.desiredHash.value) in t.manifests
    ensures var t1, want := Synced(t, p), Wanted(t.manifests[(p.owner, p.desiredHash.value)]);
            && (n in t.schedules ==>
                  n in t1.schedules && RowEvaluated(p.owner, Heartbeat, t.schedules[n], t1.schedules[n]))
            && (n !in t.schedules && n in t1.schedules ==>
                  n in want && RowCreated(t1.schedules[n], p.owner, want[n], p.evaluatedAt))
  {
  }

  lemma RetiredRow(t: Tables, p: Plan, n: Name)
    ensures var t1 := RetireAbsent(t, p);
            && (n in t1.schedules <==> n in t.schedules)
            && (n in t.schedules ==> RowEvaluated(p.owner, Apply, t.schedules[n], t1.schedules[n]))
            && (n in t.schedules && n !in p.changes.retirements ==> t1.schedules[n] == t.schedules[n])
  {
  }

  lemma AgreedRows(t: Tables, c: Plan, mode: Mode, n: Name)
    requires c.desiredHash.Some? && c.declarations != map[] && (c.owner, c.desiredHash.value) in t.manifests
    requires n in c.changes.retirements ==> n in t.schedules
    ensures var t1, want := Agreed(t, c, mode).after, Wanted(t.manifests[(c.owner, c.desiredHash.value)]);
            && (n in t.schedules ==> n in t1.schedules && RowEvaluated(c.owner, mode, t.schedules[n], t1.schedules[n]))
            && (n !in t.schedules && n in t1.schedules ==>
                  n in want && RowCreated(t1.schedules[n], c.owner, want[n], c.evaluatedAt))
  {
    var p := Graced(t, c);
    SyncedRow(t, p, n);
    RetiredRow(Record(Synced(t, p), p), p, n);
  }

  /** What an evaluation can do to a row. */
  lemma EvaluateRows(t: Tables, owner: Owner, now: Time, mode: Mode, n: Name)
    requires Backed(t)
    ensures var e := Evaluate(t, owner, now, mode);
            var t1 := e.after;
            && (n in t.schedules ==> n in t1.schedules && RowEvaluated(owner, mode, t.schedules[n], t1.schedules[n]))
            && (n !in t.schedules && n in t1.schedules ==>
                  && e.plan.desiredHash.Some? && n in Wanted(e.plan.desiredHash.value.of)
                  && RowCreated(t1.schedules[n], owner, Wanted(e.plan.desiredHash.value.of)[n], now))
  {
    EvidenceShape(t, owner, now);
    var c := Compared(t, owner, now, mode);
    if c.blockers == [] {
      AgreedRows(t, c, mode, n);
    }
  }

  /** The first publication of a manifest inserts the rows that are missing and touches
      none that is there. */
  lemma DeclaredRows(t: Tables, instance: Instance, c: Config, m: PeriodicManifest, seenAt: Time, n: Name)
    ensures var d := Declared(t, instance, c, m, seenAt);
            && (n in t.schedules ==> n in d.schedules && d.schedules[n] == t.schedules[n])
            && (n !in t.schedules ==>
                  && (n in d.schedules <==> n in Wanted(m.value) && (c.owner, m.hash) !in t.manifests)
                  && (n in d.schedules ==> RowCreated(d.schedules[n], c.owner, Wanted(m.value)[n], seenAt)))
  {
  }

  /** What a publication leaves of a row, and of a name it may create. */
  ghost predicate RowPublished(t: Tables, t1: Tables, c: Config, m: PeriodicManifest,
                               seenAt: Time, now: Time, n: Name) {
    && (n in t.schedules ==> n in t1.schedules && RowEvaluated(c.owner, Heartbeat, t.schedules[n], t1.schedules[n]))
    && (n in Wanted(m.value) && (c.owner, m.hash) !in t.manifests ==> n in t1.schedules)
    && (n !in t.schedules && n in t1.schedules ==>
          && t1.schedules[n].owner == Some(c.owner) && t1.schedules[n].retirement.None?
          && t1.schedules[n].pausedAt.None? && t1.schedules[n].lastEnqueuedAt.None?
          && seenAt <= t1.schedules[n].createdAt <= now)
  }

  lemma PublishRows(t: Tables, instance: Instance, c: Config, m: PeriodicManifest, seenAt: Time, now: Time, n: Name)
    requires Backed(t) && Prepared(m) && seenAt <= now && Publishes(t, instance, c)
    ensures RowPublished(t, Next(t, Step.Publish(instance, c, m, seenAt, now)), c, m, seenAt, now, n)
  {
    DeclaredBacked(t, instance, c, m, seenAt);
    var d := Declared(t, instance, c, m, seenAt);
    DeclaredRows(t, instance, c, m, seenAt, n);
    EvaluateRows(d, c.owner, now, Heartbeat, n);
  }

  /** The instance's declaration is the one it made, the manifest is stored, and no other
      declaration, runtime or manifest changed. */
  ghost predicate Announced(t: Tables, t1: Tables, instance: Instance, c: Config, m: PeriodicManifest, seenAt: Time) {
    && instance in t1.declarations
    && t1.declarations[instance].owner == c.owner && t1.declarations[instance].revision == c.revision
    && t1.declarations[instance].desiredHash == m.hash && t1.declarations[instance].graceMs == c.graceMs
    && t1.declarations[instance].lastSeenAt == seenAt
    && t1.declarations - {instance} == t.declarations - {instance} && t1.runtimes == t.runtimes
    && c.owner in t1.owners && (c.owner, m.hash) in t1.manifests && t1.manifests[(c.owner, m.hash)] == m.value
    && t1.manifests - {(c.owner, m.hash)} == t.manifests - {(c.owner, m.hash)}
  }

  lemma DeclaredAnnounces(t: Tables, t1: Tables, instance: Instance, c: Config, m: PeriodicManifest, seenAt: Time)
    requires Backed(t) && Prepared(m)
    requires var d := Declared(t, instance, c, m, seenAt);
             && t1.declarations == d.declarations && t1.runtimes == d.runtimes
             && t1.manifests == d.manifests && t1.owners.Keys == d.owners.Keys
    ensures Announced(t, t1, instance, c, m, seenAt)
  {
  }

  lemma PublishAnnounces(t: Tables, instance: Instance, c: Config, m: PeriodicManifest, seenAt: Time, now: Time)
    requires Backed(t) && Prepared(m) && seenAt <= now && Publishes(t, instance, c)
    ensures var t1 := Next(t, Step.Publish(instance, c, m, seenAt, now));
            Announced(t, t1, instance, c, m, seenAt) && forall n :: RowPublished(t, t1, c, m, seenAt, now, n)
  {
    var t1 := Next(t, Step.Publish(instance, c, m, seenAt, now));
    DeclaredBacked(t, instance, c, m, seenAt);
    EvaluateFrame(Declared(t, instance, c, m, seenAt), c.owner, now, Heartbeat);
    DeclaredAnnounces(t, t1, instance, c, m, seenAt);
    forall n ensures RowPublished(t, t1, c, m, seenAt, now, n) {
      PublishRows(t, instance, c, m, seenAt, now, n);
    }
  }

  /** What a publication promises its caller. */
  lemma PublishMeans(t: Tables, instance: Instance, c: Config, m: PeriodicManifest, seenAt: Time, now: Time)
    requires Backed(t) && Prepared(m) && seenAt <= now
    ensures var t1 := Next(t, Step.Publish(instance, c, m, seenAt, now));
            && Backed(t1) && (Inv(t) ==> Inv(t1))
            && (Publishes(t, instance, c) ==> Announced(t, t1, instance, c, m, seenAt))
            && (Publishes(t, instance, c) ==> forall n :: RowPublished(t, t1, c, m, seenAt, now, n))
            && (!Publishes(t, instance, c) ==> t1 == t)
  {
    if Inv(t) {
      StepInv(t, Step.Publish(instance, c, m, seenAt, now));
    }
    if Publishes(t, instance, c) {
      PublishAnnounces(t, instance, c, m, seenAt, now);
      DeclaredBacked(t, instance, c, m, seenAt);
      EvaluateBacked(Declared(t, instance, c, m, seenAt), c.owner, now, Heartbeat);
    }
  }

  // ---- Operator actions -----------------------------------------------------------

  /** The action happened to every row it concerns and to no other; exactly the owners it
      takes a row from or gives one to lost their certificate and their window. */
  ghost predicate Done(t: Tables, t1: Tables, a: Action, actor: string, now: Time) {
    && t1.schedules.Keys == t.schedules.Keys
    && (forall n :: n in t.schedules ==> RowDone(a, actor, now, n, t.schedules[n], t1.schedules[n]))
    && t1.owners.Keys == t.owners.Keys + (if a.Adopt? then {a.owner} else {})
    && (forall o :: o in t1.owners ==>
          t1.owners[o] == if o in t.owners && !Touches(t, a, o) then t.owners[o] else NoAgreement)
    && t1 == t.(schedules := t1.schedules, owners := t1.owners)
  }

  lemma SelectedIs(t: Tables, a: Action)
    ensures forall n :: n in Selected(t, a) <==> n in t.schedules && Picks(a, n, t.schedules[n])
  {
  }

  lemma AffectedIs(t: Tables, a: Action, o: Owner)
    ensures o in Affected(t, a) <==> Touches(t, a, o)
  {
    SelectedIs(t, a);
    if n :| n in t.schedules && t.schedules[n].owner == Some(o) && Picks(a, n, t.schedules[n]) {
      assert n in Selected(t, a);
    }
  }

  lemma OperatedRowDone(a: Action, actor: string, now: Time, n: Name, row: Schedule)
    ensures RowDone(a, actor, now, n, row, if Picks(a, n, row) then OperatedRow(row, a, actor, now) else row)
  {
  }

  lemma OperateRowsDone(t: Tables, a: Action, actor: string, now: Time)
    requires Permitted(t, a, actor)
    ensures var t1 := Operate(t, a, actor, now);
            && t1.schedules.Keys == t.schedules.Keys
            && forall n :: n in t.schedules ==> RowDone(a, actor, now, n, t.schedules[n], t1.schedules[n])
  {
    var t1 := Operate(t, a, actor, now);
    SelectedIs(t, a);
    forall n | n in t.schedules ensures RowDone(a, actor, now, n, t.schedules[n], t1.schedules[n]) {
      OperatedRowDone(a, actor, now, n, t.schedules[n]);
    }
  }

  lemma OperateOwnerKeys(t: Tables, a: Action, actor: string, now: Time)
    requires Permitted(t, a, actor)
    ensures Operate(t, a, actor, now).owners.Keys == t.owners.Keys + if a.Adopt? then {a.owner} else {}
  {
  }

  lemma OperateOwnersDone(t: Tables, a: Action, actor: string, now: Time)
    requires Permitted(t, a, actor)
    ensures var t1 := Operate(t, a, actor, now);
            && t1.owners.Keys == t.owners.Keys + (if a.Adopt? then {a.owner} else {})
            && forall o :: o in t1.owners ==>
                 t1.owners[o] == if o in t.owners && !Touches(t, a, o) then t.owners[o] else NoAgreement
  {
    OperateOwnerKeys(t, a, actor, now);
    OperateOwners(t, a, actor, now);
    var t1 := Operate(t, a, actor, now);
    forall o | o in t1.owners
      ensures t1.owners[o] == if o in t.owners && !Touches(t, a, o) then t.owners[o] else NoAgreement
    {
      AffectedIs(t, a, o);
    }
  }

  lemma OperateDone(t: Tables, a: Action, actor: string, now: Time)
    requires Permitted(t, a, actor)
    ensures Done(t, Operate(t, a, actor, now), a, actor, now)
  {
    OperateRowsDone(t, a, actor, now);
    OperateOwnersDone(t, a, actor, now);
  }

  /** What an operator action promises its caller. */
  lemma OperateMeans(t: Tables, a: Action, actor: string, now: Time)
    requires Backed(t)
    ensures var t1 := Operate(t, a, actor, now);
            && Backed(t1) && (Inv(t) ==> Inv(t1))
            && (!Permitted(t, a, actor) ==> t1 == t)
            && (Permitted(t, a, actor) ==> Done(t, t1, a, actor, now))
  {
    if Inv(t) {
      OperateInv(t, a, actor, now);
    }
    if Permitted(t, a, actor) {
      OperateDone(t, a, actor, now);
    }
  }

  /** Of two operators who adopt a schedule from the same owner, only the first succeeds. */
  lemma AdoptOnce(t: Tables, n: Name, o: Owner, expected: Option<Owner>, actor: string, now: Time,
                  o2: Owner, actor2: string)
    requires Permitted(t, Adopt(n, o, expected), actor) && expected != Some(o)
    ensures t.schedules[n].owner == expected
    ensures !Permitted(Operate(t, Adopt(n, o, expected), actor, now), Adopt(n, o2, expected), actor2)
  {
  }

  /** Live evidence has not expired yet. */
  lemma ExpiryAhead(t: Tables, owner: Owner, now: Time)
    ensures var live := LiveDeclarations(t, owner, now);
            live != map[] ==> EarliestExpiry(live) > now
  {
    var live := LiveDeclarations(t, owner, now);
    if live != map[] {
      MapNonEmpty(live);
      assert EarliestExpiry(live) in Expiries(live);
    }
  }

  /** A plan lists exactly what applying it does: additions are the names that
      appear, updates the rows redefined, retirements the rows retired. */
  lemma PlanIsDifference(t: Tables, owner: Owner, now: Time, plan: Plan, after: Tables, n: Name)
    requires Inv(t) && Evaluate(t, owner, now, Apply) == Evaluated(plan, after) && plan.applied
    ensures n in plan.changes.additions <==> n !in t.schedules && n in after.schedules
    ensures n in plan.changes.updates <==>
              n in t.schedules && n in after.schedules && after.schedules[n].definition != t.schedules[n].definition
    ensures n in plan.changes.retirements <==>
              n in t.schedules && n in after.schedules
              && t.schedules[n].retirement.None? && after.schedules[n].retirement.Some?
    ensures n in t.schedules ==> n in after.schedules && after.schedules[n].owner == t.schedules[n].owner
  {
    var p := AppliedForm(t, owner, now);
    var want := Wanted(t.manifests[(owner, p.desiredHash.value)]);
    SyncedRows(t, p);
    SyncDifference(t.schedules, owner, want, now, n);
    RetireDifference(Record(Synced(t, p), p), p, n);
  }

  /** Skipped or not, a sync leaves the rows the upsert would. */
  lemma SyncedRows(t: Tables, p: Plan)
    requires Inv(t) && p.owner in t.owners && p.desiredHash.Some? && (p.owner, p.desiredHash.value) in t.manifests
    ensures Synced(t, p).schedules
            == SyncRows(t.schedules, p.owner, Wanted(t.manifests[(p.owner, p.desiredHash.value)]), p.evaluatedAt)
  {
    if t.owners[p.owner].syncedHash == p.desiredHash {
      CertifiedSyncIsIdle(t, p.owner, p.desiredHash.value, p.evaluatedAt);
    }
  }

  lemma SyncDifference(schedules: map<Name, Schedule>, owner: Owner, want: map<Name, Definition>, now: Time, n: Name)
    requires Describe(schedules, owner, want).conflicts == {}
    ensures var d, r := Describe(schedules, owner, want), SyncRows(schedules, owner, want, now);
            && (n in d.additions <==> n !in schedules && n in r)
            && (n in schedules ==>
                  n in r && r[n].owner == schedules[n].owner && r[n].retirement == schedules[n].retirement)
            && (n in d.updates <==> n in schedules && r[n].definition != schedules[n].definition)
            && (n in d.retirements ==> n in schedules && Held(schedules[n], owner))
            && (n in d.retirements && n in schedules ==> Held(r[n], owner))
            && (n !in schedules && n in r ==> r[n].retirement.None? && n !in d.retirements)
  {
    SyncCertifies(schedules, owner, want, now);
  }

  lemma RetireDifference(t: Tables, p: Plan, n: Name)
    ensures var r := RetireAbsent(t, p).schedules;
            && (n in r <==> n in t.schedules)
            && (n in r ==> r[n].definition == t.schedules[n].definition && r[n].owner == t.schedules[n].owner)
            && (n in r ==> (r[n].retirement != t.schedules[n].retirement <==>
                              n in p.changes.retirements && Held(t.schedules[n], p.owner)))
  {
  }

  /** Each conflict names the reason: another owner's row, or the owner's own
      retired row. */
  lemma ConflictsMean(schedules: map<Name, Schedule>, owner: Owner, want: map<Name, Definition>,
                      n: Name, other: Option<Owner>)
    ensures OwnedBy(n, other) in Describe(schedules, owner, want).conflicts <==>
              n in want && n in schedules && schedules[n].owner == other && other != Some(owner)
    ensures Retired(n) in Describe(schedules, owner, want).conflicts <==>
              n in want && n in schedules && schedules[n].owner == Some(owner) && schedules[n].retirement.Some?
  {
    if n in want && n in schedules && !Held(schedules[n], owner) {
      assert ConflictOf(n, schedules[n], owner) in Describe(schedules, owner, want).conflicts;
    }
  }

  // ---- Preview ------------------------------------------------------------------

  /** `preview` of a proposed manifest with digest `hash` and definitions `want`. */
  function Preview(t: Tables, owner: Owner, hash: Digest, now: Time): Plan
    requires Backed(t)
  {
    var p := DryRunPlan(t, owner, now);
    var changes := Describe(t.schedules, owner, Wanted(hash.of));
    var unpublished := if p.desiredHash != Some(hash) then [ManifestNotPublished] else [];
    var blockers := p.blockers + unpublished;
    p.(desiredHash := Some(hash), changes := changes,
       blockers := if changes.conflicts != {} && OwnershipOrRetirementConflict !in blockers
                   then blockers + [OwnershipOrRetirementConflict] else blockers)
  }

  /** A preview lists what the plan will list once the fleet agrees on that manifest. */
  lemma PreviewPredicts(t: Tables, t1: Tables, owner: Owner, hash: Digest, now: Time, later: Time)
    requires Backed(t) && Backed(t1) && t1.schedules == t.schedules
    requires DryRunPlan(t1, owner, later).desiredHash == Some(hash)
    ensures Preview(t, owner, hash, now).changes == DryRunPlan(t1, owner, later).changes
  {
    EvidenceShape(t1, owner, later);
    assert Compared(t1, owner, later, DryRun).changes == Describe(t.schedules, owner, Wanted(hash.of));
  }

  /** Previewing the manifest the fleet already agrees on is the plan itself, and
      any other manifest is reported as not published. */
  lemma PreviewOfPublished(t: Tables, owner: Owner, hash: Digest, now: Time)
    requires Backed(t)
    ensures DryRunPlan(t, owner, now).desiredHash == Some(hash)
            <==> Preview(t, owner, hash, now) == DryRunPlan(t, owner, now)
    ensures DryRunPlan(t, owner, now).desiredHash != Some(hash) ==>
              ManifestNotPublished in Preview(t, owner, hash, now).blockers
  {
    EvidenceShape(t, owner, now);
    var p := DryRunPlan(t, owner, now);
    if p.desiredHash == Some(hash) {
      var c := Compared(t, owner, now, DryRun);
      assert c.changes == Describe(t.schedules, owner, Wanted(hash.of));
      if c.changes.conflicts != {} {
        assert c.blockers[|c.blockers|-1] == OwnershipOrRetirementConflict;
      }
    }
  }
}
