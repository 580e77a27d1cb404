/** The reconciliation module as it runs: tables updated in place, step by step,
    each public method proved against its function of the tables. */
module CronStore {
  import opened Prelude
  import opened KeySort
  import opened CronManifest
  import opened CronTables
  import E = CronEvaluation
  import C = CronCertificate
  import V = CronConvergence

  function ModeOf(persist: bool, apply: bool): E.Mode {
    if !persist then E.DryRun else if apply then E.Apply else E.Heartbeat
  }

  datatype OperateError = BlankActor | ScheduleNotFound | InvalidOwner | OwnershipConflict

  class Store {
    var schedules: map<Name, Schedule>
    var owners: map<Owner, Agreement>
    var manifests: map<(Owner, Digest), seq<PeriodicJob>>
    var declarations: map<Instance, Declaration>
    var runtimes: map<Instance, Runtime>

    function State(): Tables
      reads this
    {
      Tables(schedules, owners, manifests, declarations, runtimes)
    }

    ghost predicate Valid()
      reads this
    {
      E.Backed(State())
    }

    constructor ()
      ensures Valid() && State() == EmptyTables
    {
      schedules, owners, manifests, declarations, runtimes := map[], map[], map[], map[], map[];
    }

    /** `describe_changes`: one pass over the jobs, then the owner's rows. */
    method DescribeChanges(owner: Owner, jobs: seq<PeriodicJob>) returns (c: E.Changes)
      requires DistinctKeys(jobs, NameOf)
      ensures c == E.Describe(schedules, owner, Wanted(jobs))
    {
      var additions, updates, conflicts: set<Name> := {}, {}, {};
      ghost var want := Wanted(jobs);
      for i := 0 to |jobs|
        invariant additions == set k | 0 <= k < i && jobs[k].name !in schedules :: jobs[k].name
        invariant conflicts == set k | 0 <= k < i && jobs[k].name in schedules
                                       && !E.Held(schedules[jobs[k].name], owner) :: jobs[k].name
        invariant updates == set k | 0 <= k < i && jobs[k].name in schedules
                                     && E.Held(schedules[jobs[k].name], owner)
                                     && schedules[jobs[k].name].definition != jobs[k].definition :: jobs[k].name
      {
        var job := jobs[i];
        if job.name !in schedules {
          additions := additions + {job.name};
        } else if schedules[job.name].owner != Some(owner) || schedules[job.name].retirement.Some? {
          conflicts := conflicts + {job.name};
        } else if schedules[job.name].definition != job.definition {
          updates := updates + {job.name};
        }
      }
      forall k | 0 <= k < |jobs| ensures jobs[k].name in want && want[jobs[k].name] == jobs[k].definition {
        WantedHas(jobs, jobs[k]);
      }
      var names := set k | 0 <= k < |jobs| :: jobs[k].name;
      assert names == want.Keys;
      var retirements := set n | n in schedules && E.Held(schedules[n], owner) && n !in names;
      c := E.Changes(additions, updates, retirements,
                     set n | n in conflicts && n in schedules :: E.ConflictOf(n, schedules[n], owner));
      ghost var d := E.Describe(schedules, owner, want);
      assert c.additions == d.additions;
      assert c.updates == d.updates;
      assert c.conflicts == d.conflicts by {
        assert conflicts == set n | n in want && n in schedules && !E.Held(schedules[n], owner);
      }
    }

    /** `sync_definitions`: without conflicts it certifies the manifest, whose every job
        then has an active row of the owner with its definition. */
    method SyncDefinitions(owner: Owner, hash: Digest, now: Time)
      requires (owner, hash) in manifests
      modifies this
      ensures State() == E.SyncDefinitions(old(State()), owner, hash, now)
      ensures E.Describe(old(schedules), owner, Wanted(manifests[(owner, hash)])).conflicts == {} ==>
                C.Certifies(schedules, owner, Wanted(manifests[(owner, hash)]))
    {
      var manifest := manifests[(owner, hash)];
      ghost var want := Wanted(manifest);
      if E.Describe(schedules, owner, want).conflicts == {} {
        C.SyncCertifies(schedules, owner, want, now);
      }
      schedules := E.SyncRows(schedules, owner, Wanted(manifest), now);
      if owner in owners {
        owners := owners[owner := owners[owner].(syncedHash := Some(hash))];
      }
    }

    /** The evidence queries of `evaluate_locked`: nothing blocks exactly when no live
        runtime speaks another protocol and the live declarations, of which there are
        some, all ask for one manifest. */
    method GatherEvidence(owner: Owner, now: Time) returns (p: E.Plan)
      ensures p == E.Evidence(State(), owner, now)
      ensures forall h :: p.blockers == [] && p.desiredHash == Some(h) <==> E.Unblocked(State(), owner, now, h)
      ensures E.UnsupportedRuntimeProtocol in p.blockers <==> exists i :: i in runtimes && E.Foreign(runtimes[i], now)
      ensures E.ZeroLiveDeclarations in p.blockers <==> forall i :: !E.Speaks(State(), owner, i, now)
      ensures forall i :: i in p.declarations <==> E.Speaks(State(), owner, i, now)
      ensures forall i :: i in p.declarations ==> E.Quotes(State(), i, p.declarations[i])
    {
      var live := E.LiveDeclarations(State(), owner, now);
      var blocking := E.BlockingInstances(State(), now);
      var hashes := E.Hashes(live);
      var blockers := [];
      if blocking != {} { blockers := blockers + [E.UnsupportedRuntimeProtocol]; }
      if live == map[] { blockers := blockers + [E.ZeroLiveDeclarations]; }
      if |hashes| > 1 { blockers := blockers + [E.MixedDesiredManifests]; }
      var desired := None;
      if |hashes| == 1 { desired := Some(E.Sole(hashes)); }
      p := E.Plan(owner, desired, live, blocking, blockers, E.NoChanges, None, 0, now, false);
      E.EvidenceRows(State(), owner, now);
      E.EvidenceMeans(State(), owner, now);
    }

    /** Adds the changes this kind of evaluation looks at, and the conflict blocker. */
    method CompareRows(p0: E.Plan, persist: bool, apply: bool) returns (p: E.Plan)
      requires Valid() && (apply ==> persist) && p0 == E.Evidence(State(), p0.owner, p0.evaluatedAt)
      ensures p == E.Compared(State(), p0.owner, p0.evaluatedAt, ModeOf(persist, apply))
    {
      E.EvidenceShape(State(), p0.owner, p0.evaluatedAt);
      p := p0;
      if p.desiredHash.Some? {
        var manifest := manifests[(p.owner, p.desiredHash.value)];
        if !persist || apply {
          var changes := DescribeChanges(p.owner, manifest);
          p := p.(changes := changes);
        } else if E.OwnerState(State(), p.owner).syncedHash != p.desiredHash {
          p := p.(changes := E.NoChanges.(conflicts := E.JoinConflicts(schedules, p.owner, manifest)));
        }
      }
      if p.changes.conflicts != {} {
        p := p.(blockers := p.blockers + [E.OwnershipOrRetirementConflict]);
      }
    }

    /** `evaluate_locked`: the plan and the new tables are those of `Evaluate`, so
        a call that does not persist changes nothing. */
    method EvaluateLocked(owner: Owner, persist: bool, apply: bool, now: Time) returns (p: E.Plan)
      requires Valid() && (apply ==> persist)
      modifies this
      ensures Valid()
      ensures E.Evaluated(p, State()) == E.Evaluate(old(State()), owner, now, ModeOf(persist, apply))
      ensures !persist ==> State() == old(State())
    {
      E.EvidenceShape(State(), owner, now);
      C.EvaluateBacked(State(), owner, now, ModeOf(persist, apply));
      p := GatherEvidence(owner, now);
      p := CompareRows(p, persist, apply);
      if p.blockers == [] {
        p := Agree(p, persist, apply);
      } else if persist {
        ForgetAgreement(owner);
      }
    }

    method ForgetAgreement(owner: Owner)
      modifies this
      ensures State() == E.Disagree(old(State()), owner)
    {
      if owner in owners {
        owners := owners[owner := owners[owner].(agreedHash := None, agreedSince := None, evidenceUntil := None)];
      }
    }

    /** The second half of `evaluate_locked`, when nothing but grace can block. */
    method Agree(p0: E.Plan, persist: bool, apply: bool) returns (p: E.Plan)
      requires (apply ==> persist) && p0.blockers == []
      requires p0.desiredHash.Some? && p0.declarations != map[]
      requires (p0.owner, p0.desiredHash.value) in manifests && p0.owner in owners
      modifies this
      ensures E.Evaluated(p, State()) == E.Agreed(old(State()), p0, ModeOf(persist, apply))
    {
      var state, now := owners[p0.owner], p0.evaluatedAt;
      var since := now;
      if state.agreedHash == p0.desiredHash && state.evidenceUntil.Some? && state.evidenceUntil.value > now {
        since := state.agreedSince.GetOr(now);
      }
      p := p0.(agreedSince := Some(since), graceRemainingMs := E.GraceRemaining(p0.declarations, since, now));
      if p.graceRemainingMs > 0 {
        p := p.(blockers := [E.GracePeriod]);
      }
      assert p == E.Graced(State(), p0);
      if persist {
        if state.syncedHash != p.desiredHash {
          SyncDefinitions(p.owner, p.desiredHash.value, now);
        }
        RecordAgreement(p);
        if apply && p.blockers == [] {
          RetireAbsent(p);
          p := p.(applied := true);
        }
      }
    }

    method RecordAgreement(p: E.Plan)
      requires p.declarations != map[]
      modifies this
      ensures State() == E.Record(old(State()), p)
    {
      if p.owner in owners {
        owners := owners[p.owner := owners[p.owner].(agreedHash := p.desiredHash, agreedSince := p.agreedSince,
                                                     evidenceUntil := Some(E.EarliestExpiry(p.declarations)))];
      }
    }

    method RetireAbsent(p: E.Plan)
      modifies this
      ensures State() == E.RetireAbsent(old(State()), p)
    {
      var mine := set n | n in p.changes.retirements && n in schedules && schedules[n].owner == Some(p.owner);
      var revisions := set i | i in p.declarations :: p.declarations[i].revision;
      schedules := E.Retire(schedules, mine, Retirement(p.evaluatedAt, p.owner, revisions));
    }

    /** The writes of a publication before its evaluation. */
    method Declare(instance: Instance, config: E.Config, prepared: PeriodicManifest, seenAt: Time)
      modifies this
      ensures State() == E.Declared(old(State()), instance, config, prepared, seenAt)
    {
      if config.owner !in owners {
        owners := owners[config.owner := NoAgreement];
      }
      var known := (config.owner, prepared.hash) in manifests;
      if !known {
        manifests := manifests[(config.owner, prepared.hash) := prepared.value];
      }
      declarations := declarations[instance :=
        Declaration(config.owner, config.revision, prepared.hash, config.graceMs, seenAt)];
      if !known {
        schedules := E.InsertMissing(schedules, config.owner, Wanted(prepared.value), seenAt);
      }
    }

    /** `publish`: an accepted publication is on record, has been evaluated and keeps the
        certificate invariant; a refused one changes nothing. */
    method Publish(instance: Instance, config: E.Config, prepared: PeriodicManifest, seenAt: Time, now: Time)
      returns (accepted: bool)
      requires Valid() && E.Prepared(prepared) && seenAt <= now
      modifies this
      ensures Valid() && (C.Inv(old(State())) ==> C.Inv(State()))
      ensures accepted <==> E.Publishes(old(State()), instance, config)
      ensures State() == E.Next(old(State()), E.Publish(instance, config, prepared, seenAt, now))
      ensures accepted ==> V.Announced(old(State()), State(), instance, config, prepared, seenAt)
      ensures accepted ==> forall n :: V.RowPublished(old(State()), State(), config, prepared, seenAt, now, n)
      ensures !accepted ==> State() == old(State())
    {
      V.PublishMeans(State(), instance, config, prepared, seenAt, now);
      E.DeclaredBacked(State(), instance, config, prepared, seenAt);
      if !E.ValidConfig(config) || instance !in runtimes {
        return false;
      }
      Declare(instance, config, prepared, seenAt);
      var _ := EvaluateLocked(config.owner, true, false, now);
      accepted := true;
    }

    /** `plan`: the dry run. */
    method PlanOnly(owner: Owner, now: Time) returns (p: E.Plan)
      requires Valid()
      modifies this
      ensures Valid() && State() == old(State()) && p == E.DryRunPlan(State(), owner, now)
    {
      p := EvaluateLocked(owner, false, false, now);
    }

    /** `reconcile` */
    method Reconcile(owner: Owner, now: Time) returns (p: E.Plan)
      requires Valid()
      modifies this
      ensures Valid() && State() == E.Next(old(State()), E.Reconcile(owner, now))
      ensures p == E.DryRunPlan(old(State()), owner, now).(applied := p.blockers == [])
      ensures C.Inv(old(State())) ==> C.Inv(State())
      ensures C.Inv(old(State())) && p.applied ==>
                E.DryRunPlan(State(), owner, now) == p.(changes := E.NoChanges, applied := false)
    {
      V.ReconcileMeans(State(), owner, now);
      p := EvaluateLocked(owner, true, true, now);
    }

    /** The checks of `operate`; on success, the rows the action picks up. */
    method CheckAction(action: E.Action, actor: string) returns (r: Result<set<Name>, OperateError>)
      ensures r.Success? <==> E.Permitted(State(), action, actor)
      ensures r == Failure(BlankActor) <==> Blank(actor)
      ensures r == Failure(ScheduleNotFound) <==>
                !Blank(actor) && (action.Adopt? || action.RetireOne? || action.Restore?) && action.name !in schedules
      ensures r == Failure(OwnershipConflict) ==>
                action.Adopt? && action.name in schedules && schedules[action.name].owner != action.expected
      ensures r.Success? && action.Adopt? ==>
                action.name in schedules && schedules[action.name].owner == action.expected
      ensures r.Success? ==> forall n :: n in r.value <==> n in schedules && E.Picks(action, n, schedules[n])
    {
      V.SelectedIs(State(), action);
      if Blank(actor) { return Failure(BlankActor); }
      var selected := E.Selected(State(), action);
      if !action.RetireOwner? && !action.RestoreOwner? {
        assert selected == set n | n in schedules && n == action.name;
        assert action.name in schedules <==> action.name in selected;
        if selected == {} {
          return Failure(ScheduleNotFound);
        }
        ghost var n := Pick(selected);
      }
      if action.Adopt? {
        if !E.ValidConfig(E.Config(action.owner, "operator", 0)) { return Failure(InvalidOwner); }
        if schedules[action.name].owner != action.expected { return Failure(OwnershipConflict); }
      }
      r := Success(selected);
    }

    /** `operate`: refused actions and dry runs change nothing; an applied one does what it
        says to exactly the rows it concerns, clears certificate and window of exactly the
        owners it takes a row from or gives one to, and keeps the certificate invariant. */
    method Operate(action: E.Action, actor: string, apply: bool, now: Time) returns (r: Result<set<Name>, OperateError>)
      requires Valid()
      modifies this
      ensures Valid() && (C.Inv(old(State())) ==> C.Inv(State()))
      ensures State() == if apply then E.Operate(old(State()), action, actor, now) else old(State())
      ensures !apply || r.Failure? ==> State() == old(State())
      ensures r.Success? <==> E.Permitted(old(State()), action, actor)
      ensures r.Success? ==> forall n :: n in r.value <==> n in old(schedules) && E.Picks(action, n, old(schedules)[n])
      ensures r.Success? && apply ==> V.Done(old(State()), State(), action, actor, now)
    {
      r := CheckAction(action, actor);
      V.OperateMeans(State(), action, actor, now);
      if apply && r.Success? {
        C.OperateOwners(State(), action, actor, now);
        PerformAction(action, actor, now);
      }
    }

    /** The writes of a permitted action. */
    method PerformAction(action: E.Action, actor: string, now: Time)
      requires E.Permitted(State(), action, actor)
      modifies this
      ensures State() == E.Operate(old(State()), action, actor, now)
    {
      var selected, affected := E.Selected(State(), action), E.Affected(State(), action);
      if action.Adopt? {
        owners := E.WithOwner(owners, action.owner);
      }
      WriteRows(selected, action, actor, now);
      ForgetOwners(affected);
    }

    method WriteRows(selected: set<Name>, action: E.Action, actor: string, now: Time)
      modifies this`schedules
      ensures schedules == map n | n in old(schedules) ::
        if n in selected then E.OperatedRow(old(schedules)[n], action, actor, now) else old(schedules)[n]
    {
      schedules := map n | n in schedules ::
        if n in selected then E.OperatedRow(schedules[n], action, actor, now) else schedules[n];
    }

    method ForgetOwners(affected: set<Owner>)
      modifies this`owners
      ensures owners == map o | o in old(owners) :: if o in affected then NoAgreement else old(owners)[o]
    {
      owners := map o | o in owners :: if o in affected then NoAgreement else owners[o];
    }

    // ---- Registration, pauses and fires -------------------------------------------------

    /** An UPDATE of one row as the trigger lets it through. */
    method UpdateRow(name: Name, row: Schedule) returns (updated: bool)
      requires Valid() && name in schedules
      modifies this
      ensures Valid() && State() == ForeignUpdate(old(State()), name, row)
      ensures updated <==> FenceUpdate(old(schedules)[name], row, Plain).Accept?
    {
      updated := FenceUpdate(schedules[name], row, Plain).Accept?;
      if updated {
        schedules := schedules[name := row];
      }
    }

    /** `upsert_cron_job`: accepted exactly when no owner manages the row; then the
        definition stands, unless the row is a tombstone. */
    method UpsertCronJob(job: PeriodicJob, now: Time) returns (accepted: bool)
      requires Valid()
      modifies this
      ensures Valid() && (State(), accepted) == AdditiveUpsert(old(State()), job, now)
      ensures job.name in schedules && (accepted <==> schedules[job.name].owner.None?)
      ensures accepted && schedules[job.name].retirement.None? ==> schedules[job.name].definition == job.definition
      ensures !accepted ==> State() == old(State())
      ensures schedules - {job.name} == old(schedules) - {job.name}
      ensures schedules[job.name] == if job.name !in old(schedules) then NewSchedule(job.definition, None, now)
                                     else old(schedules)[job.name].(definition := schedules[job.name].definition)
    {
      if job.name !in schedules {
        schedules := schedules[job.name := NewSchedule(job.definition, None, now)];
        return true;
      }
      var row := schedules[job.name];
      accepted := row.owner.None?;
      if row.owner.None? && row.retirement.None? {
        var _ := UpdateRow(job.name, row.(definition := job.definition));
      }
    }

    /** `pause_cron_job`: a retired row is left alone. */
    method PauseCronJob(name: Name, now: Time) returns (updated: bool)
      requires Valid()
      modifies this
      ensures Valid() && State() == Pause(old(State()), name, now)
      ensures updated <==> name in old(schedules) && old(schedules)[name].retirement.None?
      ensures updated ==> schedules == old(schedules)[name := old(schedules)[name].(pausedAt := Some(now))]
      ensures !updated ==> State() == old(State())
    {
      updated := false;
      if name in schedules {
        updated := UpdateRow(name, schedules[name].(pausedAt := Some(now)));
      }
    }

    /** `resume_cron_job` */
    method ResumeCronJob(name: Name) returns (updated: bool)
      requires Valid()
      modifies this
      ensures Valid() && State() == Resume(old(State()), name)
      ensures updated <==> name in old(schedules) && old(schedules)[name].retirement.None?
      ensures updated ==> schedules == old(schedules)[name := old(schedules)[name].(pausedAt := None)]
      ensures !updated ==> State() == old(State())
    {
      updated := false;
      if name in schedules {
        updated := UpdateRow(name, schedules[name].(pausedAt := None));
      }
    }

    /** `atomic_enqueue`: a compare-and-swap on an active row. Whoever read the same last
        fire and comes later loses, whatever fire it brings; a loser changes nothing. */
    method EnqueueFire(name: Name, fireTime: Time, previous: Option<Time>) returns (won: bool)
      requires Valid()
      modifies this
      ensures Valid() && (State(), won) == AtomicEnqueue(old(State()), name, fireTime, previous)
      ensures C.Inv(old(State())) ==> C.Inv(State())
      ensures won ==>
                && name in old(schedules) && old(schedules)[name].lastEnqueuedAt == previous
                && name in schedules && schedules[name].lastEnqueuedAt == Some(fireTime)
      ensures won && previous != Some(fireTime) ==> forall x :: !AtomicEnqueue(State(), name, x, previous).1
      ensures !won ==> State() == old(State())
    {
      if C.Inv(State()) {
        C.FiringWritesInv(State(), name, fireTime, previous);
      }
      won := name in schedules && schedules[name].lastEnqueuedAt == previous
             && schedules[name].pausedAt.None? && schedules[name].retirement.None?;
      if won {
        var _ := UpdateRow(name, schedules[name].(lastEnqueuedAt := Some(fireTime)));
      }
    }

    // ---- Runtimes -----------------------------------------------------------------------

    /** A runtime's snapshot, with the trigger that closes every window when the runtime
        does not speak the protocol. */
    method RecordRuntime(instance: Instance, runtime: Runtime, now: Time)
      requires Valid()
      modifies this
      ensures Valid() && State() == E.Next(old(State()), E.Snapshot(instance, runtime, now))
      ensures C.Inv(old(State())) ==> C.Inv(State())
      ensures runtimes == old(runtimes)[instance := runtime] && declarations == old(declarations)
      ensures runtime.protocol != Some(CRON_PROTOCOL_VERSION) ==>
                forall o :: o in owners ==> owners[o].agreedSince.None?
    {
      if C.Inv(State()) {
        C.StepInv(State(), E.Snapshot(instance, runtime, now));
      }
      runtimes := runtimes[instance := runtime];
      if runtime.protocol != Some(CRON_PROTOCOL_VERSION) {
        owners := E.ForgetWindows(owners);
      }
    }

    /** Deleting stale runtimes takes their declarations along. */
    method RemoveRuntimes(gone: set<Instance>, now: Time)
      requires Valid()
      modifies this
      ensures Valid() && State() == E.Next(old(State()), E.CleanupRuntimes(gone, now))
      ensures C.Inv(old(State())) ==> C.Inv(State())
      ensures runtimes == old(runtimes) - gone && declarations == old(declarations) - gone
    {
      if C.Inv(State()) {
        C.StepInv(State(), E.CleanupRuntimes(gone, now));
      }
      runtimes, declarations := runtimes - gone, declarations - gone;
    }
  }
}
