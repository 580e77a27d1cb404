/** The certificate behind `synced_hash`: what it promises in every reachable
    state, and what it lets a heartbeat skip. */
module CronCertificate {
  import opened Prelude
  import opened KeySort
  import opened CronManifest
  import opened CronTables
  import opened CronEvaluation

  /** Every wanted name has an active row of the owner with that definition. */
  ghost predicate Certifies(schedules: map<Name, Schedule>, owner: Owner, want: map<Name, Definition>) {
    forall n :: n in want ==> n in schedules && Held(schedules[n], owner) && schedules[n].definition == want[n]
  }

  ghost predicate CertifiedFor(t: Tables, o: Owner) {
    o in t.owners && t.owners[o].syncedHash.Some? ==>
      && (o, t.owners[o].syncedHash.value) in t.manifests
      && Certifies(t.schedules, o, Wanted(t.manifests[(o, t.owners[o].syncedHash.value)]))
  }

  /** The certificate invariant. */
  ghost predicate Certified(t: Tables) {
    forall o :: o in t.owners ==> CertifiedFor(t, o)
  }

  /** The window columns are set together, and only beside an agreed digest. */
  ghost predicate WindowsPaired(t: Tables) {
    forall o :: o in t.owners ==>
      && (t.owners[o].agreedSince.Some? <==> t.owners[o].evidenceUntil.Some?)
      && (t.owners[o].agreedHash.None? ==> t.owners[o].agreedSince.None?)
  }

  ghost predicate Inv(t: Tables) {
    Backed(t) && Certified(t) && WindowsPaired(t)
  }

  // ---- Each write keeps the certificate -------------------------------------

  /** Rows outside the owner's active set never change under a sync by another
      owner, and the owner's own certificate follows from an absence of conflicts. */
  lemma SyncCertifies(schedules: map<Name, Schedule>, owner: Owner, want: map<Name, Definition>, now: Time)
    requires Describe(schedules, owner, want).conflicts == {}
    ensures Certifies(SyncRows(schedules, owner, want, now), owner, want)
  {
    forall n | n in want && n in schedules
      ensures Held(schedules[n], owner)
              || ConflictOf(n, schedules[n], owner) in Describe(schedules, owner, want).conflicts
    {
    }
  }

  lemma SyncKeepsOthers(schedules: map<Name, Schedule>, owner: Owner, want: map<Name, Definition>, now: Time,
                        other: Owner, otherWant: map<Name, Definition>)
    requires other != owner && Certifies(schedules, other, otherWant)
    ensures Certifies(SyncRows(schedules, owner, want, now), other, otherWant)
  {
  }

  lemma RetireKeeps(t: Tables, p: Plan, o: Owner)
    requires CertifiedFor(t, o)
    requires o == p.owner && o in t.owners && t.owners[o].syncedHash.Some? ==>
               (o, t.owners[o].syncedHash.value) in t.manifests
               && p.changes.retirements !! Wanted(t.manifests[(o, t.owners[o].syncedHash.value)]).Keys
    ensures CertifiedFor(RetireAbsent(t, p), o)
  {
  }

  /** The join of a heartbeat sees the same conflicts as the full description. */
  lemma JoinIsDescribe(schedules: map<Name, Schedule>, owner: Owner, manifest: seq<PeriodicJob>)
    ensures JoinConflicts(schedules, owner, manifest) == Describe(schedules, owner, Wanted(manifest)).conflicts
  {
    forall n ensures (exists d :: d in manifest && d.name == n) <==> n in Wanted(manifest) {
      if n in Wanted(manifest) {
        var i :| 0 <= i < |manifest| && manifest[i].name == n;
        assert manifest[i] in manifest;
      }
    }
  }

  /** Under a certificate the full description has nothing to report but retirements. */
  lemma CertifiedHasNoChanges(schedules: map<Name, Schedule>, owner: Owner, want: map<Name, Definition>)
    requires Certifies(schedules, owner, want)
    ensures var d := Describe(schedules, owner, want);
            d.conflicts == {} && d.additions == {} && d.updates == {}
    ensures forall now :: SyncRows(schedules, owner, want, now) == schedules
  {
    forall now ensures SyncRows(schedules, owner, want, now) == schedules {
      var r := SyncRows(schedules, owner, want, now);
      assert r.Keys == schedules.Keys;
    }
  }

  /** In every state satisfying the invariant, a heartbeat's shortcut sees exactly
      the conflicts, and so the blockers, of the full description. */
  lemma HeartbeatSeesConflicts(t: Tables, owner: Owner, now: Time)
    requires Inv(t)
    ensures Compared(t, owner, now, Heartbeat).changes.conflicts == Compared(t, owner, now, DryRun).changes.conflicts
    ensures Compared(t, owner, now, Heartbeat).blockers == Compared(t, owner, now, DryRun).blockers
  {
    EvidenceShape(t, owner, now);
    var p := Evidence(t, owner, now);
    if p.desiredHash.Some? {
      var manifest := t.manifests[(owner, p.desiredHash.value)];
      JoinIsDescribe(t.schedules, owner, manifest);
      assert CertifiedFor(t, owner);
      if OwnerState(t, owner).syncedHash == p.desiredHash {
        CertifiedHasNoChanges(t.schedules, owner, Wanted(manifest));
      }
    }
  }

  // ---- The invariant over steps ----------------------------------------------

  lemma InitInv()
    ensures Inv(EmptyTables)
  {
  }

  /** The owner's certificate is gone, or everything it rests on is unchanged. */
  ghost predicate Undisturbed(t: Tables, t1: Tables, o: Owner) {
    && o in t1.owners
    && (t1.owners[o].syncedHash.Some? ==>
          && o in t.owners && t1.owners[o].syncedHash == t.owners[o].syncedHash
          && forall n :: n in t.schedules && Held(t.schedules[n], o) ==>
               n in t1.schedules && Held(t1.schedules[n], o) && t1.schedules[n].definition == t.schedules[n].definition)
  }

  ghost predicate ManifestsKept(t: Tables, t1: Tables) {
    forall k :: k in t.manifests ==> k in t1.manifests && t1.manifests[k] == t.manifests[k]
  }

  /** Writes that disturb no certificate keep them all. */
  lemma CertificateFrame(t: Tables, t1: Tables)
    requires Certified(t) && ManifestsKept(t, t1)
    requires forall o :: o in t1.owners ==> Undisturbed(t, t1, o)
    ensures Certified(t1)
  {
    forall o | o in t1.owners ensures CertifiedFor(t1, o) {
      assert Undisturbed(t, t1, o);
      if t1.owners[o].syncedHash.Some? {
        assert CertifiedFor(t, o);
      }
    }
  }

  lemma DeclaredKeeps(t: Tables, i: Instance, c: Config, m: PeriodicManifest, seenAt: Time)
    requires WindowsPaired(t)
    ensures var t1 := Declared(t, i, c, m, seenAt);
            && ManifestsKept(t, t1) && WindowsPaired(t1)
            && forall o :: o in t1.owners ==> Undisturbed(t, t1, o)
  {
    var t1 := Declared(t, i, c, m, seenAt);
    assert forall n :: n in t.schedules ==> n in t1.schedules && t1.schedules[n] == t.schedules[n];
  }

  lemma DeclaredInv(t: Tables, i: Instance, c: Config, m: PeriodicManifest, seenAt: Time)
    requires Inv(t) && Prepared(m)
    ensures Inv(Declared(t, i, c, m, seenAt))
  {
    DeclaredBacked(t, i, c, m, seenAt);
    DeclaredKeeps(t, i, c, m, seenAt);
    CertificateFrame(t, Declared(t, i, c, m, seenAt));
  }

  /** Every persisted evaluation keeps the invariant: the sync it may run is
      guarded by an absence of conflicts, and its retirements spare the digest. */
  lemma EvaluateInv(t: Tables, owner: Owner, now: Time, mode: Mode)
    requires Inv(t)
    ensures Inv(Evaluate(t, owner, now, mode).after)
  {
    EvidenceShape(t, owner, now);
    var p := Compared(t, owner, now, mode);
    if p.blockers != [] {
      DisagreeInv(t, owner);
    } else if !mode.DryRun? {
      HeartbeatSeesConflicts(t, owner, now);
      AgreedInv(t, p, mode);
    }
  }

  /** Evaluation leaves manifests, declarations and the set of owners as they are. */
  lemma EvaluateBacked(t: Tables, owner: Owner, now: Time, mode: Mode)
    requires Backed(t)
    ensures Backed(Evaluate(t, owner, now, mode).after)
  {
    EvaluateFrame(t, owner, now, mode);
  }

  lemma AgreedFrame(t: Tables, p: Plan, mode: Mode)
    requires p.owner in t.owners && p.desiredHash.Some? && p.declarations != map[]
    requires (p.owner, p.desiredHash.value) in t.manifests
    ensures var t1 := Agreed(t, p, mode).after;
            && t1.manifests == t.manifests && t1.declarations == t.declarations && t1.runtimes == t.runtimes
            && t1.owners.Keys == t.owners.Keys
  {
    var s := Synced(t, Graced(t, p));
    assert s.manifests == t.manifests && s.declarations == t.declarations && s.runtimes == t.runtimes;
    assert s.owners.Keys == t.owners.Keys;
  }

  lemma EvaluateFrame(t: Tables, owner: Owner, now: Time, mode: Mode)
    requires Backed(t)
    ensures var t1 := Evaluate(t, owner, now, mode).after;
            && t1.manifests == t.manifests && t1.declarations == t.declarations && t1.runtimes == t.runtimes
            && t1.owners.Keys == t.owners.Keys
  {
    EvidenceShape(t, owner, now);
    var p := Compared(t, owner, now, mode);
    if p.blockers == [] {
      AgreedFrame(t, p, mode);
    }
  }

  lemma DisagreeInv(t: Tables, owner: Owner)
    requires Inv(t)
    ensures Inv(Disagree(t, owner))
  {
    FrameInv(t, Disagree(t, owner));
  }

  lemma AgreedInv(t: Tables, p: Plan, mode: Mode)
    requires Inv(t) && !mode.DryRun?
    requires p.desiredHash.Some? && p.declarations != map[]
    requires (p.owner, p.desiredHash.value) in t.manifests && p.owner in t.owners
    requires Describe(t.schedules, p.owner, Wanted(t.manifests[(p.owner, p.desiredHash.value)])).conflicts == {}
    requires p.changes.retirements !! Wanted(t.manifests[(p.owner, p.desiredHash.value)]).Keys
    ensures Inv(Agreed(t, p, mode).after)
  {
    var q := Graced(t, p);
    SyncedInv(t, q);
    RecordInv(Synced(t, q), q);
    RetireInv(Record(Synced(t, q), q), q);
  }

  lemma RecordInv(t: Tables, p: Plan)
    requires Inv(t) && p.declarations != map[] && p.desiredHash.Some? && p.agreedSince.Some?
    ensures Inv(Record(t, p))
    ensures Record(t, p).manifests == t.manifests && Record(t, p).owners.Keys == t.owners.Keys
    ensures OwnerState(Record(t, p), p.owner).syncedHash == OwnerState(t, p.owner).syncedHash
  {
    RecordKeeps(t, p);
    CertificateFrame(t, Record(t, p));
  }

  lemma RecordKeeps(t: Tables, p: Plan)
    requires WindowsPaired(t) && p.declarations != map[] && p.desiredHash.Some? && p.agreedSince.Some?
    ensures WindowsPaired(Record(t, p))
    ensures forall o :: o in Record(t, p).owners ==> Undisturbed(t, Record(t, p), o)
  {
  }

  lemma RetireInv(t: Tables, p: Plan)
    requires Inv(t) && p.owner in t.owners
    requires p.desiredHash.Some? && (p.owner, p.desiredHash.value) in t.manifests
    requires t.owners[p.owner].syncedHash == p.desiredHash
    requires p.changes.retirements !! Wanted(t.manifests[(p.owner, p.desiredHash.value)]).Keys
    ensures Inv(RetireAbsent(t, p))
  {
    var t1 := RetireAbsent(t, p);
    forall o | o in t1.owners ensures CertifiedFor(t1, o) {
      assert CertifiedFor(t, o);
      RetireKeeps(t, p, o);
    }
  }

  lemma SyncedInv(t: Tables, p: Plan)
    requires Inv(t) && p.owner in t.owners && p.desiredHash.Some? && (p.owner, p.desiredHash.value) in t.manifests
    requires Describe(t.schedules, p.owner, Wanted(t.manifests[(p.owner, p.desiredHash.value)])).conflicts == {}
    ensures Inv(Synced(t, p)) && OwnerState(Synced(t, p), p.owner).syncedHash == p.desiredHash
    ensures Synced(t, p).manifests == t.manifests && Synced(t, p).owners.Keys == t.owners.Keys
  {
    var o, h, now := p.owner, p.desiredHash.value, p.evaluatedAt;
    var want := Wanted(t.manifests[(o, h)]);
    var t1 := SyncDefinitions(t, o, h, now);
    SyncCertifies(t.schedules, o, want, now);
    forall x | x in t1.owners ensures CertifiedFor(t1, x) {
      assert CertifiedFor(t, x);
      if x != o && t.owners[x].syncedHash.Some? {
        SyncKeepsOthers(t.schedules, o, want, now, x, Wanted(t.manifests[(x, t.owners[x].syncedHash.value)]));
      }
    }
  }

  lemma OperateOwners(t: Tables, a: Action, actor: string, now: Time)
    requires Permitted(t, a, actor)
    ensures var t1 := Operate(t, a, actor, now);
            && t1.manifests == t.manifests && t1.declarations == t.declarations && t1.runtimes == t.runtimes
            && t.owners.Keys <= t1.owners.Keys
            && forall o :: o in t1.owners ==>
                 t1.owners[o] == if o in t.owners && o !in Affected(t, a) then t.owners[o] else NoAgreement
  {
  }

  lemma OperateRows(t: Tables, a: Action, actor: string, now: Time, o: Owner)
    requires Permitted(t, a, actor) && o !in Affected(t, a)
    ensures forall n :: n in t.schedules && t.schedules[n].owner == Some(o) ==>
              n in Operate(t, a, actor, now).schedules && Operate(t, a, actor, now).schedules[n] == t.schedules[n]
  {
    UnaffectedRows(t, a, o);
  }

  lemma OperateInv(t: Tables, a: Action, actor: string, now: Time)
    requires Inv(t)
    ensures Inv(Operate(t, a, actor, now))
  {
    if Permitted(t, a, actor) {
      var t1 := Operate(t, a, actor, now);
      OperateOwners(t, a, actor, now);
      forall o | o in t1.owners ensures Undisturbed(t, t1, o) {
        if o !in Affected(t, a) {
          OperateRows(t, a, actor, now, o);
        }
      }
      CertificateFrame(t, t1);
    }
  }

  /** An action never selects a row of an owner it does not invalidate. */
  lemma UnaffectedRows(t: Tables, a: Action, o: Owner)
    requires o !in Affected(t, a)
    ensures forall n :: n in t.schedules && t.schedules[n].owner == Some(o) ==> n !in Selected(t, a)
  {
    forall n | n in Selected(t, a) && n in t.schedules && t.schedules[n].owner.Some?
      ensures t.schedules[n].owner.value in Affected(t, a)
    {
    }
  }

  predicate OutsideProtocol(s: Step) {
    s.PlainUpdate? || s.PlainInsert? || s.PlainDelete? || s.Snapshot? || s.CleanupRuntimes?
  }

  /** A plain statement never alters an owned row beyond its pause and
      `last_enqueued_at`, and never removes one. */
  lemma PlainRowsKept(t: Tables, s: Step, n: Name)
    requires Backed(t) && OutsideProtocol(s) && n in t.schedules && t.schedules[n].owner.Some?
    ensures var t1 := Next(t, s);
            n in t1.schedules && t1.schedules[n].(lastEnqueuedAt := None, pausedAt := None)
                                 == t.schedules[n].(lastEnqueuedAt := None, pausedAt := None)
  {
  }

  lemma PlainOwnersKept(t: Tables, s: Step)
    requires Backed(t) && WindowsPaired(t) && OutsideProtocol(s)
    ensures var t1 := Next(t, s);
            && t1.manifests == t.manifests && t1.owners.Keys == t.owners.Keys && WindowsPaired(t1)
            && (forall o :: o in t.owners ==> t1.owners[o].syncedHash == t.owners[o].syncedHash)
            && (forall i :: i in t1.declarations ==> i in t.declarations && t1.declarations[i] == t.declarations[i])
  {
  }

  lemma PlainInv(t: Tables, s: Step)
    requires Inv(t) && OutsideProtocol(s)
    ensures Inv(Next(t, s))
  {
    PlainOwnersKept(t, s);
    var t1 := Next(t, s);
    forall n | n in t.schedules && t.schedules[n].owner.Some?
      ensures n in t1.schedules && t1.schedules[n].(lastEnqueuedAt := None, pausedAt := None)
                                   == t.schedules[n].(lastEnqueuedAt := None, pausedAt := None)
    {
      PlainRowsKept(t, s, n);
    }
    FrameInv(t, t1);
  }

  lemma FrameInv(t: Tables, t1: Tables)
    requires Inv(t) && WindowsPaired(t1)
    requires t1.manifests == t.manifests && t1.owners.Keys == t.owners.Keys
    requires forall o :: o in t.owners ==> t1.owners[o].syncedHash == t.owners[o].syncedHash
    requires forall i :: i in t1.declarations ==> i in t.declarations && t1.declarations[i] == t.declarations[i]
    requires forall n :: n in t.schedules && t.schedules[n].owner.Some? ==>
               n in t1.schedules && t1.schedules[n].(lastEnqueuedAt := None, pausedAt := None)
                                    == t.schedules[n].(lastEnqueuedAt := None, pausedAt := None)
    ensures Inv(t1)
  {
    CertificateFrame(t, t1);
  }

  /** The invariant is kept by every transaction, including arbitrary statements
      from clients that know nothing of the protocol. */
  lemma StepInv(t: Tables, s: Step)
    requires Inv(t) && WellFormedStep(s)
    ensures Inv(Next(t, s))
  {
    match s
    case Publish(i, c, m, seenAt, now) =>
      if Publishes(t, i, c) {
        DeclaredInv(t, i, c, m, seenAt);
        EvaluateInv(Declared(t, i, c, m, seenAt), c.owner, now, Heartbeat);
      }
    case Reconcile(o, now) => EvaluateInv(t, o, now, Apply);
    case OperatorAction(a, actor, now) => OperateInv(t, a, actor, now);
    case _ => PlainInv(t, s);
  }

  // ---- Writes and the fence -----------------------------------------------------

  /** The trigger accepts every row the protocol itself rewrites, so a sync or a
      retirement is never silently dropped or aborted. */
  lemma ProtocolPassesFence(t: Tables, p: Plan, n: Name)
    requires p.desiredHash.Some? && (p.owner, p.desiredHash.value) in t.manifests && n in t.schedules
    ensures n in Synced(t, p).schedules
            && (Synced(t, p).schedules[n] == t.schedules[n]
                || FenceUpdate(t.schedules[n], Synced(t, p).schedules[n], Syncing(p.owner)).Accept?)
    ensures n in RetireAbsent(t, p).schedules
            && FenceUpdate(t.schedules[n], RetireAbsent(t, p).schedules[n], Admin).Accept?
  {
  }

  lemma ForeignUpdateInv(t: Tables, name: Name, row: Schedule)
    requires Inv(t)
    ensures Inv(ForeignUpdate(t, name, row))
  {
    PlainInv(t, PlainUpdate(name, row, 0));
  }

  /** Additive registration is a plain statement, so it keeps the invariant. */
  lemma AdditiveUpsertInv(t: Tables, job: PeriodicJob, now: Time)
    requires Inv(t)
    ensures Inv(AdditiveUpsert(t, job, now).0)
  {
    if job.name in t.schedules {
      ForeignUpdateInv(t, job.name, t.schedules[job.name].(definition := job.definition));
    } else {
      PlainInv(t, PlainInsert(job.name, NewSchedule(job.definition, None, now), now));
    }
  }

  /** So are pausing, resuming and enqueueing. */
  lemma FiringWritesInv(t: Tables, name: Name, at: Time, previous: Option<Time>)
    requires Inv(t)
    ensures Inv(Pause(t, name, at)) && Inv(Resume(t, name)) && Inv(AtomicEnqueue(t, name, at, previous).0)
  {
    if name in t.schedules {
      ForeignUpdateInv(t, name, t.schedules[name].(pausedAt := Some(at)));
      ForeignUpdateInv(t, name, t.schedules[name].(pausedAt := None));
      ForeignUpdateInv(t, name, t.schedules[name].(lastEnqueuedAt := Some(at)));
    }
  }

  /** Additive registration reports success exactly when the definition now
      stands, or the name is an unowned tombstone; the guard and the trigger agree. It
      writes the definition of that one row, or a new unpaused one. */
  lemma AdditiveUpsertMeans(t: Tables, job: PeriodicJob, now: Time)
    ensures var (t1, accepted) := AdditiveUpsert(t, job, now);
            && job.name in t1.schedules
            && (accepted <==> t1.schedules[job.name].owner.None?)
            && (accepted && t1.schedules[job.name].retirement.None? ==>
                t1.schedules[job.name].definition == job.definition)
            && (t1.schedules[job.name].owner.Some? || t1.schedules[job.name].retirement.Some? ==> t1 == t)
            && (job.name in t.schedules ==>
                  t1.schedules[job.name] == t.schedules[job.name].(definition := t1.schedules[job.name].definition))
            && (job.name !in t.schedules ==> t1.schedules[job.name].pausedAt.None?
                                             && t1.schedules[job.name].lastEnqueuedAt.None?
                                             && t1.schedules[job.name].createdAt == now)
            && t1 == t.(schedules := t1.schedules) && t1.schedules - {job.name} == t.schedules - {job.name}
  {
  }
}
