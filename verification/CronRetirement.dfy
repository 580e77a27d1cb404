/** Safety of automatic retirement over whole runs of the protocol. */
module CronRetirement {
  import opened Prelude
  import opened CronManifest
  import opened CronTables
  import opened CronEvaluation
  import opened CronCertificate
  import opened CronConvergence
  import opened CronRuns

  // ---- What a run shows an owner ------------------------------------------------

  /** A persisted evaluation of the owner, or an event that must restart grace:
      an operator action on the owner, or a snapshot of a runtime that does not
      speak the protocol. */
  datatype Observation = Seen(plan: Plan) | Reset(at: Time)

  /** The evaluation a step persists for the owner. */
  ghost function Evaluation(t: Tables, s: Step, o: Owner): Option<Evaluated>
    requires Inv(t) && WellFormedStep(s)
  {
    if s.Publish? && Publishes(t, s.instance, s.config) && s.config.owner == o then
      DeclaredBacked(t, s.instance, s.config, s.manifest, s.seenAt);
      Some(Evaluate(Declared(t, s.instance, s.config, s.manifest, s.seenAt), o, s.now, Heartbeat))
    else if s.Reconcile? && s.owner == o then Some(Evaluate(t, o, s.now, Apply))
    else None
  }

  ghost function Observed(t: Tables, s: Step, o: Owner): Option<Observation>
    requires Inv(t) && WellFormedStep(s)
  {
    if Evaluation(t, s, o).Some? then Some(Seen(Evaluation(t, s, o).value.plan))
    else if s.OperatorAction? && Permitted(t, s.action, s.actor) && Touches(t, s.action, o) then Some(Reset(s.now))
    else if s.Snapshot? && s.runtime.protocol != Some(CRON_PROTOCOL_VERSION) then Some(Reset(s.now))
    else None
  }

  ghost function Observations(steps: seq<Step>, o: Owner): seq<Observation>
    requires WellFormedRun(steps)
  {
    if steps == [] then []
    else
      var prefix := steps[..|steps|-1];
      var seen := Observed(After(prefix), steps[|steps|-1], o);
      Observations(prefix, o) + if seen.Some? then [seen.value] else []
  }

  /** The plan saw unanimous live evidence and no blocker but grace. */
  ghost predicate Quiet(p: Plan) {
    && (p.blockers == [] || p.blockers == [GracePeriod])
    && p.desiredHash.Some? && p.declarations != map[]
  }

  /** No piece of the evidence has expired at this time. */
  ghost predicate Outlives(live: map<Instance, LiveDeclaration>, at: Time) {
    live != map[] && forall i :: i in live ==> at < live[i].expiresAt
  }

  /** The recorded end of evidence is that of its first piece to expire. */
  lemma EarliestIs(live: map<Instance, LiveDeclaration>, at: Time)
    requires live != map[]
    ensures at < EarliestExpiry(live) <==> Outlives(live, at)
  {
    MapNonEmpty(live);
    if at < EarliestExpiry(live) {
      forall i | i in live ensures at < live[i].expiresAt {
        assert live[i].expiresAt in Expiries(live);
      }
    }
  }

  /** An agreement window: from its first evaluation, at `since`, every evaluation
      was quiet about one digest and came strictly before the earliest expiry of
      the evidence the previous one saw, and nothing reset it. */
  ghost predicate Unbroken(obs: seq<Observation>, h: Digest, since: Time) {
    && |obs| > 0
    && (forall i :: 0 <= i < |obs| ==>
          obs[i].Seen? && Quiet(obs[i].plan) && obs[i].plan.desiredHash == Some(h)
          && Outlives(obs[i].plan.declarations, obs[i].plan.evaluatedAt))
    && obs[0].plan.evaluatedAt == since
    && (forall i :: 0 < i < |obs| ==> Outlives(obs[i-1].plan.declarations, obs[i].plan.evaluatedAt))
  }

  // ---- One step -------------------------------------------------------------------

  /** The evaluation `p` at `now` left the owner's row `a1` where `a` was before. */
  ghost predicate Recorded(a: Agreement, p: Plan, now: Time, a1: Agreement) {
    && p.evaluatedAt == now
    && (Quiet(p) ==>
          && p.agreedSince == Some(Since(a, p.desiredHash, now))
          && now < EarliestExpiry(p.declarations)
          && a1 == Agreement(p.desiredHash, p.desiredHash, p.agreedSince, Some(EarliestExpiry(p.declarations))))
    && (!Quiet(p) ==> a1 == NoAgreement.(syncedHash := a.syncedHash))
  }

  /** What a persisted evaluation leaves in the window columns. */
  lemma EvaluationRecords(t: Tables, o: Owner, now: Time, mode: Mode)
    requires Backed(t) && !mode.DryRun?
    ensures var e := Evaluate(t, o, now, mode); Recorded(OwnerState(t, o), e.plan, now, OwnerState(e.after, o))
  {
    EvidenceShape(t, o, now);
    ExpiryAhead(t, o, now);
    var p := Compared(t, o, now, mode);
    if p.blockers == [] {
      AgreedRecords(t, p, mode);
    } else {
      assert p.blockers[|p.blockers|-1] != GracePeriod;
    }
  }

  lemma AgreedRecords(t: Tables, p: Plan, mode: Mode)
    requires !mode.DryRun? && p.desiredHash.Some? && p.declarations != map[] && p.owner in t.owners
    requires (p.owner, p.desiredHash.value) in t.manifests
    requires p.evaluatedAt < EarliestExpiry(p.declarations)
    ensures var e := Agreed(t, p, mode);
            Recorded(OwnerState(t, p.owner), e.plan, p.evaluatedAt, OwnerState(e.after, p.owner))
  {
    var q := Graced(t, p);
    RecordWindow(Synced(t, q), q);
  }

  /** An evaluation writes no other owner's row. */
  lemma EvaluationKeepsOthers(t: Tables, o: Owner, now: Time, mode: Mode, x: Owner)
    requires Backed(t) && x != o
    ensures OwnerState(Evaluate(t, o, now, mode).after, x) == OwnerState(t, x)
  {
    EvidenceShape(t, o, now);
    var p := Compared(t, o, now, mode);
    if p.blockers == [] {
      var q := Graced(t, p);
      RecordWindow(Synced(t, q), q);
    }
  }

  lemma RecordWindow(t: Tables, p: Plan)
    requires p.declarations != map[] && p.owner in t.owners
    ensures var a := OwnerState(Record(t, p), p.owner);
            && OwnerState(RetireAbsent(Record(t, p), p), p.owner) == a
            && a.syncedHash == OwnerState(t, p.owner).syncedHash
            && a.agreedHash == p.desiredHash && a.agreedSince == p.agreedSince
            && a.evidenceUntil == Some(EarliestExpiry(p.declarations))
    ensures forall x :: x != p.owner ==>
              OwnerState(RetireAbsent(Record(t, p), p), x) == OwnerState(Record(t, p), x) == OwnerState(t, x)
  {
  }

  lemma PublishKeepsWindow(t: Tables, s: Step, o: Owner)
    requires Inv(t) && WellFormedStep(s) && s.Publish? && Observed(t, s, o).None?
    ensures OwnerState(Next(t, s), o) == OwnerState(t, o)
  {
    if Publishes(t, s.instance, s.config) {
      DeclaredBacked(t, s.instance, s.config, s.manifest, s.seenAt);
      var d := Declared(t, s.instance, s.config, s.manifest, s.seenAt);
      EvaluationKeepsOthers(d, s.config.owner, s.now, Heartbeat, o);
      assert OwnerState(d, o) == OwnerState(t, o);
    }
  }

  lemma OperateKeepsWindow(t: Tables, a: Action, actor: string, now: Time, o: Owner)
    requires Permitted(t, a, actor) ==> !Touches(t, a, o)
    ensures OwnerState(Operate(t, a, actor, now), o) == OwnerState(t, o)
  {
    if Permitted(t, a, actor) {
      OperateOwnersDone(t, a, actor, now);
    }
  }

  /** A step the owner does not observe leaves its row alone, certificate aside. */
  lemma UnobservedKeepsWindow(t: Tables, s: Step, o: Owner)
    requires Inv(t) && WellFormedStep(s) && Observed(t, s, o).None?
    ensures OwnerState(Next(t, s), o) == OwnerState(t, o)
  {
    match s
    case Publish(_, _, _, _, _) => PublishKeepsWindow(t, s, o);
    case Reconcile(x, now) => EvaluationKeepsOthers(t, x, now, Apply, o);
    case OperatorAction(a, actor, now) =>
      OperateKeepsWindow(t, a, actor, now, o);
    case _ =>
  }

  lemma ResetClearsWindow(t: Tables, s: Step, o: Owner)
    requires Inv(t) && WellFormedStep(s) && Observed(t, s, o).Some? && Observed(t, s, o).value.Reset?
    ensures s.OperatorAction? ==> OwnerState(Next(t, s), o) == NoAgreement
    ensures s.Snapshot? ==> OwnerState(Next(t, s), o) == OwnerState(t, o).(agreedSince := None, evidenceUntil := None)
    ensures OwnerState(Next(t, s), o).agreedSince.None?
  {
    if s.OperatorAction? {
      OperateOwnersDone(t, s.action, s.actor, s.now);
    }
  }

  lemma EvaluationStep(t: Tables, s: Step, o: Owner)
    requires Inv(t) && WellFormedStep(s) && Evaluation(t, s, o).Some?
    ensures Recorded(OwnerState(t, o), Evaluation(t, s, o).value.plan, s.now, OwnerState(Next(t, s), o))
  {
    if s.Publish? {
      DeclaredBacked(t, s.instance, s.config, s.manifest, s.seenAt);
      EvaluationRecords(Declared(t, s.instance, s.config, s.manifest, s.seenAt), o, s.now, Heartbeat);
    } else {
      EvaluationRecords(t, o, s.now, Apply);
    }
  }

  // ---- The window over a run ----------------------------------------------------

  /** The window `a` holds is an unbroken tail of the owner's observations that
      began at `agreed_since` and whose last evaluation recorded `evidence_until`. */
  ghost predicate BackedBy(a: Agreement, obs: seq<Observation>, m: nat) {
    && a.agreedHash.Some? && a.agreedSince.Some? && m < |obs|
    && Unbroken(obs[m..], a.agreedHash.value, a.agreedSince.value)
    && obs[|obs|-1] == obs[m..][|obs|-1-m]
    && a.evidenceUntil == Some(EarliestExpiry(obs[|obs|-1].plan.declarations))
  }

  /** No longer tail of the observations is unbroken. */
  ghost predicate Longest(obs: seq<Observation>, m: nat) {
    forall j, h, since :: 0 <= j < m <= |obs| ==> !Unbroken(obs[j..], h, since)
  }

  lemma ExtendWindow(a: Agreement, obs: seq<Observation>, m: nat, p: Plan, now: Time, a1: Agreement)
    requires BackedBy(a, obs, m) && Recorded(a, p, now, a1) && Quiet(p)
    requires a.agreedHash == p.desiredHash && a.evidenceUntil.value > now
    ensures BackedBy(a1, obs + [Seen(p)], m)
  {
    var w := obs[m..];
    assert (obs + [Seen(p)])[m..] == w + [Seen(p)];
    EarliestIs(p.declarations, now);
    EarliestIs(w[|w|-1].plan.declarations, now);
  }

  lemma ExtendLongest(obs: seq<Observation>, m: nat, last: Observation)
    requires m < |obs| && Longest(obs, m)
    ensures Longest(obs + [last], m)
  {
    var longer := obs + [last];
    forall j, h, since | 0 <= j < m ensures !Unbroken(longer[j..], h, since) {
      assert longer[j..] == obs[j..] + [last];
      PrefixUnbroken(obs[j..], last, h, since);
    }
  }

  lemma PrefixUnbroken(obs: seq<Observation>, last: Observation, h: Digest, since: Time)
    requires obs != []
    ensures Unbroken(obs + [last], h, since) ==> Unbroken(obs, h, since)
  {
    var longer := obs + [last];
    assert forall i :: 0 <= i < |obs| ==> longer[i] == obs[i];
  }

  lemma StartWindow(a: Agreement, obs: seq<Observation>, p: Plan, now: Time, a1: Agreement)
    requires Recorded(a, p, now, a1) && Quiet(p)
    requires !(a.agreedHash == p.desiredHash && a.evidenceUntil.Some? && a.evidenceUntil.value > now)
    ensures BackedBy(a1, obs + [Seen(p)], |obs|)
  {
    assert (obs + [Seen(p)])[|obs|..] == [Seen(p)];
    EarliestIs(p.declarations, now);
  }

  /** The owner's row still shows what the last quiet observation recorded. */
  ghost predicate ShowsLast(a: Agreement, obs: seq<Observation>) {
    obs != [] && obs[|obs|-1].Seen? && Quiet(obs[|obs|-1].plan) ==>
      && a.agreedHash == obs[|obs|-1].plan.desiredHash
      && a.evidenceUntil == Some(EarliestExpiry(obs[|obs|-1].plan.declarations))
  }

  /** A window is only started anew where the observations break. */
  lemma StartLongest(a: Agreement, obs: seq<Observation>, p: Plan, now: Time, a1: Agreement)
    requires ShowsLast(a, obs) && Recorded(a, p, now, a1) && Quiet(p)
    requires !(a.agreedHash == p.desiredHash && a.evidenceUntil.Some? && a.evidenceUntil.value > now)
    ensures Longest(obs + [Seen(p)], |obs|)
  {
    var longer, n := obs + [Seen(p)], |obs|;
    forall j, h, since | 0 <= j < n ensures !Unbroken(longer[j..], h, since) {
      var tail := longer[j..];
      assert tail[n-j] == longer[n] && tail[n-j-1] == longer[n-1] == obs[n-1];
      if Unbroken(tail, h, since) {
        EarliestIs(obs[n-1].plan.declarations, now);
      }
    }
  }

  lemma {:induction false} RowShowsLast(steps: seq<Step>, o: Owner)
    requires WellFormedRun(steps)
    ensures ShowsLast(OwnerState(After(steps), o), Observations(steps, o))
  {
    if steps != [] {
      var prefix, s := steps[..|steps|-1], steps[|steps|-1];
      var t := After(prefix);
      var seen := Observed(t, s, o);
      assert After(steps) == Next(t, s);
      if seen.None? {
        UnobservedKeepsWindow(t, s, o);
        RowShowsLast(prefix, o);
        assert Observations(steps, o) == Observations(prefix, o);
      } else if seen.value.Seen? {
        EvaluationStep(t, s, o);
      }
    }
  }

  /** Recorded agreement is neither invented nor forgotten: behind every window the tables
      hold there is such a tail of observations, and none longer. */
  lemma {:induction false} WindowBacked(steps: seq<Step>, o: Owner) returns (m: nat)
    requires WellFormedRun(steps) && OwnerState(After(steps), o).agreedSince.Some?
    ensures BackedBy(OwnerState(After(steps), o), Observations(steps, o), m)
    ensures Longest(Observations(steps, o), m)
  {
    assert |steps| > 0;
    var prefix, s := steps[..|steps|-1], steps[|steps|-1];
    var t := After(prefix);
    var seen := Observed(t, s, o);
    assert After(steps) == Next(t, s);
    if seen.None? {
      UnobservedKeepsWindow(t, s, o);
      m := WindowBacked(prefix, o);
      assert Observations(steps, o) == Observations(prefix, o);
    } else if seen.value.Reset? {
      ResetClearsWindow(t, s, o);
      assert false;
    } else {
      EvaluationStep(t, s, o);
      RowShowsLast(prefix, o);
      m := 0;
      if OwnerState(t, o).agreedSince.Some? {
        m := WindowBacked(prefix, o);
      }
      assert WindowsPaired(t);
      m := ExtendOrStart(OwnerState(t, o), Observations(prefix, o), m, seen.value.plan, s.now,
                         OwnerState(Next(t, s), o));
      assert Observations(steps, o) == Observations(prefix, o) + [seen.value];
    }
  }

  lemma ExtendOrStart(a: Agreement, obs: seq<Observation>, m: nat, p: Plan, now: Time, a1: Agreement) returns (m1: nat)
    requires Recorded(a, p, now, a1) && a1.agreedSince.Some? && ShowsLast(a, obs)
    requires a.evidenceUntil.Some? ==> a.agreedSince.Some?
    requires a.agreedSince.Some? ==> BackedBy(a, obs, m) && Longest(obs, m)
    ensures BackedBy(a1, obs + [Seen(p)], m1) && Longest(obs + [Seen(p)], m1)
  {
    if a.agreedHash == p.desiredHash && a.evidenceUntil.Some? && a.evidenceUntil.value > now {
      m1 := m;
      ExtendWindow(a, obs, m, p, now, a1);
      ExtendLongest(obs, m, Seen(p));
    } else {
      m1 := |obs|;
      StartWindow(a, obs, p, now, a1);
      StartLongest(a, obs, p, now, a1);
    }
  }

  /** No observation is later than the run. */
  lemma {:induction false} ObservedInTime(steps: seq<Step>, o: Owner, bound: Time)
    requires WellFormedRun(steps) && forall i :: 0 <= i < |steps| ==> steps[i].now <= bound
    ensures forall ob :: ob in Observations(steps, o) && ob.Seen? ==> ob.plan.evaluatedAt <= bound
  {
    if steps != [] {
      var prefix, s := steps[..|steps|-1], steps[|steps|-1];
      ObservedInTime(prefix, o, bound);
      if Evaluation(After(prefix), s, o).Some? {
        EvaluationStep(After(prefix), s, o);
      }
    }
  }

  // ---- Retirement safety ----------------------------------------------------------

  /** The revisions of the live declarations. */
  function RevisionsOf(live: map<Instance, LiveDeclaration>): set<string> {
    set i | i in live :: live[i].revision
  }

  lemma RetireMarks(t: Tables, p: Plan, n: Name)
    requires n in t.schedules && t.schedules[n].retirement.None?
    requires n in RetireAbsent(t, p).schedules && RetireAbsent(t, p).schedules[n].retirement.Some?
    ensures n in p.changes.retirements && t.schedules[n].owner == Some(p.owner)
    ensures RetireAbsent(t, p).schedules[n]
            == t.schedules[n].(retirement := Some(Retirement(p.evaluatedAt, p.owner, RevisionsOf(p.declarations))))
  {
  }

  /** Only an applied reconciliation of the row's owner, or an operator, retires; it marks
      the row with the time, the owner and the live revisions, and changes nothing else. */
  lemma ReconcileRetires(t: Tables, o: Owner, now: Time, n: Name)
    requires Inv(t) && n in t.schedules && t.schedules[n].retirement.None?
    requires var after := Evaluate(t, o, now, Apply).after;
             n in after.schedules && after.schedules[n].retirement.Some?
    ensures var e := Evaluate(t, o, now, Apply);
            var p := e.plan;
            && p.applied && p.blockers == [] && t.schedules[n].owner == Some(o)
            && p.desiredHash.Some? && n !in Wanted(p.desiredHash.value.of)
            && e.after.schedules[n]
               == t.schedules[n].(retirement := Some(Retirement(now, o, RevisionsOf(p.declarations))))
  {
    EvidenceShape(t, o, now);
    var p := Compared(t, o, now, Apply);
    if p.blockers == [] {
      var q := Graced(t, p);
      SyncedRow(t, q, n);
      if q.blockers == [] {
        RetireMarks(Record(Synced(t, q), q), q, n);
        AbsentKept(t, q, n);
      }
    }
  }

  /** A sync does not write a row outside the manifest. */
  lemma AbsentKept(t: Tables, p: Plan, n: Name)
    requires p.desiredHash.Some? && (p.owner, p.desiredHash.value) in t.manifests
    requires n in t.schedules && n !in Wanted(t.manifests[(p.owner, p.desiredHash.value)])
    ensures n in Synced(t, p).schedules && Synced(t, p).schedules[n] == t.schedules[n]
  {
  }

  /** Every declaration's grace, in milliseconds, is at most `elapsed` microseconds. */
  ghost predicate LiveGraceServed(live: map<Instance, LiveDeclaration>, elapsed: Time) {
    forall i :: i in live ==> live[i].graceMs * 1000 <= elapsed
  }

  /** Without a grace blocker every live declaration's grace has elapsed. */
  lemma GraceElapsed(live: map<Instance, LiveDeclaration>, since: Time, now: Time)
    requires live != map[] && since <= now && GraceRemaining(live, since, now) == 0
    ensures LiveGraceServed(live, now - since)
  {
    MapNonEmpty(live);
    forall i | i in live ensures live[i].graceMs * 1000 <= now - since {
      assert live[i].graceMs in Graces(live);
    }
  }

  /** What a plan reports as the remaining grace is how long a caller must still wait. */
  lemma GraceRemainingIs(live: map<Instance, LiveDeclaration>, since: Time, now: Time)
    requires live != map[] && since <= now && forall i :: i in live ==> 0 <= live[i].graceMs <= I64_MAX
    ensures var left := GraceRemaining(live, since, now);
            && left >= 0
            && LiveGraceServed(live, now + left * 1000 - since)
            && (left > 0 ==> !LiveGraceServed(live, now + (left - 1) * 1000 - since))
  {
    MapNonEmpty(live);
    var left := GraceRemaining(live, since, now);
    var most := MaxOf(Graces(live));
    forall i | i in live ensures live[i].graceMs * 1000 <= now + left * 1000 - since {
      assert live[i].graceMs in Graces(live);
    }
    var i :| i in live && live[i].graceMs == most;
  }

  /** Evidence served its grace exactly if what was published did. */
  lemma GraceAsPublished(steps: seq<Step>, o: Owner, now: Time, elapsed: Time)
    requires WellFormedRun(steps)
    ensures LiveGraceServed(LiveDeclarations(After(steps), o, now), elapsed) <==> GraceServed(steps, o, now, elapsed)
  {
    EvidenceRows(After(steps), o, now);
    SpeaksAsPublished(steps, o, now);
  }

  lemma RevisionsAsPublished(steps: seq<Step>, o: Owner, now: Time, v: string)
    requires WellFormedRun(steps)
    ensures v in RevisionsOf(LiveDeclarations(After(steps), o, now)) <==>
              exists i :: SpokeFor(steps, o, i, now) && Published(steps, i).value.config.revision == v
  {
    EvidenceRows(After(steps), o, now);
    SpeaksAsPublished(steps, o, now);
    if i :| SpokeFor(steps, o, i, now) && Published(steps, i).value.config.revision == v {
      assert i in LiveDeclarations(After(steps), o, now);
    }
  }

  /** Everything but time speaks for applying `h`: nobody is foreign, all who speak for the
      owner published `h`, and no row under its names is retired or another owner's. */
  ghost predicate Ready(steps: seq<Step>, o: Owner, now: Time, h: Digest)
    requires WellFormedRun(steps)
  {
    && NoneForeign(steps, now) && Agreeing(steps, o, now, h)
    && forall n :: n in Wanted(h.of) && n in After(steps).schedules ==> Held(After(steps).schedules[n], o)
  }

  lemma NoConflictsIff(schedules: map<Name, Schedule>, owner: Owner, want: map<Name, Definition>)
    ensures Describe(schedules, owner, want).conflicts == {} <==>
              forall n :: n in want && n in schedules ==> Held(schedules[n], owner)
  {
    if n :| n in want && n in schedules && !Held(schedules[n], owner) {
      assert ConflictOf(n, schedules[n], owner) in Describe(schedules, owner, want).conflicts;
    }
  }

  /** A reconciliation blocks on nothing but grace exactly in a ready state. */
  lemma ReadyIff(steps: seq<Step>, o: Owner, now: Time, h: Digest)
    requires WellFormedRun(steps)
    ensures var p := Evaluate(After(steps), o, now, Apply).plan;
            Quiet(p) && p.desiredHash == Some(h) <==> Ready(steps, o, now, h)
  {
    var t := After(steps);
    EvidenceShape(t, o, now);
    UnblockedIff(steps, o, now, h);
    QuietIff(t, o, now, h);
    NoConflictsIff(t.schedules, o, Wanted(h.of));
  }

  lemma QuietIff(t: Tables, o: Owner, now: Time, h: Digest)
    requires Backed(t)
    ensures var p, e := Evaluate(t, o, now, Apply).plan, Evidence(t, o, now);
            Quiet(p) && p.desiredHash == Some(h) <==>
              e.blockers == [] && e.desiredHash == Some(h) && Describe(t.schedules, o, Wanted(h.of)).conflicts == {}
  {
    EvidenceShape(t, o, now);
    var p := Compared(t, o, now, Apply);
    assert p.blockers != [] ==> p.blockers[|p.blockers|-1] != GracePeriod;
  }

  /** The tombstone names the time, the owner, and the revisions of all who spoke for it. */
  ghost predicate Tombstone(steps: seq<Step>, o: Owner, now: Time, row: Schedule, row1: Schedule) {
    && row1.retirement.Some? && row1 == row.(retirement := row1.retirement)
    && row1.retirement.value.at == now && row1.retirement.value.actor == o
    && forall v :: v in row1.retirement.value.revisions <==>
         exists i :: SpokeFor(steps, o, i, now) && Published(steps, i).value.config.revision == v
  }

  /** Retirement safety. In every run, when a reconciliation of `o` at time `T` retires a
      schedule, the row was `o`'s, its name is absent from the manifest `h`, which is what
      all who spoke for `o` had published, and no recently seen runtime was foreign. The
      owner's observations end in an unbroken window: from `since` to `T` every persisted
      evaluation saw that one digest and no blocker but grace, each before any evidence of
      the previous one expired, and no operator action and no foreign runtime intervened.
      The grace that each of them published has elapsed since the window opened. */
  lemma RetirementSafety(steps: seq<Step>, o: Owner, n: Name) returns (m: nat, h: Digest, since: Time)
    requires WellFormedRun(steps) && Clocked(steps) && |steps| > 0
    requires var s := steps[|steps|-1]; s.Reconcile? && s.owner == o
    requires var t := After(steps[..|steps|-1]); n in t.schedules && t.schedules[n].retirement.None?
    requires n in After(steps).schedules && After(steps).schedules[n].retirement.Some?
    ensures var prefix, T := steps[..|steps|-1], steps[|steps|-1].now;
            var obs := Observations(steps, o);
            && After(prefix).schedules[n].owner == Some(o)
            && n !in Wanted(h.of) && Ready(prefix, o, T, h)
            && m < |obs| && Unbroken(obs[m..], h, since)
            && obs[|obs|-1].Seen? && obs[|obs|-1].plan.applied && obs[|obs|-1].plan.evaluatedAt == T
            && OwnerState(After(steps), o).agreedSince == Some(since)
            && since <= T && GraceServed(prefix, o, T, T - since)
            && Tombstone(prefix, o, T, After(prefix).schedules[n], After(steps).schedules[n])
  {
    var prefix, s := steps[..|steps|-1], steps[|steps|-1];
    var t := After(prefix);
    ReconcileRetires(t, o, s.now, n);
    var form := AppliedForm(t, o, s.now);
    EvaluationStep(t, s, o);
    var p := Evaluation(t, s, o).value.plan;
    h, since := p.desiredHash.value, p.agreedSince.value;
    ReadyIff(prefix, o, s.now, h);
    m := WindowOf(steps, o);
    GraceElapsed(p.declarations, since, s.now);
    GraceAsPublished(prefix, o, s.now, s.now - since);
    forall v ensures v in RevisionsOf(p.declarations) <==>
                       exists i :: SpokeFor(prefix, o, i, s.now) && Published(prefix, i).value.config.revision == v {
      RevisionsAsPublished(prefix, o, s.now, v);
    }
  }

  /** The window behind the last, quiet reconciliation of a run. */
  lemma WindowOf(steps: seq<Step>, o: Owner) returns (m: nat)
    requires WellFormedRun(steps) && Clocked(steps) && |steps| > 0
    requires var s := steps[|steps|-1]; s.Reconcile? && s.owner == o
    requires Quiet(Evaluate(After(steps[..|steps|-1]), o, steps[|steps|-1].now, Apply).plan)
    ensures var p := Evaluate(After(steps[..|steps|-1]), o, steps[|steps|-1].now, Apply).plan;
            var obs := Observations(steps, o);
            && p.desiredHash.Some? && p.agreedSince.Some?
            && OwnerState(After(steps), o).agreedSince == p.agreedSince
            && m < |obs| && Unbroken(obs[m..], p.desiredHash.value, p.agreedSince.value) && Longest(obs, m)
            && obs[|obs|-1] == Seen(p) && p.agreedSince.value <= p.evaluatedAt == steps[|steps|-1].now
  {
    var prefix, s := steps[..|steps|-1], steps[|steps|-1];
    EvaluationStep(After(prefix), s, o);
    m := WindowBacked(steps, o);
    var obs := Observations(steps, o);
    ObservedInTime(steps, o, s.now);
    assert obs[m] in obs && obs[m..][0] == obs[m];
  }

  // ---- Exactly when grace is over ---------------------------------------------------

  /** Observations come in the order of time. */
  ghost predicate InTimeOrder(obs: seq<Observation>) {
    forall i, j :: 0 <= i < j < |obs| && obs[i].Seen? && obs[j].Seen? ==>
      obs[i].plan.evaluatedAt <= obs[j].plan.evaluatedAt
  }

  lemma {:induction false} ObservedInOrder(steps: seq<Step>, o: Owner)
    requires WellFormedRun(steps) && Clocked(steps)
    ensures InTimeOrder(Observations(steps, o))
  {
    if steps != [] {
      var prefix, s := steps[..|steps|-1], steps[|steps|-1];
      var obs, seen := Observations(prefix, o), Observed(After(prefix), s, o);
      ObservedInOrder(prefix, o);
      ObservedInTime(prefix, o, s.now);
      if seen.None? {
        assert Observations(steps, o) == obs;
      } else {
        if seen.value.Seen? {
          EvaluationStep(After(prefix), s, o);
        }
        LaterObservation(obs, seen.value, s.now);
      }
    }
  }

  lemma LaterObservation(obs: seq<Observation>, last: Observation, now: Time)
    requires InTimeOrder(obs) && (last.Seen? ==> last.plan.evaluatedAt == now)
    requires forall ob :: ob in obs && ob.Seen? ==> ob.plan.evaluatedAt <= now
    ensures InTimeOrder(obs + [last])
  {
    var longer := obs + [last];
    assert forall i :: 0 <= i < |obs| ==> longer[i] == obs[i] && longer[i] in obs;
  }

  /** Everything is ready, and over the unbroken window of observations from the `j`-th on
      the grace of all who speak for the owner has elapsed. */
  ghost predicate GraceOver(steps: seq<Step>, o: Owner, now: Time, obs: seq<Observation>,
                            j: nat, h: Digest, since: Time)
    requires WellFormedRun(steps)
  {
    Ready(steps, o, now, h) && j < |obs| && Unbroken(obs[j..], h, since) && GraceServed(steps, o, now, now - since)
  }

  /** A longer window opened no later. */
  lemma LongestIsEarliest(obs: seq<Observation>, m: nat, h: Digest, since: Time, j: nat, h1: Digest, since1: Time)
    requires InTimeOrder(obs) && m < |obs| && Unbroken(obs[m..], h, since) && Longest(obs, m)
    requires j < |obs| && Unbroken(obs[j..], h1, since1)
    ensures since <= since1
  {
    assert m <= j;
    assert obs[m..][0] == obs[m] && obs[j..][0] == obs[j];
  }

  lemma GraceRemains(live: map<Instance, LiveDeclaration>, since: Time, now: Time)
    requires live != map[] && since <= now && LiveGraceServed(live, now - since)
    ensures GraceRemaining(live, since, now) == 0
  {
    MapNonEmpty(live);
  }

  /** Exactly when a reconciliation is applied: if and only if no recent runtime is foreign,
      all who speak for the owner published one manifest, no row stands against it, and some
      unbroken window of the owner's observations, ending in this one, has served the grace
      that each of them published. */
  lemma AppliedIffGraceOver(steps: seq<Step>, o: Owner)
    requires WellFormedRun(steps) && Clocked(steps) && |steps| > 0
    requires var s := steps[|steps|-1]; s.Reconcile? && s.owner == o
    ensures var prefix, T := steps[..|steps|-1], steps[|steps|-1].now;
            var obs := Observations(steps, o);
            && obs != [] && obs[|obs|-1].Seen?
            && (obs[|obs|-1].plan.applied <==>
                  exists j: nat, h, since :: GraceOver(prefix, o, T, obs, j, h, since))
  {
    var prefix, s := steps[..|steps|-1], steps[|steps|-1];
    var t, obs := After(prefix), Observations(steps, o);
    var p := Evaluate(t, o, s.now, Apply).plan;
    assert obs[|obs|-1] == Seen(p);
    ReconcileGrace(t, o, s.now);
    if Quiet(p) {
      var m := WindowOf(steps, o);
      var h, since := p.desiredHash.value, p.agreedSince.value;
      ReadyIff(prefix, o, s.now, h);
      if p.applied {
        GraceElapsed(p.declarations, since, s.now);
        GraceAsPublished(prefix, o, s.now, s.now - since);
        assert GraceOver(prefix, o, s.now, obs, m, h, since);
      } else if j: nat, h1, since1 :| GraceOver(prefix, o, s.now, obs, j, h1, since1) {
        ObservedInOrder(steps, o);
        LongestIsEarliest(obs, m, h, since, j, h1, since1);
        GraceAsPublished(prefix, o, s.now, s.now - since);
        GraceRemains(p.declarations, since, s.now);
      }
    } else if j: nat, h1, since1 :| GraceOver(prefix, o, s.now, obs, j, h1, since1) {
      ReadyIff(prefix, o, s.now, h1);
    }
  }

  /** A quiet plan of a reconciliation is applied exactly when no grace remains. */
  lemma ReconcileGrace(t: Tables, o: Owner, now: Time)
    requires Backed(t)
    ensures var p := Evaluate(t, o, now, Apply).plan;
            && p.declarations == LiveDeclarations(t, o, now)
            && (p.applied ==> Quiet(p))
            && (Quiet(p) ==> p.agreedSince.Some?)
            && (Quiet(p) ==> (p.applied <==> GraceRemaining(p.declarations, p.agreedSince.value, now) == 0))
  {
    EvidenceShape(t, o, now);
    var p := Compared(t, o, now, Apply);
    assert p.blockers != [] ==> p.blockers[|p.blockers|-1] != GracePeriod;
  }

  ghost predicate Covers(ob: Observation, at: Time) {
    ob.Seen? && ob.plan.evaluatedAt <= at && Outlives(ob.plan.declarations, at)
  }

  /** Evidence covers the whole window: at every instant of it some evaluation
      had already been made whose evidence had not yet expired, so an outage can
      never be read as an empty manifest. */
  lemma WindowCovered(obs: seq<Observation>, h: Digest, since: Time, at: Time)
    requires Unbroken(obs, h, since) && since <= at <= obs[|obs|-1].plan.evaluatedAt
    ensures exists ob :: ob in obs && Covers(ob, at)
  {
    var i := |obs| - 1;
    while i > 0 && obs[i].plan.evaluatedAt > at
      invariant 0 <= i < |obs|
      invariant i < |obs| - 1 ==> at < obs[i+1].plan.evaluatedAt
    {
      i := i - 1;
    }
    assert obs[i].plan.evaluatedAt <= at;
    assert i < |obs| - 1 ==> Outlives(obs[i].plan.declarations, obs[i+1].plan.evaluatedAt);
    assert obs[i] in obs && Covers(obs[i], at);
  }

  // ---- Retirement is durable ---------------------------------------------------

  /** A retired row survives every transaction but an operator's unchanged: it is
      not re-activated, re-owned, redefined, fired or deleted, not even by
      statements of clients that know nothing of retirement. */
  lemma RetirementDurable(t: Tables, s: Step, n: Name)
    requires Inv(t) && WellFormedStep(s) && !s.OperatorAction?
    requires n in t.schedules && t.schedules[n].retirement.Some?
    ensures n in Next(t, s).schedules && Next(t, s).schedules[n] == t.schedules[n]
  {
    match s
    case Publish(i, c, m, seenAt, now) =>
      if Publishes(t, i, c) {
        var d := Declared(t, i, c, m, seenAt);
        DeclaredBacked(t, i, c, m, seenAt);
        assert n in d.schedules && d.schedules[n] == t.schedules[n];
        EvaluateKeepsRetired(d, c.owner, now, Heartbeat, n);
      }
    case Reconcile(o, now) => EvaluateKeepsRetired(t, o, now, Apply, n);
    case _ =>
  }

  lemma EvaluateKeepsRetired(t: Tables, o: Owner, now: Time, mode: Mode, n: Name)
    requires Backed(t) && n in t.schedules && t.schedules[n].retirement.Some?
    ensures var after := Evaluate(t, o, now, mode).after;
            n in after.schedules && after.schedules[n] == t.schedules[n]
  {
    EvidenceShape(t, o, now);
    var p := Compared(t, o, now, mode);
    if p.blockers == [] {
      var q := Graced(t, p);
      assert Synced(t, q).schedules[n] == t.schedules[n];
    }
  }
}
