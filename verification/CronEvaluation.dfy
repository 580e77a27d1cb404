/** Publication, evaluation and operator actions of the reconciliation protocol,
    each one transaction under `awa.cron_protocol_lock`, as functions of the tables. */
module CronEvaluation {
  import opened Prelude
  import opened KeySort
  import opened CronManifest
  import opened CronTables

  // ---- Evidence ------------------------------------------------------------

  /** `GREATEST(30.0, snapshot_interval_ms * 0.003)` seconds, in microseconds. */
  function FreshnessWindow(r: Runtime): Time {
    Max(30_000_000, r.snapshotIntervalMs * 3_000)
  }

  /** A live declaration with the time its evidence expires. */
  datatype LiveDeclaration = LiveDeclaration(revision: string, desiredHash: Digest, graceMs: int, expiresAt: Time)

  function Expiry(d: Declaration, r: Runtime): Time {
    Min(d.lastSeenAt, r.lastSeenAt) + FreshnessWindow(r)
  }

  function LiveDeclarations(t: Tables, owner: Owner, now: Time): map<Instance, LiveDeclaration> {
    map i | i in t.declarations && i in t.runtimes
            && t.declarations[i].owner == owner
            && Expiry(t.declarations[i], t.runtimes[i]) > now
            && !t.runtimes[i].shuttingDown
      :: LiveDeclaration(t.declarations[i].revision, t.declarations[i].desiredHash, t.declarations[i].graceMs,
                         Expiry(t.declarations[i], t.runtimes[i]))
  }

  function BlockingInstances(t: Tables, now: Time): set<Instance> {
    set i | i in t.runtimes
            && t.runtimes[i].lastSeenAt + FreshnessWindow(t.runtimes[i]) > now
            && t.runtimes[i].protocol != Some(CRON_PROTOCOL_VERSION)
  }

  function Hashes(live: map<Instance, LiveDeclaration>): set<Digest> {
    set i | i in live :: live[i].desiredHash
  }

  /** Every live declaration asks for `h`, and there is one. */
  ghost predicate Unanimous(live: map<Instance, LiveDeclaration>, h: Digest) {
    Hashes(live) == {h}
  }

  function Graces(live: map<Instance, LiveDeclaration>): set<int> {
    set i | i in live :: live[i].graceMs
  }

  function Expiries(live: map<Instance, LiveDeclaration>): set<Time> {
    set i | i in live :: live[i].expiresAt
  }

  // ---- Plans ---------------------------------------------------------------

  datatype Blocker =
    | UnsupportedRuntimeProtocol
    | ZeroLiveDeclarations
    | MixedDesiredManifests
    | OwnershipOrRetirementConflict
    | GracePeriod
    | ManifestNotPublished

  datatype Conflict = OwnedBy(name: Name, owner: Option<Owner>) | Retired(name: Name)

  datatype Changes = Changes(additions: set<Name>, updates: set<Name>, retirements: set<Name>, conflicts: set<Conflict>)

  const NoChanges := Changes({}, {}, {}, {})

  datatype Plan = Plan(
    owner: Owner,
    desiredHash: Option<Digest>,
    declarations: map<Instance, LiveDeclaration>,
    blockingInstances: set<Instance>,
    blockers: seq<Blocker>,
    changes: Changes,
    agreedSince: Option<Time>,
    graceRemainingMs: int,
    evaluatedAt: Time,
    applied: bool)

  /** The row is the owner's and not retired. */
  predicate Held(row: Schedule, owner: Owner) {
    row.owner == Some(owner) && row.retirement.None?
  }

  /** `conflict_description` */
  function ConflictOf(name: Name, row: Schedule, owner: Owner): Conflict {
    if row.owner != Some(owner) then OwnedBy(name, row.owner) else Retired(name)
  }

  /** `describe_changes` */
  function Describe(schedules: map<Name, Schedule>, owner: Owner, want: map<Name, Definition>): Changes {
    Changes(
      want.Keys - schedules.Keys,
      set n | n in want && n in schedules && Held(schedules[n], owner) && schedules[n].definition != want[n],
      set n | n in schedules && Held(schedules[n], owner) && n !in want,
      set n | n in want && n in schedules && !Held(schedules[n], owner) :: ConflictOf(n, schedules[n], owner))
  }

  /** The SQL join a heartbeat runs instead, straight over the stored manifest. */
  function JoinConflicts(schedules: map<Name, Schedule>, owner: Owner, manifest: seq<PeriodicJob>): set<Conflict> {
    set n | n in schedules && (exists d :: d in manifest && d.name == n)
            && (schedules[n].owner != Some(owner) || schedules[n].retirement.Some?)
      :: ConflictOf(n, schedules[n], owner)
  }

  // ---- Writes --------------------------------------------------------------

  function OwnerState(t: Tables, owner: Owner): Agreement {
    if owner in t.owners then t.owners[owner] else NoAgreement
  }

  /** `UPDATE awa.cron_owners ... WHERE owner_id = owner` */
  function SetOwner(t: Tables, owner: Owner, a: Agreement): Tables {
    if owner in t.owners then t.(owners := t.owners[owner := a]) else t
  }

  /** The insert both `publish` and `sync_definitions` make, `ON CONFLICT DO NOTHING`. */
  function InsertMissing(schedules: map<Name, Schedule>, owner: Owner, want: map<Name, Definition>, now: Time)
    : map<Name, Schedule>
  {
    schedules + map n | n in want.Keys - schedules.Keys :: NewSchedule(want[n], Some(owner), now)
  }

  /** The upsert of `sync_definitions`: insert missing rows, update held ones. */
  function SyncRows(schedules: map<Name, Schedule>, owner: Owner, want: map<Name, Definition>, now: Time)
    : map<Name, Schedule>
  {
    map n | n in schedules.Keys + want.Keys ::
      if n !in want then schedules[n]
      else if n !in schedules then NewSchedule(want[n], Some(owner), now)
      else if Held(schedules[n], owner) then schedules[n].(definition := want[n])
      else schedules[n]
  }

  /** `sync_definitions` */
  function SyncDefinitions(t: Tables, owner: Owner, hash: Digest, now: Time): Tables
    requires (owner, hash) in t.manifests
  {
    var t1 := t.(schedules := SyncRows(t.schedules, owner, Wanted(t.manifests[(owner, hash)]), now));
    SetOwner(t1, owner, OwnerState(t1, owner).(syncedHash := Some(hash)))
  }

  function Retire(schedules: map<Name, Schedule>, names: set<Name>, r: Retirement): map<Name, Schedule> {
    map n | n in schedules ::
      if n in names && schedules[n].retirement.None? then schedules[n].(retirement := Some(r)) else schedules[n]
  }

  /** The retirement an applied plan performs. */
  function RetireAbsent(t: Tables, p: Plan): Tables {
    var mine := set n | n in p.changes.retirements && n in t.schedules && t.schedules[n].owner == Some(p.owner);
    var revisions := set i | i in p.declarations :: p.declarations[i].revision;
    t.(schedules := Retire(t.schedules, mine, Retirement(p.evaluatedAt, p.owner, revisions)))
  }

  // ---- Evaluation ----------------------------------------------------------

  /** How `evaluate_locked` is called: `(persist, apply)` is `(false, false)`,
      `(true, false)` and `(true, true)`. */
  datatype Mode = DryRun | Heartbeat | Apply

  datatype Evaluated = Evaluated(plan: Plan, after: Tables)

  /** What the declaration tables guarantee: a declared digest has its manifest
      stored, a declaring owner has its row, manifests have distinct names. */
  ghost predicate Backed(t: Tables) {
    && (forall i :: i in t.declarations ==>
          (t.declarations[i].owner, t.declarations[i].desiredHash) in t.manifests)
    && (forall k :: k in t.manifests ==>
          k.0 in t.owners && t.manifests[k] == k.1.of && DistinctKeys(t.manifests[k], NameOf))
  }

  /** `DateTime - DateTime` in whole milliseconds, truncated toward zero. */
  function Millis(d: Time): int {
    if d >= 0 then d / 1000 else -((-d) / 1000)
  }

  const I64_MAX := 0x7FFF_FFFF_FFFF_FFFF
  const I64_MIN := -0x8000_0000_0000_0000

  function SaturatingSub(a: int, b: int): int {
    Max(I64_MIN, Min(I64_MAX, a - b))
  }

  /** The plan before changes and agreement: evidence and its three blockers. */
  function Evidence(t: Tables, owner: Owner, now: Time): Plan {
    var live := LiveDeclarations(t, owner, now);
    var blocking := BlockingInstances(t, now);
    var hashes := Hashes(live);
    var desired := if |hashes| == 1 then Some(Sole(hashes)) else None;
    Plan(owner, desired, live, blocking,
         (if blocking != {} then [UnsupportedRuntimeProtocol] else [])
         + (if live == map[] then [ZeroLiveDeclarations] else [])
         + (if |hashes| > 1 then [MixedDesiredManifests] else []),
         NoChanges, None, 0, now, false)
  }

  function Sole<T>(s: set<T>): (x: T)
    requires |s| == 1
    ensures s == {x}
  {
    SoleElement(s);
    var x :| x in s;
    x
  }

  lemma SoleElement<T>(s: set<T>)
    requires |s| == 1
    ensures forall x, y :: x in s && y in s ==> x == y
    ensures forall x :: x in s ==> s == {x}
  {
    forall x | x in s ensures s == {x} {
      assert |s - {x}| == 0;
    }
  }

  /** The changes an evaluation looks at: all of them for a plan or an applied
      reconciliation; for a heartbeat only conflicts, and those only when the
      certificate `synced_hash` is not already for this digest. */
  function SeenChanges(t: Tables, owner: Owner, hash: Digest, mode: Mode): Changes
    requires (owner, hash) in t.manifests
  {
    var manifest := t.manifests[(owner, hash)];
    if !mode.Heartbeat? then Describe(t.schedules, owner, Wanted(manifest))
    else if OwnerState(t, owner).syncedHash == Some(hash) then NoChanges
    else NoChanges.(conflicts := JoinConflicts(t.schedules, owner, manifest))
  }

  /** The agreement window: kept while the same digest is seen before the
      recorded evidence runs out, restarted at `now` otherwise. */
  function Since(a: Agreement, desired: Option<Digest>, now: Time): Time {
    if a.agreedHash == desired && a.evidenceUntil.Some? && a.evidenceUntil.value > now
    then a.agreedSince.GetOr(now)
    else now
  }

  function GraceRemaining(live: map<Instance, LiveDeclaration>, since: Time, now: Time): int
    requires live != map[]
  {
    MapNonEmpty(live);
    Max(SaturatingSub(MaxOf(Graces(live)), Millis(now - since)), 0)
  }

  /** Seen within thirty seconds, or within three snapshot intervals. */
  predicate Recent(seenAt: Time, intervalMs: int, now: Time) {
    now < seenAt + 30_000_000 || now < seenAt + intervalMs * 3_000
  }

  /** A recent runtime that does not speak the protocol, or never said that it does. */
  predicate Foreign(r: Runtime, now: Time) {
    Recent(r.lastSeenAt, r.snapshotIntervalMs, now) && !(r.protocol.Some? && r.protocol.value == CRON_PROTOCOL_VERSION)
  }

  /** The instance speaks for the owner: it declared for it, is not shutting down, and both
      its declaration and its runtime were seen recently. */
  predicate Speaks(t: Tables, owner: Owner, i: Instance, now: Time) {
    && i in t.declarations && i in t.runtimes
    && t.declarations[i].owner == owner && !t.runtimes[i].shuttingDown
    && Recent(t.declarations[i].lastSeenAt, t.runtimes[i].snapshotIntervalMs, now)
    && Recent(t.runtimes[i].lastSeenAt, t.runtimes[i].snapshotIntervalMs, now)
  }

  /** The live declaration is what the instance declared, and expires when it stops being
      recent. */
  ghost predicate Quotes(t: Tables, i: Instance, d: LiveDeclaration) {
    && i in t.declarations && i in t.runtimes
    && d.revision == t.declarations[i].revision && d.desiredHash == t.declarations[i].desiredHash
    && d.graceMs == t.declarations[i].graceMs
    && forall at :: at < d.expiresAt <==>
         && Recent(t.declarations[i].lastSeenAt, t.runtimes[i].snapshotIntervalMs, at)
         && Recent(t.runtimes[i].lastSeenAt, t.runtimes[i].snapshotIntervalMs, at)
  }

  /** What the evidence is, from the rows. */
  lemma EvidenceRows(t: Tables, owner: Owner, now: Time)
    ensures var p := Evidence(t, owner, now);
            && (forall i :: i in p.blockingInstances <==> i in t.runtimes && Foreign(t.runtimes[i], now))
            && (forall i :: i in p.declarations <==> Speaks(t, owner, i, now))
            && (forall i :: i in p.declarations ==> Quotes(t, i, p.declarations[i]))
  {
  }

  /** All live declarations ask for the same manifest. */
  ghost predicate OneHash(live: map<Instance, LiveDeclaration>) {
    forall i, j :: i in live && j in live ==> live[i].desiredHash == live[j].desiredHash
  }

  lemma OneHashIff(live: map<Instance, LiveDeclaration>)
    requires live != map[]
    ensures |Hashes(live)| >= 1 && (|Hashes(live)| == 1 <==> OneHash(live))
  {
    var i := Pick(live.Keys);
    var hashes, h := Hashes(live), live[i].desiredHash;
    assert h in hashes;
    if |hashes| == 1 {
      SoleElement(hashes);
      forall a, b | a in live && b in live ensures live[a].desiredHash == live[b].desiredHash {
        assert live[a].desiredHash in hashes && live[b].desiredHash in hashes;
      }
    }
    if OneHash(live) {
      assert hashes == {h};
    }
  }

  /** The rows leave the owner without a blocker: nobody foreign is there, and those who
      speak for it, of whom there are some, ask for one manifest. */
  ghost predicate Unblocked(t: Tables, owner: Owner, now: Time, h: Digest) {
    && (forall i :: i in t.runtimes ==> !Foreign(t.runtimes[i], now))
    && (exists i :: Speaks(t, owner, i, now))
    && (forall i :: Speaks(t, owner, i, now) ==> t.declarations[i].desiredHash == h)
  }

  /** What the three evidence blockers mean. */
  lemma EvidenceMeans(t: Tables, owner: Owner, now: Time)
    ensures var p := Evidence(t, owner, now);
            && (UnsupportedRuntimeProtocol in p.blockers <==>
                  exists i :: i in t.runtimes && Foreign(t.runtimes[i], now))
            && (ZeroLiveDeclarations in p.blockers <==> forall i :: !Speaks(t, owner, i, now))
            && (MixedDesiredManifests in p.blockers <==> p.declarations != map[] && !OneHash(p.declarations))
            && (p.desiredHash.Some? <==> p.declarations != map[] && OneHash(p.declarations))
            && (forall i :: Speaks(t, owner, i, now) && p.desiredHash.Some? ==>
                  t.declarations[i].desiredHash == p.desiredHash.value)
            && (forall h :: p.blockers == [] && p.desiredHash == Some(h) <==> Unblocked(t, owner, now, h))
  {
    var p := Evidence(t, owner, now);
    var live := p.declarations;
    EvidenceRows(t, owner, now);
    BlockersMean(p.blockingInstances, live, p.blockers);
    if p.blockingInstances != {} {
      var i := Pick(p.blockingInstances);
      assert i in t.runtimes && Foreign(t.runtimes[i], now);
    }
    if live != map[] {
      OneHashIff(live);
      var i := Pick(live.Keys);
      assert Speaks(t, owner, i, now);
      forall i | i in live && p.desiredHash.Some? ensures live[i].desiredHash == p.desiredHash.value {
        assert live[i].desiredHash in Hashes(live);
      }
    }
    forall h ensures p.blockers == [] && p.desiredHash == Some(h) <==> Unblocked(t, owner, now, h) {
      if Unblocked(t, owner, now, h) {
        var i :| Speaks(t, owner, i, now);
        assert i in live;
        assert forall i :: i in live ==> live[i].desiredHash == h;
      }
    }
  }

  /** The blockers raised by evidence. */
  lemma BlockersMean(blocking: set<Instance>, live: map<Instance, LiveDeclaration>, blockers: seq<Blocker>)
    requires blockers == (if blocking != {} then [UnsupportedRuntimeProtocol] else [])
                         + (if live == map[] then [ZeroLiveDeclarations] else [])
                         + (if |Hashes(live)| > 1 then [MixedDesiredManifests] else [])
    ensures UnsupportedRuntimeProtocol in blockers <==> blocking != {}
    ensures ZeroLiveDeclarations in blockers <==> live == map[]
    ensures MixedDesiredManifests in blockers <==> live != map[] && !OneHash(live)
    ensures blockers == [] <==> blocking == {} && live != map[] && OneHash(live)
  {
    if live == map[] {
      assert Hashes(live) == {};
    } else {
      OneHashIff(live);
      var i := Pick(live.Keys);
      assert i in live;
    }
  }

  lemma MapNonEmpty(live: map<Instance, LiveDeclaration>)
    requires live != map[]
    ensures Graces(live) != {} && Expiries(live) != {} && Hashes(live) != {}
  {
    assert |live.Keys| != 0;
    var i := Pick(live.Keys);
    assert live[i].graceMs in Graces(live) && live[i].expiresAt in Expiries(live)
           && live[i].desiredHash in Hashes(live);
  }

  function EarliestExpiry(live: map<Instance, LiveDeclaration>): Time
    requires live != map[]
  {
    MapNonEmpty(live);
    MinOf(Expiries(live))
  }

  lemma EvidenceShape(t: Tables, owner: Owner, now: Time)
    requires Backed(t)
    ensures var p := Evidence(t, owner, now);
            && (p.desiredHash.Some? ==> Unanimous(p.declarations, p.desiredHash.value)
                                        && p.declarations != map[]
                                        && (owner, p.desiredHash.value) in t.manifests && owner in t.owners)
            && (p.blockers == [] ==> p.desiredHash.Some?)
  {
    var p := Evidence(t, owner, now);
    if p.declarations != map[] {
      MapNonEmpty(p.declarations);
      assert |Hashes(p.declarations)| != 0;
    }
    if p.desiredHash.Some? {
      var h := p.desiredHash.value;
      assert h in Hashes(p.declarations);
      var i :| i in p.declarations && p.declarations[i].desiredHash == h;
      assert t.declarations[i].owner == owner;
    }
  }

  /** `evaluate_locked` */
  function Evaluate(t: Tables, owner: Owner, now: Time, mode: Mode): (e: Evaluated)
    requires Backed(t)
  {
    EvidenceShape(t, owner, now);
    var p := Compared(t, owner, now, mode);
    if p.blockers == [] then Agreed(t, p, mode)
    else Evaluated(p, if mode.DryRun? then t else Disagree(t, owner))
  }

  /** Evidence, changes and the conflict blocker. */
  function Compared(t: Tables, owner: Owner, now: Time, mode: Mode): (p: Plan)
    requires Backed(t)
  {
    EvidenceShape(t, owner, now);
    var p := Evidence(t, owner, now);
    var changes := if p.desiredHash.Some? then SeenChanges(t, owner, p.desiredHash.value, mode) else NoChanges;
    p.(changes := changes,
       blockers := p.blockers + if changes.conflicts != {} then [OwnershipOrRetirementConflict] else [])
  }

  /** A blocked evaluation forgets the agreement but keeps the certificate. */
  function Disagree(t: Tables, owner: Owner): Tables {
    SetOwner(t, owner, OwnerState(t, owner).(agreedHash := None, agreedSince := None, evidenceUntil := None))
  }

  /** What an unblocked evaluation records. */
  function Record(t: Tables, p: Plan): Tables
    requires p.declarations != map[]
  {
    SetOwner(t, p.owner,
             OwnerState(t, p.owner).(agreedHash := p.desiredHash, agreedSince := p.agreedSince,
                                     evidenceUntil := Some(EarliestExpiry(p.declarations))))
  }

  /** The plan of an evaluation without other blockers: window and grace. */
  function Graced(t: Tables, p: Plan): Plan
    requires p.declarations != map[]
  {
    var since := Since(OwnerState(t, p.owner), p.desiredHash, p.evaluatedAt);
    var remaining := GraceRemaining(p.declarations, since, p.evaluatedAt);
    p.(agreedSince := Some(since), graceRemainingMs := remaining,
       blockers := if remaining > 0 then [GracePeriod] else [])
  }

  /** Synchronise definitions unless the certificate is for this digest. */
  function Synced(t: Tables, p: Plan): Tables
    requires p.desiredHash.Some? && (p.owner, p.desiredHash.value) in t.manifests
  {
    if OwnerState(t, p.owner).syncedHash != p.desiredHash
    then SyncDefinitions(t, p.owner, p.desiredHash.value, p.evaluatedAt)
    else t
  }

  /** An evaluation without blockers before the grace check. */
  function Agreed(t: Tables, p0: Plan, mode: Mode): (e: Evaluated)
    requires p0.desiredHash.Some? && p0.declarations != map[]
    requires (p0.owner, p0.desiredHash.value) in t.manifests
  {
    var p := Graced(t, p0);
    if mode.DryRun? then Evaluated(p, t)
    else
      var recorded := Record(Synced(t, p), p);
      if mode.Apply? && p.blockers == []
      then Evaluated(p.(applied := true), RetireAbsent(recorded, p))
      else Evaluated(p, recorded)
  }

  /** `plan`: evaluate without persisting. */
  function DryRunPlan(t: Tables, owner: Owner, now: Time): Plan
    requires Backed(t)
  {
    Evaluate(t, owner, now, DryRun).plan
  }

  // ---- Publication ---------------------------------------------------------

  datatype Config = Config(owner: Owner, revision: string, graceMs: int)

  /** `PeriodicReconciliation::validate` */
  predicate ValidConfig(c: Config) {
    && !Blank(c.owner) && Utf8Length(c.owner) <= 200 && '\0' !in c.owner
    && !Blank(c.revision) && Utf8Length(c.revision) <= 200 && '\0' !in c.revision
    && c.graceMs >= 0
  }

  function WithOwner(owners: map<Owner, Agreement>, owner: Owner): map<Owner, Agreement> {
    if owner in owners then owners else owners[owner := NoAgreement]
  }

  /** The writes of `publish` before it evaluates. */
  function Declared(t: Tables, instance: Instance, c: Config, m: PeriodicManifest, seenAt: Time): Tables {
    var known := (c.owner, m.hash) in t.manifests;
    Tables(
      if known then t.schedules else InsertMissing(t.schedules, c.owner, Wanted(m.value), seenAt),
      WithOwner(t.owners, c.owner),
      if known then t.manifests else t.manifests[(c.owner, m.hash) := m.value],
      t.declarations[instance := Declaration(c.owner, c.revision, m.hash, c.graceMs, seenAt)],
      t.runtimes)
  }

  /** A manifest `PrepareManifest` can have produced. */
  ghost predicate Prepared(m: PeriodicManifest) {
    m.hash == Digest(m.value) && DistinctKeys(m.value, NameOf)
  }

  /** Publication goes through for a valid configuration of a registered
      runtime (the foreign key of `awa.cron_declarations`). */
  predicate Publishes(t: Tables, instance: Instance, c: Config) {
    ValidConfig(c) && instance in t.runtimes
  }

  lemma DeclaredBacked(t: Tables, instance: Instance, c: Config, m: PeriodicManifest, seenAt: Time)
    requires Backed(t) && Prepared(m)
    ensures Backed(Declared(t, instance, c, m, seenAt))
  {
  }

  // ---- Operator actions ----------------------------------------------------

  datatype Action =
    | Adopt(name: Name, owner: Owner, expected: Option<Owner>)
    | RetireOne(name: Name)
    | RetireOwner(owner: Owner)
    | Restore(name: Name)
    | RestoreOwner(owner: Owner)

  /** The rows an action selects. */
  function Selected(t: Tables, a: Action): set<Name> {
    match a
    case RetireOwner(o) =>
      set n | n in t.schedules && t.schedules[n].owner == Some(o) && t.schedules[n].retirement.None?
    case RestoreOwner(o) =>
      set n | n in t.schedules && t.schedules[n].owner == Some(o) && t.schedules[n].retirement.Some?
    case _ => set n | n in t.schedules && n == a.name
  }

  /** The action passes every check of `operate`. */
  predicate Permitted(t: Tables, a: Action, actor: string) {
    && !Blank(actor)
    && (!a.RetireOwner? && !a.RestoreOwner? ==> a.name in t.schedules)
    && (a.Adopt? ==> ValidConfig(Config(a.owner, "operator", 0)) && t.schedules[a.name].owner == a.expected)
  }

  /** The action is about this row: it names it, or its owner. */
  predicate Concerns(a: Action, n: Name, row: Schedule) {
    match a
    case RetireOwner(o) => row.owner == Some(o)
    case RestoreOwner(o) => row.owner == Some(o)
    case _ => n == a.name
  }

  /** The action picks the row up: an action on an owner leaves out the rows that already
      are as it wants them. */
  predicate Picks(a: Action, n: Name, row: Schedule) {
    && Concerns(a, n, row)
    && (a.RetireOwner? ==> row.retirement.None?)
    && (a.RestoreOwner? ==> row.retirement.Some?)
  }

  /** The action takes or gives the owner a row. */
  ghost predicate Touches(t: Tables, a: Action, o: Owner) {
    || (a.Adopt? && a.owner == o)
    || exists n :: n in t.schedules && t.schedules[n].owner == Some(o) && Picks(a, n, t.schedules[n])
  }

  /** What an action makes of a row. */
  ghost predicate RowDone(a: Action, actor: string, now: Time, n: Name, row: Schedule, row1: Schedule) {
    && (!Concerns(a, n, row) ==> row1 == row)
    && (a.Adopt? && Concerns(a, n, row) ==> row1 == row.(owner := Some(a.owner)))
    && (a.RetireOne? || a.RetireOwner? ==>
          && (row1.retirement.Some? <==> row.retirement.Some? || Concerns(a, n, row))
          && (row.retirement.Some? ==> row1 == row)
          && (row.retirement != row1.retirement ==>
                row1 == row.(retirement := Some(Retirement(now, actor, {"operator"})))))
    && (a.Restore? || a.RestoreOwner? ==>
          && (row1.retirement.None? <==> row.retirement.None? || Concerns(a, n, row))
          && (row.retirement.None? ==> row1 == row)
          && (row.retirement != row1.retirement ==>
                row1 == row.(retirement := None, lastEnqueuedAt := Some(now))))
  }

  function RestoreRow(row: Schedule, now: Time): Schedule {
    if row.retirement.Some? then row.(retirement := None, lastEnqueuedAt := Some(now)) else row
  }

  function OperatedRow(row: Schedule, a: Action, actor: string, now: Time): Schedule {
    match a
    case Adopt(_, o, _) => row.(owner := Some(o))
    case RetireOne(_) =>
      if row.retirement.None? then row.(retirement := Some(Retirement(now, actor, {"operator"}))) else row
    case RetireOwner(_) =>
      if row.retirement.None? then row.(retirement := Some(Retirement(now, actor, {"operator"}))) else row
    case Restore(_) => RestoreRow(row, now)
    case RestoreOwner(_) => RestoreRow(row, now)
  }

  /** The owners whose certificate and agreement an action invalidates. */
  function Affected(t: Tables, a: Action): set<Owner> {
    (set n | n in Selected(t, a) && n in t.schedules && t.schedules[n].owner.Some? :: t.schedules[n].owner.value)
    + if a.Adopt? then {a.owner} else {}
  }

  /** `operate` with `apply`. */
  function Operate(t: Tables, a: Action, actor: string, now: Time): Tables {
    if !Permitted(t, a, actor) then t
    else
      var chosen := Selected(t, a);
      var owners := if a.Adopt? then WithOwner(t.owners, a.owner) else t.owners;
      t.(schedules := map n | n in t.schedules ::
           if n in chosen then OperatedRow(t.schedules[n], a, actor, now) else t.schedules[n],
         owners := map o | o in owners :: if o in Affected(t, a) then NoAgreement else owners[o])
  }

  // ---- Steps ---------------------------------------------------------------

  /** One transaction, with the database time it reads. */
  datatype Step =
    | Snapshot(instance: Instance, runtime: Runtime, now: Time)
    | CleanupRuntimes(gone: set<Instance>, now: Time)
    | Publish(instance: Instance, config: Config, manifest: PeriodicManifest, seenAt: Time, now: Time)
    | Reconcile(owner: Owner, now: Time)
    | OperatorAction(action: Action, actor: string, now: Time)
    | PlainUpdate(name: Name, row: Schedule, now: Time)
    | PlainInsert(name: Name, row: Schedule, now: Time)
    | PlainDelete(name: Name, now: Time)

  /** `awa.cron_unknown_runtime`: evidence from a runtime that does not speak the
      protocol clears every owner's agreement window. */
  function ForgetWindows(owners: map<Owner, Agreement>): map<Owner, Agreement> {
    map o | o in owners :: owners[o].(agreedSince := None, evidenceUntil := None)
  }

  function UpsertRuntime(t: Tables, instance: Instance, r: Runtime): Tables {
    t.(runtimes := t.runtimes[instance := r],
       owners := if r.protocol != Some(CRON_PROTOCOL_VERSION) then ForgetWindows(t.owners) else t.owners)
  }

  /** Deleting runtimes cascades to their declarations. */
  function DeleteRuntimes(t: Tables, gone: set<Instance>): Tables {
    t.(runtimes := t.runtimes - gone, declarations := t.declarations - gone)
  }

  ghost predicate WellFormedStep(s: Step) {
    s.Publish? ==> Prepared(s.manifest) && s.seenAt <= s.now
  }

  ghost function Next(t: Tables, s: Step): Tables
    requires Backed(t) && WellFormedStep(s)
  {
    match s
    case Snapshot(i, r, _) => UpsertRuntime(t, i, r)
    case CleanupRuntimes(gone, _) => DeleteRuntimes(t, gone)
    case Publish(i, c, m, seenAt, now) =>
      if Publishes(t, i, c) then
        DeclaredBacked(t, i, c, m, seenAt);
        Evaluate(Declared(t, i, c, m, seenAt), c.owner, now, Heartbeat).after
      else t
    case Reconcile(o, now) => Evaluate(t, o, now, Apply).after
    case OperatorAction(a, actor, now) => Operate(t, a, actor, now)
    case PlainUpdate(n, row, _) => ForeignUpdate(t, n, row)
    case PlainInsert(n, row, _) => ForeignInsert(t, n, row)
    case PlainDelete(n, _) => ForeignDelete(t, n)
  }
}
