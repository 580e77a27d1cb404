/** The cron tables, the trigger that fences every write to a schedule row, and
    the writes any client may make outside the reconciliation protocol. */
module CronTables {
  import opened Prelude
  import opened CronManifest

  type Owner = string
  type Instance = int
  /** Database time in microseconds. */
  type Time = int

  const CRON_PROTOCOL_VERSION := 1

  /** `retired_at`, `retired_by` and `retired_revision`, which are set and
      cleared together; the joined revision text is kept as its set of labels. */
  datatype Retirement = Retirement(at: Time, actor: string, revisions: set<string>)

  /** A row of `awa.cron_jobs`; its key is the name. */
  datatype Schedule = Schedule(
    definition: Definition,
    owner: Option<Owner>,
    retirement: Option<Retirement>,
    lastEnqueuedAt: Option<Time>,
    pausedAt: Option<Time>,
    createdAt: Time)

  /** A row of `awa.runtime_instances`. */
  datatype Runtime = Runtime(lastSeenAt: Time, snapshotIntervalMs: int, protocol: Option<int>, shuttingDown: bool)

  /** A row of `awa.cron_declarations`. */
  datatype Declaration = Declaration(
    owner: Owner, revision: string, desiredHash: Digest, graceMs: int, lastSeenAt: Time)

  /** A row of `awa.cron_owners`. */
  datatype Agreement = Agreement(
    syncedHash: Option<Digest>,
    agreedHash: Option<Digest>,
    agreedSince: Option<Time>,
    evidenceUntil: Option<Time>)

  const NoAgreement := Agreement(None, None, None, None)

  datatype Tables = Tables(
    schedules: map<Name, Schedule>,
    owners: map<Owner, Agreement>,
    manifests: map<(Owner, Digest), seq<PeriodicJob>>,
    declarations: map<Instance, Declaration>,
    runtimes: map<Instance, Runtime>)

  const EmptyTables := Tables(map[], map[], map[], map[], map[])

  /** Who is writing a schedule row, as the transaction settings
      `awa.cron_admin` and `awa.cron_owner` tell the trigger. */
  datatype Session = Admin | Syncing(owner: Owner) | Plain

  datatype Verdict = Accept | Skip | Reject

  /** `awa.cron_schedule_fence` on UPDATE. */
  function FenceUpdate(old_: Schedule, new_: Schedule, session: Session): Verdict {
    if session.Admin? then Accept
    else if new_.owner != old_.owner || new_.retirement != old_.retirement then Reject
    else if old_.retirement.Some? then Skip
    else if old_.owner.Some? && session != Syncing(old_.owner.value)
            && (new_.definition != old_.definition || new_.createdAt != old_.createdAt) then Skip
    else Accept
  }

  /** `awa.cron_schedule_fence` on DELETE. */
  function FenceDelete(row: Schedule): Verdict {
    if row.retirement.Some? || row.owner.Some? then Reject else Accept
  }

  /** Any UPDATE of one schedule row by a client outside the protocol: an older
      release's upsert, a pause, a resume, an enqueue, or hand-written SQL. */
  function ForeignUpdate(t: Tables, name: Name, row: Schedule): Tables {
    if name in t.schedules && FenceUpdate(t.schedules[name], row, Plain).Accept?
    then t.(schedules := t.schedules[name := row])
    else t
  }

  /** Any INSERT of a schedule under a name not in use. */
  function ForeignInsert(t: Tables, name: Name, row: Schedule): Tables {
    if name in t.schedules then t else t.(schedules := t.schedules[name := row])
  }

  /** `delete_cron_job`: the trigger refuses owned and retired rows. */
  function ForeignDelete(t: Tables, name: Name): Tables {
    if name in t.schedules && FenceDelete(t.schedules[name]).Accept?
    then t.(schedules := t.schedules - {name})
    else t
  }

  function NewSchedule(d: Definition, owner: Option<Owner>, now: Time): Schedule {
    Schedule(d, owner, None, None, None, now)
  }

  /** `upsert_cron_job`: insert, or update an unowned active row; the second
      component is `accepted`. */
  function AdditiveUpsert(t: Tables, job: PeriodicJob, now: Time): (Tables, bool) {
    if job.name !in t.schedules then
      (ForeignInsert(t, job.name, NewSchedule(job.definition, None, now)), true)
    else
      var row := t.schedules[job.name];
      if row.owner.None? && row.retirement.None?
      then (ForeignUpdate(t, job.name, row.(definition := job.definition)), true)
      else (t, row.owner.None? && row.retirement.Some?)
  }

  /** `pause_cron_job` */
  function Pause(t: Tables, name: Name, now: Time): Tables {
    if name in t.schedules then ForeignUpdate(t, name, t.schedules[name].(pausedAt := Some(now))) else t
  }

  /** `resume_cron_job` */
  function Resume(t: Tables, name: Name): Tables {
    if name in t.schedules then ForeignUpdate(t, name, t.schedules[name].(pausedAt := None)) else t
  }

  /** `atomic_enqueue`: compare-and-swap on `last_enqueued_at`; the second
      component says whether a job was inserted. */
  function AtomicEnqueue(t: Tables, name: Name, fireTime: Time, previous: Option<Time>): (Tables, bool) {
    if name in t.schedules
       && t.schedules[name].lastEnqueuedAt == previous
       && t.schedules[name].pausedAt.None?
       && t.schedules[name].retirement.None?
    then (ForeignUpdate(t, name, t.schedules[name].(lastEnqueuedAt := Some(fireTime))), true)
    else (t, false)
  }
}
