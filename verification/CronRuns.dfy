/** Runs of the cron protocol, and what the evidence tables hold after one: of each instance
    the last snapshot of its runtime and its last accepted publication. */
module CronRuns {
  import opened Prelude
  import opened CronManifest
  import opened CronTables
  import opened CronEvaluation
  import opened CronCertificate

  ghost predicate WellFormedRun(steps: seq<Step>) {
    forall i :: 0 <= i < |steps| ==> WellFormedStep(steps[i])
  }

  /** Database time never runs backwards. */
  ghost predicate Clocked(steps: seq<Step>) {
    forall i, j :: 0 <= i < j < |steps| ==> steps[i].now <= steps[j].now
  }

  /** The tables after a run; every reachable state satisfies the invariant. */
  ghost function After(steps: seq<Step>): (t: Tables)
    requires WellFormedRun(steps)
    ensures Inv(t)
  {
    if steps == [] then
      InitInv();
      EmptyTables
    else
      var before := After(steps[..|steps|-1]);
      StepInv(before, steps[|steps|-1]);
      Next(before, steps[|steps|-1])
  }

  // ---- The evidence tables, from the steps ---------------------------------------------

  /** The instance's last snapshot, unless its runtime has been cleaned up since. */
  function Reported(steps: seq<Step>, i: Instance): Option<Runtime> {
    if steps == [] then None
    else
      var s := steps[|steps|-1];
      if s.Snapshot? && s.instance == i then Some(s.runtime)
      else if s.CleanupRuntimes? && i in s.gone then None
      else Reported(steps[..|steps|-1], i)
  }

  /** The instance's last publication that went through, unless its runtime has been
      cleaned up since. */
  function Published(steps: seq<Step>, i: Instance): (p: Option<Step>)
    ensures p.Some? ==> p.value.Publish? && p.value.instance == i
  {
    if steps == [] then None
    else
      var prefix, s := steps[..|steps|-1], steps[|steps|-1];
      if s.Publish? && s.instance == i && ValidConfig(s.config) && Reported(prefix, i).Some? then Some(s)
      else if s.CleanupRuntimes? && i in s.gone then None
      else Published(prefix, i)
  }

  /** The row, if there is one. */
  function At<V>(rows: map<Instance, V>, i: Instance): Option<V> {
    if i in rows then Some(rows[i]) else None
  }

  function DeclarationOf(s: Step): Declaration
    requires s.Publish?
  {
    Declaration(s.config.owner, s.config.revision, s.manifest.hash, s.config.graceMs, s.seenAt)
  }

  /** Which steps write the evidence tables, and what. */
  lemma StepEvidence(t: Tables, s: Step, i: Instance)
    requires Backed(t) && WellFormedStep(s)
    ensures var t1 := Next(t, s);
            && At(t1.runtimes, i) == (if s.Snapshot? && s.instance == i then Some(s.runtime)
                                      else if s.CleanupRuntimes? && i in s.gone then None
                                      else At(t.runtimes, i))
            && At(t1.declarations, i) == (if s.Publish? && s.instance == i && ValidConfig(s.config) && i in t.runtimes
                                          then Some(DeclarationOf(s))
                                          else if s.CleanupRuntimes? && i in s.gone then None
                                          else At(t.declarations, i))
  {
    if s.Publish? && Publishes(t, s.instance, s.config) {
      DeclaredBacked(t, s.instance, s.config, s.manifest, s.seenAt);
      EvaluateFrame(Declared(t, s.instance, s.config, s.manifest, s.seenAt), s.config.owner, s.now, Heartbeat);
    } else if s.Reconcile? {
      EvaluateFrame(t, s.owner, s.now, Apply);
    } else if s.OperatorAction? && Permitted(t, s.action, s.actor) {
      OperateOwners(t, s.action, s.actor, s.now);
    }
  }

  /** Every runtime row is the last snapshot of its instance, and every declaration the
      owner, revision, digest, grace and time of its last accepted publication. */
  lemma {:induction false} EvidenceIsLast(steps: seq<Step>, i: Instance)
    requires WellFormedRun(steps)
    ensures At(After(steps).runtimes, i) == Reported(steps, i)
    ensures At(After(steps).declarations, i)
            == if Published(steps, i).Some? then Some(DeclarationOf(Published(steps, i).value)) else None
  {
    if steps != [] {
      var prefix, s := steps[..|steps|-1], steps[|steps|-1];
      EvidenceIsLast(prefix, i);
      StepEvidence(After(prefix), s, i);
    }
  }

  // ---- Who speaks for an owner ---------------------------------------------------------

  /** The instance's last publication was for the owner, its last snapshot does not say it
      is shutting down, and neither is out of date. */
  predicate SpokeFor(steps: seq<Step>, owner: Owner, i: Instance, now: Time) {
    && Published(steps, i).Some? && Reported(steps, i).Some?
    && var p, r := Published(steps, i).value, Reported(steps, i).value;
       && p.config.owner == owner && !r.shuttingDown
       && Recent(p.seenAt, r.snapshotIntervalMs, now) && Recent(r.lastSeenAt, r.snapshotIntervalMs, now)
  }

  /** No instance's last snapshot is recent and from outside the protocol. */
  ghost predicate NoneForeign(steps: seq<Step>, now: Time) {
    forall i :: Reported(steps, i).Some? ==> !Foreign(Reported(steps, i).value, now)
  }

  /** Whoever speaks for the owner published `h`, and somebody does. */
  ghost predicate Agreeing(steps: seq<Step>, owner: Owner, now: Time, h: Digest) {
    && (exists i :: SpokeFor(steps, owner, i, now))
    && (forall i :: SpokeFor(steps, owner, i, now) ==> Published(steps, i).value.manifest.hash == h)
  }

  /** The published grace of everyone who speaks for the owner fits into `elapsed`. */
  ghost predicate GraceServed(steps: seq<Step>, owner: Owner, now: Time, elapsed: Time) {
    forall i :: SpokeFor(steps, owner, i, now) ==> Published(steps, i).value.config.graceMs * 1_000 <= elapsed
  }

  /** Evidence is what was published: the rows and the steps agree on who speaks, and on
      what they ask for. */
  lemma SpeaksAsPublished(steps: seq<Step>, owner: Owner, now: Time)
    requires WellFormedRun(steps)
    ensures var t := After(steps);
            && (forall i :: Speaks(t, owner, i, now) <==> SpokeFor(steps, owner, i, now))
            && (forall i :: SpokeFor(steps, owner, i, now) ==>
                  i in t.declarations && t.declarations[i] == DeclarationOf(Published(steps, i).value))
            && ((forall i :: i in t.runtimes ==> !Foreign(t.runtimes[i], now)) <==> NoneForeign(steps, now))
  {
    var t := After(steps);
    forall i
      ensures At(t.runtimes, i) == Reported(steps, i)
      ensures Speaks(t, owner, i, now) <==> SpokeFor(steps, owner, i, now)
      ensures SpokeFor(steps, owner, i, now) ==>
                i in t.declarations && t.declarations[i] == DeclarationOf(Published(steps, i).value)
    {
      EvidenceIsLast(steps, i);
    }
    forall i | i in t.runtimes ensures Reported(steps, i) == Some(t.runtimes[i]) {
      assert At(t.runtimes, i) == Reported(steps, i);
    }
    forall i | Reported(steps, i).Some? ensures i in t.runtimes && Reported(steps, i) == Some(t.runtimes[i]) {
      assert At(t.runtimes, i) == Reported(steps, i);
    }
  }

  lemma UnblockedAsPublished(steps: seq<Step>, t: Tables, owner: Owner, now: Time, h: Digest)
    requires forall i :: Speaks(t, owner, i, now) <==> SpokeFor(steps, owner, i, now)
    requires forall i :: SpokeFor(steps, owner, i, now) ==>
               i in t.declarations && t.declarations[i] == DeclarationOf(Published(steps, i).value)
    requires (forall i :: i in t.runtimes ==> !Foreign(t.runtimes[i], now)) <==> NoneForeign(steps, now)
    ensures Unblocked(t, owner, now, h) <==> NoneForeign(steps, now) && Agreeing(steps, owner, now, h)
  {
  }

  /** An evaluation after the run sees no blocker in the evidence exactly if nobody is
      foreign and all who speak for the owner agree. */
  lemma UnblockedIff(steps: seq<Step>, owner: Owner, now: Time, h: Digest)
    requires WellFormedRun(steps)
    ensures var p := Evidence(After(steps), owner, now);
            p.blockers == [] && p.desiredHash == Some(h) <==> NoneForeign(steps, now) && Agreeing(steps, owner, now, h)
  {
    EvidenceMeans(After(steps), owner, now);
    SpeaksAsPublished(steps, owner, now);
    UnblockedAsPublished(steps, After(steps), owner, now, h);
  }

  // ---- What the owner and declaration tables demand ------------------------------------

  /** `btrim`: without the spaces at both ends. */
  function TrimSpaces(s: string): string {
    if s != [] && s[0] == ' ' then TrimSpaces(s[1..])
    else if s != [] && s[|s|-1] == ' ' then TrimSpaces(s[..|s|-1])
    else s
  }

  /** The `CHECK` on `awa.cron_owners.owner_id`. */
  predicate OwnerCheck(o: Owner) {
    1 <= |TrimSpaces(o)| <= 200
  }

  lemma {:induction false} TrimKeeps(s: string, c: char)
    requires c in s && c != ' '
    ensures c in TrimSpaces(s)
    decreases |s|
  {
    if s[0] == ' ' {
      assert s == [s[0]] + s[1..];
      TrimKeeps(s[1..], c);
    } else if s[|s|-1] == ' ' {
      assert s == s[..|s|-1] + [s[|s|-1]];
      TrimKeeps(s[..|s|-1], c);
    }
  }

  lemma {:induction false} TrimShortens(s: string)
    ensures |TrimSpaces(s)| <= |s|
    decreases |s|
  {
    if s != [] && s[0] == ' ' {
      TrimShortens(s[1..]);
    } else if s != [] && s[|s|-1] == ' ' {
      TrimShortens(s[..|s|-1]);
    }
  }

  lemma ValidOwner(c: Config)
    requires ValidConfig(c)
    ensures OwnerCheck(c.owner) && c.graceMs >= 0
  {
    var ch :| ch in c.owner && !IsWhitespace(ch);
    TrimKeeps(c.owner, ch);
    TrimShortens(c.owner);
    BytesAtLeast(c.owner);
  }

  ghost predicate ChecksHold(t: Tables) {
    && (forall o :: o in t.owners ==> OwnerCheck(o))
    && (forall i :: i in t.declarations ==> t.declarations[i].graceMs >= 0)
  }

  lemma ChecksCarry(t: Tables, t1: Tables)
    requires ChecksHold(t) && t1.owners.Keys <= t.owners.Keys
    requires forall i :: i in t1.declarations ==> i in t.declarations && t1.declarations[i] == t.declarations[i]
    ensures ChecksHold(t1)
  {
    assert forall o :: o in t1.owners ==> o in t1.owners.Keys;
  }

  lemma PublishPassesChecks(t: Tables, s: Step)
    requires Backed(t) && WellFormedStep(s) && ChecksHold(t) && s.Publish? && Publishes(t, s.instance, s.config)
    ensures ChecksHold(Next(t, s))
  {
    var d := Declared(t, s.instance, s.config, s.manifest, s.seenAt);
    ValidOwner(s.config);
    assert ChecksHold(d);
    DeclaredBacked(t, s.instance, s.config, s.manifest, s.seenAt);
    EvaluateFrame(d, s.config.owner, s.now, Heartbeat);
    ChecksCarry(d, Next(t, s));
  }

  lemma OperatePassesChecks(t: Tables, a: Action, actor: string, now: Time)
    requires ChecksHold(t)
    ensures ChecksHold(Operate(t, a, actor, now))
  {
    if Permitted(t, a, actor) && a.Adopt? {
      ValidOwner(Config(a.owner, "operator", 0));
    }
  }

  lemma StepPassesChecks(t: Tables, s: Step)
    requires Backed(t) && WellFormedStep(s) && ChecksHold(t)
    ensures ChecksHold(Next(t, s))
  {
    if s.Publish? && Publishes(t, s.instance, s.config) {
      PublishPassesChecks(t, s);
    } else if s.OperatorAction? {
      OperatePassesChecks(t, s.action, s.actor, s.now);
    } else {
      if s.Reconcile? {
        EvaluateFrame(t, s.owner, s.now, Apply);
      }
      ChecksCarry(t, Next(t, s));
    }
  }

  /** No write of the protocol violates the checks of its tables. */
  lemma {:induction false} RunPassesChecks(steps: seq<Step>)
    requires WellFormedRun(steps)
    ensures ChecksHold(After(steps))
  {
    if steps != [] {
      RunPassesChecks(steps[..|steps|-1]);
      StepPassesChecks(After(steps[..|steps|-1]), steps[|steps|-1]);
    }
  }
}
