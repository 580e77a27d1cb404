/** What a row holds, from the steps that put it there: the configuration and timeout of its
    callback, its kind and queue, and its lease. */
module CallbackHistory {
  import opened Prelude
  import opened Jobs
  import opened CanonicalJson
  import opened Callbacks

  /** The registration goes through: the job runs under that lease, and the id is new. */
  predicate Issues(w: World, s: Step) {
    && s.Register? && s.job in w.rows && w.rows[s.job].state.Running?
    && w.rows[s.job].runLease == s.lease && s.token !in w.issued
  }

  /** The heartbeat finds the waiting row of its id. */
  predicate Extends(w: World, s: Step) {
    s.Heartbeat? && s.job in w.rows && w.rows[s.job].callback == Some(s.token) && w.rows[s.job].state.WaitingExternal?
  }

  /** The registration that issued the id. */
  ghost function Registration(steps: seq<Step>, t: Token): (r: Option<Step>)
    ensures r.Some? ==> r.value.Register? && r.value.token == t
  {
    if steps == [] then None
    else
      var before, s := steps[..|steps|-1], steps[|steps|-1];
      if s.Register? && s.token == t && Issues(Run(before), s) then Some(s) else Registration(before, t)
  }

  /** When the id times out: as registered, or as its last heartbeat said. */
  ghost function Timeout(steps: seq<Step>, t: Token): Option<int> {
    if steps == [] then None
    else
      var before, s := steps[..|steps|-1], steps[|steps|-1];
      if s.Register? && s.token == t && Issues(Run(before), s) then Some(s.timeoutAt)
      else if s.Heartbeat? && s.token == t && Extends(Run(before), s) then Some(s.timeoutAt)
      else Timeout(before, t)
  }

  // ---- One step -------------------------------------------------------------------------

  /** The row still has the callback columns it had. */
  ghost predicate SameCallback(row: Row, row1: Row) {
    row1.callback == row.callback && row1.config == row.config && row1.timeoutAt == row.timeoutAt
  }

  /** Where a callback on a row comes from: it is there already, or this step set it. */
  ghost predicate Sets(w: World, s: Step, j: JobId, row1: Row) {
    || (s.Register? && s.job == j && Issues(w, s)
        && row1.callback == Some(s.token) && row1.config == s.config && row1.timeoutAt == Some(s.timeoutAt))
    || (s.Heartbeat? && s.job == j && Extends(w, s)
        && row1.callback == Some(s.token) && row1.config == w.rows[j].config && row1.timeoutAt == Some(s.timeoutAt))
  }

  /** A callback found after a step was there before it or set by it, and a step that sets
      one is the only one that does. */
  ghost predicate CallbackFrom(w: World, s: Step, v: World, j: JobId) {
    j in v.rows && v.rows[j].callback.Some? ==>
      && j in w.rows
      && if (Issues(w, s) || Extends(w, s)) && s.job == j then Sets(w, s, j, v.rows[j])
         else SameCallback(w.rows[j], v.rows[j])
  }

  lemma HandlerCallback(w: World, s: Step, j: JobId)
    requires !ByOperator(s) && !s.Heartbeat?
    ensures CallbackFrom(w, s, HandlerStep(w, s), j)
  {
  }

  lemma AdminCallback(w: World, s: Step, j: JobId)
    requires ByOperator(s)
    ensures CallbackFrom(w, s, AdminStep(w, s), j)
  {
  }

  lemma StepCallback(w: World, s: Step, j: JobId)
    ensures CallbackFrom(w, s, Next(w, s), j)
  {
    if s.Arrive? || s.Claim? || s.Heartbeat? || Decides(w, s) {
    } else if ByOperator(s) {
      AdminCallback(w, s, j);
    } else {
      HandlerCallback(w, s, j);
    }
  }

  /** A job stays under its kind and queue; only a claim moves its lease, by one. */
  ghost predicate Kept(w: World, s: Step, v: World, j: JobId)
    requires j in w.rows
  {
    && j in v.rows && v.rows[j].kind == w.rows[j].kind && v.rows[j].queue == w.rows[j].queue
    && v.rows[j].runLease == w.rows[j].runLease + if s == Claim(j) && w.rows[j].state.Available? then 1 else 0
  }

  lemma AdminKeeps(w: World, s: Step, j: JobId)
    requires j in w.rows && ByOperator(s)
    ensures Kept(w, s, AdminStep(w, s), j)
  {
  }

  lemma HandlerKeeps(w: World, s: Step, j: JobId)
    requires j in w.rows && !s.Claim?
    ensures Kept(w, s, HandlerStep(w, s), j)
  {
  }

  lemma DecideKeeps(w: World, s: Step, j: JobId)
    requires j in w.rows && Decides(w, s)
    ensures Kept(w, s, Decide(w, s), j)
  {
  }

  lemma StepKeeps(w: World, s: Step, j: JobId)
    requires j in w.rows
    ensures Kept(w, s, Next(w, s), j)
  {
    if s.Arrive? || s.Claim? || s.Heartbeat? {
    } else if Decides(w, s) {
      DecideKeeps(w, s, j);
    } else if ByOperator(s) {
      AdminKeeps(w, s, j);
    } else {
      HandlerKeeps(w, s, j);
    }
  }

  // ---- Runs -------------------------------------------------------------------------------

  /** The callback a row holds was registered for that job, with the configuration the row
      holds, and times out when its registration or its last heartbeat said. */
  lemma {:induction false} CallbackIsRegistered(steps: seq<Step>, j: JobId)
    requires j in Run(steps).rows && Run(steps).rows[j].callback.Some?
    ensures var row := Run(steps).rows[j];
            var r := Registration(steps, row.callback.value);
            && r.Some? && r.value.job == j && r.value.config == row.config
            && Timeout(steps, row.callback.value) == row.timeoutAt
  {
    var before, s := steps[..|steps|-1], steps[|steps|-1];
    var w := Run(before);
    RunInv(before);
    StepCallback(w, s, j);
    var t := Run(steps).rows[j].callback.value;
    if Issues(w, s) && s.job == j {
    } else {
      CallbackIsRegistered(before, j);
      assert TokensOk(w, w.rows[j]);
      OnlyHolder(w, s, j, t);
    }
  }

  /** Another job's step concerns another id. */
  lemma OnlyHolder(w: World, s: Step, j: JobId, t: Token)
    requires Inv(w) && j in w.rows && w.rows[j].callback == Some(t)
    ensures s.Register? && s.token == t ==> !Issues(w, s)
    ensures s.Heartbeat? && s.token == t && Extends(w, s) ==> s.job == j
  {
    assert TokensOk(w, w.rows[j]);
  }

  predicate Arrives(s: Step, j: JobId, row: Row) {
    s.Arrive? && s.job == j && s.kind == row.kind && s.queue == row.queue
  }

  /** Every job has the kind and queue it arrived with. */
  lemma {:induction false} ArrivedAs(steps: seq<Step>, j: JobId) returns (i: nat)
    requires j in Run(steps).rows
    ensures i < |steps| && Arrives(steps[i], j, Run(steps).rows[j])
  {
    var before, s := steps[..|steps|-1], steps[|steps|-1];
    if j in Run(before).rows {
      i := ArrivedAs(before, j);
      StepKeeps(Run(before), s, j);
    } else {
      i := |steps| - 1;
      NewRow(Run(before), s, j);
    }
  }

  lemma NewRow(w: World, s: Step, j: JobId)
    requires j !in w.rows && j in Next(w, s).rows
    ensures Arrives(s, j, Next(w, s).rows[j]) && Next(w, s).rows[j].state == s.state && Next(w, s).rows[j].runLease == 0
  {
  }

  /** How often the job has been claimed. */
  ghost function Claims(steps: seq<Step>, j: JobId): nat {
    if steps == [] then 0
    else
      var before, s := steps[..|steps|-1], steps[|steps|-1];
      Claims(before, j)
      + if s == Claim(j) && j in Run(before).rows && Run(before).rows[j].state.Available? then 1 else 0
  }

  /** The lease counts the attempts, so no two attempts of a job share one. */
  lemma {:induction false} LeaseCounts(steps: seq<Step>, j: JobId)
    ensures if j in Run(steps).rows then Run(steps).rows[j].runLease == Claims(steps, j) else Claims(steps, j) == 0
  {
    if steps != [] {
      var before, s := steps[..|steps|-1], steps[|steps|-1];
      LeaseCounts(before, j);
      if j in Run(before).rows {
        StepKeeps(Run(before), s, j);
      } else if j in Run(steps).rows {
        NewRow(Run(before), s, j);
      }
    }
  }
}
