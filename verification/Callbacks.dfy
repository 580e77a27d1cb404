/** The callback lifecycle of job rows: any number of handlers, external systems and
    operators race on `state`, `run_lease`, `callback_id` and the callback payload. */
module Callbacks {
  import opened Prelude
  import opened Jobs
  import opened CanonicalJson

  type Token = int
  type Payload = Json

  /** The expressions of `CallbackConfig`. */
  datatype Config = Config(
    filter: Option<string>, onComplete: Option<string>, onFail: Option<string>, transform: Option<string>)

  const NoConfig := Config(None, None, None, None)

  /** A row of `awa.jobs_hot`. `result` is the metadata key `_awa_callback_result`;
      `resultOf` is history: the token whose resume wrote it. */
  datatype Row = Row(
    state: JobState,
    kind: string,
    queue: string,
    runLease: nat,
    callback: Option<Token>,
    timeoutAt: Option<int>,
    config: Config,
    result: Option<Payload>,
    resultOf: Option<Token>)

  /** What the running attempt's handler does about callbacks: nothing, it holds a
      token it registered, or it is inside `wait_for_callback`. */
  datatype Stage = Free | Holding(token: Token) | Awaiting(token: Token)

  /** A payload handed out to a poll for `token`; `origin` is the token whose resume it
      came with. */
  datatype Delivery = Delivery(token: Token, payload: Payload, origin: Option<Token>)

  /** `issued`, `decided`, `resumed` and `delivered` are history: the ids given out, the
      ids a complete, fail, resume, retry or deciding resolve succeeded on, the payloads
      of successful resumes, and what handlers received. */
  datatype World = World(
    rows: map<JobId, Row>,
    stages: map<JobId, Stage>,
    issued: set<Token>,
    decided: seq<Token>,
    resumed: map<Token, Payload>,
    delivered: seq<Delivery>)

  datatype PollResult =
    | Resolved(payload: Payload)
    | Pending
    | Stale(current: Token, state: JobState)
    | UnexpectedState(state: JobState)
    | NotFound

  datatype Decision = CompleteJob | FailJob | IgnoreCall

  datatype Step =
    | Arrive(job: JobId, state: JobState, kind: string, queue: string)
    | Claim(job: JobId)
    | Register(job: JobId, lease: nat, token: Token, timeoutAt: int, config: Config)
    | EnterWait(job: JobId, lease: nat, token: Token)
    | Poll(job: JobId, token: Token)
    | Abandon(job: JobId)
    | CancelCallback(job: JobId, lease: nat)
    | Complete(job: JobId, token: Token, fence: Option<nat>)
    | Resume(job: JobId, token: Token, fence: Option<nat>, payload: Option<Payload>)
    | Fail(job: JobId, token: Token, fence: Option<nat>)
    | RetryExternal(job: JobId, token: Token, fence: Option<nat>)
    | Resolve(job: JobId, token: Token, fence: Option<nat>, decision: Decision)
    | Heartbeat(job: JobId, token: Token, timeoutAt: int)
    | Retry(job: JobId)
    | Cancel(job: JobId)
    | RetryFailedKind(kind: string)
    | RetryFailedQueue(queue: string)
    | Drain(queue: string)

  // ---- Row updates ---------------------------------------------------------------------

  /** Every exit from a wait clears the six callback columns together. */
  function Cleared(row: Row, state: JobState): Row {
    row.(state := state, callback := None, timeoutAt := None, config := NoConfig)
  }

  predicate Holds(row: Row, token: Token, fence: Option<nat>) {
    && row.callback == Some(token)
    && (row.state.WaitingExternal? || row.state.Running?)
    && (fence.None? || row.runLease == fence.value)
  }

  /** Whether the step finds a row to decide. */
  predicate Decides(w: World, s: Step) {
    match s
    case Complete(j, t, fence) => j in w.rows && Holds(w.rows[j], t, fence)
    case Resume(j, t, fence, _) => j in w.rows && Holds(w.rows[j], t, fence)
    case Fail(j, t, fence) => j in w.rows && Holds(w.rows[j], t, fence)
    case RetryExternal(j, t, fence) => j in w.rows && Holds(w.rows[j], t, fence) && w.rows[j].state.WaitingExternal?
    case Resolve(j, t, fence, d) => j in w.rows && Holds(w.rows[j], t, fence) && !d.IgnoreCall?
    case _ => false
  }

  function DecidedRow(row: Row, s: Step): Row {
    match s
    case Complete(_, _, _) => Cleared(row, Completed)
    case Resume(_, t, _, p) => Cleared(row, Running).(result := Some(p.GetOr(Null)), resultOf := Some(t))
    case Fail(_, _, _) => Cleared(row, Failed)
    case RetryExternal(_, _, _) => Cleared(row, Available)
    case Resolve(_, _, _, d) => Cleared(row, if d.CompleteJob? then Completed else Failed)
    case _ => row
  }

  /** `check_callback_state` and the row it leaves. */
  function CheckState(row: Row, token: Token): (PollResult, Row) {
    if row.state.Running? && row.callback.None? && row.result.Some? then
      (Resolved(row.result.value), row.(result := None, resultOf := None))
    else if row.callback.Some? && row.callback.value != token then (Stale(row.callback.value, row.state), row)
    else if row.state.WaitingExternal? && row.callback.Some? then (Pending, row)
    else (UnexpectedState(row.state), row)
  }

  predicate Drainable(st: JobState) {
    st.Available? || st.Scheduled? || st.Retryable? || st.WaitingExternal?
  }

  // ---- Steps ---------------------------------------------------------------------------

  function WithRow(w: World, j: JobId, row: Row): World {
    w.(rows := w.rows[j := row])
  }

  function WithStage(w: World, j: JobId, stage: Stage): World {
    w.(stages := w.stages[j := stage])
  }

  function Decide(w: World, s: Step): World
    requires Decides(w, s)
  {
    w.(rows := w.rows[s.job := DecidedRow(w.rows[s.job], s)],
       decided := w.decided + [s.token],
       resumed := if s.Resume? then w.resumed[s.token := s.payload.GetOr(Null)] else w.resumed)
  }

  function PollRow(w: World, j: JobId, token: Token): World
    requires j in w.rows
  {
    var (answer, row) := CheckState(w.rows[j], token);
    var stage := if answer.Pending? then Awaiting(token) else Free;
    w.(rows := w.rows[j := row], stages := w.stages[j := stage],
       delivered := if answer.Resolved? then w.delivered + [Delivery(token, answer.payload, w.rows[j].resultOf)]
                    else w.delivered)
  }

  function HandlerStep(w: World, s: Step): World {
    match s
    case Register(j, lease, t, at, config) =>
      if j in w.rows && w.rows[j].state.Running? && w.rows[j].runLease == lease && t !in w.issued
      then w.(rows := w.rows[j := w.rows[j].(callback := Some(t), timeoutAt := Some(at), config := config)],
              stages := w.stages[j := Holding(t)], issued := w.issued + {t})
      else w
    case EnterWait(j, lease, t) =>
      if j !in w.rows then w
      else if w.rows[j].state.Running? && w.rows[j].runLease == lease && w.rows[j].callback == Some(t)
      then WithStage(WithRow(w, j, w.rows[j].(state := WaitingExternal)), j, Awaiting(t))
      else WithStage(w, j, Awaiting(t))
    case Poll(j, t) => if j in w.rows then PollRow(w, j, t) else w
    case Abandon(j) => WithStage(w, j, Free)
    case CancelCallback(j, lease) =>
      if j !in w.rows then w
      else if w.rows[j].callback.Some? && w.rows[j].state.Running? && w.rows[j].runLease == lease
      then WithStage(WithRow(w, j, Cleared(w.rows[j], Running)), j, Free)
      else WithStage(w, j, Free)
    case _ => w
  }

  function AdminStep(w: World, s: Step): World {
    match s
    case Retry(j) =>
      if j in w.rows && (w.rows[j].state.Failed? || w.rows[j].state.Cancelled? || w.rows[j].state.WaitingExternal?)
      then WithRow(w, j, Cleared(w.rows[j], Available)) else w
    case Cancel(j) =>
      if j in w.rows && !w.rows[j].state.Completed? && !w.rows[j].state.Failed? && !w.rows[j].state.Cancelled?
      then WithRow(w, j, Cleared(w.rows[j], Cancelled)) else w
    case RetryFailedKind(kind) =>
      w.(rows := map j | j in w.rows ::
           if w.rows[j].kind == kind && w.rows[j].state.Failed? then w.rows[j].(state := Available) else w.rows[j])
    case RetryFailedQueue(queue) =>
      w.(rows := map j | j in w.rows ::
           if w.rows[j].queue == queue && w.rows[j].state.Failed? then w.rows[j].(state := Available) else w.rows[j])
    case Drain(queue) =>
      w.(rows := map j | j in w.rows ::
           if w.rows[j].queue == queue && Drainable(w.rows[j].state) then Cleared(w.rows[j], Cancelled) else w.rows[j])
    case _ => w
  }

  /** One transaction; a step that finds no row to update changes nothing. */
  function Next(w: World, s: Step): World {
    match s
    case Arrive(j, st, kind, queue) =>
      if j in w.rows || !(st.Available? || st.Scheduled? || st.Retryable?) then w
      else WithRow(w, j, Row(st, kind, queue, 0, None, None, NoConfig, None, None))
    case Claim(j) =>
      if j in w.rows && w.rows[j].state.Available?
      then WithStage(WithRow(w, j, w.rows[j].(state := Running, runLease := w.rows[j].runLease + 1)), j, Free)
      else w
    case Heartbeat(j, t, at) =>
      if j in w.rows && w.rows[j].callback == Some(t) && w.rows[j].state.WaitingExternal?
      then WithRow(w, j, w.rows[j].(timeoutAt := Some(at))) else w
    case _ =>
      if Decides(w, s) then Decide(w, s)
      else if ByOperator(s) then AdminStep(w, s)
      else HandlerStep(w, s)
  }

  const NoJobs := World(map[], map[], {}, [], map[], [])

  function Run(steps: seq<Step>): World {
    if steps == [] then NoJobs else Next(Run(steps[..|steps|-1]), steps[|steps|-1])
  }

  // ---- At most once ----------------------------------------------------------------------

  /** The callback columns move together and only live on a row that can be decided. */
  ghost predicate RowInv(row: Row) {
    && (row.callback.Some? ==> row.state.Running? || row.state.WaitingExternal?)
    && (row.state.WaitingExternal? ==> row.callback.Some?)
    && (row.callback.Some? <==> row.timeoutAt.Some?)
    && (row.callback.None? ==> row.config == NoConfig)
    && (row.result.Some? <==> row.resultOf.Some?)
  }

  ghost predicate Distinct<T>(s: seq<T>) {
    forall i, j :: 0 <= i < j < |s| ==> s[i] != s[j]
  }

  ghost predicate TokensOk(w: World, row: Row) {
    && (row.callback.Some? ==> row.callback.value in w.issued && row.callback.value !in w.decided)
    && (row.resultOf.Some? ==> row.resultOf.value in w.resumed && row.result == Some(w.resumed[row.resultOf.value]))
  }

  /** What was handed out came with some resume. */
  ghost predicate Sourced(w: World, d: Delivery) {
    d.origin.Some? && d.origin.value in w.resumed && d.payload == w.resumed[d.origin.value]
  }

  ghost predicate Inv(w: World) {
    && (forall j :: j in w.rows ==> RowInv(w.rows[j]) && TokensOk(w, w.rows[j]))
    && (forall j, k :: j in w.rows && k in w.rows && j != k && w.rows[j].callback.Some? ==>
          w.rows[j].callback != w.rows[k].callback)
    && Distinct(w.decided)
    && (forall t :: t in w.decided ==> t in w.issued)
    && (forall t :: t in w.resumed ==> t in w.decided)
    && (forall i :: 0 <= i < |w.delivered| ==> Sourced(w, w.delivered[i]))
  }

  /** A step that only rewrites one row, leaving its token or dropping it. */
  lemma RowStepInv(w: World, v: World, j: JobId)
    requires Inv(w) && j in w.rows && j in v.rows && v.rows == w.rows[j := v.rows[j]]
    requires v.issued == w.issued && v.decided == w.decided && v.resumed == w.resumed && v.delivered == w.delivered
    requires RowInv(v.rows[j]) && (v.rows[j].callback.None? || v.rows[j].callback == w.rows[j].callback)
    requires v.rows[j].resultOf.None?
             || (v.rows[j].resultOf == w.rows[j].resultOf && v.rows[j].result == w.rows[j].result)
    ensures Inv(v)
  {
    forall k | k in v.rows ensures RowInv(v.rows[k]) && TokensOk(v, v.rows[k]) {
      assert k in w.rows && TokensOk(w, w.rows[k]);
    }
  }

  lemma DecideInv(w: World, s: Step)
    requires Inv(w) && Decides(w, s)
    ensures Inv(Decide(w, s))
  {
    var v, j := Decide(w, s), s.job;
    forall k | k in v.rows ensures RowInv(v.rows[k]) && TokensOk(v, v.rows[k]) {
      assert k in w.rows && RowInv(w.rows[k]) && TokensOk(w, w.rows[k]);
    }
    forall i | 0 <= i < |v.delivered| ensures Sourced(v, v.delivered[i]) {
      assert Sourced(w, w.delivered[i]);
    }
  }

  lemma RegisterInv(w: World, s: Step)
    requires Inv(w) && s.Register?
    ensures Inv(HandlerStep(w, s))
  {
    var v := HandlerStep(w, s);
    forall k | k in v.rows ensures RowInv(v.rows[k]) && TokensOk(v, v.rows[k]) {
      assert k in w.rows && RowInv(w.rows[k]) && TokensOk(w, w.rows[k]);
    }
  }

  /** A poll that resolves empties the row's result and hands it out with its origin. */
  lemma PollInv(w: World, s: Step)
    requires Inv(w) && s.Poll? && s.job in w.rows
    ensures Inv(HandlerStep(w, s))
  {
    var v := HandlerStep(w, s);
    RowStepInv(w, v.(delivered := w.delivered), s.job);
    assert RowInv(w.rows[s.job]) && TokensOk(w, w.rows[s.job]);
    forall i | 0 <= i < |v.delivered| ensures Sourced(v, v.delivered[i]) {
      assert i < |w.delivered| ==> Sourced(w, w.delivered[i]);
    }
  }

  lemma HandlerInv(w: World, s: Step)
    requires Inv(w)
    ensures Inv(HandlerStep(w, s))
  {
    if s.Register? {
      RegisterInv(w, s);
    } else if s.Poll? && s.job in w.rows {
      PollInv(w, s);
    } else if (s.EnterWait? || s.CancelCallback?) && s.job in w.rows {
      RowStepInv(w, HandlerStep(w, s), s.job);
    }
  }

  /** The row keeps its result and has no callback. */
  ghost predicate Settles(row: Row, row1: Row) {
    && row1.callback.None? && row1.timeoutAt.None? && row1.config == NoConfig && !row1.state.WaitingExternal?
    && row1.result == row.result && row1.resultOf == row.resultOf
  }

  /** A step that leaves each row alone or settles it. */
  lemma SettlingInv(w: World, v: World)
    requires Inv(w) && v == w.(rows := v.rows)
    requires forall k :: k in v.rows ==> k in w.rows && (v.rows[k] == w.rows[k] || Settles(w.rows[k], v.rows[k]))
    ensures Inv(v)
  {
    forall k | k in v.rows ensures RowInv(v.rows[k]) && TokensOk(v, v.rows[k]) {
      assert k in w.rows && RowInv(w.rows[k]) && TokensOk(w, w.rows[k]);
    }
    forall i | 0 <= i < |v.delivered| ensures Sourced(v, v.delivered[i]) {
      assert Sourced(w, w.delivered[i]);
    }
  }

  lemma ClearedSettles(row: Row, state: JobState)
    requires !state.WaitingExternal?
    ensures Settles(row, Cleared(row, state))
    ensures RowInv(row) && row.state.Failed? ==> Settles(row, row.(state := Available))
  {
  }

  lemma RetryInv(w: World, s: Step)
    requires Inv(w) && (s.Retry? || s.Cancel?)
    ensures Inv(AdminStep(w, s))
  {
    if s.job in w.rows {
      ClearedSettles(w.rows[s.job], if s.Retry? then Available else Cancelled);
    }
    SettlingInv(w, AdminStep(w, s));
  }

  lemma RetryFailedInv(w: World, s: Step)
    requires Inv(w) && (s.RetryFailedKind? || s.RetryFailedQueue?)
    ensures Inv(AdminStep(w, s))
  {
    var v := AdminStep(w, s);
    forall k | k in v.rows ensures k in w.rows && (v.rows[k] == w.rows[k] || Settles(w.rows[k], v.rows[k])) {
      assert RowInv(w.rows[k]);
      ClearedSettles(w.rows[k], Available);
    }
    SettlingInv(w, v);
  }

  lemma DrainInv(w: World, queue: string)
    requires Inv(w)
    ensures Inv(AdminStep(w, Drain(queue)))
  {
    var v := AdminStep(w, Drain(queue));
    forall k | k in v.rows ensures k in w.rows && (v.rows[k] == w.rows[k] || Settles(w.rows[k], v.rows[k])) {
      ClearedSettles(w.rows[k], Cancelled);
    }
    SettlingInv(w, v);
  }

  predicate ByOperator(s: Step) {
    s.Retry? || s.Cancel? || s.RetryFailedKind? || s.RetryFailedQueue? || s.Drain?
  }

  lemma AdminInv(w: World, s: Step)
    requires Inv(w) && ByOperator(s)
    ensures Inv(AdminStep(w, s))
  {
    if s.Drain? {
      DrainInv(w, s.queue);
    } else if s.Retry? || s.Cancel? {
      RetryInv(w, s);
    } else {
      RetryFailedInv(w, s);
    }
  }

  lemma ArrivalInv(w: World, s: Step)
    requires Inv(w) && (s.Arrive? || s.Claim? || s.Heartbeat?)
    ensures Inv(Next(w, s))
  {
    if !s.Arrive? && s.job in w.rows {
      RowStepInv(w, Next(w, s), s.job);
    }
  }

  lemma StepInv(w: World, s: Step)
    requires Inv(w)
    ensures Inv(Next(w, s))
  {
    if s.Arrive? || s.Claim? || s.Heartbeat? {
      ArrivalInv(w, s);
    } else if Decides(w, s) {
      DecideInv(w, s);
    } else if ByOperator(s) {
      AdminInv(w, s);
    } else {
      HandlerInv(w, s);
    }
  }

  lemma {:induction false} RunInv(steps: seq<Step>)
    ensures Inv(Run(steps))
  {
    if steps != [] {
      RunInv(steps[..|steps|-1]);
      StepInv(Run(steps[..|steps|-1]), steps[|steps|-1]);
    }
  }

  lemma DecidedGrows(w: World, s: Step)
    ensures w.decided <= Next(w, s).decided
    ensures Decides(w, s) ==> s.token in Next(w, s).decided
  {
  }

  lemma {:induction false} DecidedStays(steps: seq<Step>, i: nat, t: Token)
    requires i <= |steps| && t in Run(steps[..i]).decided
    ensures t in Run(steps).decided
  {
    if i == |steps| {
      assert steps[..i] == steps;
    } else {
      var before := steps[..|steps|-1];
      assert before[..i] == steps[..i];
      DecidedStays(before, i, t);
      DecidedGrows(Run(before), steps[|steps|-1]);
    }
  }

  /** Over every interleaving, at most one complete, fail, resume, retry or deciding
      resolve ever succeeds on one callback id. */
  lemma AtMostOnce(steps: seq<Step>, i: nat, j: nat)
    requires i < j < |steps|
    requires Decides(Run(steps[..i]), steps[i]) && Decides(Run(steps[..j]), steps[j])
    ensures steps[i].token != steps[j].token
  {
    RunInv(steps[..j]);
    DecidedGrows(Run(steps[..i]), steps[i]);
    assert steps[..i+1][..i] == steps[..i] && steps[..j][..i+1] == steps[..i+1];
    DecidedStays(steps[..j], i + 1, steps[i].token);
    assert TokensOk(Run(steps[..j]), Run(steps[..j]).rows[steps[j].job]);
  }

  /** In every reachable state a set `callback_id` means running or waiting, waiting
      means a set `callback_id`, and no two rows share one. */
  lemma CallbackColumns(steps: seq<Step>, j: JobId, k: JobId)
    requires j in Run(steps).rows && k in Run(steps).rows
    ensures RowInv(Run(steps).rows[j])
    ensures j != k && Run(steps).rows[j].callback.Some? ==> Run(steps).rows[j].callback != Run(steps).rows[k].callback
  {
    RunInv(steps);
  }

  lemma RunStep(steps: seq<Step>, s: Step)
    ensures Run(steps + [s]) == Next(Run(steps), s)
  {
    assert (steps + [s])[..|steps + [s]| - 1] == steps;
  }
}
