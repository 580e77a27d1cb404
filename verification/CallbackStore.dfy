/** The callback operations as updates of the job table, each one step of the machine
    in `Callbacks`, and the choice a resolve makes. */
module CallbackStore {
  import opened Prelude
  import opened Jobs
  import opened CanonicalJson
  import opened Callbacks
  import opened CallbackHistory

  datatype DefaultAction = Complete | Fail | Ignore

  datatype Error = CallbackNotFound | JobNotFound | NotRunning

  /** The evaluator of an expression on the payload; no answer is an error. */
  type Evaluator = string -> Option<bool>

  predicate Says(e: Option<string>, eval: Evaluator, answer: bool) {
    e.Some? && eval(e.value) == Some(answer)
  }

  function Default(action: DefaultAction): Decision {
    match action
    case Complete => CompleteJob
    case Fail => FailJob
    case Ignore => IgnoreCall
  }

  /** `evaluate_or_default` */
  function Evaluate(config: Config, eval: Evaluator, action: DefaultAction): Decision {
    if config == NoConfig then Default(action)
    else if Says(config.filter, eval, false) then IgnoreCall
    else if Says(config.onFail, eval, true) then FailJob
    else if Says(config.onComplete, eval, true) then CompleteJob
    else Default(action)
  }

  /** No expression decides. */
  predicate Silent(config: Config, eval: Evaluator) {
    !Says(config.onFail, eval, true) && !Says(config.onComplete, eval, true)
  }

  /** The call is ignored: the filter says no, or nothing decides and that is the default. */
  predicate Ignores(config: Config, eval: Evaluator, action: DefaultAction) {
    Says(config.filter, eval, false) || (Silent(config, eval) && action.Ignore?)
  }

  /** The job fails: not filtered out, and failure says yes or is the default. */
  predicate Fails(config: Config, eval: Evaluator, action: DefaultAction) {
    && !Says(config.filter, eval, false)
    && (Says(config.onFail, eval, true) || (Silent(config, eval) && action.Fail?))
  }

  /** Failure takes precedence over completion, and the filter over both. */
  lemma ChoiceOrder(config: Config, eval: Evaluator, action: DefaultAction)
    ensures var d := Evaluate(config, eval, action);
            && (d.IgnoreCall? <==> Ignores(config, eval, action))
            && (d.FailJob? <==> Fails(config, eval, action))
            && (Says(config.onFail, eval, true) && Says(config.onComplete, eval, true) ==> !d.CompleteJob?)
  {
  }

  /** The expression if it evaluates. */
  function Sound(e: Option<string>, eval: Evaluator): Option<string> {
    if e.Some? && eval(e.value).Some? then e else None
  }

  /** Fail-open: an expression that cannot be evaluated decides as if it had not been
      registered; and with none left the default decides. */
  lemma FailOpen(config: Config, eval: Evaluator, action: DefaultAction)
    ensures var sound := Config(Sound(config.filter, eval), Sound(config.onComplete, eval),
                               Sound(config.onFail, eval), None);
            Evaluate(config, eval, action) == Evaluate(sound, eval, action)
            && (sound == NoConfig ==> Evaluate(config, eval, action) == Default(action))
  {
  }

  // ---- Ids that can still decide a row -----------------------------------------------------

  /** Some row can be decided by `token` under the fence. */
  ghost predicate Live(rows: map<JobId, Row>, token: Token, fence: Option<nat>) {
    exists j :: j in rows && Holds(rows[j], token, fence)
  }

  /** No call with `token` can succeed any more. */
  ghost predicate Dead(rows: map<JobId, Row>, token: Token) {
    forall fence :: !Live(rows, token, fence)
  }

  /** Every id but these is as live as it was. */
  ghost predicate OthersLive(rows: map<JobId, Row>, rows1: map<JobId, Row>, but: set<Token>) {
    forall t, fence :: t !in but ==> (Live(rows1, t, fence) <==> Live(rows, t, fence))
  }

  function IdOf(row: Row): set<Token> {
    if row.callback.Some? then {row.callback.value} else {}
  }

  /** Rewriting one row concerns only the ids it held or holds. */
  lemma OthersStayLive(rows: map<JobId, Row>, j: JobId, row1: Row, but: set<Token>)
    requires j in rows && IdOf(rows[j]) <= but && IdOf(row1) <= but
    ensures OthersLive(rows, rows[j := row1], but)
  {
    var rows1 := rows[j := row1];
    forall t, fence | t !in but ensures Live(rows1, t, fence) <==> Live(rows, t, fence) {
      if k :| k in rows1 && Holds(rows1[k], t, fence) {
        assert k != j && k in rows && Holds(rows[k], t, fence);
      }
      if k :| k in rows && Holds(rows[k], t, fence) {
        assert k != j && k in rows1 && Holds(rows1[k], t, fence);
      }
    }
  }

  /** An id its only row gives up is dead. */
  lemma GivenUpIsDead(w: World, j: JobId, row1: Row)
    requires Inv(w) && j in w.rows && w.rows[j].callback.Some? && row1.callback != w.rows[j].callback
    ensures Dead(w.rows[j := row1], w.rows[j].callback.value)
  {
  }

  /** Entering the wait, or moving the timeout, changes nothing about who can decide. */
  lemma SameHolders(rows: map<JobId, Row>, j: JobId, row1: Row)
    requires j in rows && forall t, fence :: Holds(row1, t, fence) <==> Holds(rows[j], t, fence)
    ensures OthersLive(rows, rows[j := row1], {})
  {
    var rows1 := rows[j := row1];
    forall t, fence ensures Live(rows1, t, fence) <==> Live(rows, t, fence) {
      if k :| k in rows1 && Holds(rows1[k], t, fence) {
        assert k in rows && Holds(rows[k], t, fence);
      }
      if k :| k in rows && Holds(rows[k], t, fence) {
        assert k in rows1 && Holds(rows1[k], t, fence);
      }
    }
  }

  lemma WaitingStaysLive(rows: map<JobId, Row>, j: JobId)
    requires j in rows && rows[j].state.Running?
    ensures OthersLive(rows, rows[j := rows[j].(state := WaitingExternal)], {})
  {
    SameHolders(rows, j, rows[j].(state := WaitingExternal));
  }

  lemma TimeoutStaysLive(rows: map<JobId, Row>, j: JobId, timeoutAt: int)
    requires j in rows
    ensures OthersLive(rows, rows[j := rows[j].(timeoutAt := Some(timeoutAt))], {})
  {
    SameHolders(rows, j, rows[j].(timeoutAt := Some(timeoutAt)));
  }

  /** Failed rows go back to the queue. */
  function Retried(rows: map<JobId, Row>, ids: set<JobId>): map<JobId, Row> {
    map j | j in rows :: if j in ids then rows[j].(state := Available) else rows[j]
  }

  /** A failed row has no callback, so a retried one has none. */
  lemma RetriedHasNone(w: World, retried: set<JobId>)
    requires Inv(w) && forall j :: j in retried ==> j in w.rows && w.rows[j].state.Failed?
    ensures forall j :: j in retried ==>
              && j in Retried(w.rows, retried)
              && Retried(w.rows, retried)[j] == w.rows[j].(state := Available)
              && Retried(w.rows, retried)[j].callback.None?
    ensures Retried(w.rows, retried) - retried == w.rows - retried
  {
    assert forall j :: j in retried ==> RowInv(w.rows[j]);
  }

  /** The jobs of a queue that a drain cancels. */
  function InQueue(rows: map<JobId, Row>, queue: string): set<JobId> {
    set j | j in rows && rows[j].queue == queue && Drainable(rows[j].state)
  }

  /** Running, or finished. */
  predicate Started(st: JobState) {
    st.Running? || st.Completed? || st.Failed? || st.Cancelled?
  }

  /** The jobs of a queue that are neither running nor finished. */
  function Unstarted(rows: map<JobId, Row>, queue: string): set<JobId> {
    set j | j in rows && rows[j].queue == queue && !Started(rows[j].state)
  }

  function Drained(rows: map<JobId, Row>, ids: set<JobId>): map<JobId, Row> {
    map j | j in rows :: if j in ids then Cleared(rows[j], Cancelled) else rows[j]
  }

  /** What a drain cancels is all that has not started. */
  lemma StartedIff(st: JobState)
    ensures Started(st) <==> !Drainable(st)
  {
  }

  lemma DrainEmpties(w: World, queue: string)
    requires Inv(w)
    ensures var ids, rows1 := Unstarted(w.rows, queue), Drained(w.rows, InQueue(w.rows, queue));
            && ids == InQueue(w.rows, queue) && rows1 - ids == w.rows - ids
            && (forall j :: j in ids ==> j in rows1 && rows1[j].state.Cancelled?)
            && forall j, t :: j in ids && t in IdOf(w.rows[j]) ==> Dead(rows1, t)
  {
    var ids := InQueue(w.rows, queue);
    var rows1 := Drained(w.rows, ids);
    forall j | j in w.rows ensures Started(w.rows[j].state) <==> !Drainable(w.rows[j].state) {
      StartedIff(w.rows[j].state);
    }
    assert Unstarted(w.rows, queue) == ids;
    forall j, t | j in ids && t in IdOf(w.rows[j]) ensures Dead(rows1, t) {
      forall k | k in rows1 ensures rows1[k].callback != Some(t) {
        assert k != j ==> w.rows[k].callback != w.rows[j].callback;
      }
    }
  }

  class Store {
    var rows: map<JobId, Row>
    ghost var stages: map<JobId, Stage>
    ghost var issued: set<Token>
    ghost var decided: seq<Token>
    ghost var resumed: map<Token, Payload>
    ghost var delivered: seq<Delivery>
    ghost var trace: seq<Step>

    ghost function State(): World
      reads this
    {
      World(rows, stages, issued, decided, resumed, delivered)
    }

    /** The table's past is a run of the machine. */
    ghost predicate Valid()
      reads this
    {
      State() == Run(trace) && Inv(State())
    }

    constructor ()
      ensures Valid() && rows == map[] && trace == []
    {
      rows, stages, issued, decided, resumed, delivered, trace := map[], map[], {}, [], map[], [], [];
    }

    /** Notes the step that the preceding statements amount to. */
    ghost method Note(s: Step, before: World)
      requires before == Run(trace) && Inv(before) && Next(before, s).rows == rows
      modifies this`stages, this`issued, this`decided, this`resumed, this`delivered, this`trace
      ensures Valid() && State() == Next(before, s) && trace == old(trace) + [s]
    {
      var after := Next(before, s);
      StepInv(before, s);
      RunStep(trace, s);
      stages, issued, decided, resumed, delivered :=
        after.stages, after.issued, after.decided, after.resumed, after.delivered;
      trace := trace + [s];
    }

    // ---- By producers and dispatchers ----------------------------------------------------

    /** A job enters the table; it brings no callback id with it. */
    method ArriveJob(j: JobId, state: JobState, kind: string, queue: string)
      requires Valid() && j !in rows && (state.Available? || state.Scheduled? || state.Retryable?)
      modifies this
      ensures Valid() && trace == old(trace) + [Arrive(j, state, kind, queue)]
      ensures rows - {j} == old(rows) && j in rows && rows[j].state == state && rows[j].callback.None?
      ensures rows[j].kind == kind && rows[j].queue == queue && rows[j].runLease == 0 && rows[j].result.None?
      ensures OthersLive(old(rows), rows, {})
    {
      ghost var before := State();
      rows := rows[j := Row(state, kind, queue, 0, None, None, NoConfig, None, None)];
      Note(Arrive(j, state, kind, queue), before);
      assert forall k :: k in before.rows ==> k in rows && rows[k] == before.rows[k];
    }

    /** A dispatcher's claim: the lease it returns is new for the job, and the attempt
        starts without a callback. The lease counts the claims of the job. */
    method ClaimJob(j: JobId) returns (r: Result<nat, Error>)
      requires Valid()
      modifies this
      ensures Valid() && trace == old(trace) + [Claim(j)]
      ensures r.Success? <==> j in old(rows) && old(rows)[j].state.Available?
      ensures r.Success? ==>
                && j in rows && rows[j].state.Running? && rows[j].callback.None?
                && r.value == rows[j].runLease && Claims(trace, j) == r.value
                && rows - {j} == old(rows) - {j}
      ensures OthersLive(old(rows), rows, {})
      ensures r.Failure? ==> rows == old(rows)
    {
      ghost var before := State();
      r := Failure(JobNotFound);
      if j in rows && rows[j].state.Available? {
        assert RowInv(rows[j]);
        OthersStayLive(rows, j, rows[j].(state := Running, runLease := rows[j].runLease + 1), {});
        rows := rows[j := rows[j].(state := Running, runLease := rows[j].runLease + 1)];
        r := Success(rows[j].runLease);
      }
      Note(Claim(j), before);
      LeaseCounts(trace, j);
    }

    // ---- By handlers --------------------------------------------------------------------

    /** `register_callback_with_config` with a fresh id: on success the id is live under
        this lease, and the id the row held before is dead. */
    method RegisterCallback(j: JobId, lease: nat, token: Token, timeoutAt: int, config: Config)
      returns (r: Result<Token, Error>)
      requires Valid() && token !in issued
      modifies this
      ensures Valid() && trace == old(trace) + [Register(j, lease, token, timeoutAt, config)]
      ensures r.Success? <==> j in old(rows) && old(rows)[j].state.Running? && old(rows)[j].runLease == lease
      ensures r.Success? ==>
                && r.value == token && Live(rows, token, Some(lease))
                && j in rows && rows[j].config == config && rows[j].timeoutAt == Some(timeoutAt)
                && rows - {j} == old(rows) - {j}
                && (forall t :: t in IdOf(old(rows)[j]) ==> Dead(rows, t))
                && OthersLive(old(rows), rows, IdOf(old(rows)[j]) + {token})
      ensures r.Failure? ==> State() == old(State())
    {
      ghost var before := State();
      if j in rows && rows[j].state.Running? && rows[j].runLease == lease {
        ghost var row1 := rows[j].(callback := Some(token), timeoutAt := Some(timeoutAt), config := config);
        assert TokensOk(before, rows[j]);
        if rows[j].callback.Some? {
          GivenUpIsDead(before, j, row1);
        }
        OthersStayLive(rows, j, row1, IdOf(rows[j]) + {token});
        rows := rows[j := rows[j].(callback := Some(token), timeoutAt := Some(timeoutAt), config := config)];
        assert Holds(rows[j], token, Some(lease));
        r := Success(token);
      } else {
        r := Failure(NotRunning);
      }
      Note(Register(j, lease, token, timeoutAt, config), before);
    }

    /** `enter_callback_wait`: whoever could decide the row still can, and nobody else; a
        row that did not enter is untouched. */
    method EnterCallbackWait(j: JobId, lease: nat, token: Token) returns (entered: bool)
      requires Valid()
      modifies this
      ensures Valid() && trace == old(trace) + [EnterWait(j, lease, token)]
      ensures entered ==> j in rows && rows[j].state.WaitingExternal? && Live(rows, token, Some(lease))
      ensures entered <==> j in old(rows) && old(rows)[j].state.Running? && Holds(old(rows)[j], token, Some(lease))
      ensures OthersLive(old(rows), rows, {}) && (!entered ==> rows == old(rows))
      ensures entered ==> rows == old(rows)[j := old(rows)[j].(state := WaitingExternal)]
    {
      ghost var before := State();
      entered := j in rows && rows[j].state.Running? && rows[j].runLease == lease && rows[j].callback == Some(token);
      if entered {
        WaitingStaysLive(rows, j);
        rows := rows[j := rows[j].(state := WaitingExternal)];
        assert Holds(rows[j], token, Some(lease));
      }
      Note(EnterWait(j, lease, token), before);
    }

    /** `check_callback_state`: a payload came with some resume and is handed out once;
        pending means the id can still decide the row, stale names the id that can instead,
        and no other answer finds the job waiting. */
    method CheckCallbackState(j: JobId, token: Token) returns (r: PollResult)
      requires Valid()
      modifies this
      ensures Valid() && trace == old(trace) + [Poll(j, token)]
      ensures r.NotFound? <==> j !in old(rows)
      ensures r.Resolved? ==> r.payload in resumed.Values
      ensures r.Resolved? ==> j in rows && forall t :: !CheckState(rows[j], t).0.Resolved?
      ensures r.Pending? ==> Live(rows, token, None)
      ensures r.Stale? ==> r.current != token && Live(rows, r.current, None)
      ensures r.UnexpectedState? ==> !r.state.WaitingExternal?
      ensures !r.Resolved? ==> rows == old(rows)
    {
      ghost var before, origin := State(), None;
      if j !in rows {
        r := NotFound;
      } else {
        assert RowInv(rows[j]) && TokensOk(before, rows[j]);
        if rows[j].state.Running? && rows[j].callback.None? && rows[j].result.Some? {
          r := Resolved(rows[j].result.value);
          origin := rows[j].resultOf;
          rows := rows[j := rows[j].(result := None, resultOf := None)];
        } else if rows[j].callback.Some? && rows[j].callback.value != token {
          r := Stale(rows[j].callback.value, rows[j].state);
          assert Holds(rows[j], r.current, None);
        } else if rows[j].state.WaitingExternal? && rows[j].callback.Some? {
          r := Pending;
          assert Holds(rows[j], token, None);
        } else {
          r := UnexpectedState(rows[j].state);
        }
      }
      assert j in before.rows ==> before.rows[j := before.rows[j]] == before.rows;
      Note(Poll(j, token), before);
      assert r.Resolved? ==> origin.Some? && origin.value in resumed && resumed[origin.value] == r.payload;
    }

    /** `cancel_callback`: the id the running row of that lease held is dead, and no other. */
    method ClearCallback(j: JobId, lease: nat) returns (cleared: bool)
      requires Valid()
      modifies this
      ensures Valid() && trace == old(trace) + [CancelCallback(j, lease)]
      ensures cleared ==>
                && j in old(rows) && old(rows)[j].callback.Some? && Dead(rows, old(rows)[j].callback.value)
                && j in rows && rows[j].state.Running? && OthersLive(old(rows), rows, IdOf(old(rows)[j]))
      ensures !cleared ==>
                && rows == old(rows)
                && !(j in rows && rows[j].state.Running? && rows[j].runLease == lease && rows[j].callback.Some?)
    {
      ghost var before := State();
      cleared := j in rows && rows[j].callback.Some? && rows[j].state.Running? && rows[j].runLease == lease;
      if cleared {
        GivenUpIsDead(before, j, Cleared(rows[j], Running));
        OthersStayLive(rows, j, Cleared(rows[j], Running), IdOf(rows[j]));
        rows := rows[j := Cleared(rows[j], Running)];
      }
      Note(CancelCallback(j, lease), before);
    }

    // ---- By external systems ------------------------------------------------------------

    /** Clears a live row into a final or queued state; its id is dead afterwards. */
    method DecideRow(j: JobId, token: Token, fence: Option<nat>, state: JobState, ghost s: Step)
      requires Valid() && j in rows && Holds(rows[j], token, fence)
      requires !s.Resume? && Decides(State(), s) && s.job == j && s.token == token
      requires DecidedRow(rows[j], s) == Cleared(rows[j], state)
      modifies this
      ensures Valid() && trace == old(trace) + [s] && decided == old(decided) + [token]
      ensures j in rows && rows[j].state == state && rows - {j} == old(rows) - {j}
      ensures Dead(rows, token) && OthersLive(old(rows), rows, {token})
    {
      ghost var before := State();
      GivenUpIsDead(before, j, Cleared(rows[j], state));
      OthersStayLive(rows, j, Cleared(rows[j], state), {token});
      rows := rows[j := Cleared(rows[j], state)];
      Note(s, before);
    }

    /** `complete_external`: succeeds exactly on a live id, which is then dead. */
    method CompleteExternal(token: Token, fence: Option<nat>) returns (r: Result<JobId, Error>)
      requires Valid()
      modifies this
      ensures Valid() && (r.Success? <==> Live(old(rows), token, fence))
      ensures r.Success? ==>
                && trace == old(trace) + [Step.Complete(r.value, token, fence)] && decided == old(decided) + [token]
                && r.value in rows && rows[r.value].state.Completed? && rows - {r.value} == old(rows) - {r.value}
                && Dead(rows, token) && OthersLive(old(rows), rows, {token})
      ensures r.Failure? ==> State() == old(State())
    {
      if j :| j in rows && Holds(rows[j], token, fence) {
        DecideRow(j, token, fence, Completed, Step.Complete(j, token, fence));
        r := Success(j);
      } else {
        r := Failure(CallbackNotFound);
      }
    }

    /** `resume_external`: succeeds exactly on a live id, which is then dead; the running
        row holds the payload for its handler. */
    method ResumeExternal(token: Token, payload: Option<Payload>, fence: Option<nat>) returns (r: Result<JobId, Error>)
      requires Valid()
      modifies this
      ensures Valid() && (r.Success? <==> Live(old(rows), token, fence))
      ensures r.Success? ==>
                && trace == old(trace) + [Resume(r.value, token, fence, payload)] && decided == old(decided) + [token]
                && r.value in rows && CheckState(rows[r.value], token).0 == Resolved(payload.GetOr(Null))
                && rows - {r.value} == old(rows) - {r.value}
                && Dead(rows, token) && OthersLive(old(rows), rows, {token})
      ensures r.Failure? ==> State() == old(State())
    {
      if j :| j in rows && Holds(rows[j], token, fence) {
        ghost var before := State();
        ghost var row1 := Cleared(rows[j], Running).(result := Some(payload.GetOr(Null)), resultOf := Some(token));
        GivenUpIsDead(before, j, row1);
        OthersStayLive(rows, j, row1, {token});
        rows := rows[j := Cleared(rows[j], Running).(result := Some(payload.GetOr(Null)), resultOf := Some(token))];
        Note(Resume(j, token, fence, payload), before);
        r := Success(j);
      } else {
        r := Failure(CallbackNotFound);
      }
    }

    /** `fail_external`: succeeds exactly on a live id, which is then dead. */
    method FailExternal(token: Token, fence: Option<nat>) returns (r: Result<JobId, Error>)
      requires Valid()
      modifies this
      ensures Valid() && (r.Success? <==> Live(old(rows), token, fence))
      ensures r.Success? ==>
                && trace == old(trace) + [Step.Fail(r.value, token, fence)] && decided == old(decided) + [token]
                && r.value in rows && rows[r.value].state.Failed? && rows - {r.value} == old(rows) - {r.value}
                && Dead(rows, token) && OthersLive(old(rows), rows, {token})
      ensures r.Failure? ==> State() == old(State())
    {
      if j :| j in rows && Holds(rows[j], token, fence) {
        DecideRow(j, token, fence, Failed, Step.Fail(j, token, fence));
        r := Success(j);
      } else {
        r := Failure(CallbackNotFound);
      }
    }

    /** `retry_external`: only a waiting row goes back to the queue, and its id is dead; a
        refusal of a live id means its job is still running. */
    method RetryByCallback(token: Token, fence: Option<nat>) returns (r: Result<JobId, Error>)
      requires Valid()
      modifies this
      ensures Valid()
      ensures r.Success? ==>
                && Live(old(rows), token, fence)
                && r.value in old(rows) && old(rows)[r.value].state.WaitingExternal?
                && trace == old(trace) + [RetryExternal(r.value, token, fence)] && decided == old(decided) + [token]
                && r.value in rows && rows[r.value].state.Available? && rows - {r.value} == old(rows) - {r.value}
                && Dead(rows, token) && OthersLive(old(rows), rows, {token})
      ensures r.Failure? ==>
                && State() == old(State())
                && forall j :: j in rows && Holds(rows[j], token, fence) ==> rows[j].state.Running?
    {
      if j :| j in rows && Holds(rows[j], token, fence) && rows[j].state.WaitingExternal? {
        DecideRow(j, token, fence, Available, RetryExternal(j, token, fence));
        r := Success(j);
      } else {
        r := Failure(CallbackNotFound);
      }
    }

    /** `resolve_callback`: of what was registered for the id, the filter, then failure, then
        completion, then the default decides. An ignored id stays live, a deciding call kills it. */
    method ResolveCallback(token: Token, fence: Option<nat>, eval: Evaluator, action: DefaultAction)
      returns (r: Result<(JobId, Decision), Error>)
      requires Valid()
      modifies this
      ensures Valid() && (r.Success? <==> Live(old(rows), token, fence))
      ensures r.Success? ==>
                var (j, d) := r.value;
                && j in old(rows) && j in rows && trace == old(trace) + [Resolve(j, token, fence, d)]
                && Registration(old(trace), token).Some? && Registration(old(trace), token).value.job == j
                && var config := Registration(old(trace), token).value.config;
                   && (d.IgnoreCall? <==> Ignores(config, eval, action))
                   && (d.FailJob? <==> Fails(config, eval, action))
      ensures r.Success? && r.value.1.IgnoreCall? ==> rows == old(rows) && decided == old(decided)
      ensures r.Success? && !r.value.1.IgnoreCall? ==>
                && Dead(rows, token) && OthersLive(old(rows), rows, {token}) && decided == old(decided) + [token]
                && rows[r.value.0].state == if r.value.1.FailJob? then Failed else Completed
      ensures r.Failure? ==> State() == old(State())
    {
      if j :| j in rows && Holds(rows[j], token, fence) {
        CallbackIsRegistered(trace, j);
        var d := Evaluate(rows[j].config, eval, action);
        ChoiceOrder(rows[j].config, eval, action);
        if d.IgnoreCall? {
          Note(Resolve(j, token, fence, d), State());
        } else {
          DecideRow(j, token, fence, if d.FailJob? then Failed else Completed, Resolve(j, token, fence, d));
        }
        r := Success((j, d));
      } else {
        r := Failure(CallbackNotFound);
      }
    }

    /** `heartbeat_callback`: moves a waiting row's timeout, and changes nothing about who
        can decide what. */
    method HeartbeatCallback(token: Token, timeoutAt: int) returns (r: Result<JobId, Error>)
      requires Valid()
      modifies this
      ensures Valid() && OthersLive(old(rows), rows, {}) && decided == old(decided)
      ensures r.Success? ==>
                && trace == old(trace) + [Heartbeat(r.value, token, timeoutAt)]
                && r.value in rows && rows[r.value].timeoutAt == Some(timeoutAt)
                && Live(rows, token, None) && rows[r.value].state.WaitingExternal?
      ensures r.Failure? ==>
                && State() == old(State())
                && forall j :: j in rows && Holds(rows[j], token, None) ==> rows[j].state.Running?
    {
      if j :| j in rows && rows[j].callback == Some(token) && rows[j].state.WaitingExternal? {
        ghost var before := State();
        TimeoutStaysLive(rows, j, timeoutAt);
        rows := rows[j := rows[j].(timeoutAt := Some(timeoutAt))];
        assert Holds(rows[j], token, None);
        Note(Heartbeat(j, token, timeoutAt), before);
        r := Success(j);
      } else {
        r := Failure(CallbackNotFound);
      }
    }

    // ---- By operators -------------------------------------------------------------------

    /** `retry`: the job can be claimed again and the id it waited on is dead. */
    method RetryJob(j: JobId) returns (r: Result<(), Error>)
      requires Valid()
      modifies this
      ensures Valid() && trace == old(trace) + [Retry(j)]
      ensures r.Success? ==>
                && j in old(rows) && j in rows && rows[j].state.Available?
                && (old(rows)[j].state.Failed? || old(rows)[j].state.Cancelled? || old(rows)[j].state.WaitingExternal?)
                && (forall t :: t in IdOf(old(rows)[j]) ==> Dead(rows, t))
                && OthersLive(old(rows), rows, IdOf(old(rows)[j]))
      ensures r.Failure? ==>
                && rows == old(rows)
                && (j in rows ==>
                      !rows[j].state.Failed? && !rows[j].state.Cancelled? && !rows[j].state.WaitingExternal?)
    {
      ghost var before := State();
      r := Failure(JobNotFound);
      if j in rows && (rows[j].state.Failed? || rows[j].state.Cancelled? || rows[j].state.WaitingExternal?) {
        if rows[j].callback.Some? {
          GivenUpIsDead(before, j, Cleared(rows[j], Available));
        }
        OthersStayLive(rows, j, Cleared(rows[j], Available), IdOf(rows[j]));
        rows := rows[j := Cleared(rows[j], Available)];
        r := Success(());
      }
      Note(Retry(j), before);
    }

    /** `cancel`: the job is cancelled and its id dead; the flag says whether an attempt
        was under way, so that a worker must be told. */
    method CancelJob(j: JobId) returns (r: Result<bool, Error>)
      requires Valid()
      modifies this
      ensures Valid() && trace == old(trace) + [Cancel(j)]
      ensures r.Success? ==>
                && j in old(rows) && j in rows && rows[j].state.Cancelled?
                && !old(rows)[j].state.Completed? && !old(rows)[j].state.Failed? && !old(rows)[j].state.Cancelled?
                && r.value == (old(rows)[j].state.Running? || old(rows)[j].state.WaitingExternal?)
                && (IdOf(old(rows)[j]) != {} ==> r.value)
                && (forall t :: t in IdOf(old(rows)[j]) ==> Dead(rows, t))
                && OthersLive(old(rows), rows, IdOf(old(rows)[j]))
      ensures r.Failure? ==>
                && rows == old(rows)
                && (j in rows ==> rows[j].state.Completed? || rows[j].state.Failed? || rows[j].state.Cancelled?)
    {
      ghost var before := State();
      if j in rows && !rows[j].state.Completed? && !rows[j].state.Failed? && !rows[j].state.Cancelled? {
        assert RowInv(rows[j]);
        if rows[j].callback.Some? {
          GivenUpIsDead(before, j, Cleared(rows[j], Cancelled));
        }
        OthersStayLive(rows, j, Cleared(rows[j], Cancelled), IdOf(rows[j]));
        r := Success(rows[j].state.Running? || rows[j].state.WaitingExternal?);
        rows := rows[j := Cleared(rows[j], Cancelled)];
      } else {
        r := Failure(JobNotFound);
      }
      Note(Cancel(j), before);
    }

    /** `retry_failed_by_kind`: it leaves the callback columns alone, and need not clear
        them, since a failed row has none. */
    method RetryFailedByKind(kind: string) returns (retried: set<JobId>)
      requires Valid()
      modifies this
      ensures Valid() && trace == old(trace) + [RetryFailedKind(kind)]
      ensures retried == set j | j in old(rows) && old(rows)[j].kind == kind && old(rows)[j].state.Failed?
      ensures forall j :: j in retried ==> rows[j] == old(rows)[j].(state := Available) && rows[j].callback.None?
      ensures rows - retried == old(rows) - retried
    {
      ghost var before := State();
      retried := set j | j in rows && rows[j].kind == kind && rows[j].state.Failed?;
      RetriedHasNone(before, retried);
      rows := Retried(rows, retried);
      Note(RetryFailedKind(kind), before);
    }

    /** `retry_failed_by_queue` */
    method RetryFailedByQueue(queue: string) returns (retried: set<JobId>)
      requires Valid()
      modifies this
      ensures Valid() && trace == old(trace) + [RetryFailedQueue(queue)]
      ensures retried == set j | j in old(rows) && old(rows)[j].queue == queue && old(rows)[j].state.Failed?
      ensures forall j :: j in retried ==> rows[j] == old(rows)[j].(state := Available) && rows[j].callback.None?
      ensures rows - retried == old(rows) - retried
    {
      ghost var before := State();
      retried := set j | j in rows && rows[j].queue == queue && rows[j].state.Failed?;
      RetriedHasNone(before, retried);
      rows := Retried(rows, retried);
      Note(RetryFailedQueue(queue), before);
    }

    /** `drain_queue`: of the queue, what is running or finished is left alone and all else is
        cancelled; every id of a drained row is dead. */
    method DrainQueue(queue: string) returns (cancelled: nat)
      requires Valid()
      modifies this
      ensures Valid() && trace == old(trace) + [Drain(queue)]
      ensures var ids := Unstarted(old(rows), queue);
              && cancelled == |ids| && rows - ids == old(rows) - ids
              && (forall j :: j in ids ==> j in rows && rows[j].state.Cancelled?)
              && forall j, t :: j in ids && t in IdOf(old(rows)[j]) ==> Dead(rows, t)
    {
      ghost var before := State();
      DrainEmpties(before, queue);
      cancelled := |InQueue(rows, queue)|;
      rows := Drained(rows, InQueue(rows, queue));
      Note(Drain(queue), before);
    }
  }
}
