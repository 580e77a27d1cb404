/** Which payload a waiting handler receives. */
module CallbackDelivery {
  import opened Prelude
  import opened Jobs
  import opened CanonicalJson
  import opened Callbacks

  /** Only the running attempt's handler acts on the job, with its own lease; it waits
      on each token it registered, or clears it, before it registers the next. */
  predicate Disciplined(w: World, s: Step) {
    && (s.Register? ==>
          s.job in w.stages && s.job in w.rows && w.stages[s.job].Free? && s.lease == w.rows[s.job].runLease)
    && (s.EnterWait? ==>
          s.job in w.stages && s.job in w.rows
          && w.stages[s.job] == Holding(s.token) && s.lease == w.rows[s.job].runLease)
    && (s.Poll? ==> s.job in w.stages && w.stages[s.job] == Awaiting(s.token))
    && (s.Abandon? ==> s.job in w.stages && w.stages[s.job].Awaiting?)
    && (s.CancelCallback? ==>
          s.job in w.stages && s.job in w.rows && w.stages[s.job].Holding? && s.lease == w.rows[s.job].runLease)
  }

  ghost predicate DisciplinedRun(steps: seq<Step>) {
    forall i :: 0 <= i < |steps| ==> Disciplined(Run(steps[..i]), steps[i])
  }

  ghost predicate Undelivered(w: World, t: Token) {
    forall i :: 0 <= i < |w.delivered| ==> w.delivered[i].token != t
  }

  /** The handler's token is still the row's, or was resumed and the row holds its
      payload, or the job has left the attempt. */
  ghost predicate StageOk(w: World, j: JobId)
    requires j in w.stages
  {
    && j in w.rows
    && (!w.stages[j].Free? ==>
          var row, t := w.rows[j], w.stages[j].token;
          && t in w.issued
          && Undelivered(w, t)
          && (row.callback.None? || row.callback == Some(t))
          && (row.callback.None? && row.state.Running? ==> row.resultOf == Some(t)))
  }

  /** The payload came with the resume of the very token polled for. */
  predicate Own(d: Delivery) {
    d.origin == Some(d.token)
  }

  ghost predicate AllOwn(w: World) {
    forall i :: 0 <= i < |w.delivered| ==> Own(w.delivered[i])
  }

  /** Every payload handed out is the one its token was resumed with. */
  ghost predicate Faithful(w: World) {
    forall i :: 0 <= i < |w.delivered| ==>
      w.delivered[i].token in w.resumed && w.delivered[i].payload == w.resumed[w.delivered[i].token]
  }

  ghost predicate DeliveredOnce(w: World) {
    forall i, k :: 0 <= i < k < |w.delivered| ==> w.delivered[i].token != w.delivered[k].token
  }

  ghost predicate DeliveryInv(w: World) {
    && (forall j :: j in w.stages ==> StageOk(w, j))
    && (forall j, k :: j in w.stages && k in w.stages && j != k && !w.stages[j].Free? && !w.stages[k].Free? ==>
          w.stages[j].token != w.stages[k].token)
    && AllOwn(w)
    && DeliveredOnce(w)
  }

  lemma DecideDelivers(w: World, s: Step)
    requires Inv(w) && DeliveryInv(w) && Decides(w, s)
    ensures DeliveryInv(Decide(w, s))
  {
    var v := Decide(w, s);
    assert TokensOk(w, w.rows[s.job]);
    forall j | j in v.stages ensures StageOk(v, j) {
      assert StageOk(w, j);
    }
  }

  lemma RegisterDelivers(w: World, s: Step)
    requires Inv(w) && DeliveryInv(w) && s.Register? && Disciplined(w, s)
    ensures DeliveryInv(HandlerStep(w, s))
  {
    var v := HandlerStep(w, s);
    forall j | j in v.stages ensures StageOk(v, j) {
      assert StageOk(w, j);
    }
  }

  lemma PollDelivers(w: World, s: Step)
    requires Inv(w) && DeliveryInv(w) && s.Poll? && Disciplined(w, s)
    ensures DeliveryInv(HandlerStep(w, s))
  {
    var v := HandlerStep(w, s);
    assert StageOk(w, s.job) && TokensOk(w, w.rows[s.job]) && RowInv(w.rows[s.job]);
    forall j | j in v.stages ensures StageOk(v, j) {
      assert StageOk(w, j);
    }
  }

  lemma EnterDelivers(w: World, s: Step)
    requires Inv(w) && DeliveryInv(w) && s.EnterWait? && Disciplined(w, s)
    ensures DeliveryInv(HandlerStep(w, s))
  {
    var v := HandlerStep(w, s);
    forall j | j in v.stages ensures StageOk(v, j) {
      assert StageOk(w, j);
    }
  }

  lemma OtherHandlerDelivers(w: World, s: Step)
    requires Inv(w) && DeliveryInv(w) && !s.Register? && !s.Poll? && !s.EnterWait? && Disciplined(w, s)
    ensures DeliveryInv(HandlerStep(w, s))
  {
    var v := HandlerStep(w, s);
    forall j | j in v.stages ensures StageOk(v, j) {
      assert StageOk(w, j);
    }
  }

  lemma AdminDelivers(w: World, s: Step)
    requires Inv(w) && DeliveryInv(w)
    ensures DeliveryInv(AdminStep(w, s))
  {
    var v := AdminStep(w, s);
    forall j | j in v.stages ensures StageOk(v, j) {
      assert StageOk(w, j) && RowInv(w.rows[j]);
    }
  }

  lemma RestDelivers(w: World, s: Step)
    requires Inv(w) && DeliveryInv(w) && (s.Arrive? || s.Claim? || s.Heartbeat?)
    ensures DeliveryInv(Next(w, s))
  {
    var v := Next(w, s);
    forall j | j in v.stages ensures StageOk(v, j) {
      assert j in w.stages ==> StageOk(w, j);
    }
  }

  lemma StepDelivers(w: World, s: Step)
    requires Inv(w) && DeliveryInv(w) && Disciplined(w, s)
    ensures DeliveryInv(Next(w, s))
  {
    if s.Arrive? || s.Claim? || s.Heartbeat? {
      RestDelivers(w, s);
    } else if Decides(w, s) {
      DecideDelivers(w, s);
    } else if ByOperator(s) {
      AdminDelivers(w, s);
    } else if s.Register? {
      RegisterDelivers(w, s);
    } else if s.Poll? {
      PollDelivers(w, s);
    } else if s.EnterWait? {
      EnterDelivers(w, s);
    } else {
      OtherHandlerDelivers(w, s);
    }
  }

  lemma {:induction false} RunDelivers(steps: seq<Step>)
    requires DisciplinedRun(steps)
    ensures Inv(Run(steps)) && DeliveryInv(Run(steps))
  {
    RunInv(steps);
    if steps != [] {
      var before := steps[..|steps|-1];
      forall i | 0 <= i < |before| ensures Disciplined(Run(before[..i]), before[i]) {
        assert before[..i] == steps[..i];
      }
      RunDelivers(before);
      StepDelivers(Run(before), steps[|steps|-1]);
    }
  }

  /** Payload delivery: in a disciplined run every payload a handler receives is that of
      the resume of the very token it waited on, including a resume that came before
      the wait began, and each token delivers at most once. */
  lemma PayloadDelivery(steps: seq<Step>)
    requires DisciplinedRun(steps)
    ensures AllOwn(Run(steps)) && Faithful(Run(steps)) && DeliveredOnce(Run(steps))
  {
    RunDelivers(steps);
    var w := Run(steps);
    forall i | 0 <= i < |w.delivered|
      ensures w.delivered[i].token in w.resumed && w.delivered[i].payload == w.resumed[w.delivered[i].token]
    {
      assert Sourced(w, w.delivered[i]) && Own(w.delivered[i]);
    }
  }

  /** Nor is a payload lost: while the attempt runs, a handler whose token was resumed
      gets its payload at the next poll. */
  lemma PayloadNotLost(steps: seq<Step>, j: JobId)
    requires DisciplinedRun(steps)
    requires var w := Run(steps);
             && j in w.stages && j in w.rows && w.rows[j].state.Running?
             && w.stages[j].Awaiting? && w.stages[j].token in w.resumed
    ensures var w := Run(steps);
            CheckState(w.rows[j], w.stages[j].token).0 == Resolved(w.resumed[w.stages[j].token])
  {
    RunDelivers(steps);
    var w := Run(steps);
    assert StageOk(w, j) && TokensOk(w, w.rows[j]);
  }

  // ---- Exactly when a delivery is right --------------------------------------------------

  /** The token of the last resume that succeeded on the job. */
  ghost function LastResumed(steps: seq<Step>, j: JobId): Option<Token> {
    if steps == [] then None
    else
      var before, s := steps[..|steps|-1], steps[|steps|-1];
      if s.Resume? && s.job == j && Decides(Run(before), s) then Some(s.token) else LastResumed(before, j)
  }

  /** A step drops a row's result, keeps it, or is the resume that wrote it. */
  lemma ResultChange(w: World, s: Step, j: JobId)
    requires j in Next(w, s).rows
    ensures var after := Next(w, s).rows[j].resultOf;
            || after.None?
            || (j in w.rows && after == w.rows[j].resultOf && !(s.Resume? && s.job == j && Decides(w, s)))
            || (s.Resume? && s.job == j && Decides(w, s) && after == Some(s.token))
  {
  }

  /** In every run, the result a row holds is that of the last resume on the job. */
  lemma {:induction false} ResultIsLast(steps: seq<Step>, j: JobId)
    requires j in Run(steps).rows && Run(steps).rows[j].resultOf.Some?
    ensures Run(steps).rows[j].resultOf == LastResumed(steps, j)
  {
    if steps != [] {
      var before, s := steps[..|steps|-1], steps[|steps|-1];
      ResultChange(Run(before), s, j);
      if !(s.Resume? && s.job == j && Decides(Run(before), s)) {
        ResultIsLast(before, j);
      }
    }
  }

  predicate Resolves(w: World, s: Step) {
    s.Poll? && s.job in w.rows && CheckState(w.rows[s.job], s.token).0.Resolved?
  }

  /** If the `i`-th step gets a payload, it polls for the token resumed last on the job. */
  ghost predicate InTurn(steps: seq<Step>, i: nat)
    requires i < |steps|
  {
    Resolves(Run(steps[..i]), steps[i]) ==> LastResumed(steps[..i], steps[i].job) == Some(steps[i].token)
  }

  ghost predicate PollsInTurn(steps: seq<Step>) {
    forall i: nat :: i < |steps| ==> InTurn(steps, i)
  }

  lemma DeliveredChange(w: World, s: Step)
    ensures Next(w, s).delivered ==
            w.delivered + if Resolves(w, s)
                          then [Delivery(s.token, CheckState(w.rows[s.job], s.token).0.payload, w.rows[s.job].resultOf)]
                          else []
  {
  }

  lemma EarlierTurn(steps: seq<Step>, i: nat)
    requires i < |steps| - 1
    ensures InTurn(steps[..|steps|-1], i) <==> InTurn(steps, i)
  {
    assert steps[..|steps|-1][..i] == steps[..i];
  }

  lemma TurnsLonger(steps: seq<Step>)
    requires steps != []
    ensures PollsInTurn(steps) <==> PollsInTurn(steps[..|steps|-1]) && InTurn(steps, |steps| - 1)
  {
    var before := steps[..|steps|-1];
    forall i: nat | i < |before| ensures InTurn(before, i) <==> InTurn(steps, i) {
      EarlierTurn(steps, i);
    }
  }

  lemma LastDelivery(steps: seq<Step>)
    requires steps != []
    ensures AllOwn(Run(steps)) <==> AllOwn(Run(steps[..|steps|-1])) && InTurn(steps, |steps| - 1)
  {
    var before, s := steps[..|steps|-1], steps[|steps|-1];
    var w := Run(before);
    DeliveredChange(w, s);
    if Resolves(w, s) {
      RunInv(before);
      assert RowInv(w.rows[s.job]);
      ResultIsLast(before, s.job);
      DeliveredOneMore(w, Run(steps));
    }
  }

  /** Over every run, disciplined or not: all deliveries are right if and only if every
      poll that gets a payload asks for the token that was resumed last on its job. */
  lemma {:induction false} DeliveryIff(steps: seq<Step>)
    ensures AllOwn(Run(steps)) <==> PollsInTurn(steps)
  {
    if steps != [] {
      DeliveryIff(steps[..|steps|-1]);
      TurnsLonger(steps);
      LastDelivery(steps);
    }
  }

  lemma DeliveredOneMore(w: World, v: World)
    requires |v.delivered| == |w.delivered| + 1 && v.delivered[..|w.delivered|] == w.delivered
    ensures AllOwn(v) <==> AllOwn(w) && Own(v.delivered[|w.delivered|])
  {
    assert forall i :: 0 <= i < |w.delivered| ==> v.delivered[i] == w.delivered[i];
  }

  /** While the handler of a disciplined run waits on the resumed `u`, a poll for any token
      takes the payload of `u`: it is the right one if and only if it polls for `u`, and
      afterwards a poll for `u` gets nothing. */
  lemma PollTakesPayload(steps: seq<Step>, j: JobId, t: Token)
    requires DisciplinedRun(steps)
    requires var w := Run(steps);
             && j in w.stages && j in w.rows && w.rows[j].state.Running?
             && w.stages[j].Awaiting? && w.stages[j].token in w.resumed
    ensures var w := Run(steps);
            var u := w.stages[j].token;
            var v := Next(w, Poll(j, t));
            && v.delivered == w.delivered + [Delivery(t, w.resumed[u], Some(u))]
            && (Own(v.delivered[|w.delivered|]) <==> t == u)
            && !CheckState(v.rows[j], u).0.Resolved?
  {
    RunDelivers(steps);
    var w := Run(steps);
    assert StageOk(w, j) && TokensOk(w, w.rows[j]);
    DeliveredChange(w, Poll(j, t));
  }

  // ---- Runs without the discipline ---------------------------------------------------------

  ghost predicate SameOutcomes(w: World, v: World) {
    v.decided == w.decided && v.resumed == w.resumed && v.delivered == w.delivered
  }

  /** An attempt that registers a callback. */
  lemma Attempt(before: seq<Step>, j: JobId, t: Token) returns (steps: seq<Step>)
    requires j in Run(before).rows && Run(before).rows[j].state.Available? && t !in Run(before).issued
    ensures j in Run(steps).rows && Run(steps).rows[j].state.Running? && Run(steps).rows[j].callback == Some(t)
    ensures SameOutcomes(Run(before), Run(steps)) && Run(steps).issued == Run(before).issued + {t}
  {
    RunStep(before, Claim(j));
    steps := before + [Claim(j)];
    var register := Register(j, Run(steps).rows[j].runLease, t, 0, NoConfig);
    RunStep(steps, register);
    steps := steps + [register];
  }

  lemma CancelAndRetry(before: seq<Step>, j: JobId) returns (steps: seq<Step>)
    requires j in Run(before).rows && Run(before).rows[j].state.Running?
    ensures j in Run(steps).rows && Run(steps).rows[j].state.Available?
    ensures SameOutcomes(Run(before), Run(steps)) && Run(steps).issued == Run(before).issued
  {
    RunStep(before, Cancel(j));
    RunStep(before + [Cancel(j)], Retry(j));
    steps := before + [Cancel(j)] + [Retry(j)];
  }

  lemma Arrived(j: JobId) returns (steps: seq<Step>)
    ensures j in Run(steps).rows && Run(steps).rows[j].state.Available?
    ensures SameOutcomes(NoJobs, Run(steps)) && Run(steps).issued == {}
  {
    RunStep([], Arrive(j, Available, "", ""));
    steps := [] + [Arrive(j, Available, "", "")];
  }

  /** Token 2 holds the row; its payload comes, and a poll for token 1 takes it. */
  lemma PollTakesOther(before: seq<Step>, j: JobId, payload: Payload) returns (steps: seq<Step>)
    requires j in Run(before).rows && Run(before).rows[j].state.Running? && Run(before).rows[j].callback == Some(2)
    requires SameOutcomes(NoJobs, Run(before))
    ensures Run(steps).delivered == [Delivery(1, payload, Some(2))] && Run(steps).resumed == map[2 := payload]
    ensures !AllOwn(Run(steps)) && !Faithful(Run(steps))
  {
    var resume := Resume(j, 2, None, Some(payload));
    RunStep(before, resume);
    steps := before + [resume];
    var enter := EnterWait(j, Run(steps).rows[j].runLease, 1);
    RunStep(steps, enter);
    steps := steps + [enter];
    RunStep(steps, Poll(j, 1));
    steps := steps + [Poll(j, 1)];
    assert Run(steps).delivered[0].token == 1;
  }

  /** The poll names no lease: without the discipline, the handler of an attempt that
      was cancelled and retried, still polling for its own token 1, takes the payload
      meant for token 2 of the second attempt. */
  lemma StaleHandlerTakesPayload(j: JobId, payload: Payload) returns (steps: seq<Step>)
    ensures Run(steps).delivered == [Delivery(1, payload, Some(2))] && Run(steps).resumed == map[2 := payload]
    ensures !AllOwn(Run(steps)) && !Faithful(Run(steps))
  {
    steps := Arrived(j);
    steps := Attempt(steps, j, 1);
    steps := CancelAndRetry(steps, j);
    steps := Attempt(steps, j, 2);
    steps := PollTakesOther(steps, j, payload);
  }

  lemma RegisterAgain(before: seq<Step>, j: JobId, t: Token) returns (steps: seq<Step>)
    requires j in Run(before).rows && Run(before).rows[j].state.Running? && t !in Run(before).issued
    ensures j in Run(steps).rows && Run(steps).rows[j].state.Running? && Run(steps).rows[j].callback == Some(t)
    ensures SameOutcomes(Run(before), Run(steps))
  {
    var register := Register(j, Run(before).rows[j].runLease, t, 0, NoConfig);
    RunStep(before, register);
    steps := before + [register];
  }

  /** Within one attempt, a handler that registers token 2 before waiting on token 1 gets
      the payload of 2 for 1. */
  lemma SecondRegistrationTakesPayload(j: JobId, payload: Payload) returns (steps: seq<Step>)
    ensures Run(steps).delivered == [Delivery(1, payload, Some(2))] && Run(steps).resumed == map[2 := payload]
    ensures !AllOwn(Run(steps)) && !Faithful(Run(steps))
  {
    steps := Arrived(j);
    steps := Attempt(steps, j, 1);
    steps := RegisterAgain(steps, j, 2);
    steps := PollTakesOther(steps, j, payload);
  }
}
