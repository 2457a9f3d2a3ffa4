/**
 * What happens when a caller submits a request while the scheduler is in the
 * middle of a run. A submission can only come in while the scheduler waits for
 * a tick, that is between `Check` and `Tick`.
 */
module Scenarios {
  import opened Options
  import opened Animations
  import opened Scheduling

  /**
   * A request submitted while a tokened run waits for a tick that is not its
   * last supersedes that run: the tick still publishes, and the check right
   * after it stops the run, clears the captured token and keeps the new one
   * as the latest.
   */
  lemma SubmissionMidRunSupersedes(cfg: Config, s: Scheduler, req: Request)
    requires Inv(s) && s.stage.AwaitingTick? && s.running.Some?
    requires s.frame + 1 < s.stage.req.animation.time
    ensures var u := Tick(cfg, Submit(s, req));
      var v := Check(u);
      u.stage.Checking? && v.stage == AwaitingRequest
      && v.running == None && v.current == Some(s.nextToken)
      && v.value == u.value && v.redraws == u.redraws && v.queue == s.queue + [req]
  {
  }

  /**
   * A request submitted while a tokened run waits for its last tick is lost:
   * the run ends superseded and keeps its stale token, so when that request
   * is dequeued its first check aborts it before it publishes anything, and
   * its token stays the latest.
   */
  lemma SubmissionOnLastTickIsDropped(cfg: Config, s: Scheduler, req: Request)
    requires Inv(s) && s.stage.AwaitingTick? && s.running.Some? && s.queue == []
    requires s.frame + 1 >= s.stage.req.animation.time
    ensures var u := Tick(cfg, Submit(s, req));
      var w := Check(Dequeue(u));
      u.stage == AwaitingRequest && u.running == s.running && u.current == Some(s.nextToken)
      && w.stage == AwaitingRequest && w.queue == [] && w.running == None
      && w.current == Some(s.nextToken) && w.value == u.value && w.redraws == u.redraws
  {
  }

  /**
   * When a request is already queued, a submission during the last tick of a
   * tokened run loses the queued request instead: its first check aborts it
   * and clears the stale token, and the submitted request then runs with its
   * own token.
   */
  lemma SubmissionOnLastTickAbortsQueued(cfg: Config, s: Scheduler, x: Request, req: Request)
    requires Inv(s) && s.stage.AwaitingTick? && s.running.Some? && s.queue == [x]
    requires s.frame + 1 >= s.stage.req.animation.time
    ensures var u := Tick(cfg, Submit(s, req));
      u.stage == AwaitingRequest && u.queue == [x, req]
      && var w := Check(Dequeue(u));
         w.stage == AwaitingRequest && w.queue == [req] && w.running == None
         && w.value == u.value && w.redraws == u.redraws
         && var y := Check(Dequeue(w));
            y.stage == AwaitingTick(req) && y.running == Some(s.nextToken)
  {
  }

  /**
   * A run that captured no token (its request was queued behind a run that
   * ended and cleared the latest token) is not superseded by a new
   * submission: it captures the new token and carries on.
   */
  lemma UntokenedRunIgnoresSubmission(cfg: Config, s: Scheduler, req: Request)
    requires s.stage.AwaitingTick? && s.running.None?
    requires s.frame + 1 < s.stage.req.animation.time
    ensures var v := Check(Tick(cfg, Submit(s, req)));
      v.stage == AwaitingTick(s.stage.req) && v.running == Some(s.nextToken)
  {
  }

  /**
   * A run that captured no token takes the token of the first submission at
   * its next check, so a second submission during a later tick stops it.
   */
  lemma UntokenedRunStoppedBySecondSubmission(cfg: Config, s: Scheduler, r1: Request, r2: Request)
    requires s.stage.AwaitingTick? && s.running.None?
    requires s.frame + 2 < s.stage.req.animation.time
    ensures var v := Check(Tick(cfg, Submit(s, r1)));
      v.stage.AwaitingTick?
      && var w := Check(Tick(cfg, Submit(v, r2)));
         w.stage == AwaitingRequest && w.running == None && w.current == Some(s.nextToken + 1)
  {
  }

  /**
   * Two requests submitted back to back from idle: the first captures the
   * second's token, ends as the latest and clears it, so the second runs with
   * no token at all.
   */
  lemma {:induction false} QueuedRequestRunsUntokened(cfg: Config, v: real, a: Request, b: Request)
    ensures var s := Dequeue(Submit(Submit(Initial(v), a), b));
      var t := Cycles(cfg, s, TicksLeft(s));
      t.stage == AwaitingRequest && t.queue == [b] && t.current == None
      && var w := Check(Dequeue(t));
         w.stage == AwaitingTick(b) && w.running == None
  {
    var s := Dequeue(Submit(Submit(Initial(v), a), b));
    assert s.stage == Checking(a) && s.running == None && s.queue == [b] && Inv(s);
    RunCompletes(cfg, s);
  }

  /**
   * Play forward, then backwards during the forward run's second tick: the
   * forward run is stopped at its next check, the backward run then runs to
   * its end, and with a curve that obeys the boundary law the value settles
   * on the start endpoint.
   */
  lemma {:induction false} ReverseOneTickLater(cfg: Config, a: Animation, e: Easing, time: nat)
    requires ReachesTarget(cfg.ease) && a.time >= 3 && time >= 1
    ensures var s1 := Submit(Initial(cfg.startValue), Request(a, Forward));
      var s2 := Check(Cycle(cfg, Dequeue(s1)));
      var s3 := Tick(cfg, Submit(s2, Request(Linear(e, time), Backwards)));
      var s4 := Dequeue(Check(s3));
      var s5 := Cycles(cfg, s4, TicksLeft(s4));
      s5.stage == AwaitingRequest && s5.queue == [] && s5.current == None
      && s5.value == cfg.startValue
  {
    var b := Request(Linear(e, time), Backwards);
    var s1 := Submit(Initial(cfg.startValue), Request(a, Forward));
    var s2 := Check(Cycle(cfg, Dequeue(s1)));
    assert s2.running == Some(0) && s2.frame == 1 && s2.stage == AwaitingTick(Request(a, Forward)) && Inv(s2);
    var s3 := Tick(cfg, Submit(s2, b));
    SubmissionMidRunSupersedes(cfg, s2, b);
    var s4 := Dequeue(Check(s3));
    assert s4.stage == Checking(b) && s4.running == None && s4.queue == [] && s4.frame == 0;
    RunCompletes(cfg, s4);
    LastFrameReachesTarget(cfg, e, time, Backwards, s4.value);
  }
}
