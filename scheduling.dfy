/**
 * The run-control state of a transition as a value, and one function per
 * step the scheduler task or a caller takes. The steps happen one at a time:
 * everything runs on one thread, and a caller's submission can only come in
 * while the scheduler waits for a request or for its next tick.
 */
module Scheduling {
  import opened Options
  import opened Animations

  /** A run token; tokens are minted in increasing order, so each one is fresh. */
  type Token = nat

  /** A queued request: what to animate and in which direction. */
  datatype Request = Request(animation: Animation, direction: Direction)

  /**
   * Where the scheduler task is: waiting for a request, about to run the
   * supersession check of its current run, or waiting for that run's next tick.
   */
  datatype Stage = AwaitingRequest | Checking(req: Request) | AwaitingTick(req: Request)

  /**
   * `current` is the latest token (`current_id`), `running` the token the
   * scheduler captured (`running_id`), `frame` the frame counter of the run,
   * `value` the published value and `redraws` the number of redraws asked for.
   */
  datatype Scheduler = Scheduler(
    queue: seq<Request>,
    current: Option<Token>,
    running: Option<Token>,
    frame: nat,
    value: real,
    redraws: nat,
    nextToken: Token,
    stage: Stage)

  /** The state when the hook is created: the value holds the start endpoint. */
  function Initial(startValue: real): (s: Scheduler)
    ensures s.value == startValue && s.queue == [] && s.stage == AwaitingRequest
    ensures s.current == None && s.running == None && s.redraws == 0
    ensures Inv(s)
  {
    Scheduler([], None, None, 0, startValue, 0, 0, AwaitingRequest)
  }

  /**
   * What holds in every reachable state: every token seen was minted before
   * `nextToken`; a run in progress has not reached its last frame; and while
   * no tick has happened in the current request, a captured token is stale.
   */
  ghost predicate Inv(s: Scheduler) {
    (s.current.Some? ==> s.current.value < s.nextToken)
    && (s.running.Some? ==> s.running.value < s.nextToken)
    && (!s.stage.AwaitingRequest? ==> s.frame < RunLength(s.stage.req.animation.time))
    && (s.running.Some? && (s.stage.AwaitingRequest? || (s.stage.Checking? && s.frame == 0)) ==>
          s.running != s.current)
  }

  /** The supersession test: a token was captured and it is no longer the latest. */
  predicate Supersedes(s: Scheduler) {
    s.running.Some? && s.running != s.current
  }

  /**
   * `forward` or `backwards`: mint a fresh token, make it the latest and queue
   * the request. Nothing else changes.
   */
  function Submit(s: Scheduler, req: Request): (t: Scheduler)
    ensures t.current == Some(s.nextToken) && t.nextToken == s.nextToken + 1
    ensures t.queue == s.queue + [req]
    ensures t.(current := s.current, nextToken := s.nextToken, queue := s.queue) == s
    ensures Inv(s) ==> Inv(t) && t.current != s.current && t.current != s.running
  {
    s.(current := Some(s.nextToken), nextToken := s.nextToken + 1, queue := s.queue + [req])
  }

  /**
   * The scheduler takes the oldest request and starts its frame counter at 0;
   * with an empty queue it keeps waiting and nothing changes.
   */
  function Dequeue(s: Scheduler): (t: Scheduler)
    requires s.stage.AwaitingRequest?
    ensures s.queue == [] ==> t == s
    ensures s.queue != [] ==>
      t.stage == Checking(s.queue[0]) && t.frame == 0 && s.queue == [s.queue[0]] + t.queue
      && t.(queue := s.queue, stage := s.stage, frame := s.frame) == s
    ensures Inv(s) ==> Inv(t)
  {
    if s.queue == [] then s
    else s.(queue := s.queue[1..], stage := Checking(s.queue[0]), frame := 0)
  }

  /**
   * The top of each iteration of a run: a superseded run stops without
   * touching the value, the redraw count or the latest token and clears the
   * captured token; otherwise the latest token is captured and the run waits
   * for its tick.
   */
  function Check(s: Scheduler): (t: Scheduler)
    requires s.stage.Checking?
    ensures t.stage.AwaitingRequest? <==> Supersedes(s)
    ensures Supersedes(s) ==> t == s.(running := None, stage := AwaitingRequest)
    ensures !Supersedes(s) ==> t == s.(running := s.current, stage := AwaitingTick(s.stage.req))
    ensures Inv(s) ==> Inv(t)
  {
    if s.running.Some? && s.running != s.current then
      s.(running := None, stage := AwaitingRequest)
    else
      s.(running := s.current, stage := AwaitingTick(s.stage.req))
  }

  /**
   * After a tick: count the frame, publish its value (a linear run publishes
   * and asks for one redraw, a bounce does neither), and stop once the frame
   * has reached the duration. A run that stops while its token is still the
   * latest clears both tokens; one that stops superseded leaves both as they are.
   */
  function Tick(cfg: Config, s: Scheduler): (t: Scheduler)
    requires s.stage.AwaitingTick?
    ensures t.frame == s.frame + 1
    ensures t.queue == s.queue && t.nextToken == s.nextToken
    ensures t.value == Published(cfg, s.stage.req.animation, s.stage.req.direction, t.frame, s.value)
    ensures t.redraws == s.redraws + (if s.stage.req.animation.Linear? then 1 else 0)
    ensures t.stage.AwaitingRequest? <==> t.frame >= s.stage.req.animation.time
    ensures !t.stage.AwaitingRequest? ==>
      t.stage == Checking(s.stage.req) && t.current == s.current && t.running == s.running
    ensures t.stage.AwaitingRequest? && s.running == s.current ==> t.current == None && t.running == None
    ensures t.stage.AwaitingRequest? && s.running != s.current ==>
      t.current == s.current && t.running == s.running
    ensures Inv(s) ==> Inv(t)
  {
    var req := s.stage.req;
    var frame := s.frame + 1;
    var published := s.(frame := frame,
      value := Published(cfg, req.animation, req.direction, frame, s.value),
      redraws := if req.animation.Linear? then s.redraws + 1 else s.redraws);
    if frame >= req.animation.time then
      if s.running == s.current then
        published.(current := None, running := None, stage := AwaitingRequest)
      else
        published.(stage := AwaitingRequest)
    else
      published.(stage := Checking(req))
  }

  /** One iteration of a run's loop when no request comes in during its tick. */
  function Cycle(cfg: Config, s: Scheduler): (t: Scheduler)
    requires s.stage.Checking?
    ensures Inv(s) ==> Inv(t)
  {
    var c := Check(s);
    if c.stage.AwaitingTick? then Tick(cfg, c) else c
  }

  /** Up to `k` iterations of a run's loop, with no request coming in. */
  function Cycles(cfg: Config, s: Scheduler, k: nat): Scheduler
    decreases k
  {
    if k == 0 || !s.stage.Checking? then s else Cycles(cfg, Cycle(cfg, s), k - 1)
  }

  /** The number of ticks a run has left from `s`. */
  function TicksLeft(s: Scheduler): nat
    requires s.stage.Checking?
  {
    if s.frame < RunLength(s.stage.req.animation.time)
    then RunLength(s.stage.req.animation.time) - s.frame else 0
  }

  /**
   * A run that is not superseded and receives no request keeps going for
   * every one of its remaining ticks but the last.
   */
  lemma {:induction false} RunKeepsGoing(cfg: Config, s: Scheduler, k: nat)
    requires Inv(s) && s.stage.Checking? && !Supersedes(s)
    requires k < TicksLeft(s)
    ensures var t := Cycles(cfg, s, k);
      t.stage == s.stage && t.frame == s.frame + k && !Supersedes(t) && Inv(t)
    decreases k
  {
    if k > 0 {
      var c := Cycle(cfg, s);
      assert c.stage == s.stage && c.frame == s.frame + 1 && c.running == c.current;
      RunKeepsGoing(cfg, c, k - 1);
    }
  }

  /**
   * A run that is not superseded and receives no request ends after exactly
   * its remaining ticks: the frame counter ends at the run length, the latest
   * token is cleared, a linear run has published the value of its last frame
   * and asked for one redraw per tick, and a bounce has published nothing.
   */
  lemma {:induction false} RunCompletes(cfg: Config, s: Scheduler)
    requires Inv(s) && s.stage.Checking? && !Supersedes(s)
    ensures var req := s.stage.req;
      var n := TicksLeft(s);
      var t := Cycles(cfg, s, n);
      n >= 1
      && t.stage == AwaitingRequest && t.frame == RunLength(req.animation.time)
      && t.current == None && t.running == None
      && t.queue == s.queue && t.nextToken == s.nextToken
      && t.redraws == s.redraws + (if req.animation.Linear? then n else 0)
      && t.value == Published(cfg, req.animation, req.direction, t.frame, s.value)
    decreases TicksLeft(s)
  {
    var req := s.stage.req;
    var c := Check(s);
    var u := Tick(cfg, c);
    assert Cycle(cfg, s) == u;
    if u.stage.Checking? {
      assert u.running == u.current && Inv(u);
      RunCompletes(cfg, u);
      assert Cycles(cfg, s, TicksLeft(s)) == Cycles(cfg, u, TicksLeft(u));
    } else {
      assert Cycles(cfg, u, 0) == u;
    }
  }

  /**
   * The value left by playing `reqs` in order, each to its last frame,
   * starting from the value `v`.
   */
  function PlayedValue(cfg: Config, reqs: seq<Request>, v: real): real
    decreases |reqs|
  {
    if reqs == [] then v
    else
      var last := reqs[|reqs| - 1];
      Published(cfg, last.animation, last.direction, RunLength(last.animation.time),
                PlayedValue(cfg, reqs[..|reqs| - 1], v))
  }

  /** The redraws asked for by playing `reqs` in order, each to its last frame. */
  function PlayedRedraws(reqs: seq<Request>): nat
    decreases |reqs|
  {
    if reqs == [] then 0
    else
      var last := reqs[|reqs| - 1];
      PlayedRedraws(reqs[..|reqs| - 1])
        + (if last.animation.Linear? then RunLength(last.animation.time) else 0)
  }

  /** Playing one more request to its end extends the played value and redraws by that run's. */
  lemma PlayedAppend(cfg: Config, reqs: seq<Request>, r: Request, v: real)
    ensures PlayedValue(cfg, reqs + [r], v)
         == Published(cfg, r.animation, r.direction, RunLength(r.animation.time), PlayedValue(cfg, reqs, v))
    ensures PlayedRedraws(reqs + [r])
         == PlayedRedraws(reqs) + (if r.animation.Linear? then RunLength(r.animation.time) else 0)
  {
    assert (reqs + [r])[..|reqs|] == reqs;
  }

  /**
   * In a reachable state the first check of a freshly dequeued request aborts
   * it exactly when the scheduler still holds a captured token.
   */
  lemma FirstCheckAbortsOnStaleToken(s: Scheduler)
    requires Inv(s) && s.stage.AwaitingRequest? && s.queue != []
    ensures Supersedes(Dequeue(s)) <==> s.running.Some?
  {
  }
}
