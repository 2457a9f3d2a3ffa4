/**
 * The transition handle together with its scheduler task, as one object whose
 * fields the handle's methods and the scheduler's steps update in place.
 */
module Transitions {
  import opened Options
  import opened Phases
  import opened Animations
  import opened Scheduling

  class Transition {
    /** The endpoints derived from the phases, and the easing curve. */
    const config: Config

    /** The request queue, drained in order by the scheduler task. */
    var queue: seq<Request>
    /** The latest token. */
    var currentId: Option<Token>
    /** The token the scheduler captured for its current run. */
    var runningId: Option<Token>
    /** The frame counter of the current run. */
    var frame: nat
    /** The shared value cell. */
    var value: real
    /** How many redraws the scheduler has asked for. */
    var redraws: nat
    /** The next token to mint. */
    var nextToken: Token
    /** Where the scheduler task is. */
    var stage: Stage

    function State(): Scheduler
      reads this
    {
      Scheduler(queue, currentId, runningId, frame, value, redraws, nextToken, stage)
    }

    ghost predicate Valid()
      reads this
    {
      Inv(State())
    }

    /** Derive the endpoints from the phases and seed the value cell with the start. */
    constructor (phases: seq<Phase>, ease: Ease)
      ensures config == Config(StartValue(phases), EndValue(phases), ease)
      ensures State() == Initial(StartValue(phases))
      ensures Valid()
    {
      config := Config(StartValue(phases), EndValue(phases), ease);
      queue := [];
      currentId := None;
      runningId := None;
      frame := 0;
      value := StartValue(phases);
      redraws := 0;
      nextToken := 0;
      stage := AwaitingRequest;
    }

    /** The last published value; nothing changes. */
    method Read() returns (v: real)
      ensures v == value
    {
      v := value;
    }

    method Forward(animation: Animation)
      requires Valid()
      modifies this
      ensures Valid()
      ensures State() == Submit(old(State()), Request(animation, Direction.Forward))
    {
      Send(Request(animation, Direction.Forward));
    }

    method Backwards(animation: Animation)
      requires Valid()
      modifies this
      ensures Valid()
      ensures State() == Submit(old(State()), Request(animation, Direction.Backwards))
    {
      Send(Request(animation, Direction.Backwards));
    }

    /** Mint a fresh token, make it the latest and queue the request. */
    method Send(req: Request)
      requires Valid()
      modifies this
      ensures Valid()
      ensures currentId == Some(old(nextToken)) && queue == old(queue) + [req]
      ensures value == old(value) && runningId == old(runningId) && frame == old(frame)
      ensures State() == Submit(old(State()), req)
    {
      currentId := Some(nextToken);
      nextToken := nextToken + 1;
      queue := queue + [req];
    }

    /**
     * Wait for a request: take the oldest one and reset the frame counter, or
     * report that there is none and change nothing.
     */
    method Dequeue() returns (received: bool)
      requires Valid() && stage.AwaitingRequest?
      modifies this
      ensures Valid()
      ensures received == (old(queue) != [])
      ensures received ==> stage == Checking(old(queue)[0]) && queue == old(queue)[1..] && frame == 0
      ensures State() == Scheduling.Dequeue(old(State()))
    {
      if queue == [] {
        received := false;
      } else {
        received := true;
        stage := Checking(queue[0]);
        queue := queue[1..];
        frame := 0;
      }
    }

    /** The supersession check and token capture at the top of each iteration. */
    method BeginIteration() returns (aborted: bool)
      requires Valid() && stage.Checking?
      modifies this
      ensures Valid()
      ensures aborted == Supersedes(old(State()))
      ensures aborted ==> runningId == None && stage == AwaitingRequest
      ensures !aborted ==> runningId == currentId && stage == AwaitingTick(old(stage).req)
      ensures currentId == old(currentId) && value == old(value) && redraws == old(redraws)
      ensures State() == Check(old(State()))
    {
      if runningId.Some? && runningId != currentId {
        runningId := None;
        stage := AwaitingRequest;
        aborted := true;
        return;
      }
      runningId := currentId;
      stage := AwaitingTick(stage.req);
      aborted := false;
    }

    /** Count a tick, publish its frame and stop the run once it has lasted long enough. */
    method AfterTick() returns (finished: bool)
      requires Valid() && stage.AwaitingTick?
      modifies this
      ensures Valid()
      ensures finished == (frame >= old(stage).req.animation.time)
      ensures finished ==> stage == AwaitingRequest
      ensures State() == Tick(config, old(State()))
    {
      var req := stage.req;
      frame := frame + 1;
      match req.animation {
        case Bounce(_, _) =>
        case Linear(easing, time) =>
          var t := TweenFor(req.direction, config.startValue, config.endValue);
          value := config.ease(CurveOf(easing), frame, t.origin, t.delta, time);
          redraws := redraws + 1;
      }
      finished := frame >= req.animation.time;
      if finished {
        if runningId == currentId {
          currentId := None;
          runningId := None;
        }
        stage := AwaitingRequest;
      } else {
        stage := Checking(req);
      }
    }

    /**
     * Run the request just dequeued, with no request coming in meanwhile. It is
     * aborted at once when the scheduler still holds a captured token; otherwise
     * it lasts exactly its run length in ticks and leaves the handle idle.
     */
    method RunRequest() returns (ticks: nat, aborted: bool)
      requires Valid() && stage.Checking? && frame == 0
      modifies this
      ensures Valid() && stage == AwaitingRequest
      ensures aborted <==> old(runningId).Some?
      ensures aborted ==> ticks == 0 && State() == old(State()).(running := None, stage := AwaitingRequest)
      ensures !aborted ==>
        var req := old(stage).req;
        ticks == RunLength(req.animation.time) && frame == ticks
        && currentId == None && runningId == None
        && queue == old(queue) && nextToken == old(nextToken)
        && redraws == old(redraws) + (if req.animation.Linear? then ticks else 0)
        && value == Published(config, req.animation, req.direction, ticks, old(value))
    {
      var req := stage.req;
      ghost var s0 := State();
      ticks, aborted := 0, false;
      while stage.Checking?
        invariant Valid()
        invariant stage == Checking(req) || stage == AwaitingRequest
        invariant stage.Checking? ==> frame == ticks
        invariant queue == s0.queue && nextToken == s0.nextToken
        invariant ticks <= RunLength(req.animation.time)
        invariant aborted ==> ticks == 0 && State() == s0.(running := None, stage := AwaitingRequest)
        invariant Inv(s0)
        invariant aborted ==> s0.running.Some?
        invariant ticks > 0 ==> s0.running.None?
        invariant !aborted && ticks == 0 ==> State() == s0
        invariant !aborted && ticks > 0 ==>
          runningId == currentId
          && redraws == s0.redraws + (if req.animation.Linear? then ticks else 0)
          && value == Published(config, req.animation, req.direction, ticks, s0.value)
        invariant !aborted && stage.AwaitingRequest? ==>
          ticks == RunLength(req.animation.time) && frame == ticks && currentId == None
        decreases RunLength(req.animation.time) - ticks, if stage.Checking? then 1 else 0
      {
        aborted := BeginIteration();
        if !aborted {
          var finished := AfterTick();
          ticks := ticks + 1;
        }
      }
    }

    /**
     * One round of the outer loop with no request coming in meanwhile: take
     * the oldest request and run it, which aborts it at once exactly when the
     * scheduler holds a stale token and otherwise plays it to its last frame.
     */
    method ServeNext() returns (ghost req: Request, aborted: bool)
      requires Valid() && stage == AwaitingRequest && queue != []
      modifies this
      ensures Valid() && stage == AwaitingRequest
      ensures req == old(queue)[0] && queue == old(queue)[1..] && nextToken == old(nextToken)
      ensures runningId == None
      ensures aborted <==> old(runningId).Some?
      ensures aborted ==>
        currentId == old(currentId) && value == old(value) && redraws == old(redraws) && frame == 0
      ensures !aborted ==>
        currentId == None && frame == RunLength(req.animation.time)
        && redraws == old(redraws) + (if req.animation.Linear? then RunLength(req.animation.time) else 0)
        && value == Published(config, req.animation, req.direction, RunLength(req.animation.time), old(value))
    {
      req := queue[0];
      var received := Dequeue();
      var ticks;
      ticks, aborted := RunRequest();
    }

    /**
     * Drain the queue in order with no request coming in meanwhile. Every
     * request is taken exactly once, oldest first. Only the first one can be
     * aborted, and it is when the scheduler starts out holding a stale token;
     * every other one is played to its last frame.
     */
    method ServeQueue() returns (served: nat, ghost taken: seq<Request>)
      requires Valid() && stage.AwaitingRequest?
      modifies this
      ensures Valid() && stage == AwaitingRequest
      ensures taken == old(queue) && served == |taken|
      ensures queue == [] && nextToken == old(nextToken)
      ensures served > 0 ==> runningId == None
      ensures served == 0 ==> State() == old(State())
      ensures var skipped := if served > 0 && old(runningId).Some? then 1 else 0;
        skipped <= served
        && redraws == old(redraws) + PlayedRedraws(taken[skipped..])
        && value == PlayedValue(config, taken[skipped..], old(value))
        && (served == skipped ==> currentId == old(currentId))
        && (served > skipped ==>
              currentId == None && frame == RunLength(taken[served - 1].animation.time))
    {
      ghost var q0 := queue;
      ghost var skipped := if q0 != [] && runningId.Some? then 1 else 0;
      served, taken := 0, [];
      while queue != []
        invariant Valid() && stage == AwaitingRequest
        invariant served <= |q0| && queue == q0[served..] && taken == q0[..served]
        invariant nextToken == old(nextToken)
        invariant served > 0 ==> runningId == None
        invariant served == 0 ==> State() == old(State())
        invariant served == 0 ==> (skipped == 1 <==> q0 != [] && runningId.Some?)
        invariant served > 0 ==> skipped <= served
        invariant served > 0 && served == skipped ==>
          currentId == old(currentId) && value == old(value) && redraws == old(redraws)
        invariant served > skipped ==>
          currentId == None && frame == RunLength(q0[served - 1].animation.time)
        invariant served >= skipped ==>
          redraws == old(redraws) + PlayedRedraws(q0[skipped..served])
          && value == PlayedValue(config, q0[skipped..served], old(value))
        decreases |queue|
      {
        ghost var req;
        var aborted;
        req, aborted := ServeNext();
        if !aborted {
          assert q0[skipped..served + 1] == q0[skipped..served] + [req];
          PlayedAppend(config, q0[skipped..served], req, old(value));
        }
        taken := taken + [req];
        served := served + 1;
      }
      assert taken == q0;
    }
  }
}
