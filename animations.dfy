/**
 * Animation requests, the direction mapping onto a tween and the value each
 * frame publishes.
 */
module Animations {

  datatype Easing = EaseIn | EaseOut | EaseInOut

  /**
   * An animation kind with its easing and its duration in whole milliseconds.
   * Both kinds share the `time` destructor, which is `Animation::time`.
   */
  datatype Animation = Linear(easing: Easing, time: nat) | Bounce(easing: Easing, time: nat)

  datatype Direction = Forward | Backwards

  /** The two curves of the external easing library that the scheduler calls. */
  datatype Curve = LinearEaseIn | LinearEaseInOut

  /**
   * An easing curve `ease(curve, t, b, c, d)`: the value at frame `t` of a
   * tween that starts at `b`, moves by `c` and lasts `d` milliseconds. The
   * library's formulas are not modelled; a transition is given one.
   */
  type Ease = (Curve, nat, real, real, nat) -> real

  /** A tween: where the value starts and by how much it moves. */
  datatype Tween = Tween(origin: real, delta: real)

  /** The endpoint a run in direction `dir` moves towards. */
  function Target(dir: Direction, startValue: real, endValue: real): real {
    match dir
    case Forward => endValue
    case Backwards => startValue
  }

  /** Forward runs from the start to the end endpoint, Backwards the other way round. */
  function TweenFor(dir: Direction, startValue: real, endValue: real): (t: Tween)
    ensures dir == Forward ==> t.origin == startValue
    ensures dir == Backwards ==> t.origin == endValue
    ensures t.origin + t.delta == Target(dir, startValue, endValue)
  {
    match dir
    case Forward => Tween(startValue, endValue - startValue)
    case Backwards => Tween(endValue, startValue - endValue)
  }

  /** Running backwards is running forwards between swapped endpoints. */
  lemma BackwardsMirrorsForward(startValue: real, endValue: real)
    ensures TweenFor(Backwards, startValue, endValue) == TweenFor(Forward, endValue, startValue)
  {
  }

  /**
   * The curve each easing selects. `EaseOut` selects the ease-in-out curve,
   * as the code dispatches it.
   */
  function CurveOf(e: Easing): (c: Curve)
    ensures c == LinearEaseIn <==> e == EaseIn
  {
    match e
    case EaseIn => LinearEaseIn
    case EaseInOut => LinearEaseInOut
    case EaseOut => LinearEaseInOut
  }

  /** The endpoints and the easing curve a transition is built with. */
  datatype Config = Config(startValue: real, endValue: real, ease: Ease)

  /**
   * The value published at frame `frame` of a run of `animation` in direction
   * `dir`, given the value `prev` before the frame. A bounce publishes nothing.
   */
  function Published(cfg: Config, animation: Animation, dir: Direction, frame: nat, prev: real): (v: real)
    ensures animation.Bounce? ==> v == prev
    ensures animation.Linear? ==>
      var t := TweenFor(dir, cfg.startValue, cfg.endValue);
      v == cfg.ease(CurveOf(animation.easing), frame, t.origin, t.delta, animation.time)
  {
    match animation
    case Bounce(_, _) => prev
    case Linear(easing, time) =>
      var t := TweenFor(dir, cfg.startValue, cfg.endValue);
      cfg.ease(CurveOf(easing), frame, t.origin, t.delta, time)
  }

  /** An ease-out run publishes the same values as the ease-in-out run of the same length. */
  lemma EaseOutPublishesAsEaseInOut(cfg: Config, time: nat, dir: Direction, frame: nat, prev: real)
    ensures Published(cfg, Linear(EaseOut, time), dir, frame, prev)
         == Published(cfg, Linear(EaseInOut, time), dir, frame, prev)
  {
  }

  /**
   * The number of frames a run that is never superseded lasts: the frame
   * counter starts at 0, goes up by one per tick, and the run stops at the
   * first frame that has reached the duration.
   */
  function RunLength(time: nat): (n: nat)
    ensures 1 <= n && time <= n
    ensures n == 1 || n - 1 < time
  {
    if time == 0 then 1 else time
  }

  /**
   * The boundary law of an easing curve: at the last frame of a run of at
   * least one millisecond it has travelled the whole delta.
   */
  ghost predicate ReachesTarget(ease: Ease) {
    forall c, b, d, time :: time >= 1 ==> ease(c, time, b, d, time) == b + d
  }

  /**
   * With a curve that obeys the boundary law, the last frame of a linear run
   * of at least one millisecond publishes the endpoint the run moves towards.
   */
  lemma LastFrameReachesTarget(cfg: Config, e: Easing, time: nat, dir: Direction, prev: real)
    requires ReachesTarget(cfg.ease) && time >= 1
    ensures Published(cfg, Linear(e, time), dir, RunLength(time), prev)
         == Target(dir, cfg.startValue, cfg.endValue)
  {
  }
}
