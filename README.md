# dioxus-animations: the transition core, modelled in Dafny

`use_transition` animates one scalar value between two endpoints. The
endpoints come from a list of phase declarations (`From(x)`, `To(x)`). A
caller plays the transition with `forward` or `backwards`; each call mints a
fresh run token, records it as the latest one and queues the request. A single
scheduler task drains the queue in order. For each request it ticks once per
millisecond, counts frames, publishes the eased value into a shared cell and
asks for a redraw. At the top of every iteration it checks whether the token it
captured is still the latest; if not, the run stops. This is cooperative
cancellation.

The model has six modules:

- `Options` (`options.dfy`): Rust's `Option`.
- `Phases` (`phases.dfy`): phase declarations and the `find_map` scans that
  derive `start_value` and `end_value`. The first declaration of each side
  wins, and a missing side defaults to 0.
- `Animations` (`animations.dfy`): easings, animation kinds, directions. It
  holds the direction mapping onto a tween (origin and delta), the easing
  dispatch, the value a frame publishes and the run length rule. The easing
  curve of the external `easer` crate is a function value `ease(curve, t, b, c,
  d)` that the transition is built with; it is not interpreted.
  `Animation::time` is the destructor `time` that both kinds share.
- `Scheduling` (`scheduling.dfy`): the run-control state as a value
  (`Scheduler`). It holds the queue, the latest token `current`, the captured
  token `running`, the frame counter, the value, the redraw count, the token
  counter and where the scheduler task is (`Stage`). There is one function per
  step:
  - `Submit`: `forward` or `backwards`.
  - `Dequeue`: `rx.next()`.
  - `Check`: the supersession check and the token capture.
  - `Tick`: increment, publish and the completion check.

  The module also holds the invariant `Inv` kept by every step, and the
  run-length lemmas.
- `Transitions` (`transitions.dfy`): the class `Transition`. Its fields are
  updated in place by the handle's methods (`Read`, `Forward`, `Backwards`) and
  by the scheduler's steps (`Dequeue`, `BeginIteration`, `AfterTick`). Each
  method's postcondition ties the new state to the matching `Scheduling`
  function of the old state. It also has the scheduler's two loops:
  `RunRequest` is the inner `loop` for one request and `ServeQueue` is the
  outer `while let`.
- `Scenarios` (`scenarios.dfy`): what a submission does when it arrives while
  the scheduler waits for a tick. Everything runs on one thread, so a
  submission can only come in at the two awaits, and steps can be modelled one
  after another.

The model keeps these behaviours of the code as written:

- `EaseOut` uses the ease-in-out curve.
- The scheduler captures whichever token is latest, not the token of the
  request it runs.
- A run that ends while superseded keeps its stale captured token. The next
  dequeued request is then aborted by its first check, before it publishes a
  frame. A request submitted while a tokened run waits for its last tick
  supersedes that run, so some request is lost:
  - with an empty queue, the submitted request itself is lost and its token
    stays the latest (`Scenarios.SubmissionOnLastTickIsDropped`);
  - with a request already queued, that queued request is lost instead, and
    the submitted one runs with its own token
    (`Scenarios.SubmissionOnLastTickAbortsQueued`).
- A request queued behind a run that ended as the latest one runs with no
  token at all (`Scenarios.QueuedRequestRunsUntokened`). The first later
  submission does not stop it: the run captures that submission's token at
  its next check (`Scenarios.UntokenedRunIgnoresSubmission`). A second
  submission during a later tick then stops it
  (`Scenarios.UntokenedRunStoppedBySecondSubmission`).

Behaviours of the code that are easy to miss:

- A run ends at its last frame whether or not it is still the latest.
- Only a linear run asks for a redraw. A bounce run asks for none.
- The first of several declarations of the same side wins.

## Model

| member | source | states |
|---|---|---|
| `Phases.FindEndpoint` | src/lib.rs:75-95 | the scan finds nothing exactly when no phase declares the side |
| `Phases.FirstDeclarationWins` | src/lib.rs:75-95 | the first `From` gives the start value and the first `To` the end value |
| `Phases.NoDeclarationMeansZero` | src/lib.rs:84 | without a declaration of a side its endpoint is 0 (`unwrap_or_default`) |
| `Phases.LaterDeclarationsIgnored` | src/lib.rs:75-95 | once a side is declared, further phases appended do not change its endpoint |
| `Animations.TweenFor` | src/lib.rs:127-134 | Forward starts at the start value, Backwards at the end value; origin plus delta is the endpoint the run moves towards |
| `Animations.BackwardsMirrorsForward` | src/lib.rs:127-134 | Backwards is Forward with the endpoints swapped |
| `Animations.CurveOf` | src/lib.rs:135-151 | only `EaseIn` selects the ease-in curve; `EaseOut` and `EaseInOut` both select ease-in-out |
| `Animations.EaseOutPublishesAsEaseInOut` | src/lib.rs:139-150 | an ease-out run publishes exactly what an ease-in-out run publishes |
| `Animations.Published` | src/lib.rs:123-153 | a bounce frame leaves the value as it was; a linear frame publishes the eased value of the direction's tween |
| `Animations.RunLength` | src/lib.rs:156-166 | the first frame count, from 1 up, that reaches the duration: at least 1 and at least the duration, and the frame before it had not reached it |
| `Animations.LastFrameReachesTarget` | src/lib.rs:125-151 | with a curve that reaches its target at the last frame, a linear run of at least 1 ms ends on the endpoint it moves towards |
| `Scheduling.Initial` | src/lib.rs:71-107 | before any request the value is the start value, the queue is empty, no token is latest or captured, and the invariant holds |
| `Scheduling.Submit` | src/lib.rs:54-63 | a fresh token becomes the latest, the request is appended to the queue, nothing else changes, and the new token differs from the old latest and the captured one |
| `Scheduling.Dequeue` | src/lib.rs:106-107 | takes the oldest request and starts its frame counter at 0; with an empty queue nothing changes |
| `Scheduling.Check` | src/lib.rs:110-116 | a captured token that is no longer the latest stops the run, clearing only the captured token; otherwise the latest token is captured |
| `Scheduling.Tick` | src/lib.rs:118-166 | the frame counter goes up by one, the frame is published (a redraw only for a linear run), the run ends once the frame reaches the duration, and both tokens are cleared exactly when the captured one is still the latest |
| `Scheduling.Cycle` | src/lib.rs:109-167 | one iteration of the run loop keeps the invariant |
| `Scheduling.RunKeepsGoing` | src/lib.rs:109-167 | an unsuperseded run with no new request is still running, one frame further per iteration, before its last tick |
| `Scheduling.RunCompletes` | src/lib.rs:107-166 | an unsuperseded run with no new request ends after exactly its remaining ticks, with the frame counter at the run length, both tokens cleared, one redraw per tick for a linear run and the last frame's value published |
| `Scheduling.FirstCheckAbortsOnStaleToken` | src/lib.rs:111-114 | a freshly dequeued request is aborted at its first check exactly when the scheduler still holds a captured token |
| `Transitions.Transition.constructor` | src/lib.rs:73-97 | endpoints come from the phases and the value cell starts at the start value |
| `Transitions.Transition.Read` | src/lib.rs:50-52 | returns the stored value and changes nothing |
| `Transitions.Transition.Forward` | src/lib.rs:54-57 | submits a Forward request |
| `Transitions.Transition.Backwards` | src/lib.rs:59-63 | submits a Backwards request |
| `Transitions.Transition.Send` | src/lib.rs:54-63 | the latest token becomes a fresh one and the request is appended; the value, captured token and frame counter are unchanged |
| `Transitions.Transition.Dequeue` | src/lib.rs:106-107 | takes the oldest request, or reports none and changes nothing |
| `Transitions.Transition.BeginIteration` | src/lib.rs:110-116 | aborts exactly when superseded, without touching the latest token, the value or the redraws; otherwise captures the latest token |
| `Transitions.Transition.AfterTick` | src/lib.rs:118-166 | one tick as `Scheduling.Tick`; the run ends exactly when the frame has reached the duration |
| `Transitions.Transition.RunRequest` | src/lib.rs:107-167 | with no new request a dequeued run aborts at once exactly when a stale token is held; otherwise it lasts exactly the run length in ticks, clears both tokens, redraws once per tick when linear and publishes its last frame |
| `Transitions.Transition.ServeNext` | src/lib.rs:106-167 | with no new request the oldest request is taken and aborted at once exactly when a stale token is held, otherwise played to its last frame with the latest token cleared; the captured token ends cleared |
| `Transitions.Transition.ServeQueue` | src/lib.rs:104-168 | with no new request the requests taken are exactly the old queue, oldest first; only the first can be aborted, exactly when a stale token is held; the value and redraws are those of playing every other request to its last frame in order; the captured token ends cleared, and the latest token is cleared if any request was played |
| `Scenarios.SubmissionMidRunSupersedes` | src/lib.rs:110-120 | a submission while a tokened run waits for a tick that is not its last stops that run at the next check, after that tick has published |
| `Scenarios.SubmissionOnLastTickIsDropped` | src/lib.rs:156-165 | with an empty queue, a submission while a tokened run waits for its last tick leaves the stale token; the submitted request is then aborted before publishing and its token stays the latest |
| `Scenarios.SubmissionOnLastTickAbortsQueued` | src/lib.rs:106-165 | with one request already queued, a submission during a tokened run's last tick gets that queued request aborted before publishing; the submitted request then runs with its own token |
| `Scenarios.UntokenedRunIgnoresSubmission` | src/lib.rs:111-116 | a run that captured no token is not stopped by a first submission and captures the new token |
| `Scenarios.UntokenedRunStoppedBySecondSubmission` | src/lib.rs:111-120 | a second submission during a later tick of such a run stops it at the next check |
| `Scenarios.QueuedRequestRunsUntokened` | src/lib.rs:111-163 | of two requests submitted back to back, the first clears the latest token when it ends, so the second runs with no token |
| `Scenarios.ReverseOneTickLater` | src/lib.rs:54-166 | forward, then backwards during the forward run's second tick: the forward run stops and the value settles on the start endpoint |

## Left out

- Floating point: values are reals. The frame counter and the duration are natural numbers. `time.as_millis() as f32` rounds durations above 2^24 ms, and this rounding is not modelled.
- Animations.RunLength: assumes an exact frame counter. In the code the counter is an f32 (src/lib.rs:107, 120), and adding 1.0 to it stops changing it at 2^24. A run of 16 777 218 ms or more therefore never passes the completion test at src/lib.rs:159: it runs until superseded and never clears the latest token.
- Scheduling.RunCompletes: claims that every run ends after `RunLength` ticks. This does not hold in the code for durations of 16 777 218 ms or more, because of the f32 counter.
- Transitions.Transition.RunRequest: claims that every run ends after `RunLength` ticks. This does not hold in the code for durations of 16 777 218 ms or more, because of the f32 counter.
- Transitions.Transition.ServeNext: claims that the request it plays ends after `RunLength` ticks. This does not hold in the code for durations of 16 777 218 ms or more, because of the f32 counter.
- Transitions.Transition.ServeQueue: claims that every request it plays ends after `RunLength` ticks. This does not hold in the code for durations of 16 777 218 ms or more, because of the f32 counter.
- The `easer` curve formulas are not modelled. The curve is a function value given to the transition. The boundary law (a run reaches `b + c` at its last frame) is only a hypothesis of `Animations.LastFrameReachesTarget` and `Scenarios.ReverseOneTickLater`. Properties that need the curve's shape are not stated: monotonic progress, the midpoint value, bounds.
- `Animations.LastFrameReachesTarget` says nothing about a run of duration 0. That run still takes one tick, and the curve is then evaluated with a zero duration.
- The tokio `interval` cadence and wall-clock time are not modelled. A tick is one step.
- The first tick of a tokio `interval` completes at once (src/lib.rs:108, 119). The model still lets a submission arrive while a run waits for its first tick, so it allows slightly more interleavings than the code.
- `Uuid::new_v4` is replaced by a counter. Tokens minted so far are exactly those below `nextToken`.
- The Dioxus hook machinery is not modelled: `use_hook`, `use_ref`, `use_coroutine`, `write_silent` render semantics. `schedule_update` is a redraw counter.
- The coroutine channel is the `queue` field. Sending to a scheduler that no longer exists is not modelled.
- `Transitions.Transition.RunRequest` and `Transitions.Transition.ServeQueue` assume that no request comes in while they run. Submissions during a run are covered step by step in `Scenarios`.
- The example application's buttons and markup (examples/simple.rs) are not modelled.
