# STOP/GO decision and nearest-signal query, modelled in Dafny

This project models two workers of an autonomous-car pipeline that runs in a traffic simulator.

- **Decision worker** (`controller.py`). It combines two inputs into STOP/GO commands for the motion worker:
  - the first object the camera detects (its class and bounding-box width);
  - the most recent traffic-signal status from the signal worker.

  It is a two-state machine: running or stopped.
  - It emits STOP only when the camera sees a red light wider than 38 pixels, the cached signal status is RED, and the car is running.
  - It emits GO only when the camera sees a green light, the cached status is GREEN, and the car is stopped.
- **Signal worker** (`V2X.py`). Once per cycle it reads the car's published pose. It finds the nearest traffic light by x/y distance, asks the simulator for that light's colour, and turns the answer into `RED`, `GREEN`, `YELLOW` or `UNKNOWN`. It puts the status on its queue unless the queue is full. While the pose is still at the uninitialised origin, it reports `UNKNOWN` without asking for any colour.

Files:

- `types.dfy`, module `Types`: the `Option` type and `Status`, which has the four signal statuses.
- `channels.dfy`, module `Channels`: class `Channel<T>`, a multiprocessing queue with an optional capacity. `TryPut` is `if not q.full(): q.put(x)`. `Poll` is `if not q.empty(): q.get()`.
- `controller.py` is modelled in two parts, both in `controller.dfy`, module `Controller`:
  - Pure specification functions: `Decide` is one decision, `StepSpec` is one loop iteration, `Run` is a sequence of iterations, and `LatestStatus` is the most recent status received. Lemmas state the alternation and caching invariants.
  - Class `DecisionWorker`, which has the loop's variables `isStopped` and `cached` plus `commands`, everything it has put on the command queue. `Step`, `Iterate` and `RunLoop` are proved against the specification functions.
- `v2x.dfy`, module `V2X`: the distance, the arg-min scan `NearestLight`, the colour mapping `StatusOf`, the light-table construction `BuildLightTable`, and the per-cycle body (`CycleStatus`, `Cycle`).

External calls are parameters of the model:
- the simulator's colour query is a function `colorOf` from a light's id to a `ColorReply`, either `Reply(ok, code)` or `Raised`;
- the shared pose is a `map<string, real>`;
- each queue is a `Channel`.

Distances are compared as squared distances over `real`. The square root is monotone on non-negative numbers, so comparing squares picks the same light.

## Model

| member | source | states |
|---|---|---|
| `Controller.Decide` | controller.py:29-44 | STOP is emitted exactly when the car is running, a message is present, and it is a non-empty list whose first detection is class "Red", wider than 38, with the cached status RED. GO is emitted exactly when the car is stopped and the first detection is "Green" with the cached status GREEN; width plays no part. Every other combination emits nothing |
| `Controller.StepSpec` | controller.py:26-44 | A status message replaces the cached status; with none, the old cache is kept. The command is then decided by `Decide` on the refreshed cache. STOP is emitted exactly on a running-to-stopped transition and GO exactly on a stopped-to-running one, so an iteration that emits nothing leaves is_stopped unchanged |
| `Controller.StepKeepsConsistent` | controller.py:36-44 | Start from a state consistent with an alternating history, where stopped means the last command was STOP. After one iteration the state is still consistent with the extended history |
| `Controller.RunAlternates` | controller.py:20-44 | Starting from the initial state (running, status UNKNOWN), a run emits no more commands than it has iterations. The commands alternate STOP, GO, STOP, … beginning with STOP. The machine is stopped exactly when the last command was STOP, and is running when nothing has been emitted |
| `Controller.CachedIsLatest` | controller.py:21-27 | After any run, the cached status is the most recent status received, or the initial one if none arrived |
| `Controller.CachePersists` | controller.py:26-27 | Over iterations with no status message, the most recent status received is the initial one |
| `Controller.CacheUnchangedWithoutStatus` | controller.py:26-27 | Over iterations with no status message, the machine's cached status does not change |
| `Controller.NonDetectionsIgnored` | controller.py:29-32 | `AnyDetectedObjects` holds exactly for a non-empty detection list. No perception message, an empty list, or a non-list message such as "TERMINATE" emits nothing and leaves is_stopped unchanged |
| `Controller.FirstDetectionDecides` | controller.py:12-16 | `GetCls` gives the first detection's class, or None for an empty list or a missing class; `GetWidth` gives its width, or 0 in the same cases. Only the first detection's class and width matter: detections after it cannot change the outcome |
| `Controller.ReferenceVelocity` | pid_controller.py:90 | The motion worker's reference speed is 0 exactly for STOP and non-negative otherwise |
| `Controller.DecisionWorker.constructor` | controller.py:20-21 | The worker starts running, with cached status UNKNOWN and no commands |
| `Controller.DecisionWorker.Step` | controller.py:26-44 | One iteration of the loop body updates the state as StepSpec does and appends exactly the emitted command, if any, to the command queue, so at most one command per iteration. It keeps the invariant that commands alternate and is_stopped means "last command was STOP" |
| `Controller.DecisionWorker.Iterate` | controller.py:24-30 | One iteration takes at most one message from each input queue, without blocking, and acts on them as StepSpec does |
| `Controller.DecisionWorker.RunLoop` | controller.py:24-46 | Running the loop over a sequence of iterations gives the state and command history that Run specifies |
| `Channels.Channel.constructor` | main.py:40 | A new queue is empty and has the given capacity |
| `Channels.Channel.TryPut` | V2X.py:67-68 | The message is enqueued exactly when the queue is not full. A full queue is left unchanged, so its earlier messages stay retrievable and the new message is dropped |
| `Channels.Channel.Poll` | controller.py:26-27 | Returns the oldest waiting message and removes it, or returns nothing when the queue is empty |
| `V2X.SquaredDistance` | V2X.py:10-11 | The distance is non-negative |
| `V2X.DistanceSymmetric` | V2X.py:10-11 | The distance is symmetric |
| `V2X.DistanceZeroForSamePoint` | V2X.py:10-11 | Points with the same x and y are at distance zero |
| `V2X.DistanceIgnoresHeight` | V2X.py:10-11 | Only the first two coordinates take part, so a third coordinate is ignored |
| `V2X.NearestLight` | V2X.py:13-21 | Returns nothing exactly for an empty light list. Otherwise it returns a light whose distance is at most every other light's, and strictly less than that of every earlier light: the first minimum wins ties |
| `V2X.FirstNearestUnique` | V2X.py:17-21 | The first-minimum property determines the chosen light, ties included |
| `V2X.NearerLightWins` | V2X.py:17-21 | Of two lights at distances d1 < d2, the light at d2 is never chosen |
| `V2X.NearerOfTwoChosen` | V2X.py:17-21 | With exactly two lights at distances d1 < d2, the light at d1 is chosen |
| `V2X.StatusOfCode` | V2X.py:25-32 | A successful query reports exactly the colour that was set: RED, GREEN or YELLOW |
| `V2X.KnownOnlyFromRecognisedCode` | V2X.py:24-36 | `StatusOf` maps a colour query's outcome to a status. The status is known exactly when the query succeeded with a recognised colour code. A false status, an unrecognised code and a raised exception all give UNKNOWN |
| `V2X.NearestLightStatus` | V2X.py:13-36 | An empty light list gives UNKNOWN and reports no queried light. Otherwise the reported queried light is the first nearest one, and the status is the mapped reply for that light's id |
| `V2X.BuildLightTable` | V2X.py:47-57 | There is one light per metadata entry, in the same order and with the same id, with every location coordinate multiplied by 0.0912 |
| `V2X.MissingPoseAtOrigin` | V2X.py:63-65 | The pose is read by `PoseOf`: a missing key reads as 0.0. A pose missing both keys therefore reads as (0.0, 0.0), which is the uninitialised origin |
| `V2X.CycleStatus` | V2X.py:61-71 | A pose with abs(x) < 0.001 and abs(y) < 0.001 gives UNKNOWN and reports no queried light. Any other pose gives the nearest light's status as NearestLightStatus states it |
| `V2X.Cycle` | V2X.py:61-73 | One cycle computes the status as CycleStatus does and enqueues it exactly when the queue was not full. Otherwise the queue is unchanged |

## Left out

- Connecting to the simulator and the fatal early return when that fails (V2X.py:39-45) are I/O. The colour query is the `colorOf` parameter.
- `time.sleep`, `KeyboardInterrupt` handling and `print` logging are timing and I/O. Each infinite `while True` loop is modelled as one iteration (`Step`, `Iterate`, `Cycle`) or, for the decision worker, as a finite sequence of iterations (`RunLoop`).
- Concurrency is left out. The four workers run as separate processes, and the perception worker also reads the perception queue. The model treats each worker's iteration as one sequential step on queues held as sequences.
- Floating point is left out:
  - `** 0.5` and the 0.0912 scaling are exact `real` arithmetic;
  - `float("inf")` is modelled as "no minimum yet";
  - NaN is not modelled.
- `V2X.SquaredDistance`: models the square of `euclidean_distance` rather than the distance itself, because Dafny has no real square root. Every comparison in the source agrees between the two.
- `V2X.DistanceZeroForSamePoint`: states only that identical x/y give distance zero, not the converse.
- `V2X.NearestLightStatus`, `V2X.CycleStatus`: the `queried` out-parameter names the light whose colour is reported; the contract does not track every evaluation of `colorOf`, so "no query is made" is stated as "no queried light is reported".
- The simulator library's colour codes are constants 1, 3 and 2 for red, green and yellow. The mapping relies only on their being distinct. The library is not part of this model.
- The detection's `height` field is never read by the decision worker and is not modelled.
- `mp.Queue()` is unbounded (main.py:40), so `full()` is never true in the running system. `Channel` takes an explicit optional capacity so that the drop rule can be stated; as with a multiprocessing queue, a capacity of 0 means unbounded.
- pid_controller.py (pose filter, speed and steering controllers, actuator I/O), perception.py (camera and object-detection inference), setup_environment.py (actor spawning, light cycling threads) and main.py (process start-up and shutdown) are not part of this model. The exception is the one-line use of a command at pid_controller.py:90, modelled as `ReferenceVelocity`.
- A status that is old but still cached is used as it is. The code keeps no timestamps, so the model has no bound on how old it may be.
