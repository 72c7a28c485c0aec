/** The decision worker of controller.py: a two-state STOP/GO machine that acts only when the
    camera's first detection and the cached traffic-signal status agree. */
module Controller {
  import opened Types
  import opened Channels

  /** RED_LIGHT_MIN_WIDTH: a red light must look wider than this (in pixels) to stop the car. */
  const RED_LIGHT_MIN_WIDTH: real := 38.0

  /** One record of the perception worker's list; either key may be absent. */
  datatype Detection = Detection(cls: Option<string>, width: Option<real>)

  /** What arrives on the perception queue: a list of detections, or anything else
      (main.py pushes the string "TERMINATE" onto the same queue). */
  datatype Msg = Detections(items: seq<Detection>) | Other(text: string)

  datatype Command = Stop | Go

  /** any_detected_objects: a list with at least one element. */
  predicate AnyDetectedObjects(m: Msg) {
    m.Detections? && |m.items| > 0
  }

  /** get_cls: the first detection's class, or None when the list is empty or has no "class". */
  function GetCls(items: seq<Detection>): Option<string> {
    if items != [] && items[0].cls.Some? then items[0].cls else None
  }

  /** get_width: the first detection's width, or 0 when the list is empty or has no "width". */
  function GetWidth(items: seq<Detection>): real {
    if items != [] && items[0].width.Some? then items[0].width.value else 0.0
  }

  /** The camera reports a near red light and the signal source agrees. */
  predicate RedConfirmed(cached: Status, m: Msg) {
    AnyDetectedObjects(m) && GetCls(m.items) == Some("Red") && cached == Red
    && GetWidth(m.items) > RED_LIGHT_MIN_WIDTH
  }

  /** The camera reports a green light and the signal source agrees; width plays no part. */
  predicate GreenConfirmed(cached: Status, m: Msg) {
    AnyDetectedObjects(m) && GetCls(m.items) == Some("Green") && cached == Green
  }

  /** The decision worker's state: is_stopped and cached_v2x_status. */
  datatype Machine = Machine(stopped: bool, cached: Status)

  /** The state before the first iteration: running, no signal information. */
  const Initial := Machine(false, Unknown)

  /** What one loop iteration finds waiting on the two input queues. */
  datatype Tick = Tick(v2x: Option<Status>, perc: Option<Msg>)

  /** The command one iteration emits, given the state and the perception message (if any). */
  function Decide(stopped: bool, cached: Status, perc: Option<Msg>): (cmd: Option<Command>)
    ensures cmd == Some(Stop) <==> !stopped && perc.Some? && RedConfirmed(cached, perc.value)
    ensures cmd == Some(Go) <==> stopped && perc.Some? && GreenConfirmed(cached, perc.value)
  {
    if perc.Some? && AnyDetectedObjects(perc.value) then
      var cls := GetCls(perc.value.items);
      var width := GetWidth(perc.value.items);
      if cls == Some("Red") && cached == Red && width > RED_LIGHT_MIN_WIDTH && !stopped then Some(Stop)
      else if cls == Some("Green") && cached == Green && stopped then Some(Go)
      else None
    else
      None
  }

  function Emitted(cmd: Option<Command>): seq<Command> {
    if cmd.Some? then [cmd.value] else []
  }

  /** One loop iteration: refresh the cache, then decide. */
  function StepSpec(m: Machine, t: Tick): (r: (Machine, Option<Command>))
    ensures r.0.cached == t.v2x.GetOr(m.cached)
    ensures r.1 == Decide(m.stopped, r.0.cached, t.perc)
    ensures r.1 == Some(Stop) <==> !m.stopped && r.0.stopped
    ensures r.1 == Some(Go) <==> m.stopped && !r.0.stopped
  {
    var cached := if t.v2x.Some? then t.v2x.value else m.cached;
    var cmd := Decide(m.stopped, cached, t.perc);
    var stopped := match cmd
      case Some(Stop) => true
      case Some(Go) => false
      case None => m.stopped;
    (Machine(stopped, cached), cmd)
  }

  /** The state and the commands emitted after running the given iterations in order. */
  function Run(m: Machine, ticks: seq<Tick>): (Machine, seq<Command>)
    decreases |ticks|
  {
    if ticks == [] then (m, [])
    else
      var before := Run(m, ticks[..|ticks| - 1]);
      var after := StepSpec(before.0, ticks[|ticks| - 1]);
      (after.0, before.1 + Emitted(after.1))
  }

  /** The commands read STOP, GO, STOP, ... */
  predicate Alternating(cmds: seq<Command>) {
    forall i :: 0 <= i < |cmds| ==> cmds[i] == (if i % 2 == 0 then Stop else Go)
  }

  predicate LastIsStop(cmds: seq<Command>) {
    cmds != [] && cmds[|cmds| - 1] == Stop
  }

  /** The state agrees with the history: stopped exactly when the last command was STOP. */
  predicate Consistent(m: Machine, cmds: seq<Command>) {
    Alternating(cmds) && (m.stopped <==> LastIsStop(cmds))
  }

  /** The most recent status received over the given iterations, or `init` if none arrived. */
  function LatestStatus(init: Status, ticks: seq<Tick>): Status
    decreases |ticks|
  {
    if ticks == [] then init
    else if ticks[|ticks| - 1].v2x.Some? then ticks[|ticks| - 1].v2x.value
    else LatestStatus(init, ticks[..|ticks| - 1])
  }

  /** One iteration keeps the state consistent with the alternating history. */
  lemma StepKeepsConsistent(m: Machine, cmds: seq<Command>, t: Tick)
    requires Consistent(m, cmds)
    ensures Consistent(StepSpec(m, t).0, cmds + Emitted(StepSpec(m, t).1))
  {
    var r := StepSpec(m, t);
    var out := cmds + Emitted(r.1);
    if r.1 == Some(Stop) {
      assert |cmds| % 2 == 0;
      assert out[|cmds|] == Stop;
    } else if r.1 == Some(Go) {
      assert |cmds| % 2 == 1;
      assert out[|cmds|] == Go;
    } else {
      assert out == cmds;
    }
  }

  /** From the initial state, every run emits at most one command per iteration, the
      commands alternate STOP, GO, STOP, ..., and the machine is stopped exactly when the last
      command was STOP (it is running when nothing has been emitted). */
  lemma {:induction false} RunAlternates(ticks: seq<Tick>)
    ensures Consistent(Run(Initial, ticks).0, Run(Initial, ticks).1)
    ensures |Run(Initial, ticks).1| <= |ticks|
    decreases |ticks|
  {
    if ticks != [] {
      var prefix := ticks[..|ticks| - 1];
      RunAlternates(prefix);
      var before := Run(Initial, prefix);
      StepKeepsConsistent(before.0, before.1, ticks[|ticks| - 1]);
    }
  }

  /** The cached status is always the most recently received one: a status persists over
      iterations in which none arrives, and starts as "UNKNOWN". */
  lemma {:induction false} CachedIsLatest(m: Machine, ticks: seq<Tick>)
    ensures Run(m, ticks).0.cached == LatestStatus(m.cached, ticks)
    decreases |ticks|
  {
    if ticks != [] {
      CachedIsLatest(m, ticks[..|ticks| - 1]);
    }
  }

  /** Over iterations in which no status arrives, the cached status does not change. */
  lemma {:induction false} CachePersists(init: Status, ticks: seq<Tick>)
    requires forall i :: 0 <= i < |ticks| ==> ticks[i].v2x == None
    ensures LatestStatus(init, ticks) == init
    decreases |ticks|
  {
    if ticks != [] {
      CachePersists(init, ticks[..|ticks| - 1]);
    }
  }

  /** Over iterations in which no status arrives, the machine's cached status is the one it
      started with. */
  lemma {:induction false} CacheUnchangedWithoutStatus(m: Machine, ticks: seq<Tick>)
    requires forall i :: 0 <= i < |ticks| ==> ticks[i].v2x == None
    ensures Run(m, ticks).0.cached == m.cached
  {
    CachedIsLatest(m, ticks);
    CachePersists(m.cached, ticks);
  }

  /** A perception message that is not a non-empty list (no message, an empty list, the
      "TERMINATE" string) emits nothing and leaves is_stopped as it was. */
  lemma NonDetectionsIgnored(m: Machine, t: Tick)
    requires t.perc == None || !AnyDetectedObjects(t.perc.value)
    ensures StepSpec(m, t) == (Machine(m.stopped, t.v2x.GetOr(m.cached)), None)
  {
  }

  /** Only the first detection is inspected: whatever follows it cannot change the outcome. */
  lemma FirstDetectionDecides(m: Machine, v2x: Option<Status>, d: Detection, rest1: seq<Detection>, rest2: seq<Detection>)
    ensures StepSpec(m, Tick(v2x, Some(Detections([d] + rest1))))
         == StepSpec(m, Tick(v2x, Some(Detections([d] + rest2))))
  {
  }

  /** The motion worker's use of a command: STOP sets the reference speed to 0, any other
      command to the nominal 0.5. */
  function ReferenceVelocity(cmd: Command): (v: real)
    ensures v == 0.0 <==> cmd == Stop
    ensures v >= 0.0
  {
    if cmd == Stop then 0.0 else 0.5
  }

  /** The decision worker with its two local variables and everything it has put on the
      command queue. */
  class DecisionWorker {
    var isStopped: bool
    var cached: Status
    var commands: seq<Command>

    function State(): Machine
      reads this
    {
      Machine(isStopped, cached)
    }

    ghost predicate Valid()
      reads this
    {
      Consistent(State(), commands)
    }

    constructor ()
      ensures Valid() && State() == Initial && commands == []
    {
      isStopped := false;
      cached := Unknown;
      commands := [];
    }

    /** One iteration of the loop, given what was waiting on the two queues. */
    method Step(v2xMsg: Option<Status>, percMsg: Option<Msg>) returns (emitted: Option<Command>)
      requires Valid()
      modifies this
      ensures Valid()
      ensures (State(), emitted) == StepSpec(old(State()), Tick(v2xMsg, percMsg))
      ensures commands == old(commands) + Emitted(emitted)
    {
      StepKeepsConsistent(State(), commands, Tick(v2xMsg, percMsg));
      if v2xMsg.Some? {
        cached := v2xMsg.value;
      }
      emitted := None;
      if percMsg.Some? {
        var results := percMsg.value;
        if AnyDetectedObjects(results) {
          var cls := GetCls(results.items);
          var width := GetWidth(results.items);
          if cls == Some("Red") && cached == Red && width > RED_LIGHT_MIN_WIDTH && !isStopped {
            commands := commands + [Stop];
            isStopped := true;
            emitted := Some(Stop);
          } else if cls == Some("Green") && cached == Green && isStopped {
            commands := commands + [Go];
            isStopped := false;
            emitted := Some(Go);
          }
        }
      }
    }

    /** One iteration reading the queues without blocking: at most one message is taken from
        each, and the status message is taken first. */
    method Iterate(v2xQueue: Channel<Status>, perceptionQueue: Channel<Msg>) returns (emitted: Option<Command>)
      requires Valid() && v2xQueue.Valid() && perceptionQueue.Valid()
      modifies this, v2xQueue, perceptionQueue
      ensures Valid() && v2xQueue.Valid() && perceptionQueue.Valid()
      ensures v2xQueue.items == if old(v2xQueue.items) == [] then [] else old(v2xQueue.items)[1..]
      ensures perceptionQueue.items == if old(perceptionQueue.items) == [] then [] else old(perceptionQueue.items)[1..]
      ensures (State(), emitted) == StepSpec(old(State()), Tick(
        if old(v2xQueue.items) == [] then None else Some(old(v2xQueue.items)[0]),
        if old(perceptionQueue.items) == [] then None else Some(old(perceptionQueue.items)[0])))
      ensures commands == old(commands) + Emitted(emitted)
    {
      var v2xMsg := v2xQueue.Poll();
      var percMsg := perceptionQueue.Poll();
      emitted := Step(v2xMsg, percMsg);
    }

    /** The loop run for the given iterations. */
    method RunLoop(ticks: seq<Tick>)
      requires Valid()
      modifies this
      ensures Valid()
      ensures State() == Run(old(State()), ticks).0
      ensures commands == old(commands) + Run(old(State()), ticks).1
    {
      ghost var start := State();
      for i := 0 to |ticks|
        invariant Valid()
        invariant State() == Run(start, ticks[..i]).0
        invariant commands == old(commands) + Run(start, ticks[..i]).1
      {
        assert ticks[..i + 1][..i] == ticks[..i];
        var _ := Step(ticks[i].v2x, ticks[i].perc);
      }
      assert ticks[..|ticks|] == ticks;
    }
  }

  /** The red-then-green scenario: a red light 45 pixels wide with the signal confirmed RED
      stops the car; a green light 10 pixels wide with the signal confirmed GREEN resumes it;
      a red light exactly 38 pixels wide does not stop it. */
  method Scenario() {
    var w := new DecisionWorker();
    var c := w.Step(Some(Red), Some(Detections([Detection(Some("Red"), Some(45.0))])));
    assert c == Some(Stop) && w.isStopped;
    c := w.Step(Some(Green), Some(Detections([Detection(Some("Green"), Some(10.0))])));
    assert c == Some(Go) && !w.isStopped;
    c := w.Step(Some(Red), Some(Detections([Detection(Some("Red"), Some(38.0))])));
    assert c == None && !w.isStopped;
    c := w.Step(None, Some(Other("TERMINATE")));
    assert c == None && w.cached == Red;
    assert w.commands == [Stop, Go];
  }
}
