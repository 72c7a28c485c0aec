/** The signal worker of V2X.py: find the traffic light nearest to the car's published pose,
    ask the simulator for its colour, and put the resulting status on the status queue. */
module V2X {
  import opened Types
  import opened Channels

  /** SCALING_FACTOR: metadata locations are multiplied by this to get world units. */
  const SCALING_FACTOR: real := 0.0912

  /** A pose whose x and y are both closer to 0 than this counts as "not yet estimated". */
  const ORIGIN_TOLERANCE: real := 0.001

  /** The simulator library's colour codes (QLabsTrafficLight.COLOR_RED, COLOR_YELLOW,
      COLOR_GREEN); the mapping below relies only on their being distinct. */
  const COLOR_RED: int := 1
  const COLOR_YELLOW: int := 2
  const COLOR_GREEN: int := 3

  /** An entry of the light metadata handed over at start-up. */
  datatype LightMeta = LightMeta(id: int, location: seq<real>)

  /** An entry of the worker's light table: the simulator handle is identified by `id`
      (its actor number), so a colour query is a query by id. */
  datatype Light = Light(id: int, location: seq<real>)

  /** What `get_color()` does: return (status, color_code), or raise. */
  datatype ColorReply = Reply(ok: bool, code: int) | Raised

  function Abs(r: real): real {
    if r < 0.0 then -r else r
  }

  /** The square of euclidean_distance: only the x and y components take part. Comparing
      squares selects the same light as comparing distances, since the square root is
      monotone on non-negative numbers. */
  function SquaredDistance(p1: seq<real>, p2: seq<real>): (d: real)
    requires |p1| >= 2 && |p2| >= 2
    ensures d >= 0.0
  {
    (p1[0] - p2[0]) * (p1[0] - p2[0]) + (p1[1] - p2[1]) * (p1[1] - p2[1])
  }

  lemma DistanceSymmetric(p1: seq<real>, p2: seq<real>)
    requires |p1| >= 2 && |p2| >= 2
    ensures SquaredDistance(p1, p2) == SquaredDistance(p2, p1)
  {
  }

  /** A point is at distance zero from any point with the same x and y. */
  lemma DistanceZeroForSamePoint(p1: seq<real>, p2: seq<real>)
    requires |p1| >= 2 && |p2| >= 2
    requires p1[0] == p2[0] && p1[1] == p2[1]
    ensures SquaredDistance(p1, p2) == 0.0
  {
  }

  /** A third coordinate (a light's height) plays no part in the distance. */
  lemma DistanceIgnoresHeight(p1: seq<real>, p2: seq<real>)
    requires |p1| >= 2 && |p2| >= 2
    ensures SquaredDistance(p1, p2) == SquaredDistance(p1[..2], p2[..2])
  {
  }

  /** Every light has at least an x and a y coordinate. */
  predicate Located(lights: seq<Light>) {
    forall j :: 0 <= j < |lights| ==> |lights[j].location| >= 2
  }

  /** Light k is nearest to pos, and no earlier light is as near: the first minimum. */
  predicate IsFirstNearest(pos: seq<real>, lights: seq<Light>, k: nat)
    requires |pos| >= 2 && Located(lights)
  {
    && k < |lights|
    && (forall j :: 0 <= j < |lights| ==>
          SquaredDistance(pos, lights[k].location) <= SquaredDistance(pos, lights[j].location))
    && (forall j :: 0 <= j < k ==>
          SquaredDistance(pos, lights[k].location) < SquaredDistance(pos, lights[j].location))
  }

  /** IsFirstNearest singles out one light: the choice is determined, ties included. */
  lemma FirstNearestUnique(pos: seq<real>, lights: seq<Light>, k1: nat, k2: nat)
    requires |pos| >= 2 && Located(lights)
    requires IsFirstNearest(pos, lights, k1) && IsFirstNearest(pos, lights, k2)
    ensures k1 == k2
  {
    assert SquaredDistance(pos, lights[k1].location) == SquaredDistance(pos, lights[k2].location);
  }

  /** Of two lights at distances d1 < d2, the light at d2 is never chosen. */
  lemma NearerLightWins(pos: seq<real>, lights: seq<Light>, k: nat, i: nat, j: nat)
    requires |pos| >= 2 && Located(lights) && i < |lights| && j < |lights|
    requires IsFirstNearest(pos, lights, k)
    requires SquaredDistance(pos, lights[i].location) < SquaredDistance(pos, lights[j].location)
    ensures k != j
  {
  }

  /** With exactly two lights at distances d1 < d2, the light at d1 is chosen. */
  lemma NearerOfTwoChosen(pos: seq<real>, lights: seq<Light>, k: nat)
    requires |pos| >= 2 && Located(lights) && |lights| == 2
    requires IsFirstNearest(pos, lights, k)
    requires SquaredDistance(pos, lights[0].location) < SquaredDistance(pos, lights[1].location)
    ensures k == 0
  {
    NearerLightWins(pos, lights, k, 0, 1);
  }

  /** The arg-min scan of get_nearest_light_status: None for an empty list, otherwise the
      first light at minimum distance (the update uses a strict `<`). */
  method NearestLight(pos: seq<real>, lights: seq<Light>) returns (nearest: Option<nat>)
    requires |pos| >= 2 && Located(lights)
    ensures nearest == None <==> lights == []
    ensures nearest.Some? ==> IsFirstNearest(pos, lights, nearest.value)
  {
    var minDist: Option<real> := None;  // float("inf")
    nearest := None;
    for i := 0 to |lights|
      invariant nearest == None <==> i == 0
      invariant minDist == None <==> nearest == None
      invariant nearest.Some? ==> nearest.value < i
      invariant nearest.Some? ==> minDist.value == SquaredDistance(pos, lights[nearest.value].location)
      invariant nearest.Some? ==> forall j :: 0 <= j < i ==>
        minDist.value <= SquaredDistance(pos, lights[j].location)
      invariant nearest.Some? ==> forall j :: 0 <= j < nearest.value ==>
        minDist.value < SquaredDistance(pos, lights[j].location)
    {
      var dist := SquaredDistance(pos, lights[i].location);
      if minDist == None || dist < minDist.value {
        minDist := Some(dist);
        nearest := Some(i);
      }
    }
  }

  /** The status reported for a colour query's outcome. */
  function StatusOf(reply: ColorReply): Status {
    match reply
    case Raised => Unknown
    case Reply(ok, code) =>
      if !ok then Unknown
      else if code == COLOR_RED then Red
      else if code == COLOR_GREEN then Green
      else if code == COLOR_YELLOW then Yellow
      else Unknown
  }

  /** The colour code the traffic-light sequencer sets for a known status. */
  function CodeOf(s: Status): int
    requires s != Unknown
  {
    match s
    case Red => COLOR_RED
    case Green => COLOR_GREEN
    case Yellow => COLOR_YELLOW
  }

  /** A successful query reports exactly the colour that was set. */
  lemma StatusOfCode(s: Status)
    requires s != Unknown
    ensures StatusOf(Reply(true, CodeOf(s))) == s
  {
  }

  /** A status other than "UNKNOWN" comes only from a successful query with a recognised code;
      a false status, another code and a raised exception all give "UNKNOWN". */
  lemma KnownOnlyFromRecognisedCode(reply: ColorReply)
    ensures StatusOf(reply) != Unknown <==>
      reply.Reply? && reply.ok && reply.code in {COLOR_RED, COLOR_GREEN, COLOR_YELLOW}
  {
  }

  /** `status` is what get_nearest_light_status reports, where `queried` is the light whose
      colour was asked for (None: no query was made). */
  predicate ReportsNearest(pos: seq<real>, lights: seq<Light>, colorOf: int -> ColorReply,
                           status: Status, queried: Option<nat>)
    requires |pos| >= 2 && Located(lights)
  {
    && (queried == None <==> lights == [])
    && (queried == None ==> status == Unknown)
    && (queried.Some? ==> IsFirstNearest(pos, lights, queried.value)
                          && status == StatusOf(colorOf(lights[queried.value].id)))
  }

  /** get_nearest_light_status, with the simulator's colour query as the oracle `colorOf`. */
  method NearestLightStatus(pos: seq<real>, lights: seq<Light>, colorOf: int -> ColorReply)
    returns (status: Status, queried: Option<nat>)
    requires |pos| >= 2 && Located(lights)
    ensures ReportsNearest(pos, lights, colorOf, status, queried)
  {
    queried := NearestLight(pos, lights);
    status := Unknown;
    if queried.Some? {
      var reply := colorOf(lights[queried.value].id);
      status := StatusOf(reply);
    }
  }

  /** The location of a metadata entry in world units. */
  function Scaled(location: seq<real>): seq<real> {
    seq(|location|, i requires 0 <= i < |location| => location[i] * SCALING_FACTOR)
  }

  /** The light table of the worker's start-up: one light per metadata entry, in order, with
      the same id and the location scaled. */
  method BuildLightTable(metadata: seq<LightMeta>) returns (table: seq<Light>)
    ensures |table| == |metadata|
    ensures forall i :: 0 <= i < |metadata| ==>
      table[i].id == metadata[i].id && table[i].location == Scaled(metadata[i].location)
  {
    table := [];
    for i := 0 to |metadata|
      invariant |table| == i
      invariant forall j :: 0 <= j < i ==>
        table[j].id == metadata[j].id && table[j].location == Scaled(metadata[j].location)
    {
      var meta := metadata[i];
      var scaledLocation := Scaled(meta.location);
      table := table + [Light(meta.id, scaledLocation)];
    }
  }

  /** The x and y of the shared pose, a missing key reading as 0.0. */
  function PoseOf(sharedPose: map<string, real>): (pos: seq<real>)
    ensures |pos| == 2
  {
    [if "x" in sharedPose then sharedPose["x"] else 0.0,
     if "y" in sharedPose then sharedPose["y"] else 0.0]
  }

  /** The pose still sits at the uninitialised origin. */
  predicate AtOrigin(pos: seq<real>)
    requires |pos| >= 2
  {
    Abs(pos[0]) < ORIGIN_TOLERANCE && Abs(pos[1]) < ORIGIN_TOLERANCE
  }

  /** A pose never published (both keys missing) counts as the origin. */
  lemma MissingPoseAtOrigin(sharedPose: map<string, real>)
    requires "x" !in sharedPose && "y" !in sharedPose
    ensures AtOrigin(PoseOf(sharedPose))
  {
  }

  /** The status one cycle of the worker produces: "UNKNOWN" without any query while the pose
      is at the origin, otherwise the nearest light's status. */
  method CycleStatus(sharedPose: map<string, real>, lights: seq<Light>, colorOf: int -> ColorReply)
    returns (status: Status, queried: Option<nat>)
    requires Located(lights)
    ensures AtOrigin(PoseOf(sharedPose)) ==> status == Unknown && queried == None
    ensures !AtOrigin(PoseOf(sharedPose)) ==> ReportsNearest(PoseOf(sharedPose), lights, colorOf, status, queried)
  {
    var pos := PoseOf(sharedPose);
    if !(Abs(pos[0]) < ORIGIN_TOLERANCE && Abs(pos[1]) < ORIGIN_TOLERANCE) {
      status, queried := NearestLightStatus(pos, lights, colorOf);
    } else {
      status, queried := Unknown, None;
    }
  }

  /** One cycle of the worker's loop: compute the status and put it on the queue unless the
      queue is full, in which case the queue is left as it was and the status is dropped. */
  method Cycle(v2xQueue: Channel<Status>, sharedPose: map<string, real>, lights: seq<Light>,
               colorOf: int -> ColorReply)
    returns (status: Status, sent: bool)
    requires Located(lights) && v2xQueue.Valid()
    modifies v2xQueue
    ensures v2xQueue.Valid()
    ensures AtOrigin(PoseOf(sharedPose)) ==> status == Unknown
    ensures !AtOrigin(PoseOf(sharedPose)) ==>
      exists q :: ReportsNearest(PoseOf(sharedPose), lights, colorOf, status, q)
    ensures sent <==> !old(v2xQueue.Full())
    ensures v2xQueue.items == if sent then old(v2xQueue.items) + [status] else old(v2xQueue.items)
  {
    var queried;
    status, queried := CycleStatus(sharedPose, lights, colorOf);
    sent := v2xQueue.TryPut(status);
  }

  /** A full bounded queue keeps its messages and drops the new status. */
  method DropScenario() {
    var q := new Channel<Status>(Some(1));
    var sent := q.TryPut(Red);
    assert sent && q.items == [Red];
    sent := q.TryPut(Green);
    assert !sent && q.items == [Red];
    var m := q.Poll();
    assert m == Some(Red) && q.items == [];
  }
}
