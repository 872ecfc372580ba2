/** The planner: waypoints in, a blended chain of moves out. */
module Plan {
  import opened Results
  import opened Trigonometry
  import opened Poses
  import opened Kinematics
  import opened LimitsModel
  import opened Resolution
  import opened Timing
  import opened Trapezoid
  import opened Path

  const LINEAR_SAMPLE_STEP := 0.005
  const MAX_LINEAR_SAMPLES: nat := 2000
  const MAX_WAYPOINTS: nat := 400

  // --- requests and plans ---

  datatype PoseFrame = UrBase | UrdfBaseLink

  datatype WaypointTarget = Joints(q: Config) | AtPose(values: Config, frame: PoseFrame)

  datatype Interpolation = Joint | Linear

  datatype PlanWaypoint = PlanWaypoint(
    target: WaypointTarget,
    preferred: Option<Config>,
    blendRadius: Option<real>,
    interpolation: Interpolation)

  datatype PlanRequest = PlanRequest(
    robotModel: string,
    start: WaypointTarget,
    waypoints: seq<PlanWaypoint>,
    scaling: PlanScaling,
    accelerationMax: Option<Config>,
    maxCartesianSpeed: real,
    maxPathDeviation: real,
    baseLinkIsUrBase: bool)

  datatype PlannedWaypoint = PlannedWaypoint(
    jointPositions: Config,
    velocity: real,
    acceleration: real,
    blendRadius: real,
    useLinearMotion: bool,
    limitingJoint: nat)

  datatype PlannedTrajectory = PlannedTrajectory(
    robotModel: string,
    startJointPositions: Config,
    waypoints: seq<PlannedWaypoint>,
    durationEstimate: real,
    limits: Limits)

  datatype PlanError =
    | UnknownModel(model: string)
    | NoWaypoints
    | TooManyWaypoints(count: nat, max: nat)
    | Unresolved(error: ResolveError)
    | LinearSegmentNotFollowable(index: nat)
    | DegenerateSegment(index: nat)

  /** What the planner looks up: joint limits by model name, and the geometry taken as given. */
  datatype Catalogue = Catalogue(t: Trig, geometry: Geometry, limitsOf: string -> Option<Limits>)

  /** The lengths of the supported models. */
  function ForModel(model: string): (dh: Option<Dh>)
    ensures dh.Some? ==> dh.value.Proper()
  {
    if model == "ur3" then Some(Dh(0.1519, -0.24365, -0.21325, 0.11235, 0.08535, 0.0819))
    else if model == "ur3e" then Some(Dh(0.15185, -0.24355, -0.2132, 0.13105, 0.08535, 0.0921))
    else if model == "ur5" then Some(Dh(0.089159, -0.425, -0.39225, 0.10915, 0.09465, 0.0823))
    else if model == "ur5e" then Some(Dh(0.1625, -0.425, -0.3922, 0.1333, 0.0997, 0.0996))
    else if model == "ur10" then Some(Dh(0.1273, -0.612, -0.5723, 0.163941, 0.1157, 0.0922))
    else if model == "ur10e" then Some(Dh(0.1807, -0.6127, -0.57155, 0.17415, 0.11985, 0.11655))
    else if model == "ur16e" then Some(Dh(0.1807, -0.4784, -0.36, 0.17415, 0.11985, 0.11655))
    else if model == "ur20" then Some(Dh(0.2363, -0.862, -0.7287, 0.201, 0.1593, 0.1543))
    else if model == "ur30" then Some(Dh(0.2363, -0.637, -0.5037, 0.201, 0.1593, 0.1543))
    else None
  }

  // --- resolving ---

  /** The frame of the controller as seen from `base_link`, half a turn about the vertical. */
  function RzPi(t: Trig): Pose { RotZ(t, t.pi) }

  function BaseLinkToUrBase(t: Trig, baseLinkIsUrBase: bool, p: Pose): Pose { if baseLinkIsUrBase then p else RzPi(t).Then(p) }

  function HalfTurned(v: Vec3): Vec3 { Vec3(-v.x, -v.y, v.z) }

  /** A pose told in `base_link` stays as it is while that is the controller's base, and else turns by half about the vertical. */
  lemma FrameChangeExact(t: Trig, p: Pose)
    requires t.Lawful()
    ensures BaseLinkToUrBase(t, true, p) == p
    ensures BaseLinkToUrBase(t, false, p) == Pose(HalfTurned(p.n), HalfTurned(p.o), HalfTurned(p.a), HalfTurned(p.p))
  {
    var h := t.pi / 2.0;
    Sum(t, h, h);
    assert h + h == t.pi;
  }

  /** The conversion is its own inverse, whichever way the tree is published. */
  lemma FrameChangeUndoesItself(t: Trig, baseLinkIsUrBase: bool, p: Pose)
    requires t.Lawful()
    ensures BaseLinkToUrBase(t, baseLinkIsUrBase, BaseLinkToUrBase(t, baseLinkIsUrBase, p)) == p
  {
    hide Pose.Then, RzPi;
    HalfTurnTwice(t);
    Associative(RzPi(t), RzPi(t), p);
    IdentityThen(p);
  }

  lemma HalfTurnTwice(t: Trig)
    requires t.Lawful()
    ensures RzPi(t).Then(RzPi(t)) == IDENTITY
  {
    var h := t.pi / 2.0;
    Sum(t, h, h);
    assert h + h == t.pi;
  }

  lemma IdentityThen(p: Pose)
    ensures IDENTITY.Then(p) == p
  {
  }

  function TargetPose(arm: Arm, baseLinkIsUrBase: bool, values: Config, frame: PoseFrame): Pose {
    var p := arm.geometry.poseFromArray(values);
    match frame
    case UrBase => p
    case UrdfBaseLink => BaseLinkToUrBase(arm.t, baseLinkIsUrBase, p)
  }

  function OrElse(preferred: Option<Config>, seed: Config): Config { if preferred.Some? then preferred.value else seed }

  function Lift<T>(r: Result<T, ResolveError>): Result<T, PlanError> {
    match r
    case Ok(v) => Ok(v)
    case Err(e) => Err(Unresolved(e))
  }

  function Resolve(arm: Arm, request: PlanRequest, target: WaypointTarget, preferred: Option<Config>, seed: Config, index: nat)
    : Result<Config, PlanError>
    requires arm.Usable()
  {
    match target
    case Joints(q) => Lift(CheckConfiguration(arm.limits, q, index))
    case AtPose(values, frame) =>
      Lift(ResolvePose(arm.t, arm.dh, arm.limits, TargetPose(arm, request.baseLinkIsUrBase, values, frame), OrElse(preferred, seed), index))
  }

  /** The start and the first `n` waypoints, each seeded by the caller's preference or by the one before. */
  function Configurations(arm: Arm, request: PlanRequest, n: nat): (r: Result<seq<Config>, PlanError>)
    requires arm.Usable() && n <= |request.waypoints|
    ensures r.Ok? ==> |r.value| == n + 1
  {
    if n == 0 then
      match Resolve(arm, request, request.start, None, seq(6, _ => 0.0), 0)
      case Ok(q) => Ok([q])
      case Err(e) => Err(e)
    else
      match Configurations(arm, request, n - 1)
      case Err(e) => Err(e)
      case Ok(configs) =>
        var w := request.waypoints[n - 1];
        match Resolve(arm, request, w.target, w.preferred, OrElse(w.preferred, configs[n - 1]), n)
        case Ok(q) => Ok(configs + [q])
        case Err(e) => Err(e)
  }

  // --- timing ---

  function Point(arm: Arm, configs: seq<Config>, i: nat): Vec3
    requires i < |configs|
  {
    Flange(arm.t, arm.dh, configs[i]).p
  }

  function ChordTo(arm: Arm, configs: seq<Config>, i: nat): real
    requires i + 1 < |configs|
  {
    Chord(arm.t, Point(arm, configs, i), Point(arm, configs, i + 1))
  }

  function SegmentSpeedOf(arm: Arm, from: Config, to: Config, interpolation: Interpolation, ceiling: real, index: nat)
    : Result<SegmentSpeed, PlanError>
    requires arm.Usable()
  {
    match interpolation
    case Linear =>
      (match SampledRates(arm, from, Flange(arm.t, arm.dh, to), LINEAR_SAMPLE_STEP, MAX_LINEAR_SAMPLES)
       case None => Err(LinearSegmentNotFollowable(index))
       case Some(rates) => Ok(CartesianSpeedCap(rates, arm.limits, ceiling)))
    case Joint =>
      match JointSegmentSpeed(JointDelta(from, to), arm.limits)
      case None => Err(DegenerateSegment(index))
      case Some(speed) => Ok(speed)
  }

  /** Travel in whatever space the move is timed in. */
  function TravelOf(arm: Arm, from: Config, to: Config, interpolation: Interpolation): real {
    match interpolation
    case Linear => Chord(arm.t, Flange(arm.t, arm.dh, from).p, Flange(arm.t, arm.dh, to).p)
    case Joint => MaxTravel(JointDelta(from, to), 6)
  }

  /** The speeds of the first `n` segments. */
  function Speeds(arm: Arm, request: PlanRequest, configs: seq<Config>, n: nat): (r: Result<seq<SegmentSpeed>, PlanError>)
    requires arm.Usable() && n <= |request.waypoints| && |configs| == |request.waypoints| + 1
    ensures r.Ok? ==> |r.value| == n
  {
    if n == 0 then Ok([])
    else
      match Speeds(arm, request, configs, n - 1)
      case Err(e) => Err(e)
      case Ok(speeds) =>
        match SegmentSpeedOf(arm, configs[n - 1], configs[n], request.waypoints[n - 1].interpolation, request.maxCartesianSpeed, n)
        case Err(e) => Err(e)
        case Ok(speed) => Ok(speeds + [speed])
  }

  function Duration(arm: Arm, request: PlanRequest, configs: seq<Config>, speeds: seq<SegmentSpeed>): real
    requires |speeds| <= |request.waypoints| && |configs| == |request.waypoints| + 1
  {
    if speeds == [] then 0.0
    else
      var n := |speeds|;
      Duration(arm, request, configs, speeds[..n - 1])
      + TrapezoidDuration(arm.t, TravelOf(arm, configs[n - 1], configs[n], request.waypoints[n - 1].interpolation),
                          speeds[n - 1].velocity, speeds[n - 1].acceleration)
  }

  // --- blends ---

  /** The blend at waypoint `i`: zero at the end and where there is no corner. */
  function BlendAt(arm: Arm, request: PlanRequest, configs: seq<Config>, i: nat): real
    requires |configs| == |request.waypoints| + 1 && i < |request.waypoints|
  {
    if i + 1 == |request.waypoints| then 0.0
    else
      match CornerDeflection(arm.t, Point(arm, configs, i), Point(arm, configs, i + 1), Point(arm, configs, i + 2))
      case None => 0.0
      case Some(deflection) =>
        BlendRadius(arm.t, deflection, ChordTo(arm, configs, i), ChordTo(arm, configs, i + 1),
                    request.maxPathDeviation, request.waypoints[i].blendRadius)
  }

  function Planned(configs: seq<Config>, request: PlanRequest, speeds: seq<SegmentSpeed>, i: nat, blend: real): PlannedWaypoint
    requires i < |speeds| <= |request.waypoints| && |configs| == |request.waypoints| + 1
  {
    PlannedWaypoint(configs[i + 1], speeds[i].velocity, speeds[i].acceleration, blend,
                    request.waypoints[i].interpolation == Linear, speeds[i].limitingJoint)
  }

  /** The emitted waypoints, with the blends of the first `n` corners filled in. */
  function Chain(arm: Arm, request: PlanRequest, configs: seq<Config>, speeds: seq<SegmentSpeed>, n: nat): seq<PlannedWaypoint>
    requires |speeds| <= |request.waypoints| && |configs| == |request.waypoints| + 1
  {
    seq(|speeds|, i requires 0 <= i < |speeds| =>
      Planned(configs, request, speeds, i, if i < n then BlendAt(arm, request, configs, i) else 0.0))
  }

  // --- the plan ---

  function Overridden(limits: Limits, accelerationMax: Option<Config>): Limits {
    if accelerationMax.Some? then limits.(accelerationMax := accelerationMax.value) else limits
  }

  /** The arm a request plans for, or the first reason why it cannot be planned at all. */
  function ArmFor(c: Catalogue, request: PlanRequest): (r: Result<Arm, PlanError>)
    requires c.t.pi > 0.0
    ensures r.Ok? ==> r.value.Usable()
  {
    match ForModel(request.robotModel)
    case None => Err(UnknownModel(request.robotModel))
    case Some(dh) =>
      if request.waypoints == [] then Err(NoWaypoints)
      else if |request.waypoints| > MAX_WAYPOINTS then Err(TooManyWaypoints(|request.waypoints|, MAX_WAYPOINTS))
      else
        match c.limitsOf(request.robotModel)
        case None => Err(UnknownModel(request.robotModel))
        case Some(base) => Ok(Arm(c.t, dh, Overridden(base, request.accelerationMax).Scaled(request.scaling), c.geometry))
  }

  function PlanOf(c: Catalogue, request: PlanRequest): Result<PlannedTrajectory, PlanError>
    requires c.t.pi > 0.0
  {
    match ArmFor(c, request)
    case Err(e) => Err(e)
    case Ok(arm) =>
      match Configurations(arm, request, |request.waypoints|)
      case Err(e) => Err(e)
      case Ok(configs) =>
        match Speeds(arm, request, configs, |request.waypoints|)
        case Err(e) => Err(e)
        case Ok(speeds) =>
          Ok(PlannedTrajectory(request.robotModel, configs[0],
                               Chain(arm, request, configs, speeds, |request.waypoints|),
                               Duration(arm, request, configs, speeds), arm.limits))
  }

  lemma {:induction false} ConfigurationsStop(arm: Arm, request: PlanRequest, n: nat, m: nat)
    requires arm.Usable() && n <= m <= |request.waypoints| && Configurations(arm, request, n).Err?
    ensures Configurations(arm, request, m) == Configurations(arm, request, n)
  {
    hide Resolve;
    if n < m {
      ConfigurationsStop(arm, request, n, m - 1);
    }
  }

  lemma {:induction false} SpeedsStop(arm: Arm, request: PlanRequest, configs: seq<Config>, n: nat, m: nat)
    requires arm.Usable() && n <= m <= |request.waypoints| && |configs| == |request.waypoints| + 1
    requires Speeds(arm, request, configs, n).Err?
    ensures Speeds(arm, request, configs, m) == Speeds(arm, request, configs, n)
  {
    hide SegmentSpeedOf;
    if n < m {
      SpeedsStop(arm, request, configs, n, m - 1);
    }
  }

  method ResolveAll(arm: Arm, request: PlanRequest) returns (r: Result<seq<Config>, PlanError>)
    requires arm.Usable()
    ensures r == Configurations(arm, request, |request.waypoints|)
  {
    hide Resolve;
    var start := Resolve(arm, request, request.start, None, seq(6, _ => 0.0), 0);
    if start.Err? {
      ConfigurationsStop(arm, request, 0, |request.waypoints|);
      return Err(start.error);
    }
    var configs := [start.value];
    for i := 0 to |request.waypoints|
      invariant Configurations(arm, request, i) == Ok(configs)
    {
      var w := request.waypoints[i];
      var seed := OrElse(w.preferred, configs[|configs| - 1]);
      var q := Resolve(arm, request, w.target, w.preferred, seed, i + 1);
      if q.Err? {
        ConfigurationsStop(arm, request, i + 1, |request.waypoints|);
        return Err(q.error);
      }
      configs := configs + [q.value];
    }
    r := Ok(configs);
  }

  method SegmentSpeedFor(arm: Arm, from: Config, to: Config, interpolation: Interpolation, ceiling: real, index: nat)
    returns (r: Result<SegmentSpeed, PlanError>)
    requires arm.Usable()
    ensures r == SegmentSpeedOf(arm, from, to, interpolation, ceiling, index)
  {
    hide SampledRates, CartesianSpeedCap, JointSegmentSpeed, JointDelta, Flange;
    if interpolation == Linear {
      var pose := ForwardKinematics(arm.t, arm.dh, to);
      var rates := SampleLinearSegment(arm, from, pose, LINEAR_SAMPLE_STEP, MAX_LINEAR_SAMPLES);
      if rates.None? {
        return Err(LinearSegmentNotFollowable(index));
      }
      var cap := ComputeCartesianSpeedCap(rates.value, arm.limits, ceiling);
      r := Ok(cap);
    } else {
      var dq := ComputeJointDelta(from, to);
      var speed := ComputeJointSegmentSpeed(dq, arm.limits);
      r := if speed.None? then Err(DegenerateSegment(index)) else Ok(speed.value);
    }
  }

  /** The waypoints with no blends yet, and the duration of the whole. */
  function Timed(arm: Arm, request: PlanRequest, configs: seq<Config>): Result<(seq<PlannedWaypoint>, real), PlanError>
    requires arm.Usable() && |configs| == |request.waypoints| + 1
  {
    match Speeds(arm, request, configs, |request.waypoints|)
    case Err(e) => Err(e)
    case Ok(speeds) => Ok((Chain(arm, request, configs, speeds, 0), Duration(arm, request, configs, speeds)))
  }

  lemma ChainGrows(arm: Arm, request: PlanRequest, configs: seq<Config>, speeds: seq<SegmentSpeed>, speed: SegmentSpeed)
    requires |speeds| < |request.waypoints| && |configs| == |request.waypoints| + 1
    ensures Chain(arm, request, configs, speeds + [speed], 0)
         == Chain(arm, request, configs, speeds, 0) + [Planned(configs, request, speeds + [speed], |speeds|, 0.0)]
  {
    hide BlendAt;
    var a, b := Chain(arm, request, configs, speeds, 0), Chain(arm, request, configs, speeds + [speed], 0);
    forall i | 0 <= i < |speeds| ensures b[i] == a[i] {
      assert a[i] == Planned(configs, request, speeds, i, 0.0);
      assert b[i] == Planned(configs, request, speeds + [speed], i, 0.0);
    }
  }

  /** The speed loop, which emits the waypoints with no blends yet and adds up their durations. */
  method TimeSegments(arm: Arm, request: PlanRequest, configs: seq<Config>)
    returns (r: Result<(seq<PlannedWaypoint>, real), PlanError>)
    requires arm.Usable() && |configs| == |request.waypoints| + 1
    ensures r == Timed(arm, request, configs)
  {
    hide SegmentSpeedOf, TrapezoidDuration, TravelOf, BlendAt, Flange, Norm, MaxTravel, JointDelta;
    var planned := [];
    var duration := 0.0;
    ghost var speeds: seq<SegmentSpeed> := [];
    assert Chain(arm, request, configs, speeds, 0) == [];
    for i := 0 to |request.waypoints|
      invariant Speeds(arm, request, configs, i) == Ok(speeds)
      invariant planned == Chain(arm, request, configs, speeds, 0)
      invariant duration == Duration(arm, request, configs, speeds)
    {
      var interpolation := request.waypoints[i].interpolation;
      var speed := SegmentSpeedFor(arm, configs[i], configs[i + 1], interpolation, request.maxCartesianSpeed, i + 1);
      if speed.Err? {
        SpeedsStop(arm, request, configs, i + 1, |request.waypoints|);
        return Err(speed.error);
      }
      ghost var before := speeds;
      speeds := speeds + [speed.value];
      assert speeds[..i] == before;
      duration := duration + TrapezoidDuration(arm.t, TravelOf(arm, configs[i], configs[i + 1], interpolation),
                                               speed.value.velocity, speed.value.acceleration);
      planned := planned + [PlannedWaypoint(configs[i + 1], speed.value.velocity, speed.value.acceleration, 0.0,
                                            interpolation == Linear, speed.value.limitingJoint)];
      ChainGrows(arm, request, configs, before, speed.value);
    }
    r := Ok((planned, duration));
  }

  /** The blend loop, which overwrites the radius at every inner corner that has one. */
  method BlendCorners(arm: Arm, request: PlanRequest, configs: seq<Config>, ghost speeds: seq<SegmentSpeed>, timed: seq<PlannedWaypoint>)
    returns (planned: seq<PlannedWaypoint>)
    requires |speeds| == |request.waypoints| > 0 && |configs| == |request.waypoints| + 1
    requires timed == Chain(arm, request, configs, speeds, 0)
    ensures planned == Chain(arm, request, configs, speeds, |request.waypoints|)
  {
    hide Flange, Norm, CornerDeflection, BlendRadius;
    planned := timed;
    for i := 0 to |timed| - 1
      invariant planned == Chain(arm, request, configs, speeds, i)
    {
      ghost var before := planned;
      var deflection := CornerDeflection(arm.t, Point(arm, configs, i), Point(arm, configs, i + 1), Point(arm, configs, i + 2));
      if deflection.Some? {
        var r := ComputeBlendRadius(arm.t, deflection.value, ChordTo(arm, configs, i), ChordTo(arm, configs, i + 1),
                                    request.maxPathDeviation, request.waypoints[i].blendRadius);
        planned := planned[i := planned[i].(blendRadius := r)];
      }
      assert planned == Chain(arm, request, configs, speeds, i + 1);
    }
    assert planned == Chain(arm, request, configs, speeds, |request.waypoints|);
  }

  method MakePlan(c: Catalogue, request: PlanRequest) returns (r: Result<PlannedTrajectory, PlanError>)
    requires c.t.pi > 0.0
    ensures r == PlanOf(c, request)
  {
    hide Configurations, Speeds, Chain, Duration;
    var dh := ForModel(request.robotModel);
    if dh.None? {
      return Err(UnknownModel(request.robotModel));
    }
    if request.waypoints == [] {
      return Err(NoWaypoints);
    }
    if |request.waypoints| > MAX_WAYPOINTS {
      return Err(TooManyWaypoints(|request.waypoints|, MAX_WAYPOINTS));
    }
    var base := c.limitsOf(request.robotModel);
    if base.None? {
      return Err(UnknownModel(request.robotModel));
    }
    var limits := ScaleLimits(Overridden(base.value, request.accelerationMax), request.scaling);
    var arm := Arm(c.t, dh.value, limits, c.geometry);
    var configs := ResolveAll(arm, request);
    if configs.Err? {
      return Err(configs.error);
    }
    var timed := TimeSegments(arm, request, configs.value);
    if timed.Err? {
      return Err(timed.error);
    }
    ghost var speeds := Speeds(arm, request, configs.value, |request.waypoints|).value;
    var planned := BlendCorners(arm, request, configs.value, speeds, timed.value.0);
    r := Ok(PlannedTrajectory(request.robotModel, configs.value[0], planned, timed.value.1, limits));
  }
}
