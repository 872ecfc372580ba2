/** What a plan promises: legal nearest configurations, blends that never overlap. */
module PlanProofs {
  import opened Results
  import opened Trigonometry
  import opened Poses
  import opened Kinematics
  import opened IkBranches
  import opened Turns
  import opened LimitsModel
  import opened Resolution
  import opened Timing
  import opened Trapezoid
  import opened Path
  import opened Plan

  // --- the arm ---

  /** The limits planned with: the model's, with the caller's accelerations if given, times the scales in (0, 1]. */
  ghost predicate PlansWith(base: Limits, request: PlanRequest, limits: Limits) {
    var v, a := request.scaling.velocity, request.scaling.acceleration;
    && limits.positionMin == base.positionMin && limits.positionMax == base.positionMax
    && forall i :: 0 <= i < 6 ==>
         var amax := if request.accelerationMax.Some? then request.accelerationMax.value[i] else base.accelerationMax[i];
         && limits.velocityMax[i] == (if 0.0 < v <= 1.0 then base.velocityMax[i] * v else base.velocityMax[i])
         && limits.accelerationMax[i] == (if 0.0 < a <= 1.0 then amax * a else amax)
  }

  /** A request is planned for exactly when its model is known and it has 1 to 400 waypoints; the first thing wrong is named. */
  lemma ArmExact(c: Catalogue, request: PlanRequest)
    requires c.t.pi > 0.0
    ensures var r, n := ArmFor(c, request), |request.waypoints|;
            var dh, base := ForModel(request.robotModel), c.limitsOf(request.robotModel);
            && (r.Ok? <==> dh.Some? && base.Some? && 1 <= n <= 400)
            && (r.Ok? ==>
                  && r.value.t == c.t && r.value.dh == dh.value && r.value.geometry == c.geometry
                  && PlansWith(base.value, request, r.value.limits))
            && (r.Err? ==>
                  r.error == if dh.None? then UnknownModel(request.robotModel)
                             else if n == 0 then NoWaypoints
                             else if n > 400 then TooManyWaypoints(n, 400)
                             else UnknownModel(request.robotModel))
  {
    var base := c.limitsOf(request.robotModel);
    if base.Some? {
      ScaledExact(Overridden(base.value, request.accelerationMax), request.scaling);
    }
  }

  // --- resolution ---

  /** A pose as given, or turned by half about the vertical when it is told in a `base_link` that is not the controller's base. */
  function UrBasePose(p: Pose, frame: PoseFrame, baseLinkIsUrBase: bool): Pose {
    if frame == UrBase || baseLinkIsUrBase then p else Pose(HalfTurned(p.n), HalfTurned(p.o), HalfTurned(p.a), HalfTurned(p.p))
  }

  lemma TargetPoseIs(arm: Arm, baseLinkIsUrBase: bool, values: Config, frame: PoseFrame)
    requires arm.t.Lawful()
    ensures TargetPose(arm, baseLinkIsUrBase, values, frame) == UrBasePose(arm.geometry.poseFromArray(values), frame, baseLinkIsUrBase)
  {
    hide BaseLinkToUrBase, HalfTurned;
    FrameChangeExact(arm.t, arm.geometry.poseFromArray(values));
  }

  /** A legal answer to a target, whatever the seed. */
  ghost predicate Acceptable(arm: Arm, request: PlanRequest, target: WaypointTarget, q: Config)
    requires arm.Usable()
  {
    match target
    case Joints(given) => q == given && arm.limits.Contains(q)
    case AtPose(values, frame) =>
      Candidate(arm.t, arm.dh, arm.limits, UrBasePose(arm.geometry.poseFromArray(values), frame, request.baseLinkIsUrBase), q)
  }

  /** An acceptable configuration that no other beats for closeness to the seed. */
  ghost predicate BestFor(arm: Arm, request: PlanRequest, target: WaypointTarget, seed: Config, q: Config)
    requires arm.Usable()
  {
    && Acceptable(arm, request, target, q)
    && forall v :: Acceptable(arm, request, target, v) ==> ConfigurationDistance(q, seed) <= ConfigurationDistance(v, seed)
  }

  lemma ResolveExact(arm: Arm, request: PlanRequest, target: WaypointTarget, preferred: Option<Config>, seed: Config, index: nat)
    requires arm.Lawful()
    ensures var r := Resolve(arm, request, target, preferred, seed, index);
            && (r.Ok? <==> exists q :: Acceptable(arm, request, target, q))
            && (r.Ok? ==> BestFor(arm, request, target, OrElse(preferred, seed), r.value))
            && (r.Err? ==> r.error.Unresolved? && r.error.error.index == index)
  {
    hide ResolvePose, Candidate, TargetPose, UrBasePose, ConfigurationDistance;
    match target {
      case Joints(given) =>
        if arm.limits.Contains(given) {
          assert Acceptable(arm, request, target, given);
        }
      case AtPose(values, frame) =>
        var x := TargetPose(arm, request.baseLinkIsUrBase, values, frame);
        TargetPoseIs(arm, request.baseLinkIsUrBase, values, frame);
        ResolvePoseExact(arm.t, arm.dh, arm.limits, x, OrElse(preferred, seed), index);
        assert forall q :: Acceptable(arm, request, target, q) <==> Candidate(arm.t, arm.dh, arm.limits, x, q);
    }
  }

  /** Target `i`: the start, and then the waypoints. */
  function TargetAt(request: PlanRequest, i: nat): WaypointTarget
    requires i <= |request.waypoints|
  {
    if i == 0 then request.start else request.waypoints[i - 1].target
  }

  /** What target `i` is resolved near: the caller's preference, else the configuration before; zeros for the start. */
  function SeedAt(request: PlanRequest, configs: seq<Config>, i: nat): Config
    requires i <= |request.waypoints| && i <= |configs|
  {
    if i == 0 then seq(6, _ => 0.0)
    else
      match request.waypoints[i - 1].preferred
      case Some(q) => q
      case None => configs[i - 1]
  }

  ghost predicate HasAnswer(arm: Arm, request: PlanRequest, i: nat)
    requires arm.Usable() && i <= |request.waypoints|
  {
    exists q :: Acceptable(arm, request, TargetAt(request, i), q)
  }

  ghost predicate BestAt(arm: Arm, request: PlanRequest, configs: seq<Config>, i: nat)
    requires arm.Usable() && i <= |request.waypoints| && i < |configs|
  {
    BestFor(arm, request, TargetAt(request, i), SeedAt(request, configs, i), configs[i])
  }

  lemma StepExact(arm: Arm, request: PlanRequest, configs: seq<Config>, i: nat)
    requires arm.Lawful() && i <= |request.waypoints| && i == |configs|
    ensures var target := TargetAt(request, i);
            var preferred := if i == 0 then None else request.waypoints[i - 1].preferred;
            var r := Resolve(arm, request, target, preferred, SeedAt(request, configs, i), i);
            && (r.Ok? <==> HasAnswer(arm, request, i))
            && (r.Ok? ==> BestAt(arm, request, configs + [r.value], i))
            && (r.Err? ==> r.error.Unresolved? && r.error.error.index == i)
  {
    hide Resolve, Acceptable, BestFor;
    var seed := SeedAt(request, configs, i);
    ResolveExact(arm, request, TargetAt(request, i), if i == 0 then None else request.waypoints[i - 1].preferred, seed, i);
    forall q ensures SeedAt(request, configs + [q], i) == seed {
    }
  }

  lemma BestAtGrows(arm: Arm, request: PlanRequest, configs: seq<Config>, q: Config, i: nat)
    requires arm.Usable() && i <= |request.waypoints| && i < |configs|
    ensures BestAt(arm, request, configs + [q], i) <==> BestAt(arm, request, configs, i)
  {
    hide BestFor;
    assert SeedAt(request, configs + [q], i) == SeedAt(request, configs, i);
  }

  /**
   The resolve loop succeeds exactly when every target has some acceptable configuration: seeding only chooses
   among them. Each choice is the best for its seed, and a failure names the first target that has none.
   */
  lemma {:induction false} ConfigurationsExact(arm: Arm, request: PlanRequest, n: nat)
    requires arm.Lawful() && n <= |request.waypoints|
    ensures var r := Configurations(arm, request, n);
            && (r.Ok? ==> forall i :: 0 <= i <= n ==> HasAnswer(arm, request, i) && BestAt(arm, request, r.value, i))
            && (r.Err? ==>
                  && r.error.Unresolved? && r.error.error.index <= n
                  && !HasAnswer(arm, request, r.error.error.index)
                  && forall i :: 0 <= i < r.error.error.index ==> HasAnswer(arm, request, i))
  {
    hide Resolve, HasAnswer, BestAt;
    if n == 0 {
      StepExact(arm, request, [], 0);
      assert forall q: Config :: [] + [q] == [q];
    } else {
      ConfigurationsExact(arm, request, n - 1);
      var before := Configurations(arm, request, n - 1);
      if before.Ok? {
        StepExact(arm, request, before.value, n);
        var r := Configurations(arm, request, n);
        if r.Ok? {
          forall i | 0 <= i < n ensures BestAt(arm, request, r.value, i) {
            BestAtGrows(arm, request, before.value, r.value[n], i);
          }
        }
      }
    }
  }

  /** Where the plan puts the arm: at its start, and then at each waypoint. */
  function Stops(plan: PlannedTrajectory): (stops: seq<Config>)
    ensures |stops| == |plan.waypoints| + 1
  {
    [plan.startJointPositions] + seq(|plan.waypoints|, i requires 0 <= i < |plan.waypoints| => plan.waypoints[i].jointPositions)
  }

  /** The stops of a plan are the resolved configurations. */
  lemma PlanStops(c: Catalogue, request: PlanRequest) returns (arm: Arm, configs: seq<Config>, speeds: seq<SegmentSpeed>)
    requires c.t.pi > 0.0 && PlanOf(c, request).Ok?
    ensures ArmFor(c, request) == Ok(arm) && arm.t == c.t && request.waypoints != []
    ensures Configurations(arm, request, |request.waypoints|) == Ok(configs) && |configs| == |request.waypoints| + 1
    ensures Speeds(arm, request, configs, |request.waypoints|) == Ok(speeds) && |speeds| == |request.waypoints|
    ensures var plan := PlanOf(c, request).value;
            && plan.robotModel == request.robotModel && plan.limits == arm.limits && |plan.waypoints| == |request.waypoints|
            && Stops(plan) == configs
            && plan.durationEstimate == Duration(arm, request, configs, speeds)
            && forall i :: 0 <= i < |request.waypoints|
                 ==> plan.waypoints[i] == Planned(configs, request, speeds, i, BlendAt(arm, request, configs, i))
  {
    hide Configurations, Speeds, Duration, BlendAt;
    arm := ArmFor(c, request).value;
    configs := Configurations(arm, request, |request.waypoints|).value;
    speeds := Speeds(arm, request, configs, |request.waypoints|).value;
    var stops := Stops(PlanOf(c, request).value);
    forall i | 0 <= i < |stops| ensures stops[i] == configs[i] {
    }
  }

  /**
   Every stop of a plan is the best acceptable answer to its target, and so within the limits. Planning fails
   to resolve exactly when some target has no acceptable answer.
   */
  lemma PlanResolves(c: Catalogue, request: PlanRequest)
    requires c.t.Lawful() && ArmFor(c, request).Ok? && ArmFor(c, request).value.Lawful()
    ensures var arm, r := ArmFor(c, request).value, PlanOf(c, request);
            && ((r.Err? && r.error.Unresolved?) <==> exists i :: 0 <= i <= |request.waypoints| && !HasAnswer(arm, request, i))
            && (r.Ok? ==>
                  && r.value.robotModel == request.robotModel && r.value.limits == arm.limits
                  && |r.value.waypoints| == |request.waypoints|
                  && forall i :: 0 <= i <= |request.waypoints| ==>
                       && arm.limits.Contains(Stops(r.value)[i])
                       && BestAt(arm, request, Stops(r.value), i))
  {
    hide Configurations, Speeds, Duration, Chain, HasAnswer, BestAt, Limits.Contains, ArmFor;
    var arm := ArmFor(c, request).value;
    ConfigurationsExact(arm, request, |request.waypoints|);
    var resolved := Configurations(arm, request, |request.waypoints|);
    if resolved.Ok? {
      SpeedErrors(arm, request, resolved.value, |request.waypoints|);
    }
    if PlanOf(c, request).Ok? {
      var arm', configs, speeds := PlanStops(c, request);
      forall i | 0 <= i <= |request.waypoints| ensures arm.limits.Contains(configs[i]) {
        BestIsLegal(arm, request, configs, i);
      }
    }
  }

  lemma BestIsLegal(arm: Arm, request: PlanRequest, configs: seq<Config>, i: nat)
    requires arm.Usable() && i <= |request.waypoints| && i < |configs| && BestAt(arm, request, configs, i)
    ensures arm.limits.Contains(configs[i])
  {
    hide TargetPose, ConfigurationDistance, Branches;
  }

  lemma {:induction false} SpeedErrors(arm: Arm, request: PlanRequest, configs: seq<Config>, n: nat)
    requires arm.Usable() && n <= |request.waypoints| && |configs| == |request.waypoints| + 1
    ensures var r := Speeds(arm, request, configs, n); r.Err? ==> !r.error.Unresolved?
  {
    hide SampledRates, JointSegmentSpeed, CartesianSpeedCap, Flange, JointDelta;
    if n > 0 {
      SpeedErrors(arm, request, configs, n - 1);
    }
  }

  // --- speeds ---

  /** What segment `i` by itself is timed at. */
  function SegmentAt(arm: Arm, request: PlanRequest, configs: seq<Config>, i: nat): Result<SegmentSpeed, PlanError>
    requires arm.Usable() && |configs| == |request.waypoints| + 1 && i < |request.waypoints|
  {
    SegmentSpeedOf(arm, configs[i], configs[i + 1], request.waypoints[i].interpolation, request.maxCartesianSpeed, i + 1)
  }

  /** The speed loop succeeds exactly when every segment does, and fails as the first that does not. */
  lemma {:induction false} SpeedsExact(arm: Arm, request: PlanRequest, configs: seq<Config>, n: nat)
    requires arm.Usable() && n <= |request.waypoints| && |configs| == |request.waypoints| + 1
    ensures var r := Speeds(arm, request, configs, n);
            && (r.Ok? ==> forall i :: 0 <= i < n ==> SegmentAt(arm, request, configs, i) == Ok(r.value[i]))
            && (r.Err? ==> exists i :: 0 <= i < n && FirstFailure(arm, request, configs, i, r.error))
  {
    hide SegmentSpeedOf;
    if n > 0 {
      SpeedsExact(arm, request, configs, n - 1);
      var before, r := Speeds(arm, request, configs, n - 1), Speeds(arm, request, configs, n);
      if before.Err? {
        var i :| 0 <= i < n - 1 && FirstFailure(arm, request, configs, i, before.error);
        assert FirstFailure(arm, request, configs, i, r.error);
      } else if r.Err? {
        assert FirstFailure(arm, request, configs, n - 1, r.error);
      }
    }
  }

  ghost predicate FirstFailure(arm: Arm, request: PlanRequest, configs: seq<Config>, i: nat, error: PlanError)
    requires arm.Usable() && |configs| == |request.waypoints| + 1
  {
    && i < |request.waypoints| && SegmentAt(arm, request, configs, i) == Err(error)
    && forall j :: 0 <= j < i ==> SegmentAt(arm, request, configs, j).Ok?
  }

  /** The lead speed and acceleration are the greatest that every joint can follow; the limiting joint is the first at its limit. */
  ghost predicate LeadsBest(dq: Config, limits: Limits, w: SegmentSpeed) {
    && (forall v :: v <= w.velocity <==> Feasible(dq, limits.velocityMax, v))
    && (forall a :: a <= w.acceleration <==> Feasible(dq, limits.accelerationMax, a))
    && w.limitingJoint < 6 && Abs(dq[w.limitingJoint]) > 0.000000001
    && Load(dq, w.velocity, w.limitingJoint) == Allowance(dq, limits.velocityMax, w.limitingJoint)
    && forall i :: 0 <= i < w.limitingJoint && Abs(dq[i]) > 0.000000001
         ==> Load(dq, w.velocity, i) < Allowance(dq, limits.velocityMax, i)
  }

  /** A tool speed within the ceiling that every joint can sustain at every sample. */
  ghost predicate Sustained(rates: seq<Config>, limits: Limits, ceiling: real, v: real) {
    v <= ceiling && forall k :: 0 <= k < |rates| ==> Sustains(rates[k], limits.velocityMax, v, 6)
  }

  /** The tool speed is the greatest within the ceiling that every joint can sustain at every sample. */
  ghost predicate SustainsBest(rates: seq<Config>, limits: Limits, ceiling: real, w: SegmentSpeed) {
    && (forall v :: v <= w.velocity <==> Sustained(rates, limits, ceiling, v))
    && (w.velocity == ceiling || exists k :: 0 <= k < |rates| && Saturates(rates[k], limits.velocityMax, w.velocity, w.limitingJoint))
    && (ceiling > 0.0 ==> w.acceleration * ceiling == w.velocity)
  }

  /** The speed of a move from one configuration to another, by its kind. */
  ghost predicate MovesBest(arm: Arm, from: Config, to: Config, interpolation: Interpolation, ceiling: real, w: SegmentSpeed)
    requires arm.Usable()
  {
    match interpolation
    case Joint => LeadsBest(JointDelta(from, to), arm.limits, w)
    case Linear =>
      exists samples, rates ::
        Follows(arm, from, Flange(arm.t, arm.dh, to), 0.005, 2000, samples, rates) && SustainsBest(rates, arm.limits, ceiling, w)
  }

  ghost predicate Movable(arm: Arm, from: Config, to: Config, interpolation: Interpolation, ceiling: real)
    requires arm.Usable()
  {
    exists w :: MovesBest(arm, from, to, interpolation, ceiling, w)
  }

  /** A move without a speed: no joint moves, or the straight line cannot be followed. */
  ghost predicate Unmovable(arm: Arm, from: Config, to: Config, interpolation: Interpolation)
    requires arm.Usable()
  {
    match interpolation
    case Joint => forall i :: 0 <= i < 6 ==> Abs(JointDelta(from, to)[i]) <= 0.000000001
    case Linear => exists n, samples :: Stuck(arm, from, Flange(arm.t, arm.dh, to), 0.005, 2000, n, samples)
  }

  lemma LeadExact(dq: Config, limits: Limits)
    ensures var r := JointSegmentSpeed(dq, limits);
            && (r.Some? ==> LeadsBest(dq, limits, r.value))
            && (r.None? ==> forall i :: 0 <= i < 6 ==> Abs(dq[i]) <= 0.000000001)
  {
    hide JointSegmentSpeed, Load, Allowance, Feasible;
    GreatestJointSpeed(dq, limits, 0.0);
    MovesMeans(dq);
    if JointSegmentSpeed(dq, limits).Some? {
      var s := JointSegmentSpeed(dq, limits).value;
      forall v ensures v <= s.velocity <==> Feasible(dq, limits.velocityMax, v) {
        GreatestJointSpeed(dq, limits, v);
      }
      forall a ensures a <= s.acceleration <==> Feasible(dq, limits.accelerationMax, a) {
        GreatestJointSpeed(dq, limits, a);
      }
    }
  }

  lemma CapExact(rates: seq<Config>, limits: Limits, ceiling: real)
    ensures SustainsBest(rates, limits, ceiling, CartesianSpeedCap(rates, limits, ceiling))
  {
    hide CartesianSpeedCap, Sustains, Saturates;
    var s := CartesianSpeedCap(rates, limits, ceiling);
    GreatestToolSpeed(rates, limits, ceiling, 0.0);
    forall v ensures v <= s.velocity <==> Sustained(rates, limits, ceiling, v) {
      GreatestToolSpeed(rates, limits, ceiling, v);
    }
  }

  lemma SegmentExact(arm: Arm, from: Config, to: Config, interpolation: Interpolation, ceiling: real, index: nat)
    requires arm.Lawful()
    ensures var r := SegmentSpeedOf(arm, from, to, interpolation, ceiling, index);
            && (r.Ok? ==> MovesBest(arm, from, to, interpolation, ceiling, r.value))
            && (r.Err? ==>
                  && Unmovable(arm, from, to, interpolation)
                  && r.error == if interpolation == Joint then DegenerateSegment(index) else LinearSegmentNotFollowable(index))
  {
    hide SampledRates, CartesianSpeedCap, JointSegmentSpeed, JointDelta, Flange, LeadsBest, SustainsBest, Follows, Stuck;
    if interpolation == Joint {
      LeadExact(JointDelta(from, to), arm.limits);
    } else {
      var pose := Flange(arm.t, arm.dh, to);
      SegmentFollowed(arm, from, pose, LINEAR_SAMPLE_STEP, MAX_LINEAR_SAMPLES);
      var rates := SampledRates(arm, from, pose, LINEAR_SAMPLE_STEP, MAX_LINEAR_SAMPLES);
      if rates.Some? {
        CapExact(rates.value, arm.limits, ceiling);
      }
    }
  }

  function SpeedOf(w: PlannedWaypoint): SegmentSpeed { SegmentSpeed(w.velocity, w.acceleration, w.limitingJoint) }

  lemma SpeedsAreBest(arm: Arm, request: PlanRequest, configs: seq<Config>, speeds: seq<SegmentSpeed>)
    requires arm.Lawful() && |configs| == |request.waypoints| + 1
    requires Speeds(arm, request, configs, |request.waypoints|) == Ok(speeds)
    ensures forall i :: 0 <= i < |request.waypoints| ==>
              MovesBest(arm, configs[i], configs[i + 1], request.waypoints[i].interpolation, request.maxCartesianSpeed, speeds[i])
  {
    hide Speeds, SegmentSpeedOf, MovesBest, Unmovable;
    SpeedsExact(arm, request, configs, |request.waypoints|);
    forall i | 0 <= i < |request.waypoints|
      ensures MovesBest(arm, configs[i], configs[i + 1], request.waypoints[i].interpolation, request.maxCartesianSpeed, speeds[i])
    {
      assert SegmentAt(arm, request, configs, i) == Ok(speeds[i]);
      SegmentExact(arm, configs[i], configs[i + 1], request.waypoints[i].interpolation, request.maxCartesianSpeed, i + 1);
    }
  }

  /** Every move of a plan is as fast as its arm allows, and goes where and how it was asked to. */
  lemma PlanSpeedsAreGreatest(c: Catalogue, request: PlanRequest)
    requires c.t.pi > 0.0 && ArmFor(c, request).Ok? && ArmFor(c, request).value.Lawful()
    ensures PlanOf(c, request).Ok? ==>
            var arm, plan := ArmFor(c, request).value, PlanOf(c, request).value;
            && |plan.waypoints| == |request.waypoints|
            && forall i :: 0 <= i < |plan.waypoints| ==>
                 var interpolation, w := request.waypoints[i].interpolation, plan.waypoints[i];
                 && w.jointPositions == Stops(plan)[i + 1] && (w.useLinearMotion <==> interpolation == Linear)
                 && MovesBest(arm, Stops(plan)[i], Stops(plan)[i + 1], interpolation, request.maxCartesianSpeed, SpeedOf(w))
  {
    hide Configurations, Speeds, Duration, BlendAt, PlanOf, ArmFor, MovesBest, Stops, Arm.Lawful;
    if PlanOf(c, request).Ok? {
      var arm, configs, speeds := PlanStops(c, request);
      SpeedsAreBest(arm, request, configs, speeds);
    }
  }

  // --- failing ---

  /** The targets all resolve, but the move to waypoint `i` has no speed, and it is the first. */
  ghost predicate StopsAt(arm: Arm, request: PlanRequest, configs: seq<Config>, i: nat)
    requires arm.Usable()
  {
    && |configs| == |request.waypoints| + 1 && 1 <= i <= |request.waypoints|
    && (forall j :: 0 <= j <= |request.waypoints| ==> BestAt(arm, request, configs, j))
    && Unmovable(arm, configs[i - 1], configs[i], request.waypoints[i - 1].interpolation)
    && forall j :: 1 <= j < i ==>
         Movable(arm, configs[j - 1], configs[j], request.waypoints[j - 1].interpolation, request.maxCartesianSpeed)
  }

  /** Why a plan fails: nothing to plan with, a target without an answer, or a move without a speed, in that order. */
  lemma PlanFails(c: Catalogue, request: PlanRequest)
    requires c.t.Lawful()
    requires c.limitsOf(request.robotModel).Some? ==>
               var base := c.limitsOf(request.robotModel).value; OneTurnLimits(c.t, base.positionMin, base.positionMax)
    ensures PlanOf(c, request).Err? ==>
              var e := PlanOf(c, request).error;
              || (ArmFor(c, request).Err? && e == ArmFor(c, request).error)
              || (ArmFor(c, request).Ok? &&
                  var arm := ArmFor(c, request).value;
                  || (e.Unresolved? && e.error.index <= |request.waypoints| && !HasAnswer(arm, request, e.error.index)
                      && forall j :: 0 <= j < e.error.index ==> HasAnswer(arm, request, j))
                  || exists configs, i :: StopsAt(arm, request, configs, i)
                       && e == if request.waypoints[i - 1].interpolation == Joint then DegenerateSegment(i)
                               else LinearSegmentNotFollowable(i))
  {
    hide ForModel, Configurations, Speeds, Chain, Duration, HasAnswer, BestAt, MovesBest, Unmovable, SegmentSpeedOf, PlansWith;
    ArmExact(c, request);
    if ArmFor(c, request).Ok? {
      var arm, n := ArmFor(c, request).value, |request.waypoints|;
      assert arm.Lawful() by { hide ArmFor; LawfulArm(c, request); }
      hide ArmFor;
      ConfigurationsExact(arm, request, n);
      var resolved := Configurations(arm, request, n);
      if resolved.Ok? && PlanOf(c, request).Err? {
        var configs := resolved.value;
        SpeedsExact(arm, request, configs, n);
        FirstStop(arm, request, configs, PlanOf(c, request).error);
      }
    }
  }

  lemma LawfulArm(c: Catalogue, request: PlanRequest)
    requires c.t.Lawful() && ArmFor(c, request).Ok?
    requires c.limitsOf(request.robotModel).Some? ==>
               var base := c.limitsOf(request.robotModel).value; OneTurnLimits(c.t, base.positionMin, base.positionMax)
    ensures ArmFor(c, request).value.Lawful()
  {
    hide ArmFor;
    ArmExact(c, request);
  }

  lemma FirstStop(arm: Arm, request: PlanRequest, configs: seq<Config>, error: PlanError)
    requires arm.Lawful() && |configs| == |request.waypoints| + 1
    requires forall j :: 0 <= j <= |request.waypoints| ==> BestAt(arm, request, configs, j)
    requires exists i :: 0 <= i < |request.waypoints| && FirstFailure(arm, request, configs, i, error)
    ensures exists i :: StopsAt(arm, request, configs, i)
              && error == if request.waypoints[i - 1].interpolation == Joint then DegenerateSegment(i) else LinearSegmentNotFollowable(i)
  {
    hide SegmentSpeedOf, BestAt, MovesBest, Unmovable;
    var i :| 0 <= i < |request.waypoints| && FirstFailure(arm, request, configs, i, error);
    SegmentExact(arm, configs[i], configs[i + 1], request.waypoints[i].interpolation, request.maxCartesianSpeed, i + 1);
    forall j | 1 <= j < i + 1
      ensures Movable(arm, configs[j - 1], configs[j], request.waypoints[j - 1].interpolation, request.maxCartesianSpeed)
    {
      assert SegmentAt(arm, request, configs, j - 1).Ok?;
      SegmentExact(arm, configs[j - 1], configs[j], request.waypoints[j - 1].interpolation, request.maxCartesianSpeed, j);
    }
    assert StopsAt(arm, request, configs, i + 1);
  }

  // --- blends ---

  function StopPoint(c: Catalogue, dh: Dh, plan: PlannedTrajectory, i: nat): Vec3
    requires i <= |plan.waypoints|
  {
    Flange(c.t, dh, Stops(plan)[i]).p
  }

  /** The straight-line distance the tool covers on the way to waypoint `i`. */
  function PlanChord(c: Catalogue, dh: Dh, plan: PlannedTrajectory, i: nat): real
    requires i < |plan.waypoints|
  {
    Chord(c.t, StopPoint(c, dh, plan, i), StopPoint(c, dh, plan, i + 1))
  }

  /** A radius that can be run at a corner, by the angle the path turns by there. */
  ghost predicate CornerTakes(t: Trig, u: Vec3, v: Vec3, w: Vec3, maxDeviation: real, requested: Option<real>, r: real) {
    && Chord(t, u, v) > 0.000000000001 && Chord(t, v, w) > 0.000000000001
    && exists phi :: TurnsBy(t, u, v, w, phi) && Blendable(t, phi, Chord(t, u, v), Chord(t, v, w), maxDeviation, requested, r)
  }

  /** The radius is one that can be run, or zero, and none that can be run is greater. */
  ghost predicate CornerBest(t: Trig, u: Vec3, v: Vec3, w: Vec3, maxDeviation: real, requested: Option<real>, r: real) {
    && (r == 0.0 || CornerTakes(t, u, v, w, maxDeviation, requested, r))
    && forall b :: CornerTakes(t, u, v, w, maxDeviation, requested, b) ==> b <= r
  }

  function CornerBlend(t: Trig, u: Vec3, v: Vec3, w: Vec3, maxDeviation: real, requested: Option<real>): real {
    match CornerDeflection(t, u, v, w)
    case None => 0.0
    case Some(phi) => BlendRadius(t, phi, Chord(t, u, v), Chord(t, v, w), maxDeviation, requested)
  }

  lemma CornerBlendExact(t: Trig, u: Vec3, v: Vec3, w: Vec3, maxDeviation: real, requested: Option<real>)
    requires t.Lawful()
    ensures CornerBest(t, u, v, w, maxDeviation, requested, CornerBlend(t, u, v, w, maxDeviation, requested))
  {
    hide Chord, CornerDeflection, Blendable, BlendRadius, TurnsBy;
    CornerExact(t, u, v, w);
    var corner, r := CornerDeflection(t, u, v, w), CornerBlend(t, u, v, w, maxDeviation, requested);
    if corner.Some? {
      var phi := corner.value;
      GreatestBlend(t, phi, Chord(t, u, v), Chord(t, v, w), maxDeviation, requested);
      forall b | CornerTakes(t, u, v, w, maxDeviation, requested, b) ensures b <= r {
        var psi :| TurnsBy(t, u, v, w, psi) && Blendable(t, psi, Chord(t, u, v), Chord(t, v, w), maxDeviation, requested, b);
        OneTurning(t, u, v, w, phi, psi);
      }
    }
  }

  ghost predicate BlendsBest(c: Catalogue, request: PlanRequest, dh: Dh, plan: PlannedTrajectory, i: nat)
    requires |plan.waypoints| == |request.waypoints| && i + 1 < |plan.waypoints|
  {
    CornerBest(c.t, StopPoint(c, dh, plan, i), StopPoint(c, dh, plan, i + 1), StopPoint(c, dh, plan, i + 2),
               request.maxPathDeviation, request.waypoints[i].blendRadius, plan.waypoints[i].blendRadius)
  }

  /** Each blend is the greatest its corner can run, or zero where none can; the last is zero. */
  lemma BlendsAreGreatest(c: Catalogue, request: PlanRequest)
    requires c.t.Lawful()
    ensures PlanOf(c, request).Ok? ==>
            ForModel(request.robotModel).Some? && |PlanOf(c, request).value.waypoints| == |request.waypoints| > 0 &&
            var plan, dh := PlanOf(c, request).value, ForModel(request.robotModel).value;
            && plan.waypoints[|plan.waypoints| - 1].blendRadius == 0.0
            && forall i :: 0 <= i < |plan.waypoints| - 1 ==> BlendsBest(c, request, dh, plan, i)
  {
    hide Configurations, Speeds, Duration, PlanOf, Stops, Chord, CornerDeflection, CornerBest, BlendRadius, Flange;
    if PlanOf(c, request).Ok? {
      var arm, configs, speeds := PlanStops(c, request);
      var plan, dh := PlanOf(c, request).value, ForModel(request.robotModel).value;
      forall i | 0 <= i < |plan.waypoints| - 1 ensures BlendsBest(c, request, dh, plan, i) {
        CornerBlendExact(c.t, Point(arm, configs, i), Point(arm, configs, i + 1), Point(arm, configs, i + 2),
                         request.maxPathDeviation, request.waypoints[i].blendRadius);
      }
    }
  }

  lemma WithinChord(t: Trig, u: Vec3, v: Vec3, w: Vec3, maxDeviation: real, requested: Option<real>, r: real)
    requires t.Lawful() && CornerBest(t, u, v, w, maxDeviation, requested, r)
    ensures 0.0 <= r <= 0.4 * Chord(t, u, v) && r <= 0.4 * Chord(t, v, w) && (r != 0.0 ==> r >= 0.001)
  {
    hide Chord, TurnsBy;
    ChordExact(t, u, v);
    ChordExact(t, v, w);
  }

  /** Blends never overlap: two neighbours together take at most four fifths of the chord between them. */
  lemma BlendsNeverOverlap(c: Catalogue, request: PlanRequest)
    requires c.t.Lawful()
    ensures PlanOf(c, request).Ok? ==>
            ForModel(request.robotModel).Some? &&
            var plan, dh := PlanOf(c, request).value, ForModel(request.robotModel).value;
            forall i :: 0 <= i < |plan.waypoints| - 1 ==>
              && 0.0 <= plan.waypoints[i].blendRadius
              && plan.waypoints[i].blendRadius + plan.waypoints[i + 1].blendRadius <= 0.8 * PlanChord(c, dh, plan, i + 1)
  {
    hide PlanOf, Stops, Chord, StopPoint, CornerBest;
    BlendsAreGreatest(c, request);
    if PlanOf(c, request).Ok? {
      var plan, dh := PlanOf(c, request).value, ForModel(request.robotModel).value;
      forall i | 0 <= i < |plan.waypoints| - 1
        ensures 0.0 <= plan.waypoints[i].blendRadius
        ensures plan.waypoints[i].blendRadius + plan.waypoints[i + 1].blendRadius <= 0.8 * PlanChord(c, dh, plan, i + 1)
      {
        var u, v, w := StopPoint(c, dh, plan, i), StopPoint(c, dh, plan, i + 1), StopPoint(c, dh, plan, i + 2);
        ChordExact(c.t, v, w);
        assert BlendsBest(c, request, dh, plan, i);
        WithinChord(c.t, u, v, w, request.maxPathDeviation, request.waypoints[i].blendRadius, plan.waypoints[i].blendRadius);
        if i + 1 < |plan.waypoints| - 1 {
          assert BlendsBest(c, request, dh, plan, i + 1);
          WithinChord(c.t, v, w, StopPoint(c, dh, plan, i + 3), request.maxPathDeviation, request.waypoints[i + 1].blendRadius,
                      plan.waypoints[i + 1].blendRadius);
        }
      }
    }
  }

  // --- duration ---

  /** The least time of a rest-to-rest profile over `d` within a speed and a ramp; zero where there is nothing to run. */
  ghost predicate LeastTime(d: real, v: real, a: real, time: real) {
    if d == 0.0 || v <= 0.0 || a <= 0.0 then time == 0.0
    else
      && (exists p: Profile :: p.Legal(v, a) && p.Covers() == d && p.Lasts() == time)
      && forall p: Profile :: p.Legal(v, a) && p.Covers() == d ==> time <= p.Lasts()
  }

  /** How far a move goes: its largest joint move, or the distance between the flange's end points. */
  ghost predicate Travels(t: Trig, dh: Dh, from: Config, to: Config, linear: bool, d: real) {
    if linear then d == Chord(t, Flange(t, dh, from).p, Flange(t, dh, to).p)
    else
      && (forall i :: 0 <= i < 6 ==> Abs(to[i] - from[i]) <= d)
      && exists i :: 0 <= i < 6 && Abs(to[i] - from[i]) == d
  }

  /** The time of the move to waypoint `i`. */
  ghost predicate TimeOf(c: Catalogue, dh: Dh, plan: PlannedTrajectory, i: nat, time: real)
    requires i < |plan.waypoints|
  {
    var w := plan.waypoints[i];
    exists d :: Travels(c.t, dh, Stops(plan)[i], Stops(plan)[i + 1], w.useLinearMotion, d) && LeastTime(d, w.velocity, w.acceleration, time)
  }

  function Total(times: seq<real>): real { if times == [] then 0.0 else Total(times[..|times| - 1]) + times[|times| - 1] }

  lemma LeastTimeExact(t: Trig, d: real, v: real, a: real)
    requires t.Lawful() && d >= 0.0
    ensures LeastTime(d, v, a, TrapezoidDuration(t, d, v, a))
  {
    hide TrapezoidDuration, Profile.Covers, Profile.Lasts, Profile.Legal;
    ZeroDuration(t, d, v, a);
    if d != 0.0 && v > 0.0 && a > 0.0 {
      var best := FastestProfile(t, d, v, a);
    }
  }

  lemma TravelExact(arm: Arm, from: Config, to: Config, interpolation: Interpolation)
    requires arm.t.Lawful()
    ensures var d := TravelOf(arm, from, to, interpolation);
            d >= 0.0 && Travels(arm.t, arm.dh, from, to, interpolation == Linear, d)
  {
    if interpolation == Linear {
      hide Chord, Flange;
      ChordExact(arm.t, Flange(arm.t, arm.dh, from).p, Flange(arm.t, arm.dh, to).p);
    } else {
      hide MaxTravel;
      var dq := JointDelta(from, to);
      MaxTravelBounds(dq, 6);
      assert forall i :: 0 <= i < 6 ==> dq[i] == to[i] - from[i];
      assert Abs(dq[0]) <= MaxTravel(dq, 6);
      if MaxTravel(dq, 6) == 0.0 {
        assert Abs(to[0] - from[0]) == 0.0;
      } else {
        var i :| 0 <= i < 6 && Abs(dq[i]) == MaxTravel(dq, 6);
        assert Abs(to[i] - from[i]) == MaxTravel(dq, 6);
      }
    }
  }

  /** The time of segment `i` by the speeds of the loop. */
  function SegmentTime(arm: Arm, request: PlanRequest, configs: seq<Config>, speeds: seq<SegmentSpeed>, i: nat): real
    requires i < |speeds| <= |request.waypoints| && |configs| == |request.waypoints| + 1
  {
    TrapezoidDuration(arm.t, TravelOf(arm, configs[i], configs[i + 1], request.waypoints[i].interpolation),
                      speeds[i].velocity, speeds[i].acceleration)
  }

  lemma {:induction false} DurationTotal(arm: Arm, request: PlanRequest, configs: seq<Config>, speeds: seq<SegmentSpeed>)
    returns (times: seq<real>)
    requires |speeds| <= |request.waypoints| && |configs| == |request.waypoints| + 1
    ensures |times| == |speeds| && Duration(arm, request, configs, speeds) == Total(times)
    ensures forall i :: 0 <= i < |times| ==> times[i] == SegmentTime(arm, request, configs, speeds, i)
  {
    hide TrapezoidDuration, TravelOf;
    times := [];
    if speeds != [] {
      var n := |speeds| - 1;
      var before := DurationTotal(arm, request, configs, speeds[..n]);
      forall i | 0 <= i < n ensures before[i] == SegmentTime(arm, request, configs, speeds, i) {
        assert before[i] == SegmentTime(arm, request, configs, speeds[..n], i);
      }
      times := before + [SegmentTime(arm, request, configs, speeds, n)];
      assert times[..n] == before;
    }
  }

  /** The estimate is the sum, over the plan's own waypoints, of the least time each move takes from rest to rest. */
  lemma DurationExact(c: Catalogue, request: PlanRequest)
    requires c.t.Lawful()
    ensures PlanOf(c, request).Ok? ==>
            ForModel(request.robotModel).Some? &&
            var plan, dh := PlanOf(c, request).value, ForModel(request.robotModel).value;
            exists times: seq<real> ::
              && |times| == |plan.waypoints| && Total(times) == plan.durationEstimate
              && forall i :: 0 <= i < |times| ==> TimeOf(c, dh, plan, i, times[i])
  {
    hide Configurations, Speeds, Duration, BlendAt, PlanOf, Flange, TrapezoidDuration, TravelOf, Travels, LeastTime, Stops;
    if PlanOf(c, request).Ok? {
      var arm, configs, speeds := PlanStops(c, request);
      var plan, dh := PlanOf(c, request).value, ForModel(request.robotModel).value;
      var times := DurationTotal(arm, request, configs, speeds);
      forall i | 0 <= i < |times| ensures TimeOf(c, dh, plan, i, times[i]) {
        var w := plan.waypoints[i];
        var interpolation := request.waypoints[i].interpolation;
        TravelExact(arm, configs[i], configs[i + 1], interpolation);
        var d := TravelOf(arm, configs[i], configs[i + 1], interpolation);
        LeastTimeExact(c.t, d, w.velocity, w.acceleration);
        assert Travels(c.t, dh, Stops(plan)[i], Stops(plan)[i + 1], w.useLinearMotion, d);
      }
    }
  }
}
