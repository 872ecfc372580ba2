/** Scaling changes how fast a plan runs, and nothing else about it. */
module ScalingProofs {
  import opened RealAlgebra
  import opened Results
  import opened Poses
  import opened Kinematics
  import opened IkBranches
  import opened Turns
  import opened LimitsModel
  import opened Timing
  import opened Trapezoid
  import opened Path
  import opened Plan

  // --- what does not look at speeds ---

  /** The same arm with other speed limits. */
  ghost predicate SamePlace(a: Arm, b: Arm) {
    && a.t == b.t && a.dh == b.dh && a.geometry == b.geometry
    && a.limits.positionMin == b.limits.positionMin && a.limits.positionMax == b.limits.positionMax
  }

  lemma {:induction false} SameWalk(a: Arm, b: Arm, from: Config, to: Pose, n: nat, count: nat)
    requires a.Usable() && b.Usable() && SamePlace(a, b) && count >= 2
    ensures Walk(a, from, to, n, count) == Walk(b, from, to, n, count)
  {
    hide Filtered, SelectNearest, ConfigurationDistance, Flange, Parameter;
    if n > 0 {
      SameWalk(a, b, from, to, n - 1, count);
    }
  }

  lemma SameRates(a: Arm, b: Arm, from: Config, to: Pose, step: real, maxSamples: nat)
    requires a.Usable() && b.Usable() && SamePlace(a, b) && step > 0.0 && maxSamples >= 2
    ensures SampledRates(a, from, to, step, maxSamples) == SampledRates(b, from, to, step, maxSamples)
  {
    hide Walk, SampleCount, Flange, Chord, RatesOf;
    var count := SampleCount(Distance(a, from, to), step, maxSamples);
    assert Distance(a, from, to) == Distance(b, from, to);
    SameWalk(a, b, from, to, count, count);
  }

  lemma SameResolve(a: Arm, b: Arm, request: PlanRequest, request': PlanRequest, target: WaypointTarget,
                    preferred: Option<Config>, seed: Config, index: nat)
    requires a.Usable() && b.Usable() && SamePlace(a, b) && request.baseLinkIsUrBase == request'.baseLinkIsUrBase
    ensures Resolve(a, request, target, preferred, seed, index) == Resolve(b, request', target, preferred, seed, index)
  {
    hide Branches, Filtered, SelectNearest, RzPi;
    match target {
      case Joints(q) => SameViolation(a.limits, b.limits, q, 0);
      case AtPose(_, _) =>
    }
  }

  lemma {:induction false} SameViolation(a: Limits, b: Limits, q: Config, i: nat)
    requires i <= 6 && a.positionMin == b.positionMin && a.positionMax == b.positionMax
    ensures a.FirstViolation(q, i) == b.FirstViolation(q, i)
    decreases 6 - i
  {
    if i < 6 {
      SameViolation(a, b, q, i + 1);
    }
  }

  lemma {:induction false} SameConfigurations(a: Arm, b: Arm, request: PlanRequest, scaling: PlanScaling, n: nat)
    requires a.Usable() && b.Usable() && SamePlace(a, b) && n <= |request.waypoints|
    ensures Configurations(a, request, n) == Configurations(b, request.(scaling := scaling), n)
  {
    hide Resolve;
    var request' := request.(scaling := scaling);
    if n == 0 {
      SameResolve(a, b, request, request', request.start, None, seq(6, _ => 0.0), 0);
    } else {
      SameConfigurations(a, b, request, scaling, n - 1);
      var before := Configurations(a, request, n - 1);
      if before.Ok? {
        var w := request.waypoints[n - 1];
        SameResolve(a, b, request, request', w.target, w.preferred, OrElse(w.preferred, before.value[n - 1]), n);
      }
    }
  }

  lemma SameBlend(a: Arm, b: Arm, request: PlanRequest, scaling: PlanScaling, configs: seq<Config>, i: nat)
    requires SamePlace(a, b) && |configs| == |request.waypoints| + 1 && i < |request.waypoints|
    ensures BlendAt(a, request, configs, i) == BlendAt(b, request.(scaling := scaling), configs, i)
  {
    hide Flange, Chord, CornerDeflection, BlendRadius;
  }

  // --- joint segments ---

  function Stretched(b: Bound, k: real): Bound {
    match b
    case Infinite => Infinite
    case Finite(v, joint) => Finite(By(v, k), joint)
  }

  lemma ByMonotone(x: real, y: real, k: real)
    requires k > 0.0
    ensures x < y <==> By(x, k) < By(y, k)
  {
    if x < y {
      Positive(y - x, k, By(y, k) - By(x, k));
    } else {
      NonNegative(x - y, k, By(x, k) - By(y, k));
    }
  }

  lemma LeadScales(dq: Config, cap: Config, dmax: real, k: real, i: nat)
    requires i < 6 && Moves(dq, i)
    ensures LeadSpeed(dq, Times(cap, k), dmax, i) == By(LeadSpeed(dq, cap, dmax, i), k)
  {
    var r := dmax / Abs(dq[i]);
    assert Times(cap, k)[i] == By(cap[i], k);
  }

  lemma {:induction false} TightestScales(dq: Config, cap: Config, dmax: real, k: real, n: nat)
    requires n <= 6 && k > 0.0
    ensures Tightest(dq, Times(cap, k), dmax, n) == Stretched(Tightest(dq, cap, dmax, n), k)
  {
    hide LeadSpeed, Moves, Times, By;
    if n > 0 {
      TightestScales(dq, cap, dmax, k, n - 1);
      var b := Tightest(dq, cap, dmax, n - 1);
      if Moves(dq, n - 1) {
        LeadScales(dq, cap, dmax, k, n - 1);
        if b.Finite? {
          ByMonotone(LeadSpeed(dq, cap, dmax, n - 1), b.value, k);
        }
      }
    }
  }

  function Rescale(u: Option<SegmentSpeed>, s: PlanScaling): Option<SegmentSpeed> {
    match u
    case None => None
    case Some(v) =>
      Some(v.(velocity := By(v.velocity, ClampScale(s.velocity)), acceleration := By(v.acceleration, ClampScale(s.acceleration))))
  }

  /** The speed of a joint segment is its unscaled speed times the effective scales. */
  lemma JointSpeedScales(dq: Config, base: Limits, s: PlanScaling)
    ensures JointSegmentSpeed(dq, base.Scaled(s)) == Rescale(JointSegmentSpeed(dq, base), s)
  {
    hide Tightest, Times, By, MaxTravel;
    var dmax := MaxTravel(dq, 6);
    TightestScales(dq, base.velocityMax, dmax, ClampScale(s.velocity), 6);
    TightestScales(dq, base.accelerationMax, dmax, ClampScale(s.acceleration), 6);
  }

  predicate PositiveSpeeds(limits: Limits) {
    forall i :: 0 <= i < 6 ==> limits.velocityMax[i] > 0.0 && limits.accelerationMax[i] > 0.0
  }

  lemma TightestPositive(dq: Config, cap: Config, dmax: real, n: nat)
    requires n <= 6 && dmax > 0.0 && forall i :: 0 <= i < 6 ==> cap[i] > 0.0
    ensures Tightest(dq, cap, dmax, n).Finite? ==> Tightest(dq, cap, dmax, n).value > 0.0
  {
    hide LeadSpeed, Tightest;
    TightestExact(dq, cap, dmax, n, 0.0);
    var b := Tightest(dq, cap, dmax, n);
    if b.Finite? {
      LeadPositive(dq, cap, dmax, b.joint);
    }
  }

  lemma LeadPositive(dq: Config, cap: Config, dmax: real, i: nat)
    requires i < 6 && Moves(dq, i) && dmax > 0.0 && cap[i] > 0.0
    ensures LeadSpeed(dq, cap, dmax, i) > 0.0
  {
    var r := dmax / Abs(dq[i]);
    assert r * Abs(dq[i]) == dmax;
    Cancel(Abs(dq[i]), 0.0, 0.0, r);
    Positive(cap[i], r, cap[i] * r);
  }

  lemma JointSpeedPositive(dq: Config, limits: Limits)
    requires PositiveSpeeds(limits) && JointSegmentSpeed(dq, limits).Some?
    ensures JointSegmentSpeed(dq, limits).value.velocity > 0.0 && JointSegmentSpeed(dq, limits).value.acceleration > 0.0
  {
    hide Tightest, MaxTravel;
    TightestPositive(dq, limits.velocityMax, MaxTravel(dq, 6), 6);
    TightestPositive(dq, limits.accelerationMax, MaxTravel(dq, 6), 6);
  }

  // --- straight segments ---

  lemma SustainsMore(rates: Config, cap: Config, cap': Config, v: real)
    requires forall i :: 0 <= i < 6 ==> cap[i] <= cap'[i]
    requires Sustains(rates, cap, v, 6)
    ensures Sustains(rates, cap', v, 6)
  {
    hide Load, Moves;
  }

  /** Higher joint limits never lower the cap. */
  lemma CapMonotone(samples: seq<Config>, cap: Config, cap': Config, ceiling: real)
    requires forall i :: 0 <= i < 6 ==> cap[i] <= cap'[i]
    ensures CapSamples(samples, cap, ceiling).0 <= CapSamples(samples, cap', ceiling).0
  {
    hide Sustains, CapSamples;
    var v := CapSamples(samples, cap, ceiling).0;
    CapSamplesExact(samples, cap, ceiling, v);
    CapSamplesExact(samples, cap', ceiling, v);
    forall k | 0 <= k < |samples| ensures Sustains(samples[k], cap', v, 6) {
      SustainsMore(samples[k], cap, cap', v);
    }
  }

  lemma CapPositive(samples: seq<Config>, cap: Config, ceiling: real)
    requires ceiling > 0.0 && forall i :: 0 <= i < 6 ==> cap[i] > 0.0
    ensures CapSamples(samples, cap, ceiling).0 > 0.0
  {
    hide CapSamples, Load, Moves;
    var s := CapSamples(samples, cap, ceiling);
    CapSamplesExact(samples, cap, ceiling, s.0);
    if s.0 != ceiling {
      var k :| 0 <= k < |samples| && Saturates(samples[k], cap, s.0, s.1);
      LoadPositive(samples[k], s.0, s.1);
    }
  }

  lemma LoadPositive(rates: Config, v: real, i: nat)
    requires i < 6 && Moves(rates, i) && Load(rates, v, i) > 0.0
    ensures v > 0.0
  {
    Cancel(Abs(rates[i]), 0.0, 0.0, v);
  }

  /** No slower, and never still. */
  predicate NoFaster(s: SegmentSpeed, s': SegmentSpeed) { 0.0 < s.velocity <= s'.velocity && 0.0 < s.acceleration <= s'.acceleration }

  lemma CapNoFaster(samples: seq<Config>, limits: Limits, limits': Limits, ceiling: real)
    requires ceiling > 0.0 && PositiveSpeeds(limits) && forall i :: 0 <= i < 6 ==> limits.velocityMax[i] <= limits'.velocityMax[i]
    ensures NoFaster(CartesianSpeedCap(samples, limits, ceiling), CartesianSpeedCap(samples, limits', ceiling))
  {
    hide CapSamples;
    CapMonotone(samples, limits.velocityMax, limits'.velocityMax, ceiling);
    CapPositive(samples, limits.velocityMax, ceiling);
    var v, v' := CapSamples(samples, limits.velocityMax, ceiling).0, CapSamples(samples, limits'.velocityMax, ceiling).0;
    RatioMonotone(v, v', ceiling);
  }

  lemma RatioMonotone(v: real, v': real, c: real)
    requires c > 0.0 && 0.0 < v <= v'
    ensures 0.0 < v / c <= v' / c
  {
    var r, r' := v / c, v' / c;
    assert c * r == v && c * r' == v';
    CancelAtMost(c, r, r', v, v');
    Cancel(c, 0.0, 0.0, r);
  }

  // --- a segment under two scalings ---

  /** The scale a request takes effect with. */
  function Factor(s: real): real { if 0.0 < s <= 1.0 then s else 1.0 }

  predicate NoMore(s: PlanScaling, s': PlanScaling) {
    Factor(s.velocity) <= Factor(s'.velocity) && Factor(s.acceleration) <= Factor(s'.acceleration)
  }

  lemma FactorIs(s: PlanScaling)
    ensures ClampScale(s.velocity) == Factor(s.velocity) && ClampScale(s.acceleration) == Factor(s.acceleration)
  {
  }

  lemma ByAtMost(x: real, k: real, k': real)
    requires x > 0.0 && 0.0 < k <= k'
    ensures 0.0 < By(x, k) <= By(x, k')
  {
    Positive(x, k, By(x, k));
    NonNegative(x, k' - k, By(x, k') - By(x, k));
  }

  lemma ScaledPositive(base: Limits, s: PlanScaling, s': PlanScaling)
    requires PositiveSpeeds(base) && NoMore(s, s')
    ensures PositiveSpeeds(base.Scaled(s))
    ensures forall i :: 0 <= i < 6 ==> base.Scaled(s).velocityMax[i] <= base.Scaled(s').velocityMax[i]
  {
    hide By, ClampScale, Factor;
    FactorIs(s);
    FactorIs(s');
    var k, k', a, a' := ClampScale(s.velocity), ClampScale(s'.velocity), ClampScale(s.acceleration), ClampScale(s'.acceleration);
    ScalesPositive(s);
    forall i | 0 <= i < 6
      ensures base.Scaled(s).velocityMax[i] > 0.0 && base.Scaled(s).accelerationMax[i] > 0.0
      ensures base.Scaled(s).velocityMax[i] <= base.Scaled(s').velocityMax[i]
    {
      ByAtMost(base.velocityMax[i], k, k');
      ByAtMost(base.accelerationMax[i], a, a');
    }
  }

  lemma ScalesPositive(s: PlanScaling)
    ensures 0.0 < ClampScale(s.velocity) <= 1.0 && 0.0 < ClampScale(s.acceleration) <= 1.0
  {
  }

  /** The two arms a request plans for under two scalings. */
  ghost predicate Rescaled(a: Arm, b: Arm, base: Limits, s: PlanScaling, s': PlanScaling) {
    SamePlace(a, b) && a.Usable() && b.Usable() && a.limits == base.Scaled(s) && b.limits == base.Scaled(s')
  }

  /** Velocities and accelerations stand in the ratio of the effective scales. */
  ghost predicate InRatio(v: real, a: real, v': real, a': real, s: PlanScaling, s': PlanScaling) {
    && v * Factor(s'.velocity) == v' * Factor(s.velocity)
    && a * Factor(s'.acceleration) == a' * Factor(s.acceleration)
  }

  lemma ByCommutes(x: real, k: real, k': real)
    ensures By(x, k) * k' == By(x, k') * k
  {
  }

  lemma SegmentScales(a: Arm, b: Arm, base: Limits, s: PlanScaling, s': PlanScaling,
                      from: Config, to: Config, interpolation: Interpolation, ceiling: real, index: nat)
    requires Rescaled(a, b, base, s, s')
    ensures var r := SegmentSpeedOf(a, from, to, interpolation, ceiling, index);
            var r' := SegmentSpeedOf(b, from, to, interpolation, ceiling, index);
            && (r.Err? <==> r'.Err?) && (r.Err? ==> r.error == r'.error)
            && (r.Ok? && interpolation == Joint ==>
                  && r.value.limitingJoint == r'.value.limitingJoint
                  && InRatio(r.value.velocity, r.value.acceleration, r'.value.velocity, r'.value.acceleration, s, s'))
            && (r.Ok? && NoMore(s, s') && PositiveSpeeds(base) && ceiling > 0.0 ==> NoFaster(r.value, r'.value))
  {
    hide SampledRates, CartesianSpeedCap, JointSegmentSpeed, JointDelta, Flange, By, ClampScale, Times, PositiveSpeeds, Limits.Scaled;
    if NoMore(s, s') && PositiveSpeeds(base) {
      ScaledPositive(base, s, s');
    }
    match interpolation {
      case Linear =>
        SameRates(a, b, from, Flange(a.t, a.dh, to), LINEAR_SAMPLE_STEP, MAX_LINEAR_SAMPLES);
        var rates := SampledRates(a, from, Flange(a.t, a.dh, to), LINEAR_SAMPLE_STEP, MAX_LINEAR_SAMPLES);
        if rates.Some? && NoMore(s, s') && PositiveSpeeds(base) && ceiling > 0.0 {
          CapNoFaster(rates.value, a.limits, b.limits, ceiling);
        }
      case Joint =>
        JointSegmentScales(JointDelta(from, to), base, s, s');
    }
  }

  lemma JointSegmentScales(dq: Config, base: Limits, s: PlanScaling, s': PlanScaling)
    ensures var r, r' := JointSegmentSpeed(dq, base.Scaled(s)), JointSegmentSpeed(dq, base.Scaled(s'));
            && (r.None? <==> r'.None?)
            && (r.Some? ==>
                  && r.value.limitingJoint == r'.value.limitingJoint
                  && InRatio(r.value.velocity, r.value.acceleration, r'.value.velocity, r'.value.acceleration, s, s'))
            && (r.Some? && NoMore(s, s') && PositiveSpeeds(base) ==> NoFaster(r.value, r'.value))
  {
    hide JointSegmentSpeed, By, ClampScale, Factor, Limits.Scaled, PositiveSpeeds;
    FactorIs(s);
    FactorIs(s');
    JointSpeedScales(dq, base, s);
    JointSpeedScales(dq, base, s');
    if JointSegmentSpeed(dq, base).Some? {
      var u := JointSegmentSpeed(dq, base).value;
      ByCommutes(u.velocity, ClampScale(s.velocity), ClampScale(s'.velocity));
      ByCommutes(u.acceleration, ClampScale(s.acceleration), ClampScale(s'.acceleration));
      if NoMore(s, s') && PositiveSpeeds(base) {
        JointSpeedPositive(dq, base);
        ScalesPositive(s);
        ByAtMost(u.velocity, ClampScale(s.velocity), ClampScale(s'.velocity));
        ByAtMost(u.acceleration, ClampScale(s.acceleration), ClampScale(s'.acceleration));
      }
    }
  }

  // --- whole plans ---

  /** How the speeds of two scalings compare, segment by segment. */
  ghost predicate SpeedsScale(request: PlanRequest, base: Limits, s: PlanScaling, s': PlanScaling,
                              u: seq<SegmentSpeed>, u': seq<SegmentSpeed>)
  {
    && |u| == |u'| <= |request.waypoints|
    && (forall i :: 0 <= i < |u| && request.waypoints[i].interpolation == Joint ==>
          && u[i].limitingJoint == u'[i].limitingJoint
          && InRatio(u[i].velocity, u[i].acceleration, u'[i].velocity, u'[i].acceleration, s, s'))
    && (NoMore(s, s') && PositiveSpeeds(base) && request.maxCartesianSpeed > 0.0 ==> forall i :: 0 <= i < |u| ==> NoFaster(u[i], u'[i]))
  }

  lemma {:induction false} AllSpeedsScale(a: Arm, b: Arm, base: Limits, request: PlanRequest, s: PlanScaling, s': PlanScaling,
                                          configs: seq<Config>, n: nat)
    requires Rescaled(a, b, base, s, s') && n <= |request.waypoints| && |configs| == |request.waypoints| + 1
    ensures var r, r' := Speeds(a, request, configs, n), Speeds(b, request.(scaling := s'), configs, n);
            && (r.Err? <==> r'.Err?) && (r.Err? ==> r.error == r'.error)
            && (r.Ok? ==> SpeedsScale(request, base, s, s', r.value, r'.value))
  {
    hide SegmentSpeedOf, InRatio, NoFaster, NoMore, PositiveSpeeds, Rescaled;
    assert a.Usable() && b.Usable() by { RescaledUsable(a, b, base, s, s'); }
    if n > 0 {
      AllSpeedsScale(a, b, base, request, s, s', configs, n - 1);
      SegmentScales(a, b, base, s, s', configs[n - 1], configs[n], request.waypoints[n - 1].interpolation, request.maxCartesianSpeed, n);
    }
  }

  lemma RescaledUsable(a: Arm, b: Arm, base: Limits, s: PlanScaling, s': PlanScaling)
    requires Rescaled(a, b, base, s, s')
    ensures a.Usable() && b.Usable() && SamePlace(a, b)
  {
  }

  /** Slower segments add up to a longer plan. */
  lemma {:induction false} DurationShrinks(a: Arm, b: Arm, request: PlanRequest, s': PlanScaling, configs: seq<Config>,
                                           u: seq<SegmentSpeed>, u': seq<SegmentSpeed>)
    requires a.t.Lawful() && SamePlace(a, b) && |configs| == |request.waypoints| + 1
    requires |u| == |u'| <= |request.waypoints| && forall i :: 0 <= i < |u| ==> NoFaster(u[i], u'[i])
    ensures Duration(b, request.(scaling := s'), configs, u') <= Duration(a, request, configs, u)
  {
    hide TrapezoidDuration, Flange, Chord, MaxTravel, JointDelta;
    if u != [] {
      var n := |u|;
      DurationShrinks(a, b, request, s', configs, u[..n - 1], u'[..n - 1]);
      var d := TravelOf(a, configs[n - 1], configs[n], request.waypoints[n - 1].interpolation);
      FasterLimits(a.t, d, u[n - 1].velocity, u[n - 1].acceleration, u'[n - 1].velocity, u'[n - 1].acceleration);
    }
  }

  /**
   Two runs that differ only in scaling fail alike or succeed with the same stops, blends and kinds of move.
   Joint moves are in the exact ratio of the effective scales, and lower scales make no move faster and no plan
   shorter.
   */
  lemma ScalingOnlyRetimes(c: Catalogue, request: PlanRequest, s': PlanScaling)
    requires c.t.Lawful()
    ensures var r, r' := PlanOf(c, request), PlanOf(c, request.(scaling := s'));
            && (r.Err? <==> r'.Err?) && (r.Err? ==> r.error == r'.error)
            && (r.Ok? ==> SameButFaster(c, request, s', r.value, r'.value))
  {
    hide Configurations, Speeds, Chain, Duration, SameButFaster, ForModel, ClampScale, Times;
    var request' := request.(scaling := s');
    if ArmFor(c, request).Ok? {
      var a, b := ArmFor(c, request).value, ArmFor(c, request').value;
      var base := BaseLimits(c, request);
      assert Rescaled(a, b, base, request.scaling, s');
      var n := |request.waypoints|;
      SameConfigurations(a, b, request, s', n);
      if Configurations(a, request, n).Ok? {
        var configs := Configurations(a, request, n).value;
        AllSpeedsScale(a, b, base, request, request.scaling, s', configs, n);
        if Speeds(a, request, configs, n).Ok? {
          PlansScale(c, request, s', a, b, base, configs, Speeds(a, request, configs, n).value, Speeds(b, request', configs, n).value);
        }
      }
    }
  }

  function BaseLimits(c: Catalogue, request: PlanRequest): Limits
    requires c.t.pi > 0.0 && ArmFor(c, request).Ok?
  {
    Overridden(c.limitsOf(request.robotModel).value, request.accelerationMax)
  }

  ghost predicate SameButFaster(c: Catalogue, request: PlanRequest, s': PlanScaling, p: PlannedTrajectory, p': PlannedTrajectory)
    requires c.t.pi > 0.0 && ArmFor(c, request).Ok?
  {
    && p.startJointPositions == p'.startJointPositions && |p.waypoints| == |p'.waypoints|
    && (forall i :: 0 <= i < |p.waypoints| ==>
          var w, w' := p.waypoints[i], p'.waypoints[i];
          && w.jointPositions == w'.jointPositions && w.blendRadius == w'.blendRadius && w.useLinearMotion == w'.useLinearMotion
          && (!w.useLinearMotion ==>
                && w.limitingJoint == w'.limitingJoint
                && InRatio(w.velocity, w.acceleration, w'.velocity, w'.acceleration, request.scaling, s')))
    && (NoMore(request.scaling, s') && PositiveSpeeds(BaseLimits(c, request)) && request.maxCartesianSpeed > 0.0 ==>
          && p'.durationEstimate <= p.durationEstimate
          && forall i :: 0 <= i < |p.waypoints| ==>
               && p.waypoints[i].velocity <= p'.waypoints[i].velocity
               && p.waypoints[i].acceleration <= p'.waypoints[i].acceleration)
  }

  lemma PlansScale(c: Catalogue, request: PlanRequest, s': PlanScaling, a: Arm, b: Arm, base: Limits, configs: seq<Config>,
                   u: seq<SegmentSpeed>, u': seq<SegmentSpeed>)
    requires c.t.Lawful() && ArmFor(c, request) == Ok(a) && ArmFor(c, request.(scaling := s')) == Ok(b) && base == BaseLimits(c, request)
    requires Rescaled(a, b, base, request.scaling, s') && a.t == c.t
    requires Configurations(a, request, |request.waypoints|) == Ok(configs)
    requires Configurations(b, request.(scaling := s'), |request.waypoints|) == Ok(configs)
    requires Speeds(a, request, configs, |request.waypoints|) == Ok(u)
    requires Speeds(b, request.(scaling := s'), configs, |request.waypoints|) == Ok(u')
    requires SpeedsScale(request, base, request.scaling, s', u, u')
    ensures PlanOf(c, request).Ok? && PlanOf(c, request.(scaling := s')).Ok?
    ensures SameButFaster(c, request, s', PlanOf(c, request).value, PlanOf(c, request.(scaling := s')).value)
  {
    hide ArmFor, Configurations, Speeds, Duration, BlendAt, InRatio, NoFaster, NoMore, PositiveSpeeds, BaseLimits, Rescaled;
    RescaledUsable(a, b, base, request.scaling, s');
    var request' := request.(scaling := s');
    var p, p' := PlanOf(c, request).value, PlanOf(c, request').value;
    forall i | 0 <= i < |request.waypoints|
      ensures p.waypoints[i] == Planned(configs, request, u, i, BlendAt(a, request, configs, i))
      ensures p'.waypoints[i] == Planned(configs, request', u', i, BlendAt(a, request, configs, i))
    {
      SameBlend(a, b, request, s', configs, i);
    }
    if NoMore(request.scaling, s') && PositiveSpeeds(base) && request.maxCartesianSpeed > 0.0 {
      DurationShrinks(a, b, request, s', configs, u, u');
      forall i | 0 <= i < |u| ensures u[i].velocity <= u'[i].velocity && u[i].acceleration <= u'[i].acceleration {
        NoFasterMeans(u[i], u'[i]);
      }
    }
  }

  lemma NoFasterMeans(s: SegmentSpeed, s': SegmentSpeed)
    requires NoFaster(s, s')
    ensures s.velocity <= s'.velocity && s.acceleration <= s'.acceleration
  {
  }
}
