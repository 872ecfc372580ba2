/** Per-segment speed and acceleration at the joint limits, and rest-to-rest durations. */
module Timing {
  import opened RealAlgebra
  import opened Results
  import opened Kinematics
  import opened IkBranches
  import opened Turns
  import opened LimitsModel

  const MOTIONLESS_JOINT := 0.000000001
  const RAMP_TIME_S := 0.5
  const DEFAULT_MAX_CARTESIAN_SPEED := 0.5

  datatype SegmentSpeed = SegmentSpeed(velocity: real, acceleration: real, limitingJoint: nat)

  predicate Moves(dq: Config, i: nat)
    requires i < 6
  {
    Abs(dq[i]) > MOTIONLESS_JOINT
  }

  // --- joint segments ---

  /** The largest move among the first `n` joints. */
  function MaxTravel(dq: Config, n: nat): real
    requires n <= 6
  {
    if n == 0 then 0.0 else Max(MaxTravel(dq, n - 1), Abs(dq[n - 1]))
  }

  /** A running minimum: infinite until some joint bounds it, and then set by the first joint to reach it. */
  datatype Bound = Infinite | Finite(value: real, joint: nat) {
    function Lower(v: real, i: nat): Bound { if Infinite? || v < value then Finite(v, i) else this }
  }

  /** The lead speed at which joint `i` runs at `cap`. */
  function LeadSpeed(dq: Config, cap: Config, dmax: real, i: nat): real
    requires i < 6 && Moves(dq, i)
  {
    cap[i] * (dmax / Abs(dq[i]))
  }

  function Tightest(dq: Config, cap: Config, dmax: real, n: nat): Bound
    requires n <= 6
  {
    if n == 0 then Infinite
    else
      var b := Tightest(dq, cap, dmax, n - 1);
      if Moves(dq, n - 1) then b.Lower(LeadSpeed(dq, cap, dmax, n - 1), n - 1) else b
  }

  function JointSegmentSpeed(dq: Config, limits: Limits): Option<SegmentSpeed> {
    var dmax := MaxTravel(dq, 6);
    if dmax <= MOTIONLESS_JOINT then None
    else
      match (Tightest(dq, limits.velocityMax, dmax, 6), Tightest(dq, limits.accelerationMax, dmax, 6))
      case (Finite(v, joint), Finite(a, _)) => Some(SegmentSpeed(v, a, joint))
      case _ => None
  }

  method ComputeJointSegmentSpeed(dq: Config, limits: Limits) returns (speed: Option<SegmentSpeed>)
    ensures speed == JointSegmentSpeed(dq, limits)
  {
    hide LeadSpeed, Moves;
    var dmax := 0.0;
    for i := 0 to 6
      invariant dmax == MaxTravel(dq, i)
    {
      dmax := Max(dmax, Abs(dq[i]));
    }
    if dmax <= MOTIONLESS_JOINT {
      return None;
    }
    var velocity, acceleration := Infinite, Infinite;
    for i := 0 to 6
      invariant velocity == Tightest(dq, limits.velocityMax, dmax, i)
      invariant acceleration == Tightest(dq, limits.accelerationMax, dmax, i)
    {
      if Moves(dq, i) {
        velocity := velocity.Lower(LeadSpeed(dq, limits.velocityMax, dmax, i), i);
        acceleration := acceleration.Lower(LeadSpeed(dq, limits.accelerationMax, dmax, i), i);
      }
    }
    match (velocity, acceleration) {
      case (Finite(v, joint), Finite(a, _)) => speed := Some(SegmentSpeed(v, a, joint));
      case _ => speed := None;
    }
  }

  /** What joint `i` runs at, and may run at, in a segment led at `v`; both scaled by the leading travel. */
  function Load(dq: Config, v: real, i: nat): real
    requires i < 6
  {
    v * Abs(dq[i])
  }

  function Allowance(dq: Config, cap: Config, i: nat): real
    requires i < 6
  {
    cap[i] * MaxTravel(dq, 6)
  }

  /** Led at `v`, every moving joint, scaled to finish with the leading one, stays within `cap`. */
  ghost predicate Feasible(dq: Config, cap: Config, v: real) {
    forall i :: 0 <= i < 6 && Abs(dq[i]) > 0.000000001 ==> Load(dq, v, i) <= Allowance(dq, cap, i)
  }

  lemma {:induction false} MaxTravelBounds(dq: Config, n: nat)
    requires n <= 6
    ensures forall i :: 0 <= i < n ==> Abs(dq[i]) <= MaxTravel(dq, n)
    ensures MaxTravel(dq, n) == 0.0 || exists i :: 0 <= i < n && Abs(dq[i]) == MaxTravel(dq, n)
  {
    if n > 0 {
      MaxTravelBounds(dq, n - 1);
    }
  }

  lemma LeadSpeedExact(dq: Config, cap: Config, i: nat, v: real)
    requires i < 6 && Moves(dq, i)
    ensures var lead := LeadSpeed(dq, cap, MaxTravel(dq, 6), i);
            && (v < lead ==> Load(dq, v, i) < Allowance(dq, cap, i))
            && (v == lead ==> Load(dq, v, i) == Allowance(dq, cap, i))
            && (v > lead ==> Load(dq, v, i) > Allowance(dq, cap, i))
  {
    var d := MaxTravel(dq, 6);
    RatioExact(v, cap[i], d, Abs(dq[i]), LeadSpeed(dq, cap, d, i), Load(dq, v, i), Allowance(dq, cap, i));
  }

  lemma RatioExact(v: real, c: real, d: real, t: real, lead: real, p: real, q: real)
    requires t > 0.0 && lead == c * (d / t) && p == v * t && q == c * d
    ensures v < lead ==> p < q
    ensures v == lead ==> p == q
    ensures v > lead ==> p > q
  {
    var r := d / t;
    assert r * t == d;
    assert lead * t == c * (r * t) == c * d;
    if v < lead {
      Positive(lead - v, t, q - p);
    } else if v > lead {
      Positive(v - lead, t, p - q);
    } else {
      assert p == lead * t;
    }
  }

  lemma {:induction false} TightestExact(dq: Config, cap: Config, dmax: real, n: nat, v: real)
    requires n <= 6
    ensures var b := Tightest(dq, cap, dmax, n);
            && (b.Infinite? <==> forall i :: 0 <= i < n ==> !Moves(dq, i))
            && (b.Finite? ==>
                  && b.joint < n && Moves(dq, b.joint) && b.value == LeadSpeed(dq, cap, dmax, b.joint)
                  && (forall i :: 0 <= i < b.joint && Moves(dq, i) ==> b.value < LeadSpeed(dq, cap, dmax, i)))
            && ((b.Finite? ==> v <= b.value) <==> forall i :: 0 <= i < n && Moves(dq, i) ==> v <= LeadSpeed(dq, cap, dmax, i))
  {
    hide LeadSpeed, Moves;
    if n > 0 {
      TightestExact(dq, cap, dmax, n - 1, v);
      var b := Tightest(dq, cap, dmax, n - 1);
      TightestExact(dq, cap, dmax, n - 1, if b.Finite? then b.value else v);
    }
  }

  /**
   The speed of a joint segment is the greatest feasible one, and there is none exactly when nothing moves.
   The limiting joint is the first that runs exactly at its velocity limit.
   */
  lemma GreatestJointSpeed(dq: Config, limits: Limits, v: real)
    ensures JointSegmentSpeed(dq, limits).None? <==> forall i :: 0 <= i < 6 ==> Abs(dq[i]) <= 0.000000001
    ensures JointSegmentSpeed(dq, limits).Some? ==>
              var s := JointSegmentSpeed(dq, limits).value;
              && (v <= s.velocity <==> Feasible(dq, limits.velocityMax, v))
              && (v <= s.acceleration <==> Feasible(dq, limits.accelerationMax, v))
              && s.limitingJoint < 6 && Moves(dq, s.limitingJoint)
              && Load(dq, s.velocity, s.limitingJoint) == Allowance(dq, limits.velocityMax, s.limitingJoint)
              && forall i :: 0 <= i < s.limitingJoint && Moves(dq, i)
                   ==> Load(dq, s.velocity, i) < Allowance(dq, limits.velocityMax, i)
  {
    hide LeadSpeed, Moves, Load, Allowance, MaxTravel;
    var dmax := MaxTravel(dq, 6);
    MovesMeans(dq);
    SomeMoves(dq);
    TightestExact(dq, limits.velocityMax, dmax, 6, v);
    TightestExact(dq, limits.accelerationMax, dmax, 6, v);
    FeasibleIffBelow(dq, limits.velocityMax, v);
    FeasibleIffBelow(dq, limits.accelerationMax, v);
    if JointSegmentSpeed(dq, limits).Some? {
      var s := JointSegmentSpeed(dq, limits).value;
      LeadSpeedExact(dq, limits.velocityMax, s.limitingJoint, s.velocity);
      forall i | 0 <= i < s.limitingJoint && Moves(dq, i)
        ensures Load(dq, s.velocity, i) < Allowance(dq, limits.velocityMax, i)
      {
        LeadSpeedExact(dq, limits.velocityMax, i, s.velocity);
      }
    }
  }

  lemma MovesMeans(dq: Config)
    ensures forall i :: 0 <= i < 6 ==> (Abs(dq[i]) > 0.000000001 <==> Moves(dq, i))
  {
  }

  lemma SomeMoves(dq: Config)
    ensures MaxTravel(dq, 6) <= MOTIONLESS_JOINT <==> forall i :: 0 <= i < 6 ==> !Moves(dq, i)
  {
    MaxTravelBounds(dq, 6);
    if MaxTravel(dq, 6) > MOTIONLESS_JOINT {
      var i :| 0 <= i < 6 && Abs(dq[i]) == MaxTravel(dq, 6);
      assert Moves(dq, i);
    }
  }

  lemma FeasibleIffBelow(dq: Config, cap: Config, v: real)
    ensures Feasible(dq, cap, v) <==> forall i :: 0 <= i < 6 && Moves(dq, i) ==> v <= LeadSpeed(dq, cap, MaxTravel(dq, 6), i)
  {
    hide LeadSpeed, Moves, Load, Allowance, MaxTravel;
    MovesMeans(dq);
    forall i | 0 <= i < 6 && Moves(dq, i)
      ensures v <= LeadSpeed(dq, cap, MaxTravel(dq, 6), i) <==> Load(dq, v, i) <= Allowance(dq, cap, i)
    {
      LeadSpeedExact(dq, cap, i, v);
    }
  }

  /** Scaling the other joints down pays: the lead speed is at least the limiting joint's own limit. */
  lemma AtLeastOneLimit(dq: Config, limits: Limits)
    requires JointSegmentSpeed(dq, limits).Some? && forall i :: 0 <= i < 6 ==> limits.velocityMax[i] >= 0.0
    ensures var s := JointSegmentSpeed(dq, limits).value;
            s.limitingJoint < 6 && Moves(dq, s.limitingJoint) && s.velocity >= limits.velocityMax[s.limitingJoint]
  {
    hide JointSegmentSpeed, MaxTravel, Moves, Load, Allowance, Feasible;
    var s := JointSegmentSpeed(dq, limits).value;
    GreatestJointSpeed(dq, limits, 0.0);
    LimitReached(dq, limits.velocityMax, s.limitingJoint, s.velocity);
  }

  lemma LimitReached(dq: Config, cap: Config, i: nat, v: real)
    requires i < 6 && Moves(dq, i) && cap[i] >= 0.0 && Load(dq, v, i) == Allowance(dq, cap, i)
    ensures v >= cap[i]
  {
    MaxTravelBounds(dq, 6);
    AtLeast(v, cap[i], Abs(dq[i]), MaxTravel(dq, 6), Load(dq, v, i));
  }

  lemma AtLeast(v: real, c: real, t: real, d: real, p: real)
    requires 0.0 < t <= d && p == v * t && p == c * d && c >= 0.0
    ensures v >= c
  {
    assert c * (d - t) >= 0.0;
    if v < c {
      Positive(c - v, t, c * t - p);
    }
  }

  // --- Cartesian segments ---

  /** One sample lowers the running tool speed to what its joints allow. */
  function CapJoints(rates: Config, cap: Config, speed: (real, nat), n: nat): (real, nat)
    requires n <= 6
  {
    if n == 0 then speed
    else
      var s := CapJoints(rates, cap, speed, n - 1);
      if Moves(rates, n - 1) && cap[n - 1] / Abs(rates[n - 1]) < s.0 then (cap[n - 1] / Abs(rates[n - 1]), n - 1) else s
  }

  function CapSamples(samples: seq<Config>, cap: Config, ceiling: real): (real, nat) {
    if samples == [] then (ceiling, 0)
    else CapJoints(samples[|samples| - 1], cap, CapSamples(samples[..|samples| - 1], cap, ceiling), 6)
  }

  function CartesianSpeedCap(samples: seq<Config>, limits: Limits, ceiling: real): SegmentSpeed {
    var (velocity, joint) := CapSamples(samples, limits.velocityMax, ceiling);
    var ratio := if ceiling > 0.0 then velocity / ceiling else 1.0;
    SegmentSpeed(velocity, DEFAULT_MAX_CARTESIAN_SPEED / RAMP_TIME_S * ratio, joint)
  }

  method ComputeCartesianSpeedCap(samples: seq<Config>, limits: Limits, ceiling: real) returns (speed: SegmentSpeed)
    ensures speed == CartesianSpeedCap(samples, limits, ceiling)
  {
    var velocity, joint := ceiling, 0;
    for k := 0 to |samples|
      invariant (velocity, joint) == CapSamples(samples[..k], limits.velocityMax, ceiling)
    {
      ghost var before := (velocity, joint);
      var rates := samples[k];
      for i := 0 to 6
        invariant (velocity, joint) == CapJoints(rates, limits.velocityMax, before, i)
      {
        if Moves(rates, i) {
          var v := limits.velocityMax[i] / Abs(rates[i]);
          if v < velocity {
            velocity, joint := v, i;
          }
        }
      }
      assert samples[..k + 1][..k] == samples[..k];
    }
    assert samples[..|samples|] == samples;
    var ratio := if ceiling > 0.0 then velocity / ceiling else 1.0;
    speed := SegmentSpeed(velocity, DEFAULT_MAX_CARTESIAN_SPEED / RAMP_TIME_S * ratio, joint);
  }

  /** At tool speed `v` the rates of one sample stay within `cap` for the first `n` joints. */
  ghost predicate Sustains(rates: Config, cap: Config, v: real, n: nat)
    requires n <= 6
  {
    forall i :: 0 <= i < n && Abs(rates[i]) > 0.000000001 ==> Load(rates, v, i) <= cap[i]
  }

  ghost predicate Saturates(rates: Config, cap: Config, v: real, i: nat) {
    i < 6 && Abs(rates[i]) > 0.000000001 && Load(rates, v, i) == cap[i]
  }

  lemma QuotientBound(rates: Config, cap: Config, i: nat, v: real)
    requires i < 6 && Moves(rates, i)
    ensures v <= cap[i] / Abs(rates[i]) <==> Load(rates, v, i) <= cap[i]
    ensures v == cap[i] / Abs(rates[i]) ==> Load(rates, v, i) == cap[i]
  {
    RatioExact(v, cap[i], 1.0, Abs(rates[i]), cap[i] / Abs(rates[i]), Load(rates, v, i), cap[i]);
  }

  lemma {:induction false} CapJointsExact(rates: Config, cap: Config, speed: (real, nat), n: nat, v: real)
    requires n <= 6
    ensures var s := CapJoints(rates, cap, speed, n);
            && (v <= s.0 <==> v <= speed.0 && Sustains(rates, cap, v, n))
            && (s == speed || Saturates(rates, cap, s.0, s.1))
  {
    hide Load;
    if n > 0 {
      CapJointsExact(rates, cap, speed, n - 1, v);
      if Moves(rates, n - 1) {
        QuotientBound(rates, cap, n - 1, v);
        QuotientBound(rates, cap, n - 1, cap[n - 1] / Abs(rates[n - 1]));
      }
    }
  }

  lemma {:induction false} CapSamplesExact(samples: seq<Config>, cap: Config, ceiling: real, v: real)
    ensures var s := CapSamples(samples, cap, ceiling);
            && (v <= s.0 <==> v <= ceiling && forall k :: 0 <= k < |samples| ==> Sustains(samples[k], cap, v, 6))
            && (s.0 == ceiling || exists k :: 0 <= k < |samples| && Saturates(samples[k], cap, s.0, s.1))
  {
    hide Sustains, Saturates, CapJoints;
    if samples != [] {
      var n := |samples| - 1;
      CapSamplesExact(samples[..n], cap, ceiling, v);
      CapJointsExact(samples[n], cap, CapSamples(samples[..n], cap, ceiling), 6, v);
      assert forall k :: 0 <= k < n ==> samples[..n][k] == samples[k];
    }
  }

  /**
   The cap is the greatest tool speed that is within the ceiling and that every joint can sustain at every
   sample; below the ceiling some sample holds a joint exactly at its limit; and the acceleration shrinks
   by the same factor as the velocity, from one metre per second squared.
   */
  lemma GreatestToolSpeed(samples: seq<Config>, limits: Limits, ceiling: real, v: real)
    ensures var s := CartesianSpeedCap(samples, limits, ceiling);
            && (v <= s.velocity
                <==> v <= ceiling && forall k :: 0 <= k < |samples| ==> Sustains(samples[k], limits.velocityMax, v, 6))
            && (s.velocity == ceiling
                || exists k :: 0 <= k < |samples| && Saturates(samples[k], limits.velocityMax, s.velocity, s.limitingJoint))
            && (ceiling > 0.0 ==> s.acceleration * ceiling == s.velocity)
            && (ceiling <= 0.0 ==> s.acceleration == 1.0)
  {
    hide Sustains, Saturates, CapSamples;
    CapSamplesExact(samples, limits.velocityMax, ceiling, v);
  }
}
