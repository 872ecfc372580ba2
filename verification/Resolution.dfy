/** Turning a tool pose into the joint configuration nearest a seed. */
module Resolution {
  import opened Results
  import opened Trigonometry
  import opened Poses
  import opened Kinematics
  import opened IkBranches
  import opened BranchProofs
  import opened Completeness
  import opened Turns
  import opened LimitsModel

  datatype ResolveError =
    | Unreachable(index: nat)
    | OutsideJointLimits(index: nat)
    | GivenConfigurationOutsideLimits(index: nat, joint: nat, value: real, min: real, max: real)

  function ResolvePose(t: Trig, dh: Dh, limits: Limits, x: Pose, seed: Config, index: nat): Result<Config, ResolveError>
    requires t.pi > 0.0 && dh.Proper()
  {
    if Branches(t, dh, x) == [] then Err(Unreachable(index))
    else
      match SelectNearest(Filtered(t, dh, x, limits.positionMin, limits.positionMax), seed)
      case None => Err(OutsideJointLimits(index))
      case Some(q) => Ok(q)
  }

  function CheckConfiguration(limits: Limits, q: Config, index: nat): Result<Config, ResolveError> {
    match limits.FirstViolation(q, 0)
    case None => Ok(q)
    case Some(i) => Err(GivenConfigurationOutsideLimits(index, i, q[i], limits.positionMin[i], limits.positionMax[i]))
  }

  /** A given configuration stands as it is, or the error quotes its first joint outside the limits and those limits. */
  lemma CheckExact(limits: Limits, q: Config, index: nat)
    ensures match CheckConfiguration(limits, q, index)
            case Ok(r) => r == q && limits.Contains(q)
            case Err(e) =>
              && e.GivenConfigurationOutsideLimits? && e.index == index && e.joint < 6
              && e.value == q[e.joint] && e.min == limits.positionMin[e.joint] && e.max == limits.positionMax[e.joint]
              && !(e.min <= e.value <= e.max)
              && forall i :: 0 <= i < e.joint ==> limits.positionMin[i] <= q[i] <= limits.positionMax[i]
  {
  }

  /** A configuration the solver may answer with: legal, and some branch up to whole turns. */
  ghost predicate Candidate(t: Trig, dh: Dh, limits: Limits, x: Pose, q: Config)
    requires t.pi > 0.0 && dh.Proper()
  {
    limits.Contains(q) && exists b :: b in Branches(t, dh, x) && SameDirections(t, q, b)
  }

  /** The answer is a candidate nearest the seed; an error means that there is none. */
  lemma ResolvePoseExact(t: Trig, dh: Dh, limits: Limits, x: Pose, seed: Config, index: nat)
    requires t.Lawful() && dh.Proper() && OneTurnLimits(t, limits.positionMin, limits.positionMax)
    ensures var r := ResolvePose(t, dh, limits, x, seed, index);
            && (r.Ok? <==> exists q :: Candidate(t, dh, limits, x, q))
            && (r.Ok? ==>
                  && Candidate(t, dh, limits, x, r.value)
                  && forall q :: Candidate(t, dh, limits, x, q)
                       ==> ConfigurationDistance(r.value, seed) <= ConfigurationDistance(q, seed))
            && (r.Err? ==> r.error == if Branches(t, dh, x) == [] then Unreachable(index) else OutsideJointLimits(index))
  {
    hide Branches, Filtered, SameDirections, ConfigurationDistance, SelectNearest;
    var all := Filtered(t, dh, x, limits.positionMin, limits.positionMax);
    forall q: Config ensures q in all <==> Candidate(t, dh, limits, x, q) {
      FilteredExact(t, dh, x, limits.positionMin, limits.positionMax, q);
    }
    SelectNearestExact(all, seed);
    if q :| Candidate(t, dh, limits, x, q) {
      assert q in all;
    }
    if all != [] {
      assert all[0] in all;
    }
  }

  /** A pose with any branch is resolved when the limits take in a whole turn of every joint. */
  lemma WideLimitsSuffice(t: Trig, dh: Dh, limits: Limits, x: Pose, seed: Config, index: nat)
    requires t.Lawful() && dh.Proper() && OneTurnLimits(t, limits.positionMin, limits.positionMax)
    requires forall i :: 0 <= i < 6 ==> limits.positionMin[i] <= -t.pi && t.pi <= limits.positionMax[i]
    ensures ResolvePose(t, dh, limits, x, seed, index).Ok? <==> Branches(t, dh, x) != []
  {
    hide Branches, ResolvePose;
    ResolvePoseExact(t, dh, limits, x, seed, index);
    if Branches(t, dh, x) != [] {
      var b := Branches(t, dh, x)[0];
      BranchesInRange(t, dh, x, b);
      assert Candidate(t, dh, limits, x, b);
    }
  }

  /**
   Solving the pose of a legal configuration, seeded with that configuration, gives exactly it back if and
   only if its wrist is away from the singularity or has a zero roll.
   */
  lemma PoseRoundTrip(t: Trig, dh: Dh, limits: Limits, q: Config, index: nat)
    requires t.Lawful() && dh.Proper() && OneTurnLimits(t, limits.positionMin, limits.positionMax)
    requires limits.Contains(q)
    ensures ResolvePose(t, dh, limits, Flange(t, dh, q), q, index) == Ok(q) <==> RollRecoverable(t, q)
  {
    hide Branches, ResolvePose, Flange, RollRecoverable, ConfigurationDistance;
    var x := Flange(t, dh, q);
    ResolvePoseExact(t, dh, limits, x, q, index);
    RecoveredIff(t, dh, q);
    assert RollRecoverable(t, q) <==> Candidate(t, dh, limits, x, q);
    if Candidate(t, dh, limits, x, q) {
      var r := ResolvePose(t, dh, limits, x, q, index).value;
      ZeroDistance(q, q);
      NonNegativeDistance(r, q);
      ZeroDistance(r, q);
    }
  }

  /** At a straight wrist the roll is not reseeded: a quarter turn of the last joint does not come back. */
  lemma StraightWristForgetsRoll(t: Trig, dh: Dh, limits: Limits, index: nat)
    requires t.Lawful() && dh.Proper() && OneTurnLimits(t, limits.positionMin, limits.positionMax)
    requires limits.Contains([0.0, 0.0, 0.0, 0.0, 0.0, t.pi / 2.0])
    ensures var q := [0.0, 0.0, 0.0, 0.0, 0.0, t.pi / 2.0];
            ResolvePose(t, dh, limits, Flange(t, dh, q), q, index) != Ok(q)
  {
    hide ResolvePose, Flange;
    Zero(t);
    PoseRoundTrip(t, dh, limits, [0.0, 0.0, 0.0, 0.0, 0.0, t.pi / 2.0], index);
  }

  /** What is resolved is a listed branch, and it reaches the pose exactly when that branch does. */
  lemma ResolvedReaches(t: Trig, dh: Dh, limits: Limits, x: Pose, seed: Config, index: nat)
    returns (theta1: real, theta5: real, theta3: real)
    requires t.Lawful() && dh.Proper() && x.Rigid() && OneTurnLimits(t, limits.positionMin, limits.positionMax)
    requires ResolvePose(t, dh, limits, x, seed, index).Ok?
    ensures Listed(t, dh, x, theta1, theta5, theta3)
    ensures Flange(t, dh, ResolvePose(t, dh, limits, x, seed, index).value) == x
       <==> WristExact(t, x, theta1, theta5) && ElbowExact(dh, BranchPlane(t, dh, x, theta1, theta5))
  {
    hide Branches, ResolvePose, Flange, WristExact, ElbowExact, Listed, Branch;
    ResolvePoseExact(t, dh, limits, x, seed, index);
    var q := ResolvePose(t, dh, limits, x, seed, index).value;
    var b :| b in Branches(t, dh, x) && SameDirections(t, q, b);
    InBranches(t, dh, x, b);
    theta1, theta5, theta3 :| Listed(t, dh, x, theta1, theta5, theta3) && b == Branch(t, dh, x, theta1, theta5, theta3);
    SameFlange(t, dh, q, b);
    BranchReachesIff(t, dh, x, theta1, theta5, theta3);
  }
}
