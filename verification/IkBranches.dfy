/** Closed-form inverse kinematics: every branch, in the order the solver lists them. */
module IkBranches {
  import opened Trigonometry
  import opened Poses
  import opened Kinematics
  import opened Isolation

  const SINGULAR_EPS := 0.0000001
  const REACH_TOLERANCE := 0.000000001

  function Abs(x: real): real { if x < 0.0 then -x else x }

  function Clamp(x: real): real { if x < -1.0 then -1.0 else if x > 1.0 then 1.0 else x }

  // --- wrapping ---

  /** The remainder of truncated division, Rust's `%` on floats. */
  function Remainder(x: real, m: real): real
    requires m > 0.0
  {
    var k := x / m;
    x - m * ((if k < 0.0 then -(-k).Floor else k.Floor) as real)
  }

  function WrapToPi(t: Trig, a: real): real
    requires t.pi > 0.0
  {
    var x := Remainder(a + t.pi, 2.0 * t.pi);
    if x <= 0.0 then x + 2.0 * t.pi - t.pi else x - t.pi
  }

  // --- the angles of a branch ---

  function WristCentre(dh: Dh, x: Pose): Vec3 { Minus(x.p, Scale(dh.d6, x.a)) }

  /** The two base angles that put the wrist centre at the shoulder offset, or none. */
  function ShoulderAngles(t: Trig, dh: Dh, x: Pose): seq<real>
    requires dh.Proper()
  {
    var c := WristCentre(dh, x);
    var r := t.Hypot(c.x, c.y);
    if r < Abs(dh.d4) then
      []
    else
      var phi := t.acos(Clamp(dh.d4 / r));
      var base := t.atan2(c.x, -c.y);
      [base + phi, base - phi]
  }

  /** How far `v` reaches along the shoulder axis. */
  function Sideways(t: Trig, v: Vec3, theta1: real): real { v.x * t.sin(theta1) - v.y * t.cos(theta1) }

  function BendCosine(t: Trig, dh: Dh, x: Pose, theta1: real): real
    requires dh.Proper()
  {
    (Sideways(t, x.p, theta1) - dh.d4) / dh.d6
  }

  function ArcPair(t: Trig, c: real): seq<real> {
    if Abs(c) > 1.0 + REACH_TOLERANCE then [] else [t.acos(Clamp(c)), -t.acos(Clamp(c))]
  }

  function WristBends(t: Trig, dh: Dh, x: Pose, theta1: real): seq<real>
    requires dh.Proper()
  {
    ArcPair(t, BendCosine(t, dh, x, theta1))
  }

  function Signed(s: real, v: real): real { (if s > 0.0 then 1.0 else -1.0) * v }

  /** The tool's y and x axes along the shoulder axis. */
  function RollSine(t: Trig, x: Pose, theta1: real): real { -x.o.x * t.sin(theta1) + x.o.y * t.cos(theta1) }

  function RollCosine(t: Trig, x: Pose, theta1: real): real { x.n.x * t.sin(theta1) - x.n.y * t.cos(theta1) }

  function WristRoll(t: Trig, x: Pose, theta1: real, theta5: real): real {
    var s5 := t.sin(theta5);
    if Abs(s5) < SINGULAR_EPS then 0.0
    else t.atan2(Signed(s5, RollSine(t, x, theta1)), Signed(s5, RollCosine(t, x, theta1)))
  }

  function BranchPlane(t: Trig, dh: Dh, x: Pose, theta1: real, theta5: real): Pose {
    Isolated(t, dh, x, theta1, theta5, WristRoll(t, x, theta1, theta5))
  }

  function ElbowCosine(dh: Dh, m: Pose): real
    requires dh.Proper()
  {
    assert dh.a2 * dh.a3 != 0.0;
    (SumOfSquares(m.p.x, m.p.y) - dh.a2 * dh.a2 - dh.a3 * dh.a3) / (2.0 * dh.a2 * dh.a3)
  }

  function ElbowAngles(t: Trig, dh: Dh, m: Pose): seq<real>
    requires dh.Proper()
  {
    ArcPair(t, ElbowCosine(dh, m))
  }

  /** The far end of the two links is this far along and across the first. */
  function Along(t: Trig, dh: Dh, theta3: real): real { dh.a2 + dh.a3 * t.cos(theta3) }

  function Across(t: Trig, dh: Dh, theta3: real): real { dh.a3 * t.sin(theta3) }

  function ShoulderLift(t: Trig, dh: Dh, m: Pose, theta3: real): real {
    t.atan2(m.p.y, m.p.x) - t.atan2(Across(t, dh, theta3), Along(t, dh, theta3))
  }

  /** The total turn of joints 2 to 4, read off the rotation with the link twist taken out. */
  function PlaneAngle(t: Trig, m: Pose): real {
    var r := m.Then(RotX(t, -t.pi / 2.0));
    t.atan2(r.n.y, r.n.x)
  }

  /** One branch before wrapping. */
  function Unwrapped(t: Trig, dh: Dh, x: Pose, theta1: real, theta5: real, theta3: real): Config {
    var m := BranchPlane(t, dh, x, theta1, theta5);
    var theta2 := ShoulderLift(t, dh, m, theta3);
    [theta1, theta2, theta3, PlaneAngle(t, m) - theta2 - theta3, theta5, WristRoll(t, x, theta1, theta5)]
  }

  function Wrapped(t: Trig, q: Config): Config
    requires t.pi > 0.0
  {
    [WrapToPi(t, q[0]), WrapToPi(t, q[1]), WrapToPi(t, q[2]), WrapToPi(t, q[3]), WrapToPi(t, q[4]), WrapToPi(t, q[5])]
  }

  function Branch(t: Trig, dh: Dh, x: Pose, theta1: real, theta5: real, theta3: real): Config
    requires t.pi > 0.0
  {
    Wrapped(t, Unwrapped(t, dh, x, theta1, theta5, theta3))
  }

  // --- the list of branches ---

  function ElbowBranches(t: Trig, dh: Dh, x: Pose, theta1: real, theta5: real, elbows: seq<real>): seq<Config>
    requires t.pi > 0.0
  {
    if elbows == [] then []
    else ElbowBranches(t, dh, x, theta1, theta5, elbows[..|elbows| - 1]) + [Branch(t, dh, x, theta1, theta5, elbows[|elbows| - 1])]
  }

  function BendBranches(t: Trig, dh: Dh, x: Pose, theta1: real, bends: seq<real>): seq<Config>
    requires t.pi > 0.0 && dh.Proper()
  {
    if bends == [] then [] else
      var theta5 := bends[|bends| - 1];
      BendBranches(t, dh, x, theta1, bends[..|bends| - 1])
      + ElbowBranches(t, dh, x, theta1, theta5, ElbowAngles(t, dh, BranchPlane(t, dh, x, theta1, theta5)))
  }

  function ShoulderBranches(t: Trig, dh: Dh, x: Pose, shoulders: seq<real>): seq<Config>
    requires t.pi > 0.0 && dh.Proper()
  {
    if shoulders == [] then [] else
      var theta1 := shoulders[|shoulders| - 1];
      ShoulderBranches(t, dh, x, shoulders[..|shoulders| - 1])
      + BendBranches(t, dh, x, theta1, WristBends(t, dh, x, theta1))
  }

  function Branches(t: Trig, dh: Dh, x: Pose): seq<Config>
    requires t.pi > 0.0 && dh.Proper()
  {
    ShoulderBranches(t, dh, x, ShoulderAngles(t, dh, x))
  }

  method InverseKinematics(t: Trig, dh: Dh, x: Pose) returns (out: seq<Config>)
    requires t.pi > 0.0 && dh.Proper()
    ensures out == Branches(t, dh, x)
  {
    hide ShoulderAngles, WristBends, ElbowAngles, BranchPlane, Branch;
    out := [];
    var shoulders := ShoulderAngles(t, dh, x);
    for i := 0 to |shoulders|
      invariant out == ShoulderBranches(t, dh, x, shoulders[..i])
    {
      var theta1 := shoulders[i];
      var bends := WristBends(t, dh, x, theta1);
      ghost var before := out;
      for j := 0 to |bends|
        invariant out == before + BendBranches(t, dh, x, theta1, bends[..j])
      {
        var theta5 := bends[j];
        var elbows := ElbowAngles(t, dh, BranchPlane(t, dh, x, theta1, theta5));
        ghost var within := out;
        for k := 0 to |elbows|
          invariant out == within + ElbowBranches(t, dh, x, theta1, theta5, elbows[..k])
        {
          out := out + [Branch(t, dh, x, theta1, theta5, elbows[k])];
          assert elbows[..k + 1][..k] == elbows[..k];
        }
        assert elbows[..|elbows|] == elbows;
        assert bends[..j + 1][..j] == bends[..j];
      }
      assert bends[..|bends|] == bends;
      assert shoulders[..i + 1][..i] == shoulders[..i];
    }
    assert shoulders[..|shoulders|] == shoulders;
  }
}
