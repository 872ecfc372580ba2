/** For every arm, a target for which clamping makes up a branch. */
module Fabrication {
  import opened RealAlgebra
  import opened Trigonometry
  import opened Poses
  import opened Kinematics
  import opened Isolation
  import opened IkBranches
  import opened BranchProofs
  import opened Completeness

  /** The flange pose of a base angle, a wrist and anything rigid in between. */
  function Assembled(t: Trig, dh: Dh, theta1: real, m: Pose, theta5: real, theta6: real): Pose {
    BaseLink(t, dh, theta1).Then(m).Then(WristLinks(t, dh, theta5, theta6))
  }

  lemma AssembledFits(t: Trig, dh: Dh, theta1: real, m: Pose, theta5: real, theta6: real)
    requires t.Lawful() && m.Rigid() && m.RowZ() == Y_AXIS && m.p.z == dh.d4
    ensures var x := Assembled(t, dh, theta1, m, theta5, theta6);
            && x.Rigid() && Isolated(t, dh, x, theta1, theta5, theta6) == m
            && WristFits(t, x, theta1, theta5, theta6) && CentreFits(t, dh, x, theta1)
  {
    hide Pose.Then, Pose.Rigid, Pose.RowZ, DhTransform, WristLinks, WristFits, CentreFits, Dot, Pose.Inverse;
    var l, w, x := BaseLink(t, dh, theta1), WristLinks(t, dh, theta5, theta6), Assembled(t, dh, theta1, m, theta5, theta6);
    BaseLinkFacts(t, dh, theta1);
    WristRigid(t, dh, theta5, theta6);
    ThenRigid(l, m);
    ThenRigid(l.Then(m), w);
    Isolate(l, m, w, x);
    IsolatedFits(t, dh, x, theta1, theta5, theta6);
  }

  /** A cosine just out of range, of the sign that stretches the arm. */
  function Overstretched(dh: Dh): real { if dh.a2 * dh.a3 > 0.0 then 1.000000001 else -1.000000001 }

  lemma OverstretchedReach(dh: Dh)
    requires dh.Proper()
    ensures ReachSquared(dh, Overstretched(dh)) >= 0.0
  {
    var p, c := dh.a2 * dh.a3, Overstretched(dh);
    Square(dh.a2, dh.a2 * dh.a2);
    Square(dh.a3, dh.a3 * dh.a3);
    if p > 0.0 {
      NonNegative(p, c, p * c);
    } else {
      NonNegative(-p, -c, p * c);
    }
    assert ReachSquared(dh, c) == dh.a2 * dh.a2 + dh.a3 * dh.a3 + 2.0 * (p * c);
  }

  /** A planar offset that the two links cannot quite span. */
  lemma TooFar(t: Trig, dh: Dh) returns (m: Pose)
    requires t.Lawful() && dh.Proper()
    ensures m.Rigid() && m.RowZ() == Y_AXIS && m.p.z == dh.d4
    ensures !ElbowExact(dh, m) && ElbowAngles(t, dh, m) != []
  {
    hide ReachSquared, PlanarForm, ElbowCosine, Pose.Rigid, Pose.RowZ;
    var c := Overstretched(dh);
    OverstretchedReach(dh);
    var r := ReachSquared(dh, c);
    Root(t, r);
    m := PlanarForm(1.0, 0.0, t.sqrt(r), 0.0, dh.d4);
    StraightAhead(t.sqrt(r), dh.d4);
    ElbowCosineIs(dh, m, c);
  }

  lemma StraightAhead(x: real, d: real)
    ensures var m := PlanarForm(1.0, 0.0, x, 0.0, d);
            m.Rigid() && m.RowZ() == Y_AXIS && m.p == Vec3(x, 0.0, d)
  {
    assert Cross(X_AXIS, Z_AXIS) == Vec3(0.0, -1.0, 0.0);
    assert Dot(X_AXIS, X_AXIS) == 1.0 && Dot(Z_AXIS, Z_AXIS) == 1.0 && Dot(X_AXIS, Z_AXIS) == 0.0;
  }

  /** The solver lists the branch it finds for the assembled target, up to whole turns. */
  lemma AssembledListed(t: Trig, dh: Dh, x: Pose, theta1: real, theta5: real) returns (phi1: real, phi5: real)
    requires t.Lawful() && dh.Proper() && x.Rigid()
    requires CentreFits(t, dh, x, theta1) && t.cos(theta5) == x.Unrotate(ShoulderAxis(t, theta1)).z
    ensures phi1 in ShoulderAngles(t, dh, x) && phi5 in WristBends(t, dh, x, phi1)
    ensures t.SameDirection(theta1, phi1) && t.SameDirection(theta5, phi5)
  {
    hide ShoulderAngles, ArcPair, BendCosine, CentreFits, Pose.Unrotate, Pose.Rigid, ShoulderAxis;
    ShoulderExact(t, dh, x, theta1);
    phi1 :| phi1 in ShoulderAngles(t, dh, x) && t.SameDirection(theta1, phi1);
    BendCosineExact(t, dh, x, theta1);
    SameBend(t, dh, x, theta1, phi1);
    ArcPairExact(t, BendCosine(t, dh, x, theta1), theta5);
    phi5 :| phi5 in ArcPair(t, BendCosine(t, dh, x, theta1)) && t.SameDirection(theta5, phi5);
  }

  lemma AssembledPlane(t: Trig, dh: Dh, m: Pose, phi1: real, phi5: real)
    requires t.Lawful() && m.Rigid() && m.RowZ() == Y_AXIS && m.p.z == dh.d4
    requires t.SameDirection(0.0, phi1) && t.SameDirection(t.pi / 2.0, phi5)
    ensures BranchPlane(t, dh, Assembled(t, dh, 0.0, m, t.pi / 2.0, 0.0), phi1, phi5) == m
  {
    hide Assembled, WristRoll, Isolated, Pose.Rigid, Pose.Unrotate, Pose.RowZ, CentreFits, ShoulderAxis;
    var h := t.pi / 2.0;
    var x := Assembled(t, dh, 0.0, m, h, 0.0);
    AssembledFits(t, dh, 0.0, m, h, 0.0);
    RollExact(t, x, 0.0, h, 0.0);
    SamePlane(t, dh, x, 0.0, h, phi1, phi5);
    SameIsolated(t, dh, x, 0.0, h, 0.0, WristRoll(t, x, 0.0, h));
  }

  /** Within the tolerance a cosine out of range is clamped, and the branch made of it misses its target. */
  lemma ClampingFabricates(t: Trig, dh: Dh) returns (x: Pose, theta1: real, theta5: real, theta3: real)
    requires t.Lawful() && dh.Proper()
    ensures x.Rigid() && Listed(t, dh, x, theta1, theta5, theta3)
    ensures WristExact(t, x, theta1, theta5) && !ElbowExact(dh, BranchPlane(t, dh, x, theta1, theta5))
    ensures Branch(t, dh, x, theta1, theta5, theta3) in Branches(t, dh, x)
    ensures Flange(t, dh, Branch(t, dh, x, theta1, theta5, theta3)) != x
  {
    hide Assembled, Pose.Rigid, Pose.Unrotate, Pose.RowZ, CentreFits, ShoulderAxis, ElbowExact, ElbowAngles, BranchPlane, Branch,
         Branches, Flange, ShoulderAngles, WristBends, RollIsZero;
    var h := t.pi / 2.0;
    var m := TooFar(t, dh);
    x := Assembled(t, dh, 0.0, m, h, 0.0);
    AssembledFits(t, dh, 0.0, m, h, 0.0);
    theta1, theta5 := AssembledListed(t, dh, x, 0.0, h);
    AssembledPlane(t, dh, m, theta1, theta5);
    theta3 := ElbowAngles(t, dh, m)[0];
    InBranches(t, dh, x, Branch(t, dh, x, theta1, theta5, theta3));
    BranchReachesIff(t, dh, x, theta1, theta5, theta3);
  }
}
