/** Every way of reaching a target is among the listed branches, up to whole turns. */
module Completeness {
  import opened Trigonometry
  import opened Poses
  import opened Kinematics
  import opened Isolation
  import opened IkBranches
  import opened BranchProofs

  // --- what a branch depends on ---

  /** The solver sees the first and the fifth angle only through their directions. */
  lemma SamePlane(t: Trig, dh: Dh, x: Pose, theta1: real, theta5: real, phi1: real, phi5: real)
    requires t.SameDirection(theta1, phi1) && t.SameDirection(theta5, phi5)
    ensures WristRoll(t, x, theta1, theta5) == WristRoll(t, x, phi1, phi5)
    ensures BranchPlane(t, dh, x, theta1, theta5) == BranchPlane(t, dh, x, phi1, phi5)
  {
    hide Pose.Then, LinkForm, Pose.Inverse, Signed;
    assert RollSine(t, x, theta1) == RollSine(t, x, phi1) && RollCosine(t, x, theta1) == RollCosine(t, x, phi1);
  }

  lemma SameIsolated(t: Trig, dh: Dh, x: Pose, theta1: real, theta5: real, theta6: real, phi6: real)
    requires t.SameDirection(theta6, phi6)
    ensures Isolated(t, dh, x, theta1, theta5, theta6) == Isolated(t, dh, x, theta1, theta5, phi6)
  {
    hide Pose.Then, LinkForm, Pose.Inverse;
  }

  // --- membership in the list ---

  lemma {:induction false} InElbowBranches(t: Trig, dh: Dh, x: Pose, theta1: real, theta5: real, elbows: seq<real>, b: Config)
    requires t.pi > 0.0
    ensures b in ElbowBranches(t, dh, x, theta1, theta5, elbows)
       <==> exists theta3 :: theta3 in elbows && b == Branch(t, dh, x, theta1, theta5, theta3)
  {
    hide Branch;
    if elbows != [] {
      var n := |elbows| - 1;
      assert elbows == elbows[..n] + [elbows[n]];
      InElbowBranches(t, dh, x, theta1, theta5, elbows[..n], b);
    }
  }

  lemma {:induction false} InBendBranches(t: Trig, dh: Dh, x: Pose, theta1: real, bends: seq<real>, b: Config)
    requires t.pi > 0.0 && dh.Proper()
    ensures b in BendBranches(t, dh, x, theta1, bends)
       <==> exists theta5, theta3 :: theta5 in bends && theta3 in ElbowAngles(t, dh, BranchPlane(t, dh, x, theta1, theta5))
                                    && b == Branch(t, dh, x, theta1, theta5, theta3)
  {
    hide Branch, ElbowAngles, BranchPlane;
    if bends != [] {
      var n := |bends| - 1;
      assert bends == bends[..n] + [bends[n]];
      InBendBranches(t, dh, x, theta1, bends[..n], b);
      InElbowBranches(t, dh, x, theta1, bends[n], ElbowAngles(t, dh, BranchPlane(t, dh, x, theta1, bends[n])), b);
    }
  }

  lemma {:induction false} InShoulderBranches(t: Trig, dh: Dh, x: Pose, shoulders: seq<real>, b: Config)
    requires t.pi > 0.0 && dh.Proper()
    ensures b in ShoulderBranches(t, dh, x, shoulders)
       <==> exists theta1, theta5, theta3 ::
              && theta1 in shoulders && theta5 in WristBends(t, dh, x, theta1)
              && theta3 in ElbowAngles(t, dh, BranchPlane(t, dh, x, theta1, theta5))
              && b == Branch(t, dh, x, theta1, theta5, theta3)
  {
    hide Branch, ElbowAngles, BranchPlane, WristBends;
    if shoulders != [] {
      var n := |shoulders| - 1;
      assert shoulders == shoulders[..n] + [shoulders[n]];
      InShoulderBranches(t, dh, x, shoulders[..n], b);
      InBendBranches(t, dh, x, shoulders[n], WristBends(t, dh, x, shoulders[n]), b);
    }
  }

  /** The list holds the branches of the listed angles and nothing else. */
  lemma InBranches(t: Trig, dh: Dh, x: Pose, b: Config)
    requires t.pi > 0.0 && dh.Proper()
    ensures b in Branches(t, dh, x)
       <==> exists theta1, theta5, theta3 :: Listed(t, dh, x, theta1, theta5, theta3)
                                             && b == Branch(t, dh, x, theta1, theta5, theta3)
  {
    hide Branch, ElbowAngles, BranchPlane, WristBends, ShoulderAngles;
    InShoulderBranches(t, dh, x, ShoulderAngles(t, dh, x), b);
  }

  lemma {:induction false} CountElbows(t: Trig, dh: Dh, x: Pose, theta1: real, theta5: real, elbows: seq<real>)
    requires t.pi > 0.0
    ensures |ElbowBranches(t, dh, x, theta1, theta5, elbows)| == |elbows|
  {
    if elbows != [] {
      CountElbows(t, dh, x, theta1, theta5, elbows[..|elbows| - 1]);
    }
  }

  lemma {:induction false} CountBends(t: Trig, dh: Dh, x: Pose, theta1: real, bends: seq<real>)
    requires t.pi > 0.0 && dh.Proper()
    ensures |BendBranches(t, dh, x, theta1, bends)| <= 2 * |bends|
  {
    if bends != [] {
      var theta5 := bends[|bends| - 1];
      CountBends(t, dh, x, theta1, bends[..|bends| - 1]);
      CountElbows(t, dh, x, theta1, theta5, ElbowAngles(t, dh, BranchPlane(t, dh, x, theta1, theta5)));
    }
  }

  lemma {:induction false} CountShoulders(t: Trig, dh: Dh, x: Pose, shoulders: seq<real>)
    requires t.pi > 0.0 && dh.Proper()
    ensures |ShoulderBranches(t, dh, x, shoulders)| <= 4 * |shoulders|
  {
    if shoulders != [] {
      var theta1 := shoulders[|shoulders| - 1];
      CountShoulders(t, dh, x, shoulders[..|shoulders| - 1]);
      CountBends(t, dh, x, theta1, WristBends(t, dh, x, theta1));
    }
  }

  /** There are up to eight branches. */
  lemma AtMostEight(t: Trig, dh: Dh, x: Pose)
    requires t.pi > 0.0 && dh.Proper()
    ensures |Branches(t, dh, x)| <= 8
  {
    CountShoulders(t, dh, x, ShoulderAngles(t, dh, x));
  }

  lemma SameBend(t: Trig, dh: Dh, x: Pose, theta1: real, phi1: real)
    requires dh.Proper() && t.SameDirection(theta1, phi1)
    ensures BendCosine(t, dh, x, theta1) == BendCosine(t, dh, x, phi1)
  {
  }

  lemma {:induction false} FrameRigid(t: Trig, dh: Dh, q: Config, i: nat)
    requires t.Lawful() && i <= 6
    ensures Frame(t, dh, q, i).Rigid()
  {
    hide Pose.Then, LinkForm, Link, Pose.Rigid;
    if i == 0 {
      assert IDENTITY.Rigid() by { IdentityRigid(); }
    } else {
      FrameRigid(t, dh, q, i - 1);
      LinkRigid(t, dh, q, i - 1);
      ThenRigid(Frame(t, dh, q, i - 1), Link(t, dh, q, i - 1));
    }
  }

  lemma IdentityRigid()
    ensures IDENTITY.Rigid()
  {
  }

  lemma FlangeRigid(t: Trig, dh: Dh, q: Config)
    requires t.Lawful()
    ensures Flange(t, dh, q).Rigid()
  {
    FrameRigid(t, dh, q, 6);
  }

  // --- completeness ---

  /** The roll the solver would choose for `q` is the roll of `q`. */
  ghost predicate RollRecoverable(t: Trig, q: Config) {
    Abs(t.sin(q[4])) >= 0.0000001 || t.SameDirection(q[5], 0.0)
  }

  /** The plane the solver isolates for a configuration at the target is the configuration's own. */
  lemma OwnPlane(t: Trig, dh: Dh, x: Pose, q: Config, theta1: real, theta5: real)
    requires t.Lawful() && dh.Proper() && x.Rigid() && Flange(t, dh, q) == x
    requires t.SameDirection(q[0], theta1) && t.SameDirection(q[4], theta5)
    ensures RollRecoverable(t, q) <==> t.SameDirection(q[5], WristRoll(t, x, theta1, theta5))
    ensures RollRecoverable(t, q) ==> PlanarFits(t, dh, BranchPlane(t, dh, x, theta1, theta5), q)
  {
    hide Pose.Unrotate, Pose.Rigid, Flange, PlanarFits, CentreFits, Isolated, RollSine, RollCosine, Dot;
    ReachesIffFits(t, dh, q, x);
    assert t.cos(q[4]) == x.Unrotate(ShoulderAxis(t, q[0])).z;
    SamePlane(t, dh, x, q[0], q[4], theta1, theta5);
    var roll := WristRoll(t, x, q[0], q[4]);
    if Abs(t.sin(q[4])) >= 0.0000001 {
      RollExact(t, x, q[0], q[4], q[5]);
    }
    if RollRecoverable(t, q) {
      SameIsolated(t, dh, x, q[0], q[4], q[5], roll);
    }
  }

  lemma OwnElbow(t: Trig, dh: Dh, m: Pose, q: Config) returns (theta3: real)
    requires t.Lawful() && dh.Proper() && PlanarFits(t, dh, m, q)
    ensures theta3 in ElbowAngles(t, dh, m) && t.SameDirection(q[2], theta3)
    ensures t.SameDirection(q[1], ShoulderLift(t, dh, m, theta3))
    ensures t.SameDirection(q[3], PlaneAngle(t, m) - ShoulderLift(t, dh, m, theta3) - theta3)
  {
    hide PlaneAngle, ShoulderLift, ElbowCosine, ReachSquared, SumOfSquares, Along, Across, ArcPair;
    ForwardReach(t, dh, q[1], q[2]);
    ElbowCosineIs(dh, m, t.cos(q[2]));
    Unit(t, q[2]);
    ArcPairExact(t, ElbowCosine(dh, m), q[2]);
    theta3 :| theta3 in ArcPair(t, ElbowCosine(dh, m)) && t.SameDirection(q[2], theta3);
    LawOfCosines(t, dh, theta3);
    SameForward(t, dh, q[1], q[2], theta3);
    LiftExact(t, dh, m, q[1], theta3);
    var lift := ShoulderLift(t, dh, m, theta3);
    Unit(t, q[1] + q[2] + q[3]);
    PlaneAngleExact(t, m, q[1] + q[2] + q[3]);
    SumDirection(t, q[1] + q[2] + q[3], q[1], PlaneAngle(t, m), lift);
    SumDirection(t, q[1] + q[2] + q[3] - q[1], q[2], PlaneAngle(t, m) - lift, theta3);
    assert q[1] + q[2] + q[3] - q[1] - q[2] == q[3];
  }

  lemma SameForward(t: Trig, dh: Dh, theta2: real, theta3: real, phi3: real)
    requires t.Lawful() && t.SameDirection(theta3, phi3)
    ensures ForwardX(t, dh, theta2, theta3) == ForwardX(t, dh, theta2, phi3)
    ensures ForwardY(t, dh, theta2, theta3) == ForwardY(t, dh, theta2, phi3)
  {
    SameAsItself(t, theta2);
    SumDirection(t, theta2, theta3, theta2, phi3);
  }

  /** A configuration is listed, up to whole turns, exactly when its roll is the one the solver chooses. */
  lemma RecoveredIff(t: Trig, dh: Dh, q: Config)
    requires t.Lawful() && dh.Proper()
    ensures RollRecoverable(t, q)
       <==> exists b :: b in Branches(t, dh, Flange(t, dh, q)) && SameDirections(t, q, b)
  {
    hide Flange, Branch, Branches, Listed, RollRecoverable;
    var x := Flange(t, dh, q);
    if RollRecoverable(t, q) {
      var theta1, theta5, theta3 := OwnBranch(t, dh, q);
      InBranches(t, dh, x, Branch(t, dh, x, theta1, theta5, theta3));
    }
    if b :| b in Branches(t, dh, x) && SameDirections(t, q, b) {
      InBranches(t, dh, x, b);
      var theta1, theta5, theta3 :| Listed(t, dh, x, theta1, theta5, theta3) && b == Branch(t, dh, x, theta1, theta5, theta3);
      OnlyOwnRoll(t, dh, q, theta1, theta5, theta3);
    }
  }

  lemma OnlyOwnRoll(t: Trig, dh: Dh, q: Config, theta1: real, theta5: real, theta3: real)
    requires t.Lawful() && dh.Proper()
    requires SameDirections(t, q, Branch(t, dh, Flange(t, dh, q), theta1, theta5, theta3))
    ensures RollRecoverable(t, q)
  {
    hide Flange, RollRecoverable, WristRoll, BranchPlane, ShoulderLift, PlaneAngle;
    var x := Flange(t, dh, q);
    var u := Unwrapped(t, dh, x, theta1, theta5, theta3);
    WrappedDirections(t, u);
    FlangeRigid(t, dh, q);
    assert forall i :: 0 <= i < 6 ==> t.SameDirection(q[i], u[i]);
    OwnPlane(t, dh, x, q, theta1, theta5);
  }

  lemma OwnBranch(t: Trig, dh: Dh, q: Config) returns (theta1: real, theta5: real, theta3: real)
    requires t.Lawful() && dh.Proper() && RollRecoverable(t, q)
    ensures Listed(t, dh, Flange(t, dh, q), theta1, theta5, theta3)
    ensures SameDirections(t, q, Branch(t, dh, Flange(t, dh, q), theta1, theta5, theta3))
  {
    hide Flange, RollRecoverable, WristRoll, BranchPlane, ShoulderLift, PlaneAngle, ShoulderAngles, ArcPair, ElbowAngles, Isolated,
         Pose.Unrotate, BendCosine, PlanarFits, Dot, Pose.Rigid;
    var x := Flange(t, dh, q);
    FlangeRigid(t, dh, q);
    ReachesIffFits(t, dh, q, x);
    ShoulderExact(t, dh, x, q[0]);
    theta1 :| theta1 in ShoulderAngles(t, dh, x) && t.SameDirection(q[0], theta1);
    BendCosineExact(t, dh, x, q[0]);
    assert BendCosine(t, dh, x, q[0]) == BendCosine(t, dh, x, theta1) by { SameBend(t, dh, x, q[0], theta1); }
    ArcPairExact(t, BendCosine(t, dh, x, theta1), q[4]);
    theta5 :| theta5 in WristBends(t, dh, x, theta1) && t.SameDirection(q[4], theta5);
    OwnPlane(t, dh, x, q, theta1, theta5);
    var m := BranchPlane(t, dh, x, theta1, theta5);
    theta3 := OwnElbow(t, dh, m, q);
    var u := Unwrapped(t, dh, x, theta1, theta5, theta3);
    assert forall i :: 0 <= i < 6 ==> t.SameDirection(q[i], u[i]);
    WrappedDirections(t, u);
  }
}
