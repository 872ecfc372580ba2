/** What the angles of a listed branch are, and exactly when the branch reaches its target. */
module BranchProofs {
  import opened RealAlgebra
  import opened Trigonometry
  import opened Poses
  import opened Kinematics
  import opened Isolation
  import opened IkBranches

  // --- wrapping ---

  lemma RemainderTurns(x: real, m: real) returns (n: int)
    requires m > 0.0
    ensures Remainder(x, m) == x - m * (n as real)
    ensures -m < Remainder(x, m) < m
  {
    var k := x / m;
    n := if k < 0.0 then -(-k).Floor else k.Floor;
    var f := k - n as real;
    assert x == k * m;
    Positive(m, 1.0 - f, m - m * f);
    Positive(m, 1.0 + f, m + m * f);
  }

  /** Wrapping lands in `(-pi, pi]` and changes the angle by whole turns. */
  lemma WrapExact(t: Trig, a: real)
    requires t.pi > 0.0
    ensures -t.pi < WrapToPi(t, a) <= t.pi && t.Congruent(WrapToPi(t, a), a)
  {
    var m := 2.0 * t.pi;
    var k := RemainderTurns(a + t.pi, m);
    if Remainder(a + t.pi, m) <= 0.0 {
      assert WrapToPi(t, a) == t.Turned(a, 1 - k);
    } else {
      assert WrapToPi(t, a) == t.Turned(a, -k);
    }
  }

  // --- directions ---

  /** Two configurations that agree in every joint up to whole turns. */
  ghost predicate SameDirections(t: Trig, q: Config, r: Config) {
    forall i :: 0 <= i < 6 ==> t.SameDirection(q[i], r[i])
  }

  lemma WrappedDirections(t: Trig, q: Config)
    requires t.Lawful()
    ensures SameDirections(t, Wrapped(t, q), q)
  {
    forall i | 0 <= i < 6 ensures t.SameDirection(Wrapped(t, q)[i], q[i]) {
      WrapExact(t, q[i]);
      CongruentIffSameDirection(t, WrapToPi(t, q[i]), q[i]);
    }
  }

  lemma SameFlange(t: Trig, dh: Dh, q: Config, r: Config)
    requires SameDirections(t, q, r)
    ensures Flange(t, dh, q) == Flange(t, dh, r)
  {
    SameFrame(t, dh, q, r, 6);
  }

  lemma {:induction false} SameFrame(t: Trig, dh: Dh, q: Config, r: Config, i: nat)
    requires SameDirections(t, q, r) && i <= 6
    ensures Frame(t, dh, q, i) == Frame(t, dh, r, i)
  {
    hide Pose.Then, LinkForm;
    if i > 0 {
      SameFrame(t, dh, q, r, i - 1);
      assert t.SameDirection(q[i - 1], r[i - 1]);
    }
  }

  lemma SumDirection(t: Trig, x: real, y: real, x': real, y': real)
    requires t.Lawful() && t.SameDirection(x, x') && t.SameDirection(y, y')
    ensures t.SameDirection(x + y, x' + y') && t.SameDirection(x - y, x' - y')
  {
    Sum(t, x, y);
    Sum(t, x', y');
    Difference(t, x, y);
    Difference(t, x', y');
  }

  // --- lengths ---

  lemma Root(t: Trig, p: real)
    requires t.Lawful() && 0.0 <= p
    ensures 0.0 <= t.sqrt(p) && t.sqrt(p) * t.sqrt(p) == p
  {
    assert t.SqrtLaw(p);
  }

  lemma Length(t: Trig, x: real, y: real)
    requires t.Lawful()
    ensures 0.0 <= t.Hypot(x, y) && t.Hypot(x, y) * t.Hypot(x, y) == SumOfSquares(x, y)
    ensures t.Hypot(-y, x) == t.Hypot(x, y)
  {
    Square(x, x * x);
    Square(y, y * y);
    Root(t, SumOfSquares(x, y));
    assert SumOfSquares(-y, x) == SumOfSquares(x, y);
  }

  /** The only non-negative root. */
  lemma LengthIs(t: Trig, x: real, y: real, r: real)
    requires t.Lawful() && r >= 0.0 && r * r == SumOfSquares(x, y)
    ensures t.Hypot(x, y) == r
  {
    Length(t, x, y);
    SameRoot(t.Hypot(x, y), r, SumOfSquares(x, y));
  }

  lemma SameRoot(r: real, y: real, p: real)
    requires r >= 0.0 && y >= 0.0 && r * r == p && y * y == p
    ensures r == y
  {
    assert (r - y) * (r + y) == 0.0;
    if r + y != 0.0 {
      assert r - y == (r - y) * (r + y) / (r + y) == 0.0;
    }
  }

  // --- theta1 ---

  lemma ShoulderProjection(t: Trig, c: Vec3, r: real, b: real, theta: real)
    requires t.Lawful() && r == t.Hypot(c.x, c.y) && b == t.atan2(c.x, -c.y)
    ensures Dot(ShoulderAxis(t, theta), c) == r * t.cos(theta - b)
  {
    assert t.Atan2Law(c.x, -c.y);
    Length(t, c.x, c.y);
    Difference(t, theta, b);
    ProjectionScalars(c.x, c.y, r, t.cos(b), t.sin(b), t.cos(theta), t.sin(theta), t.cos(theta - b));
  }

  lemma ProjectionScalars(x: real, y: real, r: real, cb: real, sb: real, c: real, s: real, d: real)
    requires r * cb == -y && r * sb == x && d == c * cb + s * sb
    ensures s * x + -c * y + 0.0 == r * d
  {
    assert r * d == c * (r * cb) + s * (r * sb);
  }

  lemma MirrorPair(t: Trig, x: real, phi: real)
    requires t.Lawful()
    ensures t.cos(x) == t.cos(phi) <==> t.SameDirection(x, phi) || t.SameDirection(x, -phi)
  {
    Negated(t, phi);
    if t.cos(x) == t.cos(phi) {
      SameCosine(t, x, phi);
    }
  }

  lemma Shifted(t: Trig, x: real, b: real, y: real)
    requires t.Lawful()
    ensures t.SameDirection(x - b, y) <==> t.SameDirection(x, b + y)
  {
    if t.SameDirection(x - b, y) {
      SumDirection(t, x - b, b, y, b);
      assert x - b + b == x && y + b == b + y;
    }
    if t.SameDirection(x, b + y) {
      SumDirection(t, x, b, b + y, b);
      assert b + y - b == y;
    }
  }

  /** The base angles listed are exactly the directions that put the wrist centre at the offset. */
  lemma ShoulderExact(t: Trig, dh: Dh, x: Pose, theta: real)
    requires t.Lawful() && dh.Proper()
    ensures CentreFits(t, dh, x, theta) <==> exists s :: s in ShoulderAngles(t, dh, x) && t.SameDirection(theta, s)
  {
    hide Dot, Minus, Scale, Trig.SameDirection;
    var c := WristCentre(dh, x);
    var r := t.Hypot(c.x, c.y);
    var b := t.atan2(c.x, -c.y);
    ShoulderProjection(t, c, r, b, theta);
    ShoulderList(t, dh, x);
    assert CentreFits(t, dh, x, theta) <==> r * t.cos(theta - b) == dh.d4;
    if r < dh.d4 {
      ShortOf(t, r, theta - b, dh.d4);
    } else {
      var phi := t.acos(Clamp(dh.d4 / r));
      AcosRatio(t, r, dh.d4);
      SameProduct(r, t.cos(theta - b), t.cos(phi), dh.d4);
      MirrorPair(t, theta - b, phi);
      Shifted(t, theta, b, phi);
      Shifted(t, theta, b, -phi);
      assert b + -phi == b - phi;
    }
  }

  lemma ShoulderList(t: Trig, dh: Dh, x: Pose)
    requires t.Lawful() && dh.Proper()
    ensures var c := WristCentre(dh, x);
            var r := t.Hypot(c.x, c.y);
            && 0.0 <= r
            && ShoulderAngles(t, dh, x)
               == if r < dh.d4 then [] else
                    var b, phi := t.atan2(c.x, -c.y), t.acos(Clamp(dh.d4 / r));
                    [b + phi, b - phi]
  {
    var c := WristCentre(dh, x);
    Length(t, c.x, c.y);
  }

  lemma ShortOf(t: Trig, r: real, y: real, d: real)
    requires t.Lawful() && 0.0 <= r < d
    ensures r * t.cos(y) != d
  {
    Unit(t, y);
    assert r * t.cos(y) <= r;
  }

  lemma AcosRatio(t: Trig, r: real, d: real)
    requires t.Lawful() && 0.0 < d <= r
    ensures r * t.cos(t.acos(Clamp(d / r))) == d
  {
    assert 0.0 < d / r <= 1.0;
    assert t.AcosLaw(d / r);
  }

  lemma SameProduct(r: real, x: real, y: real, d: real)
    requires r > 0.0 && r * y == d
    ensures r * x == d <==> x == y
  {
    if r * x == d {
      assert x == d / r == y;
    }
  }

  // --- theta5 ---

  /** The two listed angles are exactly the directions with a given cosine. */
  lemma ArcPairExact(t: Trig, c: real, y: real)
    requires t.Lawful() && -1.0 <= c <= 1.0
    ensures t.cos(y) == c <==> exists s :: s in ArcPair(t, c) && t.SameDirection(y, s)
  {
    hide Trig.SameDirection;
    assert t.AcosLaw(c);
    MirrorPair(t, y, t.acos(c));
    assert ArcPair(t, c) == [t.acos(c), -t.acos(c)];
  }

  lemma SeenFromTool(t: Trig, x: Pose, theta1: real)
    requires t.Lawful() && x.Rigid()
    ensures var v := x.Unrotate(ShoulderAxis(t, theta1));
            SumOfSquares(v.x, v.y) == 1.0 - v.z * v.z && -1.0 <= v.z <= 1.0
  {
    var u := ShoulderAxis(t, theta1);
    var v := x.Unrotate(u);
    assert Dot(v, v) == Dot(u, u) by {
      hide Dot, ShoulderAxis;
      InverseRigid(x);
      RotatePreservesDot(x.Inverse(), u, u);
      assert x.Inverse().Rotate(u) == v;
    }
    Unit(t, theta1);
    assert Dot(u, u) == 1.0;
    Square(v.x, v.x * v.x);
    Square(v.y, v.y * v.y);
    WithinUnit(v.z, v.z * v.z);
  }

  lemma WithinUnit(z: real, p: real)
    requires p == z * z && p <= 1.0
    ensures -1.0 <= z <= 1.0
  {
    if z > 1.0 {
      Positive(z - 1.0, z + 1.0, p - 1.0);
    } else if z < -1.0 {
      Positive(z - 1.0, z + 1.0, p - 1.0);
    }
  }

  /** The bend cosine is a component of a unit vector: over the reals the reach test never fails here. */
  lemma BendCosineExact(t: Trig, dh: Dh, x: Pose, theta1: real)
    requires t.Lawful() && dh.Proper() && x.Rigid() && CentreFits(t, dh, x, theta1)
    ensures BendCosine(t, dh, x, theta1) == x.Unrotate(ShoulderAxis(t, theta1)).z
    ensures -1.0 <= BendCosine(t, dh, x, theta1) <= 1.0
  {
    hide Dot, Pose.Unrotate, Pose.Rigid, ShoulderAxis, Sideways;
    SeenFromTool(t, x, theta1);
    var u := ShoulderAxis(t, theta1);
    CentreAlong(u, x.p, x.a, dh.d6);
    LastOfUnrotate(x, u);
    DotCommutes(u, x.a);
    SidewaysDot(t, x.p, theta1);
    Quotient(Sideways(t, x.p, theta1) - dh.d4, dh.d6, Dot(u, x.a));
  }

  lemma SidewaysDot(t: Trig, v: Vec3, theta1: real)
    ensures Dot(ShoulderAxis(t, theta1), v) == Sideways(t, v, theta1)
  {
  }

  lemma Quotient(p: real, d: real, c: real)
    requires d != 0.0 && p == d * c
    ensures p / d == c
  {
  }

  // --- theta6 ---

  /** The wrist already agrees with a zero roll. */
  ghost predicate RollIsZero(t: Trig, x: Pose, theta1: real, theta5: real) {
    var v := x.Unrotate(ShoulderAxis(t, theta1));
    v.x == t.sin(theta5) && v.y == 0.0
  }

  ghost predicate WristExact(t: Trig, x: Pose, theta1: real, theta5: real) {
    Abs(t.sin(theta5)) >= 0.0000001 || RollIsZero(t, x, theta1, theta5)
  }

  lemma SineLength(t: Trig, x: Pose, theta1: real, theta5: real)
    requires t.Lawful() && x.Rigid() && t.cos(theta5) == x.Unrotate(ShoulderAxis(t, theta1)).z
    ensures var v := x.Unrotate(ShoulderAxis(t, theta1));
            SumOfSquares(v.x, v.y) == t.sin(theta5) * t.sin(theta5)
  {
    hide Pose.Unrotate, Dot;
    SeenFromTool(t, x, theta1);
    Unit(t, theta5);
  }

  /** A straight wrist satisfies its equations with a zero roll. */
  lemma StraightWrist(t: Trig, x: Pose, theta1: real, theta5: real)
    requires t.Lawful() && x.Rigid() && t.cos(theta5) == x.Unrotate(ShoulderAxis(t, theta1)).z
    requires t.sin(theta5) == 0.0
    ensures RollIsZero(t, x, theta1, theta5)
  {
    hide Pose.Unrotate, Dot;
    SineLength(t, x, theta1, theta5);
    var v := x.Unrotate(ShoulderAxis(t, theta1));
    NoLength(v.x, v.y, v.x * v.x, v.y * v.y);
  }

  ghost predicate IsPolar(t: Trig, y: real, x: real, r: real, theta: real) {
    r * t.cos(theta) == x && r * t.sin(theta) == y
  }

  /** Polar coordinates are unique up to whole turns. */
  lemma PolarExact(t: Trig, y: real, x: real, r: real, theta: real)
    requires t.Lawful() && r > 0.0 && r * r == SumOfSquares(x, y)
    ensures IsPolar(t, y, x, r, theta) <==> t.SameDirection(theta, t.atan2(y, x))
  {
    LengthIs(t, x, y, r);
    assert t.Atan2Law(y, x);
    SameProduct(r, t.cos(theta), t.cos(t.atan2(y, x)), x);
    SameProduct(r, t.sin(theta), t.sin(t.atan2(y, x)), y);
  }

  lemma RollArguments(t: Trig, x: Pose, theta1: real)
    ensures var v := x.Unrotate(ShoulderAxis(t, theta1));
            RollSine(t, x, theta1) == -v.y && RollCosine(t, x, theta1) == v.x
  {
  }

  /** Away from the singularity the roll listed is the only direction that fits. */
  lemma RollExact(t: Trig, x: Pose, theta1: real, theta5: real, theta6: real)
    requires t.Lawful() && x.Rigid() && t.cos(theta5) == x.Unrotate(ShoulderAxis(t, theta1)).z
    requires Abs(t.sin(theta5)) >= 0.0000001
    ensures WristFits(t, x, theta1, theta5, theta6) <==> t.SameDirection(theta6, WristRoll(t, x, theta1, theta5))
  {
    hide Pose.Unrotate, Dot, Trig.SameDirection, Signed;
    hide RollSine, RollCosine, SumOfSquares;
    var v, s5 := x.Unrotate(ShoulderAxis(t, theta1)), t.sin(theta5);
    RollArguments(t, x, theta1);
    SineLength(t, x, theta1, theta5);
    SignedLength(s5, v.x, v.y);
    PolarExact(t, Signed(s5, -v.y), Signed(s5, v.x), Abs(s5), theta6);
    SignedPolar(t, s5, v.x, v.y, theta6);
  }

  lemma SignedLength(s: real, x: real, y: real)
    requires SumOfSquares(x, y) == s * s
    ensures Abs(s) * Abs(s) == SumOfSquares(Signed(s, x), Signed(s, -y))
  {
  }

  lemma SignedPolar(t: Trig, s: real, x: real, y: real, theta: real)
    ensures IsPolar(t, Signed(s, -y), Signed(s, x), Abs(s), theta) <==> x == s * t.cos(theta) && y == -s * t.sin(theta)
  {
  }

  // --- theta2, theta3, theta4 ---

  lemma PlaneAngleExact(t: Trig, m: Pose, theta: real)
    requires t.Lawful() && m.n.x * m.n.x + m.n.y * m.n.y == 1.0
    ensures t.cos(theta) == m.n.x && t.sin(theta) == m.n.y <==> t.SameDirection(theta, PlaneAngle(t, m))
  {
    hide Pose.Rotate, Trig.SameDirection;
    assert IsPolar(t, m.n.y, m.n.x, 1.0, theta) <==> t.cos(theta) == m.n.x && t.sin(theta) == m.n.y;
    RotateAxes(m);
    PolarExact(t, m.n.y, m.n.x, 1.0, theta);
  }

  /** Turned by `theta`, the point comes to lie there. */
  ghost predicate TurnsTo(t: Trig, x: real, y: real, theta: real, x': real, y': real) {
    x' == x * t.cos(theta) - y * t.sin(theta) && y' == x * t.sin(theta) + y * t.cos(theta)
  }

  lemma ForwardTurns(t: Trig, dh: Dh, theta2: real, theta3: real)
    requires t.Lawful()
    ensures TurnsTo(t, Along(t, dh, theta3), Across(t, dh, theta3), theta2,
                    ForwardX(t, dh, theta2, theta3), ForwardY(t, dh, theta2, theta3))
  {
    Sum(t, theta2, theta3);
  }

  lemma TurnsOneWay(t: Trig, x: real, y: real, theta: real, x1: real, y1: real, x2: real, y2: real)
    requires TurnsTo(t, x, y, theta, x1, y1)
    ensures TurnsTo(t, x, y, theta, x2, y2) <==> x2 == x1 && y2 == y1
  {
  }

  lemma TurnIsPolar(t: Trig, x: real, y: real, r: real, psi: real, theta: real, x': real, y': real)
    requires t.Lawful() && IsPolar(t, y, x, r, psi)
    ensures TurnsTo(t, x, y, theta, x', y') <==> IsPolar(t, y', x', r, theta + psi)
  {
    Sum(t, theta, psi);
    assert r * t.cos(theta + psi) == t.cos(theta) * (r * t.cos(psi)) - t.sin(theta) * (r * t.sin(psi));
    assert r * t.sin(theta + psi) == t.sin(theta) * (r * t.cos(psi)) + t.cos(theta) * (r * t.sin(psi));
  }

  /** What the two links reach, squared, when the elbow's cosine is `c`. */
  function ReachSquared(dh: Dh, c: real): real { dh.a2 * dh.a2 + dh.a3 * dh.a3 + 2.0 * dh.a2 * dh.a3 * c }

  lemma LawOfCosines(t: Trig, dh: Dh, theta3: real)
    requires t.Lawful()
    ensures SumOfSquares(Along(t, dh, theta3), Across(t, dh, theta3)) == ReachSquared(dh, t.cos(theta3))
  {
    Unit(t, theta3);
    var c, s := t.cos(theta3), t.sin(theta3);
    assert dh.a3 * dh.a3 * (c * c + s * s) == dh.a3 * dh.a3;
    assert (dh.a2 + dh.a3 * c) * (dh.a2 + dh.a3 * c) + (dh.a3 * s) * (dh.a3 * s)
        == dh.a2 * dh.a2 + 2.0 * dh.a2 * dh.a3 * c + dh.a3 * dh.a3 * (c * c + s * s);
  }

  lemma NeverFolded(t: Trig, dh: Dh, theta3: real)
    requires t.Lawful() && dh.Proper()
    ensures SumOfSquares(Along(t, dh, theta3), Across(t, dh, theta3)) > 0.0
  {
    Unit(t, theta3);
    var x, y := Along(t, dh, theta3), Across(t, dh, theta3);
    Square(x, x * x);
    Square(y, y * y);
    var c, s := t.cos(theta3), t.sin(theta3);
    if s == 0.0 {
      SameRoot(Abs(c), 1.0, 1.0);
      assert x == dh.a2 + dh.a3 || x == dh.a2 - dh.a3;
    } else {
      NonZero(dh.a3, s, y);
    }
  }

  lemma NonZero(x: real, y: real, p: real)
    requires p == x * y && x != 0.0 && y != 0.0
    ensures p != 0.0
  {
  }

  /** The two-link angle listed is the only direction that spans the offset, once the reach matches. */
  lemma LiftExact(t: Trig, dh: Dh, m: Pose, theta2: real, theta3: real)
    requires t.Lawful() && dh.Proper()
    requires SumOfSquares(m.p.x, m.p.y) == SumOfSquares(Along(t, dh, theta3), Across(t, dh, theta3))
    ensures m.p.x == ForwardX(t, dh, theta2, theta3) && m.p.y == ForwardY(t, dh, theta2, theta3)
       <==> t.SameDirection(theta2, ShoulderLift(t, dh, m, theta3))
  {
    hide Trig.SameDirection, SumOfSquares, ForwardX, ForwardY, IsPolar, TurnsTo;
    var x, y := Along(t, dh, theta3), Across(t, dh, theta3);
    var psi, gamma, r := t.atan2(y, x), t.atan2(m.p.y, m.p.x), t.Hypot(x, y);
    NeverFolded(t, dh, theta3);
    Length(t, x, y);
    ForwardTurns(t, dh, theta2, theta3);
    TurnsOneWay(t, x, y, theta2, ForwardX(t, dh, theta2, theta3), ForwardY(t, dh, theta2, theta3), m.p.x, m.p.y);
    PolarExact(t, y, x, r, psi);
    SameAsItself(t, psi);
    TurnIsPolar(t, x, y, r, psi, theta2, m.p.x, m.p.y);
    PolarExact(t, m.p.y, m.p.x, r, theta2 + psi);
    ShiftedBack(t, theta2, psi, gamma);
  }

  lemma SameAsItself(t: Trig, x: real)
    ensures t.SameDirection(x, x)
  {
  }

  lemma ShiftedBack(t: Trig, x: real, b: real, y: real)
    requires t.Lawful()
    ensures t.SameDirection(x + b, y) <==> t.SameDirection(x, y - b)
  {
    Shifted(t, x, -b, y);
    assert x - -b == x + b && -b + y == y - b;
  }

  // --- soundness ---

  /** The solver lists the branch with these three angles. */
  ghost predicate Listed(t: Trig, dh: Dh, x: Pose, theta1: real, theta5: real, theta3: real)
    requires dh.Proper()
  {
    && theta1 in ShoulderAngles(t, dh, x)
    && theta5 in WristBends(t, dh, x, theta1)
    && theta3 in ElbowAngles(t, dh, BranchPlane(t, dh, x, theta1, theta5))
  }

  /** The elbow's cosine was a cosine before it was clamped. */
  ghost predicate ElbowExact(dh: Dh, m: Pose)
    requires dh.Proper()
  {
    -1.0 <= ElbowCosine(dh, m) <= 1.0
  }

  lemma ElbowCosineIs(dh: Dh, m: Pose, c: real)
    requires dh.Proper()
    ensures ElbowCosine(dh, m) == c <==> SumOfSquares(m.p.x, m.p.y) == ReachSquared(dh, c)
  {
    hide SumOfSquares;
    var d, n := 2.0 * dh.a2 * dh.a3, SumOfSquares(m.p.x, m.p.y) - dh.a2 * dh.a2 - dh.a3 * dh.a3;
    assert d != 0.0;
    assert ElbowCosine(dh, m) == n / d;
    assert n / d == c <==> n == d * c;
  }

  /** The solver only tries elbows whose reach is that of some cosine, or beyond it by no more than the tolerance. */
  lemma ElbowsWithinReach(t: Trig, dh: Dh, m: Pose) returns (c: real)
    requires dh.Proper()
    ensures SumOfSquares(m.p.x, m.p.y) == ReachSquared(dh, c)
    ensures ElbowAngles(t, dh, m) != [] <==> -1.000000001 <= c <= 1.000000001
  {
    hide ReachSquared, SumOfSquares, ElbowCosine;
    c := ElbowCosine(dh, m);
    ElbowCosineIs(dh, m, c);
  }

  lemma ForwardReach(t: Trig, dh: Dh, theta2: real, theta3: real)
    requires t.Lawful()
    ensures SumOfSquares(ForwardX(t, dh, theta2, theta3), ForwardY(t, dh, theta2, theta3)) == ReachSquared(dh, t.cos(theta3))
  {
    hide ForwardX, ForwardY, Along, Across, ReachSquared;
    ForwardTurns(t, dh, theta2, theta3);
    LawOfCosines(t, dh, theta3);
    TurnKeepsLength(t, Along(t, dh, theta3), Across(t, dh, theta3), theta2,
                    ForwardX(t, dh, theta2, theta3), ForwardY(t, dh, theta2, theta3));
  }

  lemma TurnKeepsLength(t: Trig, x: real, y: real, theta: real, x': real, y': real)
    requires t.Lawful() && TurnsTo(t, x, y, theta, x', y')
    ensures SumOfSquares(x', y') == SumOfSquares(x, y)
  {
    Unit(t, theta);
    var c, s := t.cos(theta), t.sin(theta);
    assert (x * c - y * s) * (x * c - y * s) + (x * s + y * c) * (x * s + y * c) == (x * x + y * y) * (c * c + s * s);
  }

  lemma BendFits(t: Trig, dh: Dh, x: Pose, theta1: real, theta5: real)
    requires t.Lawful() && dh.Proper() && x.Rigid()
    requires theta1 in ShoulderAngles(t, dh, x) && theta5 in WristBends(t, dh, x, theta1)
    ensures CentreFits(t, dh, x, theta1) && t.cos(theta5) == x.Unrotate(ShoulderAxis(t, theta1)).z
  {
    hide Pose.Unrotate, Dot, ArcPair, ShoulderAngles, BendCosine;
    SameAsItself(t, theta1);
    ShoulderExact(t, dh, x, theta1);
    BendCosineExact(t, dh, x, theta1);
    SameAsItself(t, theta5);
    ArcPairExact(t, BendCosine(t, dh, x, theta1), theta5);
  }

  lemma RollFits(t: Trig, x: Pose, theta1: real, theta5: real)
    requires t.Lawful() && x.Rigid() && t.cos(theta5) == x.Unrotate(ShoulderAxis(t, theta1)).z
    ensures WristFits(t, x, theta1, theta5, WristRoll(t, x, theta1, theta5)) <==> WristExact(t, x, theta1, theta5)
  {
    hide Pose.Unrotate, Dot, RollSine, RollCosine;
    var roll := WristRoll(t, x, theta1, theta5);
    if Abs(t.sin(theta5)) >= 0.0000001 {
      SameAsItself(t, roll);
      RollExact(t, x, theta1, theta5, roll);
    } else {
      Zero(t);
    }
  }

  lemma PlanarBranchFits(t: Trig, dh: Dh, m: Pose, theta3: real, q: Config)
    requires t.Lawful() && dh.Proper() && theta3 in ElbowAngles(t, dh, m)
    requires m.n.x * m.n.x + m.n.y * m.n.y == 1.0
    requires q[1] == ShoulderLift(t, dh, m, theta3) && q[2] == theta3 && q[3] == PlaneAngle(t, m) - q[1] - q[2]
    ensures PlanarFits(t, dh, m, q) <==> ElbowExact(dh, m)
  {
    hide PlaneAngle, ShoulderLift, ForwardX, ForwardY, ElbowCosine, ReachSquared, SumOfSquares, Along, Across, ArcPair;
    var theta2 := q[1];
    assert q[1] + q[2] + q[3] == PlaneAngle(t, m);
    SameAsItself(t, PlaneAngle(t, m));
    PlaneAngleExact(t, m, PlaneAngle(t, m));
    ForwardReach(t, dh, theta2, theta3);
    LawOfCosines(t, dh, theta3);
    ElbowCosineIs(dh, m, t.cos(theta3));
    Unit(t, theta3);
    if ElbowExact(dh, m) {
      SameAsItself(t, theta3);
      ArcPairExact(t, ElbowCosine(dh, m), theta3);
      SameAsItself(t, theta2);
      LiftExact(t, dh, m, theta2, theta3);
    }
  }

  /**
   A listed branch reaches its target exactly when its elbow cosine needed no clamping and its wrist is
   either away from the singularity or already at a zero roll.
   */
  lemma BranchReachesIff(t: Trig, dh: Dh, x: Pose, theta1: real, theta5: real, theta3: real)
    requires t.Lawful() && dh.Proper() && x.Rigid() && Listed(t, dh, x, theta1, theta5, theta3)
    ensures Flange(t, dh, Branch(t, dh, x, theta1, theta5, theta3)) == x
       <==> WristExact(t, x, theta1, theta5) && ElbowExact(dh, BranchPlane(t, dh, x, theta1, theta5))
  {
    hide Pose.Unrotate, Pose.Rigid, Flange, WristExact, ElbowExact, PlanarFits, CentreFits, WristFits, Isolated, WristRoll,
         ShoulderLift, PlaneAngle, ShoulderAngles, WristBends, ElbowAngles, Wrapped;
    var q, m := Unwrapped(t, dh, x, theta1, theta5, theta3), BranchPlane(t, dh, x, theta1, theta5);
    WrappedDirections(t, q);
    SameFlange(t, dh, Wrapped(t, q), q);
    ReachesIffFits(t, dh, q, x);
    BendFits(t, dh, x, theta1, theta5);
    RollFits(t, x, theta1, theta5);
    if WristExact(t, x, theta1, theta5) {
      WristFitsPlanar(t, dh, x, theta1, theta5, WristRoll(t, x, theta1, theta5));
      PlanarBranchFits(t, dh, m, theta3, q);
    }
  }
}
