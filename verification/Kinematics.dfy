module Kinematics {
  import opened Trigonometry
  import opened Poses

  /** The six Denavit-Hartenberg lengths of one arm. */
  datatype Dh = Dh(d1: real, a2: real, a3: real, d4: real, d5: real, d6: real) {
    /** What the derivation needs of the lengths; every row of the model table meets it. */
    predicate Proper() { d4 > 0.0 && d6 != 0.0 && a2 != 0.0 && a3 != 0.0 && a2 != a3 && a2 != -a3 }
  }

  /** Six joint angles, base first. */
  type Config = q: seq<real> | |q| == 6 witness [0.0, 0.0, 0.0, 0.0, 0.0, 0.0]

  function RotZ(t: Trig, theta: real): Pose {
    Pose(Vec3(t.cos(theta), t.sin(theta), 0.0), Vec3(-t.sin(theta), t.cos(theta), 0.0), Z_AXIS, ZERO)
  }

  function RotX(t: Trig, alpha: real): Pose {
    Pose(X_AXIS, Vec3(0.0, t.cos(alpha), t.sin(alpha)), Vec3(0.0, -t.sin(alpha), t.cos(alpha)), ZERO)
  }

  function Translate(v: Vec3): Pose { Pose(X_AXIS, Y_AXIS, Z_AXIS, v) }

  /** One link, `Rz(theta) * Tz(d) * Tx(a) * Rx(alpha)` multiplied out; see DhTransformIsProduct. */
  function DhTransform(t: Trig, theta: real, d: real, a: real, alpha: real): Pose {
    LinkForm(t.cos(theta), t.sin(theta), d, a, t.cos(alpha), t.sin(alpha))
  }

  function LinkForm(c: real, s: real, d: real, a: real, ca: real, sa: real): Pose {
    Pose(Vec3(c, s, 0.0), Vec3(-s * ca, c * ca, sa), Vec3(s * sa, -c * sa, ca), Vec3(a * c, a * s, d))
  }

  lemma DhTransformIsProduct(t: Trig, theta: real, d: real, a: real, alpha: real)
    ensures DhTransform(t, theta, d, a, alpha)
         == RotZ(t, theta).Then(Translate(Vec3(0.0, 0.0, d))).Then(Translate(Vec3(a, 0.0, 0.0))).Then(RotX(t, alpha))
  {
    var z := RotZ(t, theta);
    var zd := z.Then(Translate(Vec3(0.0, 0.0, d)));
    assert zd == Pose(z.n, z.o, z.a, Vec3(0.0, 0.0, d));
    var za := zd.Then(Translate(Vec3(a, 0.0, 0.0)));
    assert za == Pose(z.n, z.o, z.a, Vec3(a * t.cos(theta), a * t.sin(theta), d));
  }

  /** The row of joint `i` as `(d, a, alpha)`. */
  function Row(t: Trig, dh: Dh, i: nat): (real, real, real)
    requires i < 6
  {
    match i
    case 0 => (dh.d1, 0.0, t.pi / 2.0)
    case 1 => (0.0, dh.a2, 0.0)
    case 2 => (0.0, dh.a3, 0.0)
    case 3 => (dh.d4, 0.0, t.pi / 2.0)
    case 4 => (dh.d5, 0.0, -t.pi / 2.0)
    case _ => (dh.d6, 0.0, 0.0)
  }

  function Link(t: Trig, dh: Dh, q: Config, i: nat): Pose
    requires i < 6
  {
    var (d, a, alpha) := Row(t, dh, i);
    DhTransform(t, q[i], d, a, alpha)
  }

  /** The frame of joint `i`: the product of the first `i` links. */
  function Frame(t: Trig, dh: Dh, q: Config, i: nat): Pose
    requires i <= 6
  {
    if i == 0 then IDENTITY else Frame(t, dh, q, i - 1).Then(Link(t, dh, q, i - 1))
  }

  function Flange(t: Trig, dh: Dh, q: Config): Pose { Frame(t, dh, q, 6) }

  method ForwardKinematics(t: Trig, dh: Dh, q: Config) returns (pose: Pose)
    ensures pose == Flange(t, dh, q)
  {
    pose := IDENTITY;
    for i := 0 to 6
      invariant pose == Frame(t, dh, q, i)
    {
      var (d, a, alpha) := Row(t, dh, i);
      pose := pose.Then(DhTransform(t, q[i], d, a, alpha));
    }
  }

  // --- closed forms of the links ---

  lemma LinkFormRigid(c: real, s: real, d: real, a: real, ca: real, sa: real)
    requires c * c + s * s == 1.0 && ca * ca + sa * sa == 1.0
    ensures LinkForm(c, s, d, a, ca, sa).Rigid()
  {
    var o := LinkForm(c, s, d, a, ca, sa).o;
    LinkRigidScalars(c, s, ca, sa, o.x, o.y);
  }

  lemma LinkRigidScalars(c: real, s: real, ca: real, sa: real, ox: real, oy: real)
    requires c * c + s * s == 1.0 && ca * ca + sa * sa == 1.0 && ox == -s * ca && oy == c * ca
    ensures ox * ox + oy * oy + sa * sa == 1.0
    ensures c * ox + s * oy == 0.0 && c * oy - s * ox == ca
  {
    assert ox * ox + oy * oy == (c * c + s * s) * (ca * ca);
    assert c * oy - s * ox == (c * c + s * s) * ca;
  }

  lemma LinkRigid(t: Trig, dh: Dh, q: Config, i: nat)
    requires t.Lawful() && i < 6
    ensures Link(t, dh, q, i).Rigid()
  {
    var (d, a, alpha) := Row(t, dh, i);
    Unit(t, q[i]);
    Unit(t, alpha);
    LinkFormRigid(t.cos(q[i]), t.sin(q[i]), d, a, t.cos(alpha), t.sin(alpha));
  }

  lemma Twists(t: Trig)
    requires t.Lawful()
    ensures t.cos(0.0) == 1.0 && t.sin(0.0) == 0.0
    ensures t.cos(-t.pi / 2.0) == 0.0 && t.sin(-t.pi / 2.0) == -1.0
  {
    Zero(t);
    Negated(t, t.pi / 2.0);
    assert -t.pi / 2.0 == -(t.pi / 2.0);
  }

  lemma Links(t: Trig, dh: Dh, q: Config)
    requires t.Lawful()
    ensures Link(t, dh, q, 0) == LinkForm(t.cos(q[0]), t.sin(q[0]), dh.d1, 0.0, 0.0, 1.0)
    ensures Link(t, dh, q, 1) == LinkForm(t.cos(q[1]), t.sin(q[1]), 0.0, dh.a2, 1.0, 0.0)
    ensures Link(t, dh, q, 2) == LinkForm(t.cos(q[2]), t.sin(q[2]), 0.0, dh.a3, 1.0, 0.0)
    ensures Link(t, dh, q, 3) == LinkForm(t.cos(q[3]), t.sin(q[3]), dh.d4, 0.0, 0.0, 1.0)
    ensures Link(t, dh, q, 4) == LinkForm(t.cos(q[4]), t.sin(q[4]), dh.d5, 0.0, 0.0, -1.0)
    ensures Link(t, dh, q, 5) == LinkForm(t.cos(q[5]), t.sin(q[5]), dh.d6, 0.0, 1.0, 0.0)
  {
    Twists(t);
  }

  // --- splitting the chain ---

  /** The planar part of the arm, joints 2 to 4. */
  function Planar(t: Trig, dh: Dh, q: Config): Pose { Link(t, dh, q, 1).Then(Link(t, dh, q, 2)).Then(Link(t, dh, q, 3)) }

  function Wrist(t: Trig, dh: Dh, q: Config): Pose { Link(t, dh, q, 4).Then(Link(t, dh, q, 5)) }

  lemma FlangeSplits(t: Trig, dh: Dh, q: Config)
    ensures Flange(t, dh, q) == Link(t, dh, q, 0).Then(Planar(t, dh, q)).Then(Wrist(t, dh, q))
  {
    var l0, l1, l2, l3, l4, l5 := Link(t, dh, q, 0), Link(t, dh, q, 1), Link(t, dh, q, 2), Link(t, dh, q, 3),
                                  Link(t, dh, q, 4), Link(t, dh, q, 5);
    assert Frame(t, dh, q, 1) == l0 by { IdentityIsNeutral(l0); assert Frame(t, dh, q, 0) == IDENTITY; }
    assert Frame(t, dh, q, 2) == l0.Then(l1);
    assert Frame(t, dh, q, 3) == l0.Then(l1).Then(l2);
    assert Frame(t, dh, q, 4) == l0.Then(l1).Then(l2).Then(l3);
    assert Frame(t, dh, q, 5) == l0.Then(l1).Then(l2).Then(l3).Then(l4);
    assert Frame(t, dh, q, 6) == l0.Then(l1).Then(l2).Then(l3).Then(l4).Then(l5);
    Associative(l0, l1, l2);
    Associative(l0, l1.Then(l2), l3);
    Associative(l0.Then(Planar(t, dh, q)), l4, l5);
  }
}
