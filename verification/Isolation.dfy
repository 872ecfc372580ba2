/** The chain equation of the arm, solved for its planar part. */
module Isolation {
  import opened RealAlgebra
  import opened Trigonometry
  import opened Poses
  import opened Kinematics

  /** The axis of joints 2, 3 and 4 in the base frame. */
  function ShoulderAxis(t: Trig, theta1: real): Vec3 { Vec3(t.sin(theta1), -t.cos(theta1), 0.0) }

  function BaseLink(t: Trig, dh: Dh, theta1: real): Pose { DhTransform(t, theta1, dh.d1, 0.0, t.pi / 2.0) }

  function WristLinks(t: Trig, dh: Dh, theta5: real, theta6: real): Pose {
    DhTransform(t, theta5, dh.d5, 0.0, -t.pi / 2.0).Then(DhTransform(t, theta6, dh.d6, 0.0, 0.0))
  }

  /** `T14`: what joints 2 to 4 must produce for the flange to be at `x`. */
  function Isolated(t: Trig, dh: Dh, x: Pose, theta1: real, theta5: real, theta6: real): Pose {
    BaseLink(t, dh, theta1).Inverse().Then(x).Then(WristLinks(t, dh, theta5, theta6).Inverse())
  }

  lemma Isolate(l: Pose, m: Pose, w: Pose, x: Pose)
    requires l.Rigid() && w.Rigid()
    ensures l.Then(m).Then(w) == x <==> m == l.Inverse().Then(x).Then(w.Inverse())
  {
    var li, wi := l.Inverse(), w.Inverse();
    InverseCancels(l);
    InverseCancels(w);
    if l.Then(m).Then(w) == x {
      calc {
        li.Then(x).Then(wi);
        { Associative(l, m, w); Associative(li, l, m.Then(w)); IdentityIsNeutral(m.Then(w)); }
        m.Then(w).Then(wi);
        { Associative(m, w, wi); IdentityIsNeutral(m); }
        m;
      }
    }
    if m == li.Then(x).Then(wi) {
      calc {
        l.Then(m).Then(w);
        { Associative(l, li.Then(x), wi); Associative(l, li, x); IdentityIsNeutral(x); }
        x.Then(wi).Then(w);
        { Associative(x, wi, w); IdentityIsNeutral(x); }
        x;
      }
    }
  }

  // --- the planar part ---

  /** Three parallel joints: a turn in the plane, a planar offset, and the shoulder offset. */
  function PlanarForm(c: real, s: real, x: real, y: real, d: real): Pose {
    Pose(Vec3(c, s, 0.0), Z_AXIS, Vec3(s, -c, 0.0), Vec3(x, y, d))
  }

  function ForwardX(t: Trig, dh: Dh, theta2: real, theta3: real): real {
    dh.a2 * t.cos(theta2) + dh.a3 * t.cos(theta2 + theta3)
  }

  function ForwardY(t: Trig, dh: Dh, theta2: real, theta3: real): real {
    dh.a2 * t.sin(theta2) + dh.a3 * t.sin(theta2 + theta3)
  }

  lemma PlanarClosedForm(t: Trig, dh: Dh, q: Config)
    requires t.Lawful()
    ensures Planar(t, dh, q)
         == PlanarForm(t.cos(q[1] + q[2] + q[3]), t.sin(q[1] + q[2] + q[3]),
                       ForwardX(t, dh, q[1], q[2]), ForwardY(t, dh, q[1], q[2]), dh.d4)
  {
    hide Pose.Then, Link, LinkForm, PlanarForm;
    Links(t, dh, q);
    Sum(t, q[1], q[2]);
    Sum(t, q[1] + q[2], q[3]);
    assert Planar(t, dh, q) == Link(t, dh, q, 1).Then(Link(t, dh, q, 2)).Then(Link(t, dh, q, 3));
    ThreeLinks(t.cos(q[1]), t.sin(q[1]), dh.a2, t.cos(q[2]), t.sin(q[2]), dh.a3, t.cos(q[3]), t.sin(q[3]), dh.d4,
               t.cos(q[1] + q[2]), t.sin(q[1] + q[2]), t.cos(q[1] + q[2] + q[3]), t.sin(q[1] + q[2] + q[3]),
               ForwardX(t, dh, q[1], q[2]), ForwardY(t, dh, q[1], q[2]));
  }

  lemma ThreeLinks(c2: real, s2: real, a2: real, c3: real, s3: real, a3: real, c4: real, s4: real, d4: real,
                   c23: real, s23: real, c: real, s: real, x: real, y: real)
    requires c == c23 * c4 - s23 * s4 && s == s23 * c4 + c23 * s4
    requires c23 == c2 * c3 - s2 * s3 && s23 == s2 * c3 + c2 * s3
    requires x == a2 * c2 + a3 * c23 && y == a2 * s2 + a3 * s23
    ensures LinkForm(c2, s2, 0.0, a2, 1.0, 0.0).Then(LinkForm(c3, s3, 0.0, a3, 1.0, 0.0)).Then(LinkForm(c4, s4, d4, 0.0, 0.0, 1.0))
         == PlanarForm(c, s, x, y, d4)
  {
    FlatThenFlat(c2, s2, a2, c3, s3, a3);
    FlatThenTwisted(c23, s23, x, y, c4, s4, d4);
  }

  function Flat(c: real, s: real, x: real, y: real): Pose {
    Pose(Vec3(c, s, 0.0), Vec3(-s, c, 0.0), Z_AXIS, Vec3(x, y, 0.0))
  }

  lemma FlatThenFlat(c: real, s: real, a: real, c': real, s': real, a': real)
    ensures LinkForm(c, s, 0.0, a, 1.0, 0.0).Then(LinkForm(c', s', 0.0, a', 1.0, 0.0))
         == Flat(c * c' - s * s', s * c' + c * s', a * c + a' * (c * c' - s * s'), a * s + a' * (s * c' + c * s'))
  {
  }

  lemma FlatThenTwisted(c: real, s: real, x: real, y: real, c': real, s': real, d: real)
    ensures Flat(c, s, x, y).Then(LinkForm(c', s', d, 0.0, 0.0, 1.0))
         == PlanarForm(c * c' - s * s', s * c' + c * s', x, y, d)
  {
  }

  /** A rigid pose whose third row is the y axis is planar. */
  lemma PlanarFromRow(m: Pose)
    requires m.Rigid() && m.RowZ() == Y_AXIS
    ensures m == PlanarForm(m.n.x, m.n.y, m.p.x, m.p.y, m.p.z)
    ensures m.n.x * m.n.x + m.n.y * m.n.y == 1.0
  {
    PlanarScalars(m.n.x, m.n.y, m.o.x, m.o.y, m.a.x, m.a.y);
  }

  lemma PlanarScalars(nx: real, ny: real, ox: real, oy: real, ax: real, ay: real)
    requires nx * nx + ny * ny + 0.0 * 0.0 == 1.0 && ox * ox + oy * oy + 1.0 * 1.0 == 1.0
    requires ax == ny * 1.0 - 0.0 * oy && ay == 0.0 * ox - nx * 1.0
    ensures ox == 0.0 && oy == 0.0 && ax == ny && ay == -nx
  {
    NoLength(ox, oy, ox * ox, oy * oy);
  }

  // --- the two equations that do not involve the planar joints ---

  /** The wrist angles that put the shoulder axis where `x` has it, seen from the tool. */
  ghost predicate WristFits(t: Trig, x: Pose, theta1: real, theta5: real, theta6: real) {
    x.Unrotate(ShoulderAxis(t, theta1))
    == Vec3(t.sin(theta5) * t.cos(theta6), -t.sin(theta5) * t.sin(theta6), t.cos(theta5))
  }

  /** The wrist centre is at the shoulder offset along the shoulder axis. */
  ghost predicate CentreFits(t: Trig, dh: Dh, x: Pose, theta1: real) {
    Dot(ShoulderAxis(t, theta1), Minus(x.p, Scale(dh.d6, x.a))) == dh.d4
  }

  lemma UnrotateThen(s: Pose, r: Pose, v: Vec3)
    ensures s.Then(r).Unrotate(v) == r.Unrotate(s.Unrotate(v))
  {
    Adjoint(s, v, r.n);
    Adjoint(s, v, r.o);
    Adjoint(s, v, r.a);
    DotCommutes(v, s.Rotate(r.n)); DotCommutes(v, s.Rotate(r.o)); DotCommutes(v, s.Rotate(r.a));
    DotCommutes(s.Unrotate(v), r.n); DotCommutes(s.Unrotate(v), r.o); DotCommutes(s.Unrotate(v), r.a);
  }

  lemma DotCommutes(u: Vec3, v: Vec3)
    ensures Dot(u, v) == Dot(v, u)
  {}

  lemma IsolatedRow(l: Pose, x: Pose, w: Pose)
    ensures l.Inverse().Then(x).Then(w.Inverse()).RowZ() == w.Rotate(x.Unrotate(l.a))
  {
    var li, wi := l.Inverse(), w.Inverse();
    RotateAxes(l);
    RotateAxes(li.Then(x).Then(wi));
    UnrotateThen(li.Then(x), wi, Z_AXIS);
    UnrotateThen(li, x, Z_AXIS);
    assert li.Unrotate(Z_AXIS) == l.Rotate(Z_AXIS);
    assert wi.Unrotate(x.Unrotate(l.a)) == w.Rotate(x.Unrotate(l.a));
  }

  lemma RowFits(w: Pose, v: Vec3)
    requires w.Rigid()
    ensures w.Rotate(v) == Y_AXIS <==> v == w.RowY()
  {
    RotateAxes(w);
    UnrotateRotate(w, v);
    UnrotateRotate(w, Y_AXIS);
  }

  lemma IsolatedHeight(l: Pose, m: Pose, w: Pose)
    requires l.Rigid() && Dot(l.a, l.p) == 0.0 && m.RowZ() == Y_AXIS
    ensures Dot(l.a, l.Then(m).Then(w).p) == m.p.z + w.p.y
  {
    hide Dot, Pose.Rigid;
    var v := Plus(m.Rotate(w.p), m.p);
    assert l.Then(m).Then(w).p == Plus(l.Rotate(v), l.p) by {
      Associative(l, m, w);
    }
    DotPlus(l.a, l.Rotate(v), l.p);
    Adjoint(l, l.a, v);
    RotateAxes(l);
    UnrotateRotate(l, Z_AXIS);
    assert Dot(l.a, l.Rotate(v)) == Dot(Z_AXIS, v) == v.z by { ZComponent(v); }
    YComponent(w.p);
  }

  lemma ZComponent(v: Vec3)
    ensures Dot(Z_AXIS, v) == v.z
  {
  }

  lemma YComponent(v: Vec3)
    ensures Dot(Y_AXIS, v) == v.y
  {
  }

  lemma DotPlus(u: Vec3, v: Vec3, w: Vec3)
    ensures Dot(u, Plus(v, w)) == Dot(u, v) + Dot(u, w)
  {
  }

  lemma WristClosedForm(t: Trig, dh: Dh, theta5: real, theta6: real)
    requires t.Lawful()
    ensures var w := WristLinks(t, dh, theta5, theta6);
            && w.RowY() == Vec3(t.sin(theta5) * t.cos(theta6), -t.sin(theta5) * t.sin(theta6), t.cos(theta5))
            && w.p.y == dh.d6 * t.cos(theta5)
  {
    hide LinkForm, Pose.Then, Pose.RowY;
    Twists(t);
    WristForms(t.cos(theta5), t.sin(theta5), dh.d5, t.cos(theta6), t.sin(theta6), dh.d6);
  }

  lemma WristForms(c5: real, s5: real, d5: real, c6: real, s6: real, d6: real)
    ensures var w := LinkForm(c5, s5, d5, 0.0, 0.0, -1.0).Then(LinkForm(c6, s6, d6, 0.0, 1.0, 0.0));
            w.RowY() == Vec3(s5 * c6, -s5 * s6, c5) && w.p.y == d6 * c5
  {
    hide Pose.Then;
    var l, r := LinkForm(c5, s5, d5, 0.0, 0.0, -1.0), LinkForm(c6, s6, d6, 0.0, 1.0, 0.0);
    RowYThen(l, r);
    assert l.RowY() == Vec3(s5, 0.0, c5);
    assert r.Unrotate(Vec3(s5, 0.0, c5)) == Vec3(s5 * c6, -s5 * s6, c5);
    assert Dot(Vec3(s5, 0.0, c5), r.p) == d6 * c5;
  }

  lemma RowYThen(l: Pose, r: Pose)
    ensures l.Then(r).RowY() == r.Unrotate(l.RowY())
    ensures l.Then(r).p.y == Dot(l.RowY(), r.p) + l.p.y
  {
    RotateAxes(l);
    RotateAxes(l.Then(r));
    UnrotateThen(l, r, Y_AXIS);
  }

  lemma WristRigid(t: Trig, dh: Dh, theta5: real, theta6: real)
    requires t.Lawful()
    ensures WristLinks(t, dh, theta5, theta6).Rigid()
  {
    hide LinkForm, Pose.Rigid, Pose.Then;
    Twists(t);
    Unit(t, theta5);
    Unit(t, theta6);
    LinkFormRigid(t.cos(theta5), t.sin(theta5), dh.d5, 0.0, 0.0, -1.0);
    LinkFormRigid(t.cos(theta6), t.sin(theta6), dh.d6, 0.0, 1.0, 0.0);
    ThenRigid(DhTransform(t, theta5, dh.d5, 0.0, -t.pi / 2.0), DhTransform(t, theta6, dh.d6, 0.0, 0.0));
  }

  /** The shoulder-offset equation of the wrist centre, in terms of the flange position. */
  lemma CentreAlong(u: Vec3, p: Vec3, a: Vec3, d6: real)
    ensures Dot(u, Minus(p, Scale(d6, a))) == Dot(u, p) - d6 * Dot(u, a)
  {
    CentreScalars(u.x, u.y, u.z, p.x, p.y, p.z, a.x, a.y, a.z, d6, Dot(u, a),
                  p.x - d6 * a.x, p.y - d6 * a.y, p.z - d6 * a.z);
  }

  lemma CentreScalars(ux: real, uy: real, uz: real, px: real, py: real, pz: real, ax: real, ay: real, az: real,
                      d6: real, e: real, cx: real, cy: real, cz: real)
    requires e == ux * ax + uy * ay + uz * az
    requires cx == px - d6 * ax && cy == py - d6 * ay && cz == pz - d6 * az
    ensures ux * cx + uy * cy + uz * cz == ux * px + uy * py + uz * pz - d6 * e
  {
  }

  lemma BaseLinkFacts(t: Trig, dh: Dh, theta1: real)
    requires t.Lawful()
    ensures var l := BaseLink(t, dh, theta1);
            l.Rigid() && l.a == ShoulderAxis(t, theta1) && Dot(l.a, l.p) == 0.0
  {
    hide LinkForm, Dot, Pose.Rigid;
    Unit(t, theta1);
    LinkFormRigid(t.cos(theta1), t.sin(theta1), dh.d1, 0.0, 0.0, 1.0);
    BaseLinkAxis(t.cos(theta1), t.sin(theta1), dh.d1);
  }

  lemma BaseLinkAxis(c: real, s: real, d1: real)
    ensures var l := LinkForm(c, s, d1, 0.0, 0.0, 1.0);
            l.a == Vec3(s, -c, 0.0) && Dot(l.a, l.p) == 0.0
  {
  }

  /** Once the wrist fits, what is left for joints 2 to 4 is planar. */
  lemma IsolatedPlanar(l: Pose, x: Pose, w: Pose)
    requires l.Rigid() && x.Rigid() && w.Rigid()
    requires l.Inverse().Then(x).Then(w.Inverse()).RowZ() == Y_AXIS
    ensures var m := l.Inverse().Then(x).Then(w.Inverse());
            && m == PlanarForm(m.n.x, m.n.y, m.p.x, m.p.y, m.p.z)
            && m.n.x * m.n.x + m.n.y * m.n.y == 1.0
  {
    hide Pose.Then, Pose.Rigid, Pose.RowZ, Pose.Inverse;
    InverseRigid(l);
    InverseRigid(w);
    ThenRigid(l.Inverse(), x);
    ThenRigid(l.Inverse().Then(x), w.Inverse());
    PlanarFromRow(l.Inverse().Then(x).Then(w.Inverse()));
  }

  lemma WristFitsPlanar(t: Trig, dh: Dh, x: Pose, theta1: real, theta5: real, theta6: real)
    requires t.Lawful() && x.Rigid() && WristFits(t, x, theta1, theta5, theta6)
    ensures var m := Isolated(t, dh, x, theta1, theta5, theta6); m.n.x * m.n.x + m.n.y * m.n.y == 1.0
  {
    hide Pose.Then, Pose.Rigid, Pose.Rotate, Pose.Unrotate, Dot, DhTransform;
    var l, w := BaseLink(t, dh, theta1), WristLinks(t, dh, theta5, theta6);
    BaseLinkFacts(t, dh, theta1);
    WristRigid(t, dh, theta5, theta6);
    WristClosedForm(t, dh, theta5, theta6);
    IsolatedRow(l, x, w);
    RowFits(w, x.Unrotate(l.a));
    IsolatedPlanar(l, x, w);
  }

  /** The planar part matches its closed form exactly when these four numbers agree. */
  ghost predicate PlanarFits(t: Trig, dh: Dh, m: Pose, q: Config) {
    && m.n.x == t.cos(q[1] + q[2] + q[3]) && m.n.y == t.sin(q[1] + q[2] + q[3])
    && m.p.x == ForwardX(t, dh, q[1], q[2]) && m.p.y == ForwardY(t, dh, q[1], q[2])
  }

  /** What joints 2 to 4 must produce is planar, at the shoulder offset, exactly when wrist and wrist centre fit. */
  lemma IsolatedFits(t: Trig, dh: Dh, x: Pose, theta1: real, theta5: real, theta6: real)
    requires t.Lawful() && x.Rigid()
    ensures var m := Isolated(t, dh, x, theta1, theta5, theta6);
            && (m.RowZ() == Y_AXIS <==> WristFits(t, x, theta1, theta5, theta6))
            && (m.RowZ() == Y_AXIS ==> (m.p.z == dh.d4 <==> CentreFits(t, dh, x, theta1)))
  {
    hide Pose.Then, Pose.Rigid, Pose.Rotate, Pose.Unrotate, Dot, DhTransform, Minus, Scale, ShoulderAxis;
    var l, w, m := BaseLink(t, dh, theta1), WristLinks(t, dh, theta5, theta6), Isolated(t, dh, x, theta1, theta5, theta6);
    BaseLinkFacts(t, dh, theta1);
    WristRigid(t, dh, theta5, theta6);
    WristClosedForm(t, dh, theta5, theta6);
    IsolatedRow(l, x, w);
    RowFits(w, x.Unrotate(l.a));
    if m.RowZ() == Y_AXIS {
      Isolate(l, m, w, x);
      IsolatedHeight(l, m, w);
      CentreAlong(l.a, x.p, x.a, dh.d6);
      DotCommutes(l.a, x.a);
      LastOfUnrotate(x, l.a);
    }
  }

  /** The flange is at `x` exactly when the wrist, the wrist centre and the planar arm each fit. */
  lemma ReachesIffFits(t: Trig, dh: Dh, q: Config, x: Pose)
    requires t.Lawful() && x.Rigid()
    ensures Flange(t, dh, q) == x
       <==> && WristFits(t, x, q[0], q[4], q[5])
            && CentreFits(t, dh, x, q[0])
            && PlanarFits(t, dh, Isolated(t, dh, x, q[0], q[4], q[5]), q)
  {
    hide Pose.Then, Pose.Rigid, Pose.Rotate, Pose.Unrotate, Dot, DhTransform, Flange, Minus, Scale, ShoulderAxis, ForwardX, ForwardY,
         WristFits, CentreFits;
    var l, w, m, p := BaseLink(t, dh, q[0]), WristLinks(t, dh, q[4], q[5]), Isolated(t, dh, x, q[0], q[4], q[5]), Planar(t, dh, q);
    BaseLinkFacts(t, dh, q[0]);
    WristRigid(t, dh, q[4], q[5]);
    FlangeSplits(t, dh, q);
    Isolate(l, p, w, x);
    assert Flange(t, dh, q) == x <==> p == m;
    PlanarClosedForm(t, dh, q);
    IsolatedFits(t, dh, x, q[0], q[4], q[5]);
    if m.RowZ() == Y_AXIS {
      IsolatedPlanar(l, x, w);
    }
  }

  lemma LastOfUnrotate(x: Pose, v: Vec3)
    ensures x.Unrotate(v).z == Dot(x.a, v)
  {
  }
}
