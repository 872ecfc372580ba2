module Poses {
  datatype Vec3 = Vec3(x: real, y: real, z: real)

  function Plus(u: Vec3, v: Vec3): Vec3 { Vec3(u.x + v.x, u.y + v.y, u.z + v.z) }

  function Minus(u: Vec3, v: Vec3): Vec3 { Vec3(u.x - v.x, u.y - v.y, u.z - v.z) }

  function Scale(k: real, v: Vec3): Vec3 { Vec3(k * v.x, k * v.y, k * v.z) }

  function Dot(u: Vec3, v: Vec3): real { u.x * v.x + u.y * v.y + u.z * v.z }

  function Cross(u: Vec3, v: Vec3): Vec3 {
    Vec3(u.y * v.z - u.z * v.y, u.z * v.x - u.x * v.z, u.x * v.y - u.y * v.x)
  }

  const ZERO := Vec3(0.0, 0.0, 0.0)
  const X_AXIS := Vec3(1.0, 0.0, 0.0)
  const Y_AXIS := Vec3(0.0, 1.0, 0.0)
  const Z_AXIS := Vec3(0.0, 0.0, 1.0)

  /** A homogeneous transform: the columns `n`, `o`, `a` of its rotation, and its translation `p`. */
  datatype Pose = Pose(n: Vec3, o: Vec3, a: Vec3, p: Vec3) {
    function RowX(): Vec3 { Vec3(n.x, o.x, a.x) }
    function RowY(): Vec3 { Vec3(n.y, o.y, a.y) }
    function RowZ(): Vec3 { Vec3(n.z, o.z, a.z) }

    /** The rotation applied to a vector. */
    function Rotate(v: Vec3): Vec3 { Vec3(Dot(RowX(), v), Dot(RowY(), v), Dot(RowZ(), v)) }

    /** The transposed rotation applied to a vector. */
    function Unrotate(v: Vec3): Vec3 { Vec3(Dot(n, v), Dot(o, v), Dot(a, v)) }

    function Then(t: Pose): Pose {
      Pose(Rotate(t.n), Rotate(t.o), Rotate(t.a), Plus(Rotate(t.p), p))
    }

    function Inverse(): Pose { Pose(RowX(), RowY(), RowZ(), Scale(-1.0, Unrotate(p))) }

    /** What the type `Isometry3` guarantees: a right-handed orthonormal rotation. */
    predicate Rigid() {
      Dot(n, n) == 1.0 && Dot(o, o) == 1.0 && Dot(n, o) == 0.0 && a == Cross(n, o)
    }
  }

  const IDENTITY := Pose(X_AXIS, Y_AXIS, Z_AXIS, ZERO)

  // --- linear algebra ---

  lemma Adjoint(t: Pose, u: Vec3, v: Vec3)
    ensures Dot(u, t.Rotate(v)) == Dot(t.Unrotate(u), v)
  {
    AdjointScalars(t.n.x, t.n.y, t.n.z, t.o.x, t.o.y, t.o.z, t.a.x, t.a.y, t.a.z, u.x, u.y, u.z, v.x, v.y, v.z,
                   Dot(t.RowX(), v), Dot(t.RowY(), v), Dot(t.RowZ(), v), Dot(t.n, u), Dot(t.o, u), Dot(t.a, u));
  }

  lemma AdjointScalars(nx: real, ny: real, nz: real, ox: real, oy: real, oz: real, ax: real, ay: real, az: real,
                       ux: real, uy: real, uz: real, vx: real, vy: real, vz: real,
                       wx: real, wy: real, wz: real, n: real, o: real, a: real)
    requires wx == nx * vx + ox * vy + ax * vz && wy == ny * vx + oy * vy + ay * vz && wz == nz * vx + oz * vy + az * vz
    requires n == nx * ux + ny * uy + nz * uz && o == ox * ux + oy * uy + oz * uz && a == ax * ux + ay * uy + az * uz
    ensures ux * wx + uy * wy + uz * wz == n * vx + o * vy + a * vz
  {
  }

  lemma RotateDistributes(t: Pose, u: Vec3, v: Vec3)
    ensures t.Rotate(Plus(u, v)) == Plus(t.Rotate(u), t.Rotate(v))
  {
  }

  lemma RotateScales(t: Pose, k: real, v: Vec3)
    ensures t.Rotate(Scale(k, v)) == Scale(k, t.Rotate(v))
  {
  }

  lemma RotateThen(s: Pose, t: Pose, v: Vec3)
    ensures s.Then(t).Rotate(v) == s.Rotate(t.Rotate(v))
  {
    Adjoint(t, s.RowX(), v);
    Adjoint(t, s.RowY(), v);
    Adjoint(t, s.RowZ(), v);
  }

  lemma Associative(s: Pose, t: Pose, u: Pose)
    ensures s.Then(t).Then(u) == s.Then(t.Then(u))
  {
    RotateThen(s, t, u.n); RotateThen(s, t, u.o); RotateThen(s, t, u.a); RotateThen(s, t, u.p);
    RotateDistributes(s, t.Rotate(u.p), t.p);
  }

  // --- rigid transforms ---

  function Cycle(v: Vec3): Vec3 { Vec3(v.y, v.z, v.x) }

  lemma TripleProduct(u: Vec3, v: Vec3, w: Vec3)
    ensures Dot(Cross(u, v), w) == Dot(u, Cross(v, w))
  {
    var p, q := Cross(u, v), Cross(v, w);
    TripleScalars(u.x, u.y, u.z, v.x, v.y, v.z, w.x, w.y, w.z, p.x, p.y, p.z, q.x, q.y, q.z);
  }

  lemma TripleScalars(ux: real, uy: real, uz: real, vx: real, vy: real, vz: real, wx: real, wy: real, wz: real,
                      px: real, py: real, pz: real, qx: real, qy: real, qz: real)
    requires px == uy * vz - uz * vy && py == uz * vx - ux * vz && pz == ux * vy - uy * vx
    requires qx == vy * wz - vz * wy && qy == vz * wx - vx * wz && qz == vx * wy - vy * wx
    ensures px * wx + py * wy + pz * wz == ux * qx + uy * qy + uz * qz
  {
  }

  lemma DoubleCross(u: Vec3, v: Vec3, w: Vec3)
    ensures Cross(u, Cross(v, w)) == Minus(Scale(Dot(u, w), v), Scale(Dot(u, v), w))
  {
    DoubleCrossX(u, v, w);
    DoubleCrossX(Cycle(u), Cycle(v), Cycle(w));
    DoubleCrossX(Cycle(Cycle(u)), Cycle(Cycle(v)), Cycle(Cycle(w)));
  }

  lemma DoubleCrossX(u: Vec3, v: Vec3, w: Vec3)
    ensures u.y * Cross(v, w).z - u.z * Cross(v, w).y == Dot(u, w) * v.x - Dot(u, v) * w.x
  {
    var c := Cross(v, w);
    DoubleCrossScalars(u.x, u.y, u.z, v.x, v.y, v.z, w.x, w.y, w.z, c.y, c.z, Dot(u, w), Dot(u, v));
  }

  lemma DoubleCrossScalars(ux: real, uy: real, uz: real, vx: real, vy: real, vz: real, wx: real, wy: real, wz: real,
                           cy: real, cz: real, d: real, e: real)
    requires cy == vz * wx - vx * wz && cz == vx * wy - vy * wx
    requires d == ux * wx + uy * wy + uz * wz && e == ux * vx + uy * vy + uz * vz
    ensures uy * cz - uz * cy == d * vx - e * wx
  {
  }

  lemma DotDistributes(u: Vec3, k: real, v: Vec3, l: real, w: Vec3)
    ensures Dot(u, Minus(Scale(k, v), Scale(l, w))) == k * Dot(u, v) - l * Dot(u, w)
  {
    DotScalars(u.x, u.y, u.z, k, v.x, v.y, v.z, l, w.x, w.y, w.z,
               k * v.x - l * w.x, k * v.y - l * w.y, k * v.z - l * w.z, Dot(u, v), Dot(u, w));
  }

  lemma DotScalars(ux: real, uy: real, uz: real, k: real, vx: real, vy: real, vz: real, l: real, wx: real, wy: real, wz: real,
                   mx: real, my: real, mz: real, d: real, e: real)
    requires mx == k * vx - l * wx && my == k * vy - l * wy && mz == k * vz - l * wz
    requires d == ux * vx + uy * vy + uz * vz && e == ux * wx + uy * wy + uz * wz
    ensures ux * mx + uy * my + uz * mz == k * d - l * e
  {
  }

  lemma BinetCauchy(a: Vec3, b: Vec3, c: Vec3, d: Vec3)
    ensures Dot(Cross(a, b), Cross(c, d)) == Dot(b, d) * Dot(a, c) - Dot(b, c) * Dot(a, d)
  {
    TripleProduct(a, b, Cross(c, d));
    DoubleCross(b, c, d);
    DotDistributes(a, Dot(b, d), c, Dot(b, c), d);
  }

  lemma CrossPerpendicular(u: Vec3, v: Vec3)
    ensures Dot(u, Cross(u, v)) == 0.0 == Dot(v, Cross(u, v))
  {
  }

  /** In a right-handed orthonormal frame each axis is the cross product of the other two. */
  lemma RightHanded(t: Pose)
    requires t.Rigid()
    ensures Cross(t.o, t.a) == t.n && Cross(t.a, t.n) == t.o
    ensures Dot(t.a, t.a) == 1.0 && Dot(t.n, t.a) == 0.0 && Dot(t.o, t.a) == 0.0
  {
    DoubleCross(t.o, t.n, t.o);
    DoubleCross(t.n, t.n, t.o);
    CrossPerpendicular(t.n, t.o);
    BinetCauchy(t.n, t.o, t.n, t.o);
  }

  lemma InverseRigid(t: Pose)
    requires t.Rigid()
    ensures t.Inverse().Rigid()
  {
    RightHanded(t);
    RowsUnit(t.n, t.o, t.a);
    RowsCross(t.n, t.o, t.a);
  }

  lemma RowsCross(n: Vec3, o: Vec3, a: Vec3)
    requires n == Cross(o, a) && o == Cross(a, n) && a == Cross(n, o)
    ensures Vec3(n.z, o.z, a.z) == Cross(Vec3(n.x, o.x, a.x), Vec3(n.y, o.y, a.y))
  {
  }

  lemma RowsUnit(n: Vec3, o: Vec3, a: Vec3)
    requires n == Cross(o, a) && o == Cross(a, n) && a == Cross(n, o) && Dot(n, n) == 1.0
    ensures Dot(Vec3(n.x, o.x, a.x), Vec3(n.x, o.x, a.x)) == 1.0 == Dot(Vec3(n.y, o.y, a.y), Vec3(n.y, o.y, a.y))
    ensures Dot(Vec3(n.x, o.x, a.x), Vec3(n.y, o.y, a.y)) == 0.0
  {
    RowsX(n, o, a);
    CycleCross(o, a);
    CycleCross(a, n);
    CycleCross(n, o);
    hide Cross;
    RowsX(Cycle(n), Cycle(o), Cycle(a));
  }

  lemma CycleCross(u: Vec3, v: Vec3)
    ensures Cross(Cycle(u), Cycle(v)) == Cycle(Cross(u, v))
  {
  }

  lemma RowsX(n: Vec3, o: Vec3, a: Vec3)
    requires n == Cross(o, a) && o == Cross(a, n) && a == Cross(n, o)
    ensures n.x * n.x + o.x * o.x + a.x * a.x == n.x * n.x + n.y * n.y + n.z * n.z
    ensures n.x * n.y + o.x * o.y + a.x * a.y == 0.0
  {
    assert o.x * o.x + a.x * a.x == o.x * (a.y * n.z - a.z * n.y) + a.x * (n.y * o.z - n.z * o.y);
    assert n.y * n.y + n.z * n.z == n.y * (o.z * a.x - o.x * a.z) + n.z * (o.x * a.y - o.y * a.x);
    assert n.x * n.y + o.x * o.y + a.x * a.y
        == (o.y * a.z - o.z * a.y) * n.y + (a.y * n.z - a.z * n.y) * o.y + (n.y * o.z - n.z * o.y) * a.y;
  }

  lemma UnrotateRotate(t: Pose, v: Vec3)
    requires t.Rigid()
    ensures t.Unrotate(t.Rotate(v)) == v && t.Rotate(t.Unrotate(v)) == v
  {
    RightHanded(t);
    Adjoint(t, t.n, v); Adjoint(t, t.o, v); Adjoint(t, t.a, v);
    InverseRigid(t);
    var i := t.Inverse();
    RightHanded(i);
    Adjoint(i, i.n, v); Adjoint(i, i.o, v); Adjoint(i, i.a, v);
  }

  lemma RotatePreservesDot(t: Pose, u: Vec3, v: Vec3)
    requires t.Rigid()
    ensures Dot(t.Rotate(u), t.Rotate(v)) == Dot(u, v)
  {
    Adjoint(t, t.Rotate(u), v);
    UnrotateRotate(t, u);
  }

  lemma RotatePreservesCross(t: Pose, u: Vec3, v: Vec3)
    requires t.Rigid()
    ensures t.Rotate(Cross(u, v)) == Cross(t.Rotate(u), t.Rotate(v))
  {
    var ru, rv := t.Rotate(u), t.Rotate(v);
    var c := Cross(ru, rv);
    assert t.Unrotate(c) == Cross(u, v) by {
      RightHanded(t);
      UnrotateRotate(t, u);
      UnrotateRotate(t, v);
      BinetCauchy(t.o, t.a, ru, rv);
      BinetCauchy(t.a, t.n, ru, rv);
      BinetCauchy(t.n, t.o, ru, rv);
    }
    UnrotateRotate(t, c);
  }

  lemma ThenRigid(s: Pose, t: Pose)
    requires s.Rigid() && t.Rigid()
    ensures s.Then(t).Rigid()
  {
    RotatePreservesDot(s, t.n, t.n);
    RotatePreservesDot(s, t.o, t.o);
    RotatePreservesDot(s, t.n, t.o);
    RotatePreservesCross(s, t.n, t.o);
  }

  /** A rigid transform undoes its inverse from both sides. */
  lemma InverseCancels(t: Pose)
    requires t.Rigid()
    ensures t.Inverse().Then(t) == IDENTITY && t.Then(t.Inverse()) == IDENTITY
  {
    RotateAxes(t);
    UnrotateRotate(t, X_AXIS); UnrotateRotate(t, Y_AXIS); UnrotateRotate(t, Z_AXIS);
    UnrotateRotate(t, t.p);
    RotateScales(t, -1.0, t.Unrotate(t.p));
  }

  lemma RotateAxes(t: Pose)
    ensures t.Rotate(X_AXIS) == t.n && t.Rotate(Y_AXIS) == t.o && t.Rotate(Z_AXIS) == t.a
    ensures t.Unrotate(X_AXIS) == t.RowX() && t.Unrotate(Y_AXIS) == t.RowY() && t.Unrotate(Z_AXIS) == t.RowZ()
  {
  }

  lemma IdentityIsNeutral(t: Pose)
    ensures IDENTITY.Then(t) == t && t.Then(IDENTITY) == t
  {
  }
}
