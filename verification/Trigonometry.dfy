/**
 The real functions the planner calls, as a record of functions together with the laws it relies on.

 Nothing is assumed of a particular record: every statement that needs trigonometry takes `t: Trig` and
 requires `t.Lawful()`. The real cosine, sine, arc functions and square root satisfy these laws.
 Each law is stated through a predicate of its own, so that it is used only where it is named.
 */
module Trigonometry {
  import opened RealAlgebra

  function SumOfSquares(x: real, y: real): real { x * x + y * y }

  datatype Trig = Trig(
    pi: real,
    cos: real -> real,
    sin: real -> real,
    tan: real -> real,
    acos: real -> real,
    atan2: (real, real) -> real,
    sqrt: real -> real)
  {
    ghost predicate Lawful() {
      && pi > 0.0
      && cos(pi / 2.0) == 0.0 && sin(pi / 2.0) == 1.0
      && (forall x {:trigger UnitLaw(x)} :: UnitLaw(x))
      && (forall x, y {:trigger SumLaw(x, y)} :: SumLaw(x, y))
      && (forall x, y {:trigger InjectiveLaw(x, y)} :: InjectiveLaw(x, y))
      && (forall c {:trigger AcosLaw(c)} :: AcosLaw(c))
      && (forall y, x {:trigger Atan2Law(y, x)} :: Atan2Law(y, x))
      && (forall x {:trigger SqrtLaw(x)} :: SqrtLaw(x))
    }

    ghost predicate UnitLaw(x: real) { cos(x) * cos(x) + sin(x) * sin(x) == 1.0 }

    ghost predicate SumLaw(x: real, y: real) {
      && cos(x + y) == cos(x) * cos(y) - sin(x) * sin(y)
      && sin(x + y) == sin(x) * cos(y) + cos(x) * sin(y)
    }

    /** Two angles with the same cosine and sine differ by whole turns. */
    ghost predicate InjectiveLaw(x: real, y: real) { SameDirection(x, y) ==> Congruent(x, y) }

    ghost predicate AcosLaw(c: real) { -1.0 <= c <= 1.0 ==> cos(acos(c)) == c && 0.0 <= acos(c) <= pi }

    ghost predicate Atan2Law(y: real, x: real) {
      && Hypot(x, y) * cos(atan2(y, x)) == x
      && Hypot(x, y) * sin(atan2(y, x)) == y
    }

    ghost predicate SqrtLaw(x: real) { 0.0 <= x ==> 0.0 <= sqrt(x) && sqrt(x) * sqrt(x) == x }

    function Hypot(x: real, y: real): real { sqrt(SumOfSquares(x, y)) }

    /** The angle `x` after `k` whole turns. */
    function Turned(x: real, k: int): real { x + 2.0 * pi * (k as real) }

    ghost predicate SameDirection(x: real, y: real) { cos(x) == cos(y) && sin(x) == sin(y) }

    ghost predicate Congruent(x: real, y: real) { exists k: int :: x == Turned(y, k) }
  }

  lemma Zero(t: Trig)
    requires t.Lawful()
    ensures t.cos(0.0) == 1.0 && t.sin(0.0) == 0.0
  {
    var h := t.pi / 2.0;
    assert t.SumLaw(0.0, h);
    assert 0.0 + h == h;
  }

  lemma Negated(t: Trig, x: real)
    requires t.Lawful()
    ensures t.cos(-x) == t.cos(x) && t.sin(-x) == -t.sin(x)
  {
    Zero(t);
    assert t.UnitLaw(x) && t.SumLaw(x, -x);
    assert x + -x == 0.0;
    NegatedScalars(t.cos(x), t.sin(x), t.cos(-x), t.sin(-x));
  }

  lemma NegatedScalars(c: real, s: real, c': real, s': real)
    requires c * c + s * s == 1.0 && c * c' - s * s' == 1.0 && s * c' + c * s' == 0.0
    ensures c' == c && s' == -s
  {
    assert c' == c' * (c * c + s * s) == c * (c * c' - s * s') + s * (s * c' + c * s');
    assert s' == s' * (c * c + s * s) == c * (s * c' + c * s') - s * (c * c' - s * s');
  }

  lemma Sum(t: Trig, x: real, y: real)
    requires t.Lawful()
    ensures t.cos(x + y) == t.cos(x) * t.cos(y) - t.sin(x) * t.sin(y)
    ensures t.sin(x + y) == t.sin(x) * t.cos(y) + t.cos(x) * t.sin(y)
  {
    assert t.SumLaw(x, y);
  }

  lemma Difference(t: Trig, x: real, y: real)
    requires t.Lawful()
    ensures t.cos(x - y) == t.cos(x) * t.cos(y) + t.sin(x) * t.sin(y)
    ensures t.sin(x - y) == t.sin(x) * t.cos(y) - t.cos(x) * t.sin(y)
  {
    Sum(t, x, -y);
    Negated(t, y);
    assert x + -y == x - y;
  }

  lemma Unit(t: Trig, x: real)
    requires t.Lawful()
    ensures t.cos(x) * t.cos(x) + t.sin(x) * t.sin(x) == 1.0
    ensures -1.0 <= t.cos(x) <= 1.0 && -1.0 <= t.sin(x) <= 1.0
  {
    assert t.UnitLaw(x);
    var c, s := t.cos(x), t.sin(x);
    assert c * c <= 1.0 && s * s <= 1.0;
  }

  lemma WholeTurn(t: Trig)
    requires t.Lawful()
    ensures t.cos(2.0 * t.pi) == 1.0 && t.sin(2.0 * t.pi) == 0.0
  {
    var h := t.pi / 2.0;
    Sum(t, h, h);
    Sum(t, t.pi, t.pi);
    assert h + h == t.pi && t.pi + t.pi == 2.0 * t.pi;
  }

  /** Whole turns change neither cosine nor sine. */
  lemma {:induction false} Periodic(t: Trig, x: real, k: int)
    requires t.Lawful()
    ensures t.SameDirection(t.Turned(x, k), x)
    decreases if k < 0 then -k else k
  {
    if k == 0 {
      assert t.Turned(x, 0) == x;
    } else {
      WholeTurn(t);
      var j := if k < 0 then k + 1 else k - 1;
      var y := t.Turned(x, j);
      Periodic(t, x, j);
      if k < 0 {
        assert t.Turned(x, k) == y - 2.0 * t.pi;
        Difference(t, y, 2.0 * t.pi);
      } else {
        assert t.Turned(x, k) == y + 2.0 * t.pi;
        Sum(t, y, 2.0 * t.pi);
      }
    }
  }

  /** Angles are congruent modulo whole turns exactly when their cosines and sines agree. */
  lemma CongruentIffSameDirection(t: Trig, x: real, y: real)
    requires t.Lawful()
    ensures t.Congruent(x, y) <==> t.SameDirection(x, y)
  {
    if t.Congruent(x, y) {
      var k: int :| x == t.Turned(y, k);
      Periodic(t, y, k);
    }
    assert t.InjectiveLaw(x, y);
  }

  /** Equal cosines leave two directions: the angle or its mirror image. */
  lemma SameCosine(t: Trig, x: real, y: real)
    requires t.Lawful() && t.cos(x) == t.cos(y)
    ensures t.SameDirection(x, y) || t.SameDirection(x, -y)
  {
    Unit(t, x);
    Unit(t, y);
    Negated(t, y);
    var s, s' := t.sin(x), t.sin(y);
    SameSquare(s, s', s * s);
  }
}
