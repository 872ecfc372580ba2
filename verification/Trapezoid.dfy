/** Rest-to-rest trapezoids: the duration estimate is the fastest legal profile. */
module Trapezoid {
  import opened RealAlgebra
  import opened Trigonometry
  import opened IkBranches
  import opened BranchProofs

  /** The distance both ramps take together. */
  function RampDistance(v: real, a: real): real
    requires a > 0.0
  {
    v * v / a
  }

  /** A segment that ends before the peak speed is reached. */
  function Triangular(t: Trig, d: real, a: real): real
    requires a > 0.0
  {
    2.0 * t.sqrt(d / a)
  }

  function Plateaued(d: real, v: real, a: real): real
    requires v > 0.0 && a > 0.0
  {
    2.0 * (v / a) + (d - RampDistance(v, a)) / v
  }

  function TrapezoidDuration(t: Trig, distance: real, v: real, a: real): real {
    var d := Abs(distance);
    if d <= 0.0 || v <= 0.0 || a <= 0.0 then 0.0
    else if RampDistance(v, a) >= d then Triangular(t, d, a)
    else Plateaued(d, v, a)
  }

  function Reached(t: Trig, d: real, a: real): real { t.sqrt(a * d) }

  function AchievablePeakSpeed(t: Trig, distance: real, v: real, a: real): real {
    var d := Abs(distance);
    if d <= 0.0 || a <= 0.0 then 0.0
    else
      var reached := Reached(t, d, a);
      if reached < v then reached else v
  }

  /** Ramp up at `ramp` to `peak`, hold it for `cruise`, and ramp down at `ramp`. */
  datatype Profile = Profile(peak: real, ramp: real, cruise: real) {
    predicate Legal(v: real, a: real) { 0.0 < peak <= v && 0.0 < ramp <= a && 0.0 <= cruise }

    /** The area under the profile. */
    function Covers(): real
      requires ramp > 0.0
    {
      peak * (peak / ramp) + peak * cruise
    }

    function Lasts(): real
      requires ramp > 0.0
    {
      2.0 * (peak / ramp) + cruise
    }
  }

  // --- the closed form ---

  /** What ramps and travel take at peak `p`. */
  function Travel(d: real, p: real, a: real): real
    requires p > 0.0 && a > 0.0
  {
    p / a + d / p
  }

  /** For one root `s` of `a * d`, the root of `d / a` and the quotient `d / s` are both `s / a`. */
  lemma Roots(t: Trig, d: real, a: real) returns (s: real)
    requires t.Lawful() && d > 0.0 && a > 0.0
    ensures s == Reached(t, d, a) && s > 0.0 && s * s == a * d
    ensures Triangular(t, d, a) == Travel(d, s, a)
  {
    var p, q := a * d, d / a;
    Positive(a, d, p);
    Root(t, p);
    s := t.sqrt(p);
    Square(s, p);
    Ratios(d, a, s, s / a, q);
    Root(t, q);
    SameRoot(t.sqrt(q), s / a, q);
  }

  lemma Ratios(d: real, a: real, s: real, r: real, q: real)
    requires d > 0.0 && a > 0.0 && s > 0.0 && s * s == a * d && r == s / a && q == d / a
    ensures r > 0.0 && q > 0.0 && r * r == q && d / s == r
  {
    assert q * a == d && r * a == s;
    assert r * s == d by {
      assert a * (r * s) == s * s == a * d;
      SameFactor(a, r * s, d, a * d);
    }
    assert d / s == r;
    assert a * (r * r) == r * s == d == a * q;
    SameFactor(a, r * r, q, d);
  }

  lemma Ordered(s: real, v: real, p: real, q: real)
    requires s > 0.0 && v > 0.0 && p == v * v && q == s * s
    ensures v >= s <==> p >= q
  {
    if v > s {
      Positive(v - s, v + s, p - q);
    } else if v < s {
      Positive(s - v, v + s, q - p);
    }
  }

  lemma RampsFill(d: real, v: real, a: real, s: real)
    requires d > 0.0 && v > 0.0 && a > 0.0 && s > 0.0 && s * s == a * d
    ensures RampDistance(v, a) >= d <==> v >= s
  {
    var ramps, p := v * v / a, v * v;
    assert a * ramps == p;
    Ordered(s, v, p, s * s);
    if ramps >= d {
      assert a * (ramps - d) >= 0.0;
    } else {
      Positive(a, d - ramps, s * s - p);
    }
  }

  lemma FlatTop(d: real, v: real, a: real)
    requires v > 0.0 && a > 0.0
    ensures Plateaued(d, v, a) == Travel(d, v, a)
  {
    var r, u := v / a, d / v;
    assert r * a == v && u * v == d;
    var ramps := v * v / a;
    assert ramps == v * r by {
      assert a * ramps == v * v == a * (v * r);
      SameFactor(a, ramps, v * r, v * v);
    }
    var w := (d - ramps) / v;
    assert v * w == d - ramps == v * (u - r);
    SameFactor(v, w, u - r, d - ramps);
  }

  /** A peak that is the allowed speed or spends the whole distance on the ramps, and never more. */
  ghost predicate AtMostRamps(d: real, peak: real, v: real, a: real) {
    peak * peak <= a * d && (v <= peak || peak * peak == a * d)
  }

  lemma RootOrder(d: real, v: real, a: real, s: real)
    requires v > 0.0 && s > 0.0 && s * s == a * d
    ensures AtMostRamps(d, s, v, a) && (v <= s ==> AtMostRamps(d, v, v, a))
  {
    Ordered(v, s, s * s, v * v);
  }

  /** One form for both branches: with the peak actually reached, ramps and travel take `peak / a + d / peak`. */
  lemma PeakForm(t: Trig, distance: real, v: real, a: real)
    requires t.Lawful() && distance != 0.0 && v > 0.0 && a > 0.0
    ensures var d, peak := Abs(distance), AchievablePeakSpeed(t, distance, v, a);
            && 0.0 < peak <= v
            && AtMostRamps(d, peak, v, a)
            && TrapezoidDuration(t, distance, v, a) == Travel(d, peak, a)
  {
    hide RampDistance, Triangular, Plateaued, Travel, Reached, AtMostRamps;
    var d := Abs(distance);
    var s := Roots(t, d, a);
    RampsFill(d, v, a, s);
    RootOrder(d, v, a, s);
    FlatTop(d, v, a);
  }

  /** At `v * v == a * d` the two branches of the duration agree. */
  lemma BranchesMeet(t: Trig, d: real, v: real, a: real)
    requires t.Lawful() && d > 0.0 && v > 0.0 && a > 0.0 && v * v == a * d
    ensures Triangular(t, d, a) == Plateaued(d, v, a)
  {
    var s := Roots(t, d, a);
    SameRoot(s, v, a * d);
    FlatTop(d, v, a);
  }

  // --- optimality ---

  lemma CoverForm(p: Profile, d: real)
    requires p.peak > 0.0 && p.ramp > 0.0
    ensures p.Covers() == d <==> p.Lasts() == Travel(d, p.peak, p.ramp)
  {
    var r, u := p.peak / p.ramp, d / p.peak;
    assert p.peak * u == d;
    assert p.Covers() == p.peak * (r + p.cruise);
    if p.Lasts() == r + u {
      assert r + p.cruise == u;
    } else if p.Covers() == d {
      SameFactor(p.peak, r + p.cruise, u, d);
    }
  }

  /** A legal profile over `d` peaks no higher than the achievable peak. */
  lemma PeakBound(p: Profile, d: real, v: real, a: real, peak: real)
    requires p.Legal(v, a) && p.Covers() == d && peak > 0.0 && AtMostRamps(d, peak, v, a)
    ensures p.peak <= peak
  {
    if v > peak {
      var r, e := p.peak / p.ramp, p.peak * (p.peak / p.ramp);
      assert r * p.ramp == p.peak;
      assert p.peak * p.cruise >= 0.0;
      assert r > 0.0;
      Positive(p.peak, r, e);
      Spent(p.peak, r, p.ramp, a, e, d);
      Ordered(p.peak, peak, peak * peak, p.peak * p.peak);
    }
  }

  lemma Spent(p: real, r: real, ramp: real, a: real, e: real, d: real)
    requires r * ramp == p && 0.0 < ramp <= a && e == p * r && 0.0 < e <= d
    ensures p * p <= a * d
  {
    assert ramp * e == p * p;
    NonNegative(ramp, d - e, ramp * (d - e));
    NonNegative(a - ramp, d, (a - ramp) * d);
  }

  /** Along `p / a + d / p` a lower peak takes longer, up to the peak that uses the whole distance to ramp. */
  lemma LowerIsSlower(p: real, peak: real, a: real, d: real)
    requires 0.0 < p <= peak && a > 0.0 && peak * peak <= a * d
    ensures Travel(d, peak, a) <= Travel(d, p, a)
  {
    LowerScalars(p, peak, a, d, d / p, d / peak, p / a, peak / a);
  }

  lemma LowerScalars(p: real, peak: real, a: real, d: real, u: real, w: real, x: real, y: real)
    requires 0.0 < p <= peak && a > 0.0 && peak * peak <= a * d
    requires u * p == d && w * peak == d && x * a == p && y * a == peak
    ensures y + w <= x + u
  {
    assert peak * (a * w) == a * d;
    CancelAtMost(peak, peak, a * w, peak * peak, a * d);
    Gain(p, peak, a, u, w, a * w, d);
    CancelAtMost(a, y - x, u - w, peak - p, a * (u - w));
  }

  lemma Gain(p: real, peak: real, a: real, u: real, w: real, aw: real, d: real)
    requires 0.0 < p <= peak && a > 0.0 && aw == a * w && aw >= peak && u * p == d && w * peak == d
    ensures peak - p <= a * (u - w)
  {
    var lead := peak - p;
    assert p * (u - w) == w * lead;
    var g, h := a * (u - w), aw * lead;
    assert p * g == a * (w * lead) == h;
    assert (aw - p) * lead >= 0.0;
    CancelAtMost(p, lead, g, p * lead, h);
  }

  lemma SlowerRamp(d: real, p: real, r: real, a: real)
    requires p > 0.0 && 0.0 < r <= a
    ensures Travel(d, p, a) <= Travel(d, p, r)
  {
    var x, y := p / a, p / r;
    assert x * a == p && y * r == p;
    assert y > 0.0;
    assert a * y >= p by { assert (a - r) * y >= 0.0; }
    CancelAtMost(a, x, y, p, a * y);
  }

  /**
   The estimate is the least time of any rest-to-rest profile that covers the distance within the speed and
   the ramp, and it is attained by the profile that peaks at the achievable speed.
   */
  lemma FastestProfile(t: Trig, distance: real, v: real, a: real) returns (best: Profile)
    requires t.Lawful() && distance != 0.0 && v > 0.0 && a > 0.0
    ensures best.Legal(v, a) && best.Covers() == Abs(distance) && best.peak == AchievablePeakSpeed(t, distance, v, a)
    ensures best.Lasts() == TrapezoidDuration(t, distance, v, a)
    ensures forall p: Profile :: p.Legal(v, a) && p.Covers() == Abs(distance) ==> best.Lasts() <= p.Lasts()
  {
    hide TrapezoidDuration, AchievablePeakSpeed, Profile.Covers, Profile.Lasts, Travel;
    PeakForm(t, distance, v, a);
    var d, peak := Abs(distance), AchievablePeakSpeed(t, distance, v, a);
    best := Best(d, peak, a);
    forall p: Profile | p.Legal(v, a) && p.Covers() == d ensures best.Lasts() <= p.Lasts() {
      CoverForm(p, d);
      PeakBound(p, d, v, a, peak);
      LowerIsSlower(p.peak, peak, a, d);
      SlowerRamp(d, p.peak, p.ramp, a);
    }
  }

  lemma Best(d: real, peak: real, a: real) returns (best: Profile)
    requires d > 0.0 && peak > 0.0 && a > 0.0 && peak * peak <= a * d
    ensures best.peak == peak && best.ramp == a && best.cruise >= 0.0
    ensures best.Covers() == d && best.Lasts() == Travel(d, peak, a)
  {
    var r, u := peak / a, d / peak;
    assert r * a == peak && u * peak == d;
    best := Profile(peak, a, u - r);
    CoverForm(best, d);
    assert a * u >= peak by {
      assert peak * (a * u) == a * d;
      CancelAtMost(peak, peak, a * u, peak * peak, a * d);
    }
    CancelAtMost(a, r, u, peak, a * u);
  }

  /** More speed or more ramp never takes longer. */
  lemma FasterLimits(t: Trig, distance: real, v: real, a: real, v': real, a': real)
    requires t.Lawful() && 0.0 < v <= v' && 0.0 < a <= a'
    ensures TrapezoidDuration(t, distance, v', a') <= TrapezoidDuration(t, distance, v, a)
  {
    if distance != 0.0 {
      var slow := FastestProfile(t, distance, v, a);
      var fast := FastestProfile(t, distance, v', a');
      assert slow.Legal(v', a');
    }
  }

  /** The estimate is zero exactly when there is nothing to travel or nothing to travel with. */
  lemma ZeroDuration(t: Trig, distance: real, v: real, a: real)
    requires t.Lawful()
    ensures TrapezoidDuration(t, distance, v, a) >= 0.0
    ensures TrapezoidDuration(t, distance, v, a) == 0.0 <==> distance == 0.0 || v <= 0.0 || a <= 0.0
  {
    if distance != 0.0 && v > 0.0 && a > 0.0 {
      hide TrapezoidDuration, AchievablePeakSpeed;
      PeakForm(t, distance, v, a);
      TravelTakesTime(Abs(distance), AchievablePeakSpeed(t, distance, v, a), a);
    }
  }

  lemma TravelTakesTime(d: real, p: real, a: real)
    requires d > 0.0 && p > 0.0 && a > 0.0
    ensures Travel(d, p, a) > 0.0
  {
    var x, y := p / a, d / p;
    assert a * x == p && p * y == d;
    Cancel(a, 0.0, 0.0, x);
    Cancel(p, 0.0, 0.0, y);
  }
}
