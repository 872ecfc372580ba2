/** Path geometry: sampling a straight segment, and sizing the blend at a corner. */
module Path {
  import opened RealAlgebra
  import opened Results
  import opened Trigonometry
  import opened Poses
  import opened Kinematics
  import opened IkBranches
  import opened BranchProofs
  import opened Completeness
  import opened Turns
  import opened LimitsModel
  import opened Resolution

  const CHORD_FRACTION := 0.4
  const MIN_USEFUL_BLEND := 0.001
  const FLAT_CORNER := 0.000000001
  const NO_LENGTH := 0.000000000001

  /**
   The parts of the geometry that are taken as given: the pose that a rotation vector names, the pose part of
   the way along a straight segment, and the joint rates of a unit tool speed along it (none where the
   Jacobian has no inverse).
   */
  datatype Geometry = Geometry(
    poseFromArray: Config -> Pose,
    between: (Pose, Pose, real) -> Pose,
    unitRates: (Config, Pose, Pose) -> Option<Config>)

  /** One arm in its cell. */
  datatype Arm = Arm(t: Trig, dh: Dh, limits: Limits, geometry: Geometry) {
    predicate Usable() { t.pi > 0.0 && dh.Proper() }

    ghost predicate Lawful() { t.Lawful() && dh.Proper() && OneTurnLimits(t, limits.positionMin, limits.positionMax) }
  }

  function Norm(t: Trig, v: Vec3): real { t.sqrt(Dot(v, v)) }

  function Chord(t: Trig, u: Vec3, v: Vec3): real { Norm(t, Minus(v, u)) }

  function JointDelta(a: Config, b: Config): Config { seq(6, i requires 0 <= i < 6 => b[i] - a[i]) }

  method ComputeJointDelta(a: Config, b: Config) returns (d: Config)
    ensures d == JointDelta(a, b) && forall i :: 0 <= i < 6 ==> d[i] == b[i] - a[i]
  {
    var moves := new real[6](_ => 0.0);
    for i := 0 to 6
      invariant moves[..i] == JointDelta(a, b)[..i]
    {
      moves[i] := b[i] - a[i];
      assert moves[..i + 1] == moves[..i] + [moves[i]];
    }
    assert moves[..6] == moves[..] && JointDelta(a, b)[..6] == JointDelta(a, b);
    d := moves[..];
  }

  /** The chord is the length of the straight line between two points. */
  lemma ChordExact(t: Trig, u: Vec3, v: Vec3)
    requires t.Lawful()
    ensures Chord(t, u, v) >= 0.0
    ensures Chord(t, u, v) * Chord(t, u, v) == (v.x - u.x) * (v.x - u.x) + (v.y - u.y) * (v.y - u.y) + (v.z - u.z) * (v.z - u.z)
  {
    var w := Minus(v, u);
    Square(w.x, w.x * w.x);
    Square(w.y, w.y * w.y);
    Square(w.z, w.z * w.z);
    Root(t, Dot(w, w));
  }

  // --- corners ---

  /** How far the path turns at `at`, or none when a segment beside it has no length. */
  function CornerDeflection(t: Trig, prev: Vec3, at: Vec3, next: Vec3): Option<real> {
    var li, lo := Chord(t, prev, at), Chord(t, at, next);
    if li <= NO_LENGTH || lo <= NO_LENGTH then None
    else
      Positive(li, lo, Chords(t, prev, at, next));
      Some(t.acos(Clamp(Dot(Minus(at, prev), Minus(next, at)) / Chords(t, prev, at, next))))
  }

  function Chords(t: Trig, prev: Vec3, at: Vec3, next: Vec3): real { Chord(t, prev, at) * Chord(t, at, next) }

  function MaxBlendableDeflection(t: Trig): real { 170.0 * t.pi / 180.0 }

  function Min(x: real, y: real): real { if y < x then y else x }

  function QuarterTangent(t: Trig, deflection: real): real { t.tan(deflection / 4.0) }

  function WithinDeviation(r: real, quarter: real, maxDeviation: real): real {
    if quarter > FLAT_CORNER then Min(r, maxDeviation / quarter) else r
  }

  function WithinRequest(r: real, requested: Option<real>): real {
    match requested
    case None => r
    case Some(cap) => Min(r, Max(cap, 0.0))
  }

  function BlendRadius(t: Trig, deflection: real, chordIn: real, chordOut: real, maxDeviation: real, requested: Option<real>)
    : real
  {
    if deflection >= MaxBlendableDeflection(t) then 0.0
    else
      var r := WithinRequest(WithinDeviation(CHORD_FRACTION * Min(chordIn, chordOut), QuarterTangent(t, deflection), maxDeviation),
                             requested);
      if r < MIN_USEFUL_BLEND then 0.0 else r
  }

  method ComputeBlendRadius(t: Trig, deflection: real, chordIn: real, chordOut: real, maxDeviation: real, requested: Option<real>)
    returns (radius: real)
    ensures radius == BlendRadius(t, deflection, chordIn, chordOut, maxDeviation, requested)
  {
    if deflection >= MaxBlendableDeflection(t) {
      return 0.0;
    }
    var r := CHORD_FRACTION * Min(chordIn, chordOut);
    var quarter := QuarterTangent(t, deflection);
    if quarter > FLAT_CORNER {
      r := Min(r, maxDeviation / quarter);
    }
    if requested.Some? {
      r := Min(r, Max(requested.value, 0.0));
    }
    radius := if r < MIN_USEFUL_BLEND then 0.0 else r;
  }

  function Stray(r: real, quarter: real): real { r * quarter }

  /**
   A radius the controller can run at a corner turned by `phi`: short of 170 degrees, at least a millimetre,
   within two fifths of both chords, within the deviation budget, and no more than asked for.
   */
  ghost predicate Blendable(t: Trig, phi: real, chordIn: real, chordOut: real, maxDeviation: real, requested: Option<real>, r: real) {
    && 180.0 * phi < 170.0 * t.pi
    && 0.001 <= r
    && r <= 0.4 * chordIn && r <= 0.4 * chordOut
    && (t.tan(phi / 4.0) > 0.000000001 ==> Stray(r, t.tan(phi / 4.0)) <= maxDeviation)
    && (requested.Some? ==> r <= requested.value)
  }

  lemma DeviationExact(r: real, x: real, quarter: real, maxDeviation: real)
    ensures r <= WithinDeviation(x, quarter, maxDeviation)
       <==> r <= x && (quarter > FLAT_CORNER ==> Stray(r, quarter) <= maxDeviation)
  {
    if quarter > FLAT_CORNER {
      var q := maxDeviation / quarter;
      assert quarter * q == maxDeviation;
      if r <= q {
        NonNegative(quarter, q - r, quarter * (q - r));
      } else {
        Positive(quarter, r - q, quarter * (r - q));
      }
    }
  }

  /** The blend is the greatest radius that can be run, or zero when none can. */
  lemma GreatestBlend(t: Trig, deflection: real, chordIn: real, chordOut: real, maxDeviation: real, requested: Option<real>)
    ensures var r := BlendRadius(t, deflection, chordIn, chordOut, maxDeviation, requested);
            && (r == 0.0 || Blendable(t, deflection, chordIn, chordOut, maxDeviation, requested, r))
            && forall b :: Blendable(t, deflection, chordIn, chordOut, maxDeviation, requested, b) ==> b <= r
  {
    hide WithinDeviation, Stray;
    var quarter, x := QuarterTangent(t, deflection), CHORD_FRACTION * Min(chordIn, chordOut);
    var r := BlendRadius(t, deflection, chordIn, chordOut, maxDeviation, requested);
    DeviationExact(r, x, quarter, maxDeviation);
    forall b | Blendable(t, deflection, chordIn, chordOut, maxDeviation, requested, b) ensures b <= r {
      DeviationExact(b, x, quarter, maxDeviation);
    }
  }

  // --- the angle of a corner ---

  function DotOf(u: Vec3, v: Vec3, w: Vec3): real {
    (v.x - u.x) * (w.x - v.x) + (v.y - u.y) * (w.y - v.y) + (v.z - u.z) * (w.z - v.z)
  }

  /** At `at` the path from `prev` to `next` turns by `phi`: from straight on, at zero, to straight back, at half a turn. */
  ghost predicate TurnsBy(t: Trig, prev: Vec3, at: Vec3, next: Vec3, phi: real) {
    0.0 <= phi <= t.pi && Chords(t, prev, at, next) * t.cos(phi) == DotOf(prev, at, next)
  }

  lemma Lagrange(u: Vec3, v: Vec3)
    ensures Dot(u, u) * Dot(v, v) - Dot(u, v) * Dot(u, v) == Dot(Cross(u, v), Cross(u, v))
  {
  }

  lemma CauchySchwarz(u: Vec3, v: Vec3)
    ensures Dot(u, v) * Dot(u, v) <= Dot(u, u) * Dot(v, v)
  {
    hide Cross;
    var w := Cross(u, v);
    Square(w.x, w.x * w.x);
    Square(w.y, w.y * w.y);
    Square(w.z, w.z * w.z);
    assert Dot(w, w) >= 0.0;
    hide Dot;
    Lagrange(u, v);
  }

  lemma RatioInRange(l: real, d: real, p: real)
    requires l > 0.0 && p == l * l && d * d <= p
    ensures -1.0 <= d / l <= 1.0 && l * (d / l) == d
  {
    if d > l {
      Positive(d - l, d + l, d * d - p);
    } else if d < -l {
      Positive(d - l, d + l, d * d - p);
    }
    var c := d / l;
    assert l * c == d;
    CancelAtMost(l, c, 1.0, d, l);
    CancelAtMost(l, -1.0, c, -l, d);
  }

  /** There is a corner exactly when both segments have a length, and then the deflection is what the path turns by. */
  lemma CornerExact(t: Trig, prev: Vec3, at: Vec3, next: Vec3)
    requires t.Lawful()
    ensures CornerDeflection(t, prev, at, next).None?
       <==> Chord(t, prev, at) <= 0.000000000001 || Chord(t, at, next) <= 0.000000000001
    ensures CornerDeflection(t, prev, at, next).Some? ==> TurnsBy(t, prev, at, next, CornerDeflection(t, prev, at, next).value)
  {
    hide Chord, DotOf;
    var li, lo := Chord(t, prev, at), Chord(t, at, next);
    if CornerDeflection(t, prev, at, next).Some? {
      CornerDots(t, prev, at, next);
      var l, d := Chords(t, prev, at, next), DotOf(prev, at, next);
      Positive(li, lo, l);
      hide Chords;
      RatioInRange(l, d, l * l);
      assert t.AcosLaw(d / l);
      var phi := CornerDeflection(t, prev, at, next).value;
      assert phi == t.acos(d / l) && t.cos(phi) == d / l;
      assert l * t.cos(phi) == d;
    }
  }

  lemma CornerDots(t: Trig, prev: Vec3, at: Vec3, next: Vec3)
    requires t.Lawful()
    ensures var l, d := Chords(t, prev, at, next), DotOf(prev, at, next);
            d * d <= l * l && Dot(Minus(at, prev), Minus(next, at)) == d
  {
    hide Chord;
    ChordDot(t, prev, at);
    ChordDot(t, at, next);
    var u, v := Minus(at, prev), Minus(next, at);
    CauchySchwarz(u, v);
    Regroup(Chord(t, prev, at), Chord(t, at, next), Dot(u, u), Dot(v, v));
  }

  lemma ChordDot(t: Trig, u: Vec3, v: Vec3)
    requires t.Lawful()
    ensures Chord(t, u, v) * Chord(t, u, v) == Dot(Minus(v, u), Minus(v, u))
  {
    hide Chord;
    ChordExact(t, u, v);
  }

  lemma Regroup(x: real, y: real, p: real, q: real)
    requires x * x == p && y * y == q
    ensures (x * y) * (x * y) == p * q
  {
  }

  /** An angle up to half a turn is known by its cosine. */
  lemma SameArc(t: Trig, x: real, y: real)
    requires t.Lawful() && 0.0 <= x <= t.pi && 0.0 <= y <= t.pi && t.cos(x) == t.cos(y)
    ensures x == y
  {
    SameCosine(t, x, y);
    if t.SameDirection(x, y) {
      assert t.InjectiveLaw(x, y);
      var k: int :| x == t.Turned(y, k);
      TurnCount(x - y, t.pi, k);
    } else {
      assert t.InjectiveLaw(x, -y);
      var k: int :| x == t.Turned(-y, k);
      TurnCount(x + y, t.pi, k);
    }
  }

  lemma TurnCount(x: real, p: real, k: int)
    requires p > 0.0 && -p <= x <= 2.0 * p && x == 2.0 * p * (k as real)
    ensures x == 0.0 || x == 2.0 * p
  {
    var r := k as real;
    CancelAtMost(p, -1.0, 2.0 * r, -p, x);
    CancelAtMost(p, 2.0 * r, 2.0, x, 2.0 * p);
    assert k == 0 || k == 1;
  }

  /** Where both segments have a length the path turns by one angle only. */
  lemma OneTurning(t: Trig, prev: Vec3, at: Vec3, next: Vec3, phi: real, psi: real)
    requires t.Lawful() && Chord(t, prev, at) > 0.0 && Chord(t, at, next) > 0.0
    requires TurnsBy(t, prev, at, next, phi) && TurnsBy(t, prev, at, next, psi)
    ensures phi == psi
  {
    hide Chord, DotOf;
    var l := Chords(t, prev, at, next);
    Positive(Chord(t, prev, at), Chord(t, at, next), l);
    SameFactor(l, t.cos(phi), t.cos(psi), DotOf(prev, at, next));
    SameArc(t, phi, psi);
  }

  // --- straight segments ---

  function Ceil(x: real): int { -(-x).Floor }

  function SampleCount(distance: real, step: real, maxSamples: nat): (count: nat)
    requires step > 0.0 && maxSamples >= 2
    ensures 2 <= count <= maxSamples
  {
    if distance <= step then 2
    else
      CancelAtMost(step, 1.0, distance / step, step, distance);
      var wanted := Ceil(distance / step) + 1;
      if wanted < maxSamples then wanted else maxSamples
  }

  /** The configuration chosen at one point of a segment, and its joint rates there. */
  datatype Sample = Sample(config: Config, rates: Config)

  function Parameter(k: nat, count: nat): real
    requires count >= 2
  {
    k as real / (count - 1) as real
  }

  function SamplePose(arm: Arm, from: Config, to: Pose, k: nat, count: nat): Pose
    requires count >= 2
  {
    arm.geometry.between(Flange(arm.t, arm.dh, from), to, Parameter(k, count))
  }

  function TakeSample(arm: Arm, from: Config, to: Pose, seed: Config, k: nat, count: nat): Option<Sample>
    requires arm.Usable() && count >= 2
  {
    match SelectNearest(Filtered(arm.t, arm.dh, SamplePose(arm, from, to, k, count), arm.limits.positionMin, arm.limits.positionMax), seed)
    case None => None
    case Some(q) =>
      if k > 0 && ConfigurationDistance(q, seed) > arm.t.pi then None
      else
        match arm.geometry.unitRates(q, Flange(arm.t, arm.dh, from), to)
        case None => None
        case Some(rates) => Some(Sample(q, rates))
  }

  /** What sample `k` is seeded with: the sample before it, or the start. */
  function Seed(from: Config, samples: seq<Sample>, k: nat): Config
    requires k <= |samples|
  {
    if k == 0 then from else samples[k - 1].config
  }

  /** The first `n` samples. */
  function Walk(arm: Arm, from: Config, to: Pose, n: nat, count: nat): (samples: Option<seq<Sample>>)
    requires arm.Usable() && count >= 2
    ensures samples.Some? ==> |samples.value| == n
  {
    if n == 0 then Some([])
    else
      match Walk(arm, from, to, n - 1, count)
      case None => None
      case Some(before) =>
        match TakeSample(arm, from, to, Seed(from, before, n - 1), n - 1, count)
        case None => None
        case Some(s) => Some(before + [s])
  }

  function Distance(arm: Arm, from: Config, to: Pose): real { Chord(arm.t, Flange(arm.t, arm.dh, from).p, to.p) }

  function Samples(arm: Arm, from: Config, to: Pose, step: real, maxSamples: nat): Option<seq<Sample>>
    requires arm.Usable() && step > 0.0 && maxSamples >= 2
  {
    var count := SampleCount(Distance(arm, from, to), step, maxSamples);
    Walk(arm, from, to, count, count)
  }

  function RatesOf(samples: seq<Sample>): (rates: seq<Config>)
    ensures |rates| == |samples|
  {
    seq(|samples|, k requires 0 <= k < |samples| => samples[k].rates)
  }

  function SampledRates(arm: Arm, from: Config, to: Pose, step: real, maxSamples: nat): Option<seq<Config>>
    requires arm.Usable() && step > 0.0 && maxSamples >= 2
  {
    match Samples(arm, from, to, step, maxSamples)
    case None => None
    case Some(samples) => Some(RatesOf(samples))
  }

  lemma RatesOfAppend(samples: seq<Sample>, s: Sample)
    ensures RatesOf(samples + [s]) == RatesOf(samples) + [s.rates]
  {
  }

  lemma {:induction false} WalkStops(arm: Arm, from: Config, to: Pose, n: nat, m: nat, count: nat)
    requires arm.Usable() && count >= 2 && n <= m && Walk(arm, from, to, n, count).None?
    ensures Walk(arm, from, to, m, count).None?
  {
    hide TakeSample;
    if n < m {
      WalkStops(arm, from, to, n, m - 1, count);
    }
  }

  method SampleLinearSegment(arm: Arm, from: Config, to: Pose, step: real, maxSamples: nat) returns (rates: Option<seq<Config>>)
    requires arm.Usable() && step > 0.0 && maxSamples >= 2
    ensures rates == SampledRates(arm, from, to, step, maxSamples)
  {
    hide TakeSample, SampleCount, Parameter, Filtered, SelectNearest, Flange, ConfigurationDistance, Norm, RatesOf;
    var pose := ForwardKinematics(arm.t, arm.dh, from);
    var count := SampleCount(Chord(arm.t, pose.p, to.p), step, maxSamples);
    var out := [];
    var seed := from;
    ghost var samples: seq<Sample> := [];
    assert RatesOf(samples) == [];
    for k := 0 to count
      invariant Walk(arm, from, to, k, count) == Some(samples)
      invariant seed == Seed(from, samples, k)
      invariant out == RatesOf(samples)
    {
      var at := arm.geometry.between(pose, to, Parameter(k, count));
      var sols := InverseKinematicsFiltered(arm.t, arm.dh, at, arm.limits.positionMin, arm.limits.positionMax);
      var nearest := SelectNearest(sols, seed);
      var qd := if nearest.Some? then arm.geometry.unitRates(nearest.value, pose, to) else None;
      SampleIs(arm, from, to, seed, k, count, pose, nearest, qd);
      if nearest.None? || (k > 0 && ConfigurationDistance(nearest.value, seed) > arm.t.pi) || qd.None? {
        WalkStops(arm, from, to, k + 1, count, count);
        return None;
      }
      out := out + [qd.value];
      seed := nearest.value;
      RatesOfAppend(samples, Sample(nearest.value, qd.value));
      samples := samples + [Sample(nearest.value, qd.value)];
    }
    rates := Some(out);
  }

  lemma SampleIs(arm: Arm, from: Config, to: Pose, seed: Config, k: nat, count: nat, pose: Pose,
                 nearest: Option<Config>, qd: Option<Config>)
    requires arm.Usable() && count >= 2 && pose == Flange(arm.t, arm.dh, from)
    requires nearest == SelectNearest(Filtered(arm.t, arm.dh, arm.geometry.between(pose, to, Parameter(k, count)),
                                               arm.limits.positionMin, arm.limits.positionMax), seed)
    requires nearest.Some? ==> qd == arm.geometry.unitRates(nearest.value, pose, to)
    ensures TakeSample(arm, from, to, seed, k, count)
         == if nearest.None? || (k > 0 && ConfigurationDistance(nearest.value, seed) > arm.t.pi) || qd.None? then None
            else Some(Sample(nearest.value, qd.value))
  {
    hide Filtered, SelectNearest, Flange, ConfigurationDistance;
  }

  // --- what a sampled segment promises ---

  /** Samples are no further apart than the step unless the cap was hit. */
  lemma SpacingExact(distance: real, step: real, maxSamples: nat)
    requires step > 0.0 && maxSamples >= 2
    ensures var count := SampleCount(distance, step, maxSamples);
            && Parameter(0, count) == 0.0 && Parameter(count - 1, count) == 1.0
            && (count < maxSamples ==> distance <= step * (count - 1) as real)
            && (count > 2 ==> step * (count - 2) as real < distance)
  {
    var count := SampleCount(distance, step, maxSamples);
    Whole((count - 1) as real);
    if distance > step {
      var x := distance / step;
      CancelAtMost(step, 1.0, x, step, distance);
      var n := Ceil(x);
      Compare(step, x, n as real, distance);
      Compare(step, x, (count - 2) as real, distance);
      assert (count - 2) as real <= (n - 1) as real < x <= n as real;
    }
  }

  /** A walk is exactly a list in which every sample was taken from the one before it. */
  lemma {:induction false} WalkExact(arm: Arm, from: Config, to: Pose, n: nat, count: nat, samples: seq<Sample>)
    requires arm.Usable() && count >= 2
    ensures Walk(arm, from, to, n, count) == Some(samples)
       <==> |samples| == n
            && forall k :: 0 <= k < n ==> TakeSample(arm, from, to, Seed(from, samples, k), k, count) == Some(samples[k])
  {
    hide TakeSample, Seed, Arm.Usable;
    if n > 0 && |samples| == n {
      var before := samples[..n - 1];
      WalkExact(arm, from, to, n - 1, count, before);
      assert samples == before + [samples[n - 1]];
      SeedsOfPrefix(from, samples, n - 1);
      assert Walk(arm, from, to, n, count) == Some(samples)
        <==> Walk(arm, from, to, n - 1, count) == Some(before)
             && TakeSample(arm, from, to, Seed(from, before, n - 1), n - 1, count) == Some(samples[n - 1]);
    }
  }

  lemma SeedsOfPrefix(from: Config, samples: seq<Sample>, n: nat)
    requires n <= |samples|
    ensures forall k :: 0 <= k <= n ==> Seed(from, samples[..n], k) == Seed(from, samples, k)
  {
  }

  /** No joint moves further between `a` and `b` than the branch test allows. */
  ghost predicate SameBranchStep(t: Trig, a: Config, b: Config) {
    && ConfigurationDistance(b, a) <= t.pi
    && (forall i :: 0 <= i < 6 ==> Abs(b[i] - a[i]) <= t.pi)
    && (forall i :: 0 <= i < 2 ==> Abs(b[i] - a[i]) <= t.pi / 4.0)
    && Abs(b[2] - a[2]) <= t.pi / 3.0
  }

  lemma WithinTurn(t: Trig, a: Config, b: Config)
    requires t.pi > 0.0 && ConfigurationDistance(b, a) <= t.pi
    ensures SameBranchStep(t, a, b)
  {
    hide DistanceUpTo;
    DistanceBounds(b, a, 6);
    forall i | 0 <= i < 6
      ensures Abs(b[i] - a[i]) <= t.pi
      ensures i < 2 ==> Abs(b[i] - a[i]) <= t.pi / 4.0
      ensures i == 2 ==> Abs(b[i] - a[i]) <= t.pi / 3.0
    {
      assert BRANCH_WEIGHTS[i] * Abs(b[i] - a[i]) <= t.pi;
      assert BRANCH_WEIGHTS[i] >= 1.0;
    }
  }

  /** A legal answer for `pose`, as near `seed` as any. */
  ghost predicate NearestCandidate(arm: Arm, pose: Pose, seed: Config, q: Config)
    requires arm.Usable()
  {
    && Candidate(arm.t, arm.dh, arm.limits, pose, q)
    && forall v :: Candidate(arm.t, arm.dh, arm.limits, pose, v) ==> ConfigurationDistance(q, seed) <= ConfigurationDistance(v, seed)
  }

  /** What sample `k` of `n` looks at: the pose that far along the segment, from the configuration before. */
  ghost predicate Sampled(arm: Arm, from: Config, to: Pose, n: nat, samples: seq<Sample>, k: nat)
    requires arm.Usable() && k < |samples| && 2 <= n
  {
    var pose := arm.geometry.between(Flange(arm.t, arm.dh, from), to, k as real / (n - 1) as real);
    && NearestCandidate(arm, pose, if k == 0 then from else samples[k - 1].config, samples[k].config)
    && (k > 0 ==> SameBranchStep(arm.t, samples[k - 1].config, samples[k].config))
    && arm.geometry.unitRates(samples[k].config, Flange(arm.t, arm.dh, from), to) == Some(samples[k].rates)
  }

  /** The segment cannot be followed past the samples taken: no legal answer, only answers a branch away, or no rates. */
  ghost predicate Blocked(arm: Arm, from: Config, to: Pose, n: nat, samples: seq<Sample>)
    requires arm.Usable() && 2 <= n
  {
    var k := |samples|;
    var pose := arm.geometry.between(Flange(arm.t, arm.dh, from), to, k as real / (n - 1) as real);
    var seed := if k == 0 then from else samples[k - 1].config;
    || (forall q :: !Candidate(arm.t, arm.dh, arm.limits, pose, q))
    || (k > 0 && forall q :: Candidate(arm.t, arm.dh, arm.limits, pose, q) ==> ConfigurationDistance(q, seed) > arm.t.pi)
    || (exists q :: NearestCandidate(arm, pose, seed, q) && arm.geometry.unitRates(q, Flange(arm.t, arm.dh, from), to) == None)
  }

  /** As few samples as keep to the step, at least two, and at most the cap. */
  ghost predicate Spaced(d: real, step: real, maxSamples: nat, n: nat) {
    2 <= n <= maxSamples && (n < maxSamples ==> d <= step * (n - 1) as real) && (n > 2 ==> step * (n - 2) as real < d)
  }

  lemma TakenSample(arm: Arm, from: Config, to: Pose, samples: seq<Sample>, k: nat, n: nat)
    requires arm.Lawful() && n >= 2 && k <= |samples|
    ensures var taken := TakeSample(arm, from, to, Seed(from, samples, k), k, n);
            && (taken.Some? && k < |samples| && taken.value == samples[k] ==> Sampled(arm, from, to, n, samples, k))
            && (taken.None? && k == |samples| ==> Blocked(arm, from, to, n, samples))
  {
    hide Branches, Filtered, SelectNearest, ConfigurationDistance, SameBranchStep, Candidate, Flange;
    var seed, pose := Seed(from, samples, k), SamplePose(arm, from, to, k, n);
    NearestIsResolved(arm, pose, seed);
    ResolvePoseExact(arm.t, arm.dh, arm.limits, pose, seed, 0);
    var chosen := SelectNearest(Filtered(arm.t, arm.dh, pose, arm.limits.positionMin, arm.limits.positionMax), seed);
    if chosen.Some? {
      assert NearestCandidate(arm, pose, seed, chosen.value);
      if ConfigurationDistance(chosen.value, seed) <= arm.t.pi {
        WithinTurn(arm.t, seed, chosen.value);
      }
    }
  }

  lemma NearestIsResolved(arm: Arm, pose: Pose, seed: Config)
    requires arm.Usable()
    ensures var r := ResolvePose(arm.t, arm.dh, arm.limits, pose, seed, 0);
            SelectNearest(Filtered(arm.t, arm.dh, pose, arm.limits.positionMin, arm.limits.positionMax), seed)
            == if r.Ok? then Some(r.value) else None
  {
    hide Branches, TurnsFrom;
  }

  lemma {:induction false} WalkBlocked(arm: Arm, from: Config, to: Pose, n: nat, count: nat) returns (samples: seq<Sample>)
    requires arm.Usable() && count >= 2 && Walk(arm, from, to, n, count).None?
    ensures |samples| < n && Walk(arm, from, to, |samples|, count) == Some(samples)
    ensures TakeSample(arm, from, to, Seed(from, samples, |samples|), |samples|, count).None?
  {
    hide TakeSample;
    if Walk(arm, from, to, n - 1, count).None? {
      samples := WalkBlocked(arm, from, to, n - 1, count);
    } else {
      samples := Walk(arm, from, to, n - 1, count).value;
    }
  }

  lemma WalkSampled(arm: Arm, from: Config, to: Pose, n: nat, count: nat, samples: seq<Sample>)
    requires arm.Lawful() && count >= 2 && Walk(arm, from, to, n, count) == Some(samples)
    ensures forall k :: 0 <= k < n ==> Sampled(arm, from, to, count, samples, k)
  {
    hide TakeSample, Sampled, Blocked, Walk;
    WalkExact(arm, from, to, n, count, samples);
    forall k | 0 <= k < n ensures Sampled(arm, from, to, count, samples, k) {
      TakenSample(arm, from, to, samples, k, count);
    }
  }

  /** The rates are those of these samples, which go along the segment from its start to its end. */
  ghost predicate Follows(arm: Arm, from: Config, to: Pose, step: real, maxSamples: nat, samples: seq<Sample>, rates: seq<Config>)
    requires arm.Usable()
  {
    && Spaced(Chord(arm.t, Flange(arm.t, arm.dh, from).p, to.p), step, maxSamples, |samples|)
    && |rates| == |samples|
    && forall k :: 0 <= k < |samples| ==> rates[k] == samples[k].rates && Sampled(arm, from, to, |samples|, samples, k)
  }

  /** No such samples: the segment is blocked after the first few. */
  ghost predicate Stuck(arm: Arm, from: Config, to: Pose, step: real, maxSamples: nat, n: nat, samples: seq<Sample>)
    requires arm.Usable()
  {
    && Spaced(Chord(arm.t, Flange(arm.t, arm.dh, from).p, to.p), step, maxSamples, n)
    && |samples| < n
    && (forall k :: 0 <= k < |samples| ==> Sampled(arm, from, to, n, samples, k))
    && Blocked(arm, from, to, n, samples)
  }

  /**
   A segment that is sampled yields the unit rates of every sample, from its start to its end, as few as the
   step and the cap allow, each the legal answer nearest the one before and no two neighbours a branch apart.
   One that is not is blocked on the way.
   */
  lemma SegmentFollowed(arm: Arm, from: Config, to: Pose, step: real, maxSamples: nat)
    requires arm.Lawful() && step > 0.0 && maxSamples >= 2
    ensures var r := SampledRates(arm, from, to, step, maxSamples);
            && (r.Some? ==> exists samples :: Follows(arm, from, to, step, maxSamples, samples, r.value))
            && (r.None? ==> exists n, samples :: Stuck(arm, from, to, step, maxSamples, n, samples))
  {
    hide SampleCount, Parameter, TakeSample, Sampled, Blocked, Walk;
    var d := Distance(arm, from, to);
    var count := SampleCount(d, step, maxSamples);
    SpacingExact(d, step, maxSamples);
    var walk := Walk(arm, from, to, count, count);
    if walk.Some? {
      WalkExact(arm, from, to, count, count, walk.value);
      WalkSampled(arm, from, to, count, count, walk.value);
      assert Follows(arm, from, to, step, maxSamples, walk.value, RatesOf(walk.value));
    } else {
      var samples := WalkBlocked(arm, from, to, count, count);
      WalkExact(arm, from, to, |samples|, count, samples);
      WalkSampled(arm, from, to, |samples|, count, samples);
      TakenSample(arm, from, to, samples, |samples|, count);
      assert Stuck(arm, from, to, step, maxSamples, count, samples);
    }
  }

  /**
   The branch test is skipped at the first sample. The walk starts on the configuration the arm stands in if
   and only if that configuration's wrist roll can be recovered from its pose.
   */
  lemma StartsWhereItStands(arm: Arm, from: Config, to: Pose, step: real, maxSamples: nat)
    requires arm.Lawful() && step > 0.0 && maxSamples >= 2 && arm.limits.Contains(from)
    requires arm.geometry.between(Flange(arm.t, arm.dh, from), to, 0.0) == Flange(arm.t, arm.dh, from)
    ensures Samples(arm, from, to, step, maxSamples).Some? ==>
              (Samples(arm, from, to, step, maxSamples).value[0].config == from <==> RollRecoverable(arm.t, from))
  {
    hide SampleCount, Flange, ResolvePose, Filtered, SelectNearest, RollRecoverable, Walk;
    if Samples(arm, from, to, step, maxSamples).Some? {
      var count := SampleCount(Distance(arm, from, to), step, maxSamples);
      var samples := Samples(arm, from, to, step, maxSamples).value;
      WalkExact(arm, from, to, count, count, samples);
      assert Parameter(0, count) == 0.0;
      assert TakeSample(arm, from, to, from, 0, count) == Some(samples[0]);
      NearestIsResolved(arm, Flange(arm.t, arm.dh, from), from);
      PoseRoundTrip(arm.t, arm.dh, arm.limits, from, 0);
    }
  }
}
