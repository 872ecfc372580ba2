/** Whole-turn shifts of a solution, and the choice of the configuration nearest a seed. */
module Turns {
  import opened RealAlgebra
  import opened Results
  import opened Trigonometry
  import opened Poses
  import opened Kinematics
  import opened IkBranches
  import opened BranchProofs
  import opened Completeness

  // --- expansion over turns ---

  function TurnsFrom(t: Trig, sol: Config, lower: Config, upper: Config, acc: seq<real>): seq<Config>
    requires |acc| <= 6
    decreases 6 - |acc|, 4
  {
    if |acc| == 6 then [acc] else FirstTurns(t, sol, lower, upper, acc, 3)
  }

  /** The shifts that start with the first `n` of the turns -1, 0, 1. */
  function FirstTurns(t: Trig, sol: Config, lower: Config, upper: Config, acc: seq<real>, n: nat): seq<Config>
    requires |acc| < 6 && n <= 3
    decreases 6 - |acc|, n
  {
    if n == 0 then [] else FirstTurns(t, sol, lower, upper, acc, n - 1) + OneTurn(t, sol, lower, upper, acc, n - 2)
  }

  function OneTurn(t: Trig, sol: Config, lower: Config, upper: Config, acc: seq<real>, turn: int): seq<Config>
    requires |acc| < 6
    decreases 6 - |acc|, 0
  {
    var v := t.Turned(sol[|acc|], turn);
    if lower[|acc|] <= v <= upper[|acc|] then TurnsFrom(t, sol, lower, upper, acc + [v]) else []
  }

  lemma ThreeTurns(t: Trig, sol: Config, lower: Config, upper: Config, acc: seq<real>)
    requires |acc| < 6
    ensures TurnsFrom(t, sol, lower, upper, acc)
         == OneTurn(t, sol, lower, upper, acc, -1) + OneTurn(t, sol, lower, upper, acc, 0) + OneTurn(t, sol, lower, upper, acc, 1)
  {
    hide OneTurn;
    assert FirstTurns(t, sol, lower, upper, acc, 1) == OneTurn(t, sol, lower, upper, acc, -1);
    assert FirstTurns(t, sol, lower, upper, acc, 2) == FirstTurns(t, sol, lower, upper, acc, 1) + OneTurn(t, sol, lower, upper, acc, 0);
  }

  method ExpandTurns(t: Trig, sol: Config, lower: Config, upper: Config, i: nat, acc: array<real>, out: seq<Config>)
    returns (all: seq<Config>)
    requires i <= 6 && acc.Length == 6
    modifies acc
    ensures acc[..i] == old(acc[..i])
    ensures all == out + TurnsFrom(t, sol, lower, upper, old(acc[..i]))
    decreases 6 - i
  {
    hide Trig.Turned;
    if i == 6 {
      assert acc[..6] == acc[..];
      return out + [acc[..]];
    }
    all := out;
    ghost var prefix := acc[..i];
    for turn := -1 to 2
      invariant acc[..i] == prefix
      invariant all == out + FirstTurns(t, sol, lower, upper, prefix, turn + 1)
    {
      ghost var before := all;
      var v := t.Turned(sol[i], turn);
      if v >= lower[i] && v <= upper[i] {
        acc[i] := v;
        assert acc[..i + 1] == prefix + [v];
        all := ExpandTurns(t, sol, lower, upper, i + 1, acc, all);
        assert acc[..i] == acc[..i + 1][..i];
      }
      assert all == before + OneTurn(t, sol, lower, upper, prefix, turn);
    }
  }

  // --- exactness of the expansion ---

  /** What the solver hands over: every joint in `(-pi, pi]`. */
  predicate InPrincipalRange(t: Trig, q: Config) { forall i :: 0 <= i < 6 ==> -t.pi < q[i] <= t.pi }

  /** Limits no wider than one whole turn either way. */
  predicate OneTurnLimits(t: Trig, lower: Config, upper: Config) {
    forall i :: 0 <= i < 6 ==> -2.0 * t.pi <= lower[i] && upper[i] <= 2.0 * t.pi
  }

  /** `v` is a whole-turn shift of `sol` inside the limits, from joint `n` on. */
  ghost predicate Shift(t: Trig, sol: Config, lower: Config, upper: Config, v: Config, n: nat) {
    forall i :: n <= i < 6 ==> lower[i] <= v[i] <= upper[i] && t.Congruent(v[i], sol[i])
  }

  lemma OneTurnSuffices(t: Trig, x: real, y: real) returns (k: int)
    requires t.pi > 0.0 && -t.pi < y <= t.pi && -2.0 * t.pi <= x <= 2.0 * t.pi && t.Congruent(x, y)
    ensures -1 <= k <= 1 && x == t.Turned(y, k)
  {
    k :| x == t.Turned(y, k);
    var r, m := k as real, 2.0 * t.pi;
    Cancel(m, r, m * r, 2.0);
    Cancel(m, -r, m * -r, 2.0);
  }

  /** The expansion holds every shift inside the limits, by any number of turns, and nothing else. */
  lemma {:induction false} TurnsExact(t: Trig, sol: Config, lower: Config, upper: Config, acc: seq<real>, v: Config)
    requires t.pi > 0.0 && InPrincipalRange(t, sol) && OneTurnLimits(t, lower, upper) && |acc| <= 6
    ensures v in TurnsFrom(t, sol, lower, upper, acc) <==> acc <= v && Shift(t, sol, lower, upper, v, |acc|)
    decreases 6 - |acc|
  {
    hide Trig.Turned;
    var i := |acc|;
    if i == 6 {
      assert v[..6] == v;
      assert acc <= v <==> v == acc;
    } else {
      forall turn | -1 <= turn <= 1
        ensures v in OneTurn(t, sol, lower, upper, acc, turn)
           <==> acc + [t.Turned(sol[i], turn)] <= v && Shift(t, sol, lower, upper, v, i)
      {
        var a := acc + [t.Turned(sol[i], turn)];
        TurnsExact(t, sol, lower, upper, a, v);
        if a <= v {
          assert v[i] == a[i];
        }
      }
      ThreeTurns(t, sol, lower, upper, acc);
      if acc <= v && Shift(t, sol, lower, upper, v, i) {
        var k := OneTurnSuffices(t, v[i], sol[i]);
        assert v[..i + 1] == acc + [v[i]];
      }
    }
  }

  ghost predicate NoRepeats(s: seq<Config>) { forall i, j :: 0 <= i < j < |s| ==> s[i] != s[j] }

  lemma NoRepeatsAppend(s: seq<Config>, r: seq<Config>)
    requires NoRepeats(s) && NoRepeats(r)
    requires forall v :: v in s ==> v !in r
    ensures NoRepeats(s + r)
  {
    forall i, j | 0 <= i < j < |s + r| ensures (s + r)[i] != (s + r)[j] {
      if i < |s| <= j {
        assert s[i] in s && r[j - |s|] in r;
      }
    }
  }

  /** Each shift is listed once. */
  lemma {:induction false} TurnsOnce(t: Trig, sol: Config, lower: Config, upper: Config, acc: seq<real>)
    requires t.pi > 0.0 && InPrincipalRange(t, sol) && OneTurnLimits(t, lower, upper) && |acc| <= 6
    ensures NoRepeats(TurnsFrom(t, sol, lower, upper, acc))
    decreases 6 - |acc|
  {
    var i := |acc|;
    if i < 6 {
      var a, b, c := OneTurn(t, sol, lower, upper, acc, -1), OneTurn(t, sol, lower, upper, acc, 0), OneTurn(t, sol, lower, upper, acc, 1);
      forall turn | -1 <= turn <= 1
        ensures NoRepeats(OneTurn(t, sol, lower, upper, acc, turn))
        ensures forall v :: v in OneTurn(t, sol, lower, upper, acc, turn) ==> v[i] == t.Turned(sol[i], turn)
      {
        var next := acc + [t.Turned(sol[i], turn)];
        TurnsOnce(t, sol, lower, upper, next);
        forall v | v in OneTurn(t, sol, lower, upper, acc, turn) ensures v[i] == next[i] {
          TurnsExact(t, sol, lower, upper, next, v);
        }
      }
      ThreeTurns(t, sol, lower, upper, acc);
      assert t.Turned(sol[i], -1) < t.Turned(sol[i], 0) < t.Turned(sol[i], 1);
      NoRepeatsAppend(a, b);
      NoRepeatsAppend(a + b, c);
    }
  }

  // --- the filtered solver ---

  function ExpandAll(t: Trig, sols: seq<Config>, lower: Config, upper: Config): seq<Config> {
    if sols == [] then [] else
      ExpandAll(t, sols[..|sols| - 1], lower, upper) + TurnsFrom(t, sols[|sols| - 1], lower, upper, [])
  }

  function Filtered(t: Trig, dh: Dh, x: Pose, lower: Config, upper: Config): seq<Config>
    requires t.pi > 0.0 && dh.Proper()
  {
    ExpandAll(t, Branches(t, dh, x), lower, upper)
  }

  method InverseKinematicsFiltered(t: Trig, dh: Dh, x: Pose, lower: Config, upper: Config) returns (out: seq<Config>)
    requires t.pi > 0.0 && dh.Proper()
    ensures out == Filtered(t, dh, x, lower, upper)
  {
    hide Branches, TurnsFrom;
    out := [];
    var sols := InverseKinematics(t, dh, x);
    for i := 0 to |sols|
      invariant out == ExpandAll(t, sols[..i], lower, upper)
    {
      var acc := new real[6](_ => 0.0);
      out := ExpandTurns(t, sols[i], lower, upper, 0, acc, out);
      assert sols[..i + 1][..i] == sols[..i];
    }
    assert sols[..|sols|] == sols;
  }

  lemma {:induction false} InExpandAll(t: Trig, sols: seq<Config>, lower: Config, upper: Config, v: Config)
    ensures v in ExpandAll(t, sols, lower, upper) <==> exists b :: b in sols && v in TurnsFrom(t, b, lower, upper, [])
  {
    hide TurnsFrom;
    if sols != [] {
      var n := |sols| - 1;
      assert sols == sols[..n] + [sols[n]];
      InExpandAll(t, sols[..n], lower, upper, v);
      assert v in ExpandAll(t, sols, lower, upper)
        <==> v in ExpandAll(t, sols[..n], lower, upper) || v in TurnsFrom(t, sols[n], lower, upper, []);
    }
  }

  /** Branches come wrapped. */
  lemma BranchesInRange(t: Trig, dh: Dh, x: Pose, b: Config)
    requires t.pi > 0.0 && dh.Proper() && b in Branches(t, dh, x)
    ensures InPrincipalRange(t, b)
  {
    hide Branches, Listed, Unwrapped, WrapToPi;
    InBranches(t, dh, x, b);
    var theta1, theta5, theta3 :| Listed(t, dh, x, theta1, theta5, theta3) && b == Branch(t, dh, x, theta1, theta5, theta3);
    var q := Unwrapped(t, dh, x, theta1, theta5, theta3);
    forall i | 0 <= i < 6 ensures -t.pi < b[i] <= t.pi {
      WrapExact(t, q[i]);
    }
  }

  predicate InLimits(lower: Config, upper: Config, q: Config) { forall i :: 0 <= i < 6 ==> lower[i] <= q[i] <= upper[i] }

  /** The filtered list holds exactly the configurations inside the limits that agree with a branch up to whole turns. */
  lemma FilteredExact(t: Trig, dh: Dh, x: Pose, lower: Config, upper: Config, v: Config)
    requires t.Lawful() && dh.Proper() && OneTurnLimits(t, lower, upper)
    ensures v in Filtered(t, dh, x, lower, upper)
       <==> InLimits(lower, upper, v) && exists b :: b in Branches(t, dh, x) && SameDirections(t, v, b)
  {
    hide Branches, TurnsFrom, Trig.SameDirection, Trig.Congruent;
    var sols := Branches(t, dh, x);
    InExpandAll(t, sols, lower, upper, v);
    forall b | b in sols
      ensures v in TurnsFrom(t, b, lower, upper, []) <==> InLimits(lower, upper, v) && SameDirections(t, v, b)
    {
      BranchesInRange(t, dh, x, b);
      TurnsExact(t, b, lower, upper, [], v);
      forall i | 0 <= i < 6 ensures t.Congruent(v[i], b[i]) <==> t.SameDirection(v[i], b[i]) {
        CongruentIffSameDirection(t, v[i], b[i]);
      }
    }
  }

  // --- choosing the nearest ---

  const BRANCH_WEIGHTS := [4.0, 4.0, 3.0, 1.0, 1.0, 1.0]

  function Max(x: real, y: real): real { if x < y then y else x }

  /** The largest weighted move among the first `n` joints. */
  function DistanceUpTo(a: Config, b: Config, n: nat): real
    requires n <= 6
  {
    if n == 0 then 0.0 else Max(DistanceUpTo(a, b, n - 1), BRANCH_WEIGHTS[n - 1] * Abs(a[n - 1] - b[n - 1]))
  }

  function ConfigurationDistance(a: Config, b: Config): real { DistanceUpTo(a, b, 6) }

  lemma {:induction false} DistanceBounds(a: Config, b: Config, n: nat)
    requires n <= 6
    ensures 0.0 <= DistanceUpTo(a, b, n)
    ensures forall i :: 0 <= i < n ==> BRANCH_WEIGHTS[i] * Abs(a[i] - b[i]) <= DistanceUpTo(a, b, n)
    ensures DistanceUpTo(a, b, n) == 0.0 || exists i :: 0 <= i < n && DistanceUpTo(a, b, n) == BRANCH_WEIGHTS[i] * Abs(a[i] - b[i])
  {
    if n > 0 {
      DistanceBounds(a, b, n - 1);
    }
  }

  /** The distance is zero only between equal configurations. */
  lemma ZeroDistance(a: Config, b: Config)
    ensures ConfigurationDistance(a, b) == 0.0 <==> a == b
  {
    DistanceBounds(a, b, 6);
    if ConfigurationDistance(a, b) == 0.0 {
      forall i | 0 <= i < 6 ensures a[i] == b[i] {
        assert BRANCH_WEIGHTS[i] >= 1.0;
      }
    }
  }

  /** The distance is the least number that no weighted move of a joint exceeds; the first two joints weigh most. */
  lemma DistanceExact(a: Config, b: Config, m: real)
    ensures ConfigurationDistance(a, b) <= m
       <==> && 0.0 <= m && 4.0 * Abs(a[0] - b[0]) <= m && 4.0 * Abs(a[1] - b[1]) <= m && 3.0 * Abs(a[2] - b[2]) <= m
            && Abs(a[3] - b[3]) <= m && Abs(a[4] - b[4]) <= m && Abs(a[5] - b[5]) <= m
  {
    hide Abs;
    DistanceBounds(a, b, 6);
  }

  lemma NonNegativeDistance(a: Config, b: Config)
    ensures 0.0 <= ConfigurationDistance(a, b)
  {
    DistanceBounds(a, b, 6);
  }

  /** The first of the nearest solutions. */
  function SelectNearest(sols: seq<Config>, preferred: Config): Option<Config> {
    if sols == [] then None else
      var last := sols[|sols| - 1];
      match SelectNearest(sols[..|sols| - 1], preferred)
      case None => Some(last)
      case Some(best) =>
        Some(if ConfigurationDistance(last, preferred) < ConfigurationDistance(best, preferred) then last else best)
  }

  /** The choice is in the list, none is nearer, and those before it are farther. */
  ghost predicate FirstNearest(sols: seq<Config>, preferred: Config, i: nat) {
    && i < |sols|
    && (forall j :: 0 <= j < |sols| ==> ConfigurationDistance(sols[i], preferred) <= ConfigurationDistance(sols[j], preferred))
    && (forall j :: 0 <= j < i ==> ConfigurationDistance(sols[i], preferred) < ConfigurationDistance(sols[j], preferred))
  }

  lemma {:induction false} FirstNearestChosen(sols: seq<Config>, preferred: Config) returns (i: nat)
    requires sols != []
    ensures FirstNearest(sols, preferred, i) && SelectNearest(sols, preferred) == Some(sols[i])
  {
    hide ConfigurationDistance;
    var n := |sols| - 1;
    assert sols == sols[..n] + [sols[n]];
    i := n;
    if n > 0 {
      var j := FirstNearestChosen(sols[..n], preferred);
      if ConfigurationDistance(sols[j], preferred) <= ConfigurationDistance(sols[n], preferred) {
        i := j;
      }
    }
  }

  lemma SelectNearestExact(sols: seq<Config>, preferred: Config)
    ensures SelectNearest(sols, preferred).None? <==> sols == []
    ensures sols != [] ==>
              var q := SelectNearest(sols, preferred).value;
              && q in sols
              && (forall v :: v in sols ==> ConfigurationDistance(q, preferred) <= ConfigurationDistance(v, preferred))
              && exists i: nat :: FirstNearest(sols, preferred, i) && q == sols[i]
  {
    hide ConfigurationDistance;
    if sols != [] {
      var i := FirstNearestChosen(sols, preferred);
    }
  }
}
