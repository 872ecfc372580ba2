/** Joint limits and the scaling convention. */
module LimitsModel {
  import opened Results
  import opened Kinematics

  datatype Limits = Limits(positionMin: Config, positionMax: Config, velocityMax: Config, accelerationMax: Config)
  {
    /** The same position limits, with velocities and accelerations multiplied by the effective scales. */
    function Scaled(scaling: PlanScaling): Limits {
      this.(velocityMax := Times(velocityMax, ClampScale(scaling.velocity)),
            accelerationMax := Times(accelerationMax, ClampScale(scaling.acceleration)))
    }

    predicate Contains(q: Config) { forall i :: 0 <= i < 6 ==> positionMin[i] <= q[i] <= positionMax[i] }

    /** The first joint from `i` on that is outside its position limits. */
    function FirstViolation(q: Config, i: nat): (joint: Option<nat>)
      requires i <= 6
      ensures joint.None? <==> forall j :: i <= j < 6 ==> positionMin[j] <= q[j] <= positionMax[j]
      ensures joint.Some? ==>
                && i <= joint.value < 6
                && !(positionMin[joint.value] <= q[joint.value] <= positionMax[joint.value])
                && forall j :: i <= j < joint.value ==> positionMin[j] <= q[j] <= positionMax[j]
      decreases 6 - i
    {
      if i == 6 then None
      else if q[i] < positionMin[i] || q[i] > positionMax[i] then Some(i)
      else FirstViolation(q, i + 1)
    }
  }

  function By(x: real, k: real): real { x * k }

  function Times(c: Config, k: real): Config { seq(6, i requires 0 <= i < 6 => By(c[i], k)) }

  datatype PlanScaling = PlanScaling(velocity: real, acceleration: real)

  /** The scale in effect: a caller who left the field at zero gets full speed. */
  function ClampScale(s: real): real { if s > 0.0 && s <= 1.0 then s else 1.0 }

  /** A scale in (0, 1] multiplies every joint's limit and any other leaves it; position limits stay. */
  lemma ScaledExact(limits: Limits, scaling: PlanScaling)
    ensures var out := limits.Scaled(scaling);
            && out.positionMin == limits.positionMin && out.positionMax == limits.positionMax
            && forall i :: 0 <= i < 6 ==>
                 && out.velocityMax[i]
                    == (if 0.0 < scaling.velocity <= 1.0 then limits.velocityMax[i] * scaling.velocity else limits.velocityMax[i])
                 && out.accelerationMax[i]
                    == (if 0.0 < scaling.acceleration <= 1.0 then limits.accelerationMax[i] * scaling.acceleration
                        else limits.accelerationMax[i])
  {
    var out := limits.Scaled(scaling);
    forall i | 0 <= i < 6
      ensures out.velocityMax[i] == By(limits.velocityMax[i], ClampScale(scaling.velocity))
      ensures out.accelerationMax[i] == By(limits.accelerationMax[i], ClampScale(scaling.acceleration))
    {
    }
  }

  method ScaleLimits(limits: Limits, scaling: PlanScaling) returns (out: Limits)
    ensures out == limits.Scaled(scaling)
  {
    hide ClampScale, By;
    var sv, sa := ClampScale(scaling.velocity), ClampScale(scaling.acceleration);
    ghost var v, a := Times(limits.velocityMax, sv), Times(limits.accelerationMax, sa);
    out := limits;
    for i := 0 to 6
      invariant out.positionMin == limits.positionMin && out.positionMax == limits.positionMax
      invariant out.velocityMax == v[..i] + limits.velocityMax[i..]
      invariant out.accelerationMax == a[..i] + limits.accelerationMax[i..]
    {
      assert out.velocityMax[i] == limits.velocityMax[i] && out.accelerationMax[i] == limits.accelerationMax[i];
      out := out.(velocityMax := out.velocityMax[i := By(out.velocityMax[i], sv)],
                  accelerationMax := out.accelerationMax[i := By(out.accelerationMax[i], sa)]);
    }
  }
}
