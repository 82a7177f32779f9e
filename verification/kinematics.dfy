/** Circular-orbit kinematics: where a body sits, relative to the centre of
    its orbit, after a number of animation ticks. The trigonometry is left
    uninterpreted: π, cos and sin are parameters, and the lemmas that need
    laws of them take those laws as hypotheses. */
module Kinematics {

  /** Pixels per AU of orbit radius. */
  const RadiusScale: real := 200.0
  /** Kilometres of diameter per pixel. */
  const DiameterScale: real := 400.0
  /** Animation ticks per simulated day. */
  const TicksPerDay: int := 10

  /** Math.PI, Math.cos and Math.sin. */
  datatype Trig = Trig(pi: real, cos: real -> real, sin: real -> real)

  datatype Vec = Vec(x: real, y: real)

  /** cos and sin repeat after a full turn of 2π. */
  ghost predicate FullTurnLaw(t: Trig)
  {
    forall a: real, b: real :: b == a + 2.0 * t.pi ==> t.cos(b) == t.cos(a) && t.sin(b) == t.sin(a)
  }

  /** cos and sin change sign after half a turn. */
  ghost predicate HalfTurnLaw(t: Trig)
  {
    forall a: real, b: real :: b == a + t.pi ==> t.cos(b) == -t.cos(a) && t.sin(b) == -t.sin(a)
  }

  /** The angle, in radians, of a body with the given period (days) after
      `dt` ticks: `dt*2*PI/(P*10)`. No reduction to [0, 2π) is made. */
  function Angle(t: Trig, dt: int, period: real): real
    requires period > 0.0
  {
    ((dt * 2) as real) * t.pi / (period * (TicksPerDay as real))
  }

  /** The body's offset from the centre of its orbit, in pixels: the scaled
      radius times (cos, sin) of the angle. */
  function Offset(t: Trig, dt: int, period: real, radius: real): Vec
    requires period > 0.0
  {
    var rs := radius * RadiusScale;
    var a := Angle(t, dt, period);
    Vec(rs * t.cos(a), rs * t.sin(a))
  }

  /** At tick 0 every body is at angle 0, on the positive x axis at its scaled radius. */
  lemma OffsetAtStart(t: Trig, period: real, radius: real)
    requires period > 0.0
    requires t.cos(0.0) == 1.0 && t.sin(0.0) == 0.0
    ensures Offset(t, 0, period, radius) == Vec(radius * RadiusScale, 0.0)
  {
    assert Angle(t, 0, period) == 0.0;
  }

  /** Advancing the clock by `k` ticks turns the angle by k/(10 P) of 2π. */
  lemma AngleAdvance(t: Trig, dt: int, k: int, period: real)
    requires period > 0.0
    ensures Angle(t, dt + k, period) == Angle(t, dt, period) + (k as real) * 2.0 * t.pi / (period * 10.0)
  {
    var den := period * 10.0;
    assert ((dt + k) * 2) as real == (dt * 2) as real + (k as real) * 2.0;
    assert ((dt + k) * 2) as real * t.pi == (dt * 2) as real * t.pi + (k as real) * 2.0 * t.pi;
  }

  /** One full period, when it is a whole number `k` of ticks, brings every
      body back to the same offset. None of the five seeded periods is a
      whole number of ticks (87.968 days is 879.68 ticks), so this is a law
      of the angle formula, not a claim that the seeded scene repeats. */
  lemma FullPeriod(t: Trig, dt: int, k: int, period: real, radius: real)
    requires period > 0.0 && k as real == period * 10.0
    requires FullTurnLaw(t)
    ensures Offset(t, dt + k, period, radius) == Offset(t, dt, period, radius)
  {
    AngleAdvance(t, dt, k, period);
    var a := Angle(t, dt, period);
    var b := Angle(t, dt + k, period);
    assert (k as real) * 2.0 * t.pi / (period * 10.0) == 2.0 * t.pi;
    assert b == a + 2.0 * t.pi;
    assert t.cos(b) == t.cos(a) && t.sin(b) == t.sin(a);
  }

  /** Half a period, when it is a whole number `k` of ticks, puts every body
      on the opposite side of its orbit's centre. As with `FullPeriod`, no
      seeded body has a half period of whole ticks. */
  lemma HalfPeriod(t: Trig, dt: int, k: int, period: real, radius: real)
    requires period > 0.0 && (k as real) * 2.0 == period * 10.0
    requires HalfTurnLaw(t)
    ensures
      var o1 := Offset(t, dt, period, radius);
      var o2 := Offset(t, dt + k, period, radius);
      o2.x == -o1.x && o2.y == -o1.y
  {
    AngleAdvance(t, dt, k, period);
    var a := Angle(t, dt, period);
    var b := Angle(t, dt + k, period);
    assert (k as real) * 2.0 * t.pi / (period * 10.0) == t.pi;
    assert b == a + t.pi;
    assert t.cos(b) == -t.cos(a) && t.sin(b) == -t.sin(a);
  }
}
