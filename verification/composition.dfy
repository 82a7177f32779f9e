/** What one repaint draws, as a pure function of the scene: the trace of
    Graphics calls made for one body, for the Moon's nested frame, and for
    the walk over the whole body list. The panel's methods are proved to
    produce exactly these traces; the lemmas here give one body's trace its
    shape and show that every walk leaves the origin where it found it. */
module Composition {
  import opened JavaNumerics
  import opened Awt
  import opened Celestial
  import opened Kinematics

  /** The panel state a repaint reads besides the body list. */
  datatype View = View(trig: Trig, dt: int, showDetails: bool)

  /** Every body of the list has a positive period, so its angle is defined. */
  predicate Drawable(specs: seq<BodySpec>)
  {
    forall i :: 0 <= i < |specs| ==> specs[i].p > 0.0
  }

  /** The body's position for this tick, relative to its orbit's centre. */
  function Position(v: View, s: BodySpec): Vec
    requires s.p > 0.0
  {
    Offset(v.trig, v.dt, s.p, s.r)
  }

  /** The calls `CircularOrbit` makes for one body with the origin at `o`:
      the orbit outline in white, the body filled in its colour, its name,
      and, in detail mode, its period, radius and diameter. */
  function OrbitTrace(v: View, s: BodySpec, o: Point): seq<Event>
    requires s.p > 0.0
  {
    var rs := s.r * RadiusScale;
    var ds := s.d / DiameterScale;
    var pos := Position(v, s);
    var lx := Trunc(pos.x + 1.0 + ds / 2.0);
    [ SetColor(White),
      DrawOval(Trunc(-rs), Trunc(-rs), Trunc(rs * 2.0), Trunc(rs * 2.0), o),
      SetColor(s.color),
      FillOval(Trunc(pos.x - ds / 2.0), Trunc(pos.y - ds / 2.0), Trunc(ds), Trunc(ds), o),
      DrawString(Name(s.name), lx, Trunc(pos.y + 5.0), o) ]
    + (if v.showDetails then
         [ DrawString(PeriodText(s.p), lx, Trunc(pos.y + 15.0), o),
           DrawString(RadiusText(s.r), lx, Trunc(pos.y + 25.0), o),
           DrawString(DiameterText(s.d), lx, Trunc(pos.y + 35.0), o) ]
       else [])
  }

  /** The inner walk at Earth: every body of `specs[..n]` named "Moon" is drawn, with the origin at `o`. */
  function MoonTrace(v: View, specs: seq<BodySpec>, n: nat, o: Point): seq<Event>
    requires n <= |specs| && Drawable(specs)
  {
    if n == 0 then []
    else
      MoonTrace(v, specs, n - 1, o)
      + (if specs[n - 1].name == "Moon" then OrbitTrace(v, specs[n - 1], o) else [])
  }

  /** The truncated position of Earth that the origin is moved by. */
  function EarthShift(v: View, s: BodySpec): Point
    requires s.p > 0.0
  {
    var pos := Position(v, s);
    Point(Trunc(pos.x), Trunc(pos.y))
  }

  /** One iteration of the main walk, for body `s`. */
  function StepTrace(v: View, hasMoon: bool, specs: seq<BodySpec>, s: BodySpec, o: Point): seq<Event>
    requires s.p > 0.0 && Drawable(specs)
  {
    if !hasMoon then OrbitTrace(v, s, o)
    else if s.name == "Moon" then []
    else if s.name == "Earth" then
      var pos := Position(v, s);
      var e := EarthShift(v, s);
      OrbitTrace(v, s, o)
      + [Translate(e.x, e.y)]
      + MoonTrace(v, specs, |specs|, o.Shift(e.x, e.y))
      + [Translate(Trunc(-1.0 * pos.x), Trunc(-1.0 * pos.y))]
    else OrbitTrace(v, s, o)
  }

  /** The main walk over the first `n` bodies, with the origin at `o`. */
  function PaintTrace(v: View, hasMoon: bool, specs: seq<BodySpec>, n: nat, o: Point): seq<Event>
    requires n <= |specs| && Drawable(specs)
  {
    if n == 0 then []
    else PaintTrace(v, hasMoon, specs, n - 1, o) + StepTrace(v, hasMoon, specs, specs[n - 1], o)
  }

  // ---------------------------------------------------------------------
  // Lemmas

  /** One body's trace: the outline first, centred on the origin, with
      diameter the truncated doubled scaled radius; then the body, sized by
      its scaled diameter, in its own colour; then its name label; then
      exactly three more strings in detail mode and none otherwise. Every
      drawing call is made against `o`. */
  lemma OrbitTraceShape(v: View, s: BodySpec, o: Point)
    requires s.p > 0.0
    ensures
      var t := OrbitTrace(v, s, o);
      var rs := s.r * RadiusScale;
      var ds := s.d / DiameterScale;
      && |t| == (if v.showDetails then 8 else 5)
      && t[0] == SetColor(White)
      && t[1].DrawOval? && t[1].x == t[1].y == -Trunc(rs) && t[1].w == t[1].h == Trunc(2.0 * rs)
      && t[2] == SetColor(s.color)
      && t[3].FillOval? && t[3].w == t[3].h == Trunc(ds)
      && t[4] == DrawString(Name(s.name), t[4].x, t[4].y, o)
      && (forall i :: 5 <= i < |t| ==> t[i].DrawString? && !t[i].text.Name?)
      && (forall i :: 0 <= i < |t| && !t[i].SetColor? ==> !t[i].Translate? && t[i].at == o)
  {
    var rs := s.r * RadiusScale;
    TruncNeg(rs);
    assert -rs == -1.0 * rs;
    assert rs * 2.0 == 2.0 * rs;
  }

  /** Nothing in one body's trace moves the origin. */
  lemma OrbitKeepsOrigin(v: View, s: BodySpec, o: Point, o': Point)
    requires s.p > 0.0
    ensures OriginAfter(o', OrbitTrace(v, s, o)) == o'
  {
    OrbitTraceShape(v, s, o);
    NoTranslation(o', OrbitTrace(v, s, o));
  }

  lemma {:induction false} NoTranslation(o: Point, t: seq<Event>)
    requires forall i :: 0 <= i < |t| ==> !t[i].Translate?
    ensures OriginAfter(o, t) == o
    decreases |t|
  {
    if t != [] {
      NoTranslation(o, t[..|t| - 1]);
    }
  }

  lemma {:induction false} MoonTraceKeepsOrigin(v: View, specs: seq<BodySpec>, n: nat, o: Point, o': Point)
    requires n <= |specs| && Drawable(specs)
    ensures OriginAfter(o', MoonTrace(v, specs, n, o)) == o'
  {
    if n > 0 {
      var s := specs[n - 1];
      var tail := if s.name == "Moon" then OrbitTrace(v, s, o) else [];
      MoonTraceKeepsOrigin(v, specs, n - 1, o, o');
      OriginAfterAppend(o', MoonTrace(v, specs, n - 1, o), tail);
      if s.name == "Moon" {
        OrbitKeepsOrigin(v, s, o, o');
      }
    }
  }

  /** The Earth branch translates by Earth's truncated position and then by
      the truncation of its negation; since Java's cast rounds toward zero the
      two cancel, so each step, with or without the nested frame, leaves the
      origin where it found it. */
  lemma StepKeepsOrigin(v: View, hasMoon: bool, specs: seq<BodySpec>, s: BodySpec, o: Point, o': Point)
    requires s.p > 0.0 && Drawable(specs)
    ensures OriginAfter(o', StepTrace(v, hasMoon, specs, s, o)) == o'
  {
    OrbitKeepsOrigin(v, s, o, o');
    if hasMoon && s.name == "Earth" {
      var pos := Position(v, s);
      var e := EarthShift(v, s);
      var orbit := OrbitTrace(v, s, o);
      var moons := MoonTrace(v, specs, |specs|, o.Shift(e.x, e.y));
      var back := Translate(Trunc(-1.0 * pos.x), Trunc(-1.0 * pos.y));
      OriginAfterAppend(o', orbit, [Translate(e.x, e.y)]);
      OriginAfterAppend(o', orbit + [Translate(e.x, e.y)], moons);
      OriginAfterAppend(o', orbit + [Translate(e.x, e.y)] + moons, [back]);
      MoonTraceKeepsOrigin(v, specs, |specs|, o.Shift(e.x, e.y), o'.Shift(e.x, e.y));
      assert [Translate(e.x, e.y)][..0] == [] && [back][..0] == [];
      TruncNeg(pos.x);
      TruncNeg(pos.y);
    } else if hasMoon && s.name == "Moon" {
    }
  }

  /** The net translation of a whole walk is zero: whatever the bodies, the
      walk ends with the origin where it began. */
  lemma {:induction false} PaintKeepsOrigin(v: View, hasMoon: bool, specs: seq<BodySpec>, n: nat, o: Point, o': Point)
    requires n <= |specs| && Drawable(specs)
    ensures OriginAfter(o', PaintTrace(v, hasMoon, specs, n, o)) == o'
  {
    if n > 0 {
      PaintKeepsOrigin(v, hasMoon, specs, n - 1, o, o');
      OriginAfterAppend(o', PaintTrace(v, hasMoon, specs, n - 1, o), StepTrace(v, hasMoon, specs, specs[n - 1], o));
      StepKeepsOrigin(v, hasMoon, specs, specs[n - 1], o, o');
    }
  }
}
