/** Which bodies a repaint labels, in which order and in which frame. The
    name labels of a trace are read off it; `WalkLabels` says, body by body,
    which labels each step of the walk contributes; the lemmas here connect
    the two and then describe the labels of a whole repaint with and
    without the nested Moon frame. */
module DrawOrder {
  import opened JavaNumerics
  import opened Awt
  import opened Celestial
  import opened Composition
  import opened Scene

  /** A name label and the origin it was drawn against. */
  datatype Label = Label(name: string, at: Point)

  /** The name labels of a trace, in drawing order: one per body drawn. */
  function Labels(t: seq<Event>): seq<Label>
  {
    if t == [] then []
    else
      var last := t[|t| - 1];
      Labels(t[..|t| - 1])
      + (if last.DrawString? && last.text.Name? then [Label(last.text.name, last.at)] else [])
  }

  /** The labels of the bodies `specs[k..n]` other than the Moon, in list order, all against `o`. */
  function FrameLabels(specs: seq<BodySpec>, k: nat, n: nat, o: Point): seq<Label>
    requires k <= n <= |specs|
    decreases n
  {
    if n == k then []
    else FrameLabels(specs, k, n - 1, o) + (if specs[n - 1].name == "Moon" then [] else [Label(specs[n - 1].name, o)])
  }

  /** `specs[i]` is the one body of the list called `name`. */
  predicate OnlyOne(specs: seq<BodySpec>, name: string, i: int)
  {
    0 <= i < |specs| && specs[i].name == name
    && forall j :: 0 <= j < |specs| && j != i ==> specs[j].name != name
  }

  /** The labels the nested walk over `specs[..n]` is meant to draw: one per Moon, against `o`. */
  function MoonLabels(specs: seq<BodySpec>, n: nat, o: Point): seq<Label>
    requires n <= |specs|
  {
    if n == 0 then []
    else MoonLabels(specs, n - 1, o) + (if specs[n - 1].name == "Moon" then [Label("Moon", o)] else [])
  }

  /** The origin of the Moon's nested frame when Earth is body `s`: the sun's
      origin moved by Earth's truncated position. */
  function MoonOrigin(v: View, s: BodySpec, o: Point): Point
    requires s.p > 0.0
  {
    var e := EarthShift(v, s);
    o.Shift(e.x, e.y)
  }

  /** The nested-frame origin each body of the list would open, were it Earth. */
  function MoonOrigins(v: View, specs: seq<BodySpec>, o: Point): (inner: seq<Point>)
    requires Drawable(specs)
    ensures |inner| == |specs|
    ensures forall i :: 0 <= i < |specs| ==> inner[i] == MoonOrigin(v, specs[i], o)
  {
    seq(|specs|, i requires 0 <= i < |specs| && specs[i].p > 0.0 => MoonOrigin(v, specs[i], o))
  }

  /** The labels one step of the main walk is meant to draw for body `s`,
      `inner` being the origin of the nested frame should `s` be Earth. */
  function StepLabelsOf(hasMoon: bool, specs: seq<BodySpec>, s: BodySpec, o: Point, inner: Point): seq<Label>
  {
    if !hasMoon then [Label(s.name, o)]
    else if s.name == "Moon" then []
    else if s.name == "Earth" then [Label("Earth", o)] + MoonLabels(specs, |specs|, inner)
    else [Label(s.name, o)]
  }

  /** The labels the main walk over `specs[..n]` is meant to draw. */
  function WalkLabels(hasMoon: bool, specs: seq<BodySpec>, inner: seq<Point>, n: nat, o: Point): seq<Label>
    requires n <= |specs| == |inner|
  {
    if n == 0 then []
    else WalkLabels(hasMoon, specs, inner, n - 1, o) + StepLabelsOf(hasMoon, specs, specs[n - 1], o, inner[n - 1])
  }

  // ---------------------------------------------------------------------
  // Reading labels off traces

  lemma {:induction false} LabelsAppend(a: seq<Event>, b: seq<Event>)
    ensures Labels(a + b) == Labels(a) + Labels(b)
    decreases |b|
  {
    if b == [] {
      assert a + b == a;
    } else {
      assert (a + b)[..|a + b| - 1] == a + b[..|b| - 1];
      LabelsAppend(a, b[..|b| - 1]);
    }
  }

  lemma {:induction false} NoLabels(t: seq<Event>)
    requires forall i :: 0 <= i < |t| ==> !(t[i].DrawString? && t[i].text.Name?)
    ensures Labels(t) == []
    decreases |t|
  {
    if t != [] {
      NoLabels(t[..|t| - 1]);
    }
  }

  /** A translation labels nothing. */
  lemma TranslateLabels(dx: int, dy: int)
    ensures Labels([Translate(dx, dy)]) == []
  {
    assert [Translate(dx, dy)][..0] == [];
  }

  /** One body's trace labels that body, once, against `o`. */
  lemma OrbitLabels(v: View, s: BodySpec, o: Point)
    requires s.p > 0.0
    ensures Labels(OrbitTrace(v, s, o)) == [Label(s.name, o)]
  {
    var t := OrbitTrace(v, s, o);
    OrbitTraceShape(v, s, o);
    var outline, rest := t[..4], t[5..];
    assert t == outline + [t[4]] + rest;
    LabelsAppend(outline + [t[4]], rest);
    LabelsAppend(outline, [t[4]]);
    NoLabels(outline);
    NoLabels(rest);
    assert [t[4]][..0] == [];
  }

  /** The nested walk's labels grow by one Moon label at each Moon. */
  lemma MoonLabelsSnoc(v: View, specs: seq<BodySpec>, n: nat, o: Point)
    requires 0 < n <= |specs| && Drawable(specs)
    ensures Labels(MoonTrace(v, specs, n, o))
         == Labels(MoonTrace(v, specs, n - 1, o)) + (if specs[n - 1].name == "Moon" then [Label("Moon", o)] else [])
  {
    var s := specs[n - 1];
    var tail := if s.name == "Moon" then OrbitTrace(v, s, o) else [];
    LabelsAppend(MoonTrace(v, specs, n - 1, o), tail);
    if s.name == "Moon" {
      OrbitLabels(v, s, o);
    }
  }

  /** The nested walk labels every Moon of the list, in order, against the origin it is given. */
  lemma {:induction false} MoonTraceLabels(v: View, specs: seq<BodySpec>, n: nat, o: Point)
    requires n <= |specs| && Drawable(specs)
    ensures Labels(MoonTrace(v, specs, n, o)) == MoonLabels(specs, n, o)
  {
    if n > 0 {
      MoonTraceLabels(v, specs, n - 1, o);
      MoonLabelsSnoc(v, specs, n, o);
    }
  }

  /** Each step of the walk labels what `StepLabelsOf` says: its body against
      `o`, except that with a moon the Moon is skipped and Earth is followed
      by the nested walk's labels against Earth's truncated position. */
  lemma StepTraceLabels(v: View, hasMoon: bool, specs: seq<BodySpec>, s: BodySpec, o: Point)
    requires s.p > 0.0 && Drawable(specs)
    ensures Labels(StepTrace(v, hasMoon, specs, s, o)) == StepLabelsOf(hasMoon, specs, s, o, MoonOrigin(v, s, o))
  {
    if hasMoon && s.name == "Earth" {
      var pos := Position(v, s);
      var e := EarthShift(v, s);
      var shifted := o.Shift(e.x, e.y);
      var orbit := OrbitTrace(v, s, o);
      var there := [Translate(e.x, e.y)];
      var moons := MoonTrace(v, specs, |specs|, shifted);
      var back := [Translate(Trunc(-1.0 * pos.x), Trunc(-1.0 * pos.y))];
      calc {
        Labels(StepTrace(v, hasMoon, specs, s, o));
        Labels(orbit + there + moons + back);
        == { LabelsAppend(orbit + there + moons, back); LabelsAppend(orbit + there, moons); LabelsAppend(orbit, there); }
        Labels(orbit) + Labels(there) + Labels(moons) + Labels(back);
        == { OrbitLabels(v, s, o); TranslateLabels(e.x, e.y); TranslateLabels(Trunc(-1.0 * pos.x), Trunc(-1.0 * pos.y));
             MoonTraceLabels(v, specs, |specs|, shifted); }
        [Label("Earth", o)] + [] + MoonLabels(specs, |specs|, shifted) + [];
        [Label("Earth", o)] + MoonLabels(specs, |specs|, shifted);
      }
    } else if !(hasMoon && s.name == "Moon") {
      OrbitLabels(v, s, o);
    }
  }

  /** The labels of the walk's trace are those `WalkLabels` describes. */
  lemma {:induction false} WalkTraceLabels(v: View, hasMoon: bool, specs: seq<BodySpec>, n: nat, o: Point)
    requires n <= |specs| && Drawable(specs)
    ensures Labels(PaintTrace(v, hasMoon, specs, n, o)) == WalkLabels(hasMoon, specs, MoonOrigins(v, specs, o), n, o)
  {
    if n > 0 {
      WalkTraceLabels(v, hasMoon, specs, n - 1, o);
      WalkTraceLabelsStep(v, hasMoon, specs, n, o);
    }
  }

  /** One more step of the walk adds the labels its trace draws. */
  lemma WalkTraceLabelsStep(v: View, hasMoon: bool, specs: seq<BodySpec>, n: nat, o: Point)
    requires 0 < n <= |specs| && Drawable(specs)
    requires Labels(PaintTrace(v, hasMoon, specs, n - 1, o)) == WalkLabels(hasMoon, specs, MoonOrigins(v, specs, o), n - 1, o)
    ensures Labels(PaintTrace(v, hasMoon, specs, n, o)) == WalkLabels(hasMoon, specs, MoonOrigins(v, specs, o), n, o)
  {
    var s := specs[n - 1];
    LabelsAppend(PaintTrace(v, hasMoon, specs, n - 1, o), StepTrace(v, hasMoon, specs, s, o));
    StepTraceLabels(v, hasMoon, specs, s, o);
    assert MoonOrigins(v, specs, o)[n - 1] == MoonOrigin(v, s, o);
  }

  // ---------------------------------------------------------------------
  // The labels of a walk

  /** With the Moon present once, the nested walk labels it exactly once,
      once it has passed it. */
  lemma {:induction false} OneMoonLabel(specs: seq<BodySpec>, n: nat, o: Point, moon: int)
    requires n <= |specs| && OnlyOne(specs, "Moon", moon)
    ensures MoonLabels(specs, n, o) == if moon < n then [Label("Moon", o)] else []
  {
    if n > 0 {
      OneMoonLabel(specs, n - 1, o, moon);
    }
  }

  /** Without a moon, the walk labels every body once, in list order. */
  lemma {:induction false} WalkWithoutMoon(specs: seq<BodySpec>, inner: seq<Point>, n: nat, o: Point)
    requires n <= |specs| == |inner|
    ensures var l := WalkLabels(false, specs, inner, n, o);
      |l| == n && forall i :: 0 <= i < n ==> l[i] == Label(specs[i].name, o)
  {
    if n > 0 {
      WalkWithoutMoon(specs, inner, n - 1, o);
    }
  }

  /** Over a stretch of the list without Earth, each body but the Moon adds
      its label against the sun's origin. */
  lemma {:induction false} WalkSkipsMoon(specs: seq<BodySpec>, inner: seq<Point>, k: nat, n: nat, o: Point)
    requires k <= n <= |specs| == |inner|
    requires forall i :: k <= i < n ==> specs[i].name != "Earth"
    ensures WalkLabels(true, specs, inner, n, o) == WalkLabels(true, specs, inner, k, o) + FrameLabels(specs, k, n, o)
    decreases n
  {
    if n == k {
      var head := WalkLabels(true, specs, inner, k, o);
      assert head + [] == head;
    } else {
      WalkSkipsMoon(specs, inner, k, n - 1, o);
      WalkSkipsMoonStep(specs, inner, k, n, o);
    }
  }

  /** One body other than Earth adds its label against the sun's origin, unless it is the Moon. */
  lemma WalkSkipsMoonStep(specs: seq<BodySpec>, inner: seq<Point>, k: nat, n: nat, o: Point)
    requires k < n <= |specs| == |inner| && specs[n - 1].name != "Earth"
    requires WalkLabels(true, specs, inner, n - 1, o) == WalkLabels(true, specs, inner, k, o) + FrameLabels(specs, k, n - 1, o)
    ensures WalkLabels(true, specs, inner, n, o) == WalkLabels(true, specs, inner, k, o) + FrameLabels(specs, k, n, o)
  {
    var s := specs[n - 1];
    var added := if s.name == "Moon" then [] else [Label(s.name, o)];
    assert StepLabelsOf(true, specs, s, o, inner[n - 1]) == added;
    AppendAssoc(WalkLabels(true, specs, inner, k, o), FrameLabels(specs, k, n - 1, o), added);
  }

  /** At Earth the walk labels Earth and then the one Moon against the nested frame's origin. */
  lemma WalkThroughEarth(specs: seq<BodySpec>, inner: seq<Point>, o: Point, earth: int, moon: int)
    requires |specs| == |inner| && OnlyOne(specs, "Earth", earth) && OnlyOne(specs, "Moon", moon)
    ensures WalkLabels(true, specs, inner, earth + 1, o)
         == FrameLabels(specs, 0, earth + 1, o) + [Label("Moon", inner[earth])]
  {
    WalkSkipsMoon(specs, inner, 0, earth, o);
    OneMoonLabel(specs, |specs|, inner[earth], moon);
  }

  /** Without a moon, a repaint labels every body once, in list order, against the sun's origin. */
  lemma LabelsWithoutMoon(v: View, specs: seq<BodySpec>, n: nat, o: Point)
    requires n <= |specs| && Drawable(specs)
    ensures var l := Labels(PaintTrace(v, false, specs, n, o));
      |l| == n && forall i :: 0 <= i < n ==> l[i] == Label(specs[i].name, o)
  {
    WalkTraceLabels(v, false, specs, n, o);
    WalkWithoutMoon(specs, MoonOrigins(v, specs, o), n, o);
  }

  /** With a moon but no Earth in the list, the Moon is never drawn; every
      other body is drawn once, in list order, against the sun's origin. */
  lemma MoonHiddenWithoutEarth(v: View, specs: seq<BodySpec>, o: Point)
    requires Drawable(specs)
    requires forall i :: 0 <= i < |specs| ==> specs[i].name != "Earth"
    ensures Labels(PaintTrace(v, true, specs, |specs|, o)) == FrameLabels(specs, 0, |specs|, o)
  {
    WalkTraceLabels(v, true, specs, |specs|, o);
    WalkSkipsMoon(specs, MoonOrigins(v, specs, o), 0, |specs|, o);
  }

  /** With a moon, and Earth and the Moon each present once: every body but
      the Moon is drawn once, in list order, against the sun's origin, and the
      Moon is drawn exactly once, straight after Earth, against Earth's
      truncated position. */
  lemma LabelsWithMoon(v: View, specs: seq<BodySpec>, n: nat, o: Point, earth: int, moon: int)
    requires n <= |specs| && Drawable(specs)
    requires OnlyOne(specs, "Earth", earth) && OnlyOne(specs, "Moon", moon) && earth < n
    ensures
      var e := EarthShift(v, specs[earth]);
      Labels(PaintTrace(v, true, specs, n, o))
      == FrameLabels(specs, 0, earth + 1, o) + [Label("Moon", o.Shift(e.x, e.y))] + FrameLabels(specs, earth + 1, n, o)
  {
    var inner := MoonOrigins(v, specs, o);
    WalkTraceLabels(v, true, specs, n, o);
    WalkSkipsMoon(specs, inner, earth + 1, n, o);
    WalkThroughEarth(specs, inner, o, earth, moon);
  }

  /** The seeded scene, all five seeds accepted: Mercury, Venus and Earth
      against the sun's origin, then the Moon against Earth's truncated
      position, then Mars against the sun's origin again. */
  lemma SeedSceneLabels(v: View, o: Point)
    ensures
      var e := EarthShift(v, EarthSeed);
      Labels(PaintTrace(v, true, Seeds, |Seeds|, o))
      == [Label("Mercury", o), Label("Venus", o), Label("Earth", o), Label("Moon", o.Shift(e.x, e.y)), Label("Mars", o)]
  {
    assert OnlyOne(Seeds, "Earth", 2);
    assert OnlyOne(Seeds, "Moon", 4);
    LabelsWithMoon(v, Seeds, |Seeds|, o, 2, 4);
    assert FrameLabels(Seeds, 0, 3, o) == [Label("Mercury", o), Label("Venus", o), Label("Earth", o)];
    assert FrameLabels(Seeds, 3, 5, o) == [Label("Mars", o)];
  }
}
