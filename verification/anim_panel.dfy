/** The animation panel: the list of bodies, the tick counter, the running
    and detail flags, and the repaint that positions every body and draws it,
    the Moon in Earth's frame. Swing's timer thread, repaint scheduling and
    mouse plumbing are reduced to the methods they end up calling. */
module AnimPanel {
  import opened JavaNumerics
  import opened Awt
  import opened Celestial
  import opened Kinematics
  import opened Scene
  import opened Composition

  /** Every body of the list passed validation. */
  predicate AllValid(bodies: seq<Body>)
  {
    forall i :: 0 <= i < |bodies| ==> bodies[i].Valid()
  }

  /** No body is in the list twice: each entry is a separately constructed object. */
  predicate Distinct(bodies: seq<Body>)
  {
    forall i, j :: 0 <= i < j < |bodies| ==> bodies[i] != bodies[j]
  }

  class SolarSystemAnimPanel {
    var dt: int              // ticks elapsed; one tick is a tenth of a day
    var running: bool        // whether the animation timer delivers ticks
    var showDetails: bool    // whether period, radius and diameter are drawn
    const hasMoon: bool      // whether the Moon was constructed
    const celestials: seq<Body>
    const trig: Trig

    /** Only validated bodies are ever in the list. */
    predicate Valid()
    {
      AllValid(celestials)
    }

    /** The state a repaint reads besides the list. */
    function CurrentView(): View
      reads this
    {
      View(trig, dt, showDetails)
    }

    /** The panel starts with the clock at zero, the timer running, details
        hidden, and the scene populated from the seeds; the list and the
        moon flag are not changed afterwards. */
    constructor (trig: Trig)
      ensures Valid() && Distinct(celestials)
      ensures this.trig.pi == trig.pi && this.trig.cos == trig.cos && this.trig.sin == trig.sin
      ensures dt == 0 && running && !showDetails
      ensures Specs(celestials) == Accepted(Seeds)
      ensures hasMoon == Acceptable(MoonSeed)
      ensures forall i :: 0 <= i < |celestials| ==> fresh(celestials[i])
    {
      this.trig := trig;
      dt, running, showDetails := 0, true, false;
      var bodies, moon := CreateCelestials([], false);
      celestials, hasMoon := bodies, moon;
    }

    /** One `try { add(new CelestialCircular(...)) } catch` block: the body is
        appended when its construction succeeds, and nothing happens otherwise. */
    static method TryAdd(bodies: seq<Body>, s: BodySpec) returns (bodies': seq<Body>, ok: bool)
      requires AllValid(bodies) && Distinct(bodies)
      ensures AllValid(bodies') && Distinct(bodies')
      ensures ok == Acceptable(s)
      ensures |bodies| <= |bodies'| && bodies'[..|bodies|] == bodies
      ensures Specs(bodies') == Specs(bodies) + (if ok then [s] else [])
      ensures forall i :: |bodies| <= i < |bodies'| ==> fresh(bodies'[i])
    {
      var res := Create(s.name, s.p, s.r, s.d, s.color);
      ok := res.Success?;
      bodies' := bodies;
      if ok {
        bodies' := bodies + [res.value];
        assert Specs(bodies') == Specs(bodies) + [s];
      }
    }

    /** Tries the five seeds in order on the list `bodies`; a seed that fails
        is skipped and the later ones are still tried. The moon flag is set
        only when the Moon is added. */
    static method CreateCelestials(bodies: seq<Body>, moon: bool) returns (bodies': seq<Body>, moon': bool)
      requires AllValid(bodies) && Distinct(bodies)
      ensures AllValid(bodies') && Distinct(bodies')
      ensures |bodies| <= |bodies'| && bodies'[..|bodies|] == bodies
      ensures Specs(bodies') == Specs(bodies) + Accepted(Seeds)
      ensures moon' == (moon || Acceptable(MoonSeed))
      ensures forall i :: |bodies| <= i < |bodies'| ==> fresh(bodies'[i])
    {
      var ok;
      bodies', ok := TryAdd(bodies, MercurySeed);
      bodies', ok := TryAdd(bodies', VenusSeed);
      bodies', ok := TryAdd(bodies', EarthSeed);
      bodies', ok := TryAdd(bodies', MarsSeed);
      bodies', ok := TryAdd(bodies', MoonSeed);
      moon' := moon || ok;
      SeedsAllAccepted();
    }

    /** The timer's action: one more tick. */
    method ActionPerformed()
      modifies this`dt
      ensures dt == old(dt) + 1
    {
      dt := dt + 1;
    }

    /** A delivery from the animation timer: a tick while running, nothing while stopped. */
    method Tick()
      modifies this`dt
      ensures dt == old(dt) + (if running then 1 else 0)
    {
      if running {
        ActionPerformed();
      }
    }

    method Start()
      modifies this`running
      ensures running
    {
      running := true;
    }

    method Stop()
      modifies this`running
      ensures !running
    {
      running := false;
    }

    /** The days shown by the elapsed-days label: `dt/10`, rounded toward zero,
        so a partly elapsed day is never counted, on either side of zero. */
    function DaysElapsed(): (days: int)
      reads this
      ensures 0 <= dt ==> 0 <= days && days * TicksPerDay <= dt < (days + 1) * TicksPerDay
      ensures dt < 0 ==> days <= 0 && (days - 1) * TicksPerDay < dt <= days * TicksPerDay
    {
      Quot(dt, TicksPerDay)
    }

    /** Sets the clock to a whole number of days; the label then shows exactly that number. */
    method SetDays(days: int)
      modifies this`dt
      ensures dt == days * TicksPerDay
      ensures DaysElapsed() == days
    {
      dt := days * TicksPerDay;
      QuotOfTenfold(days);
    }

    /** A click flips detail mode. */
    method MouseClicked()
      modifies this`showDetails
      ensures showDetails == !old(showDetails)
    {
      showDetails := !showDetails;
    }

    /** Body `b` sits where the kinematics put it for the current tick. */
    ghost predicate Placed(b: Body)
      reads this, b
      requires b.Valid()
    {
      var pos := Position(CurrentView(), b.Spec());
      b.x == pos.x && b.y == pos.y
    }

    /** The bodies' x coordinates, in list order. */
    ghost function Xs(): (xs: seq<real>)
      reads this, celestials
      ensures |xs| == |celestials| && forall k :: 0 <= k < |celestials| ==> xs[k] == celestials[k].x
    {
      seq(|celestials|, k requires 0 <= k < |celestials| reads this, celestials => celestials[k].x)
    }

    /** The bodies' y coordinates, in list order. */
    ghost function Ys(): (ys: seq<real>)
      reads this, celestials
      ensures |ys| == |celestials| && forall k :: 0 <= k < |celestials| ==> ys[k] == celestials[k].y
    {
      seq(|celestials|, k requires 0 <= k < |celestials| reads this, celestials => celestials[k].y)
    }

    /** Whether the first `n` iterations of the repaint walk have positioned
        the body at `k`: the Moon, when there is one, is positioned at Earth. */
    ghost predicate PaintedBy(k: nat, n: nat)
      reads this
      requires k < |celestials| && n <= |celestials|
    {
      if hasMoon && celestials[k].name == "Moon" then exists j :: 0 <= j < n && celestials[j].name == "Earth"
      else k < n
    }

    /** Positions `b` for the current tick, then draws its orbit, the body, its
        name and, in detail mode, its parameters, against the current origin. */
    method CircularOrbit(g: Graphics, b: Body)
      requires b.Valid()
      modifies g, b
      ensures Placed(b)
      ensures g.origin == old(g.origin)
      ensures g.trace == old(g.trace) + OrbitTrace(CurrentView(), b.Spec(), old(g.origin))
    {
      var period := b.GetP();
      var r := b.GetR();
      var d := b.GetD();
      r := r * RadiusScale;
      d := d / DiameterScale;
      var newAngle := ((dt * 2) as real) * trig.pi / (period * (TicksPerDay as real));
      var x := r * trig.cos(newAngle);
      var y := r * trig.sin(newAngle);
      b.SetX(x);
      b.SetY(y);
      assert newAngle == Angle(trig, dt, b.p);
      assert Position(CurrentView(), b.Spec()) == Vec(x, y);

      g.SetColorTo(White);
      g.DrawOval(Trunc(-r), Trunc(-r), Trunc(r * 2.0), Trunc(r * 2.0));
      g.SetColorTo(b.GetColor());
      g.FillOval(Trunc(x - d / 2.0), Trunc(y - d / 2.0), Trunc(d), Trunc(d));
      g.DrawString(Name(b.GetName()), Trunc(x + 1.0 + d / 2.0), Trunc(y + 5.0));
      if showDetails {
        g.DrawString(PeriodText(period), Trunc(x + 1.0 + d / 2.0), Trunc(y + 15.0));
        g.DrawString(RadiusText(b.GetR()), Trunc(x + 1.0 + d / 2.0), Trunc(y + 25.0));
        g.DrawString(DiameterText(b.GetD()), Trunc(x + 1.0 + d / 2.0), Trunc(y + 35.0));
      }
    }

    /** Whether iteration `i` of the repaint walk positions the body at `k`:
        the body at `i` itself, except a skipped Moon, and, at Earth, every Moon. */
    ghost predicate StepPlaces(k: nat, i: nat)
      reads this
      requires k < |celestials| && i < |celestials|
    {
      if hasMoon && celestials[k].name == "Moon" then celestials[i].name == "Earth" else k == i
    }

    /** After iteration `i`, a body has been positioned exactly when it had
        been before or iteration `i` positions it. */
    lemma PaintedByStep(k: nat, i: nat)
      requires k < |celestials| && i < |celestials|
      ensures PaintedBy(k, i + 1) <==> PaintedBy(k, i) || StepPlaces(k, i)
    {
      if hasMoon && celestials[k].name == "Moon" && PaintedBy(k, i + 1) && !StepPlaces(k, i) {
        var j :| 0 <= j < i + 1 && celestials[j].name == "Earth";
        assert j < i;
      }
    }

    /** Bodies that the first `n` iterations reach sit at their computed
        positions; the others still sit where they were (`x0`, `y0`). */
    ghost predicate Reached(n: nat, x0: seq<real>, y0: seq<real>)
      reads this, celestials
      requires n <= |celestials| && Valid()
    {
      && |x0| == |celestials| && |y0| == |celestials|
      && forall k :: 0 <= k < |celestials| ==>
           if PaintedBy(k, n) then Placed(celestials[k]) else celestials[k].x == x0[k] && celestials[k].y == y0[k]
    }

    /** The body part of a repaint: moves the origin to the panel's centre,
        then walks the list, drawing each body against that origin (and the
        Moon against Earth's). Bodies the walk does not reach keep their
        positions; the origin ends where the walk started. */
    method PaintComponent(g: Graphics, width: int, height: int)
      requires Valid() && Distinct(celestials)
      modifies g, celestials
      ensures
        var centre := old(g.origin).Shift(Quot(width, 2), Quot(height, 2));
        && g.origin == centre
        && g.trace == old(g.trace) + [Translate(Quot(width, 2), Quot(height, 2))]
                      + PaintTrace(CurrentView(), hasMoon, Specs(celestials), |celestials|, centre)
      ensures forall k :: 0 <= k < |celestials| ==>
        var b := celestials[k];
        if PaintedBy(k, |celestials|) then Placed(b) else b.x == old(b.x) && b.y == old(b.y)
    {
      g.Translate(Quot(width, 2), Quot(height, 2));
      PaintBodies(g);
    }

    /** The walk over the list, against the current origin. */
    method PaintBodies(g: Graphics)
      requires Valid() && Distinct(celestials)
      modifies g, celestials
      ensures g.origin == old(g.origin)
      ensures g.trace == old(g.trace) + PaintTrace(CurrentView(), hasMoon, Specs(celestials), |celestials|, old(g.origin))
      ensures forall k :: 0 <= k < |celestials| ==>
        var b := celestials[k];
        if PaintedBy(k, |celestials|) then Placed(b) else b.x == old(b.x) && b.y == old(b.y)
    {
      ghost var t0 := g.trace;
      ghost var v, specs := CurrentView(), Specs(celestials);
      ghost var x0, y0 := Xs(), Ys();
      var i := 0;
      while i < |celestials|
        invariant i <= |celestials|
        invariant g.origin == old(g.origin)
        invariant g.trace == t0 + PaintTrace(v, hasMoon, specs, i, old(g.origin))
        invariant Reached(i, x0, y0)
      {
        PaintNext(g, i, v, specs, t0, x0, y0);
        i := i + 1;
      }
    }

    /** One turn of the repaint loop, stated as the step from the loop's
        invariant at `i` to the invariant at `i + 1`; `v` and `specs` are the
        view and the list's parameters, which a repaint does not change. */
    method PaintNext(g: Graphics, i: nat, ghost v: View, ghost specs: seq<BodySpec>,
                     ghost t0: seq<Event>, ghost x0: seq<real>, ghost y0: seq<real>)
      requires Valid() && Distinct(celestials) && i < |celestials| && v == CurrentView() && specs == Specs(celestials)
      requires g.trace == t0 + PaintTrace(v, hasMoon, specs, i, g.origin)
      requires Reached(i, x0, y0)
      modifies g, celestials
      ensures g.origin == old(g.origin)
      ensures g.trace == t0 + PaintTrace(v, hasMoon, specs, i + 1, g.origin)
      ensures Reached(i + 1, x0, y0)
    {
      ghost var o := g.origin;
      PaintStep(g, i);
      AppendAssoc(t0, PaintTrace(v, hasMoon, specs, i, o), StepTrace(v, hasMoon, specs, specs[i], o));
      forall k | 0 <= k < |celestials|
        ensures if PaintedBy(k, i + 1) then Placed(celestials[k]) else celestials[k].x == x0[k] && celestials[k].y == y0[k]
      {
        PaintedByStep(k, i);
      }
    }

    /** One iteration of the repaint walk, for the body at `i`. Without a
        moon, the body is drawn. With one, the Moon is skipped; any other body
        is drawn, and at Earth the origin is moved to Earth's truncated
        position, the Moon is drawn, and the origin is moved back by the
        truncated negated position, which restores it exactly. */
    method PaintStep(g: Graphics, i: nat)
      requires Valid() && Distinct(celestials) && i < |celestials|
      modifies g, celestials
      ensures g.origin == old(g.origin)
      ensures g.trace == old(g.trace) + StepTrace(CurrentView(), hasMoon, Specs(celestials), celestials[i].Spec(), old(g.origin))
      ensures forall k :: 0 <= k < |celestials| ==>
        var c := celestials[k];
        if StepPlaces(k, i) then Placed(c) else c.x == old(c.x) && c.y == old(c.y)
    {
      var b := celestials[i];
      if !hasMoon {
        CircularOrbit(g, b);
      } else if b.GetName() != "Moon" {
        CircularOrbit(g, b);
        if b.GetName() == "Earth" {
          ghost var v := CurrentView();
          ghost var specs := Specs(celestials);
          ghost var o := g.origin;
          ghost var orbit := g.trace[|old(g.trace)|..];
          assert g.trace == old(g.trace) + orbit;
          PaintInFrameOf(g, b);
          AppendAssoc(old(g.trace), orbit, g.trace[|old(g.trace)| + |orbit|..]);
          assert StepTrace(v, hasMoon, specs, b.Spec(), o) == orbit + g.trace[|old(g.trace)| + |orbit|..] by {
            TruncNeg(b.x);
            TruncNeg(b.y);
            assert b.x == Position(v, b.Spec()).x && b.y == Position(v, b.Spec()).y;
          }
        }
      }
    }

    /** The block at Earth: the origin moves to Earth's truncated position,
        the Moon is drawn there, and the origin moves back by the truncated
        negated position. Earth itself does not move. */
    method PaintInFrameOf(g: Graphics, earth: Body)
      requires Valid() && earth.name != "Moon"
      modifies g, celestials
      ensures g.origin == old(g.origin)
      ensures earth.x == old(earth.x) && earth.y == old(earth.y)
      ensures g.trace == old(g.trace)
        + [Translate(Trunc(earth.x), Trunc(earth.y))]
        + MoonTrace(CurrentView(), Specs(celestials), |celestials|, old(g.origin).Shift(Trunc(earth.x), Trunc(earth.y)))
        + [Translate(Trunc(-1.0 * earth.x), Trunc(-1.0 * earth.y))]
      ensures forall k :: 0 <= k < |celestials| ==>
        var c := celestials[k];
        if c.name == "Moon" then Placed(c) else c.x == old(c.x) && c.y == old(c.y)
    {
      g.Translate(Trunc(earth.GetX()), Trunc(earth.GetY()));
      PaintMoons(g);
      g.Translate(Trunc(-1.0 * earth.GetX()), Trunc(-1.0 * earth.GetY()));
      TruncNeg(earth.x);
      TruncNeg(earth.y);
    }

    /** The nested walk at Earth: every body called "Moon" is drawn against
        the current origin; no other body moves. */
    method PaintMoons(g: Graphics)
      requires Valid()
      modifies g, celestials
      ensures g.origin == old(g.origin)
      ensures g.trace == old(g.trace) + MoonTrace(CurrentView(), Specs(celestials), |celestials|, old(g.origin))
      ensures forall k :: 0 <= k < |celestials| ==>
        var c := celestials[k];
        if c.name == "Moon" then Placed(c) else c.x == old(c.x) && c.y == old(c.y)
    {
      ghost var v := CurrentView();
      ghost var specs := Specs(celestials);
      var j := 0;
      while j < |celestials|
        invariant 0 <= j <= |celestials|
        invariant g.origin == old(g.origin)
        invariant g.trace == old(g.trace) + MoonTrace(v, specs, j, old(g.origin))
        invariant forall k :: 0 <= k < j && celestials[k].name == "Moon" ==> Placed(celestials[k])
        invariant forall c :: c in celestials && c.name != "Moon" ==> c.x == old(c.x) && c.y == old(c.y)
      {
        var m := celestials[j];
        ghost var before := g.trace;
        if m.GetName() == "Moon" {
          CircularOrbit(g, m);
          AppendAssoc(old(g.trace), MoonTrace(v, specs, j, old(g.origin)), OrbitTrace(v, specs[j], old(g.origin)));
        } else {
          assert before + [] == before;
        }
        j := j + 1;
      }
    }
  }

  /** Reset, as the control panel's Reset button does it: day zero. */
  method Reset(p: SolarSystemAnimPanel)
    modifies p
    ensures p.dt == 0 && p.DaysElapsed() == 0
    ensures p.running == old(p.running) && p.showDetails == old(p.showDetails)
  {
    p.SetDays(0);
  }

  /** Stopping, letting the timer fire any number of times, and starting
      again leaves the clock where it was. */
  method StopTicksStart(p: SolarSystemAnimPanel, ticks: nat)
    modifies p
    ensures p.dt == old(p.dt) && p.running
  {
    p.Stop();
    var k := 0;
    while k < ticks
      invariant p.dt == old(p.dt) && !p.running
    {
      p.Tick();
      k := k + 1;
    }
    p.Start();
  }

  /** Two clicks leave detail mode as it was. */
  method ClickTwice(p: SolarSystemAnimPanel)
    modifies p
    ensures p.showDetails == old(p.showDetails)
  {
    p.MouseClicked();
    p.MouseClicked();
  }
}
