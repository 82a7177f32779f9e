/** The slice of java.awt the animation uses: colours, the integer drawing
    plane, and a Graphics object modelled as the trace of calls made on it. */
module Awt {

  /** java.awt.Color, opaque to the animation: it is only stored, passed on and compared. */
  datatype Color = Rgb(red: int, green: int, blue: int)

  const White := Rgb(255, 255, 255)
  const Gray := Rgb(128, 128, 128)
  const LightGray := Rgb(192, 192, 192)
  const Cyan := Rgb(0, 255, 255)
  const Red := Rgb(255, 0, 0)

  /** A point of the integer pixel plane. */
  datatype Point = Point(x: int, y: int)
  {
    function Shift(dx: int, dy: int): Point { Point(x + dx, y + dy) }
  }

  /** The strings the animation draws, kept symbolic: the formatting of
      doubles into text is not part of the model. */
  datatype Text =
    | Name(name: string)
    | PeriodText(days: real)
    | RadiusText(au: real)
    | DiameterText(km: real)

  /** One call on the Graphics object. Drawing calls record the origin in
      force when they were made, so a trace says in which frame each shape
      was drawn. */
  datatype Event =
    | SetColor(color: Color)
    | Translate(dx: int, dy: int)
    | DrawOval(x: int, y: int, w: int, h: int, at: Point)
    | FillOval(x: int, y: int, w: int, h: int, at: Point)
    | DrawString(text: Text, x: int, y: int, at: Point)

  /** Appending to a trace is associative. */
  lemma AppendAssoc<T>(a: seq<T>, b: seq<T>, c: seq<T>)
    ensures (a + b) + c == a + (b + c)
  {
  }

  /** The origin reached from `o` by the translations in `t`. */
  function OriginAfter(o: Point, t: seq<Event>): Point
    decreases |t|
  {
    if t == [] then o
    else
      var last := t[|t| - 1];
      var before := OriginAfter(o, t[..|t| - 1]);
      if last.Translate? then before.Shift(last.dx, last.dy) else before
  }

  lemma {:induction false} OriginAfterAppend(o: Point, a: seq<Event>, b: seq<Event>)
    ensures OriginAfter(o, a + b) == OriginAfter(OriginAfter(o, a), b)
    decreases |b|
  {
    if b == [] {
      assert a + b == a;
    } else {
      assert (a + b)[..|a + b| - 1] == a + b[..|b| - 1];
      OriginAfterAppend(o, a, b[..|b| - 1]);
    }
  }

  /** java.awt.Graphics as the sequence of calls made on it and its current origin. */
  class Graphics {
    var trace: seq<Event>
    var origin: Point

    constructor ()
      ensures trace == [] && origin == Point(0, 0)
    {
      trace, origin := [], Point(0, 0);
    }

    method SetColorTo(c: Color)
      modifies this
      ensures trace == old(trace) + [SetColor(c)] && origin == old(origin)
    {
      trace := trace + [SetColor(c)];
    }

    /** `translate(dx, dy)` moves the origin by (dx, dy); translations compose. */
    method Translate(dx: int, dy: int)
      modifies this
      ensures trace == old(trace) + [Event.Translate(dx, dy)]
      ensures origin == old(origin).Shift(dx, dy)
    {
      trace := trace + [Event.Translate(dx, dy)];
      origin := origin.Shift(dx, dy);
    }

    method DrawOval(x: int, y: int, w: int, h: int)
      modifies this
      ensures trace == old(trace) + [Event.DrawOval(x, y, w, h, origin)] && origin == old(origin)
    {
      trace := trace + [Event.DrawOval(x, y, w, h, origin)];
    }

    method FillOval(x: int, y: int, w: int, h: int)
      modifies this
      ensures trace == old(trace) + [Event.FillOval(x, y, w, h, origin)] && origin == old(origin)
    {
      trace := trace + [Event.FillOval(x, y, w, h, origin)];
    }

    method DrawString(text: Text, x: int, y: int)
      modifies this
      ensures trace == old(trace) + [Event.DrawString(text, x, y, origin)] && origin == old(origin)
    {
      trace := trace + [Event.DrawString(text, x, y, origin)];
    }
  }
}
