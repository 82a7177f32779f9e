/** A body on a circular orbit: validated orbital parameters that never
    change, an opaque colour, and a pixel position that the animation
    overwrites on every frame. */
module Celestial {
  import opened Awt

  datatype Option<+T> = None | Some(value: T)
  datatype Result<+T, +E> = Success(value: T) | Failure(error: E)

  /** The three validated parameters, in the order the constructor checks them. */
  datatype Field = Period | Radius | Diameter
  {
    function Rank(): nat { match this case Period => 0 case Radius => 1 case Diameter => 2 }
  }

  /** The exception the constructor throws: it names the body and the offending field.
      (The wording of the message is not modelled.) */
  datatype InvalidOrbitParameter = InvalidOrbitParameter(body: string, field: Field)

  /** The constructor arguments of a body. */
  datatype BodySpec = BodySpec(name: string, p: real, r: real, d: real, color: Color)

  /** The value the constructor checks for `field`. */
  function FieldValue(field: Field, p: real, r: real, d: real): real
  {
    match field
    case Period => p
    case Radius => r
    case Diameter => d
  }

  /** The constructor's checks: period, then radius, then diameter, stopping at
      the first one that is not strictly positive. The colour is not checked. */
  function Validate(name: string, p: real, r: real, d: real): (e: Option<InvalidOrbitParameter>)
    ensures e.None? <==> p > 0.0 && r > 0.0 && d > 0.0
    ensures e.Some? ==> e.value.body == name
    ensures e.Some? ==> FieldValue(e.value.field, p, r, d) <= 0.0
    ensures e.Some? ==> forall f: Field :: f.Rank() < e.value.field.Rank() ==> FieldValue(f, p, r, d) > 0.0
  {
    if p <= 0.0 then Some(InvalidOrbitParameter(name, Period))
    else if r <= 0.0 then Some(InvalidOrbitParameter(name, Radius))
    else if d <= 0.0 then Some(InvalidOrbitParameter(name, Diameter))
    else None
  }

  predicate Acceptable(s: BodySpec)
  {
    Validate(s.name, s.p, s.r, s.d).None?
  }

  /** A body that passed validation. Name, period, radius, diameter and colour
      are fixed at construction; only the position (x, y) changes. */
  class Body {
    const name: string
    const p: real  // orbital period, days
    const r: real  // orbital radius, AU
    const d: real  // diameter, km
    const color: Color
    var x: real    // position relative to the orbit's centre, pixels
    var y: real

    predicate Valid()
    {
      p > 0.0 && r > 0.0 && d > 0.0
    }

    function Spec(): BodySpec
    {
      BodySpec(name, p, r, d, color)
    }

    constructor (name: string, p: real, r: real, d: real, color: Color)
      requires Validate(name, p, r, d).None?
      ensures Valid() && Spec() == BodySpec(name, p, r, d, color)
      ensures x == 0.0 && y == 0.0
    {
      this.name, this.p, this.r, this.d, this.color := name, p, r, d, color;
      x, y := 0.0, 0.0;
    }

    function GetName(): string { name }
    function GetP(): real { p }
    function GetR(): real { r }
    function GetD(): real { d }
    function GetColor(): Color { color }
    function GetX(): real reads this { x }
    function GetY(): real reads this { y }

    /** Writes x and nothing else. */
    method SetX(x: real)
      modifies this
      ensures GetX() == x && GetY() == old(GetY())
    {
      this.x := x;
    }

    /** Writes y and nothing else. */
    method SetY(y: real)
      modifies this
      ensures GetY() == y && GetX() == old(GetX())
    {
      this.y := y;
    }
  }

  /** `new CelestialCircular(name, p, r, d, c)`: a fresh body when the three
      parameters are positive, otherwise the exception for the first bad one. */
  method Create(name: string, p: real, r: real, d: real, c: Color)
    returns (res: Result<Body, InvalidOrbitParameter>)
    ensures res.Success? <==> p > 0.0 && r > 0.0 && d > 0.0
    ensures res.Failure? ==> Validate(name, p, r, d) == Some(res.error)
    ensures res.Success? ==> fresh(res.value) && res.value.Valid()
    ensures res.Success? ==>
      var b := res.value;
      b.GetName() == name && b.GetP() == p && b.GetR() == r && b.GetD() == d && b.GetColor() == c
  {
    var e := Validate(name, p, r, d);
    if e.Some? {
      return Failure(e.value);
    }
    var b := new Body(name, p, r, d, c);
    return Success(b);
  }
}
