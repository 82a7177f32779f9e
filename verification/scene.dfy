/** The scene's seed data and the rule that populates the scene from it:
    every seed is tried in order and only those that pass validation are kept. */
module Scene {
  import opened Awt
  import opened Celestial

  const MercurySeed := BodySpec("Mercury", 87.968, 0.38710, 4879.4, Gray)
  const VenusSeed := BodySpec("Venus", 224.69, 0.72332, 12103.0, LightGray)
  const EarthSeed := BodySpec("Earth", 365.24, 1.0000, 12742.0, Cyan)
  const MarsSeed := BodySpec("Mars", 686.97, 1.5235, 6779.0, Red)
  const MoonSeed := BodySpec("Moon", 27.322, 0.1, 3473.8, White)

  /** The construction attempts, in the order they are made. */
  const Seeds := [MercurySeed, VenusSeed, EarthSeed, MarsSeed, MoonSeed]

  /** The seeds whose construction succeeds, in seed order. */
  function Accepted(seeds: seq<BodySpec>): (kept: seq<BodySpec>)
    ensures |kept| <= |seeds|
  {
    if seeds == [] then []
    else
      var last := seeds[|seeds| - 1];
      Accepted(seeds[..|seeds| - 1]) + (if Acceptable(last) then [last] else [])
  }

  /** A failed seed leaves no entry and does not stop the later seeds: the
      filter works seed by seed. */
  lemma {:induction false} AcceptedAppend(a: seq<BodySpec>, b: seq<BodySpec>)
    ensures Accepted(a + b) == Accepted(a) + Accepted(b)
    decreases |b|
  {
    if b == [] {
      assert a + b == a;
    } else {
      assert (a + b)[..|a + b| - 1] == a + b[..|b| - 1];
      AcceptedAppend(a, b[..|b| - 1]);
    }
  }

  /** A spec is in the scene exactly when it was seeded and passes validation. */
  lemma {:induction false} AcceptedMembers(seeds: seq<BodySpec>, s: BodySpec)
    ensures s in Accepted(seeds) <==> s in seeds && Acceptable(s)
    decreases |seeds|
  {
    if seeds != [] {
      var init := seeds[..|seeds| - 1];
      AcceptedMembers(init, s);
      assert seeds == init + [seeds[|seeds| - 1]];
    }
  }

  /** Nothing is dropped exactly when every seed is valid. */
  lemma {:induction false} AcceptedKeepsAll(seeds: seq<BodySpec>)
    ensures Accepted(seeds) == seeds <==> forall i :: 0 <= i < |seeds| ==> Acceptable(seeds[i])
    decreases |seeds|
  {
    if seeds != [] {
      var init := seeds[..|seeds| - 1];
      var last := seeds[|seeds| - 1];
      AcceptedKeepsAll(init);
      assert seeds == init + [last];
      if !Acceptable(last) {
        assert |Accepted(seeds)| < |seeds|;
      } else if Accepted(seeds) == seeds {
        assert Accepted(init) == seeds[..|seeds| - 1];
      }
    }
  }

  /** The reference seeds are all valid, so the scene holds all five bodies. */
  lemma SeedsAllAccepted()
    ensures Accepted(Seeds) == Seeds
  {
    AcceptedKeepsAll(Seeds);
  }

  /** The constructor arguments of each body of a list, in list order. */
  function Specs(bodies: seq<Body>): (specs: seq<BodySpec>)
    ensures |specs| == |bodies|
    ensures forall i :: 0 <= i < |bodies| ==> specs[i] == bodies[i].Spec()
  {
    seq(|bodies|, i requires 0 <= i < |bodies| => bodies[i].Spec())
  }
}
