/**
 * The toroidal wrap applied to every sprite after its update: a sprite that
 * has left the canvas by more than its radius on one side reappears just
 * outside the opposite side. Each axis is handled by the same rule,
 * independently of the other.
 */
module Wrap {
  import opened Sprites

  /** The band a coordinate is kept in: [-r, extent + r]. */
  predicate InBand(p: real, r: real, extent: real) {
    -r <= p <= extent + r
  }

  /**
   * One axis: beyond the low edge (`p < -r`) goes to `extent + r`; else,
   * beyond the high edge (`p > extent + r`) goes to `-r`; otherwise unchanged.
   */
  function WrapAxis(p: real, r: real, extent: real): (q: real)
    ensures p < -r ==> q == extent + r
    ensures -r <= p && p > extent + r ==> q == -r
    ensures InBand(p, r, extent) ==> q == p
  {
    if p < -r then extent + r
    else if p > extent + r then 0.0 - r
    else p
  }

  /**
   * Both axes of one sprite, with the canvas width for x and height for y:
   * only the position changes, a sprite inside the band on both axes stays
   * put, and with a non-negative radius and canvas the result is inside the
   * band on both axes.
   */
  function WrapSprite(s: Sprite, width: real, height: real): (w: Sprite)
    ensures w.(x := s.x, y := s.y) == s
    ensures InBand(s.x, s.radius, width) && InBand(s.y, s.radius, height) ==> w == s
    ensures s.radius >= 0.0 && width >= 0.0 && height >= 0.0 ==>
      InBand(w.x, w.radius, width) && InBand(w.y, w.radius, height)
  {
    s.(x := WrapAxis(s.x, s.radius, width), y := WrapAxis(s.y, s.radius, height))
  }

  /**
   * With a non-negative radius and extent, the wrapped coordinate is in the
   * band whatever it was before, and the two branches cannot both apply.
   */
  lemma WrapBounds(p: real, r: real, extent: real)
    requires r >= 0.0 && extent >= 0.0
    ensures InBand(WrapAxis(p, r, extent), r, extent)
    ensures !(p < -r && p > extent + r)
  {
  }

  /** Wrapping twice is wrapping once. */
  lemma WrapIdempotent(p: real, r: real, extent: real)
    requires r >= 0.0 && extent >= 0.0
    ensures WrapAxis(WrapAxis(p, r, extent), r, extent) == WrapAxis(p, r, extent)
  {
    WrapBounds(p, r, extent);
  }

  /** Wrapping a sprite twice is wrapping it once. */
  lemma WrapSpriteIdempotent(s: Sprite, width: real, height: real)
    requires s.radius >= 0.0 && width >= 0.0 && height >= 0.0
    ensures WrapSprite(WrapSprite(s, width, height), width, height) == WrapSprite(s, width, height)
  {
    WrapIdempotent(s.x, s.radius, width);
    WrapIdempotent(s.y, s.radius, height);
  }

  /**
   * An asteroid of radius 30 at x = -5 is still in the band and stays put on
   * a 640-wide canvas; one at x = -31 goes to 670, and one at x = 671 to -30.
   */
  lemma WrapExamples()
    ensures WrapAxis(-5.0, 30.0, 640.0) == -5.0
    ensures WrapAxis(-31.0, 30.0, 640.0) == 670.0
    ensures WrapAxis(671.0, 30.0, 640.0) == -30.0
  {
  }
}
