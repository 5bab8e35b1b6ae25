/**
 * The game: the list of sprites, the start-up population of `start()`, and
 * one update of the GameLoop: every sprite present at the start of the
 * frame is updated and wrapped (`sprites.map`), the collision pass runs over
 * the growing list, and the dead are filtered out.
 *
 * The canvas size, the key states, the cosine and sine of a heading and the
 * `Math.random()` draws of one frame are the frame's `Inputs`.
 */
module Game {
  import opened Sprites
  import opened ShipControl
  import opened Wrap
  import opened Collision
  import opened Compaction

  /**
   * What one frame reads from outside: the canvas size, the keys, the
   * cosine and sine of a heading in degrees, and the random draws of the
   * frame in the order they are made.
   */
  datatype Inputs = Inputs(
    width: real, height: real,
    keys: Keys,
    cosOf: int -> real, sinOf: int -> real,
    random: nat -> real)

  /** The number of ships in a list of sprites. */
  function Ships(s: seq<Sprite>): nat {
    if s == [] then 0 else (if s[0].kind == Ship then 1 else 0) + Ships(s[1..])
  }

  lemma {:induction false} ShipsAppend(a: seq<Sprite>, b: seq<Sprite>)
    ensures Ships(a + b) == Ships(a) + Ships(b)
    decreases a
  {
    if a == [] {
      assert a + b == b;
    } else {
      assert (a + b)[0] == a[0];
      assert (a + b)[1..] == a[1..] + b;
      ShipsAppend(a[1..], b);
    }
  }

  /** Two lists with the same kinds, position by position, hold as many ships. */
  lemma {:induction false} ShipsOfSameKinds(a: seq<Sprite>, b: seq<Sprite>)
    requires |a| == |b|
    requires forall p :: 0 <= p < |a| ==> a[p].kind == b[p].kind
    ensures Ships(a) == Ships(b)
    decreases a
  {
    if a != [] {
      ShipsOfSameKinds(a[1..], b[1..]);
    }
  }

  /** A list without ships has none. */
  lemma {:induction false} NoShips(s: seq<Sprite>)
    requires forall p :: 0 <= p < |s| ==> s[p].kind != Ship
    ensures Ships(s) == 0
    decreases s
  {
    if s != [] {
      NoShips(s[1..]);
    }
  }

  /** A list that keeps the kinds of `s` on its first `|s|` entries and appends no ship has as many ships as `s`. */
  lemma ShipsOfExtension(s: seq<Sprite>, r: seq<Sprite>)
    requires |s| <= |r|
    requires forall p :: 0 <= p < |s| ==> r[p].kind == s[p].kind
    requires forall p :: |s| <= p < |r| ==> r[p].kind != Ship
    ensures Ships(r) == Ships(s)
  {
    assert r == r[..|s|] + r[|s|..];
    ShipsAppend(r[..|s|], r[|s|..]);
    ShipsOfSameKinds(r[..|s|], s);
    NoShips(r[|s|..]);
  }

  /** Every radius is non-negative. */
  predicate RadiiNonNegative(s: seq<Sprite>) {
    forall p :: 0 <= p < |s| ==> s[p].radius >= 0.0
  }

  // ---------------------------------------------------------------------
  // Start-up
  // ---------------------------------------------------------------------

  /**
   * Asteroid `p` of the start-up field: the defaults, with draws `2p` and
   * `2p + 1`. It never expires, and with draws in [0, 1) each velocity
   * component is in [-2, 2).
   */
  function StartAsteroid(random: nat -> real, p: nat): (a: Sprite)
    ensures a.kind == Asteroid && a.ttl == Forever
    ensures a.x == DefaultAsteroidX && a.y == DefaultAsteroidY && a.radius == DefaultAsteroidRadius
    ensures 0.0 <= random(2 * p) < 1.0 && 0.0 <= random(2 * p + 1) < 1.0 ==>
      -2.0 <= a.dx < 2.0 && -2.0 <= a.dy < 2.0
  {
    CreateAsteroid(DefaultAsteroidX, DefaultAsteroidY, DefaultAsteroidRadius, random(2 * p), random(2 * p + 1))
  }

  /**
   * `start()`: four default asteroids, then the ship. The field holds
   * exactly one ship and no negative radius.
   */
  function StartField(random: nat -> real): (s: seq<Sprite>)
    ensures |s| == 5 && s[4] == CreateShip()
    ensures forall p :: 0 <= p < 4 ==> s[p] == StartAsteroid(random, p)
    ensures Ships(s) == 1 && RadiiNonNegative(s)
  {
    var asteroids := [StartAsteroid(random, 0), StartAsteroid(random, 1), StartAsteroid(random, 2), StartAsteroid(random, 3)];
    NoShips(asteroids);
    ShipsAppend(asteroids, [CreateShip()]);
    assert [CreateShip()][1..] == [];
    asteroids + [CreateShip()]
  }

  /** A list none of whose updates pushes a bullet fires nothing. */
  lemma {:induction false} NoneFired(s: seq<Sprite>, inputs: Inputs)
    requires forall p :: 0 <= p < |s| ==> Updated(s[p], inputs).bullet.None?
    ensures Fired(s, inputs) == []
    decreases s
  {
    if s != [] {
      NoneFired(s[1..], inputs);
    }
  }

  /** Four asteroids of radius 30 and then a ship: each asteroid can add 13 sprites, the ship 1. */
  predicate FieldOfFour(m: seq<Sprite>) {
    |m| == 5 && m[4].kind == Ship
    && forall p :: 0 <= p < 4 ==> m[p].kind == Asteroid && m[p].radius == DefaultAsteroidRadius
  }

  lemma FieldOfFourWeight(m: seq<Sprite>, draws: nat -> real)
    requires FieldOfFour(m)
    ensures Weight(m) == 53 && |Scan(m, 0, 0, draws)| <= 53
  {
    SplitChainFrom30();
    assert Cost(m[0]) == 13 && Cost(m[1]) == 13 && Cost(m[2]) == 13 && Cost(m[3]) == 13 && Cost(m[4]) == 1;
    WeightFrom(m, 0);
    WeightFrom(m, 1);
    WeightFrom(m, 2);
    WeightFrom(m, 3);
    WeightFrom(m, 4);
    assert m[5..] == [];
    assert m[0..] == m;
    ScanGrowthBound(m, 0, 0, draws);
  }

  /**
   * A field of four whose ship's fire timer is at 0 fires nothing on its
   * next map: one frame adds only 1/60 of a second to the timer. The map
   * leaves a field of four.
   */
  lemma FieldOfFourFiresNothing(s: seq<Sprite>, inputs: Inputs)
    requires FieldOfFour(s) && s[4].dt == 0.0
    ensures Fired(s, inputs) == [] && FieldOfFour(Pass(s, inputs))
  {
    forall p | 0 <= p < |s|
      ensures Updated(s[p], inputs).bullet.None?
    {
    }
    NoneFired(s, inputs);
  }

  /** Nothing is fired on the first frame: the map leaves the five sprites of the start-up field. */
  lemma StartFrameFiresNothing(random: nat -> real, inputs: Inputs)
    ensures Fired(StartField(random), inputs) == []
    ensures |Pass(StartField(random), inputs)| == 5
  {
    FieldOfFourFiresNothing(StartField(random), inputs);
  }

  /**
   * The most sprites the collision pass of the first frame can leave is
   * 53: four asteroids of split potential 13 each, and the ship. This holds
   * whatever the keys, the canvas and the draws.
   */
  lemma StartFrameGrowthBound(random: nat -> real, inputs: Inputs)
    ensures Weight(Pass(StartField(random), inputs)) == 53
    ensures |Scan(Pass(StartField(random), inputs), 0, 0, inputs.random)| <= 53
  {
    FieldOfFourFiresNothing(StartField(random), inputs);
    FieldOfFourWeight(Pass(StartField(random), inputs), inputs.random);
  }

  /** After its first update the ship is within 0.05 of where it started on each axis. */
  lemma ShipNearStart(ship: Sprite, keys: Keys, cosOf: int -> real, sinOf: int -> real)
    requires ship.dx == 0.0 && ship.dy == 0.0
    requires forall h :: -1.0 <= cosOf(h) <= 1.0 && -1.0 <= sinOf(h) <= 1.0
    ensures var r := ShipStep(ship, keys, cosOf, sinOf).sprite;
      ship.x - 0.05 <= r.x <= ship.x + 0.05 && ship.y - 0.05 <= r.y <= ship.y + 0.05
  {
    var r := ShipStep(ship, keys, cosOf, sinOf).sprite;
    assert -1.0 <= cosOf(r.rotation) <= 1.0 && -1.0 <= sinOf(r.rotation) <= 1.0;
  }

  /** Four asteroids left of x = 102, then a ship of radius 6 right of x = 299.95: the collision pass changes nothing. */
  lemma FieldApart(m: seq<Sprite>, draws: nat -> real)
    requires FieldOfFour(m) && m[4].radius == ShipRadius && 299.95 <= m[4].x
    requires forall p :: 0 <= p < 4 ==> m[p].x < 102.0
    ensures Scan(m, 0, 0, draws) == m
  {
    forall p | 0 <= p < 4
      ensures FirstHit(m, p, 0).None?
    {
      ApartOnX(m[p], m[4]);
      assert !Hits(m, p, 4);
    }
    assert Step(m, 0, 0, draws) == (m, 0);
    assert Step(m, 1, 0, draws) == (m, 0);
    assert Step(m, 2, 0, draws) == (m, 0);
    assert Step(m, 3, 0, draws) == (m, 0);
    assert Step(m, 4, 0, draws) == (m, 0);
    ScanUnfold(m, 0, 0, draws);
    ScanUnfold(m, 1, 0, draws);
    ScanUnfold(m, 2, 0, draws);
    ScanUnfold(m, 3, 0, draws);
    ScanUnfold(m, 4, 0, draws);
    ScanAtEnd(m, 0, draws);
  }

  /**
   * The start-up positions after one map: asteroids at (100, 100) moving
   * less than 2 units per axis stay left of x = 102, and the ship at
   * (300, 300) at rest moves at most 0.05; on a canvas of at least 300 by
   * 300 none of them wraps.
   */
  lemma FieldAfterMap(s: seq<Sprite>, inputs: Inputs)
    requires FieldOfFour(s) && s[4].dt == 0.0 && s[4].dx == 0.0 && s[4].dy == 0.0
    requires s[4].x == ShipX && s[4].y == ShipY && s[4].radius == ShipRadius
    requires forall p :: 0 <= p < 4 ==>
      s[p].x == DefaultAsteroidX && s[p].y == DefaultAsteroidY && s[p].ddx == 0.0 && s[p].ddy == 0.0
      && -2.0 <= s[p].dx < 2.0 && -2.0 <= s[p].dy < 2.0
    requires forall h :: -1.0 <= inputs.cosOf(h) <= 1.0 && -1.0 <= inputs.sinOf(h) <= 1.0
    requires inputs.width >= 300.0 && inputs.height >= 300.0
    ensures FieldOfFour(Pass(s, inputs))
    ensures Pass(s, inputs)[4].radius == ShipRadius && 299.95 <= Pass(s, inputs)[4].x
    ensures forall p :: 0 <= p < 4 ==> Pass(s, inputs)[p].x < 102.0
  {
    FieldOfFourFiresNothing(s, inputs);
    forall p | 0 <= p < 4
      ensures Pass(s, inputs)[p].x < 102.0
    {
      AsteroidAfterMap(s[p], inputs);
    }
    ShipAfterMap(s[4], inputs);
  }

  /** An asteroid at (100, 100) moving less than 2 units per axis is left of x = 102 after its update and wrap. */
  lemma AsteroidAfterMap(a: Sprite, inputs: Inputs)
    requires a.kind == Asteroid && a.radius == DefaultAsteroidRadius
    requires a.x == DefaultAsteroidX && a.y == DefaultAsteroidY && a.ddx == 0.0 && a.ddy == 0.0
    requires -2.0 <= a.dx < 2.0 && -2.0 <= a.dy < 2.0
    requires inputs.width >= 300.0 && inputs.height >= 300.0
    ensures Updated(a, inputs).sprite.x < 102.0
  {
    var moved := Advance(a);
    assert InBand(moved.x, moved.radius, inputs.width) && InBand(moved.y, moved.radius, inputs.height);
  }

  /** The ship at (300, 300) at rest is right of x = 299.95 after its update and wrap. */
  lemma ShipAfterMap(ship: Sprite, inputs: Inputs)
    requires ship.kind == Ship && ship.radius == ShipRadius && ship.dx == 0.0 && ship.dy == 0.0
    requires ship.x == ShipX && ship.y == ShipY
    requires forall h :: -1.0 <= inputs.cosOf(h) <= 1.0 && -1.0 <= inputs.sinOf(h) <= 1.0
    requires inputs.width >= 300.0 && inputs.height >= 300.0
    ensures 299.95 <= Updated(ship, inputs).sprite.x
  {
    var moved := ShipStep(ship, inputs.keys, inputs.cosOf, inputs.sinOf).sprite;
    ShipNearStart(ship, inputs.keys, inputs.cosOf, inputs.sinOf);
    assert InBand(moved.x, moved.radius, inputs.width) && InBand(moved.y, moved.radius, inputs.height);
  }

  /**
   * Nothing collides on the first frame when the start-up draws are in
   * [0, 1), the cosine and sine are in [-1, 1] and the canvas is at least
   * 300 by 300: the collision pass leaves the list exactly as the map left
   * it.
   */
  lemma StartFrameHasNoCollision(random: nat -> real, inputs: Inputs)
    requires forall d :: 0.0 <= random(d) < 1.0
    requires forall h :: -1.0 <= inputs.cosOf(h) <= 1.0 && -1.0 <= inputs.sinOf(h) <= 1.0
    requires inputs.width >= 300.0 && inputs.height >= 300.0
    ensures Scan(Pass(StartField(random), inputs), 0, 0, inputs.random) == Pass(StartField(random), inputs)
  {
    var s := StartField(random);
    forall p | 0 <= p < 4
      ensures -2.0 <= s[p].dx < 2.0 && -2.0 <= s[p].dy < 2.0 && s[p].ddx == 0.0 && s[p].ddy == 0.0
    {
      assert 0.0 <= random(2 * p) < 1.0 && 0.0 <= random(2 * p + 1) < 1.0;
    }
    FieldAfterMap(s, inputs);
    FieldApart(Pass(s, inputs), inputs.random);
  }

  // ---------------------------------------------------------------------
  // The update pass
  // ---------------------------------------------------------------------

  /**
   * The update of one sprite followed by its wrap; the ship's bullet, if
   * any, is set apart. The kind and the radius are kept, the sprite ends in
   * the band, a sprite other than the ship is advanced (kontra's default
   * `update()`), and only the ship fires a fresh bullet: exactly when "space"
   * is down and its fire timer passes a quarter of a second.
   */
  function Updated(s: Sprite, inputs: Inputs): (o: Outcome)
    ensures o.sprite.kind == s.kind && o.sprite.radius == s.radius
    ensures s.radius >= 0.0 && inputs.width >= 0.0 && inputs.height >= 0.0 ==>
      InBand(o.sprite.x, o.sprite.radius, inputs.width) && InBand(o.sprite.y, o.sprite.radius, inputs.height)
    ensures s.kind != Ship ==> o == Outcome(WrapSprite(Advance(s), inputs.width, inputs.height), None)
    ensures o.bullet.Some? <==> s.kind == Ship && inputs.keys.space && s.dt + FrameTime > FireInterval
    ensures o.bullet.Some? ==>
      o.bullet.value.kind == Bullet && o.bullet.value.radius == BulletRadius
      && o.bullet.value.ttl == Frames(BulletTtl)
  {
    if s.kind == Ship then
      var o := ShipStep(s, inputs.keys, inputs.cosOf, inputs.sinOf);
      Outcome(WrapSprite(o.sprite, inputs.width, inputs.height), o.bullet)
    else
      Outcome(WrapSprite(Advance(s), inputs.width, inputs.height), None)
  }

  /** The bullet a sprite's update pushes, as a list of zero or one. */
  function Pushed(o: Outcome): seq<Sprite> {
    if o.bullet.Some? then [o.bullet.value] else []
  }

  /**
   * The visit of index `i` by the map callback: the sprite there becomes its
   * update, every other entry is kept, and the bullet, if any, is pushed at
   * the end.
   */
  function Visit(s: seq<Sprite>, i: nat, inputs: Inputs): (t: seq<Sprite>)
    requires i < |s|
    ensures |s| <= |t| <= |s| + 1
    ensures t[i] == Updated(s[i], inputs).sprite
    ensures forall p :: 0 <= p < |s| && p != i ==> t[p] == s[p]
    ensures t[|s|..] == Pushed(Updated(s[i], inputs))
  {
    var o := Updated(s[i], inputs);
    s[i := o.sprite] + Pushed(o)
  }

  /**
   * The map callback for the indices `i` to `n - 1`, in order. `n` is the
   * length of the list when the map started: what the callback pushes is
   * not visited. Each of those entries is replaced by its own update, the
   * others are untouched, and the list only grows.
   */
  function PassFrom(s: seq<Sprite>, i: nat, n: nat, inputs: Inputs): (r: seq<Sprite>)
    requires i <= n <= |s|
    ensures |s| <= |r|
    ensures forall p :: 0 <= p < |s| && !(i <= p < n) ==> r[p] == s[p]
    ensures forall p :: i <= p < n ==> r[p] == Updated(s[p], inputs).sprite
    decreases n - i
  {
    if i == n then s else PassFrom(Visit(s, i, inputs), i + 1, n, inputs)
  }

  /**
   * The bullets the updates of the sprites of `s` push, in order: at most
   * one per ship, none while "space" is up, each a fresh bullet of radius 2
   * with 50 frames to live.
   */
  function Fired(s: seq<Sprite>, inputs: Inputs): (f: seq<Sprite>)
    ensures |f| <= Ships(s)
    ensures !inputs.keys.space ==> f == []
    ensures forall p :: 0 <= p < |f| ==>
      f[p].kind == Bullet && f[p].radius == BulletRadius && f[p].ttl == Frames(BulletTtl)
    decreases s
  {
    if s == [] then []
    else
      var o := Updated(s[0], inputs);
      assert |Pushed(o)| <= if s[0].kind == Ship then 1 else 0;
      Pushed(o) + Fired(s[1..], inputs)
  }

  /** Visiting `i` to `n - 1` leaves the entries from `m` on, all past `n`, as they were. */
  lemma PassFromKeepsTail(t: seq<Sprite>, i: nat, n: nat, m: nat, inputs: Inputs)
    requires i <= n <= m <= |t|
    ensures |t| <= |PassFrom(t, i, n, inputs)| && PassFrom(t, i, n, inputs)[m..|t|] == t[m..]
  {
  }

  /** The bullets pushed by the updates of `s[i..n]`: those of `s[i]`, then the rest. */
  lemma FiredFrom(s: seq<Sprite>, i: nat, n: nat, inputs: Inputs)
    requires i < n <= |s|
    ensures Fired(s[i..n], inputs) == Pushed(Updated(s[i], inputs)) + Fired(s[i + 1..n], inputs)
  {
    assert s[i..n][0] == s[i] && s[i..n][1..] == s[i + 1..n];
  }

  /** The visit of `i` leaves the entries after it as they were. */
  lemma VisitKeepsRest(s: seq<Sprite>, i: nat, n: nat, inputs: Inputs)
    requires i < n <= |s|
    ensures Visit(s, i, inputs)[i + 1..n] == s[i + 1..n]
  {
  }

  lemma SplitAt(r: seq<Sprite>, a: nat, b: nat)
    requires a <= b <= |r|
    ensures r[a..] == r[a..b] + r[b..]
  {
  }

  /** Visiting `i` to `n - 1` is visiting `i`, then `i + 1` to `n - 1`. */
  lemma PassFromStep(s: seq<Sprite>, i: nat, n: nat, inputs: Inputs)
    requires i < n <= |s|
    ensures PassFrom(s, i, n, inputs) == PassFrom(Visit(s, i, inputs), i + 1, n, inputs)
  {
  }

  /** Replacing entry `i` and then appending, then replacing entry `i` again, keeps only the second replacement. */
  lemma ReplaceTwice(s: seq<Sprite>, i: nat, u: Sprite, w: Sprite, tail: seq<Sprite>)
    requires i < |s|
    ensures (s[i := u] + tail)[i := w] == s[i := w] + tail
  {
  }

  /** What visiting `i` to `n - 1` appends: the bullets their updates push, in order. */
  lemma {:induction false} PassFromAppends(s: seq<Sprite>, i: nat, n: nat, inputs: Inputs)
    requires i <= n <= |s|
    ensures var r := PassFrom(s, i, n, inputs);
      |s| <= |r| && r[|s|..] == Fired(s[i..n], inputs)
    decreases n - i
  {
    if i < n {
      var t := Visit(s, i, inputs);
      var r := PassFrom(t, i + 1, n, inputs);
      PassFromAppends(t, i + 1, n, inputs);
      PassFromKeepsTail(t, i + 1, n, |s|, inputs);
      FiredFrom(s, i, n, inputs);
      VisitKeepsRest(s, i, n, inputs);
      assert r[|s|..|t|] == Pushed(Updated(s[i], inputs));
      SplitAt(r, |s|, |t|);
    } else {
      assert s[i..n] == [];
    }
  }

  /**
   * `sprites.map(...)` of one frame. It visits every sprite present at its
   * start exactly once: sprite `p` becomes its own update. The list grows
   * only by the bullets pushed, at most one per ship, and they are neither
   * advanced nor wrapped.
   */
  function Pass(s: seq<Sprite>, inputs: Inputs): (r: seq<Sprite>)
    ensures |s| <= |r| <= |s| + Ships(s)
    ensures forall p :: 0 <= p < |s| ==> r[p] == Updated(s[p], inputs).sprite
    ensures r[|s|..] == Fired(s, inputs)
  {
    PassFromAppends(s, 0, |s|, inputs);
    assert s[0..|s|] == s;
    PassFrom(s, 0, |s|, inputs)
  }

  /** The map keeps the kinds and the radii of the sprites it visits, hence the ship count; what it appends are bullets. */
  lemma PassKeepsShipsAndRadii(s: seq<Sprite>, inputs: Inputs)
    requires RadiiNonNegative(s)
    ensures Ships(Pass(s, inputs)) == Ships(s) && RadiiNonNegative(Pass(s, inputs))
  {
    var r := Pass(s, inputs);
    forall p | |s| <= p < |r|
      ensures r[p].kind == Bullet && r[p].radius == BulletRadius
    {
      assert r[p] == Fired(s, inputs)[p - |s|];
    }
    ShipsOfExtension(s, r);
  }

  /**
   * After the map, every sprite that was present before it is inside the
   * band on both axes; the bullets just pushed are not wrapped yet. The ship
   * count and the radii are unchanged.
   */
  lemma PassInBand(s: seq<Sprite>, inputs: Inputs)
    requires RadiiNonNegative(s) && inputs.width >= 0.0 && inputs.height >= 0.0
    ensures |s| <= |Pass(s, inputs)|
    ensures forall p :: 0 <= p < |s| ==>
      Pass(s, inputs)[p].kind == s[p].kind && Pass(s, inputs)[p].radius == s[p].radius
    ensures forall p :: 0 <= p < |s| ==>
      InBand(Pass(s, inputs)[p].x, Pass(s, inputs)[p].radius, inputs.width)
      && InBand(Pass(s, inputs)[p].y, Pass(s, inputs)[p].radius, inputs.height)
    ensures Ships(Pass(s, inputs)) == Ships(s) && RadiiNonNegative(Pass(s, inputs))
  {
    PassKeepsShipsAndRadii(s, inputs);
  }

  // ---------------------------------------------------------------------
  // One frame
  // ---------------------------------------------------------------------

  /** The collision pass keeps every radius non-negative: a child gets its parent's radius divided by 2.5. */
  lemma {:induction false} ScanKeepsRadii(s: seq<Sprite>, i: nat, k: nat, random: nat -> real)
    requires i <= |s| && RadiiNonNegative(s)
    ensures RadiiNonNegative(Scan(s, i, k, random))
    decreases Weight(s[i..])
  {
    if i < |s| {
      var n := Step(s, i, k, random);
      StepLowersWeight(s, i, k, random);
      if s[i].kind == Asteroid && FirstHit(s, i, 0).Some? {
        var t := Hit(s, i, FirstHit(s, i, 0).value, k, random);
        forall p | |s| <= p < |t|
          ensures t[p].radius >= 0.0
        {
          assert t[p] == t[|s|..][p - |s|];
        }
      }
      ScanKeepsRadii(n.0, i + 1, n.1, random);
    }
  }

  /** The collision pass neither adds nor removes a ship, and keeps the radii non-negative. */
  lemma ScanKeepsShipsAndRadii(s: seq<Sprite>, random: nat -> real)
    requires RadiiNonNegative(s)
    ensures Ships(Scan(s, 0, 0, random)) == Ships(s) && RadiiNonNegative(Scan(s, 0, 0, random))
  {
    var r := Scan(s, 0, 0, random);
    ShipsOfExtension(s, r);
    ScanKeepsRadii(s, 0, 0, random);
  }

  /** The filter never adds a ship. */
  lemma {:induction false} LiveSpritesKeepsShips(s: seq<Sprite>)
    ensures Ships(LiveSprites(s)) <= Ships(s)
    decreases s
  {
    if s != [] {
      LiveSpritesKeepsShips(s[1..]);
      var head := if Alive(s[0]) then [s[0]] else [];
      assert LiveSprites(s) == head + LiveSprites(s[1..]);
      ShipsAppend(head, LiveSprites(s[1..]));
    }
  }

  /** A sprite of the filtered list is a live sprite of the list it came from. */
  lemma LiveSpriteOrigin(s: seq<Sprite>, p: nat)
    requires p < |LiveSprites(s)|
    ensures exists a :: 0 <= a < |s| && s[a] == LiveSprites(s)[p]
  {
    var v := LiveSprites(s)[p];
    LiveSpritesCounts(s);
    assert v in multiset(LiveSprites(s));
    assert v in multiset(s);
    assert v in s;
  }

  /** The filter keeps the radii non-negative: it only keeps sprites of the list. */
  lemma LiveSpritesKeepsRadii(s: seq<Sprite>)
    requires RadiiNonNegative(s)
    ensures RadiiNonNegative(LiveSprites(s))
  {
    forall p | 0 <= p < |LiveSprites(s)|
      ensures LiveSprites(s)[p].radius >= 0.0
    {
      LiveSpriteOrigin(s, p);
    }
  }

  /** No asteroid of the list overlaps a non-asteroid of it. */
  predicate NoCollision(r: seq<Sprite>) {
    forall p, q :: 0 <= p < |r| && 0 <= q < |r| && r[p].kind == Asteroid ==> !Hits(r, p, q)
  }

  /**
   * After the collision pass and the filter, no asteroid left overlaps a
   * non-asteroid left: every such pair met in the collision pass, which set
   * the asteroid's lifetime to 0, so the filter removed it.
   */
  lemma FilteredScanHasNoCollision(m: seq<Sprite>, random: nat -> real)
    ensures NoCollision(LiveSprites(Scan(m, 0, 0, random)))
  {
    var c := Scan(m, 0, 0, random);
    var r := LiveSprites(c);
    ScanKillsHitAsteroids(m, 0, 0, random);
    forall p, q | 0 <= p < |r| && 0 <= q < |r| && r[p].kind == Asteroid
      ensures !Hits(r, p, q)
    {
      LiveSpriteOrigin(c, p);
      LiveSpriteOrigin(c, q);
      var a :| 0 <= a < |c| && c[a] == r[p];
      var b :| 0 <= b < |c| && c[b] == r[q];
      assert Hits(r, p, q) == Hits(c, a, b);
      assert Alive(c[a]);
    }
  }

  /**
   * One GameLoop update of the list: the map, the collision pass, the
   * filter. Every sprite left is alive, and no asteroid left overlaps a
   * non-asteroid left.
   */
  function NextFrame(s: seq<Sprite>, inputs: Inputs): (r: seq<Sprite>)
    ensures forall p :: 0 <= p < |r| ==> Alive(r[p])
    ensures NoCollision(r)
  {
    FilteredScanHasNoCollision(Pass(s, inputs), inputs.random);
    LiveSprites(Scan(Pass(s, inputs), 0, 0, inputs.random))
  }

  /**
   * One frame keeps the game's invariant: the ship count never grows (the
   * only sprites created are asteroids and bullets), so there is never more
   * than one ship, and every radius stays non-negative.
   */
  lemma NextFrameKeepsInvariant(s: seq<Sprite>, inputs: Inputs)
    requires RadiiNonNegative(s)
    ensures Ships(NextFrame(s, inputs)) <= Ships(s) && RadiiNonNegative(NextFrame(s, inputs))
  {
    var m := Pass(s, inputs);
    PassKeepsShipsAndRadii(s, inputs);
    ScanKeepsShipsAndRadii(m, inputs.random);
    LiveSpritesKeepsShips(Scan(m, 0, 0, inputs.random));
    LiveSpritesKeepsRadii(Scan(m, 0, 0, inputs.random));
  }

  /** The game's state: the list of every sprite. */
  class World {
    var sprites: seq<Sprite>

    /** At most one ship, and no negative radius. */
    predicate Valid()
      reads this
    {
      Ships(sprites) <= 1 && RadiiNonNegative(sprites)
    }

    /** `start()`: four asteroids with the default arguments pushed in a loop, then the ship. */
    constructor Start(random: nat -> real)
      ensures sprites == StartField(random)
      ensures Valid()
    {
      var s: seq<Sprite> := [];
      for i := 0 to 4
        invariant s == StartField(random)[..i]
      {
        s := s + [CreateAsteroid(DefaultAsteroidX, DefaultAsteroidY, DefaultAsteroidRadius, random(2 * i), random(2 * i + 1))];
      }
      sprites := s + [CreateShip()];
    }

    /**
     * The ship's `update()`, on the ship at `i`: its fields are rewritten in
     * place, and the bullet it fires, if any, is pushed onto the list.
     */
    method UpdateShip(i: nat, keys: Keys, cosOf: int -> real, sinOf: int -> real)
      requires i < |sprites|
      modifies this
      ensures var o := ShipStep(old(sprites[i]), keys, cosOf, sinOf);
        sprites == old(sprites)[i := o.sprite] + Pushed(o)
    {
      var ship, fired := Control(sprites[i], keys, cosOf, sinOf);
      sprites := sprites[i := ship];
      if fired {
        sprites := sprites + [CreateBullet(ship, cosOf(ship.rotation), sinOf(ship.rotation))];
      }
    }

    /** The four edge tests of the map callback, on the sprite at `i`. */
    method WrapAt(i: nat, width: real, height: real)
      requires i < |sprites|
      modifies this
      ensures sprites == old(sprites)[i := WrapSprite(old(sprites[i]), width, height)]
    {
      var sprite := sprites[i];
      if sprite.x < -sprite.radius {
        sprite := sprite.(x := width + sprite.radius);
      } else if sprite.x > width + sprite.radius {
        sprite := sprite.(x := 0.0 - sprite.radius);
      }
      if sprite.y < -sprite.radius {
        sprite := sprite.(y := height + sprite.radius);
      } else if sprite.y > height + sprite.radius {
        sprite := sprite.(y := -sprite.radius);
      }
      sprites := sprites[i := sprite];
    }

    /**
     * The map callback on the sprite at `i`: the ship runs its own
     * `update()`, any other sprite `advance()`; then the four edge tests.
     */
    method VisitAt(i: nat, inputs: Inputs)
      requires i < |sprites|
      modifies this
      ensures sprites == Visit(old(sprites), i, inputs)
    {
      ghost var o := Updated(sprites[i], inputs);
      ghost var moved: Sprite;
      if sprites[i].kind == Ship {
        UpdateShip(i, inputs.keys, inputs.cosOf, inputs.sinOf);
        moved := ShipStep(old(sprites[i]), inputs.keys, inputs.cosOf, inputs.sinOf).sprite;
      } else {
        sprites := sprites[i := Advance(sprites[i])];
        moved := Advance(old(sprites[i]));
        assert sprites == old(sprites)[i := moved] + [];
      }
      assert sprites == old(sprites)[i := moved] + Pushed(o);
      WrapAt(i, inputs.width, inputs.height);
      ReplaceTwice(old(sprites), i, moved, o.sprite, Pushed(o));
    }

    /**
     * `sprites.map(...)`: each sprite present when the map starts is updated
     * (the ship by its own `update()`, the others by `advance()`) and then
     * wrapped; bullets pushed meanwhile are past the end it visits.
     */
    method UpdatePass(inputs: Inputs)
      requires Valid()
      modifies this
      ensures sprites == Pass(old(sprites), inputs)
      ensures |sprites| <= |old(sprites)| + 1
      ensures Valid()
    {
      var n := |sprites|;
      var i := 0;
      while i < n
        invariant i <= n <= |sprites|
        invariant PassFrom(sprites, i, n, inputs) == Pass(old(sprites), inputs)
      {
        ghost var before := sprites;
        VisitAt(i, inputs);
        PassFromStep(before, i, n, inputs);
        i := i + 1;
      }
      PassKeepsShipsAndRadii(old(sprites), inputs);
    }

    /**
     * The collision loops: for each index `i`, the turn of the sprite there,
     * while `i` is below the current (growing) length of the list.
     */
    method ResolveCollisions(random: nat -> real)
      requires Valid()
      modifies this
      ensures sprites == Scan(old(sprites), 0, 0, random)
      ensures Valid()
    {
      var i := 0;
      var k := 0;
      while i < |sprites|
        invariant i <= |sprites|
        invariant Scan(sprites, i, k, random) == Scan(old(sprites), 0, 0, random)
        decreases Weight(sprites[i..])
      {
        ghost var before := sprites;
        ghost var kBefore := k;
        k := TurnAt(i, k, random);
        StepLowersWeight(before, i, kBefore, random);
        i := i + 1;
      }
      ScanKeepsShipsAndRadii(old(sprites), random);
    }

    /**
     * The turn of index `i`: if the sprite there is an asteroid, scan `j`
     * over the whole list for the first non-asteroid within reach; on a hit,
     * collide and stop scanning. `k` is the next random draw.
     */
    method TurnAt(i: nat, k: nat, random: nat -> real) returns (next: nat)
      requires i < |sprites|
      modifies this
      ensures (sprites, next) == Step(old(sprites), i, k, random)
    {
      next := k;
      if sprites[i].kind == Asteroid {
        var j := 0;
        while j < |sprites|
          invariant j <= |sprites| && sprites == old(sprites) && next == k
          invariant FirstHit(sprites, i, 0) == FirstHit(sprites, i, j)
        {
          if sprites[j].kind != Asteroid {
            if Overlap(sprites[i], sprites[j]) {
              assert FirstHit(sprites, i, 0) == Some(j);
              next := Collide(i, j, k, random);
              break;
            }
          }
          j := j + 1;
        }
      }
    }

    /**
     * The body of a hit between the asteroid at `i` and the sprite at `j`:
     * both get `ttl = 0`, then, when the asteroid's radius is above 10, three
     * asteroids of radius r / 2.5 are pushed at its position, each drawing
     * two random numbers.
     */
    method Collide(i: nat, j: nat, k: nat, random: nat -> real) returns (next: nat)
      requires i < |sprites| && j < |sprites| && i != j
      modifies this
      ensures sprites == Hit(old(sprites), i, j, k, random)
      ensures next == k + 2 * (|sprites| - |old(sprites)|)
    {
      var asteroid := sprites[i];
      sprites := sprites[i := asteroid.(ttl := Frames(0))];
      sprites := sprites[j := sprites[j].(ttl := Frames(0))];
      next := k;
      ghost var killed := sprites;
      ghost var children := Children(asteroid, k, random);
      if asteroid.radius > SplitRadius {
        for c := 0 to ChildCount
          invariant sprites == killed + children[..c]
          invariant next == k + 2 * c
        {
          ChildDraws(asteroid, k, random, c);
          sprites := sprites + [CreateAsteroid(asteroid.x, asteroid.y, asteroid.radius / SplitDivisor, random(next), random(next + 1))];
          assert children[..c + 1] == children[..c] + [children[c]];
          next := next + 2;
        }
        assert children[..ChildCount] == children;
      } else {
        assert sprites == killed + children;
      }
    }

    /** `sprites = sprites.filter(sprite => sprite.isAlive())`. */
    method RemoveDead()
      requires Valid()
      modifies this
      ensures sprites == LiveSprites(old(sprites))
      ensures Valid()
    {
      LiveSpritesKeepsShips(sprites);
      LiveSpritesKeepsRadii(sprites);
      sprites := LiveSprites(sprites);
    }

    /**
     * One GameLoop update. The list becomes the next frame of what it was,
     * and the invariant is kept.
     */
    method Tick(inputs: Inputs)
      requires Valid()
      modifies this
      ensures sprites == NextFrame(old(sprites), inputs)
      ensures Valid()
    {
      UpdatePass(inputs);
      ResolveCollisions(inputs.random);
      RemoveDead();
    }
  }
}
