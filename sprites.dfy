/**
 * The sprite record every entity of the game is made of, the part of kontra's
 * Sprite behaviour the game relies on (advance and isAlive), and the three
 * factories of src/app/asteroids.js: createAsteroid, createBullet, createShip.
 *
 * kontra itself is not part of this model; what the game uses of it is
 * written here as definitions:
 *   - `ttl` is Infinity unless the sprite is created with one, and
 *     `Infinity - 1` is still Infinity;
 *   - `isAlive()` is `ttl > 0`;
 *   - `advance()` adds the acceleration to the velocity, then the velocity to
 *     the position, then decrements `ttl`;
 *   - `rotation`, `ddx` and `ddy` default to 0.
 * The default `update()` of a sprite, which is `advance()`, is the non-ship
 * branch of `Game.Updated`.
 */
module Sprites {

  datatype Option<+T> = None | Some(value: T)

  /** The `type` property: "asteroid", "bullet", or absent (the ship). */
  datatype Kind = Asteroid | Bullet | Ship

  /** kontra's `ttl`: Infinity, or a whole number of frames left. */
  datatype Lifetime = Forever | Frames(n: int)

  /**
   * One sprite. Every kind carries every field; the ship-only ones
   * (`rotation`, kept in whole degrees, and the fire timer `dt`) stay at 0
   * on asteroids and bullets.
   */
  datatype Sprite = Sprite(
    kind: Kind,
    x: real, y: real,
    dx: real, dy: real,
    ddx: real, ddy: real,
    radius: real,
    ttl: Lifetime,
    rotation: int,
    dt: real)

  const DefaultAsteroidX: real := 100.0
  const DefaultAsteroidY: real := 100.0
  const DefaultAsteroidRadius: real := 30.0
  const BulletTtl: int := 50
  const BulletRadius: real := 2.0
  const BulletOffset: real := 12.0
  const BulletSpeed: real := 5.0
  const ShipX: real := 300.0
  const ShipY: real := 300.0
  const ShipRadius: real := 6.0

  /** kontra's isAlive(): ttl > 0, and Infinity is always positive. */
  predicate Alive(s: Sprite)
    ensures s.ttl == Forever ==> Alive(s)
    ensures s.ttl.Frames? ==> (Alive(s) <==> s.ttl.n > 0)
  {
    match s.ttl
    case Forever => true
    case Frames(n) => n > 0
  }

  /** `ttl--`: a finite lifetime loses one frame, Infinity stays Infinity. */
  function Decrement(t: Lifetime): (d: Lifetime)
    ensures t == Forever <==> d == Forever
    ensures t.Frames? ==> d.Frames? && d.n == t.n - 1
  {
    match t
    case Forever => Forever
    case Frames(n) => Frames(n - 1)
  }

  /** kontra's advance(): explicit Euler step, then one frame off the lifetime. */
  function Advance(s: Sprite): (r: Sprite)
    ensures r.dx == s.dx + s.ddx && r.dy == s.dy + s.ddy
    ensures r.x == s.x + r.dx && r.y == s.y + r.dy
    ensures r.ttl == Decrement(s.ttl)
    ensures r == s.(x := r.x, y := r.y, dx := r.dx, dy := r.dy, ttl := r.ttl)
  {
    var dx := s.dx + s.ddx;
    var dy := s.dy + s.ddy;
    s.(dx := dx, dy := dy, x := s.x + dx, y := s.y + dy, ttl := Decrement(s.ttl))
  }

  /** `k` successive advance() calls. */
  function AdvanceTimes(s: Sprite, k: nat): Sprite {
    if k == 0 then s else Advance(AdvanceTimes(s, k - 1))
  }

  /** A finite lifetime loses exactly one frame per advance; Infinity never runs out. */
  lemma {:induction false} AdvanceTimesTtl(s: Sprite, k: nat)
    ensures s.ttl.Forever? ==> AdvanceTimes(s, k).ttl == Forever
    ensures s.ttl.Frames? ==> AdvanceTimes(s, k).ttl == Frames(s.ttl.n - k)
    ensures AdvanceTimes(s, k).kind == s.kind && AdvanceTimes(s, k).radius == s.radius
  {
    if k > 0 {
      AdvanceTimesTtl(s, k - 1);
    }
  }

  /**
   * createAsteroid(x, y, radius): the velocity components are
   * `Math.random() * 4 - 2`, for the two draws `u` (dx) and `v` (dy).
   */
  function CreateAsteroid(x: real, y: real, radius: real, u: real, v: real): (a: Sprite)
    ensures a.kind == Asteroid && a.ttl == Forever
    ensures a.x == x && a.y == y && a.radius == radius
    ensures 0.0 <= u < 1.0 ==> -2.0 <= a.dx < 2.0
    ensures 0.0 <= v < 1.0 ==> -2.0 <= a.dy < 2.0
    ensures a.ddx == 0.0 && a.ddy == 0.0
  {
    Sprite(Asteroid, x, y, u * 4.0 - 2.0, v * 4.0 - 2.0, 0.0, 0.0, radius, Forever, 0, 0.0)
  }

  /**
   * createBullet(ship): starts 12 units ahead of the ship along its heading
   * and moves 5 units per frame faster than the ship along it; `cos` and
   * `sin` are the cosine and sine of the ship's heading.
   */
  function CreateBullet(ship: Sprite, cos: real, sin: real): (b: Sprite)
    ensures b.kind == Bullet && b.ttl == Frames(BulletTtl) && b.radius == BulletRadius
    ensures b.x - ship.x == BulletOffset * cos && b.y - ship.y == BulletOffset * sin
    ensures b.dx - ship.dx == BulletSpeed * cos && b.dy - ship.dy == BulletSpeed * sin
  {
    Sprite(Bullet,
      ship.x + cos * BulletOffset, ship.y + sin * BulletOffset,
      ship.dx + cos * BulletSpeed, ship.dy + sin * BulletSpeed,
      0.0, 0.0, BulletRadius, Frames(BulletTtl), 0, 0.0)
  }

  /** createShip(): at rest at (300, 300), heading 0, fire timer 0, never expiring. */
  function CreateShip(): (s: Sprite)
    ensures s.kind == Ship && s.ttl == Forever && s.radius == ShipRadius
    ensures s.x == ShipX && s.y == ShipY
    ensures s.dx == 0.0 && s.dy == 0.0 && s.ddx == 0.0 && s.ddy == 0.0
    ensures s.rotation == 0 && s.dt == 0.0
  {
    Sprite(Ship, ShipX, ShipY, 0.0, 0.0, 0.0, 0.0, ShipRadius, Forever, 0, 0.0)
  }

  /**
   * A bullet survives exactly 50 advances: it is alive after `k` of them
   * exactly when `k < 50`.
   */
  lemma BulletLifetime(ship: Sprite, cos: real, sin: real, k: nat)
    ensures Alive(AdvanceTimes(CreateBullet(ship, cos, sin), k)) <==> k < BulletTtl
  {
    AdvanceTimesTtl(CreateBullet(ship, cos, sin), k);
  }

  /** Asteroids and the ship never expire by advancing. */
  lemma ForeverAlive(s: Sprite, k: nat)
    requires s.ttl == Forever
    ensures Alive(AdvanceTimes(s, k))
  {
    AdvanceTimesTtl(s, k);
  }

  /**
   * The bullet starts exactly 12 units from the ship and moves exactly 5
   * units per frame relative to it, when (cos, sin) is a unit vector.
   */
  lemma BulletGeometry(ship: Sprite, cos: real, sin: real)
    requires cos * cos + sin * sin == 1.0
    ensures var b := CreateBullet(ship, cos, sin);
      (b.x - ship.x) * (b.x - ship.x) + (b.y - ship.y) * (b.y - ship.y) == BulletOffset * BulletOffset
      && (b.dx - ship.dx) * (b.dx - ship.dx) + (b.dy - ship.dy) * (b.dy - ship.dy) == BulletSpeed * BulletSpeed
  {
    var b := CreateBullet(ship, cos, sin);
    calc {
      (b.x - ship.x) * (b.x - ship.x) + (b.y - ship.y) * (b.y - ship.y);
      (12.0 * cos) * (12.0 * cos) + (12.0 * sin) * (12.0 * sin);
      144.0 * (cos * cos + sin * sin);
    }
    calc {
      (b.dx - ship.dx) * (b.dx - ship.dx) + (b.dy - ship.dy) * (b.dy - ship.dy);
      (5.0 * cos) * (5.0 * cos) + (5.0 * sin) * (5.0 * sin);
      25.0 * (cos * cos + sin * sin);
    }
  }
}
