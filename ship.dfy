/**
 * The ship's per-frame control step (its `update()`): turning, thrust,
 * kontra's advance, the soft speed clamp and the fire cooldown. The ship's
 * heading is kept in whole degrees; the cosine and sine of a heading are
 * inputs (`cosOf`, `sinOf`), as are the key states.
 */
module ShipControl {
  import opened Sprites

  /** The four keys the ship reads: "left", "right", "up" and "space". */
  datatype Keys = Keys(left: bool, right: bool, up: bool, space: bool)

  /**
   * What one update produces: the updated sprite and the bullet it fired, if
   * any. The ship step (`ShipStep`) and every sprite's update (`Game.Updated`)
   * return it; only a ship ever fires.
   */
  datatype Outcome = Outcome(sprite: Sprite, bullet: Option<Sprite>)

  const TurnDegrees: int := 4
  const ThrustFactor: real := 0.05
  const MaxSpeed: real := 5.0
  const Damping: real := 0.95
  const FrameTime: real := 1.0 / 60.0
  const FireInterval: real := 0.25

  /** Rotation: left turns by -4 degrees, else right by +4; left wins when both are held. */
  function Turn(rotation: int, keys: Keys): (r: int)
    ensures r == rotation - TurnDegrees || r == rotation + TurnDegrees || r == rotation
    ensures keys.left ==> r == rotation - TurnDegrees
    ensures r == rotation + TurnDegrees <==> !keys.left && keys.right
    ensures r == rotation <==> !keys.left && !keys.right
  {
    if keys.left then rotation - TurnDegrees
    else if keys.right then rotation + TurnDegrees
    else rotation
  }

  /** Acceleration: 0.05 along the heading while "up" is held, zero otherwise. */
  function Thrust(up: bool, cos: real, sin: real): (a: (real, real))
    ensures up ==> a == (ThrustFactor * cos, ThrustFactor * sin)
    ensures !up ==> a == (0.0, 0.0)
  {
    if up then (cos * ThrustFactor, sin * ThrustFactor) else (0.0, 0.0)
  }

  /** With a unit heading vector, the thrust has magnitude exactly 0.05, or is zero. */
  lemma ThrustMagnitude(up: bool, cos: real, sin: real)
    requires cos * cos + sin * sin == 1.0
    ensures var a := Thrust(up, cos, sin);
      a.0 * a.0 + a.1 * a.1 == if up then ThrustFactor * ThrustFactor else 0.0
  {
    if up {
      calc {
        (cos * 0.05) * (cos * 0.05) + (sin * 0.05) * (sin * 0.05);
        0.0025 * (cos * cos + sin * sin);
      }
    }
  }

  /**
   * The soft speed clamp: when the speed exceeds 5 (squared speed above 25),
   * both components are multiplied by 0.95; otherwise nothing changes. The
   * clamp never speeds the ship up, and one clamp never takes it below
   * 0.95 * 5, so the ceiling is approached gradually.
   */
  function Clamp(dx: real, dy: real): (v: (real, real))
    ensures dx * dx + dy * dy <= MaxSpeed * MaxSpeed ==> v == (dx, dy)
    ensures dx * dx + dy * dy > MaxSpeed * MaxSpeed ==> v == (dx * Damping, dy * Damping)
    ensures v.0 * v.0 + v.1 * v.1 <= dx * dx + dy * dy
    ensures dx * dx + dy * dy > MaxSpeed * MaxSpeed ==>
      (Damping * MaxSpeed) * (Damping * MaxSpeed) < v.0 * v.0 + v.1 * v.1 < dx * dx + dy * dy
  {
    if dx * dx + dy * dy > MaxSpeed * MaxSpeed then
      var v := (dx * Damping, dy * Damping);
      assert v.0 * v.0 + v.1 * v.1 == 0.9025 * (dx * dx + dy * dy);
      v
    else (dx, dy)
  }

  /**
   * The clamp is soft: a ship at speed 5.3 is only brought down to 5.035,
   * still above 5.
   */
  lemma ClampCanStayAboveMax()
    ensures Clamp(5.3, 0.0) == (5.035, 0.0)
    ensures 5.035 * 5.035 > MaxSpeed * MaxSpeed
  {
  }

  /**
   * The fire cooldown: the timer grows by 1/60 each frame; a shot happens
   * when "space" is held and the grown timer exceeds 0.25, and resets it to 0.
   * Returns the new timer and whether a bullet was fired.
   */
  function Cooldown(dt: real, space: bool): (c: (real, bool))
    ensures c.1 <==> space && dt + FrameTime > FireInterval
    ensures c.1 ==> c.0 == 0.0
    ensures !c.1 ==> c.0 == dt + FrameTime
  {
    var t := dt + FrameTime;
    if space && t > FireInterval then (0.0, true) else (t, false)
  }

  /**
   * The whole ship update(): turn, thrust along the new heading, advance,
   * clamp, then the cooldown, firing a bullet from the updated ship.
   */
  function ShipStep(ship: Sprite, keys: Keys, cosOf: int -> real, sinOf: int -> real): (r: Outcome)
    ensures r.sprite.kind == ship.kind && r.sprite.radius == ship.radius
    ensures r.sprite.ttl == Decrement(ship.ttl)
    ensures r.sprite.rotation == Turn(ship.rotation, keys)
    ensures (r.sprite.ddx, r.sprite.ddy) == Thrust(keys.up, cosOf(r.sprite.rotation), sinOf(r.sprite.rotation))
    ensures !keys.up ==> r.sprite.ddx == 0.0 && r.sprite.ddy == 0.0
    ensures r.sprite.x == ship.x + ship.dx + r.sprite.ddx && r.sprite.y == ship.y + ship.dy + r.sprite.ddy
    ensures (r.sprite.dx, r.sprite.dy) == Clamp(ship.dx + r.sprite.ddx, ship.dy + r.sprite.ddy)
    ensures r.bullet.Some? <==> keys.space && ship.dt + FrameTime > FireInterval
    ensures r.bullet.Some? ==>
      r.sprite.dt == 0.0 && r.bullet.value == CreateBullet(r.sprite, cosOf(r.sprite.rotation), sinOf(r.sprite.rotation))
    ensures r.bullet.None? ==> r.sprite.dt == ship.dt + FrameTime
  {
    var rotation := Turn(ship.rotation, keys);
    var cos := cosOf(rotation);
    var sin := sinOf(rotation);
    var a := Thrust(keys.up, cos, sin);
    var moved := Advance(ship.(rotation := rotation, ddx := a.0, ddy := a.1));
    var v := Clamp(moved.dx, moved.dy);
    var c := Cooldown(moved.dt, keys.space);
    var after := moved.(dx := v.0, dy := v.1, dt := c.0);
    Outcome(after, if c.1 then Some(CreateBullet(after, cos, sin)) else None)
  }

  /**
   * The ship's `update()` as the source writes it, one field at a time:
   * the new ship and whether it fired are those of `ShipStep`.
   */
  method Control(ship: Sprite, keys: Keys, cosOf: int -> real, sinOf: int -> real)
    returns (after: Sprite, fired: bool)
    ensures after == ShipStep(ship, keys, cosOf, sinOf).sprite
    ensures fired <==> ShipStep(ship, keys, cosOf, sinOf).bullet.Some?
  {
    after := ship;
    if keys.left {
      after := after.(rotation := after.rotation - TurnDegrees);
    } else if keys.right {
      after := after.(rotation := after.rotation + TurnDegrees);
    }
    var cos := cosOf(after.rotation);
    var sin := sinOf(after.rotation);
    if keys.up {
      after := after.(ddx := cos * ThrustFactor, ddy := sin * ThrustFactor);
    } else {
      after := after.(ddx := 0.0, ddy := 0.0);
    }
    after := Advance(after);
    ghost var moved := after;
    if after.dx * after.dx + after.dy * after.dy > MaxSpeed * MaxSpeed {
      after := after.(dx := after.dx * Damping, dy := after.dy * Damping);
    }
    assert (after.dx, after.dy) == Clamp(moved.dx, moved.dy);
    after := after.(dt := after.dt + FrameTime);
    fired := keys.space && after.dt > FireInterval;
    if fired {
      after := after.(dt := 0.0);
    }
  }

  /**
   * A ship at rest at heading 0, with its timer at 0, holding only "up" for
   * one frame: its velocity becomes (0.05, 0), its position moves by that
   * much, and it does not fire.
   */
  lemma ThrustFromRest(ship: Sprite, keys: Keys, cosOf: int -> real, sinOf: int -> real)
    requires ship.dx == 0.0 && ship.dy == 0.0 && ship.rotation == 0 && ship.dt == 0.0
    requires keys == Keys(false, false, true, false) && cosOf(0) == 1.0 && sinOf(0) == 0.0
    ensures var r := ShipStep(ship, keys, cosOf, sinOf);
      r.sprite.dx == 0.05 && r.sprite.dy == 0.0 && r.sprite.x == ship.x + 0.05 && r.sprite.y == ship.y
      && r.bullet == None
  {
    var r := ShipStep(ship, keys, cosOf, sinOf);
    assert r.sprite.rotation == 0;
    assert (r.sprite.ddx, r.sprite.ddy) == Thrust(true, 1.0, 0.0);
    assert (r.sprite.dx, r.sprite.dy) == Clamp(0.05, 0.0);
  }

  /** The fresh ship's first frame of thrust: velocity (0.05, 0), x = 300.05, no bullet. */
  lemma FirstThrustFrame(cosOf: int -> real, sinOf: int -> real)
    requires cosOf(0) == 1.0 && sinOf(0) == 0.0
    ensures var r := ShipStep(CreateShip(), Keys(false, false, true, false), cosOf, sinOf);
      r.sprite.dx == 0.05 && r.sprite.dy == 0.0 && r.sprite.x == 300.05 && r.sprite.y == 300.0
      && r.bullet == None
  {
    ThrustFromRest(CreateShip(), Keys(false, false, true, false), cosOf, sinOf);
  }

  /** The shots fired over a run of frames, given the key state of "space" on each. */
  function Fires(dt: real, spaces: seq<bool>): (r: seq<bool>)
    ensures |r| == |spaces|
    ensures forall a :: 0 <= a < |r| && r[a] ==> spaces[a]
    decreases spaces
  {
    if spaces == [] then []
    else
      var c := Cooldown(dt, spaces[0]);
      [c.1] + Fires(c.0, spaces[1..])
  }

  /** `m` frames after the timer was 0, it reads m/60, and the next frame fires only if m + 1 >= 16. */
  lemma CooldownAfter(dt: real, m: nat, space: bool)
    requires dt == m as real / 60.0
    ensures var c := Cooldown(dt, space);
      (c.1 <==> space && m + 1 >= 16)
      && (!c.1 ==> c.0 == (m + 1) as real / 60.0)
  {
    assert m as real / 60.0 + 1.0 / 60.0 == (m + 1) as real / 60.0;
  }

  /**
   * The fire-rate limit: with the timer at `dt = m/60` (`m` frames after it
   * was last 0), frame `a` (counting from 0) can fire only if
   * `a + m + 1 >= 16`, and two shots are always at least 16 frames apart.
   * From a fresh ship (m = 0) the earliest shot is on the 16th frame.
   */
  lemma {:induction false} FireSpacing(dt: real, m: nat, spaces: seq<bool>)
    requires dt == m as real / 60.0
    ensures forall a :: 0 <= a < |spaces| && Fires(dt, spaces)[a] ==> a + m + 1 >= 16
    ensures forall a, b :: 0 <= a < b < |spaces| && Fires(dt, spaces)[a] && Fires(dt, spaces)[b] ==> b - a >= 16
    decreases spaces
  {
    if spaces != [] {
      var r := Fires(dt, spaces);
      var c := Cooldown(dt, spaces[0]);
      CooldownAfter(dt, m, spaces[0]);
      var m': nat := if c.1 then 0 else m + 1;
      var r' := Fires(c.0, spaces[1..]);
      FireSpacing(c.0, m', spaces[1..]);
      assert r == [c.1] + r';
      forall a | 0 <= a < |r| && r[a]
        ensures a + m + 1 >= 16
      {
        if a > 0 {
          assert r'[a - 1];
        }
      }
      forall a, b | 0 <= a < b < |r| && r[a] && r[b]
        ensures b - a >= 16
      {
        assert r'[b - 1];
        if a > 0 {
          assert r'[a - 1];
        }
      }
    }
  }

  /** "space" held on each of `n` frames. */
  function Held(n: nat): (s: seq<bool>)
    ensures |s| == n && forall a :: 0 <= a < n ==> s[a]
  {
    if n == 0 then [] else [true] + Held(n - 1)
  }

  /**
   * Holding "space" fires exactly every 16th frame. With the timer `m` frames
   * after its last reset, the first frame fires once `m` reaches 15 (an older
   * timer fires at once too), so frame `a` fires exactly when
   * `a + min(m, 15) + 1` is a multiple of 16.
   */
  lemma {:induction false} FireWhileHeld(dt: real, m: nat, n: nat)
    requires dt == m as real / 60.0
    ensures forall a :: 0 <= a < n ==>
      (Fires(dt, Held(n))[a] <==> (a + (if m <= 15 then m else 15) + 1) % 16 == 0)
    decreases n
  {
    if n > 0 {
      var k := if m <= 15 then m else 15;
      var r := Fires(dt, Held(n));
      var c := Cooldown(dt, true);
      CooldownAfter(dt, m, true);
      var m': nat := if c.1 then 0 else m + 1;
      var r' := Fires(c.0, Held(n - 1));
      FireWhileHeld(c.0, m', n - 1);
      assert Held(n)[1..] == Held(n - 1);
      assert r == [c.1] + r';
      assert c.1 <==> k == 15;
      forall a | 0 <= a < n
        ensures r[a] <==> (a + k + 1) % 16 == 0
      {
        if a == 0 {
          assert r[a] == c.1;
        } else {
          assert r[a] == r'[a - 1];
          assert (a - 1 + m' + 1) % 16 == (a + k + 1) % 16 by {
            if c.1 {
              assert a + k + 1 == a + 16;
            }
          }
        }
      }
    }
  }
}
