# Asteroids: the per-frame simulation, modelled and proved in Dafny

This project models the simulation core of the arcade game in
`src/app/asteroids.js`. The game is built on the kontra library and runs one
GameLoop update per frame. The model covers:

- the three factories: `createAsteroid`, `createBullet` and `createShip`;
- the ship's own `update()`: turning, thrust, kontra's `advance()`, the soft
  speed clamp, and the fire cooldown that pushes bullets;
- the GameLoop `update()`, in three parts:
  - the `sprites.map` pass, which updates and then wraps every sprite on the
    torus;
  - the nested collision loops over a list that grows as asteroids split;
  - the `filter` that drops dead sprites;
- the start-up population pushed by `start()`.

## Modules

- `sprites.dfy` (`Sprites`):
  - the sprite record;
  - what the game uses of kontra's Sprite, written as definitions: `advance()`,
    `isAlive()`, and `ttl` defaulting to Infinity;
  - the three factories.
- `ship.dfy` (`ShipControl`): the ship's update as a function `ShipStep`; the
  method `Control`, which makes the source's field writes in order and is
  proved equal to it; and the fire-rate lemmas over runs of frames.
- `wrap.dfy` (`Wrap`): the wrap rule, per axis and per sprite.
- `collision.dfy` (`Collision`):
  - the collision pass as a function `Scan` of the list;
  - its termination measure: each asteroid's split potential (30 splits into
    12, 12 into 4.8, so 13 asteroids at most), summed over the part of the list
    not yet scanned;
  - what the pass kills and what it appends.
- `compaction.dfy` (`Compaction`): the filter, `LiveSprites`.
- `game.dfy` (`Game`):
  - the start-up field, the `sprites.map` pass (`Pass`) and the frame
    (`NextFrame`) as functions, with the frame-level lemmas;
  - the class `World`, which holds the sprite list. Its methods are the
    source's loops, written imperatively and each proved equal to its
    specification function.

Modelling choices:

- **Sprites are values.** A sprite is a `Sprite` value in the `seq` field
  `World.sprites`. An update in place becomes an update of that entry.
- **Aliasing.** Several names in the source refer to an object held in the
  list: the map callback's `sprite`, `this` in the ship's `update()`, `ship`
  in `createBullet`, and the `asteroid` and `sprite` locals of the collision
  loop. Each is read only after the writes made through it, and those reads
  see the written values. The model passes the updated value on in the same
  way: `ShipStep` builds the bullet from the ship after its update
  (`CreateBullet(after, …)`), `Game.Updated` wraps the updated sprite, and
  the collision loop reads only position and radius, which the `ttl` writes
  do not change.
- **`ttl`** is `Forever` (kontra's Infinity, which `--` leaves unchanged) or
  `Frames(n)`.
- **Headings** are kept in whole degrees, and each turn is 4 degrees. The
  cosine and sine of a heading are inputs.
- **Random draws.** The `Math.random()` draws of a frame are an input
  `random: nat -> real`, used in the order the source makes them: two per
  created asteroid, for `dx` and then `dy`.
- **The distance test.** `Math.hypot(dx, dy) < ra + rs` is written as
  `ra + rs > 0 && dx*dx + dy*dy < (ra + rs)*(ra + rs)`.
  `Collision.OverlapIsDistanceTest` proves this equivalent for any radii.
- **The speed test.** `velocity.length() > 5` is written as
  `dx*dx + dy*dy > 25`.

Facts about the code that a reader might not expect:

- **Wrap.** Only x < -r is moved on the low side. With r = 30 on a
  640-wide canvas, x = -5 is inside the band [-30, 670] and is left alone;
  x = -31 goes to 670 and x = 671 to -30 (`Wrap.WrapExamples`).
- **Thrust.** `advance()` is called without a time step. One frame of
  thrust from rest at heading 0 gives velocity (0.05, 0) and moves the ship
  0.05 along x (`ShipControl.FirstThrustFrame`).
- **Speed limit.** The clamp multiplies the velocity by 0.95 once per frame
  when the speed is above 5. A speed of 5.3 becomes 5.035, still above 5
  (`ShipControl.ClampCanStayAboveMax`).
- **First match only.** An asteroid kills only the first non-asteroid it
  overlaps in list order. If a ship comes before a bullet, the bullet
  survives (`Collision.FirstMatchOnly`).
- **The ship can die.** The collision loop treats the ship like any other
  non-asteroid and sets its `ttl` to 0, and the filter then removes it;
  nothing creates a new ship.

## Model

| member | source | states |
|---|---|---|
| Sprites.Advance | src/app/asteroids.js:86 | kontra's advance: velocity gains the acceleration, position gains the new velocity, one frame off a finite lifetime, nothing else changes |
| Sprites.Alive | src/app/asteroids.js:159 | kontra's isAlive: Infinity is alive, a finite ttl exactly when positive |
| Sprites.Decrement | src/app/asteroids.js:86 | the `ttl--` of advance: Infinity stays Infinity, a finite ttl loses exactly one |
| Sprites.AdvanceTimesTtl | src/app/asteroids.js:112 | after k advances a finite ttl has lost exactly k, Infinity stays Infinity, kind and radius kept |
| Sprites.CreateAsteroid | src/app/asteroids.js:12-27 | an asteroid at (x, y) with the given radius, never expiring, zero acceleration; draws in [0,1) give dx, dy in [-2, 2) |
| Sprites.CreateBullet | src/app/asteroids.js:30-50 | a bullet with ttl 50 and radius 2, offset 12 along the heading from the ship, 5 faster than the ship along it |
| Sprites.CreateShip | src/app/asteroids.js:52-57 | the ship at rest at (300, 300), heading 0, radius 6, timer 0, never expiring |
| Sprites.BulletLifetime | src/app/asteroids.js:42-43 | a bullet is alive after k advances exactly when k < 50 |
| Sprites.ForeverAlive | src/app/asteroids.js:12-27 | a sprite without ttl is alive after any number of advances |
| Sprites.BulletGeometry | src/app/asteroids.js:37-41 | with a unit heading, the bullet starts exactly 12 from the ship and moves exactly 5 per frame relative to it |
| Wrap.WrapAxis | src/app/asteroids.js:114-120 | below -r goes to extent + r; above extent + r goes to -r; inside the band unchanged |
| Wrap.WrapBounds | src/app/asteroids.js:113-128 | with r, extent >= 0 the result is in [-r, extent + r], and the two branches exclude each other |
| Wrap.WrapIdempotent | src/app/asteroids.js:113-128 | wrapping twice is wrapping once |
| Wrap.WrapSprite | src/app/asteroids.js:113-128 | only x and y change; a sprite already in the band on both axes is unchanged; with a non-negative radius and canvas both axes end in the band |
| Wrap.WrapSpriteIdempotent | src/app/asteroids.js:113-128 | wrapping a sprite twice is wrapping it once |
| Wrap.WrapExamples | src/app/asteroids.js:114-120 | radius 30, width 640: -5 stays, -31 goes to 670, 671 goes to -30 |
| ShipControl.Turn | src/app/asteroids.js:70-74 | rotation changes by -4, +4 or 0 degrees; left wins; +4 iff right alone; 0 iff neither |
| ShipControl.Thrust | src/app/asteroids.js:80-85 | with "up", (0.05 cos, 0.05 sin) of the heading; without, (0, 0) |
| ShipControl.ThrustMagnitude | src/app/asteroids.js:80-85 | with a unit heading the acceleration has magnitude 0.05 when "up" is held, and is zero otherwise |
| ShipControl.Clamp | src/app/asteroids.js:89-92 | squared speed <= 25: unchanged; above: both components times 0.95, the speed drops but stays above 4.75 |
| ShipControl.ClampCanStayAboveMax | src/app/asteroids.js:89-92 | speed 5.3 is clamped to 5.035, above 5 |
| ShipControl.Cooldown | src/app/asteroids.js:95-99 | fires iff "space" and the grown timer exceeds 0.25; the timer then resets to 0, otherwise it grows by 1/60 |
| ShipControl.ShipStep | src/app/asteroids.js:68-101 | the ship update: turn; acceleration = Thrust of "up" along the new heading; position moved by the old velocity plus the acceleration; velocity = Clamp of the old velocity plus the acceleration (so never faster than that sum, by Clamp); ttl decremented; a bullet iff "space" and the grown timer passes 0.25, made from the updated ship, the timer then reset, else grown by 1/60 |
| ShipControl.Control | src/app/asteroids.js:69-97 | the field writes of update() in the source's order give ShipStep's ship, and fire exactly when ShipStep makes a bullet |
| ShipControl.FirstThrustFrame | src/app/asteroids.js:77-92 | from rest at heading 0, one frame of thrust gives velocity (0.05, 0) and x = 300.05, no bullet |
| ShipControl.ThrustFromRest | src/app/asteroids.js:77-92 | any ship at rest at heading 0 with a zero timer, thrusting alone for one frame: velocity (0.05, 0), x grows by 0.05, no bullet |
| ShipControl.Fires | src/app/asteroids.js:95-99 | over a run of frames, a shot only on a frame where "space" is held |
| ShipControl.CooldownAfter | src/app/asteroids.js:95-96 | m frames after a reset the next frame fires only if m + 1 >= 16 |
| ShipControl.FireSpacing | src/app/asteroids.js:95-99 | from a timer m frames old, the first shot needs a + m + 1 >= 16 (a fresh ship fires on frame 16 at the earliest), and shots are at least 16 frames apart |
| ShipControl.FireWhileHeld | src/app/asteroids.js:95-99 | holding "space" with the timer m frames old (any m), frame a fires exactly when a + min(m, 15) + 1 is a multiple of 16: a timer 15 or more frames old fires at once |
| Collision.OverlapIsDistanceTest | src/app/asteroids.js:141-143 | the squared test holds exactly when the centre distance is strictly below the radius sum, so touching circles do not collide |
| Collision.ApartOnX | src/app/asteroids.js:141-143 | centres at least the radius sum apart along x never overlap |
| Collision.Kill | src/app/asteroids.js:144-145 | `ttl = 0`: the sprite is dead and nothing else about it changes |
| Collision.HitsIgnoreTtl | src/app/asteroids.js:137-143 | whether a pair is hit depends on kinds, positions and radii, not on lifetimes |
| Collision.FirstHit | src/app/asteroids.js:135-153 | the inner loop finds the least index of a non-asteroid the asteroid overlaps, or none exists |
| Collision.Children | src/app/asteroids.js:147-151 | radius > 10: exactly 3 asteroids at the parent's position with radius r / 2.5; otherwise none |
| Collision.ChildDraws | src/app/asteroids.js:148-149 | child c of a split is made from the draws at k + 2c and k + 2c + 1 |
| Collision.Hit | src/app/asteroids.js:144-151 | both ttl set to 0, the children appended, every other entry unchanged |
| Collision.SplitChainFrom30 | src/app/asteroids.js:147-149 | 30 splits into 12, 12 into 4.8, which cannot split; split potentials 13, 4, 1 |
| Collision.Step | src/app/asteroids.js:134-156 | one outer turn keeps every entry's kind, position and radius, sets a ttl only to 0, and appends only never-expiring asteroids |
| Collision.StepLowersWeight | src/app/asteroids.js:132-149 | each turn strictly lowers the weight left to scan, the termination measure of the growing loop |
| Collision.HitLowersWeight | src/app/asteroids.js:144-151 | a split replaces the asteroid's potential by its children's, one less |
| Collision.Scan | src/app/asteroids.js:132-157 | the whole pass terminates, only appends asteroids, keeps kinds, positions and radii, and sets a ttl only to 0 |
| Collision.StepKillsHitAsteroid | src/app/asteroids.js:134-145 | an asteroid that overlaps some non-asteroid dies on its own turn |
| Collision.TurnKillsHitAsteroid | src/app/asteroids.js:134-145 | an asteroid that overlaps a non-asteroid after the pass from its own turn on is dead after that pass |
| Collision.ScanKillsHitAsteroid | src/app/asteroids.js:132-157 | any asteroid scanned that overlaps a non-asteroid ends dead |
| Collision.ScanKillsHitAsteroids | src/app/asteroids.js:132-157 | after the pass every scanned asteroid overlapping a non-asteroid is dead, children included |
| Collision.HitKillsOnlyThePair | src/app/asteroids.js:144-152 | a collision kills the asteroid and its first match and nothing else: the appended children are alive |
| Collision.PairKeepsPartners | src/app/asteroids.js:141-145 | the asteroid and the sprite it hit still overlap after later turns, which change lifetimes only |
| Collision.TurnVictimHasPartner | src/app/asteroids.js:134-152 | a sprite killed on an asteroid's turn overlaps a sprite of the other side after the whole pass |
| Collision.ScanKillsOnlyCollidingAt | src/app/asteroids.js:132-157 | a sprite the pass kills overlaps one of the other side |
| Collision.ScanKillsOnlyColliding | src/app/asteroids.js:132-157 | every sprite the pass kills has a partner of the other side that it overlaps; overlapping asteroids never harm each other |
| Collision.AsteroidsAloneAreUntouched | src/app/asteroids.js:134-137 | a list of asteroids alone passes through unchanged |
| Collision.ScanGrowthBound | src/app/asteroids.js:132-149 | the pass ends with at most i + Weight(s[i..]) sprites |
| Collision.OneBulletClearsTheSplit | src/app/asteroids.js:132-157 | a radius-12 asteroid on a bullet: the asteroid, the bullet and the three children spawned on it all end dead, five sprites in all |
| Collision.ChildMeetsBullet | src/app/asteroids.js:134-152 | in the split scene (an asteroid, the bullet, three radius-4.8 children at the origin), the turn of a child kills it and the bullet (dead or not), appends nothing and uses no draw |
| Collision.ChildrenMeetBullet | src/app/asteroids.js:132-157 | three such children scanned after the bullet: all of them and the bullet end dead, and the list stays at five |
| Collision.FirstMatchOnly | src/app/asteroids.js:135-153 | an asteroid over a ship and a bullet kills only the ship (the first match); the bullet keeps ttl 50 |
| Compaction.LiveSprites | src/app/asteroids.js:159 | no longer than the input, every survivor alive |
| Compaction.LiveSpritesCounts | src/app/asteroids.js:159 | each sprite is kept as often as it occurs if alive, and dropped if dead |
| Compaction.LiveSpritesAppend | src/app/asteroids.js:159 | filtering a concatenation filters each part, in order |
| Compaction.LiveSpritesAllAlive | src/app/asteroids.js:159 | the filter changes nothing exactly when every sprite is alive |
| Compaction.LiveSpritesIdempotent | src/app/asteroids.js:159 | filtering twice is filtering once |
| Compaction.AliveIndicesIncrease | src/app/asteroids.js:159 | the live positions lie within the list and increase |
| Compaction.AliveIndicesMembers | src/app/asteroids.js:159 | a position is among the live positions exactly when its sprite is alive |
| Compaction.LiveSpritesAtAliveIndices | src/app/asteroids.js:159 | entry p of the result is the sprite at the p-th live position |
| Compaction.LiveSpritesInOrder | src/app/asteroids.js:159 | the result is exactly the live sprites of the input in their relative order |
| Game.StartAsteroid | src/app/asteroids.js:174-175 | a default asteroid: at (100, 100), radius 30, never expiring; with draws in [0, 1) each velocity component is in [-2, 2) |
| Game.StartField | src/app/asteroids.js:174-178 | five sprites: the four default asteroids, then the ship; exactly one ship and no negative radius |
| Game.Updated | src/app/asteroids.js:111-128 | one update and wrap: kind and radius kept, in the band on both axes, a non-ship advanced (the default update()), a bullet exactly when the sprite is the ship, "space" is down and its timer passes 0.25, and that bullet fresh |
| Game.Visit | src/app/asteroids.js:111-129 | the callback on index i: entry i becomes its update, the others are kept, and at most the one pushed bullet is appended |
| Game.PassFrom | src/app/asteroids.js:111-129 | visiting i to n - 1 replaces exactly those entries, each by its own update, leaves the rest alone, and only grows the list |
| Game.Fired | src/app/asteroids.js:96-98 | the bullets pushed by a list's updates: at most one per ship, none without "space", each with radius 2 and ttl 50 |
| Game.Pass | src/app/asteroids.js:111-129 | the map updates each sprite present at its start exactly once, appends exactly the pushed bullets (neither advanced nor wrapped), at most one per ship |
| Game.PassKeepsShipsAndRadii | src/app/asteroids.js:111-129 | the map keeps the ship count and non-negative radii |
| Game.NoneFired | src/app/asteroids.js:96-98 | a list none of whose updates fires pushes nothing |
| Game.FieldOfFourFiresNothing | src/app/asteroids.js:95-98 | four asteroids and a ship whose timer is 0: the map fires nothing, since 1/60 does not pass 0.25 |
| Game.StartFrameFiresNothing | src/app/asteroids.js:95-99 | the first frame after start-up fires nothing, so the map leaves five sprites |
| Game.FieldOfFourWeight | src/app/asteroids.js:132-149 | four radius-30 asteroids and a ship weigh 53, so the collision pass leaves at most 53 sprites |
| Game.StartFrameGrowthBound | src/app/asteroids.js:132-157 | whatever the inputs, the list the first collision pass scans weighs 53, so it leaves at most 53 sprites |
| Game.ShipNearStart | src/app/asteroids.js:77-92 | a ship at rest moves at most 0.05 per axis in one update, for cosines and sines in [-1, 1] |
| Game.AsteroidAfterMap | src/app/asteroids.js:111-128 | on a canvas of at least 300 by 300, a default asteroid with velocity components in [-2, 2) is left of x = 102 after its update and wrap |
| Game.ShipAfterMap | src/app/asteroids.js:68-128 | on a canvas of at least 300 by 300, with cosines and sines in [-1, 1], the ship at (300, 300) at rest is right of x = 299.95 after its update and wrap |
| Game.FieldAfterMap | src/app/asteroids.js:111-129 | on a canvas of at least 300 by 300, with cosines and sines in [-1, 1], four default asteroids with velocities in [-2, 2) and the ship at (300, 300) at rest with timer 0: after the first map the asteroids are left of x = 102 and the ship right of 299.95 |
| Game.FieldApart | src/app/asteroids.js:132-157 | with the asteroids that far from the ship, the collision pass changes nothing |
| Game.StartFrameHasNoCollision | src/app/asteroids.js:132-157 | with draws in [0, 1), cosines and sines in [-1, 1] and a canvas of at least 300 by 300, the first collision pass leaves the mapped start-up field unchanged |
| Game.PassFromAppends | src/app/asteroids.js:111-129 | visiting i to n - 1 appends exactly the bullets their updates push, in order |
| Game.PassInBand | src/app/asteroids.js:111-129 | after the map every sprite present before it keeps its kind and radius and is inside the band on both axes; the ship count is kept and the radii stay non-negative |
| Game.ScanKeepsRadii | src/app/asteroids.js:147-149 | the collision pass keeps all radii non-negative |
| Game.ScanKeepsShipsAndRadii | src/app/asteroids.js:132-157 | the collision pass neither adds nor removes a ship |
| Game.LiveSpritesKeepsShips | src/app/asteroids.js:159 | the filter never adds a ship |
| Game.LiveSpritesKeepsRadii | src/app/asteroids.js:159 | the filter keeps the radii non-negative |
| Game.FilteredScanHasNoCollision | src/app/asteroids.js:132-159 | after the collision pass and the filter no asteroid left overlaps a non-asteroid left |
| Game.NextFrame | src/app/asteroids.js:108-160 | one GameLoop update of the list: every sprite left is alive, and no asteroid left overlaps a non-asteroid left |
| Game.NextFrameKeepsInvariant | src/app/asteroids.js:108-160 | one frame never adds a ship and keeps every radius non-negative |
| Game.World.Start | src/app/asteroids.js:174-178 | the loop pushes the four default asteroids, then the ship; the invariant holds |
| Game.World.UpdateShip | src/app/asteroids.js:68-101 | the ship at i rewritten in place and its bullet, if any, pushed at the end; equal to ShipStep |
| Game.World.WrapAt | src/app/asteroids.js:113-128 | the four edge tests on one sprite; equal to WrapSprite |
| Game.World.VisitAt | src/app/asteroids.js:111-128 | the callback on one sprite: the ship's update() or advance(), then the edge tests; equal to Visit |
| Game.World.UpdatePass | src/app/asteroids.js:111-129 | the map loop over the length at its start; equal to Pass; adds at most one sprite (the ship's bullet) and keeps the invariant |
| Game.World.ResolveCollisions | src/app/asteroids.js:132-157 | the outer loop over the growing length; equal to Scan; keeps the invariant |
| Game.World.TurnAt | src/app/asteroids.js:134-156 | the inner loop with its break; equal to Step |
| Game.World.Collide | src/app/asteroids.js:144-151 | the two kills and the split loop; equal to Hit, two draws per child |
| Game.World.RemoveDead | src/app/asteroids.js:159 | the filter; equal to LiveSprites; keeps the invariant |
| Game.World.Tick | src/app/asteroids.js:108-160 | one GameLoop update; equal to NextFrame, and the invariant (at most one ship, no negative radius) is kept by each of its three steps |

## Left out

- `render()` of every sprite and of the loop: this is canvas drawing only.
- `init()`, `initKeys()`, `getCanvas()` and `GameLoop(...).start()`: this is
  framework plumbing. The canvas size and the key states are inputs of a
  frame (`Game.Inputs`).
- The frame pacing of kontra's GameLoop: this is timing, not logic. A frame
  is one call of `Game.World.Tick`.
- kontra itself is not part of this model. `advance()`, `isAlive()` and
  the Infinity default of `ttl` are written as definitions in `Sprites`
  (`Advance`, `Alive`, `Lifetime.Forever`). The default `update()` of a
  sprite, which is `advance()`, is the non-ship branch of `Game.Updated`.
- `Math.cos`, `Math.sin` and `degToRad`: the cosine and sine of a heading are
  inputs. The heading is in whole degrees rather than radians.
- `Math.random()`: the draws are inputs, and only their range [0, 1) is used
  (`Sprites.CreateAsteroid`).
- Floating point: every quantity is an exact real. Under IEEE doubles, the
  frame on which the summed 1/60 steps first exceed 0.25 may differ from
  frame 16.
- Sprites are values in a list. The model does not capture object identity:
  a sprite's fields are replaced by updating its entry.
- The draw cursor of the collision pass starts at 0 in every frame, so the
  draws of start-up and of each frame are separate inputs.
