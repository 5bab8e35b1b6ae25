/**
 * The collision pass of the game loop: every asteroid, in list order, is
 * tested against every non-asteroid; the first overlapping one and the
 * asteroid both get `ttl = 0`, and an asteroid of radius above 10 appends
 * three children of radius r / 2.5 at its position. Children are appended
 * to the list being scanned, so they are scanned later in the same pass.
 *
 * `Scan` is the pass as a function of the list; the imperative loop that
 * the game runs is `Game.World.ResolveCollisions`, proved equal to it.
 */
module Collision {
  import opened Sprites

  const SplitRadius: real := 10.0
  const SplitDivisor: real := 2.5
  const ChildCount: nat := 3

  /**
   * `Math.hypot(dx, dy) < a.radius + b.radius` without the square root:
   * the distance is never negative, so it is below the radius sum exactly
   * when the sum is positive and the squared distance is below its square.
   */
  predicate Overlap(a: Sprite, b: Sprite) {
    var dx := a.x - b.x;
    var dy := a.y - b.y;
    var sum := a.radius + b.radius;
    sum > 0.0 && dx * dx + dy * dy < sum * sum
  }

  /**
   * `Overlap` is the distance test: for the distance `h` between the
   * centres, the circles overlap exactly when `h` is strictly below the sum
   * of the radii. Touching circles (`h` equal to the sum) do not overlap.
   */
  lemma OverlapIsDistanceTest(a: Sprite, b: Sprite, h: real)
    requires h >= 0.0
    requires h * h == (a.x - b.x) * (a.x - b.x) + (a.y - b.y) * (a.y - b.y)
    ensures Overlap(a, b) <==> h < a.radius + b.radius
  {
    var sum := a.radius + b.radius;
    if h < sum {
      SquareBelow(h, sum);
    }
    if sum > 0.0 && h >= sum {
      SquareBelow(sum, h);
    }
  }

  /** Two sprites whose centres are at least the radius sum apart along x do not overlap. */
  lemma ApartOnX(a: Sprite, b: Sprite)
    requires a.radius + b.radius <= b.x - a.x
    ensures !Overlap(a, b)
  {
    var sum := a.radius + b.radius;
    if sum > 0.0 {
      SquareBelow(sum, b.x - a.x);
      assert (a.x - b.x) * (a.x - b.x) == (b.x - a.x) * (b.x - a.x);
      assert (a.y - b.y) * (a.y - b.y) >= 0.0;
    }
  }

  lemma SquareBelow(u: real, v: real)
    requires 0.0 <= u <= v
    ensures u * u <= v * v
    ensures u < v ==> u * u < v * v
  {
    assert u * u <= u * v;
    assert u * v <= v * v;
    if u < v {
      calc {
        u * u;
      <=
        u * v;
      <  { assert (v - u) * v > 0.0; }
        v * v;
      }
    }
  }

  /** Whether `i` hits `j` depends on kinds, positions and radii only, never on lifetimes. */
  lemma HitsIgnoreTtl(s: seq<Sprite>, r: seq<Sprite>, i: nat, j: nat)
    requires i < |s| <= |r| && j < |s|
    requires r[i] == s[i].(ttl := r[i].ttl) && r[j] == s[j].(ttl := r[j].ttl)
    ensures Hits(r, i, j) == Hits(s, i, j)
  {
  }

  /** Sprite `j` is a non-asteroid that the sprite at `i` overlaps. */
  predicate Hits(s: seq<Sprite>, i: nat, j: nat)
    requires i < |s| && j < |s|
  {
    s[j].kind != Asteroid && Overlap(s[i], s[j])
  }

  /**
   * The inner scan for the asteroid at `i`, from index `j` on: the first
   * non-asteroid it overlaps, if any. The lifetime of the candidates is not
   * consulted, so a sprite already at `ttl = 0` is still found.
   */
  function FirstHit(s: seq<Sprite>, i: nat, j: nat): (r: Option<nat>)
    requires i < |s| && j <= |s|
    ensures r.Some? ==> j <= r.value < |s| && Hits(s, i, r.value)
    ensures r.Some? ==> forall m :: j <= m < r.value ==> !Hits(s, i, m)
    ensures r.None? ==> forall m :: j <= m < |s| ==> !Hits(s, i, m)
    decreases |s| - j
  {
    if j == |s| then None
    else if Hits(s, i, j) then Some(j)
    else FirstHit(s, i, j + 1)
  }

  /**
   * The children of a destroyed asteroid: three asteroids of radius r / 2.5
   * at its position when its radius is above 10, none otherwise. Child `c`
   * takes the random draws `k + 2c` (dx) and `k + 2c + 1` (dy).
   */
  function Children(a: Sprite, k: nat, random: nat -> real): (c: seq<Sprite>)
    ensures a.radius > SplitRadius ==> |c| == ChildCount
    ensures a.radius <= SplitRadius ==> c == []
    ensures forall p :: 0 <= p < |c| ==>
      c[p].kind == Asteroid && c[p].ttl == Forever
      && c[p].x == a.x && c[p].y == a.y && c[p].radius == a.radius / SplitDivisor
  {
    if a.radius > SplitRadius then
      var r := a.radius / SplitDivisor;
      [CreateAsteroid(a.x, a.y, r, random(k), random(k + 1)),
       CreateAsteroid(a.x, a.y, r, random(k + 2), random(k + 3)),
       CreateAsteroid(a.x, a.y, r, random(k + 4), random(k + 5))]
    else []
  }

  /** Child `c` of a splitting asteroid takes the draws `k + 2c` and `k + 2c + 1`. */
  lemma ChildDraws(a: Sprite, k: nat, random: nat -> real, c: nat)
    requires a.radius > SplitRadius && c < ChildCount
    ensures Children(a, k, random)[c]
      == CreateAsteroid(a.x, a.y, a.radius / SplitDivisor, random(k + 2 * c), random(k + 2 * c + 1))
  {
  }

  /** `ttl = 0`: the sprite is dead, and nothing else about it changes. */
  function Kill(s: Sprite): (k: Sprite)
    ensures k.ttl == Frames(0) && !Alive(k)
    ensures k.(ttl := s.ttl) == s
  {
    s.(ttl := Frames(0))
  }

  /**
   * The collision of the asteroid at `i` with the sprite at `j`: both get
   * `ttl = 0`, the asteroid's children are appended, and nothing else
   * changes.
   */
  function Hit(s: seq<Sprite>, i: nat, j: nat, k: nat, random: nat -> real): (t: seq<Sprite>)
    requires i < |s| && j < |s| && i != j
    ensures |t| == |s| + |Children(s[i], k, random)|
    ensures t[i] == s[i].(ttl := Frames(0)) && t[j] == s[j].(ttl := Frames(0))
    ensures forall p :: 0 <= p < |s| && p != i && p != j ==> t[p] == s[p]
    ensures t[|s|..] == Children(s[i], k, random)
    ensures forall p :: |s| <= p < |t| ==>
      t[p].kind == Asteroid && t[p].ttl == Forever && t[p].radius == s[i].radius / SplitDivisor
  {
    s[i := Kill(s[i])][j := Kill(s[j])] + Children(s[i], k, random)
  }

  /**
   * The most asteroids an asteroid of radius `r` can turn into over any
   * number of splits, itself included: 1 if it cannot split, else itself
   * plus three times the potential of a child. This is the measure that
   * makes the growing scan terminate.
   */
  function SplitPotential(r: real): (n: nat)
    ensures n >= 1
    decreases r.Floor
  {
    if r > SplitRadius then
      assert (r / SplitDivisor).Floor < r.Floor;
      1 + ChildCount * SplitPotential(r / SplitDivisor)
    else 1
  }

  /** 30 splits into 12, which splits into 4.8, which does not split: 1 + 3 * (1 + 3) = 13. */
  lemma SplitChainFrom30()
    ensures 30.0 / SplitDivisor == 12.0 && 12.0 / SplitDivisor == 4.8
    ensures SplitPotential(4.8) == 1 && SplitPotential(12.0) == 4 && SplitPotential(30.0) == 13
  {
    assert SplitPotential(4.8) == 1;
    assert SplitPotential(12.0) == 1 + 3 * SplitPotential(4.8);
  }

  /** What a sprite still to be scanned can add to the scan: its split potential if an asteroid, else 1. */
  function Cost(s: Sprite): nat {
    if s.kind == Asteroid then SplitPotential(s.radius) else 1
  }

  function Weight(s: seq<Sprite>): nat {
    if s == [] then 0 else Cost(s[0]) + Weight(s[1..])
  }

  lemma {:induction false} WeightAppend(a: seq<Sprite>, b: seq<Sprite>)
    ensures Weight(a + b) == Weight(a) + Weight(b)
    decreases a
  {
    if a != [] {
      assert (a + b)[0] == a[0];
      assert (a + b)[1..] == a[1..] + b;
      WeightAppend(a[1..], b);
    } else {
      assert a + b == b;
    }
  }

  /** The weight only depends on the kinds and radii. */
  lemma {:induction false} WeightOfSameShapes(a: seq<Sprite>, b: seq<Sprite>)
    requires |a| == |b|
    requires forall p :: 0 <= p < |a| ==> a[p].kind == b[p].kind && a[p].radius == b[p].radius
    ensures Weight(a) == Weight(b)
    decreases a
  {
    if a != [] {
      WeightOfSameShapes(a[1..], b[1..]);
    }
  }

  lemma WeightFrom(s: seq<Sprite>, i: nat)
    requires i < |s|
    ensures Weight(s[i..]) == Cost(s[i]) + Weight(s[i + 1..])
  {
    assert s[i..][1..] == s[i + 1..];
  }

  lemma {:induction false} WeightOfChildren(a: Sprite, k: nat, random: nat -> real)
    requires a.kind == Asteroid
    ensures Weight(Children(a, k, random)) + 1 == Cost(a)
  {
    var c := Children(a, k, random);
    if a.radius > SplitRadius {
      var w := SplitPotential(a.radius / SplitDivisor);
      assert Cost(c[0]) == w && Cost(c[1]) == w && Cost(c[2]) == w;
      assert c[1..][1..][1..] == [];
      assert Weight(c) == Cost(c[0]) + Weight(c[1..]);
      assert Weight(c[1..]) == Cost(c[1]) + Weight(c[1..][1..]);
    }
  }

  /**
   * One turn of the outer loop, at index `i`: if the sprite there is an
   * asteroid that hits a non-asteroid, the first such collision happens;
   * otherwise nothing changes. Returns the list and the next random draw.
   */
  function Step(s: seq<Sprite>, i: nat, k: nat, random: nat -> real): (n: (seq<Sprite>, nat))
    requires i < |s|
    ensures |n.0| >= |s|
    ensures forall p :: 0 <= p < |s| ==> n.0[p] == s[p].(ttl := n.0[p].ttl)
    ensures forall p :: 0 <= p < |s| ==> n.0[p].ttl == s[p].ttl || n.0[p].ttl == Frames(0)
    ensures forall p :: |s| <= p < |n.0| ==> n.0[p].kind == Asteroid && n.0[p].ttl == Forever
  {
    if s[i].kind == Asteroid && FirstHit(s, i, 0).Some? then
      var t := Hit(s, i, FirstHit(s, i, 0).value, k, random);
      (t, k + 2 * (|t| - |s|))
    else (s, k)
  }

  /**
   * Each turn strictly lowers the weight of what is left to scan: moving
   * past a sprite removes its cost, and a split replaces the asteroid's
   * potential by its children's, which is one less.
   */
  lemma StepLowersWeight(s: seq<Sprite>, i: nat, k: nat, random: nat -> real)
    requires i < |s|
    ensures Weight(Step(s, i, k, random).0[i + 1..]) < Weight(s[i..])
  {
    WeightFrom(s, i);
    if s[i].kind == Asteroid && FirstHit(s, i, 0).Some? {
      HitLowersWeight(s, i, FirstHit(s, i, 0).value, k, random);
    }
  }

  /** A collision at `i` lowers the weight of what is left to scan by exactly one. */
  lemma HitLowersWeight(s: seq<Sprite>, i: nat, j: nat, k: nat, random: nat -> real)
    requires i < |s| && j < |s| && i != j && s[i].kind == Asteroid
    ensures Weight(Hit(s, i, j, k, random)[i + 1..]) + 1 == Weight(s[i..])
  {
    var t := Hit(s, i, j, k, random);
    var ch := Children(s[i], k, random);
    assert t[i + 1..] == t[i + 1..|s|] + ch;
    WeightAppend(t[i + 1..|s|], ch);
    WeightOfSameShapes(t[i + 1..|s|], s[i + 1..]);
    WeightOfChildren(s[i], k, random);
    WeightFrom(s, i);
  }

  /**
   * The collision pass from index `i` on, with the next random draw at `k`.
   * The list keeps growing while it is scanned, and the pass still ends
   * (its measure is the weight of what is left to scan). The pass only
   * appends asteroids, keeps every entry's kind, position and radius, and
   * changes a lifetime only by setting it to 0.
   */
  function Scan(s: seq<Sprite>, i: nat, k: nat, random: nat -> real): (r: seq<Sprite>)
    requires i <= |s|
    ensures |r| >= |s|
    ensures forall p :: 0 <= p < |s| ==> r[p] == s[p].(ttl := r[p].ttl)
    ensures forall p :: 0 <= p < |s| ==> r[p].ttl == s[p].ttl || r[p].ttl == Frames(0)
    ensures forall p :: |s| <= p < |r| ==> r[p].kind == Asteroid
    decreases Weight(s[i..])
  {
    if i == |s| then s
    else
      var n := Step(s, i, k, random);
      StepLowersWeight(s, i, k, random);
      Scan(n.0, i + 1, n.1, random)
  }

  /** An asteroid that hits a non-asteroid dies on its own turn. */
  lemma StepKillsHitAsteroid(s: seq<Sprite>, i: nat, k: nat, random: nat -> real, q: nat)
    requires i < |s| && q < |s| && s[i].kind == Asteroid && Hits(s, i, q)
    ensures Step(s, i, k, random).0[i].ttl == Frames(0)
  {
    assert FirstHit(s, i, 0).Some?;
  }

  /** Every asteroid at or after `from` that overlaps some non-asteroid has `ttl = 0`. */
  predicate HitAsteroidsDead(r: seq<Sprite>, from: nat) {
    forall p, q :: from <= p < |r| && 0 <= q < |r| && r[p].kind == Asteroid && Hits(r, p, q) ==>
      r[p].ttl == Frames(0)
  }

  /** The pass from the end of the list leaves it as it is. */
  lemma ScanAtEnd(s: seq<Sprite>, k: nat, random: nat -> real)
    ensures Scan(s, |s|, k, random) == s
  {
  }

  /** The pass from `i` is the turn of `i`, then the pass from `i + 1`, over a lighter rest. */
  lemma ScanUnfold(s: seq<Sprite>, i: nat, k: nat, random: nat -> real)
    requires i < |s|
    ensures Scan(s, i, k, random) == Scan(Step(s, i, k, random).0, i + 1, Step(s, i, k, random).1, random)
    ensures Weight(Step(s, i, k, random).0[i + 1..]) < Weight(s[i..])
  {
    StepLowersWeight(s, i, k, random);
  }

  /** One asteroid at `p >= i` and one non-asteroid that overlap after the pass: the asteroid is dead. */
  lemma {:induction false} ScanKillsHitAsteroid(s: seq<Sprite>, i: nat, k: nat, random: nat -> real, p: nat, q: nat)
    requires i <= p && i <= |s|
    requires p < |Scan(s, i, k, random)| && q < |Scan(s, i, k, random)|
    requires Scan(s, i, k, random)[p].kind == Asteroid && Hits(Scan(s, i, k, random), p, q)
    ensures Scan(s, i, k, random)[p].ttl == Frames(0)
    decreases Weight(s[i..])
  {
    if i == |s| {
      ScanAtEnd(s, k, random);
      assert false;
    } else {
      var n := Step(s, i, k, random);
      ScanUnfold(s, i, k, random);
      if p > i {
        ScanKillsHitAsteroid(n.0, i + 1, n.1, random, p, q);
      } else {
        TurnKillsHitAsteroid(s, i, k, random, q);
      }
    }
  }

  /** The asteroid at `i`, overlapping a non-asteroid after the pass from `i` on, is dead after it. */
  lemma TurnKillsHitAsteroid(s: seq<Sprite>, i: nat, k: nat, random: nat -> real, q: nat)
    requires i < |s| && q < |Scan(s, i, k, random)|
    requires Scan(s, i, k, random)[i].kind == Asteroid && Hits(Scan(s, i, k, random), i, q)
    ensures Scan(s, i, k, random)[i].ttl == Frames(0)
  {
    var r := Scan(s, i, k, random);
    var n := Step(s, i, k, random);
    StepLowersWeight(s, i, k, random);
    assert r == Scan(n.0, i + 1, n.1, random);
    assert q < |s|;
    HitsIgnoreTtl(s, r, i, q);
    StepKillsHitAsteroid(s, i, k, random, q);
  }

  /**
   * After the pass, every scanned asteroid that overlaps a non-asteroid is
   * dead, children included: the overlap test depends only on positions and
   * radii, which the pass never changes.
   */
  lemma ScanKillsHitAsteroids(s: seq<Sprite>, i: nat, k: nat, random: nat -> real)
    requires i <= |s|
    ensures HitAsteroidsDead(Scan(s, i, k, random), i)
  {
    var r := Scan(s, i, k, random);
    forall p, q | i <= p < |r| && 0 <= q < |r| && r[p].kind == Asteroid && Hits(r, p, q)
      ensures r[p].ttl == Frames(0)
    {
      ScanKillsHitAsteroid(s, i, k, random, p, q);
    }
  }

  /** The sprite at `p` has a partner it overlaps: a non-asteroid for an asteroid, an asteroid otherwise. */
  predicate HasCollisionPartner(r: seq<Sprite>, p: nat)
    requires p < |r|
  {
    if r[p].kind == Asteroid then exists q :: 0 <= q < |r| && Hits(r, p, q)
    else exists q :: 0 <= q < |r| && r[q].kind == Asteroid && Hits(r, q, p)
  }

  /** A sprite of `r` at `p` that was alive in `s` (or is new) and now has `ttl = 0`. */
  predicate NewlyDead(s: seq<Sprite>, r: seq<Sprite>, p: nat)
    requires p < |r|
  {
    r[p].ttl == Frames(0) && (p >= |s| || s[p].ttl != Frames(0))
  }

  /** A collision kills the pair and nothing else: its appended children are alive. */
  lemma HitKillsOnlyThePair(s: seq<Sprite>, i: nat, j: nat, k: nat, random: nat -> real, p: nat)
    requires i < |s| && j < |s| && i != j
    requires p < |Hit(s, i, j, k, random)| && NewlyDead(s, Hit(s, i, j, k, random), p)
    ensures p == i || p == j
  {
  }

  /** A sprite killed on the turn of `i` has a partner after the whole pass from `i` on. */
  lemma TurnVictimHasPartner(s: seq<Sprite>, i: nat, k: nat, random: nat -> real, p: nat)
    requires i < |s| && s[i].kind == Asteroid && FirstHit(s, i, 0).Some?
    requires p < |Step(s, i, k, random).0| && NewlyDead(s, Step(s, i, k, random).0, p)
    ensures p < |Scan(s, i, k, random)| && HasCollisionPartner(Scan(s, i, k, random), p)
  {
    var j := FirstHit(s, i, 0).value;
    assert Step(s, i, k, random).0 == Hit(s, i, j, k, random);
    HitKillsOnlyThePair(s, i, j, k, random, p);
    PairKeepsPartners(s, Scan(s, i, k, random), i, j);
  }

  /**
   * An asteroid at `i` and a non-asteroid at `j` that overlap in `s` are
   * each other's partners in any later list that keeps their kinds,
   * positions and radii.
   */
  lemma PairKeepsPartners(s: seq<Sprite>, r: seq<Sprite>, i: nat, j: nat)
    requires i < |s| && j < |s| && |s| <= |r|
    requires forall p :: 0 <= p < |s| ==> r[p] == s[p].(ttl := r[p].ttl)
    requires s[i].kind == Asteroid && Hits(s, i, j)
    ensures HasCollisionPartner(r, i) && HasCollisionPartner(r, j)
  {
    HitsIgnoreTtl(s, r, i, j);
  }

  /** One sprite the pass killed: it has a collision partner. */
  lemma {:induction false} ScanKillsOnlyCollidingAt(s: seq<Sprite>, i: nat, k: nat, random: nat -> real, p: nat)
    requires i <= |s|
    requires p < |Scan(s, i, k, random)| && NewlyDead(s, Scan(s, i, k, random), p)
    ensures HasCollisionPartner(Scan(s, i, k, random), p)
    decreases Weight(s[i..])
  {
    if i == |s| {
      assert false;
    } else {
      var n := Step(s, i, k, random);
      StepLowersWeight(s, i, k, random);
      assert Scan(s, i, k, random) == Scan(n.0, i + 1, n.1, random);
      if s[i].kind == Asteroid && FirstHit(s, i, 0).Some? && p < |n.0| && NewlyDead(s, n.0, p) {
        TurnVictimHasPartner(s, i, k, random, p);
      } else {
        ScanKillsOnlyCollidingAt(n.0, i + 1, n.1, random, p);
      }
    }
  }

  /**
   * The pass kills nothing without a cause: every sprite it kills overlaps
   * a sprite of the other side (asteroid against non-asteroid). In
   * particular, overlapping asteroids never harm each other.
   */
  lemma ScanKillsOnlyColliding(s: seq<Sprite>, i: nat, k: nat, random: nat -> real)
    requires i <= |s|
    ensures forall p :: 0 <= p < |Scan(s, i, k, random)| && NewlyDead(s, Scan(s, i, k, random), p) ==>
      HasCollisionPartner(Scan(s, i, k, random), p)
  {
    forall p | 0 <= p < |Scan(s, i, k, random)| && NewlyDead(s, Scan(s, i, k, random), p)
      ensures HasCollisionPartner(Scan(s, i, k, random), p)
    {
      ScanKillsOnlyCollidingAt(s, i, k, random, p);
    }
  }

  /** A field of asteroids alone is left exactly as it is: asteroid pairs are never tested. */
  lemma {:induction false} AsteroidsAloneAreUntouched(s: seq<Sprite>, i: nat, k: nat, random: nat -> real)
    requires i <= |s|
    requires forall p :: 0 <= p < |s| ==> s[p].kind == Asteroid
    ensures Scan(s, i, k, random) == s
    decreases |s| - i
  {
    if i < |s| {
      assert FirstHit(s, i, 0).None?;
      assert Step(s, i, k, random) == (s, k);
      AsteroidsAloneAreUntouched(s, i + 1, k, random);
    }
  }

  /**
   * The pass ends with at most `|s| + Weight(s[i..]) - (|s| - i)` sprites,
   * that is `i + Weight(s[i..])`: each asteroid still to be scanned
   * contributes at most its split potential.
   */
  lemma {:induction false} ScanGrowthBound(s: seq<Sprite>, i: nat, k: nat, random: nat -> real)
    requires i <= |s|
    ensures |Scan(s, i, k, random)| <= i + Weight(s[i..])
    decreases Weight(s[i..])
  {
    if i < |s| {
      var n := Step(s, i, k, random);
      StepLowersWeight(s, i, k, random);
      ScanGrowthBound(n.0, i + 1, n.1, random);
    }
  }

  /**
   * The scene after an asteroid of radius 12 at the origin split on a bullet
   * there: five sprites, an asteroid first, the bullet at the origin second,
   * then three children of radius 4.8 at the origin, those before `from`
   * already dead.
   */
  predicate SplitScene(t: seq<Sprite>, from: nat) {
    |t| == 5 && t[0].kind == Asteroid
    && t[1].kind == Bullet && t[1].x == 0.0 && t[1].y == 0.0 && t[1].radius == BulletRadius
    && (forall p :: 2 <= p < 5 ==> t[p].kind == Asteroid && t[p].x == 0.0 && t[p].y == 0.0 && t[p].radius == 4.8)
    && (forall p :: 2 <= p < from && p < 5 ==> t[p].ttl == Frames(0))
  }

  /**
   * The turn of the child at `i`: the child and the bullet are killed, and
   * nothing is appended, because a radius of 4.8 does not split.
   */
  lemma ChildMeetsBullet(t: seq<Sprite>, i: nat, k: nat, random: nat -> real)
    requires 2 <= i < 5 && SplitScene(t, i)
    ensures Step(t, i, k, random) == (t[i := Kill(t[i])][1 := Kill(t[1])], k)
    ensures SplitScene(Step(t, i, k, random).0, i + 1)
    ensures Step(t, i, k, random).0[0] == t[0] && Step(t, i, k, random).0[1].ttl == Frames(0)
  {
    assert Hits(t, i, 1) && !Hits(t, i, 0);
    assert FirstHit(t, i, 0) == Some(1);
    assert Children(t[i], k, random) == [];
    var h := Hit(t, i, 1, k, random);
    assert h == t[i := Kill(t[i])][1 := Kill(t[1])];
    assert |h| == |t|;
    assert Step(t, i, k, random) == (h, k);
  }

  /**
   * The turns of the three children at `2`, `3` and `4`: each meets the
   * bullet at `1`, so the pass from `2` on ends with entries 1 to 4 dead.
   */
  lemma ChildrenMeetBullet(t: seq<Sprite>, k: nat, random: nat -> real)
    requires SplitScene(t, 2)
    ensures var r := Scan(t, 2, k, random);
      |r| == 5 && r[0] == t[0] && forall p :: 1 <= p < 5 ==> r[p].ttl == Frames(0)
  {
    ChildMeetsBullet(t, 2, k, random);
    ScanUnfold(t, 2, k, random);
    var t3 := Step(t, 2, k, random).0;
    ChildMeetsBullet(t3, 3, k, random);
    ScanUnfold(t3, 3, k, random);
    var t4 := Step(t3, 3, k, random).0;
    ChildMeetsBullet(t4, 4, k, random);
    ScanUnfold(t4, 4, k, random);
    var t5 := Step(t4, 4, k, random).0;
    ScanAtEnd(t5, k, random);
  }

  /**
   * An asteroid of radius 12 on top of a bullet (fired from 12 units to its
   * left, heading 0): the asteroid and the bullet die, and its three
   * children of radius 4.8, appended at the same spot, are scanned in the
   * same pass and each collide with the (already dead) bullet. The pass
   * ends with five sprites, all dead.
   */
  lemma OneBulletClearsTheSplit(random: nat -> real)
    ensures var bullet := CreateBullet(CreateShip().(x := -12.0, y := 0.0), 1.0, 0.0);
      var s := [CreateAsteroid(0.0, 0.0, 12.0, random(0), random(1)), bullet];
      var r := Scan(s, 0, 0, random);
      |r| == 5 && forall p :: 0 <= p < 5 ==> r[p].ttl == Frames(0)
  {
    var bullet := CreateBullet(CreateShip().(x := -12.0, y := 0.0), 1.0, 0.0);
    assert bullet.x == 0.0 && bullet.y == 0.0;
    var s := [CreateAsteroid(0.0, 0.0, 12.0, random(0), random(1)), bullet];
    assert Hits(s, 0, 1);
    assert FirstHit(s, 0, 0) == Some(1);
    var s1 := Hit(s, 0, 1, 0, random);
    assert |s1| == 5;
    assert Step(s, 0, 0, random) == (s1, 6);
    assert Step(s1, 1, 6, random) == (s1, 6);
    ChildrenMeetBullet(s1, 6, random);
    assert Scan(s, 0, 0, random) == Scan(s1, 1, 6, random) == Scan(s1, 2, 6, random);
  }

  /**
   * Only the first match dies: an asteroid overlapping both a ship (index 1)
   * and a bullet (index 2) kills the ship; the bullet keeps its lifetime.
   */
  lemma FirstMatchOnly(a: Sprite, ship: Sprite, bullet: Sprite, random: nat -> real)
    requires a.kind == Asteroid && a.radius == 4.0 && a.ttl == Forever
    requires ship.kind == Ship && bullet.kind == Bullet && bullet.ttl == Frames(BulletTtl)
    requires ship.x == a.x && ship.y == a.y && ship.radius == ShipRadius
    requires bullet.x == a.x && bullet.y == a.y && bullet.radius == BulletRadius
    ensures var r := Scan([a, ship, bullet], 0, 0, random);
      r == [Kill(a), Kill(ship), bullet]
  {
    var s := [a, ship, bullet];
    assert Hits(s, 0, 1);
    assert FirstHit(s, 0, 0) == Some(1);
    var s1 := Hit(s, 0, 1, 0, random);
    assert s1 == [Kill(a), Kill(ship), bullet];
    assert Scan(s, 0, 0, random) == Scan(s1, 1, 0, random);
    assert Scan(s1, 1, 0, random) == Scan(s1, 2, 0, random) == Scan(s1, 3, 0, random) == s1;
  }
}
