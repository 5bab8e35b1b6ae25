/**
 * The end of each update: `sprites.filter(sprite => sprite.isAlive())`.
 * Dead sprites (`ttl <= 0`) are dropped; the survivors keep their order.
 */
module Compaction {
  import opened Sprites

  /** The live sprites of `s`, in their order: never more than `s` holds, and every one alive. */
  function LiveSprites(s: seq<Sprite>): (r: seq<Sprite>)
    ensures |r| <= |s|
    ensures forall p :: 0 <= p < |r| ==> Alive(r[p])
  {
    if s == [] then []
    else (if Alive(s[0]) then [s[0]] else []) + LiveSprites(s[1..])
  }

  /**
   * Each sprite value occurs among the survivors as often as in `s` if it is
   * alive, and not at all otherwise: nothing alive is lost, nothing dead is kept.
   */
  lemma {:induction false} LiveSpritesCounts(s: seq<Sprite>)
    ensures forall v :: multiset(LiveSprites(s))[v] == if Alive(v) then multiset(s)[v] else 0
    decreases s
  {
    if s != [] {
      LiveSpritesCounts(s[1..]);
      assert s == [s[0]] + s[1..];
    }
  }

  /**
   * Filtering a concatenation filters each part and keeps the parts in
   * order: the survivors of `a` come before those of `b`.
   */
  lemma {:induction false} LiveSpritesAppend(a: seq<Sprite>, b: seq<Sprite>)
    ensures LiveSprites(a + b) == LiveSprites(a) + LiveSprites(b)
    decreases a
  {
    if a == [] {
      assert a + b == b;
    } else {
      assert (a + b)[0] == a[0];
      assert (a + b)[1..] == a[1..] + b;
      LiveSpritesAppend(a[1..], b);
    }
  }

  /** The survivors are the live sprites exactly when every sprite is alive: then nothing changes. */
  lemma {:induction false} LiveSpritesAllAlive(s: seq<Sprite>)
    ensures (forall p :: 0 <= p < |s| ==> Alive(s[p])) <==> LiveSprites(s) == s
    decreases s
  {
    if s != [] {
      LiveSpritesAllAlive(s[1..]);
      if !Alive(s[0]) {
        assert |LiveSprites(s)| < |s|;
      }
    }
  }

  /** Filtering twice is filtering once. */
  lemma LiveSpritesIdempotent(s: seq<Sprite>)
    ensures LiveSprites(LiveSprites(s)) == LiveSprites(s)
  {
    LiveSpritesAllAlive(LiveSprites(s));
  }

  /** The positions of the live sprites of `s` from `from` on, in increasing order. */
  function AliveIndices(s: seq<Sprite>, from: nat): seq<nat>
    requires from <= |s|
    decreases |s| - from
  {
    if from == |s| then []
    else (if Alive(s[from]) then [from] else []) + AliveIndices(s, from + 1)
  }

  /** The positions in `ix` lie in `[lo, hi)` and increase. */
  predicate IncreasingWithin(ix: seq<nat>, lo: nat, hi: nat) {
    (forall p :: 0 <= p < |ix| ==> lo <= ix[p] < hi)
    && (forall p, q :: 0 <= p < q < |ix| ==> ix[p] < ix[q])
  }

  /** Putting a position below all of `ix` in front keeps the positions increasing. */
  lemma ConsIncreasing(lo: nat, ix: seq<nat>, hi: nat)
    requires lo < hi && IncreasingWithin(ix, lo + 1, hi)
    ensures IncreasingWithin([lo] + ix, lo, hi)
  {
    var jx := [lo] + ix;
    forall p, q | 0 <= p < q < |jx|
      ensures jx[p] < jx[q]
    {
      assert jx[q] == ix[q - 1];
      if p > 0 {
        assert jx[p] == ix[p - 1];
      }
    }
  }

  /** The live positions from `from` on lie in `[from, |s|)` and increase. */
  lemma {:induction false} AliveIndicesIncrease(s: seq<Sprite>, from: nat)
    requires from <= |s|
    ensures IncreasingWithin(AliveIndices(s, from), from, |s|)
    decreases |s| - from
  {
    if from < |s| {
      var ix' := AliveIndices(s, from + 1);
      AliveIndicesIncrease(s, from + 1);
      if Alive(s[from]) {
        ConsIncreasing(from, ix', |s|);
        assert AliveIndices(s, from) == [from] + ix';
      } else {
        assert AliveIndices(s, from) == ix';
      }
    }
  }

  /** A position from `from` on is among the live positions exactly when its sprite is alive. */
  lemma {:induction false} AliveIndicesMembers(s: seq<Sprite>, from: nat)
    requires from <= |s|
    ensures forall a :: from <= a < |s| ==> (Alive(s[a]) <==> a in AliveIndices(s, from))
    decreases |s| - from
  {
    if from < |s| {
      var ix := AliveIndices(s, from);
      var ix' := AliveIndices(s, from + 1);
      AliveIndicesMembers(s, from + 1);
      AliveIndicesIncrease(s, from + 1);
      assert from !in ix';
      assert ix == if Alive(s[from]) then [from] + ix' else ix';
    }
  }

  /** Entry `p` of the filter's result is the sprite at the `p`-th live position. */
  lemma {:induction false} LiveSpritesAtAliveIndices(s: seq<Sprite>, from: nat)
    requires from <= |s|
    ensures var ix := AliveIndices(s, from);
      var r := LiveSprites(s[from..]);
      |ix| == |r| && forall p :: 0 <= p < |ix| ==> ix[p] < |s| && r[p] == s[ix[p]]
    decreases |s| - from
  {
    if from < |s| {
      var ix := AliveIndices(s, from);
      var r := LiveSprites(s[from..]);
      var ix' := AliveIndices(s, from + 1);
      var r' := LiveSprites(s[from + 1..]);
      LiveSpritesAtAliveIndices(s, from + 1);
      assert s[from..][0] == s[from];
      assert s[from..][1..] == s[from + 1..];
      if Alive(s[from]) {
        assert ix == [from] + ix' && r == [s[from]] + r';
        forall p | 0 < p < |ix|
          ensures ix[p] < |s| && r[p] == s[ix[p]]
        {
          assert ix[p] == ix'[p - 1] && r[p] == r'[p - 1];
        }
      } else {
        assert ix == ix' && r == r';
      }
    }
  }

  /**
   * The filter keeps exactly the live sprites, in their relative order:
   * entry `p` of the result is the sprite at the `p`-th live position of
   * `s`, those positions increase, and a position is among them exactly when
   * its sprite is alive.
   */
  lemma LiveSpritesInOrder(s: seq<Sprite>)
    ensures var ix := AliveIndices(s, 0);
      |ix| == |LiveSprites(s)|
      && (forall p :: 0 <= p < |ix| ==> ix[p] < |s| && LiveSprites(s)[p] == s[ix[p]])
      && (forall p, q :: 0 <= p < q < |ix| ==> ix[p] < ix[q])
      && (forall a :: 0 <= a < |s| ==> (Alive(s[a]) <==> a in ix))
  {
    AliveIndicesIncrease(s, 0);
    AliveIndicesMembers(s, 0);
    LiveSpritesAtAliveIndices(s, 0);
    assert s[0..] == s;
  }
}
