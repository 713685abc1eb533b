/** What a reveal does to the particle pool and the generator: every live
    particle stays, every particle that comes to life is a white burst
    particle from the corner of an opened cell, and the generator moves
    twenty steps per opened cell. */
module Reveals {
  import opened Rng
  import opened Render
  import opened Particles
  import opened Bursts

  /** The cell whose top-left corner is at `v`, for a corner on the grid. */
  function CellAt(v: Vec2): (c: (int, int))
    ensures forall x: int, y: int {:trigger Vec2((x * CellW) as real, (y * CellH) as real)} ::
      v == Vec2((x * CellW) as real, (y * CellH) as real) ==> c == (x, y)
  {
    (v.x.Floor / CellW, v.y.Floor / CellH)
  }

  /** A white particle of the burst from the corner of one of the cells
      that are keys of `cells`. */
  ghost predicate FromOpened(q: Particle, cells: map<(int, int), nat>) {
    var c := CellAt(q.pos);
    c in cells && OfBurst(q, (c.0 * CellW) as real, (c.1 * CellH) as real, White)
  }

  /** What a reveal that opens the cells keyed in `rank` does to the pool
      p0, leaving p1: the pool does not shrink, every live entry stays as it
      was, and every entry that is live now but was not before is a white
      particle from the corner of an opened cell. */
  ghost predicate Revealed(p0: seq<Particle>, p1: seq<Particle>, rank: map<(int, int), nat>) {
    |p0| <= |p1| &&
    (forall i :: 0 <= i < |p0| && !p0[i].removed ==> p1[i] == p0[i]) &&
    (forall i :: 0 <= i < |p1| && (i >= |p0| || p0[i].removed) && !p1[i].removed ==> FromOpened(p1[i], rank))
  }

  /** A white burst from the corner of cell (cx, cy), stored in the pool
      p1, is a reveal of that one cell. */
  lemma BurstRevealed(ps: seq<Particle>, stack: seq<int>, s: int, cx: int, cy: int, k: nat, p1: seq<Particle>)
    requires PoolValid(ps, stack) && SeedOk(s)
    requires p1 == Burst(ps, stack, s, (cx * CellW) as real, (cy * CellH) as real, White, k).0
    ensures Revealed(ps, p1, map[(cx, cy) := 0])
  {
    assert CellAt(Vec2((cx * CellW) as real, (cy * CellH) as real)) == (cx, cy);
  }

  /** The witness of a reveal that has opened one cell has one key. */
  lemma OneCell(cx: int, cy: int)
    ensures |map[(cx, cy) := 0]| == 1
  {
    var m := map[(cx, cy) := 0];
    assert m.Keys == {(cx, cy)};
  }

  /** Two reveals in a row are one reveal of the cells of both. */
  lemma RevealedThrough(p0: seq<Particle>, p1: seq<Particle>, p2: seq<Particle>, r1: map<(int, int), nat>, r2: map<(int, int), nat>, r: map<(int, int), nat>)
    requires Revealed(p0, p1, r1) && Revealed(p1, p2, r2)
    requires r1.Keys <= r.Keys && r2.Keys <= r.Keys
    ensures Revealed(p0, p2, r)
  {
    forall i | 0 <= i < |p2| && (i >= |p0| || p0[i].removed) && !p2[i].removed
      ensures FromOpened(p2[i], r)
    {
      if i < |p1| && !p1[i].removed {
        assert p2[i] == p1[i] && FromOpened(p1[i], r1);
      }
    }
  }

  /** A reveal of the cells keyed in r0 followed by one of those keyed in
      r1, disjoint from them, is one reveal of the cells keyed in r, for
      the pool and for the generator, which moves twenty steps per opened
      cell either way. */
  lemma RevealedMerge(p0: seq<Particle>, pb: seq<Particle>, pa: seq<Particle>, s0: int, r0: map<(int, int), nat>, r1: map<(int, int), nat>, r: map<(int, int), nat>)
    requires r.Keys == r0.Keys + r1.Keys && |r| == |r0| + |r1| && SeedOk(s0)
    requires Revealed(p0, pb, r0) && Revealed(pb, pa, r1)
    ensures Revealed(p0, pa, r)
    ensures SeedAfter(SeedAfter(s0, 20 * |r0|), 20 * |r1|) == SeedAfter(s0, 20 * |r|)
  {
    RevealedThrough(p0, pb, pa, r0, r1, r);
    SeedsAdd(s0, |r0|, |r1|, |r|);
  }

  /** Twenty steps for each of a cells and then for each of b more are
      twenty steps for each of their a + b cells. */
  lemma SeedsAdd(s0: int, a: nat, b: nat, n: nat)
    requires SeedOk(s0) && n == a + b
    ensures SeedAfter(SeedAfter(s0, 20 * a), 20 * b) == SeedAfter(s0, 20 * n)
  {
    SeedAfterAdd(s0, 20 * a, 20 * b);
  }
}
