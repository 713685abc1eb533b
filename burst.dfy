/** Bursts of particles: the pool after `spawn_burst` has stored k
    particles drawn from the generator, and what that leaves of the pool. */
module Bursts {
  import opened Rng
  import opened Render
  import opened Particles

  /** The k-th particle of a burst, counting from 1, the generator
      starting at s: it draws its bytes from the seeds 2k - 1 and 2k steps
      on. */
  function BurstAt(s: int, x: real, y: real, color: Color, k: nat): (p: Particle)
    requires SeedOk(s) && k >= 1
    ensures !p.removed && OfBurst(p, x, y, color)
  {
    Spawned(x, y, color, ByteOf(SeedAfter(s, 2 * k - 1)), ByteOf(SeedAfter(s, 2 * k)))
  }

  /** The pool and the free stack after the first k particles of a burst
      from (x, y) in `color`, the generator starting at s: the i-th
      particle, counting from 1, draws its bytes from the seeds 2i - 1 and
      2i steps on. */
  function Burst(ps: seq<Particle>, stack: seq<int>, s: int, x: real, y: real, color: Color, k: nat): (r: (seq<Particle>, seq<int>))
    requires PoolValid(ps, stack) && SeedOk(s)
    ensures PoolValid(r.0, r.1)
    ensures |r.0| - |r.1| == |ps| - |stack| + k
    ensures |ps| <= |r.0| <= |ps| + k
    ensures forall i :: 0 <= i < |ps| && !ps[i].removed ==> r.0[i] == ps[i]
    ensures forall i :: 0 <= i < |r.0| && (i >= |ps| || ps[i].removed) && !r.0[i].removed ==>
      OfBurst(r.0[i], x, y, color)
    decreases k
  {
    if k == 0 then (ps, stack)
    else
      var prev := Burst(ps, stack, s, x, y, color, k - 1);
      var p := BurstAt(s, x, y, color, k);
      var r := Store(prev.0, prev.1, p);
      KeptThrough(ps, prev.0, r.0);
      FilledThrough(ps, prev.0, r.0, p, x, y, color);
      r
  }


  /** One more particle of a burst: from the pool, the stack and the seed
      the first i particles leave, `particle_spawn` draws two more bytes
      and stores the (i + 1)-th particle, which gives the burst of i + 1. */
  lemma BurstNext(ps: seq<Particle>, stack: seq<int>, s: int, x: real, y: real, color: Color, i: nat,
                  pool: seq<Particle>, free: seq<int>, sd: int)
    requires PoolValid(ps, stack) && SeedOk(s)
    requires (pool, free) == Burst(ps, stack, s, x, y, color, i) && sd == SeedAfter(s, 2 * i)
    ensures NextSeed(NextSeed(sd)) == SeedAfter(s, 2 * (i + 1))
    ensures Store(pool, free, Spawned(x, y, color, ByteOf(NextSeed(sd)), ByteOf(NextSeed(NextSeed(sd))))) ==
      Burst(ps, stack, s, x, y, color, i + 1)
  {
    assert SeedAfter(s, 2 * i + 1) == NextSeed(sd);
    assert BurstAt(s, x, y, color, i + 1) == Spawned(x, y, color, ByteOf(NextSeed(sd)), ByteOf(NextSeed(NextSeed(sd))));
  }
  /** The live entries of ps that a stays at are kept by a step to b that
      keeps a's live entries. */
  lemma KeptThrough(ps: seq<Particle>, a: seq<Particle>, b: seq<Particle>)
    requires |ps| <= |a| <= |b|
    requires forall i :: 0 <= i < |ps| && !ps[i].removed ==> a[i] == ps[i]
    requires forall i :: 0 <= i < |a| && !a[i].removed ==> b[i] == a[i]
    ensures forall i :: 0 <= i < |ps| && !ps[i].removed ==> b[i] == ps[i]
  {
  }

  /** A particle of a burst from (x, y) in `color`: it starts there and
      moves with the velocity bounds of `particle_spawn`. */
  ghost predicate OfBurst(q: Particle, x: real, y: real, color: Color) {
    q.pos == Vec2(x, y) && q.color == color && -1.0 <= q.vel.x <= 1.0 && -2.0 <= q.vel.y <= 0.0
  }

  /** If the entries of a that were removed or new relative to ps are burst
      particles once live, and the step to b keeps a's live entries and puts
      the burst particle p in any other entry it fills, the same holds of b. */
  lemma FilledThrough(ps: seq<Particle>, a: seq<Particle>, b: seq<Particle>, p: Particle, x: real, y: real, color: Color)
    requires |a| <= |b| && OfBurst(p, x, y, color)
    requires forall i :: 0 <= i < |a| && (i >= |ps| || ps[i].removed) && !a[i].removed ==> OfBurst(a[i], x, y, color)
    requires forall i :: 0 <= i < |a| && !a[i].removed ==> b[i] == a[i]
    requires forall i :: 0 <= i < |b| && (i >= |a| || a[i].removed) ==> b[i].removed || b[i] == p
    ensures forall i :: 0 <= i < |b| && (i >= |ps| || ps[i].removed) && !b[i].removed ==> OfBurst(b[i], x, y, color)
  {
    forall i | 0 <= i < |b| && (i >= |ps| || ps[i].removed) && !b[i].removed
      ensures OfBurst(b[i], x, y, color)
    {
      if i < |a| && !a[i].removed {
        assert b[i] == a[i];
      }
    }
  }

  /** A burst of k particles makes exactly k more entries live. */
  lemma BurstLive(ps: seq<Particle>, stack: seq<int>, s: int, x: real, y: real, color: Color, k: nat)
    requires PoolValid(ps, stack) && SeedOk(s)
    ensures var r := Burst(ps, stack, s, x, y, color, k);
      LiveCount(r.0, |r.0|) == LiveCount(ps, |ps|) + k
  {
    var r := Burst(ps, stack, s, x, y, color, k);
    StackSize(ps, stack);
    StackSize(r.0, r.1);
  }
}
