/** Particles and the particle pool: a fixed array of entries, of which the
    first `particles_len` are in use, and a stack of the indices of removed
    entries that a new particle may reuse. */
module Particles {
  import opened Render

  datatype Particle = Particle(pos: Vec2, vel: Vec2, color: Color, removed: bool)

  /** Capacity of the particle array and of the free-slot stack, `8 * 1024`. */
  const Capacity: int := 8192

  const Gravity: real := 0.1

  /** A particle is dropped once it has fallen 10 pixels below the screen. */
  predicate Expired(p: Particle) {
    p.pos.y > (ScreenH + 10) as real
  }

  /** Only a particle that has left the screen is dropped: one on the
      screen, or up to 10 pixels below it, is kept. */
  lemma ExpiredOffScreen(p: Particle)
    ensures Expired(p) ==> p.pos.y > ScreenH as real
    ensures p.pos.y <= (ScreenH + 10) as real ==> !Expired(p)
  {
  }

  /** The particle `particle_spawn(x, y, color)` creates from the two bytes
      b1 and b2 the generator yields: it drifts sideways by at most one
      pixel per frame and starts upwards at up to two pixels per frame. */
  function Spawned(x: real, y: real, color: Color, b1: int, b2: int): (p: Particle)
    requires 0 <= b1 < 256 && 0 <= b2 < 256
    ensures p.pos == Vec2(x, y) && p.color == color && !p.removed
    ensures -1.0 <= p.vel.x <= 1.0 && -2.0 <= p.vel.y <= 0.0
    ensures p.vel.x == 0.0 <==> 2 * b1 == 255
  {
    Particle(Vec2(x, y), Vec2((b1 as real / 255.0 - 0.5) * 2.0, (b2 as real / 255.0) * -2.0), color, false)
  }

  /** One pool entry after one update: a removed entry is left alone; a live
      one moves by its velocity, then gravity accelerates it, and it is
      marked removed if it has now fallen off the screen. */
  function Advance(p: Particle): (r: Particle)
    ensures p.removed ==> r == p
    ensures !p.removed ==> r.removed == Expired(r) && r.color == p.color
    ensures !p.removed ==> r.pos == Vec2(p.pos.x + p.vel.x, p.pos.y + p.vel.y)
    ensures !p.removed ==> r.vel == Vec2(p.vel.x, p.vel.y + Gravity)
  {
    if p.removed then p
    else
      var q := p.(pos := Vec2(p.pos.x + p.vel.x, p.pos.y + p.vel.y));
      var q := q.(vel := Vec2(q.vel.x, q.vel.y + Gravity));
      if Expired(q) then q.(removed := true) else q
  }

  /** The update pass frees this entry: it was live and falls off now. */
  predicate Expires(p: Particle) {
    !p.removed && Advance(p).removed
  }

  /** The 2 x 2 square a particle draws in the frame, if it is still live
      after its update. */
  function ParticleVerts(p: Particle): (r: seq<Vertex>)
    ensures |r| == if Advance(p).removed then 0 else 6
    ensures forall i :: 0 <= i < |r| ==> r[i].color == p.color
  {
    var a := Advance(p);
    if a.removed then [] else RectVerts(a.pos.x, a.pos.y, 2.0, 2.0, a.color)
  }

  /** The first n entries of the pool after the update pass. */
  function AdvanceAll(ps: seq<Particle>, n: nat): (r: seq<Particle>)
    requires n <= |ps|
    ensures |r| == n
    ensures forall i :: 0 <= i < n ==> r[i] == Advance(ps[i])
  {
    if n == 0 then [] else AdvanceAll(ps, n - 1) + [Advance(ps[n - 1])]
  }

  /** The vertices the update pass draws for entries 0 .. n-1. */
  function PoolVerts(ps: seq<Particle>, n: nat): seq<Vertex>
    requires n <= |ps|
  {
    if n == 0 then [] else PoolVerts(ps, n - 1) + ParticleVerts(ps[n - 1])
  }

  /** The indices among 0 .. n-1, in increasing order, of the live entries
      that the update pass removes: those it pushes onto the free stack. */
  function Expiring(ps: seq<Particle>, n: nat): (r: seq<int>)
    requires n <= |ps|
    ensures forall k :: 0 <= k < |r| ==> 0 <= r[k] < n && !ps[r[k]].removed && Advance(ps[r[k]]).removed
    ensures forall i :: 0 <= i < n && !ps[i].removed && Advance(ps[i]).removed ==> i in r
    ensures forall k, l :: 0 <= k < l < |r| ==> r[k] < r[l]
    ensures |r| <= LiveCount(ps, n)
  {
    if n == 0 then []
    else if Expires(ps[n - 1]) then Expiring(ps, n - 1) + [n - 1]
    else Expiring(ps, n - 1)
  }

  /** Number of live (not removed) entries among 0 .. n-1. */
  function LiveCount(ps: seq<Particle>, n: nat): (r: nat)
    requires n <= |ps|
    ensures r <= n
  {
    if n == 0 then 0 else LiveCount(ps, n - 1) + (if ps[n - 1].removed then 0 else 1)
  }

  /** Removed particles draw nothing: the update pass draws exactly one
      quad per entry that is live after it. */
  lemma {:induction false} PoolVertsLength(ps: seq<Particle>, n: nat)
    requires n <= |ps|
    ensures |PoolVerts(ps, n)| == 6 * LiveCount(AdvanceAll(ps, |ps|), n)
  {
    if n > 0 {
      PoolVertsLength(ps, n - 1);
    }
  }

  lemma {:induction false} LiveCountMono(ps: seq<Particle>, m: nat, n: nat)
    requires m <= n <= |ps|
    ensures LiveCount(ps, m) <= LiveCount(ps, n)
    ensures LiveCount(ps, n) - LiveCount(ps, m) <= n - m
    decreases n - m
  {
    if m < n {
      LiveCountMono(ps, m, n - 1);
    }
  }

  // ---------------------------------------------------------------- the free-slot stack

  /** The free stack holds exactly the indices of the removed entries among
      the ones in use, each of them once. */
  ghost predicate PoolValid(ps: seq<Particle>, stack: seq<int>) {
    (forall k :: 0 <= k < |stack| ==> 0 <= stack[k] < |ps| && ps[stack[k]].removed) &&
    (forall k, l :: 0 <= k < l < |stack| ==> stack[k] != stack[l]) &&
    (forall i :: 0 <= i < |ps| && ps[i].removed ==> i in stack)
  }

  /** Taking the top of the stack for a new particle keeps the pool valid. */
  lemma SpawnReuseValid(ps: seq<Particle>, stack: seq<int>, p: Particle)
    requires PoolValid(ps, stack) && |stack| > 0 && !p.removed
    ensures 0 <= stack[|stack| - 1] < |ps|
    ensures PoolValid(ps[stack[|stack| - 1] := p], stack[..|stack| - 1])
  {
    var top := stack[|stack| - 1];
    var rest := stack[..|stack| - 1];
    var ps' := ps[top := p];
    forall i | 0 <= i < |ps'| && ps'[i].removed ensures i in rest {
      assert i != top;
      var k :| 0 <= k < |stack| && stack[k] == i;
      assert k < |stack| - 1;
      assert rest[k] == i;
    }
  }

  /** Appending a new particle when the stack is empty keeps the pool valid. */
  lemma SpawnAppendValid(ps: seq<Particle>, stack: seq<int>, p: Particle)
    requires PoolValid(ps, stack) && !p.removed
    ensures PoolValid(ps + [p], stack)
  {
  }

  /** The pool and the free stack once `particle_spawn` has stored p: in
      the slot on top of the free stack, which is popped, or after the
      entries in use. Live entries are kept, p takes the place of a removed
      or new entry, and one more entry is live. */
  function Store(ps: seq<Particle>, stack: seq<int>, p: Particle): (r: (seq<Particle>, seq<int>))
    requires PoolValid(ps, stack) && !p.removed
    ensures PoolValid(r.0, r.1)
    ensures |r.0| - |r.1| == |ps| - |stack| + 1
    ensures |ps| <= |r.0| <= |ps| + 1 && p in r.0
    ensures forall i :: 0 <= i < |ps| && !ps[i].removed ==> r.0[i] == ps[i]
    ensures forall i :: 0 <= i < |r.0| && (i >= |ps| || ps[i].removed) ==> r.0[i].removed || r.0[i] == p
  {
    if |stack| > 0 then
      SpawnReuseValid(ps, stack, p);
      var top := stack[|stack| - 1];
      assert ps[top := p][top] == p;
      (ps[top := p], stack[..|stack| - 1])
    else
      SpawnAppendValid(ps, stack, p);
      (ps + [p], stack)
  }

  /** The update pass keeps the pool valid: the entries it removes are
      pushed onto the stack in increasing order. */
  lemma UpdateValid(ps: seq<Particle>, stack: seq<int>)
    requires PoolValid(ps, stack)
    ensures PoolValid(AdvanceAll(ps, |ps|), stack + Expiring(ps, |ps|))
  {
    var ps' := AdvanceAll(ps, |ps|);
    var ex := Expiring(ps, |ps|);
    var st := stack + ex;
    forall k, l | 0 <= k < l < |st| ensures st[k] != st[l] {
      if l >= |stack| && k < |stack| {
        assert ps[st[k]].removed && !ps[st[l]].removed;
      } else if k >= |stack| {
        assert st[k] == ex[k - |stack|] && st[l] == ex[l - |stack|];
      }
    }
    forall i | 0 <= i < |ps'| && ps'[i].removed ensures i in st {
      if ps[i].removed {
        var k :| 0 <= k < |stack| && stack[k] == i;
        assert st[k] == i;
      } else {
        var k :| 0 <= k < |ex| && ex[k] == i;
        assert st[|stack| + k] == i;
      }
    }
  }

  /** Elements of a sequence without repetitions. */
  lemma {:induction false} DistinctCard(s: seq<int>)
    requires forall k, l :: 0 <= k < l < |s| ==> s[k] != s[l]
    ensures |set k | 0 <= k < |s| :: s[k]| == |s|
  {
    if |s| > 0 {
      var t := s[..|s| - 1];
      DistinctCard(t);
      var a := set k | 0 <= k < |t| :: t[k];
      assert (set k | 0 <= k < |s| :: s[k]) == a + {s[|s| - 1]};
      assert s[|s| - 1] !in a;
    }
  }

  /** The indices of the removed entries among 0 .. n-1. */
  ghost function RemovedBelow(ps: seq<Particle>, n: nat): set<int>
    requires n <= |ps|
  {
    set i | 0 <= i < n && ps[i].removed
  }

  lemma {:induction false} RemovedBelowCard(ps: seq<Particle>, n: nat)
    requires n <= |ps|
    ensures |RemovedBelow(ps, n)| == n - LiveCount(ps, n)
  {
    if n > 0 {
      RemovedBelowCard(ps, n - 1);
      if ps[n - 1].removed {
        assert RemovedBelow(ps, n) == RemovedBelow(ps, n - 1) + {n - 1};
      } else {
        assert RemovedBelow(ps, n) == RemovedBelow(ps, n - 1);
      }
    } else {
      assert RemovedBelow(ps, 0) == {};
    }
  }

  /** In a valid pool the stack is as long as the number of removed
      entries, so the entries in use are the live ones plus the stack. */
  lemma StackSize(ps: seq<Particle>, stack: seq<int>)
    requires PoolValid(ps, stack)
    ensures |stack| == |ps| - LiveCount(ps, |ps|)
  {
    DistinctCard(stack);
    RemovedBelowCard(ps, |ps|);
    assert (set k | 0 <= k < |stack| :: stack[k]) == RemovedBelow(ps, |ps|) by {
      forall i | i in RemovedBelow(ps, |ps|) ensures i in (set k | 0 <= k < |stack| :: stack[k]) {
        var k :| 0 <= k < |stack| && stack[k] == i;
      }
    }
  }
}
