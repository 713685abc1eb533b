/** The game's global state and every operation that changes it: the board,
    the particle pool with its free-slot stack, the vertex buffer and the
    generator seed, as one object whose methods are the game's functions. */
module Game {
  import opened CInt
  import opened Board
  import opened Rng
  import opened Render
  import opened Particles
  import opened NeighborIteration
  import opened Bursts
  import opened Reveals

  /** The cell the t-th draw of `place_bombs` picks, counting from 1, when
      the generator started at s0: two bytes, the first reduced modulo the
      width and the second modulo the height. */
  function DrawnCell(s0: int, t: nat): (c: Coord)
    requires SeedOk(s0) && t >= 1
    ensures IsValidCoord(c.0, c.1)
  {
    (ByteOf(SeedAfter(s0, 2 * t - 1)) % W, ByteOf(SeedAfter(s0, 2 * t)) % H)
  }

  /** The try at which a draw of `place_bombs` on g stops, the generator
      having started at s0 and the tries before t having hit bombs: the
      first try from t on whose cell has no bomb, or fuel + 1 once the
      fuel is spent. */
  function StopTry(g: Grid, s0: int, t: nat, fuel: nat): (r: nat)
    requires WellFormed(g) && SeedOk(s0) && 1 <= t <= fuel + 1
    ensures t <= r <= fuel + 1
    ensures r < fuel + 1 ==> !At(g, DrawnCell(s0, r)).hasBomb
    ensures forall u :: t <= u < r ==> At(g, DrawnCell(s0, u)).hasBomb
    decreases fuel + 1 - t
  {
    if !At(g, DrawnCell(s0, t)).hasBomb || t == fuel + 1 then t else StopTry(g, s0, t + 1, fuel)
  }

  /** The board, the seed and the outcome of `place_bombs(n)` on g with the
      generator at s: each round puts a bomb on the cell its draw stops at,
      and the rounds end early, with false, when a draw runs out of fuel. */
  function Placed(g: Grid, s: int, n: nat, fuel: nat): (r: (Grid, int, bool))
    requires WellFormed(g) && SeedOk(s)
    ensures WellFormed(r.0) && SeedOk(r.1)
    decreases n
  {
    if n == 0 then (g, s, true)
    else
      var t := StopTry(g, s, 1, fuel);
      var c := DrawnCell(s, t);
      if At(g, c).hasBomb then (g, SeedAfter(s, 2 * t), false)
      else Placed(PlaceBomb(g, c.0, c.1), SeedAfter(s, 2 * t), n - 1, fuel)
  }

  /** Placing bombs changes no cell state and removes no bomb. */
  lemma {:induction false} PlacedStates(g: Grid, s: int, n: nat, fuel: nat)
    requires WellFormed(g) && SeedOk(s)
    ensures forall x, y :: IsValidCoord(x, y) ==> Placed(g, s, n, fuel).0[y][x].state == g[y][x].state
    ensures forall x, y :: IsValidCoord(x, y) && g[y][x].hasBomb ==> Placed(g, s, n, fuel).0[y][x].hasBomb
    decreases n
  {
    if n > 0 {
      var t := StopTry(g, s, 1, fuel);
      var c := DrawnCell(s, t);
      if !At(g, c).hasBomb {
        PlacedStates(PlaceBomb(g, c.0, c.1), SeedAfter(s, 2 * t), n - 1, fuel);
      }
    }
  }

  /** Placing bombs adds n of them when no draw runs out of fuel. */
  lemma {:induction false} PlacedBombs(g: Grid, s: int, n: nat, fuel: nat)
    requires WellFormed(g) && SeedOk(s)
    ensures Placed(g, s, n, fuel).2 ==> |BombSet(Placed(g, s, n, fuel).0)| == |BombSet(g)| + n
    decreases n
  {
    if n > 0 {
      var t := StopTry(g, s, 1, fuel);
      var c := DrawnCell(s, t);
      if !At(g, c).hasBomb {
        var g' := PlaceBomb(g, c.0, c.1);
        var r := Placed(g', SeedAfter(s, 2 * t), n - 1, fuel);
        assert Placed(g, s, n, fuel) == r;
        PlaceBombAdds(g, c.0, c.1);
        PlacedBombs(g', SeedAfter(s, 2 * t), n - 1, fuel);
      }
    }
  }

  /** From a fixed seed every draw picks the same cell. */
  lemma FixedDraws(s0: int, t: nat)
    requires SeedOk(s0) && NextSeed(s0) == s0 && t >= 1
    ensures DrawnCell(s0, t) == (ByteOf(s0) % W, ByteOf(s0) % H)
  {
    SeedAfterFixed(s0, 2 * t - 1);
    SeedAfterFixed(s0, 2 * t);
  }

  /** From a fixed seed, such as 21, `place_bombs` never places a second
      bomb: its first round bombs the one cell every draw picks, and the
      draws of the next round hit that bomb for ever. */
  lemma {:induction false} StuckPlacement(g: Grid, s: int, n: nat, fuel: nat)
    requires WellFormed(g) && SeedOk(s) && NextSeed(s) == s
    requires n >= 2 || (n >= 1 && At(g, (ByteOf(s) % W, ByteOf(s) % H)).hasBomb)
    ensures !Placed(g, s, n, fuel).2
    decreases n
  {
    var t := StopTry(g, s, 1, fuel);
    var c := DrawnCell(s, t);
    FixedDraws(s, t);
    SeedAfterFixed(s, 2 * t);
    if !At(g, c).hasBomb {
      var g' := PlaceBomb(g, c.0, c.1);
      assert At(g', c).hasBomb;
      StuckPlacement(g', s, n - 1, fuel);
    }
  }

  /** `initialize` from the seed 21 or -248 never gets its 40 bombs. */
  lemma StuckSeeds(fuel: nat)
    ensures !Placed(EmptyGrid(), 21, 40, fuel).2
    ensures !Placed(EmptyGrid(), -248, 40, fuel).2
  {
    FixedSeeds(21);
    FixedSeeds(-248);
    StuckPlacement(EmptyGrid(), 21, 40, fuel);
    StuckPlacement(EmptyGrid(), -248, 40, fuel);
  }

  class Game {
    const board: array2<Cell>
    const particles: array<Particle>
    const slots: array<int>
    const vertices: array<Vertex>
    var particlesLen: int
    var slotsLen: int
    var verticesCount: int
    var seed: int

    /** The buffers have the game's fixed sizes. */
    ghost predicate Shaped() {
      board.Length0 == H && board.Length1 == W &&
      particles.Length == Capacity && slots.Length == Capacity && vertices.Length == VertexCapacity
    }

    /** The pool part of the invariant; it reads only the pool's fields,
        so drawing into the vertex buffer or drawing random bytes leaves
        it alone. */
    ghost predicate PoolOk()
      reads this`particlesLen, this`slotsLen, particles, slots
    {
      Shaped() &&
      0 <= slotsLen <= particlesLen <= Capacity &&
      PoolValid(Pool(), Stack())
    }

    ghost predicate Valid()
      reads this, particles, slots
    {
      PoolOk() &&
      0 <= verticesCount <= VertexCapacity &&
      SeedOk(seed)
    }

    /** The board as a grid of rows. */
    ghost function Cells(): (g: Grid)
      reads board
      requires Shaped()
      ensures WellFormed(g)
      ensures forall y, x :: 0 <= y < H && 0 <= x < W ==> g[y][x] == board[y, x]
    {
      seq(H, y requires 0 <= y < H reads board => seq(W, x requires 0 <= x < W reads board => board[y, x]))
    }

    /** The entries of the particle pool in use. */
    ghost function Pool(): seq<Particle>
      reads this`particlesLen, particles
      requires 0 <= particlesLen <= particles.Length
    {
      particles[..particlesLen]
    }

    /** The free-slot stack, bottom first. */
    ghost function Stack(): seq<int>
      reads this`slotsLen, slots
      requires 0 <= slotsLen <= slots.Length
    {
      slots[..slotsLen]
    }

    /** The vertices pushed in this frame so far. */
    ghost function Contents(): seq<Vertex>
      reads this`verticesCount, vertices
      requires 0 <= verticesCount <= vertices.Length
    {
      vertices[..verticesCount]
    }

    /** How many more particles can be spawned: free array entries plus
        free slots. */
    ghost function Room(): int
      reads this`particlesLen, this`slotsLen
    {
      Capacity - particlesLen + slotsLen
    }

    /** The zero-initialised globals: an empty board, no particles, no
        vertices, seed 0. */
    constructor ()
      ensures Valid() && Shaped()
      ensures forall y, x :: 0 <= y < H && 0 <= x < W ==> Cells()[y][x] == Cell(Unopened, false)
      ensures particlesLen == 0 && slotsLen == 0 && verticesCount == 0 && seed == 0
    {
      board := new Cell[H, W]((y, x) => Cell(Unopened, false));
      particles := new Particle[Capacity](_ => Particle(Vec2(0.0, 0.0), Vec2(0.0, 0.0), Color(0.0, 0.0, 0.0, 0.0), false));
      slots := new int[Capacity](_ => 0);
      vertices := new Vertex[VertexCapacity](_ => Vertex(Vec2(0.0, 0.0), Vec2(0.0, 0.0), Color(0.0, 0.0, 0.0, 0.0)));
      particlesLen := 0;
      slotsLen := 0;
      verticesCount := 0;
      seed := 0;
    }

    // ---------------------------------------------------------------- generator

    /** `rand_byte`: advances the seed and returns its low eight bits. */
    method RandByte() returns (b: int)
      requires Valid()
      modifies this`seed
      ensures Valid()
      ensures seed == NextSeed(old(seed)) && b == ByteOf(seed)
    {
      seed := NextSeed(seed);
      b := ByteOf(seed);
    }

    // ---------------------------------------------------------------- particles

    /** `particle_spawn`: draws two bytes for the velocity and stores the new
        particle in the most recently freed slot, or appends it. */
    method ParticleSpawn(x: real, y: real, color: Color)
      requires Valid()
      requires slotsLen > 0 || particlesLen < Capacity
      modifies this`seed, this`particlesLen, this`slotsLen, particles
      ensures Valid()
      ensures seed == NextSeed(NextSeed(old(seed)))
      ensures old(slotsLen) > 0 ==>
        slotsLen == old(slotsLen) - 1 && particlesLen == old(particlesLen) &&
        0 <= slots[slotsLen] < particlesLen &&
        Pool() == old(Pool())[slots[slotsLen] := Spawned(x, y, color, ByteOf(NextSeed(old(seed))), ByteOf(seed))]
      ensures old(slotsLen) == 0 ==>
        slotsLen == 0 && particlesLen == old(particlesLen) + 1 &&
        Pool() == old(Pool()) + [Spawned(x, y, color, ByteOf(NextSeed(old(seed))), ByteOf(seed))]
      ensures (Pool(), Stack()) == Store(old(Pool()), old(Stack()), Spawned(x, y, color, ByteOf(NextSeed(old(seed))), ByteOf(seed)))
      ensures Room() == old(Room()) - 1
    {
      var b1 := RandByte();
      var b2 := RandByte();
      StoreParticle(Spawned(x, y, color, b1, b2));
    }

    /** The end of `particle_spawn`: p goes into the slot on top of the
        free stack, which is popped, or after the entries in use. */
    method StoreParticle(p: Particle)
      requires Valid() && !p.removed
      requires slotsLen > 0 || particlesLen < Capacity
      modifies this`particlesLen, this`slotsLen, particles
      ensures Valid()
      ensures old(slotsLen) > 0 ==>
        slotsLen == old(slotsLen) - 1 && particlesLen == old(particlesLen) &&
        0 <= slots[slotsLen] < particlesLen &&
        Pool() == old(Pool())[slots[slotsLen] := p]
      ensures old(slotsLen) == 0 ==>
        slotsLen == 0 && particlesLen == old(particlesLen) + 1 &&
        Pool() == old(Pool()) + [p]
      ensures (Pool(), Stack()) == Store(old(Pool()), old(Stack()), p)
      ensures Room() == old(Room()) - 1
    {
      if slotsLen > 0 {
        SpawnReuseValid(particles[..particlesLen], slots[..slotsLen], p);
        slotsLen := slotsLen - 1;
        var slot := slots[slotsLen];
        particles[slot] := p;
        assert particles[..particlesLen] == old(particles[..particlesLen])[slot := p];
        assert slots[..slotsLen] == old(slots[..slotsLen])[..slotsLen];
      } else {
        SpawnAppendValid(particles[..particlesLen], slots[..slotsLen], p);
        particles[particlesLen] := p;
        particlesLen := particlesLen + 1;
        assert particles[..particlesLen] == old(particles[..particlesLen]) + [p];
      }
    }

    /** `particles_update_and_draw`: moves every live particle, frees the
        ones that fell off the screen and draws the others. */
    method ParticlesUpdateAndDraw()
      requires Valid()
      requires verticesCount + 6 * particlesLen <= VertexCapacity
      modifies particles, slots, this`slotsLen, vertices, this`verticesCount
      ensures Valid()
      ensures Pool() == AdvanceAll(old(Pool()), particlesLen)
      ensures Stack() == old(Stack()) + Expiring(old(Pool()), particlesLen)
      ensures Contents() == old(Contents()) + PoolVerts(old(Pool()), particlesLen)
      ensures verticesCount == old(verticesCount) + 6 * LiveCount(Pool(), particlesLen)
      ensures forall j :: particlesLen <= j < Capacity ==> particles[j] == old(particles[j])
    {
      ghost var ps := Pool();
      ghost var st := Stack();
      StackSize(ps, st);
      UpdatePass();
      UpdateValid(ps, st);
    }

    /** The loop of `particles_update_and_draw`, entry by entry. */
    method UpdatePass()
      requires Shaped() && 0 <= particlesLen <= Capacity && 0 <= slotsLen
      requires slotsLen == particlesLen - LiveCount(Pool(), particlesLen)
      requires 0 <= verticesCount && verticesCount + 6 * particlesLen <= VertexCapacity
      modifies particles, slots, this`slotsLen, vertices, this`verticesCount
      ensures 0 <= slotsLen <= Capacity && 0 <= verticesCount <= VertexCapacity
      ensures Pool() == AdvanceAll(old(Pool()), particlesLen)
      ensures Stack() == old(Stack()) + Expiring(old(Pool()), particlesLen)
      ensures Contents() == old(Contents()) + PoolVerts(old(Pool()), particlesLen)
      ensures verticesCount == old(verticesCount) + 6 * LiveCount(Pool(), particlesLen)
      ensures forall j :: particlesLen <= j < Capacity ==> particles[j] == old(particles[j])
    {
      ghost var ps := Pool();
      ghost var st := Stack();
      ghost var vs := Contents();
      ghost var orig := particles[..];
      var i := 0;
      while i < particlesLen
        invariant 0 <= i <= particlesLen
        invariant PassInv(i, ps, st, vs, orig)
      {
        UpdateStep(i, ps, st, vs, orig);
        i := i + 1;
      }
      ghost var ps' := AdvanceAll(ps, particlesLen);
      assert Pool() == ps';
      PoolVertsLength(ps, particlesLen);
      assert verticesCount == |Contents()| == |vs| + |PoolVerts(ps, particlesLen)|;
    }

    /** What the update pass has done after entries 0 .. i-1: they are
        advanced, the rest is untouched, the expired ones are on the stack
        and the live ones are drawn. */
    ghost predicate PassInv(i: int, ps: seq<Particle>, st: seq<int>, vs: seq<Vertex>, orig: seq<Particle>)
      reads this, particles, slots, vertices
    {
      Shaped() && 0 <= i <= |ps| == particlesLen <= Capacity == |orig| &&
      |st| == particlesLen - LiveCount(ps, particlesLen) &&
      |vs| + 6 * particlesLen <= VertexCapacity &&
      0 <= verticesCount <= VertexCapacity && 0 <= slotsLen <= Capacity &&
      (forall j :: 0 <= j < i ==> particles[j] == Advance(ps[j])) &&
      (forall j :: i <= j < Capacity ==> particles[j] == orig[j]) &&
      (forall j :: i <= j < particlesLen ==> orig[j] == ps[j]) &&
      Stack() == st + Expiring(ps, i) &&
      Contents() == vs + PoolVerts(ps, i)
    }

    /** One iteration of the update pass. */
    method UpdateStep(i: int, ghost ps: seq<Particle>, ghost st: seq<int>, ghost vs: seq<Vertex>, ghost orig: seq<Particle>)
      requires PassInv(i, ps, st, vs, orig) && i < particlesLen
      modifies particles, slots, this`slotsLen, vertices, this`verticesCount
      ensures PassInv(i + 1, ps, st, vs, orig)
    {
      assert particles[i] == ps[i];
      LiveCountMono(ps, i + 1, particlesLen);
      PoolVertsLength(ps, i);
      UpdateParticle(i);
      AppendAssoc(st, Expiring(ps, i), if Expires(ps[i]) then [i] else []);
      AppendAssoc(vs, PoolVerts(ps, i), ParticleVerts(ps[i]));
    }

    /** The body of the update pass for entry i: a live particle moves, and
        is then either pushed onto the free stack or drawn. */
    method UpdateParticle(i: int)
      requires Shaped() && 0 <= i < Capacity
      requires 0 <= slotsLen <= Capacity && (Expires(particles[i]) ==> slotsLen < Capacity)
      requires 0 <= verticesCount && verticesCount + 6 <= VertexCapacity
      modifies particles, slots, this`slotsLen, vertices, this`verticesCount
      ensures particles[i] == Advance(old(particles[i]))
      ensures forall j :: 0 <= j < Capacity && j != i ==> particles[j] == old(particles[j])
      ensures 0 <= slotsLen <= Capacity && 0 <= verticesCount <= VertexCapacity
      ensures Stack() == old(Stack()) + if Expires(old(particles[i])) then [i] else []
      ensures Contents() == old(Contents()) + ParticleVerts(old(particles[i]))
    {
      var p := particles[i];
      if !p.removed {
        var q := Advance(p);
        particles[i] := q;
        if q.removed {
          PushSlot(i);
        } else {
          DrawRect(q.pos.x, q.pos.y, 2.0, 2.0, q.color);
        }
      }
    }

    /** Pushes index i onto the free-slot stack. */
    method PushSlot(i: int)
      requires Shaped() && 0 <= slotsLen < Capacity
      modifies slots, this`slotsLen
      ensures 0 <= slotsLen <= Capacity
      ensures Stack() == old(Stack()) + [i]
    {
      slots[slotsLen] := i;
      slotsLen := slotsLen + 1;
    }

    // ---------------------------------------------------------------- vertices

    /** `push_vert`: appends one vertex; the buffer must have room. */
    method PushVert(x: real, y: real, u: real, v: real, color: Color)
      requires Shaped() && 0 <= verticesCount < VertexCapacity
      modifies vertices, this`verticesCount
      ensures verticesCount == old(verticesCount) + 1
      ensures Contents() == old(Contents()) + [Vertex(Vec2(x, y), Vec2(u, v), color)]
    {
      vertices[verticesCount] := Vertex(Vec2(x, y), Vec2(u, v), color);
      verticesCount := verticesCount + 1;
    }

    /** Appends the six vertices of one quad. */
    method PushQuad(x0: real, y0: real, x1: real, y1: real, u0: real, v0: real, u1: real, v1: real, color: Color)
      requires Shaped() && 0 <= verticesCount && verticesCount + 6 <= VertexCapacity
      modifies vertices, this`verticesCount
      ensures verticesCount == old(verticesCount) + 6
      ensures Contents() == old(Contents()) + Quad(x0, y0, x1, y1, u0, v0, u1, v1, color)
    {
      PushVert(x0, y0, u0, v0, color);
      PushVert(x0, y1, u0, v1, color);
      PushVert(x1, y1, u1, v1, color);
      PushVert(x0, y0, u0, v0, color);
      PushVert(x1, y0, u1, v0, color);
      PushVert(x1, y1, u1, v1, color);
    }

    /** `draw_rect`: appends a solid quad. */
    method DrawRect(x: real, y: real, w: real, h: real, color: Color)
      requires Shaped() && 0 <= verticesCount && verticesCount + 6 <= VertexCapacity
      modifies vertices, this`verticesCount
      ensures verticesCount == old(verticesCount) + 6
      ensures Contents() == old(Contents()) + RectVerts(x, y, w, h, color)
    {
      PushQuad(x, y, x + w, y + h, 0.4, 0.0, 0.4, 0.0, color);
    }

    /** `draw_digit`: appends the glyph of `digit` over cell (cx, cy). */
    method DrawDigit(cx: int, cy: int, digit: int)
      requires 0 <= digit < 10
      requires Shaped() && 0 <= verticesCount && verticesCount + 6 <= VertexCapacity
      modifies vertices, this`verticesCount
      ensures verticesCount == old(verticesCount) + 6
      ensures Contents() == old(Contents()) + DigitVerts(cx, cy, digit)
    {
      var w := 3.0;
      var h := 5.0;
      var x := (cx * CellW) as real + (CellW as real - w) / 2.0;
      var y := (cy * CellH) as real + (CellH as real - h) / 2.0;
      var u := 0.1 * digit as real;
      PushQuad(x, y, x + w, y + h, u, 0.0, u + 0.1, 1.0, DigitColor(digit));
    }

    // ---------------------------------------------------------------- counting

    /** `count_surrounding_bombs`: scans the neighbours with a cursor. */
    method CountSurroundingBombs(cx: int, cy: int) returns (bombs: int)
      requires Shaped() && IsValidCoord(cx, cy)
      ensures bombs == CountBombs(Cells(), cx, cy)
    {
      bombs := 0;
      var it := new NeighborIter(cx, cy);
      NeighborsFromSound(cx, cy, 0);
      while true
        invariant it.Valid() && it.cx == cx && it.cy == cy
        invariant AllValid(it.Remaining())
        invariant bombs + CountBombsIn(Cells(), it.Remaining()) == CountBombs(Cells(), cx, cy)
        decreases |it.Remaining()|
      {
        var more := it.Next();
        if !more {
          break;
        }
        if board[it.y, it.x].hasBomb {
          bombs := bombs + 1;
        }
      }
    }

    /** `draw_cell`: appends the layers `get_draw_flags` selects. */
    method DrawCell(cx: int, cy: int)
      requires Shaped() && IsValidCoord(cx, cy)
      requires 0 <= verticesCount && verticesCount + 12 <= VertexCapacity
      modifies vertices, this`verticesCount
      ensures verticesCount == old(verticesCount) + |CellVerts(Cells(), cx, cy)|
      ensures Contents() == old(Contents()) + CellVerts(Cells(), cx, cy)
    {
      var f := GetDrawFlags(board[cy, cx]);
      var parity := (cx + cy) % 2;
      var x := (cx * CellW) as real;
      var y := (cy * CellH) as real;
      ghost var c0 := Contents();
      DrawTile(f, x, y, parity);
      ghost var c1 := Contents();
      DrawDecor(f, cx, cy, x, y);
      AppendAssoc(c0, TileVerts(f, x, y, parity), DecorVerts(f, cx, cy, x, y, CountBombs(Cells(), cx, cy)));
    }

    /** The grass and dirt layers of `draw_cell`. */
    method DrawTile(f: bv8, x: real, y: real, parity: int)
      requires Shaped() && (f & FlagGrass != 0) != (f & FlagDirt != 0)
      requires 0 <= verticesCount && verticesCount + 12 <= VertexCapacity
      modifies vertices, this`verticesCount
      ensures verticesCount == old(verticesCount) + 6
      ensures Contents() == old(Contents()) + TileVerts(f, x, y, parity)
    {
      if f & FlagGrass != 0 {
        DrawRect(x, y, CellW as real, CellH as real, GrassColor(parity));
      }
      if f & FlagDirt != 0 {
        DrawRect(x, y, CellW as real, CellH as real, DirtColor(parity));
      }
    }

    /** The digit, bomb and mark layers of `draw_cell`; at most one of them
        is set. */
    method DrawDecor(f: bv8, cx: int, cy: int, x: real, y: real)
      requires Shaped() && IsValidCoord(cx, cy)
      requires !(f & FlagDigit != 0 && f & FlagBomb != 0) && !(f & FlagDigit != 0 && f & FlagMark != 0) && !(f & FlagBomb != 0 && f & FlagMark != 0)
      requires 0 <= verticesCount && verticesCount + 6 <= VertexCapacity
      modifies vertices, this`verticesCount
      ensures verticesCount == old(verticesCount) + |DecorVerts(f, cx, cy, x, y, CountBombs(Cells(), cx, cy))|
      ensures Contents() == old(Contents()) + DecorVerts(f, cx, cy, x, y, CountBombs(Cells(), cx, cy))
    {
      ghost var g := Cells();
      ghost var n := CountBombs(g, cx, cy);
      ghost var c0 := Contents();
      ghost var l1 := Layer(f & FlagDigit != 0, DigitVerts(cx, cy, n));
      ghost var l2 := Layer(f & FlagBomb != 0, RectVerts(x + 1.0, y + 1.0, 5.0, 5.0, Red));
      ghost var l3 := Layer(f & FlagMark != 0, DigitVerts(cx, cy, MarkGlyph));
      if f & FlagDigit != 0 {
        DrawCount(cx, cy);
      }
      assert Contents() == c0 + l1;
      if f & FlagBomb != 0 {
        DrawRect(x + 1.0, y + 1.0, 5.0, 5.0, Red);
      }
      assert Contents() == c0 + l1 + l2;
      if f & FlagMark != 0 {
        DrawDigit(cx, cy, MarkGlyph);
      }
      AppendAssoc(c0, l1, l2);
      AppendAssoc(c0, l1 + l2, l3);
      assert Contents() == c0 + (l1 + l2 + l3);
      assert Cells() == g;
    }

    /** The digit layer: the neighbour count, as a glyph. */
    method DrawCount(cx: int, cy: int)
      requires Shaped() && IsValidCoord(cx, cy)
      requires 0 <= verticesCount && verticesCount + 6 <= VertexCapacity
      modifies vertices, this`verticesCount
      ensures verticesCount == old(verticesCount) + 6
      ensures Contents() == old(Contents()) + DigitVerts(cx, cy, CountBombs(Cells(), cx, cy))
    {
      var k := CountSurroundingBombs(cx, cy);
      ghost var g := Cells();
      DrawDigit(cx, cy, k);
      assert Cells() == g;
    }

    // ---------------------------------------------------------------- reveal

    /** `uncover`: opens a covered cell with a burst of ten white particles
        and, when no bomb is around it, uncovers its bomb-free neighbours in
        scan order. Each opened cell uses ten particles of the pool. */
    method Uncover(cx: int, cy: int) returns (ghost rank: map<Coord, nat>)
      requires Valid() && IsValidCoord(cx, cy)
      requires 10 * |NotOpened(Cells())| <= Room()
      modifies board, particles, this`particlesLen, this`slotsLen, this`seed
      ensures Valid()
      ensures UncoverPost(old(Cells()), Cells(), cx, cy, rank)
      ensures Room() == old(Room()) - 10 * (|NotOpened(old(Cells()))| - |NotOpened(Cells())|)
      ensures old(board[cy, cx].state) == Opened ==> Pool() == old(Pool()) && Stack() == old(Stack()) && seed == old(seed)
      ensures Revealed(old(Pool()), Pool(), rank)
      ensures seed == SeedAfter(old(seed), 20 * |rank|)
      decreases NotOpened(Cells()), 6
    {
      rank := map[];
      if board[cy, cx].state == Opened {
        return;
      }
      rank := UncoverCovered(cx, cy);
    }

    /** `uncover` on a cell that is not open yet: it is opened with its
        burst, then the reveal spreads from it. */
    method UncoverCovered(cx: int, cy: int) returns (ghost rank: map<Coord, nat>)
      requires Valid() && IsValidCoord(cx, cy) && board[cy, cx].state != Opened
      requires 10 * |NotOpened(Cells())| <= Room()
      modifies board, particles, this`particlesLen, this`slotsLen, this`seed
      ensures Valid()
      ensures UncoverPost(old(Cells()), Cells(), cx, cy, rank)
      ensures Room() == old(Room()) - 10 * (|NotOpened(old(Cells()))| - |NotOpened(Cells())|)
      ensures Trail(old(Pool()), old(seed), rank)
      decreases NotOpened(Cells()), 5
    {
      ghost var p0, st0, s0 := Pool(), Stack(), seed;
      ghost var g0, gA := OpenCell(cx, cy);
      BurstRevealed(p0, st0, s0, cx, cy, 10, Pool());
      OneCell(cx, cy);
      rank := Spread(cx, cy, g0, gA, p0, s0);
    }

    /** The rest of `uncover` once the cell is open: stop if a bomb is
        around it, cascade otherwise. g0 is the board before the cell was
        opened and gA the board just after. */
    method Spread(cx: int, cy: int, ghost g0: Grid, ghost gA: Grid, ghost p0: seq<Particle>, ghost s0: int) returns (ghost rank: map<Coord, nat>)
      requires Valid() && IsValidCoord(cx, cy) && Cells() == gA && WellFormed(g0)
      requires Trail(p0, s0, map[(cx, cy) := 0])
      requires SameExcept(g0, gA, cx, cy)
      requires g0[cy][cx].state != Opened && gA[cy][cx] == Cell(Opened, g0[cy][cx].hasBomb)
      requires NotOpened(gA) < NotOpened(g0) && 10 * |NotOpened(gA)| <= Room()
      modifies board, particles, this`particlesLen, this`slotsLen, this`seed
      ensures Valid()
      ensures UncoverPost(g0, Cells(), cx, cy, rank)
      ensures Room() == old(Room()) - 10 * (|NotOpened(gA)| - |NotOpened(Cells())|)
      ensures Trail(p0, s0, rank)
      decreases NotOpened(g0), 4
    {
      var n := CountSurroundingBombs(cx, cy);
      CountBombsIgnoresCentre(g0, gA, cx, cy);
      if n > 0 {
        UncoverLeaf(g0, gA, cx, cy);
        rank := map[(cx, cy) := 0];
        return;
      }
      CascadeStart(g0, gA, cx, cy, Room());
      rank := Cascade(cx, cy, g0, gA, p0, s0);
    }

    /** The first half of `uncover` on a covered cell: the cell is opened
        and ten white particles burst from its corner. */
    method OpenCell(cx: int, cy: int) returns (ghost g0: Grid, ghost gA: Grid)
      requires Valid() && IsValidCoord(cx, cy) && board[cy, cx].state != Opened
      requires 10 * |NotOpened(Cells())| <= Room()
      modifies board, particles, this`particlesLen, this`slotsLen, this`seed
      ensures Valid() && g0 == old(Cells()) && Cells() == gA && WellFormed(g0) && WellFormed(gA)
      ensures SameExcept(g0, gA, cx, cy)
      ensures g0[cy][cx].state != Opened && gA[cy][cx] == Cell(Opened, g0[cy][cx].hasBomb)
      ensures NotOpened(gA) < NotOpened(g0) && |NotOpened(gA)| == |NotOpened(g0)| - 1
      ensures Room() == old(Room()) - 10 && 10 * |NotOpened(gA)| <= Room()
      ensures seed == SeedAfter(old(seed), 20)
      ensures (Pool(), Stack()) == Burst(old(Pool()), old(Stack()), old(seed), (cx * CellW) as real, (cy * CellH) as real, White, 10)
    {
      g0 := Cells();
      board[cy, cx] := board[cy, cx].(state := Opened);
      gA := Cells();
      OpenOne(g0, gA, cx, cy);
      SpawnBurst(cx, cy);
      assert Cells() == gA;
    }

    /** The second half of `uncover` for a cell with no bomb around it:
        every neighbour without a bomb is uncovered in turn. g0 is the board
        before the cell was opened and gA the board just after. */
    method Cascade(cx: int, cy: int, ghost g0: Grid, ghost gA: Grid, ghost p0: seq<Particle>, ghost s0: int) returns (ghost rank: map<Coord, nat>)
      requires CascadeState(cx, cy, g0, gA, gA, Neighbors(cx, cy), 0, Room(), p0, s0, map[(cx, cy) := 0])
      modifies board, particles, this`particlesLen, this`slotsLen, this`seed
      ensures Valid()
      ensures UncoverPost(g0, Cells(), cx, cy, rank)
      ensures Room() == old(Room()) - 10 * (|NotOpened(gA)| - |NotOpened(Cells())|)
      ensures Trail(p0, s0, rank)
      decreases NotOpened(g0), 3
    {
      ghost var g;
      g, rank := CascadeLoop(cx, cy, g0, gA, p0, s0);
      CascadeExit(g0, gA, g, cx, cy, Neighbors(cx, cy), rank);
    }

    /** The loop of the cascade: visits the neighbours in scan order. */
    method CascadeLoop(cx: int, cy: int, ghost g0: Grid, ghost gA: Grid, ghost p0: seq<Particle>, ghost s0: int) returns (ghost g: Grid, ghost rank: map<Coord, nat>)
      requires CascadeState(cx, cy, g0, gA, gA, Neighbors(cx, cy), 0, Room(), p0, s0, map[(cx, cy) := 0])
      modifies board, particles, this`particlesLen, this`slotsLen, this`seed
      ensures CascadeState(cx, cy, g0, gA, g, Neighbors(cx, cy), |Neighbors(cx, cy)|, old(Room()), p0, s0, rank)
      decreases NotOpened(g0), 2
    {
      ghost var ns := Neighbors(cx, cy);
      ghost var r0 := Room();
      var it := new NeighborIter(cx, cy);
      ghost var k := 0;
      g := gA;
      rank := map[(cx, cy) := 0];
      var more := it.Next();
      while more
        invariant fresh(it) && CascadeAt(it, more, cx, cy, g0, gA, g, ns, k, r0, p0, s0, rank)
        decreases |ns| - k
      {
        g, rank, more := CascadeStep(it, cx, cy, g0, gA, g, ns, k, r0, p0, s0, rank);
        k := k + 1;
      }
    }

    /** One turn of the cascade's loop: visit the neighbour under the
        cursor, then advance the cursor. */
    method CascadeStep(it: NeighborIter, cx: int, cy: int, ghost g0: Grid, ghost gA: Grid, ghost g: Grid, ghost ns: seq<Coord>, ghost k: nat, ghost r0: int, ghost p0: seq<Particle>, ghost s0: int, ghost rank: map<Coord, nat>)
      returns (ghost g': Grid, ghost rank': map<Coord, nat>, more: bool)
      requires CascadeAt(it, true, cx, cy, g0, gA, g, ns, k, r0, p0, s0, rank)
      modifies it, board, particles, this`particlesLen, this`slotsLen, this`seed
      ensures CascadeAt(it, more, cx, cy, g0, gA, g', ns, k + 1, r0, p0, s0, rank')
      decreases NotOpened(g0), 1
    {
      g', rank' := VisitNeighbor(it.x, it.y, cx, cy, g0, gA, g, ns, k, r0, p0, s0, rank);
      more := CascadeNext(it, cx, cy, g0, gA, g', ns, k + 1, r0, p0, s0, rank');
    }

    /** The cascade's state together with its cursor: when `more` holds the
        cursor is on ns[k], otherwise every neighbour has been visited. */
    ghost predicate CascadeAt(it: NeighborIter, more: bool, cx: int, cy: int, g0: Grid, gA: Grid, g: Grid, ns: seq<Coord>, k: nat, r0: int, p0: seq<Particle>, s0: int, rank: map<Coord, nat>)
      reads it, this, board, particles, slots
    {
      it.Valid() && it.cx == cx && it.cy == cy &&
      (more ==> k < |ns| && ns[k] == (it.x, it.y) && it.Remaining() == ns[k + 1..]) &&
      (!more ==> k == |ns|) &&
      CascadeState(cx, cy, g0, gA, g, ns, k, r0, p0, s0, rank)
    }

    /** What holds at each step of the cascade from (cx, cy): the game is
        valid, g is the board, the first k neighbours in ns have been
        visited, ten particles were used per newly opened cell, and the
        pool and the seed are those of a reveal from p0 and s0. */
    ghost predicate CascadeState(cx: int, cy: int, g0: Grid, gA: Grid, g: Grid, ns: seq<Coord>, k: nat, r0: int, p0: seq<Particle>, s0: int, rank: map<Coord, nat>)
      reads this, board, particles, slots
    {
      Valid() && Cells() == g && CascadeProgress(g0, gA, g, cx, cy, ns, k, r0, rank) &&
      Room() == r0 - 10 * (|NotOpened(gA)| - |NotOpened(g)|) &&
      Trail(p0, s0, rank)
    }

    /** The pool and the seed after a reveal that started from pool p0 and
        seed s0 and has opened the cells keyed in rank: the pool is
        `Revealed` from p0, and the generator has moved twenty steps per
        opened cell. */
    ghost predicate Trail(p0: seq<Particle>, s0: int, rank: map<Coord, nat>)
      reads this, particles
      requires 0 <= particlesLen <= particles.Length
    {
      SeedOk(s0) && Revealed(p0, Pool(), rank) && seed == SeedAfter(s0, 20 * |rank|)
    }

    /** Advances the cascade's cursor, which leaves the game state alone. */
    method CascadeNext(it: NeighborIter, cx: int, cy: int, ghost g0: Grid, ghost gA: Grid, ghost g: Grid, ghost ns: seq<Coord>, ghost k: nat, ghost r0: int, ghost p0: seq<Particle>, ghost s0: int, ghost rank: map<Coord, nat>)
      returns (more: bool)
      requires it.Valid() && it.cx == cx && it.cy == cy
      requires k <= |ns| && it.Remaining() == ns[k..]
      requires CascadeState(cx, cy, g0, gA, g, ns, k, r0, p0, s0, rank)
      modifies it
      ensures it.Valid()
      ensures more ==> k < |ns| && ns[k] == (it.x, it.y) && it.Remaining() == ns[k + 1..]
      ensures !more ==> k == |ns|
      ensures CascadeState(cx, cy, g0, gA, g, ns, k, r0, p0, s0, rank)
    {
      more := it.Next();
      if more {
        SuffixCons(ns, k, (it.x, it.y), it.Remaining());
      }
    }

    /** One iteration of the cascade: the neighbour ns[k] = (nx, ny) is
        uncovered unless it holds a bomb. */
    method VisitNeighbor(nx: int, ny: int, cx: int, cy: int, ghost g0: Grid, ghost gA: Grid, ghost g: Grid, ghost ns: seq<Coord>, ghost k: nat, ghost r0: int, ghost p0: seq<Particle>, ghost s0: int, ghost rank: map<Coord, nat>)
      returns (ghost g': Grid, ghost rank': map<Coord, nat>)
      requires CascadeState(cx, cy, g0, gA, g, ns, k, r0, p0, s0, rank) && k < |ns| && ns[k] == (nx, ny)
      modifies board, particles, this`particlesLen, this`slotsLen, this`seed
      ensures WellFormed(g') && CascadeState(cx, cy, g0, gA, g', ns, k + 1, r0, p0, s0, rank')
      decreases NotOpened(g0), 0
    {
      if !board[ny, nx].hasBomb {
        CascadeBudget(g0, gA, g, cx, cy, ns, k, r0, rank);
        ghost var pb := Pool();
        ghost var sub := Uncover(nx, ny);
        g' := Cells();
        CascadeVisit(g0, gA, g, g', cx, cy, ns, k, r0, rank, sub);
        rank' := Merge(rank, sub, 1);
        MergeSize(g0, g, g', rank, sub, 1);
        RevealedMerge(p0, pb, Pool(), s0, rank, sub, rank');
      } else {
        g', rank' := g, rank;
        CascadePass(g0, gA, g, cx, cy, ns, k, r0, rank);
      }
    }

    // ---------------------------------------------------------------- chord and clicks

    /** `chord(cx, cy)`: when as many neighbours are Marked as hold bombs,
        every Unopened neighbour is uncovered, in scan order; otherwise
        nothing changes. A wrong mark makes this open a bomb. */
    method Chord(cx: int, cy: int) returns (ghost rank: map<Coord, nat>)
      requires Valid() && IsValidCoord(cx, cy)
      requires 10 * |NotOpened(Cells())| <= Room()
      modifies board, particles, this`particlesLen, this`slotsLen, this`seed
      ensures Valid()
      ensures ChordPost(old(Cells()), Cells(), cx, cy, rank)
      ensures Room() == old(Room()) - 10 * (|NotOpened(old(Cells()))| - |NotOpened(Cells())|)
      ensures CountMarked(old(Cells()), cx, cy) != CountBombs(old(Cells()), cx, cy) ==>
        Pool() == old(Pool()) && Stack() == old(Stack()) && seed == old(seed)
      ensures Revealed(old(Pool()), Pool(), rank)
      ensures seed == SeedAfter(old(seed), 20 * |rank|)
    {
      var it := new NeighborIter(cx, cy);
      var marks := CountMarks(it, cx, cy);
      var bombs := CountSurroundingBombs(cx, cy);
      rank := map[];
      if marks != bombs {
        ChordMismatch(Cells(), cx, cy);
        return;
      }
      it.Reset();
      ghost var g0 := Cells();
      NeighborsIsList(cx, cy);
      ChordInit(g0, cx, cy, Neighbors(cx, cy));
      ghost var g;
      g, rank := ChordLoop(it, cx, cy, g0, Pool(), seed);
      ChordExit(g0, g, cx, cy, Neighbors(cx, cy), rank);
    }

    /** The first pass of `chord`: counts the Marked neighbours with the
        cursor, which it leaves at the end. */
    method CountMarks(it: NeighborIter, cx: int, cy: int) returns (marks: int)
      requires Shaped() && IsValidCoord(cx, cy)
      requires it.Valid() && it.cx == cx && it.cy == cy && it.Remaining() == Neighbors(cx, cy)
      modifies it
      ensures it.Valid()
      ensures marks == CountMarked(Cells(), cx, cy)
    {
      marks := 0;
      while true
        invariant it.Valid() && it.cx == cx && it.cy == cy
        invariant AllValid(it.Remaining())
        invariant marks + CountMarkedIn(Cells(), it.Remaining()) == CountMarked(Cells(), cx, cy)
        decreases |it.Remaining()|
      {
        var more := it.Next();
        if !more {
          break;
        }
        if board[it.y, it.x].state == Marked {
          marks := marks + 1;
        }
      }
    }

    /** What holds at each step of the second pass of a chord: the game is
        valid, g is the board, the first k neighbours in ns have been
        visited, ten particles were used per newly opened cell, and the pool
        and the seed are those of a reveal from p0 and s0. */
    ghost predicate ChordState(cx: int, cy: int, g0: Grid, g: Grid, ns: seq<Coord>, k: nat, r0: int, p0: seq<Particle>, s0: int, rank: map<Coord, nat>)
      reads this, board, particles, slots
    {
      Valid() && Cells() == g && IsValidCoord(cx, cy) && WellFormed(g0) &&
      ChordInv(g0, g, cx, cy, ns, k, rank) &&
      10 * |NotOpened(g0)| <= r0 &&
      Room() == r0 - 10 * (|NotOpened(g0)| - |NotOpened(g)|) &&
      Trail(p0, s0, rank)
    }

    /** The second pass of `chord`: the rewound cursor visits the neighbours
        again and each Unopened one is uncovered. */
    method ChordLoop(it: NeighborIter, cx: int, cy: int, ghost g0: Grid, ghost p0: seq<Particle>, ghost s0: int) returns (ghost g: Grid, ghost rank: map<Coord, nat>)
      requires it.Valid() && it.cx == cx && it.cy == cy && it.Remaining() == Neighbors(cx, cy)
      requires ChordState(cx, cy, g0, g0, Neighbors(cx, cy), 0, Room(), p0, s0, map[])
      modifies it, board, particles, this`particlesLen, this`slotsLen, this`seed
      ensures ChordState(cx, cy, g0, g, Neighbors(cx, cy), |Neighbors(cx, cy)|, old(Room()), p0, s0, rank)
    {
      ghost var ns := Neighbors(cx, cy);
      ghost var r0 := Room();
      ghost var k := 0;
      g := g0;
      rank := map[];
      var more := it.Next();
      while more
        invariant ChordAt(it, more, cx, cy, g0, g, ns, k, r0, p0, s0, rank)
        decreases |ns| - k
      {
        g, rank, more := ChordStep(it, cx, cy, g0, g, ns, k, r0, p0, s0, rank);
        k := k + 1;
      }
    }

    /** The chord's state together with its cursor: when `more` holds the
        cursor is on ns[k], otherwise every neighbour has been visited. */
    ghost predicate ChordAt(it: NeighborIter, more: bool, cx: int, cy: int, g0: Grid, g: Grid, ns: seq<Coord>, k: nat, r0: int, p0: seq<Particle>, s0: int, rank: map<Coord, nat>)
      reads it, this, board, particles, slots
    {
      it.Valid() && it.cx == cx && it.cy == cy &&
      (more ==> k < |ns| && ns[k] == (it.x, it.y) && it.Remaining() == ns[k + 1..]) &&
      (!more ==> k == |ns|) &&
      ChordState(cx, cy, g0, g, ns, k, r0, p0, s0, rank)
    }

    /** One turn of the chord's second pass: visit the neighbour under the
        cursor, then advance the cursor. */
    method ChordStep(it: NeighborIter, cx: int, cy: int, ghost g0: Grid, ghost g: Grid, ghost ns: seq<Coord>, ghost k: nat, ghost r0: int, ghost p0: seq<Particle>, ghost s0: int, ghost rank: map<Coord, nat>)
      returns (ghost g': Grid, ghost rank': map<Coord, nat>, more: bool)
      requires ChordAt(it, true, cx, cy, g0, g, ns, k, r0, p0, s0, rank)
      modifies it, board, particles, this`particlesLen, this`slotsLen, this`seed
      ensures ChordAt(it, more, cx, cy, g0, g', ns, k + 1, r0, p0, s0, rank')
    {
      g', rank' := ChordVisit(it.x, it.y, cx, cy, g0, g, ns, k, r0, p0, s0, rank);
      more := ChordNext(it, cx, cy, g0, g', ns, k + 1, r0, p0, s0, rank');
    }

    /** Advances the chord's cursor, which leaves the game state alone. */
    method ChordNext(it: NeighborIter, cx: int, cy: int, ghost g0: Grid, ghost g: Grid, ghost ns: seq<Coord>, ghost k: nat, ghost r0: int, ghost p0: seq<Particle>, ghost s0: int, ghost rank: map<Coord, nat>)
      returns (more: bool)
      requires it.Valid() && it.cx == cx && it.cy == cy
      requires k <= |ns| && it.Remaining() == ns[k..]
      requires ChordState(cx, cy, g0, g, ns, k, r0, p0, s0, rank)
      modifies it
      ensures it.Valid()
      ensures more ==> k < |ns| && ns[k] == (it.x, it.y) && it.Remaining() == ns[k + 1..]
      ensures !more ==> k == |ns|
      ensures ChordState(cx, cy, g0, g, ns, k, r0, p0, s0, rank)
    {
      more := it.Next();
      if more {
        SuffixCons(ns, k, (it.x, it.y), it.Remaining());
      }
    }

    /** The neighbour ns[k] = (nx, ny) is uncovered if it is Unopened. */
    method ChordVisit(nx: int, ny: int, cx: int, cy: int, ghost g0: Grid, ghost g: Grid, ghost ns: seq<Coord>, ghost k: nat, ghost r0: int, ghost p0: seq<Particle>, ghost s0: int, ghost rank: map<Coord, nat>)
      returns (ghost g': Grid, ghost rank': map<Coord, nat>)
      requires ChordState(cx, cy, g0, g, ns, k, r0, p0, s0, rank) && k < |ns| && ns[k] == (nx, ny)
      modifies board, particles, this`particlesLen, this`slotsLen, this`seed
      ensures WellFormed(g') && ChordState(cx, cy, g0, g', ns, k + 1, r0, p0, s0, rank')
    {
      assert ns[k] in ns;
      if board[ny, nx].state == Unopened {
        ghost var pb := Pool();
        ghost var sub := Uncover(nx, ny);
        g' := Cells();
        ChordCall(g0, g, g', cx, cy, ns, k, rank, sub);
        rank' := Merge(rank, sub, 0);
        MergeSize(g0, g, g', rank, sub, 0);
        RevealedMerge(p0, pb, Pool(), s0, rank, sub, rank');
      } else {
        g', rank' := g, rank;
        ChordSkip(g0, g, cx, cy, ns, k, rank);
      }
    }

    /** `handle_lmb`: a left click chords an opened cell and uncovers any
        other. */
    method HandleLmb(cx: int, cy: int) returns (ghost rank: map<Coord, nat>)
      requires Valid() && IsValidCoord(cx, cy)
      requires 10 * |NotOpened(Cells())| <= Room()
      modifies board, particles, this`particlesLen, this`slotsLen, this`seed
      ensures Valid()
      ensures old(board[cy, cx].state) == Opened ==> ChordPost(old(Cells()), Cells(), cx, cy, rank)
      ensures old(board[cy, cx].state) != Opened ==> UncoverPost(old(Cells()), Cells(), cx, cy, rank)
      ensures Room() == old(Room()) - 10 * (|NotOpened(old(Cells()))| - |NotOpened(Cells())|)
      ensures old(board[cy, cx].state) == Opened && CountMarked(old(Cells()), cx, cy) != CountBombs(old(Cells()), cx, cy) ==>
        Cells() == old(Cells()) && Pool() == old(Pool()) && Stack() == old(Stack()) && seed == old(seed)
      ensures Revealed(old(Pool()), Pool(), rank)
      ensures seed == SeedAfter(old(seed), 20 * |rank|)
    {
      if board[cy, cx].state == Opened {
        rank := Chord(cx, cy);
      } else {
        rank := Uncover(cx, cy);
      }
    }

    /** `handle_rmb`: a right click toggles the mark on a covered cell. */
    method HandleRmb(cx: int, cy: int)
      requires Valid() && IsValidCoord(cx, cy)
      modifies board
      ensures Valid()
      ensures Cells() == ToggleMark(old(Cells()), cx, cy)
    {
      ghost var g0 := Cells();
      board[cy, cx] := board[cy, cx].(state := CellStateAfterMark(board[cy, cx].state));
      assert Cells() == ToggleMark(g0, cx, cy) by {
        var r := ToggleMark(g0, cx, cy);
        assert forall y :: 0 <= y < H ==> Cells()[y] == r[y];
      }
    }

    // ---------------------------------------------------------------- setup

    /** `initialize(seed)`: seeds the generator, clears every cell and
        places 40 bombs; done is false only if the bomb draws ran out of
        fuel. */
    method Initialize(seed0: int, fuel: nat) returns (done: bool)
      requires Valid() && SeedOk(seed0)
      modifies board, this`seed
      ensures Valid()
      ensures (Cells(), seed, done) == Placed(EmptyGrid(), seed0, 40, fuel)
      ensures forall x, y :: IsValidCoord(x, y) ==> Cells()[y][x].state == Unopened
      ensures done ==> |BombSet(Cells())| == 40
    {
      seed := seed0;
      var cy := 0;
      while cy < H
        invariant 0 <= cy <= H && seed == seed0
        invariant forall y, x :: 0 <= y < cy && 0 <= x < W ==> board[y, x] == Cell(Unopened, false)
      {
        var cx := 0;
        while cx < W
          invariant 0 <= cx <= W && seed == seed0
          invariant forall y, x :: 0 <= y < cy && 0 <= x < W ==> board[y, x] == Cell(Unopened, false)
          invariant forall x :: 0 <= x < cx ==> board[cy, x] == Cell(Unopened, false)
        {
          board[cy, cx] := Cell(Unopened, false);
          cx := cx + 1;
        }
        cy := cy + 1;
      }
      assert Cells() == EmptyGrid() by {
        assert forall y :: 0 <= y < H ==> Cells()[y] == EmptyGrid()[y];
      }
      NoBombs(Cells());
      done := PlaceBombs(40, fuel);
    }

    /** `place_bombs(n)`: n times, draws cells until one without a bomb
        comes up and puts a bomb there. Cell states do not change and bombs
        are only added; done is false only if some draw ran out of fuel. */
    method PlaceBombs(n: int, fuel: nat) returns (done: bool)
      requires Valid() && 0 <= n
      modifies board, this`seed
      ensures Valid()
      ensures (Cells(), seed, done) == Placed(old(Cells()), old(seed), n, fuel)
      ensures forall x, y :: IsValidCoord(x, y) ==> Cells()[y][x].state == old(Cells())[y][x].state
      ensures BombSet(old(Cells())) <= BombSet(Cells())
      ensures done ==> |BombSet(Cells())| == |BombSet(old(Cells()))| + n
    {
      ghost var g0: Grid := Cells();
      ghost var s0 := seed;
      var i := 0;
      done := true;
      while i < n && done
        invariant 0 <= i <= n && Valid()
        invariant done ==> Placed(g0, s0, n, fuel) == Placed(Cells(), seed, n - i, fuel)
        invariant !done ==> Placed(g0, s0, n, fuel) == (Cells(), seed, false)
        decreases n - i, if done then 1 else 0
      {
        ghost var g, s := Cells(), seed;
        ghost var t := StopTry(g, s, 1, fuel);
        var found, cx, cy := PlaceOne(fuel);
        if found {
          assert Placed(g, s, n - i, fuel) == Placed(PlaceBomb(g, cx, cy), SeedAfter(s, 2 * t), n - i - 1, fuel);
          i := i + 1;
        } else {
          assert Placed(g, s, n - i, fuel) == (g, SeedAfter(s, 2 * t), false);
          done := false;
        }
      }
      PlacedStates(g0, s0, n, fuel);
      PlacedBombs(g0, s0, n, fuel);
      BombSetGrows(g0, Cells());
    }

    /** One round of `place_bombs`: draws a free cell and puts a bomb on it,
        or changes nothing when the draws run out of fuel. */
    method PlaceOne(fuel: nat) returns (found: bool, cx: int, cy: int)
      requires Valid()
      modifies board, this`seed
      ensures Valid()
      ensures found ==> IsValidCoord(cx, cy) && !old(Cells())[cy][cx].hasBomb
      ensures found ==> Cells() == PlaceBomb(old(Cells()), cx, cy)
      ensures !found ==> Cells() == old(Cells())
      ensures var t := StopTry(old(Cells()), old(seed), 1, fuel);
        (cx, cy) == DrawnCell(old(seed), t) && seed == SeedAfter(old(seed), 2 * t) &&
        (found <==> !At(old(Cells()), (cx, cy)).hasBomb)
    {
      ghost var tries;
      cx, cy, found, tries := DrawFreeCell(fuel);
      if found {
        AddBomb(cx, cy);
      }
    }

    /** The store at the end of each round of `place_bombs`. */
    method AddBomb(cx: int, cy: int)
      requires Valid() && IsValidCoord(cx, cy)
      modifies board
      ensures Valid()
      ensures Cells() == PlaceBomb(old(Cells()), cx, cy)
    {
      board[cy, cx] := board[cy, cx].(hasBomb := true);
      ghost var r := PlaceBomb(old(Cells()), cx, cy);
      assert forall y :: 0 <= y < H ==> Cells()[y] == r[y];
    }

    /** The do-while loop of `place_bombs`: draws a cell from two bytes of
        the generator until it has no bomb. The draw is the tries-th from
        the old seed, every earlier one hit a bomb, and the model gives up
        after fuel + 1 draws. */
    method DrawFreeCell(fuel: nat) returns (cx: int, cy: int, found: bool, ghost tries: nat)
      requires Valid()
      modifies this`seed
      ensures Valid() && 1 <= tries <= fuel + 1
      ensures seed == SeedAfter(old(seed), 2 * tries)
      ensures (cx, cy) == DrawnCell(old(seed), tries)
      ensures found <==> !At(Cells(), (cx, cy)).hasBomb
      ensures forall t :: 1 <= t < tries ==> At(Cells(), DrawnCell(old(seed), t)).hasBomb
      ensures !found ==> tries == fuel + 1
      ensures tries == StopTry(Cells(), old(seed), 1, fuel)
    {
      ghost var s0, g := seed, Cells();
      tries := 0;
      var f := fuel;
      while true
        invariant Valid() && tries + f == fuel && Cells() == g
        invariant seed == SeedAfter(s0, 2 * tries)
        invariant forall t :: 1 <= t <= tries ==> At(g, DrawnCell(s0, t)).hasBomb
        invariant StopTry(g, s0, 1, fuel) == StopTry(g, s0, tries + 1, fuel)
        decreases f
      {
        cx, cy := DrawOnce(s0, tries);
        tries := tries + 1;
        if !board[cy, cx].hasBomb {
          found := true;
          return;
        }
        if f == 0 {
          found := false;
          return;
        }
        assert StopTry(g, s0, tries, fuel) == StopTry(g, s0, tries + 1, fuel);
        f := f - 1;
      }
    }

    /** One draw of `place_bombs`: a byte modulo the width, then a byte
        modulo the height; this is the draw after the first t. */
    method DrawOnce(ghost s0: int, ghost t: nat) returns (cx: int, cy: int)
      requires Valid() && SeedOk(s0) && seed == SeedAfter(s0, 2 * t)
      modifies this`seed
      ensures Valid() && seed == SeedAfter(s0, 2 * (t + 1))
      ensures (cx, cy) == DrawnCell(s0, t + 1)
    {
      var b1 := RandByte();
      cx := b1 % W;
      var b2 := RandByte();
      cy := b2 % H;
    }

    // ---------------------------------------------------------------- frame

    /** `next_frame`: rebuilds the vertex buffer, the board row by row and
        then the particles, and returns the number of vertices. */
    method NextFrame() returns (r: int)
      requires Valid()
      modifies particles, slots, this`slotsLen, vertices, this`verticesCount
      ensures Valid()
      ensures Contents() == BoardVerts(Cells()) + PoolVerts(old(Pool()), particlesLen)
      ensures Pool() == AdvanceAll(old(Pool()), particlesLen)
      ensures Stack() == old(Stack()) + Expiring(old(Pool()), particlesLen)
      ensures r == verticesCount == 6 * W * H + 6 * ShownInRows(Cells(), H) + 6 * LiveCount(Pool(), particlesLen)
    {
      DrawBoard();
      ParticlesUpdateAndDraw();
      r := verticesCount;
    }

    /** The start of `next_frame`: empties the vertex buffer and runs the
        nested `draw_cell` loops, so the buffer holds the board, row by row. */
    method DrawBoard()
      requires Valid()
      modifies vertices, this`verticesCount
      ensures Valid() && verticesCount <= 240 * H
      ensures Contents() == BoardVerts(Cells())
      ensures verticesCount == 6 * W * H + 6 * ShownInRows(Cells(), H)
    {
      verticesCount := 0;
      DrawRows();
    }

    /** The nested `draw_cell` loops of `next_frame`, from an empty buffer. */
    method DrawRows()
      requires Shaped() && verticesCount == 0
      modifies vertices, this`verticesCount
      ensures 0 <= verticesCount <= 240 * H
      ensures Contents() == BoardVerts(Cells())
      ensures verticesCount == 6 * W * H + 6 * ShownInRows(Cells(), H)
    {
      ghost var g := Cells();
      var cy := 0;
      while cy < H
        invariant 0 <= cy <= H && Cells() == g
        invariant 0 <= verticesCount <= 240 * cy
        invariant Contents() == RowsVerts(g, cy)
      {
        DrawRow(cy, g);
        cy := cy + 1;
      }
    }

    /** The inner loop of `next_frame`: draws the cells of row cy, left to
        right, after the rows above it. */
    method DrawRow(cy: int, ghost g: Grid)
      requires Shaped() && 0 <= cy < H && Cells() == g
      requires 0 <= verticesCount <= 240 * cy
      requires Contents() == RowsVerts(g, cy)
      modifies vertices, this`verticesCount
      ensures Cells() == g
      ensures 0 <= verticesCount <= 240 * (cy + 1)
      ensures Contents() == RowsVerts(g, cy + 1)
    {
      ghost var c0 := Contents();
      var cx := 0;
      while cx < W
        invariant 0 <= cx <= W && Cells() == g
        invariant verticesCount == |c0| + 6 * cx + 6 * ShownInRow(g, cy, cx)
        invariant Contents() == c0 + RowVerts(g, cy, cx)
      {
        DrawRowStep(cx, cy, g, c0);
        cx := cx + 1;
      }
    }

    /** One turn of the inner loop of `next_frame`: cell cx of row cy is
        drawn after the cells to its left. */
    method DrawRowStep(cx: int, cy: int, ghost g: Grid, ghost c0: seq<Vertex>)
      requires Shaped() && IsValidCoord(cx, cy) && Cells() == g
      requires |c0| + 12 * W <= VertexCapacity
      requires verticesCount == |c0| + 6 * cx + 6 * ShownInRow(g, cy, cx)
      requires Contents() == c0 + RowVerts(g, cy, cx)
      modifies vertices, this`verticesCount
      ensures Cells() == g
      ensures verticesCount == |c0| + 6 * (cx + 1) + 6 * ShownInRow(g, cy, cx + 1)
      ensures Contents() == c0 + RowVerts(g, cy, cx + 1)
    {
      DrawCell(cx, cy);
      AppendAssoc(c0, RowVerts(g, cy, cx), CellVerts(g, cx, cy));
    }

    /** The ten white particles `uncover` spawns at the cell's corner. */
    method SpawnBurst(cx: int, cy: int)
      requires Valid() && Room() >= 10
      modifies particles, this`particlesLen, this`slotsLen, this`seed
      ensures Valid()
      ensures Room() == old(Room()) - 10
      ensures seed == SeedAfter(old(seed), 20)
      ensures (Pool(), Stack()) == Burst(old(Pool()), old(Stack()), old(seed), (cx * CellW) as real, (cy * CellH) as real, White, 10)
    {
      ghost var s0, p0, st0 := seed, Pool(), Stack();
      var x, y := (cx * CellW) as real, (cy * CellH) as real;
      var i := 0;
      while i < 10
        invariant 0 <= i <= 10 && Valid()
        invariant Room() == old(Room()) - i
        invariant seed == SeedAfter(s0, 2 * i)
        invariant (Pool(), Stack()) == Burst(p0, st0, s0, x, y, White, i)
      {
        BurstOne(x, y, s0, p0, st0, i);
        i := i + 1;
      }
    }

    /** The (i + 1)-th particle of a burst. */
    method BurstOne(x: real, y: real, ghost s0: int, ghost p0: seq<Particle>, ghost st0: seq<int>, ghost i: nat)
      requires Valid() && Room() >= 1 && PoolValid(p0, st0) && SeedOk(s0)
      requires seed == SeedAfter(s0, 2 * i) && (Pool(), Stack()) == Burst(p0, st0, s0, x, y, White, i)
      modifies particles, this`particlesLen, this`slotsLen, this`seed
      ensures Valid() && Room() == old(Room()) - 1
      ensures seed == SeedAfter(s0, 2 * (i + 1)) && (Pool(), Stack()) == Burst(p0, st0, s0, x, y, White, i + 1)
    {
      BurstNext(p0, st0, s0, x, y, White, i, Pool(), Stack(), seed);
      ParticleSpawn(x, y, White);
    }
  }
}
