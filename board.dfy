/** The 20 x 20 board, the eight-neighbourhood of a cell, the neighbour
    counts, and the predicates that say what revealing and chording do to the
    board. A board snapshot is a sequence of rows, so `g[y][x]` is the cell
    in column x of row y, as `board[cy][cx]` is in the game. */
module Board {

  const W: int := 20
  const H: int := 20

  datatype CellState = Unopened | Opened | Marked
  datatype Cell = Cell(state: CellState, hasBomb: bool)

  /** A cell coordinate (x, y). */
  type Coord = (int, int)
  type Grid = seq<seq<Cell>>

  predicate IsValidCoord(cx: int, cy: int) {
    cx >= 0 && cy >= 0 && cx < W && cy < H
  }

  /** On a board of the game's size the valid coordinates are exactly the
      indices of a cell, and each of them fits in a `u8`. */
  lemma ValidCoordIsIndex(g: Grid, cx: int, cy: int)
    requires WellFormed(g)
    ensures IsValidCoord(cx, cy) <==> 0 <= cy < |g| && 0 <= cx < |g[cy]|
    ensures IsValidCoord(cx, cy) ==> 0 <= cx < 256 && 0 <= cy < 256
  {
  }

  ghost predicate WellFormed(g: Grid) {
    |g| == H && forall y :: 0 <= y < H ==> |g[y]| == W
  }

  /** The board `initialize` clears: every cell Unopened and without a
      bomb. */
  function EmptyGrid(): (g: Grid)
    ensures WellFormed(g)
    ensures forall x, y :: IsValidCoord(x, y) ==> g[y][x] == Cell(Unopened, false)
  {
    seq(H, _ => seq(W, _ => Cell(Unopened, false)))
  }

  function At(g: Grid, p: Coord): Cell
    requires WellFormed(g) && IsValidCoord(p.0, p.1)
  {
    g[p.1][p.0]
  }

  /** The state a right click leaves behind: the mark toggles on a covered
      cell and an opened cell stays opened. */
  function CellStateAfterMark(s: CellState): (r: CellState)
    ensures r == Opened <==> s == Opened
    ensures s != Opened ==> r != s
  {
    match s
    case Unopened => Marked
    case Opened => Opened
    case Marked => Unopened
  }

  lemma MarkTwiceIsIdentity(s: CellState)
    ensures CellStateAfterMark(CellStateAfterMark(s)) == s
  {
  }

  /** The board after a right click on (cx, cy): only that cell's state
      changes, to the one CellStateAfterMark gives. */
  function ToggleMark(g: Grid, cx: int, cy: int): (r: Grid)
    requires WellFormed(g) && IsValidCoord(cx, cy)
    ensures WellFormed(r)
    ensures r[cy][cx] == Cell(CellStateAfterMark(g[cy][cx].state), g[cy][cx].hasBomb)
    ensures forall x, y :: IsValidCoord(x, y) && (x, y) != (cx, cy) ==> r[y][x] == g[y][x]
  {
    g[cy := g[cy][cx := g[cy][cx].(state := CellStateAfterMark(g[cy][cx].state))]]
  }

  /** Two right clicks on the same cell leave the board as it was. */
  lemma ToggleMarkTwice(g: Grid, cx: int, cy: int)
    requires WellFormed(g) && IsValidCoord(cx, cy)
    ensures ToggleMark(ToggleMark(g, cx, cy), cx, cy) == g
  {
    var r := ToggleMark(ToggleMark(g, cx, cy), cx, cy);
    MarkTwiceIsIdentity(g[cy][cx].state);
    assert forall y :: 0 <= y < H ==> r[y] == g[y];
  }

  /** A right click moves no bomb, so no count of neighbouring bombs changes. */
  lemma ToggleMarkKeepsCounts(g: Grid, cx: int, cy: int)
    requires WellFormed(g) && IsValidCoord(cx, cy)
    ensures forall x, y :: CountBombs(ToggleMark(g, cx, cy), x, y) == CountBombs(g, x, y)
  {
    CountsStable(g, ToggleMark(g, cx, cy));
  }

  // ---------------------------------------------------------------- neighbours

  /** The eight offsets (dx, dy) in the order the game scans them: the
      3 x 3 block around the centre read row by row (dy), then column by
      column (dx), with the centre itself skipped; Offset(i) is the i-th. */
  function Offset(i: nat): (d: Coord)
    requires i < 8
    ensures Adjacent((0, 0), d)
  {
    if i == 0 then (-1, -1) else if i == 1 then (0, -1) else if i == 2 then (1, -1)
    else if i == 3 then (-1, 0) else if i == 4 then (1, 0)
    else if i == 5 then (-1, 1) else if i == 6 then (0, 1) else (1, 1)
  }

  /** p comes strictly before q in row-major order. */
  predicate RowMajorBefore(p: Coord, q: Coord) {
    p.1 < q.1 || (p.1 == q.1 && p.0 < q.0)
  }

  predicate Adjacent(c: Coord, q: Coord) {
    q != c && -1 <= q.0 - c.0 <= 1 && -1 <= q.1 - c.1 <= 1
  }

  /** The position of `d` in the offset order, or 8 when `d` is not one of them:
      the table lists the offsets by increasing `3 * dy + dx`. */
  function OffsetIndex(d: Coord): (j: nat)
    ensures j <= 8
    ensures j < 8 <==> Adjacent((0, 0), d)
  {
    if !Adjacent((0, 0), d) then 8
    else if 3 * d.1 + d.0 < 0 then 3 * d.1 + d.0 + 4
    else 3 * d.1 + d.0 + 3
  }

  lemma OffsetIndexOf(i: nat)
    requires i < 8
    ensures OffsetIndex(Offset(i)) == i
  {
    assert i == 0 || i == 1 || i == 2 || i == 3 || i == 4 || i == 5 || i == 6 || i == 7;
  }

  lemma OffsetAt(d: Coord)
    requires OffsetIndex(d) < 8
    ensures Offset(OffsetIndex(d)) == d
  {
    assert d.1 == -1 || d.1 == 0 || d.1 == 1;
    assert d.0 == -1 || d.0 == 0 || d.0 == 1;
  }

  /** The offset table is listed in row-major order. */
  lemma OffsetsRowMajor(d1: Coord, d2: Coord)
    requires OffsetIndex(d1) < OffsetIndex(d2) < 8
    ensures RowMajorBefore(d1, d2)
  {
  }

  /** The in-bounds cells `(cx, cy) + Offset(j)` for `j >= i`, in offset
      order: what the neighbour iterator still has to yield once its cursor
      stands at `i`. */
  function NeighborsFrom(cx: int, cy: int, i: nat): (r: seq<Coord>)
    requires i <= 8
    ensures |r| <= 8 - i
    // cx is part of the measure so that a literal start index alone does
    // not make the verifier unroll the whole scan
    decreases 8 - i, cx
  {
    if i == 8 then []
    else
      var q := (cx + Offset(i).0, cy + Offset(i).1);
      if IsValidCoord(q.0, q.1) then [q] + NeighborsFrom(cx, cy, i + 1) else NeighborsFrom(cx, cy, i + 1)
  }

  /** Every cell the scan from offset i yields is on the board and lies at
      one of the offsets i .. 7 from the centre. */
  lemma {:induction false} NeighborsFromSound(cx: int, cy: int, i: nat)
    requires i <= 8
    ensures forall q :: q in NeighborsFrom(cx, cy, i) ==> IsValidCoord(q.0, q.1) && i <= OffsetIndex((q.0 - cx, q.1 - cy)) < 8
    decreases 8 - i
  {
    if i < 8 {
      NeighborsFromSound(cx, cy, i + 1);
      OffsetIndexOf(i);
      NeighborsFromStep(cx, cy, i, cx + Offset(i).0, cy + Offset(i).1);
    }
  }

  /** One step of the scan: offset i is kept exactly when it lands on the
      board. */
  lemma NeighborsFromStep(cx: int, cy: int, i: nat, nx: int, ny: int)
    requires i < 8 && nx == cx + Offset(i).0 && ny == cy + Offset(i).1
    ensures IsValidCoord(nx, ny) ==> NeighborsFrom(cx, cy, i) == [(nx, ny)] + NeighborsFrom(cx, cy, i + 1)
    ensures !IsValidCoord(nx, ny) ==> NeighborsFrom(cx, cy, i) == NeighborsFrom(cx, cy, i + 1)
  {
  }

  predicate Sorted(ns: seq<Coord>) {
    forall a, b :: 0 <= a < b < |ns| ==> RowMajorBefore(ns[a], ns[b])
  }

  lemma {:induction false} NeighborsFromSorted(cx: int, cy: int, i: nat)
    requires i <= 8
    ensures Sorted(NeighborsFrom(cx, cy, i))
    decreases 8 - i
  {
    if i < 8 {
      var q := (cx + Offset(i).0, cy + Offset(i).1);
      var rest := NeighborsFrom(cx, cy, i + 1);
      NeighborsFromSorted(cx, cy, i + 1);
      NeighborsFromSound(cx, cy, i + 1);
      if IsValidCoord(q.0, q.1) {
        OffsetIndexOf(i);
        forall e | e in rest ensures RowMajorBefore(q, e) {
          OffsetsRowMajor(Offset(i), (e.0 - cx, e.1 - cy));
        }
        SortedCons(q, rest);
      }
    }
  }

  lemma SortedCons(q: Coord, rest: seq<Coord>)
    requires Sorted(rest)
    requires forall e :: e in rest ==> RowMajorBefore(q, e)
    ensures Sorted([q] + rest)
  {
    var r := [q] + rest;
    forall a, b | 0 <= a < b < |r| ensures RowMajorBefore(r[a], r[b]) {
      assert r[b] == rest[b - 1];
      if a == 0 {
        assert rest[b - 1] in rest;
      } else {
        assert r[a] == rest[a - 1];
      }
    }
  }

  /** The in-bounds eight-neighbours of (cx, cy), in scan order. */
  function Neighbors(cx: int, cy: int): (r: seq<Coord>)
    ensures |r| <= 8
    ensures forall q :: q in r ==> IsValidCoord(q.0, q.1) && Adjacent((cx, cy), q)
  {
    NeighborsFromSound(cx, cy, 0);
    NeighborsFrom(cx, cy, 0)
  }

  /** The neighbours come in row-major order, hence each at most once. */
  lemma NeighborsSorted(cx: int, cy: int)
    ensures Sorted(Neighbors(cx, cy))
  {
    NeighborsFromSorted(cx, cy, 0);
  }

  /** The scan from offset i yields the cell at every later offset j that
      lands on the board. */
  lemma {:induction false} NeighborsFromHas(cx: int, cy: int, i: nat, j: nat)
    requires i <= j < 8 && IsValidCoord(cx + Offset(j).0, cy + Offset(j).1)
    ensures (cx + Offset(j).0, cy + Offset(j).1) in NeighborsFrom(cx, cy, i)
    decreases j - i
  {
    NeighborsFromStep(cx, cy, i, cx + Offset(i).0, cy + Offset(i).1);
    if i < j {
      NeighborsFromHas(cx, cy, i + 1, j);
    }
  }

  lemma NeighborsFromComplete(cx: int, cy: int, i: nat, q: Coord)
    requires i <= 8
    requires IsValidCoord(q.0, q.1) && i <= OffsetIndex((q.0 - cx, q.1 - cy)) < 8
    ensures q in NeighborsFrom(cx, cy, i)
  {
    var d := (q.0 - cx, q.1 - cy);
    var j := OffsetIndex(d);
    OffsetAt(d);
    var p := (cx + Offset(j).0, cy + Offset(j).1);
    assert p.0 == q.0 && p.1 == q.1;
    assert p == q;
    NeighborsFromHas(cx, cy, i, j);
  }

  /** The neighbours are exactly the in-bounds cells adjacent to the centre;
      the centre itself is never one of them. */
  lemma NeighborsExactly(cx: int, cy: int, q: Coord)
    ensures q in Neighbors(cx, cy) <==> IsValidCoord(q.0, q.1) && Adjacent((cx, cy), q)
  {
    if IsValidCoord(q.0, q.1) && Adjacent((cx, cy), q) {
      NeighborsFromComplete(cx, cy, 0, q);
    }
  }

  lemma NeighborsSymmetric(a: Coord, b: Coord)
    requires IsValidCoord(b.0, b.1)
    requires a in Neighbors(b.0, b.1)
    ensures b in Neighbors(a.0, a.1)
  {
    NeighborsExactly(a.0, a.1, b);
  }

  /** Number of the rows (or columns) c - 1, c, c + 1 that lie in [0, n). */
  function Span(c: int, n: int): int {
    (if c > 0 then 1 else 0) + 1 + (if c < n - 1 then 1 else 0)
  }

  function InBounds(x: int, y: int): int {
    if IsValidCoord(x, y) then 1 else 0
  }

  /** How many of the offsets from `i` on land on the board. */
  function InBoundsFrom(cx: int, cy: int, i: nat): nat
    requires i <= 8
    decreases 8 - i
  {
    if i == 8 then 0 else InBounds(cx + Offset(i).0, cy + Offset(i).1) + InBoundsFrom(cx, cy, i + 1)
  }

  lemma {:induction false} NeighborsFromLength(cx: int, cy: int, i: nat)
    requires i <= 8
    ensures |NeighborsFrom(cx, cy, i)| == InBoundsFrom(cx, cy, i)
    decreases 8 - i
  {
    if i < 8 {
      NeighborsFromLength(cx, cy, i + 1);
    }
  }

  lemma NeighborCount(cx: int, cy: int)
    requires IsValidCoord(cx, cy)
    ensures |Neighbors(cx, cy)| == Span(cx, W) * Span(cy, H) - 1
  {
    NeighborsFromLength(cx, cy, 0);
    assert InBoundsFrom(cx, cy, 0) ==
      InBounds(cx - 1, cy - 1) + InBounds(cx, cy - 1) + InBounds(cx + 1, cy - 1) +
      InBounds(cx - 1, cy) + InBounds(cx + 1, cy) +
      InBounds(cx - 1, cy + 1) + InBounds(cx, cy + 1) + InBounds(cx + 1, cy + 1);
    NeighborCountRow(cx, cy);
  }

  lemma NeighborCountRow(cx: int, cy: int)
    requires IsValidCoord(cx, cy)
    ensures InBounds(cx - 1, cy - 1) + InBounds(cx, cy - 1) + InBounds(cx + 1, cy - 1) +
      InBounds(cx - 1, cy) + InBounds(cx + 1, cy) +
      InBounds(cx - 1, cy + 1) + InBounds(cx, cy + 1) + InBounds(cx + 1, cy + 1)
      == Span(cx, W) * Span(cy, H) - 1
  {
    if cy == 0 {
      assert Span(cy, H) == 2;
    } else if cy == H - 1 {
      assert Span(cy, H) == 2;
    } else {
      assert Span(cy, H) == 3;
    }
  }

  /** A corner cell has 3 neighbours, an edge cell 5 and an interior cell 8. */
  lemma CornerEdgeInteriorCounts(cx: int, cy: int)
    requires IsValidCoord(cx, cy)
    ensures (cx == 0 || cx == W - 1) && (cy == 0 || cy == H - 1) ==> |Neighbors(cx, cy)| == 3
    ensures (cx == 0 || cx == W - 1) != (cy == 0 || cy == H - 1) ==> |Neighbors(cx, cy)| == 5
    ensures 0 < cx < W - 1 && 0 < cy < H - 1 ==> |Neighbors(cx, cy)| == 8
  {
    NeighborCount(cx, cy);
    var sx, sy := Span(cx, W), Span(cy, H);
    assert sx == (if cx == 0 || cx == W - 1 then 2 else 3);
    assert sy == (if cy == 0 || cy == H - 1 then 2 else 3);
    if sx == 2 {
      assert sx * sy == 2 * sy;
    } else {
      assert sx * sy == 3 * sy;
    }
  }

  // ---------------------------------------------------------------- counting

  predicate AllValid(ns: seq<Coord>) {
    forall q :: q in ns ==> IsValidCoord(q.0, q.1)
  }

  function CountBombsIn(g: Grid, ns: seq<Coord>): (r: nat)
    requires WellFormed(g) && AllValid(ns)
    ensures r <= |ns|
  {
    if ns == [] then 0
    else (if At(g, ns[0]).hasBomb then 1 else 0) + CountBombsIn(g, ns[1..])
  }

  function CountMarkedIn(g: Grid, ns: seq<Coord>): (r: nat)
    requires WellFormed(g) && AllValid(ns)
    ensures r <= |ns|
  {
    if ns == [] then 0
    else (if At(g, ns[0]).state == Marked then 1 else 0) + CountMarkedIn(g, ns[1..])
  }

  /** What `count_surrounding_bombs` computes: bombs among the neighbours. */
  function CountBombs(g: Grid, cx: int, cy: int): (r: nat)
    requires WellFormed(g)
    ensures r <= 8
  {
    CountBombsIn(g, Neighbors(cx, cy))
  }

  /** The number of marked neighbours, as the first pass of a chord counts it. */
  function CountMarked(g: Grid, cx: int, cy: int): (r: nat)
    requires WellFormed(g)
    ensures r <= 8
  {
    CountMarkedIn(g, Neighbors(cx, cy))
  }

  /** The bombed cells adjacent to (cx, cy), defined without the scan order. */
  ghost function AdjacentBombs(g: Grid, cx: int, cy: int): set<Coord>
    requires WellFormed(g)
  {
    set x, y | 0 <= x < W && 0 <= y < H && Adjacent((cx, cy), (x, y)) && g[y][x].hasBomb :: (x, y)
  }

  lemma {:induction false} CountBombsInIsCard(g: Grid, ns: seq<Coord>)
    requires WellFormed(g) && AllValid(ns)
    requires Sorted(ns)
    ensures CountBombsIn(g, ns) == |set q | q in ns && At(g, q).hasBomb|
  {
    if ns != [] {
      var tail := ns[1..];
      assert Sorted(tail) by {
        forall a, b | 0 <= a < b < |tail| ensures RowMajorBefore(tail[a], tail[b]) {
          assert tail[a] == ns[a + 1] && tail[b] == ns[b + 1];
        }
      }
      CountBombsInIsCard(g, tail);
      var s := set q | q in ns && At(g, q).hasBomb;
      var t := set q | q in tail && At(g, q).hasBomb;
      assert ns[0] !in tail by {
        forall j | 0 <= j < |tail| ensures tail[j] != ns[0] {
          assert tail[j] == ns[j + 1];
          assert RowMajorBefore(ns[0], ns[j + 1]);
        }
      }
      if At(g, ns[0]).hasBomb {
        assert s == t + {ns[0]};
      } else {
        assert s == t;
      }
    }
  }

  /** The scan-based count is the number of bombed in-bounds cells adjacent
      to the centre; so it never counts the centre's own bomb. */
  lemma CountBombsIsAdjacentBombs(g: Grid, cx: int, cy: int)
    requires WellFormed(g)
    ensures CountBombs(g, cx, cy) == |AdjacentBombs(g, cx, cy)|
    ensures (cx, cy) !in AdjacentBombs(g, cx, cy)
  {
    var ns := Neighbors(cx, cy);
    NeighborsSorted(cx, cy);
    CountBombsInIsCard(g, ns);
    var s := set q | q in ns && At(g, q).hasBomb;
    forall q | q in s ensures q in AdjacentBombs(g, cx, cy) {
      NeighborsExactly(cx, cy, q);
    }
    forall q | q in AdjacentBombs(g, cx, cy) ensures q in s {
      NeighborsExactly(cx, cy, q);
    }
    assert s == AdjacentBombs(g, cx, cy);
  }

  /** Bombs only matter on the counted cells. */
  lemma {:induction false} CountBombsInAgree(g0: Grid, g1: Grid, ns: seq<Coord>)
    requires WellFormed(g0) && WellFormed(g1) && AllValid(ns)
    requires forall q :: q in ns ==> At(g0, q).hasBomb == At(g1, q).hasBomb
    ensures CountBombsIn(g0, ns) == CountBombsIn(g1, ns)
  {
    if ns != [] {
      CountBombsInAgree(g0, g1, ns[1..]);
    }
  }

  /** The count of a cell does not depend on whether the cell itself holds a
      bomb, nor on any cell that is not adjacent. */
  lemma CountBombsIgnoresCentre(g0: Grid, g1: Grid, cx: int, cy: int)
    requires WellFormed(g0) && WellFormed(g1)
    requires forall x, y :: IsValidCoord(x, y) && Adjacent((cx, cy), (x, y)) ==> g0[y][x].hasBomb == g1[y][x].hasBomb
    ensures CountBombs(g0, cx, cy) == CountBombs(g1, cx, cy)
  {
    CountBombsInAgree(g0, g1, Neighbors(cx, cy));
  }

  // ---------------------------------------------------------------- whole-board sets

  ghost predicate SameBombs(g0: Grid, g1: Grid)
    requires WellFormed(g0) && WellFormed(g1)
  {
    forall x, y {:trigger g1[y][x]} {:trigger g0[y][x]} :: IsValidCoord(x, y) ==> g1[y][x].hasBomb == g0[y][x].hasBomb
  }

  lemma CountsStable(g0: Grid, g1: Grid)
    requires WellFormed(g0) && WellFormed(g1) && SameBombs(g0, g1)
    ensures forall x, y :: CountBombs(g0, x, y) == CountBombs(g1, x, y)
  {
    forall x, y ensures CountBombs(g0, x, y) == CountBombs(g1, x, y) {
      CountBombsInAgree(g0, g1, Neighbors(x, y));
    }
  }

  ghost function BombSet(g: Grid): set<Coord>
    requires WellFormed(g)
  {
    set x, y | 0 <= x < W && 0 <= y < H && g[y][x].hasBomb :: (x, y)
  }

  /** The board after a bomb is put on (cx, cy). */
  function PlaceBomb(g: Grid, cx: int, cy: int): (r: Grid)
    requires WellFormed(g) && IsValidCoord(cx, cy)
    ensures WellFormed(r)
    ensures r[cy][cx] == Cell(g[cy][cx].state, true)
    ensures forall x, y :: IsValidCoord(x, y) && (x, y) != (cx, cy) ==> r[y][x] == g[y][x]
  {
    g[cy := g[cy][cx := g[cy][cx].(hasBomb := true)]]
  }

  /** A bomb put on a cell without one adds exactly that cell to the bombs. */
  lemma PlaceBombAdds(g: Grid, cx: int, cy: int)
    requires WellFormed(g) && IsValidCoord(cx, cy) && !g[cy][cx].hasBomb
    ensures BombSet(PlaceBomb(g, cx, cy)) == BombSet(g) + {(cx, cy)}
    ensures |BombSet(PlaceBomb(g, cx, cy))| == |BombSet(g)| + 1
  {
    var r := PlaceBomb(g, cx, cy);
    forall p | p in BombSet(r) ensures p in BombSet(g) + {(cx, cy)} {
      if p != (cx, cy) {
        assert r[p.1][p.0] == g[p.1][p.0];
      }
    }
    forall p | p in BombSet(g) + {(cx, cy)} ensures p in BombSet(r) {
      if p != (cx, cy) {
        assert r[p.1][p.0] == g[p.1][p.0];
      }
    }
    assert (cx, cy) !in BombSet(g);
  }

  /** A board that keeps every bomb of g has all of g's bombs. */
  lemma BombSetGrows(g: Grid, g': Grid)
    requires WellFormed(g) && WellFormed(g')
    requires forall x, y :: IsValidCoord(x, y) && g[y][x].hasBomb ==> g'[y][x].hasBomb
    ensures BombSet(g) <= BombSet(g')
  {
  }

  /** A board with no bomb on it. */
  lemma NoBombs(g: Grid)
    requires WellFormed(g)
    requires forall x, y :: IsValidCoord(x, y) ==> !g[y][x].hasBomb
    ensures BombSet(g) == {}
  {
  }

  ghost function NotOpened(g: Grid): set<Coord>
    requires WellFormed(g)
  {
    set x, y | 0 <= x < W && 0 <= y < H && g[y][x].state != Opened :: (x, y)
  }

  ghost predicate SameExcept(g0: Grid, g1: Grid, cx: int, cy: int)
    requires WellFormed(g0) && WellFormed(g1)
  {
    forall x, y {:trigger g1[y][x]} {:trigger g0[y][x]} :: IsValidCoord(x, y) && (x, y) != (cx, cy) ==> g1[y][x] == g0[y][x]
  }

  // ---------------------------------------------------------------- reveal

  /** Every cell keeps its bomb, and a state only ever changes to Opened
      (so an opened cell stays opened). */
  ghost predicate OnlyOpens(g0: Grid, g1: Grid)
    requires WellFormed(g0) && WellFormed(g1)
  {
    SameBombs(g0, g1) &&
    forall x, y {:trigger g1[y][x]} {:trigger g0[y][x]} :: IsValidCoord(x, y) ==> g1[y][x].state == g0[y][x].state || g1[y][x].state == Opened
  }

  ghost predicate NewlyOpened(g0: Grid, g1: Grid, x: int, y: int)
    requires WellFormed(g0) && WellFormed(g1) && IsValidCoord(x, y)
  {
    g0[y][x].state != Opened && g1[y][x].state == Opened
  }

  /** Flood-fill completeness: every cell opened between g0 and g1 that has
      no bomb around it has all of its bomb-free neighbours opened. */
  ghost predicate Closed(g0: Grid, g1: Grid)
    requires WellFormed(g0) && WellFormed(g1)
  {
    forall x, y {:trigger NewlyOpened(g0, g1, x, y)} :: IsValidCoord(x, y) && NewlyOpened(g0, g1, x, y) && CountBombs(g0, x, y) == 0 ==>
      forall q: Coord {:trigger At(g1, q)} {:trigger At(g0, q)} :: IsValidCoord(q.0, q.1) && Adjacent((x, y), q) && !At(g0, q).hasBomb ==> At(g1, q).state == Opened
  }

  /** Only the clicked cell may be a bomb among the cells a reveal opens. */
  ghost predicate RevealSafe(g0: Grid, g1: Grid, cx: int, cy: int)
    requires WellFormed(g0) && WellFormed(g1)
  {
    forall x, y {:trigger NewlyOpened(g0, g1, x, y)} :: IsValidCoord(x, y) && NewlyOpened(g0, g1, x, y) && (x, y) != (cx, cy) ==> !g0[y][x].hasBomb
  }

  /** rank witnesses that the flood fill reached every cell opened between
      g0 and g1: its keys are exactly those cells, and each key of positive
      rank is next to a key of smaller rank with no bomb around it. Walking
      down the ranks from any opened cell thus leads, through cells with a
      zero count, to a cell of rank 0. */
  ghost predicate Chained(g0: Grid, g1: Grid, rank: map<Coord, nat>)
    requires WellFormed(g0) && WellFormed(g1)
  {
    (forall c :: c in rank ==> IsValidCoord(c.0, c.1) && NewlyOpened(g0, g1, c.0, c.1)) &&
    (forall x, y {:trigger NewlyOpened(g0, g1, x, y)} :: IsValidCoord(x, y) && NewlyOpened(g0, g1, x, y) ==> (x, y) in rank) &&
    Descends(g0, rank)
  }

  /** Each key of positive rank is next to a key of smaller rank with no
      bomb around it on g. */
  ghost predicate Descends(g: Grid, rank: map<Coord, nat>)
    requires WellFormed(g)
  {
    forall c :: c in rank && rank[c] > 0 ==>
      exists q :: q in rank && rank[q] < rank[c] && Adjacent(c, q) && IsValidCoord(q.0, q.1) && CountBombs(g, q.0, q.1) == 0
  }

  /** The clicked cell is the only one of rank 0. */
  ghost predicate RootedAt(rank: map<Coord, nat>, c0: Coord) {
    forall c :: c in rank ==> (rank[c] == 0 <==> c == c0)
  }

  /** The ranks of a first reveal followed by those of a second one, raised
      by d. */
  function Merge(r0: map<Coord, nat>, r1: map<Coord, nat>, d: nat): map<Coord, nat> {
    r0 + map c | c in r1 :: r1[c] + d
  }

  /** The witness of a reveal has one key per cell it opened: the cells
      still covered before it, less those still covered after. */
  lemma ChainedCount(g0: Grid, g1: Grid, rank: map<Coord, nat>)
    requires WellFormed(g0) && WellFormed(g1)
    requires OnlyOpens(g0, g1) && Chained(g0, g1, rank)
    ensures rank.Keys == NotOpened(g0) - NotOpened(g1)
    ensures |rank| == |NotOpened(g0)| - |NotOpened(g1)|
  {
    ChainedKeys(g0, g1, rank);
    StillCovered(g0, g1);
    var a, b := NotOpened(g0), NotOpened(g1);
    assert a == (a - b) + b;
    assert |a| == |a - b| + |b|;
  }

  lemma ChainedKeys(g0: Grid, g1: Grid, rank: map<Coord, nat>)
    requires WellFormed(g0) && WellFormed(g1)
    requires Chained(g0, g1, rank)
    ensures rank.Keys == NotOpened(g0) - NotOpened(g1)
  {
    forall c | c in NotOpened(g0) - NotOpened(g1)
      ensures c in rank
    {
      OpenedKey(g0, g1, rank, c);
    }
  }

  lemma OpenedKey(g0: Grid, g1: Grid, rank: map<Coord, nat>, c: Coord)
    requires WellFormed(g0) && WellFormed(g1)
    requires Chained(g0, g1, rank)
    requires c in NotOpened(g0) && c !in NotOpened(g1)
    ensures c in rank
  {
    assert NewlyOpened(g0, g1, c.0, c.1);
  }

  lemma StillCovered(g0: Grid, g1: Grid)
    requires WellFormed(g0) && WellFormed(g1)
    requires OnlyOpens(g0, g1)
    ensures NotOpened(g1) <= NotOpened(g0)
  {
    forall c | c in NotOpened(g1)
      ensures c in NotOpened(g0)
    {
      assert g1[c.1][c.0].state != Opened;
    }
  }

  /** Two reveals in a row open disjoint sets of cells, so their merged
      witness has a key for each cell of either, and no other. */
  lemma MergeSize(g0: Grid, gb: Grid, ga: Grid, r0: map<Coord, nat>, r1: map<Coord, nat>, d: nat)
    requires WellFormed(g0) && WellFormed(gb) && WellFormed(ga)
    requires Chained(g0, gb, r0) && Chained(gb, ga, r1)
    ensures Merge(r0, r1, d).Keys == r0.Keys + r1.Keys
    ensures |Merge(r0, r1, d)| == |r0| + |r1|
  {
    var m := map c | c in r1 :: r1[c] + d;
    assert m.Keys == r1.Keys;
    forall c | c in r1
      ensures c !in r0
    {
      assert NewlyOpened(gb, ga, c.0, c.1);
    }
    assert r0.Keys * r1.Keys == {};
    assert Merge(r0, r1, d).Keys == r0.Keys + r1.Keys;
  }

  /** The witnesses of two reveals in a row combine into one for both: the
      second one's ranks are raised by d, and when d > 0 each of its cells
      of rank 0 hangs off a cell of the first with rank below d. */
  lemma MergeChained(g0: Grid, gb: Grid, ga: Grid, r0: map<Coord, nat>, r1: map<Coord, nat>, d: nat)
    requires WellFormed(g0) && WellFormed(gb) && WellFormed(ga)
    requires OnlyOpens(g0, gb) && OnlyOpens(gb, ga)
    requires Chained(g0, gb, r0) && Chained(gb, ga, r1)
    requires d > 0 ==> forall c :: c in r1 && r1[c] == 0 ==>
      exists q :: q in r0 && r0[q] < d && Adjacent(c, q) && IsValidCoord(q.0, q.1) && CountBombs(g0, q.0, q.1) == 0
    ensures Chained(g0, ga, Merge(r0, r1, d))
    ensures forall c :: c in r0 ==> c !in r1 && Merge(r0, r1, d)[c] == r0[c]
    ensures forall c :: c in r1 ==> Merge(r0, r1, d)[c] == r1[c] + d
  {
    MergeKeys(g0, gb, ga, r0, r1, d);
    CountsStable(g0, gb);
    MergeDescends(g0, gb, r0, r1, d);
  }

  /** Every merged key of positive rank still has a parent: its own parent
      in the reveal that opened it, or, for a cell of rank 0 in the second
      reveal, the cell of the first one it hangs off. */
  lemma MergeDescends(g0: Grid, gb: Grid, r0: map<Coord, nat>, r1: map<Coord, nat>, d: nat)
    requires WellFormed(g0) && WellFormed(gb)
    requires Descends(g0, r0) && Descends(gb, r1)
    requires forall c :: c in r0 ==> c !in r1
    requires forall x, y :: CountBombs(g0, x, y) == CountBombs(gb, x, y)
    requires d > 0 ==> forall c :: c in r1 && r1[c] == 0 ==>
      exists q :: q in r0 && r0[q] < d && Adjacent(c, q) && IsValidCoord(q.0, q.1) && CountBombs(g0, q.0, q.1) == 0
    ensures Descends(g0, Merge(r0, r1, d))
  {
    var m := Merge(r0, r1, d);
    forall c | c in m && m[c] > 0
      ensures exists q :: q in m && m[q] < m[c] && Adjacent(c, q) && IsValidCoord(q.0, q.1) && CountBombs(g0, q.0, q.1) == 0
    {
      if c in r1 && r1[c] > 0 {
        var q :| q in r1 && r1[q] < r1[c] && Adjacent(c, q) && IsValidCoord(q.0, q.1) && CountBombs(gb, q.0, q.1) == 0;
        assert m[q] == r1[q] + d;
      } else if c in r1 {
        var q :| q in r0 && r0[q] < d && Adjacent(c, q) && IsValidCoord(q.0, q.1) && CountBombs(g0, q.0, q.1) == 0;
        assert m[q] == r0[q];
      } else {
        var q :| q in r0 && r0[q] < r0[c] && Adjacent(c, q) && IsValidCoord(q.0, q.1) && CountBombs(g0, q.0, q.1) == 0;
        assert m[q] == r0[q];
      }
    }
  }

  /** The merged keys are exactly the cells opened by either reveal, and
      the two reveals open disjoint sets of cells. */
  lemma MergeKeys(g0: Grid, gb: Grid, ga: Grid, r0: map<Coord, nat>, r1: map<Coord, nat>, d: nat)
    requires WellFormed(g0) && WellFormed(gb) && WellFormed(ga)
    requires OnlyOpens(g0, gb) && OnlyOpens(gb, ga)
    requires Chained(g0, gb, r0) && Chained(gb, ga, r1)
    ensures forall c :: c in r0 ==> c !in r1 && Merge(r0, r1, d)[c] == r0[c]
    ensures forall c :: c in r1 ==> Merge(r0, r1, d)[c] == r1[c] + d
    ensures forall c :: c in Merge(r0, r1, d) ==> IsValidCoord(c.0, c.1) && NewlyOpened(g0, ga, c.0, c.1)
    ensures forall x, y :: IsValidCoord(x, y) && NewlyOpened(g0, ga, x, y) ==> (x, y) in Merge(r0, r1, d)
  {
    var m := Merge(r0, r1, d);
    forall c | c in r0 ensures c !in r1 {
      assert NewlyOpened(g0, gb, c.0, c.1);
    }
    forall c | c in m ensures IsValidCoord(c.0, c.1) && NewlyOpened(g0, ga, c.0, c.1) {
      if c !in r0 {
        assert c in r1 && NewlyOpened(gb, ga, c.0, c.1);
      }
    }
    forall x, y | IsValidCoord(x, y) && NewlyOpened(g0, ga, x, y) ensures (x, y) in m {
      if gb[y][x].state == Opened {
        assert NewlyOpened(g0, gb, x, y);
      } else {
        assert NewlyOpened(gb, ga, x, y);
      }
    }
  }

  /** What `uncover(cx, cy)` does to the board. */
  ghost predicate UncoverPost(g0: Grid, g1: Grid, cx: int, cy: int, rank: map<Coord, nat>)
    requires WellFormed(g0) && WellFormed(g1) && IsValidCoord(cx, cy)
  {
    OnlyOpens(g0, g1) &&
    g1[cy][cx].state == Opened &&
    (g0[cy][cx].state == Opened ==> g1 == g0) &&
    (CountBombs(g0, cx, cy) > 0 ==> SameExcept(g0, g1, cx, cy)) &&
    Closed(g0, g1) &&
    RevealSafe(g0, g1, cx, cy) &&
    Chained(g0, g1, rank) && RootedAt(rank, (cx, cy))
  }

  lemma OnlyOpensTrans(g0: Grid, g1: Grid, g2: Grid)
    requires WellFormed(g0) && WellFormed(g1) && WellFormed(g2)
    requires OnlyOpens(g0, g1) && OnlyOpens(g1, g2)
    ensures OnlyOpens(g0, g2)
  {
  }

  lemma OnlyOpensShrinks(g0: Grid, g1: Grid)
    requires WellFormed(g0) && WellFormed(g1) && OnlyOpens(g0, g1)
    ensures NotOpened(g1) <= NotOpened(g0)
  {
  }

  /** Flood-fill completeness composes: two reveals in a row leave a closed
      board. */
  lemma ClosedTrans(g0: Grid, g1: Grid, g2: Grid)
    requires WellFormed(g0) && WellFormed(g1) && WellFormed(g2)
    requires OnlyOpens(g0, g1) && OnlyOpens(g1, g2)
    requires Closed(g0, g1) && Closed(g1, g2)
    ensures Closed(g0, g2)
  {
    CountsStable(g0, g1);
    forall x, y | IsValidCoord(x, y) && NewlyOpened(g0, g2, x, y) && CountBombs(g0, x, y) == 0
      ensures forall q: Coord :: IsValidCoord(q.0, q.1) && Adjacent((x, y), q) && !At(g0, q).hasBomb ==> At(g2, q).state == Opened
    {
      if g1[y][x].state == Opened {
        assert NewlyOpened(g0, g1, x, y);
      } else {
        assert NewlyOpened(g1, g2, x, y);
      }
    }
  }

  /** Opening one covered cell removes exactly that cell from the covered set. */
  lemma OpenOne(g0: Grid, g1: Grid, cx: int, cy: int)
    requires WellFormed(g0) && WellFormed(g1) && IsValidCoord(cx, cy)
    requires SameExcept(g0, g1, cx, cy)
    requires g0[cy][cx].state != Opened && g1[cy][cx] == Cell(Opened, g0[cy][cx].hasBomb)
    ensures (cx, cy) in NotOpened(g0)
    ensures NotOpened(g1) == NotOpened(g0) - {(cx, cy)}
    ensures NotOpened(g1) < NotOpened(g0) && |NotOpened(g1)| == |NotOpened(g0)| - 1
    ensures OnlyOpens(g0, g1)
  {
  }

  /** The case `count_surrounding_bombs(cx, cy) > 0`: only the cell opens. */
  lemma UncoverLeaf(g0: Grid, g1: Grid, cx: int, cy: int)
    requires WellFormed(g0) && WellFormed(g1) && IsValidCoord(cx, cy)
    requires SameExcept(g0, g1, cx, cy)
    requires g0[cy][cx].state != Opened && g1[cy][cx] == Cell(Opened, g0[cy][cx].hasBomb)
    requires CountBombs(g0, cx, cy) > 0
    ensures UncoverPost(g0, g1, cx, cy, map[(cx, cy) := 0])
  {
    OpenOne(g0, g1, cx, cy);
    OnlyTargetOpened(g0, g1, cx, cy);
    assert Closed(g0, g1);
    assert NewlyOpened(g0, g1, cx, cy);
  }

  lemma OnlyTargetOpened(g0: Grid, g1: Grid, cx: int, cy: int)
    requires WellFormed(g0) && WellFormed(g1) && IsValidCoord(cx, cy)
    requires SameExcept(g0, g1, cx, cy)
    ensures forall x, y :: IsValidCoord(x, y) && NewlyOpened(g0, g1, x, y) ==> (x, y) == (cx, cy)
  {
  }

  /** A suffix that starts with a and continues with r. */
  lemma SuffixCons<T>(s: seq<T>, j: nat, a: T, r: seq<T>)
    requires j < |s| && s[j..] == [a] + r
    ensures s[j] == a && s[j + 1..] == r
  {
    assert s[j] == s[j..][0];
    assert r == s[j..][1..];
  }

  /** `ns` lists exactly the in-bounds neighbours of c. */
  ghost predicate NeighborList(ns: seq<Coord>, c: Coord) {
    (forall q :: q in ns ==> IsValidCoord(q.0, q.1) && Adjacent(c, q)) &&
    (forall q: Coord :: IsValidCoord(q.0, q.1) && Adjacent(c, q) ==> q in ns)
  }

  lemma NeighborsIsList(cx: int, cy: int)
    ensures NeighborList(Neighbors(cx, cy), (cx, cy))
  {
    forall q: Coord {
      NeighborsExactly(cx, cy, q);
    }
  }

  /** What holds throughout the cascade from (cx, cy): ns lists its
      neighbours, it was covered and has no bomb around it, and gA is the
      board just after it was opened. */
  ghost predicate CascadeFrame(g0: Grid, gA: Grid, cx: int, cy: int, ns: seq<Coord>)
    requires WellFormed(g0) && WellFormed(gA) && IsValidCoord(cx, cy)
  {
    NeighborList(ns, (cx, cy)) &&
    g0[cy][cx].state != Opened && CountBombs(g0, cx, cy) == 0 &&
    SameExcept(g0, gA, cx, cy) && gA[cy][cx] == Cell(Opened, g0[cy][cx].hasBomb)
  }

  /** Loop invariant of the cascade: g is the current board and the first
      k neighbours have been visited. */
  ghost predicate CascadeInv(g0: Grid, gA: Grid, g: Grid, cx: int, cy: int, ns: seq<Coord>, k: nat, rank: map<Coord, nat>)
    requires WellFormed(g0) && WellFormed(gA) && WellFormed(g) && IsValidCoord(cx, cy)
    requires CascadeFrame(g0, gA, cx, cy, ns)
  {
    OnlyOpens(g0, g) && OnlyOpens(gA, g) && Closed(gA, g) &&
    k <= |ns| &&
    (forall j :: 0 <= j < k && !At(g0, ns[j]).hasBomb ==> At(g, ns[j]).state == Opened) &&
    RevealSafe(g0, g, cx, cy) &&
    Chained(g0, g, rank) && RootedAt(rank, (cx, cy))
  }

  /** The cascade's progress, with r0 the particle room it started with:
      enough for ten particles per cell still covered. */
  ghost predicate CascadeProgress(g0: Grid, gA: Grid, g: Grid, cx: int, cy: int, ns: seq<Coord>, k: nat, r0: int, rank: map<Coord, nat>) {
    IsValidCoord(cx, cy) && WellFormed(g0) && WellFormed(gA) && WellFormed(g) &&
    NotOpened(gA) < NotOpened(g0) &&
    CascadeFrame(g0, gA, cx, cy, ns) && CascadeInv(g0, gA, g, cx, cy, ns, k, rank) &&
    10 * |NotOpened(gA)| <= r0
  }

  lemma CascadeInit(g0: Grid, gA: Grid, cx: int, cy: int, ns: seq<Coord>)
    requires WellFormed(g0) && WellFormed(gA) && IsValidCoord(cx, cy)
    requires NeighborList(ns, (cx, cy))
    requires SameExcept(g0, gA, cx, cy)
    requires g0[cy][cx].state != Opened && gA[cy][cx] == Cell(Opened, g0[cy][cx].hasBomb)
    requires CountBombs(g0, cx, cy) == 0
    ensures CascadeFrame(g0, gA, cx, cy, ns)
    ensures CascadeInv(g0, gA, gA, cx, cy, ns, 0, map[(cx, cy) := 0])
  {
    assert NewlyOpened(g0, gA, cx, cy);
  }

  /** The cascade starts from the cell just opened, with nothing visited. */
  lemma CascadeStart(g0: Grid, gA: Grid, cx: int, cy: int, room: int)
    requires WellFormed(g0) && WellFormed(gA) && IsValidCoord(cx, cy)
    requires SameExcept(g0, gA, cx, cy)
    requires g0[cy][cx].state != Opened && gA[cy][cx] == Cell(Opened, g0[cy][cx].hasBomb)
    requires CountBombs(g0, cx, cy) == 0 && 10 * |NotOpened(gA)| <= room
    ensures CascadeProgress(g0, gA, gA, cx, cy, Neighbors(cx, cy), 0, room, map[(cx, cy) := 0])
  {
    OpenOne(g0, gA, cx, cy);
    NeighborsIsList(cx, cy);
    CascadeInit(g0, gA, cx, cy, Neighbors(cx, cy));
  }

  /** Before each visit fewer cells are covered than before the click. */
  lemma CascadeBudget(g0: Grid, gA: Grid, g: Grid, cx: int, cy: int, ns: seq<Coord>, k: nat, r0: int, rank: map<Coord, nat>)
    requires CascadeProgress(g0, gA, g, cx, cy, ns, k, r0, rank)
    ensures NotOpened(g) < NotOpened(g0)
  {
    OnlyOpensShrinks(gA, g);
  }

  /** A bomb-free neighbour uncovered recursively keeps the cascade's
      progress. */
  lemma CascadeVisit(g0: Grid, gA: Grid, g: Grid, g': Grid, cx: int, cy: int, ns: seq<Coord>, k: nat, r0: int, rank: map<Coord, nat>, rank': map<Coord, nat>)
    requires CascadeProgress(g0, gA, g, cx, cy, ns, k, r0, rank)
    requires k < |ns| && IsValidCoord(ns[k].0, ns[k].1) && !At(g, ns[k]).hasBomb
    requires WellFormed(g') && UncoverPost(g, g', ns[k].0, ns[k].1, rank')
    ensures CascadeProgress(g0, gA, g', cx, cy, ns, k + 1, r0, Merge(rank, rank', 1))
  {
    CascadeCall(g0, gA, g, g', cx, cy, ns, k, rank, rank');
  }

  /** A neighbour with a bomb is passed over. */
  lemma CascadePass(g0: Grid, gA: Grid, g: Grid, cx: int, cy: int, ns: seq<Coord>, k: nat, r0: int, rank: map<Coord, nat>)
    requires CascadeProgress(g0, gA, g, cx, cy, ns, k, r0, rank)
    requires k < |ns| && At(g, ns[k]).hasBomb
    ensures CascadeProgress(g0, gA, g, cx, cy, ns, k + 1, r0, rank)
  {
    CascadeSkip(g0, gA, g, cx, cy, ns, k, rank);
  }

  /** A bombed neighbour is skipped. */
  lemma CascadeSkip(g0: Grid, gA: Grid, g: Grid, cx: int, cy: int, ns: seq<Coord>, k: nat, rank: map<Coord, nat>)
    requires WellFormed(g0) && WellFormed(gA) && WellFormed(g) && IsValidCoord(cx, cy)
    requires CascadeFrame(g0, gA, cx, cy, ns) && CascadeInv(g0, gA, g, cx, cy, ns, k, rank)
    requires k < |ns| && At(g, ns[k]).hasBomb
    ensures CascadeInv(g0, gA, g, cx, cy, ns, k + 1, rank)
  {
    assert ns[k] in ns;
  }

  /** A bomb-free neighbour is uncovered recursively. */
  lemma CascadeCall(g0: Grid, gA: Grid, gb: Grid, ga: Grid, cx: int, cy: int, ns: seq<Coord>, k: nat, rank: map<Coord, nat>, rank': map<Coord, nat>)
    requires WellFormed(g0) && WellFormed(gA) && WellFormed(gb) && WellFormed(ga) && IsValidCoord(cx, cy)
    requires CascadeFrame(g0, gA, cx, cy, ns) && CascadeInv(g0, gA, gb, cx, cy, ns, k, rank)
    requires k < |ns| && !At(gb, ns[k]).hasBomb
    requires OnlyOpens(gb, ga) && At(ga, ns[k]).state == Opened && Closed(gb, ga)
    requires RevealSafe(gb, ga, ns[k].0, ns[k].1) && Chained(gb, ga, rank') && RootedAt(rank', ns[k])
    ensures CascadeInv(g0, gA, ga, cx, cy, ns, k + 1, Merge(rank, rank', 1))
  {
    var s := ns[k];
    assert s in ns;
    OnlyOpensTrans(gA, gb, ga);
    OnlyOpensTrans(g0, gb, ga);
    ClosedTrans(gA, gb, ga);
    VisitedPrefix(g0, gb, ga, ns, k);
    assert NewlyOpened(g0, gb, cx, cy);
    CascadeRevealSafe(g0, gb, ga, cx, cy, s);
    CascadeChained(g0, gb, ga, cx, cy, s, rank, rank');
  }

  /** The first k + 1 neighbours are opened once the k-th has been uncovered. */
  lemma VisitedPrefix(g0: Grid, gb: Grid, ga: Grid, ns: seq<Coord>, k: nat)
    requires WellFormed(g0) && WellFormed(gb) && WellFormed(ga)
    requires AllValid(ns) && k < |ns| && OnlyOpens(gb, ga) && At(ga, ns[k]).state == Opened
    requires forall j :: 0 <= j < k && !At(g0, ns[j]).hasBomb ==> At(gb, ns[j]).state == Opened
    ensures forall j :: 0 <= j < k + 1 && !At(g0, ns[j]).hasBomb ==> At(ga, ns[j]).state == Opened
  {
    forall j | 0 <= j < k + 1 && !At(g0, ns[j]).hasBomb
      ensures At(ga, ns[j]).state == Opened
    {
      if j < k {
        assert At(gb, ns[j]).state == Opened;
      }
    }
  }

  /** No cell opened by the recursive call holds a bomb. */
  lemma CascadeRevealSafe(g0: Grid, gb: Grid, ga: Grid, cx: int, cy: int, s: Coord)
    requires WellFormed(g0) && WellFormed(gb) && WellFormed(ga) && IsValidCoord(cx, cy)
    requires IsValidCoord(s.0, s.1) && !At(gb, s).hasBomb
    requires OnlyOpens(g0, gb) && OnlyOpens(gb, ga)
    requires RevealSafe(g0, gb, cx, cy) && RevealSafe(gb, ga, s.0, s.1)
    ensures RevealSafe(g0, ga, cx, cy)
  {
    forall x, y | IsValidCoord(x, y) && NewlyOpened(g0, ga, x, y) && (x, y) != (cx, cy)
      ensures !g0[y][x].hasBomb
    {
      if gb[y][x].state == Opened {
        assert NewlyOpened(g0, gb, x, y);
      } else {
        assert NewlyOpened(gb, ga, x, y);
      }
    }
  }

  /** The cells the recursive call from s opened hang off (cx, cy), which
      has rank 0: their ranks go up by one. */
  lemma CascadeChained(g0: Grid, gb: Grid, ga: Grid, cx: int, cy: int, s: Coord, rank: map<Coord, nat>, rank': map<Coord, nat>)
    requires WellFormed(g0) && WellFormed(gb) && WellFormed(ga) && IsValidCoord(cx, cy)
    requires Adjacent((cx, cy), s)
    requires NewlyOpened(g0, gb, cx, cy) && CountBombs(g0, cx, cy) == 0
    requires OnlyOpens(g0, gb) && OnlyOpens(gb, ga)
    requires Chained(g0, gb, rank) && RootedAt(rank, (cx, cy))
    requires Chained(gb, ga, rank') && RootedAt(rank', s)
    ensures Chained(g0, ga, Merge(rank, rank', 1)) && RootedAt(Merge(rank, rank', 1), (cx, cy))
  {
    assert (cx, cy) in rank;
    forall c | c in rank' && rank'[c] == 0
      ensures exists q :: q in rank && rank[q] < 1 && Adjacent(c, q) && IsValidCoord(q.0, q.1) && CountBombs(g0, q.0, q.1) == 0
    {
      assert Adjacent(c, (cx, cy));
    }
    MergeChained(g0, gb, ga, rank, rank', 1);
  }

  lemma CascadeExit(g0: Grid, gA: Grid, g: Grid, cx: int, cy: int, ns: seq<Coord>, rank: map<Coord, nat>)
    requires WellFormed(g0) && WellFormed(gA) && WellFormed(g) && IsValidCoord(cx, cy)
    requires CascadeFrame(g0, gA, cx, cy, ns) && CascadeInv(g0, gA, g, cx, cy, ns, |ns|, rank)
    ensures UncoverPost(g0, g, cx, cy, rank)
  {
    OnlyOpensTrans(g0, gA, g);
    forall q: Coord | IsValidCoord(q.0, q.1) && Adjacent((cx, cy), q) && !At(g0, q).hasBomb
      ensures At(g, q).state == Opened
    {
      var j :| 0 <= j < |ns| && ns[j] == q;
    }
    CascadeClosed(g0, gA, g, cx, cy);
  }

  /** Flood-fill completeness once every bomb-free neighbour of the opened
      cell has been visited. */
  lemma CascadeClosed(g0: Grid, gA: Grid, g: Grid, cx: int, cy: int)
    requires WellFormed(g0) && WellFormed(gA) && WellFormed(g) && IsValidCoord(cx, cy)
    requires g0[cy][cx].state != Opened && gA[cy][cx] == Cell(Opened, g0[cy][cx].hasBomb)
    requires SameExcept(g0, gA, cx, cy) && OnlyOpens(gA, g) && Closed(gA, g)
    requires forall q: Coord :: IsValidCoord(q.0, q.1) && Adjacent((cx, cy), q) && !At(g0, q).hasBomb ==> At(g, q).state == Opened
    ensures Closed(g0, g)
  {
    CountsStable(g0, gA);
    forall x, y | IsValidCoord(x, y) && NewlyOpened(g0, g, x, y) && CountBombs(g0, x, y) == 0
      ensures forall q: Coord :: IsValidCoord(q.0, q.1) && Adjacent((x, y), q) && !At(g0, q).hasBomb ==> At(g, q).state == Opened
    {
      if (x, y) != (cx, cy) {
        assert NewlyOpened(gA, g, x, y);
      }
    }
  }

  // ---------------------------------------------------------------- chord

  /** What `chord(cx, cy)` does to the board. */
  ghost predicate ChordPost(g0: Grid, g1: Grid, cx: int, cy: int, rank: map<Coord, nat>)
    requires WellFormed(g0) && WellFormed(g1) && IsValidCoord(cx, cy)
  {
    OnlyOpens(g0, g1) && Closed(g0, g1) &&
    Chained(g0, g1, rank) && ChordRoots(g0, rank, cx, cy) &&
    (CountMarked(g0, cx, cy) != CountBombs(g0, cx, cy) ==> g1 == g0) &&
    (CountMarked(g0, cx, cy) == CountBombs(g0, cx, cy) ==>
      forall q: Coord {:trigger At(g1, q)} {:trigger At(g0, q)} :: IsValidCoord(q.0, q.1) && Adjacent((cx, cy), q) && At(g0, q).state == Unopened ==> At(g1, q).state == Opened) &&
    (forall x, y {:trigger NewlyOpened(g0, g1, x, y)} :: IsValidCoord(x, y) && NewlyOpened(g0, g1, x, y) && g0[y][x].hasBomb ==>
      Adjacent((cx, cy), (x, y)) && g0[y][x].state == Unopened)
  }

  /** Every cell of rank 0 is a neighbour of (cx, cy) that was Unopened:
      one of the cells the chord uncovers itself. */
  ghost predicate ChordRoots(g0: Grid, rank: map<Coord, nat>, cx: int, cy: int)
    requires WellFormed(g0)
  {
    forall c :: c in rank && rank[c] == 0 ==> IsValidCoord(c.0, c.1) && Adjacent((cx, cy), c) && At(g0, c).state == Unopened
  }

  /** Loop invariant of the second pass of a chord over the neighbours ns of
      (cx, cy): the first k of them have been visited. */
  ghost predicate ChordInv(g0: Grid, g: Grid, cx: int, cy: int, ns: seq<Coord>, k: nat, rank: map<Coord, nat>)
    requires WellFormed(g0) && WellFormed(g) && IsValidCoord(cx, cy)
  {
    NeighborList(ns, (cx, cy)) &&
    CountMarked(g0, cx, cy) == CountBombs(g0, cx, cy) &&
    OnlyOpens(g0, g) && Closed(g0, g) &&
    Chained(g0, g, rank) && ChordRoots(g0, rank, cx, cy) &&
    k <= |ns| &&
    (forall j :: 0 <= j < k && At(g0, ns[j]).state == Unopened ==> At(g, ns[j]).state == Opened) &&
    (forall x, y {:trigger NewlyOpened(g0, g, x, y)} :: IsValidCoord(x, y) && NewlyOpened(g0, g, x, y) && g0[y][x].hasBomb ==>
      (x, y) in ns[..k] && g0[y][x].state == Unopened)
  }

  lemma ChordMismatch(g0: Grid, cx: int, cy: int)
    requires WellFormed(g0) && IsValidCoord(cx, cy)
    requires CountMarked(g0, cx, cy) != CountBombs(g0, cx, cy)
    ensures ChordPost(g0, g0, cx, cy, map[])
  {
  }

  lemma ChordInit(g0: Grid, cx: int, cy: int, ns: seq<Coord>)
    requires WellFormed(g0) && IsValidCoord(cx, cy)
    requires NeighborList(ns, (cx, cy))
    requires CountMarked(g0, cx, cy) == CountBombs(g0, cx, cy)
    ensures ChordInv(g0, g0, cx, cy, ns, 0, map[])
  {
  }

  /** A neighbour that is not Unopened when the pass reaches it is left alone. */
  lemma ChordSkip(g0: Grid, g: Grid, cx: int, cy: int, ns: seq<Coord>, k: nat, rank: map<Coord, nat>)
    requires WellFormed(g0) && WellFormed(g) && IsValidCoord(cx, cy)
    requires ChordInv(g0, g, cx, cy, ns, k, rank)
    requires k < |ns| && At(g, ns[k]).state != Unopened
    ensures ChordInv(g0, g, cx, cy, ns, k + 1, rank)
  {
    assert ns[..k] <= ns[..k + 1];
  }

  /** An Unopened neighbour is uncovered. */
  lemma ChordCall(g0: Grid, gb: Grid, ga: Grid, cx: int, cy: int, ns: seq<Coord>, k: nat, rank: map<Coord, nat>, rank': map<Coord, nat>)
    requires WellFormed(g0) && WellFormed(gb) && WellFormed(ga) && IsValidCoord(cx, cy)
    requires ChordInv(g0, gb, cx, cy, ns, k, rank)
    requires k < |ns| && At(gb, ns[k]).state == Unopened
    requires UncoverPost(gb, ga, ns[k].0, ns[k].1, rank')
    ensures ChordInv(g0, ga, cx, cy, ns, k + 1, Merge(rank, rank', 0))
  {
    var s := ns[k];
    assert s in ns;
    OnlyOpensTrans(g0, gb, ga);
    ClosedTrans(g0, gb, ga);
    ChordVisited(g0, gb, ga, ns, k);
    ChordBombs(g0, gb, ga, ns, k);
    ChordChained(g0, gb, ga, cx, cy, s, rank, rank');
  }

  /** The cells the chord's reveal from the neighbour s opened keep their
      ranks; s itself, of rank 0, was an Unopened neighbour. */
  lemma ChordChained(g0: Grid, gb: Grid, ga: Grid, cx: int, cy: int, s: Coord, rank: map<Coord, nat>, rank': map<Coord, nat>)
    requires WellFormed(g0) && WellFormed(gb) && WellFormed(ga) && IsValidCoord(cx, cy)
    requires IsValidCoord(s.0, s.1) && Adjacent((cx, cy), s) && At(gb, s).state == Unopened
    requires OnlyOpens(g0, gb) && OnlyOpens(gb, ga)
    requires Chained(g0, gb, rank) && ChordRoots(g0, rank, cx, cy)
    requires Chained(gb, ga, rank') && RootedAt(rank', s)
    ensures Chained(g0, ga, Merge(rank, rank', 0)) && ChordRoots(g0, Merge(rank, rank', 0), cx, cy)
  {
    MergeChained(g0, gb, ga, rank, rank', 0);
    assert At(g0, s).state == Unopened;
  }

  /** The first k + 1 Unopened neighbours are opened once the k-th has been
      uncovered. */
  lemma ChordVisited(g0: Grid, gb: Grid, ga: Grid, ns: seq<Coord>, k: nat)
    requires WellFormed(g0) && WellFormed(gb) && WellFormed(ga)
    requires AllValid(ns) && k < |ns| && OnlyOpens(gb, ga) && At(ga, ns[k]).state == Opened
    requires forall j :: 0 <= j < k && At(g0, ns[j]).state == Unopened ==> At(gb, ns[j]).state == Opened
    ensures forall j :: 0 <= j < k + 1 && At(g0, ns[j]).state == Unopened ==> At(ga, ns[j]).state == Opened
  {
    forall j | 0 <= j < k + 1 && At(g0, ns[j]).state == Unopened
      ensures At(ga, ns[j]).state == Opened
    {
      if j < k {
        assert At(gb, ns[j]).state == Opened;
      }
    }
  }

  /** A bomb opened so far is one of the first k + 1 neighbours and was
      Unopened: the recursive reveal of the k-th opens no bomb but itself. */
  lemma ChordBombs(g0: Grid, gb: Grid, ga: Grid, ns: seq<Coord>, k: nat)
    requires WellFormed(g0) && WellFormed(gb) && WellFormed(ga)
    requires AllValid(ns) && k < |ns|
    requires OnlyOpens(g0, gb) && OnlyOpens(gb, ga)
    requires RevealSafe(gb, ga, ns[k].0, ns[k].1) && At(gb, ns[k]).state == Unopened
    requires forall x, y :: IsValidCoord(x, y) && NewlyOpened(g0, gb, x, y) && g0[y][x].hasBomb ==>
      (x, y) in ns[..k] && g0[y][x].state == Unopened
    ensures forall x, y :: IsValidCoord(x, y) && NewlyOpened(g0, ga, x, y) && g0[y][x].hasBomb ==>
      (x, y) in ns[..k + 1] && g0[y][x].state == Unopened
  {
    var s := ns[k];
    assert ns[..k + 1] == ns[..k] + [s];
    forall x, y | IsValidCoord(x, y) && NewlyOpened(g0, ga, x, y) && g0[y][x].hasBomb
      ensures (x, y) in ns[..k + 1] && g0[y][x].state == Unopened
    {
      if gb[y][x].state == Opened {
        assert NewlyOpened(g0, gb, x, y);
      } else if (x, y) != s {
        assert NewlyOpened(gb, ga, x, y);
        assert false;
      }
    }
  }

  lemma ChordExit(g0: Grid, g: Grid, cx: int, cy: int, ns: seq<Coord>, rank: map<Coord, nat>)
    requires WellFormed(g0) && WellFormed(g) && IsValidCoord(cx, cy)
    requires ChordInv(g0, g, cx, cy, ns, |ns|, rank)
    ensures ChordPost(g0, g, cx, cy, rank)
  {
    assert ns[..|ns|] == ns;
    forall q: Coord | IsValidCoord(q.0, q.1) && Adjacent((cx, cy), q) && At(g0, q).state == Unopened
      ensures At(g, q).state == Opened
    {
      var j :| 0 <= j < |ns| && ns[j] == q;
    }
  }

  // ---------------------------------------------------------------- reachability

  /** One step down the ranks: from key a to an adjacent key b of smaller
      rank that has no bomb around it on g. */
  ghost predicate StepDown(g: Grid, rank: map<Coord, nat>, a: Coord, b: Coord)
    requires WellFormed(g)
  {
    a in rank && b in rank && rank[b] < rank[a] && Adjacent(a, b) &&
    IsValidCoord(b.0, b.1) && CountBombs(g, b.0, b.1) == 0
  }

  /** A walk down the ranks from its first cell. */
  ghost predicate RankWalk(g: Grid, rank: map<Coord, nat>, w: seq<Coord>)
    requires WellFormed(g)
  {
    |w| >= 1 && (forall i :: 0 <= i < |w| ==> w[i] in rank) &&
    forall i, j :: 0 <= i && j == i + 1 && j < |w| ==> StepDown(g, rank, w[i], w[j])
  }

  /** A step down followed by a walk is a walk. */
  lemma WalkCons(g: Grid, rank: map<Coord, nat>, c: Coord, w: seq<Coord>)
    requires WellFormed(g) && RankWalk(g, rank, w) && StepDown(g, rank, c, w[0])
    ensures RankWalk(g, rank, [c] + w)
  {
    var w' := [c] + w;
    forall i, j | 0 <= i && j == i + 1 && j < |w'|
      ensures StepDown(g, rank, w'[i], w'[j])
    {
      if i > 0 {
        assert w'[i] == w[i - 1] && w'[j] == w[j - 1];
      }
    }
  }

  /** From every key there is a walk down the ranks to a key of rank 0. */
  lemma {:induction false} WalkDown(g: Grid, rank: map<Coord, nat>, c: Coord) returns (w: seq<Coord>)
    requires WellFormed(g) && Descends(g, rank) && c in rank
    ensures RankWalk(g, rank, w) && w[0] == c && rank[w[|w| - 1]] == 0
    decreases rank[c]
  {
    if rank[c] == 0 {
      w := [c];
    } else {
      var q :| q in rank && rank[q] < rank[c] && Adjacent(c, q) && IsValidCoord(q.0, q.1) && CountBombs(g, q.0, q.1) == 0;
      var v := WalkDown(g, rank, q);
      WalkCons(g, rank, c, v);
      w := [c] + v;
      assert w[|w| - 1] == v[|v| - 1];
    }
  }

  /** The flood fill opens only what it can reach: every cell `uncover`
      opens is joined to the clicked cell by a path of adjacent cells, each
      of which, past the first, was opened and has no bomb around it. The
      ranks are those of the uncover postcondition, which holds `Chained`
      and `RootedAt`. */
  lemma UncoverReaches(g0: Grid, g1: Grid, cx: int, cy: int, rank: map<Coord, nat>, x: int, y: int)
    requires WellFormed(g0) && WellFormed(g1) && IsValidCoord(x, y)
    requires Chained(g0, g1, rank) && RootedAt(rank, (cx, cy)) && NewlyOpened(g0, g1, x, y)
    ensures exists w: seq<Coord> :: RankWalk(g0, rank, w) && w[0] == (x, y) && w[|w| - 1] == (cx, cy)
  {
    var w := WalkDown(g0, rank, (x, y));
  }

  /** Every cell a chord opens is joined in the same way to a neighbour of
      the chorded cell that was Unopened: one the chord uncovered itself.
      The ranks are those of the chord postcondition, which holds `Chained`
      and `ChordRoots`. */
  lemma ChordReaches(g0: Grid, g1: Grid, cx: int, cy: int, rank: map<Coord, nat>, x: int, y: int)
    requires WellFormed(g0) && WellFormed(g1) && IsValidCoord(x, y)
    requires Chained(g0, g1, rank) && ChordRoots(g0, rank, cx, cy) && NewlyOpened(g0, g1, x, y)
    ensures exists w: seq<Coord> ::
      RankWalk(g0, rank, w) && w[0] == (x, y) && IsValidCoord(w[|w| - 1].0, w[|w| - 1].1) &&
      Adjacent((cx, cy), w[|w| - 1]) && At(g0, w[|w| - 1]).state == Unopened
  {
    var w := WalkDown(g0, rank, (x, y));
  }
}
