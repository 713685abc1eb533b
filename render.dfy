/** The vertex stream a frame is made of: every quad is two triangles, six
    vertices; a cell draws its tile and at most one decoration on top. */
module Render {
  import opened Board

  datatype Vec2 = Vec2(x: real, y: real)
  datatype Color = Color(r: real, g: real, b: real, a: real)
  datatype Vertex = Vertex(pos: Vec2, uv: Vec2, color: Color)

  const CellW: int := 7
  const CellH: int := 7
  const ScreenH: int := H * CellH

  /** Capacity of the vertex buffer, `64 * 1024` vertices. */
  const VertexCapacity: int := 65536

  const White: Color := Color(1.0, 1.0, 1.0, 1.0)
  const Red: Color := Color(1.0, 0.0, 0.0, 1.0)

  function GrassColor(parity: int): Color {
    if parity == 0 then Color(0.3, 0.9, 0.3, 1.0) else Color(0.5, 1.0, 0.5, 1.0)
  }

  function DirtColor(parity: int): Color {
    if parity == 0 then Color(0.1, 0.1, 0.1, 1.0) else Color(0.3, 0.3, 0.3, 1.0)
  }

  /** Column of the digit strip that holds the mark glyph. */
  const MarkGlyph: int := 9

  /** The digit colours: white for the counts 0 to 8, magenta for the mark
      glyph 9. */
  function DigitColor(digit: int): Color
    requires 0 <= digit < 10
  {
    if digit == MarkGlyph then Color(0.9, 0.3, 0.9, 1.0) else White
  }

  /** Two triangles (x0,y0)-(x0,y1)-(x1,y1) and (x0,y0)-(x1,y0)-(x1,y1)
      sharing the diagonal, with the texture corners matching the position
      corners. */
  function Quad(x0: real, y0: real, x1: real, y1: real, u0: real, v0: real, u1: real, v1: real, color: Color): (r: seq<Vertex>)
    ensures |r| == 6
    ensures forall i :: 0 <= i < 6 ==> r[i].color == color
    ensures forall i :: 0 <= i < 6 ==> (r[i].pos.x == x0 && r[i].uv.x == u0) || (r[i].pos.x == x1 && r[i].uv.x == u1)
    ensures forall i :: 0 <= i < 6 ==> (r[i].pos.y == y0 && r[i].uv.y == v0) || (r[i].pos.y == y1 && r[i].uv.y == v1)
  {
    [ Vertex(Vec2(x0, y0), Vec2(u0, v0), color),
      Vertex(Vec2(x0, y1), Vec2(u0, v1), color),
      Vertex(Vec2(x1, y1), Vec2(u1, v1), color),
      Vertex(Vec2(x0, y0), Vec2(u0, v0), color),
      Vertex(Vec2(x1, y0), Vec2(u1, v0), color),
      Vertex(Vec2(x1, y1), Vec2(u1, v1), color) ]
  }

  /** The six vertices `draw_rect(x, y, w, h, color)` appends: a solid quad
      sampling the texture at the single point (0.4, 0). */
  function RectVerts(x: real, y: real, w: real, h: real, color: Color): (r: seq<Vertex>)
    ensures |r| == 6
    ensures forall i :: 0 <= i < 6 ==> r[i].color == color && r[i].uv == Vec2(0.4, 0.0)
    ensures forall i :: 0 <= i < 6 ==> r[i].pos.x in {x, x + w} && r[i].pos.y in {y, y + h}
  {
    Quad(x, y, x + w, y + h, 0.4, 0.0, 0.4, 0.0, color)
  }

  /** The six vertices `draw_digit(cx, cy, digit)` appends: a 3 x 5 glyph
      centred in cell (cx, cy), textured with column `digit` of the digit
      strip. */
  function DigitVerts(cx: int, cy: int, digit: int): (r: seq<Vertex>)
    requires 0 <= digit < 10
    ensures |r| == 6
    ensures forall i :: 0 <= i < 6 ==> r[i].color == DigitColor(digit)
    ensures forall i :: 0 <= i < 6 ==>
      (CellW * cx) as real < r[i].pos.x < (CellW * (cx + 1)) as real &&
      (CellH * cy) as real < r[i].pos.y < (CellH * (cy + 1)) as real
    ensures forall i :: 0 <= i < 6 ==> r[i].uv.x in {0.1 * digit as real, 0.1 * digit as real + 0.1}
  {
    var w := 3.0;
    var h := 5.0;
    var x := (cx * CellW) as real + (CellW as real - w) / 2.0;
    var y := (cy * CellH) as real + (CellH as real - h) / 2.0;
    var u := 0.1 * digit as real;
    Quad(x, y, x + w, y + h, u, 0.0, u + 0.1, 1.0, DigitColor(digit))
  }

  // ---------------------------------------------------------------- draw flags

  const FlagGrass: bv8 := 1
  const FlagDirt: bv8 := 2
  const FlagDigit: bv8 := 4
  const FlagBomb: bv8 := 8
  const FlagMark: bv8 := 16

  /** Which layers a cell is drawn with: grass while covered, dirt once
      opened, and on top the mark, the bomb, or the neighbour count. */
  function GetDrawFlags(c: Cell): (f: bv8)
    ensures (f & FlagGrass != 0) <==> c.state != Opened
    ensures (f & FlagDirt != 0) <==> c.state == Opened
    ensures (f & FlagMark != 0) <==> c.state == Marked
    ensures (f & FlagBomb != 0) <==> c.state == Opened && c.hasBomb
    ensures (f & FlagDigit != 0) <==> c.state == Opened && !c.hasBomb
  {
    match c.state
    case Unopened => FlagGrass
    case Marked => FlagGrass | FlagMark
    case Opened => if c.hasBomb then FlagDirt | FlagBomb else FlagDirt | FlagDigit
  }

  lemma AppendAssoc<T>(a: seq<T>, b: seq<T>, c: seq<T>)
    ensures (a + b) + c == a + (b + c)
  {
  }

  /** A layer drawn only when its flag is set. */
  function Layer(on: bool, vs: seq<Vertex>): (r: seq<Vertex>)
    ensures |r| == if on then |vs| else 0
  {
    if on then vs else []
  }

  /** The tile layers of a cell at pixel (x, y): grass, then dirt. */
  function TileVerts(f: bv8, x: real, y: real, parity: int): (r: seq<Vertex>)
    ensures (f & FlagGrass != 0) != (f & FlagDirt != 0) ==> |r| == 6
  {
    Layer(f & FlagGrass != 0, RectVerts(x, y, CellW as real, CellH as real, GrassColor(parity))) +
    Layer(f & FlagDirt != 0, RectVerts(x, y, CellW as real, CellH as real, DirtColor(parity)))
  }

  /** The decorations of cell (cx, cy) at pixel (x, y): the count n, the
      bomb, then the mark. */
  function DecorVerts(f: bv8, cx: int, cy: int, x: real, y: real, n: int): (r: seq<Vertex>)
    requires 0 <= n < 10
  {
    Layer(f & FlagDigit != 0, DigitVerts(cx, cy, n)) +
    Layer(f & FlagBomb != 0, RectVerts(x + 1.0, y + 1.0, 5.0, 5.0, Red)) +
    Layer(f & FlagMark != 0, DigitVerts(cx, cy, MarkGlyph))
  }

  /** The vertices `draw_cell(cx, cy)` appends for the draw flags f, layer
      by layer in the order grass, dirt, digit, bomb, mark; n is the
      neighbour count the digit layer shows. */
  function LayersVerts(f: bv8, cx: int, cy: int, n: int): seq<Vertex>
    requires 0 <= n < 10
  {
    var x := (cx * CellW) as real;
    var y := (cy * CellH) as real;
    TileVerts(f, x, y, (cx + cy) % 2) + DecorVerts(f, cx, cy, x, y, n)
  }

  /** The vertices of cell (cx, cy): a covered tile is one quad, an opened
      or marked one two, and the bottom quad is the tile's grass or dirt. */
  function CellVerts(g: Grid, cx: int, cy: int): (r: seq<Vertex>)
    requires WellFormed(g) && IsValidCoord(cx, cy)
    ensures |r| == if g[cy][cx].state == Unopened then 6 else 12
    ensures r[0].color == if g[cy][cx].state == Opened then DirtColor((cx + cy) % 2) else GrassColor((cx + cy) % 2)
  {
    LayersVerts(GetDrawFlags(g[cy][cx]), cx, cy, CountBombs(g, cx, cy))
  }

  // ---------------------------------------------------------------- the board pass

  /** The vertices of cells 0 .. n-1 of row cy, drawn left to right. */
  function RowVerts(g: Grid, cy: int, n: nat): (r: seq<Vertex>)
    requires WellFormed(g) && 0 <= cy < H && n <= W
    ensures |r| == 6 * n + 6 * ShownInRow(g, cy, n)
  {
    if n == 0 then [] else RowVerts(g, cy, n - 1) + CellVerts(g, n - 1, cy)
  }

  /** The vertices of rows 0 .. m-1, drawn top to bottom. */
  function RowsVerts(g: Grid, m: nat): (r: seq<Vertex>)
    requires WellFormed(g) && m <= H
    ensures |r| == 6 * W * m + 6 * ShownInRows(g, m)
  {
    if m == 0 then [] else RowsVerts(g, m - 1) + RowVerts(g, m - 1, W)
  }

  /** The board part of a frame: every cell, in row-major order. */
  function BoardVerts(g: Grid): seq<Vertex>
    requires WellFormed(g)
  {
    RowsVerts(g, H)
  }

  /** Number of cells among the first n of row cy that are not Unopened. */
  function ShownInRow(g: Grid, cy: int, n: nat): (r: nat)
    requires WellFormed(g) && 0 <= cy < H && n <= W
    ensures r <= n
  {
    if n == 0 then 0 else ShownInRow(g, cy, n - 1) + (if g[cy][n - 1].state != Unopened then 1 else 0)
  }

  /** Number of cells in rows 0 .. m-1 that are not Unopened. */
  function ShownInRows(g: Grid, m: nat): (r: nat)
    requires WellFormed(g) && m <= H
    ensures r <= W * m
  {
    if m == 0 then 0 else ShownInRows(g, m - 1) + ShownInRow(g, m - 1, W)
  }

  /** The cells that are Marked or Opened, as a set. */
  ghost function Shown(g: Grid): set<Coord>
    requires WellFormed(g)
  {
    set x, y | 0 <= x < W && 0 <= y < H && g[y][x].state != Unopened :: (x, y)
  }

  /** A covered tile costs one quad and an opened or marked one two, so the
      board part of a frame has 2400 + 6 * (shown cells) vertices, at most
      4800. */
  lemma BoardVertsLength(g: Grid)
    requires WellFormed(g)
    ensures |BoardVerts(g)| == 6 * W * H + 6 * ShownInRows(g, H)
    ensures 6 * W * H <= |BoardVerts(g)| <= 12 * W * H
  {
  }

  /** The recursive count of shown cells is the size of the set of shown
      cells. */
  lemma ShownInRowsIsCard(g: Grid)
    requires WellFormed(g)
    ensures ShownInRows(g, H) == |Shown(g)|
  {
    ShownInRowsCard(g, H);
  }

  ghost function ShownBelow(g: Grid, m: nat): set<Coord>
    requires WellFormed(g) && m <= H
  {
    set x, y | 0 <= x < W && 0 <= y < m && g[y][x].state != Unopened :: (x, y)
  }

  ghost function ShownInRowSet(g: Grid, cy: int, n: nat): set<Coord>
    requires WellFormed(g) && 0 <= cy < H && n <= W
  {
    set x | 0 <= x < n && g[cy][x].state != Unopened :: (x, cy)
  }

  lemma {:induction false} ShownInRowCard(g: Grid, cy: int, n: nat)
    requires WellFormed(g) && 0 <= cy < H && n <= W
    ensures ShownInRow(g, cy, n) == |ShownInRowSet(g, cy, n)|
  {
    if n > 0 {
      ShownInRowCard(g, cy, n - 1);
      if g[cy][n - 1].state != Unopened {
        assert ShownInRowSet(g, cy, n) == ShownInRowSet(g, cy, n - 1) + {(n - 1, cy)};
      } else {
        assert ShownInRowSet(g, cy, n) == ShownInRowSet(g, cy, n - 1);
      }
    } else {
      assert ShownInRowSet(g, cy, 0) == {};
    }
  }

  lemma {:induction false} ShownInRowsCard(g: Grid, m: nat)
    requires WellFormed(g) && m <= H
    ensures ShownInRows(g, m) == |ShownBelow(g, m)|
  {
    if m > 0 {
      ShownInRowsCard(g, m - 1);
      ShownInRowCard(g, m - 1, W);
      var a := ShownBelow(g, m - 1);
      var b := ShownInRowSet(g, m - 1, W);
      assert ShownBelow(g, m) == a + b;
      assert a * b == {};
    } else {
      assert ShownBelow(g, 0) == {};
    }
    if m == H {
      assert ShownBelow(g, H) == Shown(g);
    }
  }
}
