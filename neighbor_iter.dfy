/** The neighbour cursor: a centre, the index of the next offset to try,
    and the coordinates of the neighbour it yielded last. */
module NeighborIteration {
  import opened CInt
  import opened Board

  class NeighborIter {
    /** The centre, stored in `u8` fields. */
    const cx: int
    const cy: int
    /** The neighbour yielded last. */
    var x: int
    var y: int
    /** The next offset to try. */
    var i: int

    ghost predicate Valid()
      reads this
    {
      0 <= i <= 8
    }

    /** The neighbours the cursor has still to yield. */
    ghost function Remaining(): seq<Coord>
      reads this
      requires Valid()
    {
      NeighborsFrom(cx, cy, i)
    }

    /** `cell_neighbors(cx, cy)`: a cursor at the start of the offset order
        that will yield every in-bounds neighbour of the centre. */
    constructor (cx0: int, cy0: int)
      ensures Valid()
      ensures cx == U8(cx0) && cy == U8(cy0) && x == 0 && y == 0
      ensures IsValidCoord(cx0, cy0) ==> Remaining() == Neighbors(cx0, cy0)
    {
      cx := U8(cx0);
      cy := U8(cy0);
      x := 0;
      y := 0;
      i := 0;
    }

    /** `neighboriter_next`: yields the next in-bounds neighbour in offset
        order, or reports that there are none left. */
    method Next() returns (more: bool)
      requires Valid()
      modifies this
      ensures Valid()
      ensures more ==> old(Remaining()) == [(x, y)] + Remaining() && IsValidCoord(x, y)
      ensures !more ==> old(Remaining()) == [] && Remaining() == [] && x == old(x) && y == old(y)
    {
      ghost var rem := Remaining();
      while i < 8
        invariant Valid() && Remaining() == rem
        invariant x == old(x) && y == old(y)
        decreases 8 - i
      {
        more := TryOffset();
        if more {
          return;
        }
      }
      more := false;
    }

    /** One turn of the loop in `neighboriter_next`: tries the offset under
        the cursor and moves the cursor past it; the cell is kept when it
        lies on the board. */
    method TryOffset() returns (hit: bool)
      requires Valid() && i < 8
      modifies this
      ensures Valid() && i == old(i) + 1
      ensures hit ==> old(Remaining()) == [(x, y)] + Remaining() && IsValidCoord(x, y)
      ensures !hit ==> old(Remaining()) == Remaining() && x == old(x) && y == old(y)
    {
      var d := Offset(i);
      var nx := cx + d.0;
      var ny := cy + d.1;
      NeighborsFromStep(cx, cy, i, nx, ny);
      i := i + 1;
      hit := IsValidCoord(nx, ny);
      if hit {
        x := nx;
        y := ny;
      }
    }

    /** `neighboriter_reset`: rewinds the cursor, so it yields the same
        neighbours again. */
    method Reset()
      requires Valid()
      modifies this`i
      ensures Valid() && i == 0
      ensures Remaining() == NeighborsFrom(cx, cy, 0)
    {
      i := 0;
    }
  }
}
