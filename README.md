# pixelsweeper core, modelled in Dafny

A model of `main.c` from pixelsweeper, a 20 x 20 Minesweeper that runs as
WebAssembly. The model covers the whole simulation-and-render core:

- the board of cells and the cell state machine (right-click marking, left-click dispatch);
- the neighbour cursor `NeighborIter` and the bomb count it drives;
- the recursive flood-fill `uncover` and the `chord` action;
- the pseudo-random byte generator and bomb placement in `initialize`;
- the particle pool with its free-slot stack;
- the vertex buffer that `next_frame` fills: the board first, then the particles.

Modules:

| module | file | contents |
|---|---|---|
| `CInt` | `cint.dfy` | the `i32` range, the `u8` conversion, C's truncating `%` |
| `Board` | `board.dfy` | cells, board snapshots (`seq<seq<Cell>>`, indexed `g[y][x]`), the neighbour scan, bomb counts, and the predicates that say what a reveal and a chord do |
| `Rng` | `rng.dfy` | the recurrence `seed := (seed * 13 + 17) % 269` and the byte it yields |
| `Render` | `render.dfy` | vertices, quads, draw flags, and the vertices of a cell, a row and the board |
| `Particles` | `particles.dfy` | one particle's spawn and update, the vertices it draws, and the free-stack invariant of the pool |
| `Bursts` | `burst.dfy` | the ten particles `uncover` spawns per opened cell, as a function of the pool, the stack and the seed |
| `Reveals` | `reveal.dfy` | what a whole reveal does to the pool and the generator: live particles stay, each new one belongs to the burst of an opened cell, and the generator steps twenty times per opened cell |
| `NeighborIteration` | `neighbor_iter.dfy` | the `NeighborIter` cursor as a class |
| `Game` | `game.dfy` | the global state as one class `Game`, whose methods are the C functions that change it |

The global state maps to the `Game` class like this:

- The C globals `board`, `particles`, `particles_slots` and `vertices` are arrays of the class, with their C sizes.
- `particles_len`, `particles_slots_len`, `vertices_count` and `rand_seed` are `int` fields.
- `Valid()` is the class invariant: the free-stack holds exactly the removed entries in use, each once, and every count stays inside its array.
- Each imperative method has a ghost specification function: `Cells()`, `Pool()`, `Stack()` or `Contents()` gives the state it is proved against.
- Floats are modelled as `real`.

Two behaviours of the code are easy to misread. The model follows the code:

- **Marked cells are revealed.** `uncover` (main.c:334) only skips cells that are already Opened. A Marked cell is therefore opened by a direct click and by a cascade. It is not left alone.
- **The seed, not the byte, can leave [0, 269).** `rand_byte` (main.c:189-194) returns the new seed converted to `u8`, so every byte lies in [0, 256); the seeds 256..268 give 0..12.
  - From a seed of -1 or more, `seed * 13 + 17` is positive and every later seed lies in [0, 269).
  - From a seed below -1 that sum is negative. C's `%` truncates toward zero, so the new seed is a remainder in (-269, 0].
  - Its byte is that remainder taken modulo 256 (`CInt.U8`): a remainder of 0 gives 0, -256..-1 give the remainder plus 256, and -268..-257 give the remainder plus 512.
  - Such seeds do occur: `main.js` passes `Math.floor(Math.random() * (1 << 31))`, and `1 << 31` is negative in JavaScript, so the first seed is 0 or negative.
- **A reveal spreads only through cells with no bomb around them.** A cell is opened either because it was clicked or because it is next to an opened cell whose count is zero. The ghost `rank` map that `Uncover` and `Chord` return records this: it numbers every newly opened cell, and each cell of positive rank is next to a cell of smaller rank whose count is zero.

## Model

| member | source | states |
|---|---|---|
| CInt.U8 | main.c:189-194 | converting to `u8` keeps the value modulo 256, in [0, 256): it is unchanged on 0..255, loses 256 on 256..511, gains 256 on -256..-1 and gains 512 on -512..-257 |
| CInt.CRem | main.c:192 | C's `%` by a positive divisor: the Euclidean remainder for a non-negative operand; for a negative one, the negated remainder of its absolute value, in (-m, 0] |
| Rng.NextSeed | main.c:189-194 | the next seed lies in (-269, 269); from a seed >= -1 it is `(13 * seed + 17) mod 269` in [0, 269); from a smaller seed it is the negated remainder; the recurrence never overflows `i32` again |
| Rng.ByteOf | main.c:189-194 | the returned byte is in [0, 256): the seed itself on 0..255, the seed minus 256 on 256..268, the seed plus 256 on -256..-1 and the seed plus 512 on -268..-257 |
| Rng.SeedAfter | main.c:189-194 | every seed the generator reaches from a bounded seed is bounded again, so the recurrence never overflows `i32` |
| Rng.SeedAfterInRange | main.c:189-194 | from a seed >= -1, every later seed lies in [0, 269) |
| Rng.SeedAfterAdd | main.c:189-194 | a steps of the generator followed by b more are a + b steps |
| Rng.FixedSeeds | main.c:192 | a seed is its own successor exactly when it is 21 or -248 |
| Rng.SeedAfterFixed | main.c:192 | from such a fixed seed the generator never moves, however many steps it takes |
| Board.CellStateAfterMark | main.c:348-357 | the result is Opened exactly when the input is; any other state changes, so Unopened and Marked swap |
| Board.ValidCoordIsIndex | main.c:123-127 | `is_valid_coord` holds exactly for the indices of a cell of the 20 x 20 board, and every such coordinate fits in a `u8` |
| Board.EmptyGrid | main.c:407-411 | the cleared board is well formed, with every cell Unopened and without a bomb |
| Board.MarkTwiceIsIdentity | main.c:348-357 | applying the mark transition twice gives back the original state |
| Board.ToggleMark | main.c:386-390 | a right click sets the clicked cell's state to the mark transition of its old state, keeps its bomb, and leaves every other cell as it was |
| Board.ToggleMarkTwice | main.c:386-390 | two right clicks on the same cell restore the board |
| Board.ToggleMarkKeepsCounts | main.c:386-390 | a right click changes no cell's count of neighbouring bombs |
| Board.Offset | main.c:131-135 | each entry of the offset table is one of the eight cells adjacent to the origin |
| Board.OffsetIndex | main.c:131-135 | the position of a displacement in the table is below 8 exactly when the displacement is adjacent to the origin |
| Board.OffsetIndexOf | main.c:131-135 | looking up the i-th offset gives back i |
| Board.OffsetAt | main.c:131-135 | every adjacent displacement is in the table at its index, so the table lists all eight, each once |
| Board.OffsetsRowMajor | main.c:131-135 | the table is in row-major order |
| Board.NeighborsFrom | main.c:129-148 | a cursor at offset i has at most 8 - i neighbours left to yield |
| Board.NeighborsFromStep | main.c:137-146 | one turn of the scan loop yields the cell at the current offset exactly when that cell is on the board, and skips it otherwise |
| Board.NeighborsFromSound | main.c:129-148 | every cell the scan yields from offset i is on the board, at one of the offsets i..7 from the centre |
| Board.NeighborsFromSorted | main.c:129-148 | the scan yields cells in strictly increasing row-major order |
| Board.NeighborsFromComplete | main.c:129-148 | the scan from offset i yields every on-board cell at a later offset |
| Board.NeighborsFromLength | main.c:129-148 | the number of cells yielded equals the number of offsets from i on that land on the board |
| Board.Neighbors | main.c:156-160 | a fresh cursor yields at most 8 cells, all on the board and adjacent to the centre, so never the centre itself |
| Board.NeighborsSorted | main.c:129-160 | a fresh cursor yields its cells in row-major order, so none twice |
| Board.NeighborsExactly | main.c:123-160 | a cell is yielded if and only if it is on the board and adjacent to the centre |
| Board.NeighborsSymmetric | main.c:123-160 | if a is yielded around b, then b is yielded around a |
| Board.NeighborCount | main.c:123-160 | the number of neighbours is the product of the in-bounds spans of the row and the column, minus one |
| Board.CornerEdgeInteriorCounts | main.c:123-160 | a corner cell has 3 neighbours, an edge cell 5 and an interior cell 8 |
| Board.CountBombs | main.c:289-299 | the bomb count is at most 8 |
| Board.CountMarked | main.c:362-367 | the count of Marked neighbours is at most 8 |
| Board.CountBombsInIsCard | main.c:289-299 | counting bombs along a list in row-major order gives the number of distinct bombed cells in the list |
| Board.CountBombsIsAdjacentBombs | main.c:289-299 | the count is the number of bombed on-board cells adjacent to the centre; the centre's own bomb is never among them |
| Board.CountBombsIgnoresCentre | main.c:289-299 | two boards that agree on the bombs of the adjacent cells give the same count, whatever the centre holds |
| Board.CountsStable | main.c:289-299 | boards with the same bombs give every cell the same count |
| Board.PlaceBomb | main.c:244 | the bomb is set on the chosen cell, which keeps its state; every other cell is unchanged |
| Board.PlaceBombAdds | main.c:238-245 | putting a bomb on a cell without one adds exactly that cell to the set of bombs, so the bomb count grows by one |
| Board.BombSetGrows | main.c:238-245 | a board that keeps every bomb of another has a superset of its bombs |
| Board.UncoverLeaf | main.c:336-340 | when the opened cell has a bomb around it, only that cell opens, and the uncover postcondition holds with that cell alone at rank 0 |
| Board.ClosedTrans | main.c:341-345 | the flood-fill completeness property is kept across two reveals in a row |
| Board.MergeChained | main.c:341-345 | the rank witnesses of two reveals in a row combine into one: the first's ranks stay, the second's are raised by d, and the result covers exactly the cells opened by either |
| Board.CascadeChained | main.c:341-345 | after the cascade uncovers a neighbour, every cell it opened is still tied to the click, with the neighbour hanging off the zero-count centre |
| Board.ChordChained | main.c:370-374 | after the chord uncovers a neighbour, every cell it opened is still tied to an Unopened neighbour of the chorded cell |
| Board.WalkDown | main.c:341-345 | from every cell a reveal opened there is a walk of adjacent cells, each after the first with no bomb around it, down to a cell the reveal started from |
| Board.UncoverReaches | main.c:331-346 | every cell `uncover` opens is joined to the clicked cell by such a walk, so no cell cut off from the click by counts above zero is opened |
| Board.ChordReaches | main.c:359-375 | every cell a chord opens is joined by such a walk to a neighbour of the chorded cell that was Unopened |
| Board.CascadeExit | main.c:341-345 | once every neighbour has been visited, the cascade has established the full uncover postcondition, ranks included |
| Board.ChordMismatch | main.c:367-369 | when the marks do not match the bomb count, the unchanged board satisfies the chord postcondition with no ranks |
| Board.ChordExit | main.c:370-374 | once the second pass has visited every neighbour, the chord postcondition holds, ranks included |
| Board.MergeSize | main.c:341-345 | two reveals in a row open disjoint sets of cells, so the merged ranks have the keys of both and as many keys as both together |
| Board.ChainedKeys | main.c:331-346 | the keys of a reveal's ranks are exactly the cells covered before it and opened after it |
| Board.StillCovered | main.c:331-346 | a step that only opens cells leaves a subset of the covered cells covered |
| Board.ChainedCount | main.c:331-346 | a reveal's ranks have one key per opened cell: their number is the drop in the number of covered cells |
| Render.Quad | main.c:174-187 | a quad is 6 vertices of one colour, each at one of the two x corners with that corner's u, and likewise for y and v |
| Render.RectVerts | main.c:174-187 | `draw_rect` gives 6 vertices, of the rectangle's colour and the fixed texture coordinate (0.4, 0), at its corners |
| Render.DigitVerts | main.c:248-272 | `draw_digit` gives 6 vertices in the digit's colour, strictly inside the cell, whose u is 0.1 * digit or 0.1 * digit + 0.1 |
| Render.GetDrawFlags | main.c:301-311 | grass exactly when not Opened, dirt exactly when Opened, mark exactly when Marked, bomb exactly when Opened with a bomb, digit exactly when Opened without one |
| Render.TileVerts | main.c:319-322 | with exactly one of grass and dirt set, the tile layer is one quad |
| Render.CellVerts | main.c:313-329 | a cell draws 6 vertices when Unopened and 12 otherwise, and the first quad is the grass or dirt colour of its checkerboard parity |
| Render.RowVerts | main.c:419-423 | the first n cells of a row draw 6 vertices each, plus 6 more per cell that is not Unopened |
| Render.RowsVerts | main.c:419-423 | the first m rows draw 6 * 20 * m vertices, plus 6 more per cell that is not Unopened |
| Render.BoardVertsLength | main.c:418-423 | the board part of a frame has 2400 + 6 * (cells not Unopened) vertices, between 2400 and 4800 |
| Render.ShownInRowsIsCard | main.c:418-423 | the row-by-row count of cells that are not Unopened is the size of the set of such cells |
| Particles.Spawned | main.c:196-206 | a new particle starts at (x, y) in the given colour, not removed, with sideways speed in [-1, 1] and vertical speed in [-2, 0]; its sideways speed is zero only if twice the first byte were 255, which no byte is, so it always drifts |
| Particles.Advance | main.c:218-231 | a removed entry is left alone; a live one moves by its velocity, then its vertical velocity grows by 0.1, and it becomes removed exactly when it is now more than 10 below the screen |
| Particles.ParticleVerts | main.c:220-231 | an entry draws one quad in its own colour if it is still live after its update, and nothing otherwise |
| Particles.AdvanceAll | main.c:215-233 | the update pass advances every entry in use, each by itself |
| Particles.ExpiredOffScreen | main.c:226 | the expiry test drops only particles below the screen, and keeps every particle up to 10 pixels below it |
| Particles.Expiring | main.c:226-228 | the indices pushed onto the free stack are exactly the live entries that the pass removes, in increasing order, no more of them than there were live entries |
| Particles.PoolVertsLength | main.c:215-233 | removed particles are never drawn: the pass draws 6 vertices per entry that is live after it |
| Particles.SpawnReuseValid | main.c:207-209 | reusing the top free slot for a new particle keeps the free-stack invariant |
| Particles.SpawnAppendValid | main.c:210-212 | appending a new particle when no slot is free keeps the free-stack invariant |
| Particles.Store | main.c:207-212 | storing a live particle keeps the free-stack invariant, keeps every live entry, puts the particle only in a removed or new entry, grows the pool by at most one entry and makes exactly one more entry live |
| Particles.UpdateValid | main.c:215-233 | the update pass keeps the free-stack invariant |
| Particles.StackSize | main.c:94-97 | under the invariant, the free stack is as long as the number of removed entries in use |
| Bursts.BurstAt | main.c:337-338 | the k-th particle of a burst is live and starts at the burst's position in its colour with the velocity bounds of `particle_spawn` |
| Bursts.Burst | main.c:337-338 | k particles stored in turn keep the free-stack invariant; the pool grows by at most k entries and k more entries are in use than are free; every live entry stays; every entry the burst fills, new or reused, is a particle at the burst's position, in its colour, drifting sideways by at most one and rising by at most two per frame |
| Bursts.BurstNext | main.c:196-212 | one more `particle_spawn` from the pool, stack and seed that i particles leave stores the particle drawn from the next two seeds, giving the burst of i + 1, and leaves the seed 2(i + 1) steps on |
| Bursts.BurstLive | main.c:337-338 | after a burst of k, exactly k more entries are live |
| Reveals.CellAt | main.c:337-338 | the cell whose corner a burst starts at: a position at (7x, 7y) gives back (x, y) |
| Reveals.BurstRevealed | main.c:334-338 | opening one cell keeps the live particles and adds only burst particles at that cell's corner, so its pool is revealed by the single rank of that cell |
| Reveals.RevealedThrough | main.c:339-345 | two steps of a reveal compose: live particles stay, and every new one belongs to a cell among the ranks |
| Reveals.RevealedMerge | main.c:341-345 | a sub-reveal's particles and seed steps combine with those before it under the merged ranks, twenty steps per opened cell |
| Reveals.SeedsAdd | main.c:337-338 | twenty steps per cell for a cells and then for b cells are twenty steps per cell for a + b cells |
| NeighborIteration.NeighborIter.constructor | main.c:156-160 | `cell_neighbors` stores the centre as `u8` with the cursor at the first offset; for an on-board centre it will yield exactly the centre's neighbours |
| NeighborIteration.NeighborIter.Next | main.c:129-148 | `neighboriter_next` yields the next neighbour still to come, which is on the board, and drops it from the remaining ones; it reports false, keeping x and y, only when none remain |
| NeighborIteration.NeighborIter.TryOffset | main.c:137-146 | one loop turn advances the cursor; it yields the cell at the current offset exactly when it is on the board |
| NeighborIteration.NeighborIter.Reset | main.c:150-154 | `neighboriter_reset` rewinds the cursor, so it yields the same neighbours again |
| Game.DrawnCell | main.c:240-242 | the t-th draw of `place_bombs` is always a cell on the board |
| Game.StopTry | main.c:239-243 | the try at which the draw loop stops: the first try whose cell has no bomb, or fuel + 1 when every try up to the fuel hit a bomb |
| Game.Placed | main.c:235-246 | the board, seed and outcome of `place_bombs`, which stays a well-formed board and a bounded seed |
| Game.PlacedStates | main.c:235-246 | placing bombs changes no cell's state and removes no bomb |
| Game.PlacedBombs | main.c:235-246 | when no draw runs out of fuel, placing n bombs adds exactly n cells to the set of bombs |
| Game.FixedDraws | main.c:240-242 | from a fixed seed every draw picks the same cell |
| Game.StuckPlacement | main.c:235-246 | from a fixed seed, `place_bombs` of two or more bombs (or of one, once the drawn cell has a bomb) never completes, whatever the fuel |
| Game.StuckSeeds | main.c:403-413 | `initialize` from the seed 21 or -248 never places its 40 bombs, whatever the fuel |
| Game.Game.constructor | main.c:89-98 | the zero-initialised globals: every cell Unopened without a bomb, an empty pool, stack and vertex buffer, and seed 0 |
| Game.Game.RandByte | main.c:189-194 | `rand_byte` steps the seed once and returns the byte of the new seed |
| Game.Game.ParticleSpawn | main.c:196-213 | with a free slot, the stack shrinks by one and the particle replaces the popped entry while `particles_len` stays; without one, the stack stays empty and the particle is appended; in both cases the pool and stack become `Store` of the particle drawn from the next two bytes; the generator steps twice; the invariant is kept |
| Game.Game.StoreParticle | main.c:207-212 | stores a live particle in the popped free slot or at the end, so the pool and stack become `Store` of it, keeping the free-stack invariant |
| Game.Game.ParticlesUpdateAndDraw | main.c:215-233 | the pool becomes its advanced image; the newly removed indices are pushed in order; the buffer gains the quads of the particles still live; the invariant is kept |
| Game.Game.UpdatePass | main.c:218-232 | the loop advances every entry in use, pushes the expiring indices and appends the quads of the live ones |
| Game.Game.UpdateParticle | main.c:219-231 | one entry is advanced and no other entry changes; its index is pushed if it expires; its quad is appended if it is still live |
| Game.Game.PushSlot | main.c:227 | pushes one index onto the free stack |
| Game.Game.PushVert | main.c:164-172 | below capacity, appends exactly one vertex with the given position, texture coordinate and colour |
| Game.Game.PushQuad | main.c:174-187 | appends the six vertices of a quad |
| Game.Game.DrawRect | main.c:174-187 | `draw_rect` appends exactly the 6 vertices of the rectangle |
| Game.Game.DrawDigit | main.c:248-272 | `draw_digit` appends exactly the 6 vertices of the digit glyph |
| Game.Game.CountSurroundingBombs | main.c:289-299 | returns the number of bombs among the neighbours on the current board |
| Game.Game.DrawCell | main.c:313-329 | `draw_cell` appends exactly the cell's vertices: 6 for an Unopened cell, 12 otherwise |
| Game.Game.DrawTile | main.c:319-322 | appends the single grass or dirt quad |
| Game.Game.DrawDecor | main.c:323-328 | appends the digit, bomb or mark glyph that the flags select, with the live bomb count as the digit |
| Game.Game.DrawCount | main.c:323-324 | appends the digit quad of the cell's current bomb count |
| Game.Game.Uncover | main.c:331-346 | Only cells become Opened, and no bomb moves. The clicked cell ends Opened. Nothing changes when it was already Opened, neither the board nor the pool nor the seed. When it has a bomb around it, no other cell changes. Every cell opened with no bomb around it has all its bomb-free neighbours opened. No opened cell but the clicked one holds a bomb. The returned ranks cover exactly the newly opened cells; only the clicked cell has rank 0, and every other one is next to a cell of smaller rank with no bomb around it, so nothing is opened that the flood fill cannot reach from the click. Ten particles are used per opened cell. Every live particle stays; every entry that becomes live is a White particle at (7x, 7y) for a cell (x, y) of the ranks, with the `particle_spawn` velocity bounds; the generator steps 20 times per opened cell. |
| Game.Game.UncoverCovered | main.c:334-345 | `uncover` of a cell that is not Opened: the uncover postcondition with its ranks, ten particles per opened cell, and the particles and seed revealed by those ranks |
| Game.Game.OpenCell | main.c:334-338 | opens one covered cell, changes no other, and uses ten particles; the generator steps twenty times and the pool becomes the burst of ten white particles at the cell's corner; the number of covered cells drops by one, which is the recursion's measure |
| Game.Game.Spread | main.c:339-345 | once the cell is open, the rest of `uncover` establishes the uncover postcondition with its ranks and uses ten particles per further opened cell; measured from the pool and seed before the cell was opened, live particles stay, every new one belongs to the burst of a cell of the ranks, and the generator has stepped 20 times per rank |
| Game.Game.Cascade | main.c:341-345 | visiting every neighbour of a zero-count cell completes the uncover postcondition, and the pool and seed stay revealed by the growing ranks |
| Game.Game.SpawnBurst | main.c:337-338 | the pool and stack become `Burst` of ten white particles at (cx * 7, cy * 7) with the generator's next twenty seeds, so the live entries stay, each new live entry is such a particle, and ten more entries are live; the room drops by ten |
| Game.Game.BurstOne | main.c:337-338 | one more particle of the burst: the pool and stack go from `Burst` of i to `Burst` of i + 1 and the generator steps twice |
| Game.Game.Chord | main.c:359-375 | Only cells become Opened, and every reveal it starts is complete. If the marks do not match the bomb count, nothing changes: board, pool and seed. If they match, every neighbour that was Unopened ends Opened. A bomb is opened only if it was an Unopened neighbour. The returned ranks cover exactly the newly opened cells; the cells of rank 0 are Unopened neighbours of the chorded cell, and every other one is next to a cell of smaller rank with no bomb around it. Every live particle stays; every entry that becomes live is a White burst particle at the corner of a cell of the ranks; the generator steps 20 times per opened cell. |
| Game.Game.CountMarks | main.c:362-367 | the first pass counts exactly the Marked neighbours |
| Game.Game.ChordLoop | main.c:370-374 | the second pass uncovers each neighbour that is Unopened when reached, keeping the chord invariant, ranks included, to the end; the pool and seed stay revealed by the ranks: live particles stay, new ones belong to the bursts of ranked cells, 20 generator steps per rank |
| Game.Game.HandleLmb | main.c:377-384 | a left click on an Opened cell meets the chord postcondition, and on any other cell the uncover postcondition, each with the ranks that tie every newly opened cell to the click; on an Opened cell whose marks do not match its bomb count, board, pool, stack and seed stay as they were; in every case live particles stay, each new live one is a White burst particle at the corner of a cell of the ranks, and the generator steps 20 times per opened cell |
| Game.Game.HandleRmb | main.c:386-390 | a right click replaces the board by its toggled image: only the clicked cell's state changes |
| Game.Game.Initialize | main.c:403-413 | the board, the seed and the outcome are `Placed` on the cleared board from the given seed with 40 bombs, so the layout is determined by the seed; every cell ends Unopened; when the draws do not run out of fuel, exactly 40 distinct cells hold bombs |
| Game.Game.PlaceBombs | main.c:235-246 | the board, the seed and the outcome are `Placed` of the old board and seed; no state changes and no bomb is removed; on completion the number of bombs has grown by exactly n |
| Game.Game.PlaceOne | main.c:239-244 | the chosen cell is the draw at the stopping try `StopTry` and the generator has stepped twice per try; a bomb is put on it exactly when it had none, changing nothing else, and otherwise nothing changes |
| Game.Game.AddBomb | main.c:244 | sets the bomb of one cell, changing nothing else |
| Game.Game.DrawFreeCell | main.c:240-243 | the loop draws two bytes per try and stops at `StopTry`, the first drawn cell without a bomb: every earlier draw hit a bomb, and the generator has stepped twice per try |
| Game.Game.DrawOnce | main.c:241-242 | one try draws the cell `DrawnCell` of the next two seeds and steps the generator twice |
| Game.Game.NextFrame | main.c:415-427 | The buffer holds the board's vertices, then the vertices of the particles still live. The pool and stack are updated as by `particles_update_and_draw`. The returned count is 2400 + 6 * (cells not Unopened) + 6 * (live particles), which stays within the 65536 capacity. |
| Game.Game.DrawBoard | main.c:418-423 | the buffer is reset and then holds exactly the board's vertices in row-major order, 2400 + 6 * (cells not Unopened) of them |
| Game.Game.DrawRows | main.c:419-423 | the outer loop draws every row, top to bottom |
| Game.Game.DrawRow | main.c:420-422 | the inner loop appends one row's cells, left to right |

## Left out

- `on_mouse_click` (main.c:394-401) is not modelled. Its conversion of a float pixel position to a `u8` cell index is a float cast.
- HandleLmb: requires an on-board cell, which `on_mouse_click` does not check. The C code then reads outside the board.
- HandleRmb: requires an on-board cell, for the same reason.
- `draw_grid` (main.c:274-287) is never called.
- The unused `timestamp` argument of `next_frame` is not modelled.
- `main.js` is not part of this model: it holds the WebGL and DOM host code.
- `abort` and `assert` (main.c:102-115) are not modelled. Each place a capacity assertion could fail is a precondition instead.
  - PushVert: requires room for one more vertex.
  - ParticleSpawn: requires a free slot or room in the array, a check the C code lacks.
- The `default: abort()` case of `cellstate_after_mark` cannot be reached, because `CellState` has only three values in the model.
- Floats are modelled as exact `real`s. `f32` rounding is not modelled.
  - Positions, velocities, gravity and the expiry test `pos.y > 150` are computed exactly.
  - Colours and texture coordinates are stated as values; no rounding is applied to them.
- Uncover: requires pool room for ten particles per cell that is not Opened. This is more than the source, which needs room only for the cells the reveal actually opens.
- Chord: requires the same pool room as Uncover, for the same reason.
- HandleLmb: requires the same pool room as Uncover, for the same reason.
- Initialize: takes a fuel bound and reports whether the bomb draws finished.
  - The `do … while` of `place_bombs` does not always end. The seeds 21 and -248 are fixed points of the generator (`Rng.FixedSeeds`): from them every try draws the same cell, so once that cell has a bomb the loop never stops (`Game.StuckPlacement`), and `initialize` from either seed never places a second bomb (`Game.StuckSeeds`). The fuel bound stands in for that endless loop.
  - When the fuel runs out, the model stops with fewer than 40 bombs, where the C loop would keep drawing.
  - The same applies to PlaceBombs and DrawFreeCell.
- Initialize: requires a seed for which `seed * 13 + 17` does not overflow `i32`. C's signed overflow is undefined, so it is excluded.
- RandByte: requires the same bounded seed as Initialize; every seed after the first step satisfies it.
- PlaceBombs: takes its count as an `int` rather than a `u8`; the only caller passes 40.
- NeighborIteration.NeighborIter.constructor: keeps the yielded cell `x, y` as `int` rather than `u8`. Every yielded cell is on the board, so the values agree.
- Particles.Advance: is stated on exact reals. It does not model that `f32` addition of the velocity may round.
