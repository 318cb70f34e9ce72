/**
 * Collision detection of the tank game (examples/tanks/collision.js).
 *
 * `getNearestCollision` gathers the overlaps of a box with the world's tanks
 * (player first, then the enemies in list order) and with the bricks in the
 * grid cells the box spans (row by row), then sorts them and returns the
 * first. `checkCollision` uses it on the projected and on the current box
 * to decide which entity is hit and how far a move may go.
 *
 * The gathering is modelled twice: as the loops of the source
 * (`GetNearestCollision`) and as recursive definitions over prefixes
 * (`Gather`), which the lemmas below reason about.
 */
module Collision {
  import opened Common
  import opened BBox
  import opened Entities
  import opened World

  /** A collision event: the fields of the overlap spread into it, plus the other entity. */
  datatype Event = Event(overlap: Overlap, entity: EntityRef)

  /** A JavaScript number as far as the collision code needs it: a real or NaN. */
  datatype Number = NaN | Num(v: real)

  function Plus(a: Number, b: Number): Number
  {
    if a.NaN? || b.NaN? then NaN else Num(a.v + b.v)
  }

  function Minus(a: Number, b: Number): Number
  {
    if a.NaN? || b.NaN? then NaN else Num(a.v - b.v)
  }

  function Times(a: Number, b: Number): Number
  {
    if a.NaN? || b.NaN? then NaN else Num(a.v * b.v)
  }

  /** `a < b`; every comparison with NaN is false. */
  predicate Less(a: Number, b: Number)
  {
    a.Num? && b.Num? && a.v < b.v
  }

  /**
   * Reading a numeric property of an event. The event carries xRelative,
   * yRelative, xOverlap and yOverlap; any other name reads `undefined`,
   * which arithmetic turns into NaN.
   */
  function Property(e: Event, name: string): Number
  {
    if name == "xRelative" then Num(e.overlap.xRelative)
    else if name == "yRelative" then Num(e.overlap.yRelative)
    else if name == "xOverlap" then Num(e.overlap.xOverlap)
    else if name == "yOverlap" then Num(e.overlap.yOverlap)
    else NaN
  }

  /**
   * The comparator handed to `events.sort`. It reads `overlapX` and
   * `overlapY`, which no event carries, so it never yields a number.
   */
  function Comparator(e1: Event, e2: Event, dirX: real, dirY: real): (r: Number)
    ensures r == NaN
  {
    var e1Total := Plus(Times(Property(e1, "overlapX"), Num(dirX)), Times(Property(e1, "overlapY"), Num(dirY)));
    var e2Total := Plus(Times(Property(e2, "overlapX"), Num(dirX)), Times(Property(e2, "overlapY"), Num(dirY)));
    Minus(e2Total, e1Total)
  }

  /** ECMAScript's SortCompare: the comparator's result, with NaN read as +0. */
  function SortCompare(e1: Event, e2: Event, dirX: real, dirY: real): real
  {
    match Comparator(e1, e2, dirX, dirY)
    case NaN => 0.0
    case Num(v) => v
  }

  /** Stable insertion of `x` behind a sorted prefix: `x` passes only elements that compare greater. */
  function Insert<T>(sorted: seq<T>, x: T, cmp: (T, T) -> real): (r: seq<T>)
    ensures |r| == |sorted| + 1
  {
    if sorted == [] then [x]
    else if cmp(sorted[|sorted| - 1], x) > 0.0 then Insert(sorted[..|sorted| - 1], x, cmp) + [sorted[|sorted| - 1]]
    else sorted + [x]
  }

  /** Insertion adds `x` and loses nothing. */
  lemma {:induction false} InsertPermutes<T>(sorted: seq<T>, x: T, cmp: (T, T) -> real)
    ensures multiset(Insert(sorted, x, cmp)) == multiset(sorted) + multiset{x}
    decreases |sorted|
  {
    if sorted != [] && cmp(sorted[|sorted| - 1], x) > 0.0 {
      InsertPermutes(sorted[..|sorted| - 1], x, cmp);
      assert sorted == sorted[..|sorted| - 1] + [sorted[|sorted| - 1]];
    }
  }

  /**
   * `Array.prototype.sort` with a comparator whose results SortCompare has
   * already turned into numbers: a stable sort, as ECMAScript requires.
   */
  function StableSort<T>(s: seq<T>, cmp: (T, T) -> real): (r: seq<T>)
    ensures |r| == |s|
  {
    if s == [] then []
    else Insert(StableSort(s[..|s| - 1], cmp), s[|s| - 1], cmp)
  }

  /** The sorted list is a permutation of the input. */
  lemma {:induction false} StableSortPermutes<T>(s: seq<T>, cmp: (T, T) -> real)
    ensures multiset(StableSort(s, cmp)) == multiset(s)
    decreases |s|
  {
    if s != [] {
      StableSortPermutes(s[..|s| - 1], cmp);
      InsertPermutes(StableSort(s[..|s| - 1], cmp), s[|s| - 1], cmp);
      assert s == s[..|s| - 1] + [s[|s| - 1]];
    }
  }

  /** A comparator that finds every pair equal leaves a stable sort's input as it is. */
  lemma {:induction false} StableSortOfTies<T>(s: seq<T>, cmp: (T, T) -> real)
    requires forall a, b :: cmp(a, b) == 0.0
    ensures StableSort(s, cmp) == s
    decreases |s|
  {
    if s != [] {
      StableSortOfTies(s[..|s| - 1], cmp);
      assert s[..|s| - 1] + [s[|s| - 1]] == s;
    }
  }

  /** `events.sort(comparator)` for the move direction (dirX, dirY). */
  function SortEvents(events: seq<Event>, dirX: real, dirY: real): seq<Event>
  {
    StableSort(events, (e1, e2) => SortCompare(e1, e2, dirX, dirY))
  }

  /** Because the comparator never orders two events, sorting leaves the gathered order as it is. */
  lemma SortKeepsGatheredOrder(events: seq<Event>, dirX: real, dirY: real)
    ensures SortEvents(events, dirX, dirY) == events
  {
    StableSortOfTies(events, (e1, e2) => SortCompare(e1, e2, dirX, dirY));
  }

  /** The event `checkOverlapWithEntity` adds for `other`: none, or the overlap with `other`. */
  function OverlapEvent(self: EntityRef, bbox: Box, other: EntityRef): seq<Event>
    reads other.TankPart(), other.BulletPart()
  {
    match GetBoundingBoxOverlap(bbox, other.GetBoundingBox())
    case None => []
    case Some(o) => if self.FilterCollision(other) then [Event(o, other)] else []
  }

  /** The events of the enemy loop, over the enemies `es`, skipping `self`. */
  function EnemyEvents(self: EntityRef, bbox: Box, es: seq<Tank>): seq<Event>
    reads es
    decreases |es|
  {
    if es == [] then []
    else
      var last := es[|es| - 1];
      EnemyEvents(self, bbox, es[..|es| - 1]) + (if self == TankRef(last) then [] else OverlapEvent(self, bbox, TankRef(last)))
  }

  /** The event of one grid cell: none when the cell is empty. */
  function CellEvent(self: EntityRef, bbox: Box, cell: Brick?): seq<Event>
  {
    if cell == null then [] else OverlapEvent(self, bbox, BrickRef(cell))
  }

  /** The events of the cells (row, colMin) .. (row, colEnd - 1). */
  function RowEvents(self: EntityRef, bbox: Box, m: array2<Brick?>, row: int, colMin: int, colEnd: int): seq<Event>
    requires 0 <= row < m.Length0 && 0 <= colMin && colEnd <= m.Length1
    reads m
    decreases colEnd - colMin
  {
    if colEnd <= colMin then []
    else RowEvents(self, bbox, m, row, colMin, colEnd - 1) + CellEvent(self, bbox, m[row, colEnd - 1])
  }

  /** The events of the rows rowMin .. rowEnd - 1, each over the columns colMin .. colMax. */
  function GridEvents(self: EntityRef, bbox: Box, m: array2<Brick?>, rowMin: int, rowEnd: int, colMin: int, colMax: int): seq<Event>
    requires 0 <= rowMin && rowEnd <= m.Length0 && 0 <= colMin && colMax < m.Length1
    reads m
    decreases rowEnd - rowMin
  {
    if rowEnd <= rowMin then []
    else GridEvents(self, bbox, m, rowMin, rowEnd - 1, colMin, colMax) + RowEvents(self, bbox, m, rowEnd - 1, colMin, colMax + 1)
  }

  /**
   * The `clamp` of collision.js (and of scenarios/tanks.mjs) on whole
   * numbers: raise to `lo`, then lower to `hi`. With `lo <= hi` the result
   * lies in [lo, hi] and a value already there is kept; with the bounds the
   * wrong way round, the upper bound wins.
   */
  function ClampInt(x: int, lo: int, hi: int): (r: int)
    ensures lo <= hi ==> lo <= r <= hi
    ensures lo <= x <= hi ==> r == x
    ensures hi < lo ==> r == hi
  {
    var raised := if x < lo then lo else x;
    if raised > hi then hi else raised
  }

  /** The grid window scanned for a box: the cells its edges fall in, clamped to the map. */
  datatype Window = Window(rowMin: int, rowMax: int, colMin: int, colMax: int)

  function WindowOf(bbox: Box): (r: Window)
    ensures 0 <= r.rowMin < MAP_ROWS && 0 <= r.rowMax < MAP_ROWS
    ensures 0 <= r.colMin < MAP_COLS && 0 <= r.colMax < MAP_COLS
  {
    Window(ClampInt(Cell(bbox.up), 0, MAP_ROWS - 1), ClampInt(Cell(bbox.down), 0, MAP_ROWS - 1),
           ClampInt(Cell(bbox.left), 0, MAP_COLS - 1), ClampInt(Cell(bbox.right), 0, MAP_COLS - 1))
  }

  /** The brick grid has the map's dimensions. */
  predicate GridShaped(w: World)
  {
    w.brickMatrix.Length0 == MAP_ROWS && w.brickMatrix.Length1 == MAP_COLS
  }

  /** The player's event, unless `self` is the player. */
  function PlayerEvents(w: World, self: EntityRef, bbox: Box): seq<Event>
    requires w.player != null
    reads w, w.player
  {
    if self == TankRef(w.player) then [] else OverlapEvent(self, bbox, TankRef(w.player))
  }

  /** Everything `getNearestCollision` gathers before sorting, in gathering order. */
  function Gather(w: World, self: EntityRef, bbox: Box): seq<Event>
    requires w.player != null && GridShaped(w)
    reads w, w.Tanks(), w.brickMatrix
  {
    var win := WindowOf(bbox);
    (if IsCollisionEnabled(self.Enabled(), TankType) then PlayerEvents(w, self, bbox) + EnemyEvents(self, bbox, w.enemies) else []) +
    (if IsCollisionEnabled(self.Enabled(), BrickType)
     then GridEvents(self, bbox, w.brickMatrix, win.rowMin, win.rowMax + 1, win.colMin, win.colMax)
     else [])
  }

  /** The first event of the sorted list, or none. */
  function Nearest(events: seq<Event>, dirX: real, dirY: real): Option<Event>
  {
    if events == [] then None else Some(SortEvents(events, dirX, dirY)[0])
  }

  /** The event `getNearestCollision` returns is the first one gathered, whatever the direction. */
  lemma NearestIsFirstGathered(events: seq<Event>, dirX: real, dirY: real)
    ensures Nearest(events, dirX, dirY) == if events == [] then None else Some(events[0])
  {
    SortKeepsGatheredOrder(events, dirX, dirY);
  }

  /** The tank part of `getNearestCollision`: the player unless it is `self`, then every enemy but `self`. */
  method CollectTankEvents(w: World, self: EntityRef, bbox: Box) returns (events: seq<Event>)
    requires w.player != null
    ensures events == PlayerEvents(w, self, bbox) + EnemyEvents(self, bbox, w.enemies)
  {
    events := [];
    if self != TankRef(w.player) {
      events := events + OverlapEvent(self, bbox, TankRef(w.player));
    }
    for k := 0 to |w.enemies|
      invariant events == PlayerEvents(w, self, bbox) + EnemyEvents(self, bbox, w.enemies[..k])
    {
      var enemy := w.enemies[k];
      assert w.enemies[..k + 1][..k] == w.enemies[..k];
      assert EnemyEvents(self, bbox, w.enemies[..k + 1]) ==
             EnemyEvents(self, bbox, w.enemies[..k]) + (if self == TankRef(enemy) then [] else OverlapEvent(self, bbox, TankRef(enemy)));
      if self == TankRef(enemy) {
        continue;
      }
      events := events + OverlapEvent(self, bbox, TankRef(enemy));
    }
    assert w.enemies[..|w.enemies|] == w.enemies;
  }

  /** The inner loop of the brick part: the occupied cells of one row of the window, left to right. */
  method CollectRowEvents(w: World, self: EntityRef, bbox: Box, row: int, colMin: int, colMax: int) returns (events: seq<Event>)
    requires 0 <= row < w.brickMatrix.Length0 && 0 <= colMin < w.brickMatrix.Length1 && colMax < w.brickMatrix.Length1
    ensures events == RowEvents(self, bbox, w.brickMatrix, row, colMin, colMax + 1)
  {
    events := [];
    var j := colMin;
    while j <= colMax
      invariant colMin <= j && (j <= colMax + 1 || j == colMin)
      invariant events == RowEvents(self, bbox, w.brickMatrix, row, colMin, j)
    {
      if w.brickMatrix[row, j] != null {
        events := events + OverlapEvent(self, bbox, BrickRef(w.brickMatrix[row, j]));
      }
      j := j + 1;
    }
  }

  /** The brick part of `getNearestCollision`: the occupied cells of the box's window, row by row. */
  method CollectGridEvents(w: World, self: EntityRef, bbox: Box) returns (events: seq<Event>)
    requires GridShaped(w)
    ensures events == GridEvents(self, bbox, w.brickMatrix, WindowOf(bbox).rowMin, WindowOf(bbox).rowMax + 1,
                                 WindowOf(bbox).colMin, WindowOf(bbox).colMax)
  {
    events := [];
    var rowMin := ClampInt(Cell(bbox.up), 0, MAP_ROWS - 1);
    var rowMax := ClampInt(Cell(bbox.down), 0, MAP_ROWS - 1);
    var colMin := ClampInt(Cell(bbox.left), 0, MAP_COLS - 1);
    var colMax := ClampInt(Cell(bbox.right), 0, MAP_COLS - 1);
    var i := rowMin;
    while i <= rowMax
      invariant rowMin <= i && (i <= rowMax + 1 || i == rowMin)
      invariant events == GridEvents(self, bbox, w.brickMatrix, rowMin, i, colMin, colMax)
    {
      var rowEvents := CollectRowEvents(w, self, bbox, i, colMin, colMax);
      events := events + rowEvents;
      i := i + 1;
    }
  }

  /** `getNearestCollision`: the first of the sorted events, or none when nothing overlaps. */
  method GetNearestCollision(w: World, self: EntityRef, bbox: Box, dirX: real, dirY: real) returns (r: Option<Event>)
    requires w.player != null && GridShaped(w)
    ensures r == Nearest(Gather(w, self, bbox), dirX, dirY)
  {
    var tankEvents: seq<Event> := [];
    if IsCollisionEnabled(self.Enabled(), TankType) {
      tankEvents := CollectTankEvents(w, self, bbox);
    }
    var gridEvents: seq<Event> := [];
    if IsCollisionEnabled(self.Enabled(), BrickType) {
      gridEvents := CollectGridEvents(w, self, bbox);
    }
    var events := tankEvents + gridEvents;
    assert events == Gather(w, self, bbox);
    if |events| == 0 {
      return None;
    }
    var sorted := SortEvents(events, dirX, dirY);
    r := Some(sorted[0]);
  }

  /** Soundness of one event: it comes from an overlap that passes the filter, with another entity. */
  ghost predicate GenuineEvent(self: EntityRef, bbox: Box, e: Event)
    reads e.entity.TankPart(), e.entity.BulletPart()
  {
    e.entity != self && self.FilterCollision(e.entity) &&
    GetBoundingBoxOverlap(bbox, e.entity.GetBoundingBox()) == Some(e.overlap)
  }

  lemma {:induction false} EnemyEventsSound(self: EntityRef, bbox: Box, es: seq<Tank>)
    ensures forall e :: e in EnemyEvents(self, bbox, es) ==> e.entity.TankRef? && e.entity.tank in es && GenuineEvent(self, bbox, e)
    decreases |es|
  {
    if es != [] {
      EnemyEventsSound(self, bbox, es[..|es| - 1]);
    }
  }

  lemma {:induction false} EnemyEventsComplete(self: EntityRef, bbox: Box, es: seq<Tank>, t: Tank)
    requires t in es && self != TankRef(t) && self.FilterCollision(TankRef(t))
    requires GetBoundingBoxOverlap(bbox, t.GetBoundingBox()).Some?
    ensures Event(GetBoundingBoxOverlap(bbox, t.GetBoundingBox()).value, TankRef(t)) in EnemyEvents(self, bbox, es)
    decreases |es|
  {
    if es[|es| - 1] != t {
      assert t in es[..|es| - 1] by {
        var k :| 0 <= k < |es| && es[k] == t;
        assert es[..|es| - 1][k] == t;
      }
      EnemyEventsComplete(self, bbox, es[..|es| - 1], t);
    }
  }

  lemma {:induction false} RowEventsSound(self: EntityRef, bbox: Box, m: array2<Brick?>, row: int, colMin: int, colEnd: int, bricks: set<Brick>)
    requires 0 <= row < m.Length0 && 0 <= colMin && colEnd <= m.Length1
    requires !self.BrickRef?
    requires forall c :: 0 <= c < m.Length1 && m[row, c] != null ==> m[row, c] in bricks
    ensures forall e :: e in RowEvents(self, bbox, m, row, colMin, colEnd) ==>
              e.entity.BrickRef? && e.entity.brick in bricks && GenuineEvent(self, bbox, e)
    decreases colEnd - colMin
  {
    if colEnd > colMin {
      RowEventsSound(self, bbox, m, row, colMin, colEnd - 1, bricks);
    }
  }

  lemma {:induction false} GridEventsSound(self: EntityRef, bbox: Box, m: array2<Brick?>, rowMin: int, rowEnd: int, colMin: int, colMax: int, bricks: set<Brick>)
    requires 0 <= rowMin && rowEnd <= m.Length0 && 0 <= colMin && colMax < m.Length1
    requires !self.BrickRef?
    requires forall r, c :: 0 <= r < m.Length0 && 0 <= c < m.Length1 && m[r, c] != null ==> m[r, c] in bricks
    ensures forall e :: e in GridEvents(self, bbox, m, rowMin, rowEnd, colMin, colMax) ==>
              e.entity.BrickRef? && e.entity.brick in bricks && GenuineEvent(self, bbox, e)
    decreases rowEnd - rowMin
  {
    if rowEnd > rowMin {
      GridEventsSound(self, bbox, m, rowMin, rowEnd - 1, colMin, colMax, bricks);
      RowEventsSound(self, bbox, m, rowEnd - 1, colMin, colMax + 1, bricks);
    }
  }

  /**
   * Every gathered event is genuine: it is with a tank or a brick of the
   * world other than the moving entity, their boxes overlap by the recorded
   * amounts, the mover's filter accepts it, and the mover has collisions
   * with its type enabled. Bullets are never gathered.
   */
  lemma GatherSound(w: World, self: EntityRef, bbox: Box)
    requires w.player != null && w.Valid()
    ensures forall e :: e in Gather(w, self, bbox) ==>
              GenuineEvent(self, bbox, e) &&
              ((e.entity.TankRef? && e.entity.tank in w.Tanks()) || (e.entity.BrickRef? && e.entity.brick in w.bricks))
    ensures forall e :: e in Gather(w, self, bbox) ==> IsCollisionEnabled(self.Enabled(), e.entity.Type())
  {
    var win := WindowOf(bbox);
    EnemyEventsSound(self, bbox, w.enemies);
    if IsCollisionEnabled(self.Enabled(), BrickType) {
      GridEventsSound(self, bbox, w.brickMatrix, win.rowMin, win.rowMax + 1, win.colMin, win.colMax, w.BrickSet());
    }
  }

  /** A tank that the mover's box overlaps and whose filter agrees is gathered, unless the mover ignores tanks. */
  lemma GatherFindsTank(w: World, self: EntityRef, bbox: Box, t: Tank)
    requires w.player != null && GridShaped(w)
    requires IsCollisionEnabled(self.Enabled(), TankType)
    requires t in w.Tanks() && self != TankRef(t) && self.FilterCollision(TankRef(t))
    requires GetBoundingBoxOverlap(bbox, t.GetBoundingBox()).Some?
    ensures Event(GetBoundingBoxOverlap(bbox, t.GetBoundingBox()).value, TankRef(t)) in Gather(w, self, bbox)
  {
    if t != w.player {
      EnemyEventsComplete(self, bbox, w.enemies, t);
    }
  }

  lemma {:induction false} RowEventsComplete(self: EntityRef, bbox: Box, m: array2<Brick?>, row: int, colMin: int, colEnd: int, col: int)
    requires 0 <= row < m.Length0 && 0 <= colMin <= col < colEnd <= m.Length1
    requires m[row, col] != null && self.FilterCollision(BrickRef(m[row, col]))
    requires GetBoundingBoxOverlap(bbox, m[row, col].GetBoundingBox()).Some?
    ensures Event(GetBoundingBoxOverlap(bbox, m[row, col].GetBoundingBox()).value, BrickRef(m[row, col]))
              in RowEvents(self, bbox, m, row, colMin, colEnd)
    decreases colEnd - colMin
  {
    if col < colEnd - 1 {
      RowEventsComplete(self, bbox, m, row, colMin, colEnd - 1, col);
    }
  }

  lemma {:induction false} GridEventsComplete(self: EntityRef, bbox: Box, m: array2<Brick?>, rowMin: int, rowEnd: int, colMin: int, colMax: int, row: int, col: int)
    requires 0 <= rowMin <= row < rowEnd <= m.Length0 && 0 <= colMin <= col <= colMax < m.Length1
    requires m[row, col] != null && self.FilterCollision(BrickRef(m[row, col]))
    requires GetBoundingBoxOverlap(bbox, m[row, col].GetBoundingBox()).Some?
    ensures Event(GetBoundingBoxOverlap(bbox, m[row, col].GetBoundingBox()).value, BrickRef(m[row, col]))
              in GridEvents(self, bbox, m, rowMin, rowEnd, colMin, colMax)
    decreases rowEnd - rowMin
  {
    if row < rowEnd - 1 {
      GridEventsComplete(self, bbox, m, rowMin, rowEnd - 1, colMin, colMax, row, col);
    } else {
      RowEventsComplete(self, bbox, m, row, colMin, colMax + 1, col);
    }
  }

  /** The brick's sprite box lies inside its own cell (the brick sprites are one cell large). */
  predicate FitsCell(b: Brick)
  {
    0.0 <= b.shape.up && b.shape.down < BRICK_SIZE as real && 0.0 <= b.shape.left && b.shape.right < BRICK_SIZE as real
  }

  /** A brick that fits its cell and overlaps a box lies in the window of cells scanned for that box. */
  lemma WindowCoversBrick(bbox: Box, b: Brick)
    requires OnGrid(b) && FitsCell(b)
    requires GetBoundingBoxOverlap(bbox, b.GetBoundingBox()).Some?
    ensures WindowOf(bbox).rowMin <= Cell(b.y) <= WindowOf(bbox).rowMax
    ensures WindowOf(bbox).colMin <= Cell(b.x) <= WindowOf(bbox).colMax
  {
    var bb := b.GetBoundingBox();
    var row, col := Cell(b.y), Cell(b.x);
    assert bbox.up <= bb.down < b.y + BRICK_SIZE as real;
    assert bbox.up / BRICK_SIZE as real < (row + 1) as real;
    assert bbox.down >= bb.up >= b.y;
    assert bbox.down / BRICK_SIZE as real >= row as real;
    assert bbox.left <= bb.right < b.x + BRICK_SIZE as real;
    assert bbox.left / BRICK_SIZE as real < (col + 1) as real;
    assert bbox.right >= bb.left >= b.x;
    assert bbox.right / BRICK_SIZE as real >= col as real;
  }

  /**
   * A brick of the world that overlaps the mover's box and passes its filter
   * is gathered, as long as the mover reacts to bricks and the brick fits
   * its cell: the window scan misses no brick that matters.
   */
  lemma GatherFindsBrick(w: World, self: EntityRef, bbox: Box, b: Brick)
    requires w.player != null && w.Valid()
    requires IsCollisionEnabled(self.Enabled(), BrickType)
    requires b in w.bricks && FitsCell(b) && self.FilterCollision(BrickRef(b))
    requires GetBoundingBoxOverlap(bbox, b.GetBoundingBox()).Some?
    ensures Event(GetBoundingBoxOverlap(bbox, b.GetBoundingBox()).value, BrickRef(b)) in Gather(w, self, bbox)
  {
    WindowCoversBrick(bbox, b);
    var win := WindowOf(bbox);
    GridEventsComplete(self, bbox, w.brickMatrix, win.rowMin, win.rowMax + 1, win.colMin, win.colMax, Cell(b.y), Cell(b.x));
  }

  /** `Math.sign` */
  function Sign(x: real): (r: real)
    ensures r * x == Abs(x) && Abs(r) <= 1.0
  {
    if x > 0.0 then 1.0 else if x < 0.0 then -1.0 else 0.0
  }

  /** The `clamp` of collision.js: NaN fails both comparisons and comes back unchanged. */
  function Clamp(x: Number, lo: real, hi: real): (r: Number)
    requires lo <= hi
    ensures x.NaN? <==> r.NaN?
    ensures r.Num? ==> lo <= r.v <= hi
    ensures x.Num? && lo <= x.v <= hi ==> r == x
  {
    var y := if Less(x, Num(lo)) then Num(lo) else x;
    if Less(Num(hi), y) then Num(hi) else y
  }

  /** `norm` is the length of the move (dX, dY), as `Math.sqrt(dX * dX + dY * dY)` computes it. */
  predicate IsNorm(norm: real, dX: real, dY: real)
  {
    norm >= 0.0 && norm * norm == dX * dX + dY * dY
  }

  /**
   * The overlap of an event measured along the move and normalised by its
   * length, clamped to [0, 1]. For the zero move this is 0 / 0, which is NaN.
   */
  function NormalizedOverlap(o: Overlap, dX: real, dY: real, norm: real): (r: Number)
    ensures r.NaN? <==> norm == 0.0
    ensures r.Num? ==> 0.0 <= r.v <= 1.0
  {
    var along := Abs(o.xOverlap * dX) + Abs(o.yOverlap * dY);
    Clamp(if norm == 0.0 then NaN else Num(along / norm), 0.0, 1.0)
  }

  /** `motionFactor`: the move is cut short by the projected overlap only when that overlap is deeper than the current one. */
  function MotionFactor(prev: Number, cur: Number): real
  {
    1.0 - (if Less(prev, cur) then cur.v else 0.0)
  }

  lemma MotionFactorBounds(prev: Number, cur: Number)
    requires cur.Num? ==> 0.0 <= cur.v <= 1.0
    ensures 0.0 <= MotionFactor(prev, cur) <= 1.0
    ensures !Less(prev, cur) ==> MotionFactor(prev, cur) == 1.0
  {
  }

  /** What `checkCollision` returns. */
  datatype Outcome = Outcome(collider: Option<EntityRef>, travelX: real, travelY: real)

  /** The outcome of a move, given the nearest event around the projected box and around the current box. */
  function OutcomeOf(projected: Option<Event>, staticCollision: Option<Event>, dX: real, dY: real, norm: real): Outcome
  {
    if projected.None? then Outcome(None, dX, dY)
    else
      var overlapNormalized := NormalizedOverlap(projected.value.overlap, dX, dY, norm);
      var prevOverlapNormalized := if staticCollision.Some? then NormalizedOverlap(staticCollision.value.overlap, dX, dY, norm) else Num(0.0);
      var motionFactor := MotionFactor(prevOverlapNormalized, overlapNormalized);
      Outcome(Some(projected.value.entity), dX * motionFactor, dY * motionFactor)
  }

  /**
   * The outcome of a move whose collision check gathered `checks`: the
   * events around the projected box, then those around the current box.
   */
  function OutcomeFrom(checks: (seq<Event>, seq<Event>), dX: real, dY: real, norm: real): Outcome
  {
    OutcomeOf(Nearest(checks.0, Sign(dX), Sign(dY)), Nearest(checks.1, Sign(dX), Sign(dY)), dX, dY, norm)
  }

  /** What `checkCollision(self, bbox, dX, dY)` gathers: around the projected box, then around `bbox`. */
  function Checks(w: World, self: EntityRef, bbox: Box, dX: real, dY: real): (seq<Event>, seq<Event>)
    requires w.player != null && GridShaped(w)
    reads w, w.Tanks(), w.brickMatrix
  {
    (Gather(w, self, MoveBoundingBox(bbox, dX, dY)), Gather(w, self, bbox))
  }

  /** The result of `checkCollision(self, bbox, dX, dY)`, as a function of the world. */
  function CollisionOutcome(w: World, self: EntityRef, bbox: Box, dX: real, dY: real, norm: real): Outcome
    requires w.player != null && GridShaped(w)
    reads w, w.Tanks(), w.brickMatrix
  {
    OutcomeFrom(Checks(w, self, bbox, dX, dY), dX, dY, norm)
  }

  /** Nothing around the projected box: the whole move is granted, without a collider. */
  lemma FreeMoveOutcome(w: World, self: EntityRef, bbox: Box, dX: real, dY: real, norm: real)
    requires w.player != null && GridShaped(w)
    requires Nearest(Gather(w, self, MoveBoundingBox(bbox, dX, dY)), Sign(dX), Sign(dY)).None?
    ensures CollisionOutcome(w, self, bbox, dX, dY, norm) == Outcome(None, dX, dY)
  {
  }

  /** The outcome, once the nearest events around the projected box and around the current box are known. */
  lemma CollisionOutcomeFrom(w: World, self: EntityRef, bbox: Box, dX: real, dY: real, norm: real,
                             projected: Option<Event>, staticCollision: Option<Event>)
    requires w.player != null && GridShaped(w)
    requires projected == Nearest(Gather(w, self, MoveBoundingBox(bbox, dX, dY)), Sign(dX), Sign(dY))
    requires staticCollision == Nearest(Gather(w, self, bbox), Sign(dX), Sign(dY))
    ensures CollisionOutcome(w, self, bbox, dX, dY, norm) == OutcomeOf(projected, staticCollision, dX, dY, norm)
  {
  }

  /**
   * `getNearestCollision(bbox)`, together with the fact that, since it
   * changes nothing, what is gathered around any other box `keep` stays
   * the same across the call.
   */
  method NearestCollisionKeeping(w: World, self: EntityRef, bbox: Box, dirX: real, dirY: real, ghost keep: Box) returns (r: Option<Event>)
    requires w.player != null && GridShaped(w)
    ensures w.player != null && GridShaped(w)
    ensures r == Nearest(Gather(w, self, bbox), dirX, dirY)
    ensures Gather(w, self, keep) == old(Gather(w, self, keep))
  {
    r := GetNearestCollision(w, self, bbox, dirX, dirY);
    assert unchanged(w) && unchanged(w.brickMatrix);
    assert PlayerEvents(w, self, keep) == old(PlayerEvents(w, self, keep));
    assert EnemyEvents(self, keep, w.enemies) == old(EnemyEvents(self, keep, w.enemies));
    ghost var win := WindowOf(keep);
    assert GridEvents(self, keep, w.brickMatrix, win.rowMin, win.rowMax + 1, win.colMin, win.colMax) ==
      old(GridEvents(self, keep, w.brickMatrix, win.rowMin, win.rowMax + 1, win.colMin, win.colMax));
  }

  /**
   * `checkCollision`. The square root of the source is the parameter
   * `norm`, which the caller supplies together with its defining property.
   */
  method CheckCollision(w: World, self: EntityRef, bbox: Box, dX: real, dY: real, norm: real) returns (r: Outcome)
    requires w.player != null && GridShaped(w) && IsNorm(norm, dX, dY)
    ensures r == CollisionOutcome(w, self, bbox, dX, dY, norm)
  {
    var projectedBBox := MoveBoundingBox(bbox, dX, dY);
    var dxSign := Sign(dX);
    var dySign := Sign(dY);
    var projectedCollision := GetNearestCollision(w, self, projectedBBox, dxSign, dySign);
    if projectedCollision.None? {
      FreeMoveOutcome(w, self, bbox, dX, dY, norm);
      return Outcome(None, dX, dY);
    }
    // compute the overlap before any motion is made
    var staticCollision := NearestCollisionKeeping(w, self, bbox, dxSign, dySign, projectedBBox);
    CollisionOutcomeFrom(w, self, bbox, dX, dY, norm, projectedCollision, staticCollision);
    r := OutcomeOf(projectedCollision, staticCollision, dX, dY, norm);
  }

  /**
   * The collider is the first entity gathered around the projected box, and
   * there is none exactly when nothing overlaps the projected box; then the
   * whole move is granted.
   */
  lemma ColliderIsFirstProjectedEvent(w: World, self: EntityRef, bbox: Box, dX: real, dY: real, norm: real)
    requires w.player != null && GridShaped(w)
    ensures var r := CollisionOutcome(w, self, bbox, dX, dY, norm);
            var events := Gather(w, self, MoveBoundingBox(bbox, dX, dY));
            (r.collider.None? <==> events == []) &&
            (r.collider.None? ==> r.travelX == dX && r.travelY == dY) &&
            (events != [] ==> r.collider == Some(events[0].entity))
  {
    var events := Gather(w, self, MoveBoundingBox(bbox, dX, dY));
    NearestIsFirstGathered(events, Sign(dX), Sign(dY));
  }

  /** The collider of a valid world is a tank or brick other than the mover, whose box the projected box overlaps. */
  lemma ColliderIsGenuine(w: World, self: EntityRef, bbox: Box, dX: real, dY: real, norm: real)
    requires w.player != null && w.Valid()
    ensures var r := CollisionOutcome(w, self, bbox, dX, dY, norm);
            r.collider.Some? ==>
              var c := r.collider.value;
              c != self && self.FilterCollision(c) &&
              GetBoundingBoxOverlap(MoveBoundingBox(bbox, dX, dY), c.GetBoundingBox()).Some? &&
              ((c.TankRef? && c.tank in w.Tanks()) || (c.BrickRef? && c.brick in w.bricks))
  {
    ColliderIsFirstProjectedEvent(w, self, bbox, dX, dY, norm);
    GatherSound(w, self, MoveBoundingBox(bbox, dX, dY));
  }

  /** `t` lies between 0 and `d`: it points the same way as `d` and is no longer. */
  predicate Within(t: real, d: real)
  {
    if d >= 0.0 then 0.0 <= t <= d else d <= t <= 0.0
  }

  /**
   * Travel that is the requested move cut short: on each axis it points the
   * same way as the move and is no longer, and it is the whole move when
   * nothing was hit.
   */
  predicate ShortenedMove(r: Outcome, dX: real, dY: real)
  {
    Within(r.travelX, dX) && Within(r.travelY, dY) &&
    (r.collider.None? ==> r.travelX == dX && r.travelY == dY)
  }

  /** The travel is the move scaled by one factor in [0, 1], so it also keeps the move's direction. */
  lemma TravelIsShortenedMove(projected: Option<Event>, staticCollision: Option<Event>, dX: real, dY: real, norm: real, r: Outcome)
    requires r == OutcomeOf(projected, staticCollision, dX, dY, norm)
    ensures ShortenedMove(r, dX, dY)
    ensures r.travelX * dY == r.travelY * dX
  {
    ScaledMove(dX, dY, TravelFactor(projected, staticCollision, dX, dY, norm), r.travelX, r.travelY);
  }

  /** Every move `checkCollision` grants is the requested one, shortened. */
  lemma CollisionIsShortenedMove(w: World, self: EntityRef, bbox: Box, dX: real, dY: real, norm: real, r: Outcome)
    requires w.player != null && GridShaped(w)
    requires r == CollisionOutcome(w, self, bbox, dX, dY, norm)
    ensures ShortenedMove(r, dX, dY)
  {
    var projected := Nearest(Gather(w, self, MoveBoundingBox(bbox, dX, dY)), Sign(dX), Sign(dY));
    var staticCollision := Nearest(Gather(w, self, bbox), Sign(dX), Sign(dY));
    CollisionOutcomeFrom(w, self, bbox, dX, dY, norm, projected, staticCollision);
    TravelIsShortenedMove(projected, staticCollision, dX, dY, norm, r);
  }

  /** The factor `OutcomeOf` scales the move by. */
  function TravelFactor(projected: Option<Event>, staticCollision: Option<Event>, dX: real, dY: real, norm: real): (f: real)
    ensures 0.0 <= f <= 1.0
    ensures var r := OutcomeOf(projected, staticCollision, dX, dY, norm);
            r.travelX == dX * f && r.travelY == dY * f
  {
    if projected.None? then
      assert dX * 1.0 == dX && dY * 1.0 == dY;
      1.0
    else
      var cur := NormalizedOverlap(projected.value.overlap, dX, dY, norm);
      var prev := if staticCollision.Some? then NormalizedOverlap(staticCollision.value.overlap, dX, dY, norm) else Num(0.0);
      MotionFactorBounds(prev, cur);
      MotionFactor(prev, cur)
  }

  /** A move scaled by a factor in [0, 1]. */
  lemma ScaledMove(dX: real, dY: real, f: real, tX: real, tY: real)
    requires 0.0 <= f <= 1.0 && tX == dX * f && tY == dY * f
    ensures Within(tX, dX) && Within(tY, dY)
    ensures tX * dY == tY * dX
  {
    ScaledBounds(dX, f);
    ScaledBounds(dY, f);
  }

  lemma ScaledBounds(d: real, f: real)
    requires 0.0 <= f <= 1.0
    ensures Within(d * f, d)
  {
    if d >= 0.0 {
      assert d * f <= d * 1.0;
    } else {
      assert d * f >= d * 1.0;
    }
  }

  /**
   * A move that does not sink deeper into the collider than the mover
   * already is (sliding along the contact, or backing away) is granted in
   * full, collision or not.
   */
  lemma ShallowerMoveIsFull(projected: Option<Event>, staticCollision: Option<Event>, dX: real, dY: real, norm: real)
    requires projected.Some? && staticCollision.Some?
    requires !Less(NormalizedOverlap(staticCollision.value.overlap, dX, dY, norm), NormalizedOverlap(projected.value.overlap, dX, dY, norm))
    ensures OutcomeOf(projected, staticCollision, dX, dY, norm) == Outcome(Some(projected.value.entity), dX, dY)
  {
  }

  /**
   * From a position free of collisions, a move whose end would be buried in
   * the collider a whole move-length deep is cancelled, and one that ends
   * partly inside is cut back by the buried fraction.
   */
  lemma BuriedMoveIsCutBack(projected: Option<Event>, dX: real, dY: real, norm: real)
    requires projected.Some? && NormalizedOverlap(projected.value.overlap, dX, dY, norm).Num?
    ensures var f := NormalizedOverlap(projected.value.overlap, dX, dY, norm).v;
            OutcomeOf(projected, None, dX, dY, norm) == Outcome(Some(projected.value.entity), dX * (1.0 - f), dY * (1.0 - f))
    ensures NormalizedOverlap(projected.value.overlap, dX, dY, norm) == Num(1.0) ==>
            OutcomeOf(projected, None, dX, dY, norm) == Outcome(Some(projected.value.entity), 0.0, 0.0)
  {
  }

  /** A zero move goes nowhere but still reports what the entity already overlaps. */
  lemma ZeroMoveStaysPut(w: World, self: EntityRef, bbox: Box)
    requires w.player != null && GridShaped(w)
    ensures var r := CollisionOutcome(w, self, bbox, 0.0, 0.0, 0.0);
            r.travelX == 0.0 && r.travelY == 0.0 &&
            r.collider == (if Gather(w, self, bbox) == [] then None else Some(Gather(w, self, bbox)[0].entity))
  {
    assert MoveBoundingBox(bbox, 0.0, 0.0) == bbox;
    NearestIsFirstGathered(Gather(w, self, bbox), 0.0, 0.0);
  }

  /** The tanks `es` in order, without `t`. */
  function Without(es: seq<Tank>, t: Tank): (r: seq<Tank>)
    ensures forall i :: 0 <= i < |r| ==> r[i] in es && r[i] != t
    ensures forall i :: 0 <= i < |es| && es[i] != t ==> es[i] in r
  {
    if es == [] then [] else Without(es[..|es| - 1], t) + (if es[|es| - 1] == t then [] else [es[|es| - 1]])
  }

  /** The world's tanks other than `t`. */
  function OtherTanks(w: World, t: Tank): set<Tank>
    reads w`player, w`enemies
  {
    w.Tanks() - {t}
  }

  /**
   * What `Gather` collects for the tank `t` as mover, written so that it
   * reads nothing of `t` itself: the mover is skipped by the player test and
   * by the enemy loop, so its position, orientation and timers play no part.
   */
  function GatherBeside(w: World, t: Tank, bbox: Box): seq<Event>
    requires w.player != null && GridShaped(w)
    reads w`player, w`enemies, OtherTanks(w, t), w.brickMatrix
  {
    var self := TankRef(t);
    var win := WindowOf(bbox);
    (if IsCollisionEnabled(t.enabled, TankType)
     then (if w.player == t then [] else OverlapEvent(self, bbox, TankRef(w.player))) + EnemyEvents(self, bbox, Without(w.enemies, t))
     else []) +
    (if IsCollisionEnabled(t.enabled, BrickType)
     then GridEvents(self, bbox, w.brickMatrix, win.rowMin, win.rowMax + 1, win.colMin, win.colMax)
     else [])
  }

  /** The enemy loop skips the mover, so leaving it out of the list changes nothing. */
  lemma {:induction false} EnemyEventsWithout(t: Tank, bbox: Box, es: seq<Tank>)
    ensures EnemyEvents(TankRef(t), bbox, es) == EnemyEvents(TankRef(t), bbox, Without(es, t))
    decreases |es|
  {
    if es != [] {
      var init, last := es[..|es| - 1], es[|es| - 1];
      EnemyEventsWithout(t, bbox, init);
      if last != t {
        var ws := Without(es, t);
        assert ws == Without(init, t) + [last];
        assert ws[..|ws| - 1] == Without(init, t);
      } else {
        assert Without(es, t) == Without(init, t);
        assert EnemyEvents(TankRef(t), bbox, es) == EnemyEvents(TankRef(t), bbox, init);
      }
    }
  }

  /** `Gather` for a tank mover is `GatherBeside`. */
  lemma GatherIsBeside(w: World, t: Tank, bbox: Box)
    requires w.player != null && GridShaped(w)
    ensures Gather(w, TankRef(t), bbox) == GatherBeside(w, t, bbox)
  {
    EnemyEventsWithout(t, bbox, w.enemies);
  }

  /**
   * The two gatherings of a tank's collision check, around the projected
   * box and around the current box, read without looking at the mover.
   */
  function ChecksBeside(w: World, t: Tank, bbox: Box, dX: real, dY: real): (seq<Event>, seq<Event>)
    requires w.player != null && GridShaped(w)
    reads w`player, w`enemies, OtherTanks(w, t), w.brickMatrix
  {
    (GatherBeside(w, t, MoveBoundingBox(bbox, dX, dY)), GatherBeside(w, t, bbox))
  }

  /** `checkCollision` for the tank `t` as mover, computed from `ChecksBeside`. */
  function TankOutcome(w: World, t: Tank, bbox: Box, dX: real, dY: real, norm: real): Outcome
    requires w.player != null && GridShaped(w)
    reads w`player, w`enemies, OtherTanks(w, t), w.brickMatrix
  {
    OutcomeFrom(ChecksBeside(w, t, bbox, dX, dY), dX, dY, norm)
  }

  /**
   * A tank's collision check does not depend on the tank's own fields: it is
   * `TankOutcome`, which changes to the mover (turning, firing) and to the
   * world's bullets leave as they are.
   */
  lemma TankOutcomeIsBeside(w: World, t: Tank, bbox: Box, dX: real, dY: real, norm: real)
    requires w.player != null && GridShaped(w)
    ensures CollisionOutcome(w, TankRef(t), bbox, dX, dY, norm) == TankOutcome(w, t, bbox, dX, dY, norm)
  {
    GatherIsBeside(w, t, bbox);
    GatherIsBeside(w, t, MoveBoundingBox(bbox, dX, dY));
  }
}
