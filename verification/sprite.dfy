/**
 * The sprite transforms of lib/dosemu-sprite.js: `rotateSprite`, which
 * turns a sprite clockwise in quarter turns around its origin, and
 * `computeBoundingBox`, which finds the box around the sprite's
 * non-transparent pixels relative to its origin.
 */
module Sprites {
  import opened Common
  import opened BBox

  /** `pixels` has `height` rows of `width` colour indices each. */
  predicate Rectangular(pixels: seq<seq<int>>, width: int, height: int)
  {
    |pixels| == height && forall i :: 0 <= i < height ==> |pixels[i]| == width
  }

  /** What a quarter turn transforms: the size, the origin, the pixel matrix and the computed box, if any. */
  datatype Shape = Shape(width: nat, height: nat, originX: int, originY: int, pixels: seq<seq<int>>, bbox: Option<Box>)
  {
    predicate Valid()
    {
      Rectangular(pixels, width, height)
    }
  }

  /** The pixel matrix turned clockwise: row i of the result is column i of the source, read bottom-up. */
  function TurnPixels(p: seq<seq<int>>, width: nat, height: nat): (r: seq<seq<int>>)
    requires Rectangular(p, width, height)
    ensures Rectangular(r, height, width)
  {
    seq(width, i requires 0 <= i < width => seq(height, j requires 0 <= j < height => p[height - 1 - j][i]))
  }

  /**
   * One quarter turn: width and height swap, the origin (ox, oy) moves to
   * (height - oy, ox), and a computed box is turned with `rotateBBox`.
   */
  function Turn(s: Shape): (r: Shape)
    requires s.Valid()
    ensures r.Valid()
  {
    Shape(s.height, s.width, s.height - s.originY, s.originX, TurnPixels(s.pixels, s.width, s.height),
          if s.bbox.Some? then Some(RotateBBox(s.bbox.value)) else None)
  }

  /** `n` quarter turns. */
  function TurnTimes(s: Shape, n: nat): (r: Shape)
    requires s.Valid()
    ensures r.Valid()
    decreases n
  {
    if n == 0 then s else TurnTimes(Turn(s), n - 1)
  }

  /** Turning `a` times and then `b` times is turning `a + b` times. */
  lemma {:induction false} TurnTimesAdd(s: Shape, a: nat, b: nat)
    requires s.Valid()
    ensures TurnTimes(s, a + b) == TurnTimes(TurnTimes(s, a), b)
    decreases a
  {
    if a > 0 {
      TurnTimesAdd(Turn(s), a - 1, b);
    }
  }

  /** A half turn keeps the size and mirrors everything through the origin. */
  lemma TurnTwice(s: Shape)
    requires s.Valid()
    ensures var r := TurnTimes(s, 2);
            r.width == s.width && r.height == s.height &&
            r.originX == s.width - s.originX && r.originY == s.height - s.originY &&
            (forall i, j :: 0 <= i < s.height && 0 <= j < s.width ==> r.pixels[i][j] == s.pixels[s.height - 1 - i][s.width - 1 - j]) &&
            (s.bbox.Some? <==> r.bbox.Some?) &&
            (s.bbox.Some? ==> r.bbox.value == Box(-s.bbox.value.down, -s.bbox.value.up, -s.bbox.value.right, -s.bbox.value.left))
  {
    assert TurnTimes(Turn(s), 1) == TurnTimes(Turn(Turn(s)), 0) == Turn(Turn(s));
    if s.bbox.Some? {
      RotateTwiceMirrors(s.bbox.value);
    }
  }

  /** Two shapes mirrored through the origin from each other give back the first. */
  lemma MirrorTwice(s: Shape, h: Shape, r: Shape)
    requires s.Valid() && h.Valid() && r.Valid()
    requires h.width == s.width && h.height == s.height && r.width == h.width && r.height == h.height
    requires r.originX == h.width - h.originX && r.originY == h.height - h.originY
    requires h.originX == s.width - s.originX && h.originY == s.height - s.originY
    requires forall i, j :: 0 <= i < s.height && 0 <= j < s.width ==> h.pixels[i][j] == s.pixels[s.height - 1 - i][s.width - 1 - j]
    requires forall i, j :: 0 <= i < h.height && 0 <= j < h.width ==> r.pixels[i][j] == h.pixels[h.height - 1 - i][h.width - 1 - j]
    ensures r.width == s.width && r.height == s.height && r.originX == s.originX && r.originY == s.originY && r.pixels == s.pixels
  {
    forall i, j | 0 <= i < s.height && 0 <= j < s.width
      ensures r.pixels[i][j] == s.pixels[i][j]
    {
      var i', j' := s.height - 1 - i, s.width - 1 - j;
      assert r.pixels[i][j] == h.pixels[i'][j'];
      assert s.height - 1 - i' == i && s.width - 1 - j' == j;
    }
    forall i | 0 <= i < s.height
      ensures r.pixels[i] == s.pixels[i]
    {
    }
  }

  /** Four quarter turns give back the sprite: pixels, size, origin and box. */
  lemma TurnFourTimes(s: Shape)
    requires s.Valid()
    ensures TurnTimes(s, 4) == s
  {
    var h := TurnTimes(s, 2);
    TurnTwice(s);
    TurnTwice(h);
    TurnTimesAdd(s, 2, 2);
    var r := TurnTimes(h, 2);
    MirrorTwice(s, h, r);
    if s.bbox.Some? {
      RotateFourTimesIsIdentity(s.bbox.value);
    }
  }

  class Sprite {
    const width: nat
    const height: nat
    const originX: int
    const originY: int
    /** The colour index that is not drawn. */
    const transparent: int
    const pixels: seq<seq<int>>
    /** `bboxLeft`, `bboxRight`, `bboxTop` and `bboxBottom`: 0 stands for "not given", which `||` treats alike. */
    const bboxLeft: int
    const bboxRight: int
    const bboxTop: int
    const bboxBottom: int
    /** The box set by `computeBoundingBox` (or carried through a rotation); None while there is none. */
    var bbox: Option<Box>

    constructor (width: nat, height: nat, originX: int, originY: int, transparent: int, pixels: seq<seq<int>>,
                 bboxLeft: int, bboxRight: int, bboxTop: int, bboxBottom: int, bbox: Option<Box>)
      ensures this.width == width && this.height == height && this.originX == originX && this.originY == originY
      ensures this.transparent == transparent && this.pixels == pixels && this.bbox == bbox
      ensures this.bboxLeft == bboxLeft && this.bboxRight == bboxRight && this.bboxTop == bboxTop && this.bboxBottom == bboxBottom
    {
      this.width := width;
      this.height := height;
      this.originX := originX;
      this.originY := originY;
      this.transparent := transparent;
      this.pixels := pixels;
      this.bboxLeft := bboxLeft;
      this.bboxRight := bboxRight;
      this.bboxTop := bboxTop;
      this.bboxBottom := bboxBottom;
      this.bbox := bbox;
    }

    function AsShape(): Shape
      reads this`bbox
    {
      Shape(width, height, originX, originY, pixels, bbox)
    }

    predicate Valid()
    {
      Rectangular(pixels, width, height)
    }
  }

  /**
   * One pass of `rotateSprite`: a new sprite whose pixel rows are built
   * column by column from the source, bottom-up; it keeps the transparent
   * colour and has no custom box bounds.
   */
  method RotateOnce(s: Sprite) returns (r: Sprite)
    requires s.Valid()
    ensures fresh(r) && r.Valid()
    ensures r.AsShape() == Turn(s.AsShape()) && r.transparent == s.transparent
    ensures r.bboxLeft == 0 && r.bboxRight == 0 && r.bboxTop == 0 && r.bboxBottom == 0
  {
    var rows: seq<seq<int>> := [];
    var i := 0;
    while i < s.width
      invariant 0 <= i <= s.width && |rows| == i
      invariant forall a :: 0 <= a < i ==> rows[a] == TurnPixels(s.pixels, s.width, s.height)[a]
    {
      var line: seq<int> := [];
      var j := 0;
      while j < s.height
        invariant 0 <= j <= s.height && |line| == j
        invariant forall b :: 0 <= b < j ==> line[b] == s.pixels[s.height - 1 - b][i]
      {
        line := line + [s.pixels[s.height - 1 - j][i]];
        j := j + 1;
      }
      rows := rows + [line];
      i := i + 1;
    }
    assert rows == TurnPixels(s.pixels, s.width, s.height);
    var box := if s.bbox.Some? then Some(RotateBBox(s.bbox.value)) else None;
    r := new Sprite(s.height, s.width, s.height - s.originY, s.originX, s.transparent, rows, 0, 0, 0, 0, box);
  }

  /**
   * `rotateSprite(sprite, times)`: `times % 4` quarter turns, giving a
   * sprite with no custom box bounds. The recursion only ends for a count
   * that leaves a remainder of 1, 2 or 3; for any other count it never
   * reaches 1, so those counts are not accepted here.
   */
  method RotateSprite(s: Sprite, times: int) returns (r: Sprite)
    requires s.Valid() && times > 0 && times % 4 != 0
    ensures fresh(r) && r.Valid()
    ensures r.AsShape() == TurnTimes(s.AsShape(), times % 4) && r.transparent == s.transparent
    ensures r.bboxLeft == 0 && r.bboxRight == 0 && r.bboxTop == 0 && r.bboxBottom == 0
    decreases times % 4
  {
    var t := times % 4;
    r := RotateOnce(s);
    if t != 1 {
      r := RotateSprite(r, t - 1);
    }
  }

  /** Whether pixel (i, j) (row i, column j) exists and is drawn. */
  predicate Opaque(s: Sprite, i: int, j: int)
  {
    0 <= i < |s.pixels| && 0 <= j < |s.pixels[i]| && s.pixels[i][j] != s.transparent
  }

  ghost predicate HasOpaque(s: Sprite)
  {
    exists i, j :: Opaque(s, i, j)
  }

  /** The columns and rows the scan of `computeBoundingBox` settles on. */
  datatype Extent = Extent(minX: int, maxX: int, minY: int, maxY: int)

  /** Whether (i, j) comes before (row, col) in a row-major scan. */
  predicate Before(i: int, j: int, row: int, col: int)
  {
    i < row || (i == row && j < col)
  }

  /** Whether the scan has met a drawn pixel before (row, col). */
  ghost predicate SeenOpaque(s: Sprite, row: int, col: int)
  {
    exists i, j :: Opaque(s, i, j) && Before(i, j, row, col)
  }

  /**
   * What the scan knows at (row, col): every drawn pixel met so far lies
   * within `e`, each edge of `e` is attained by a drawn pixel, and if no
   * drawn pixel has been met `e` still holds the starting values
   * (width, 0, height, 0).
   */
  ghost predicate ExtentSoFar(s: Sprite, e: Extent, row: int, col: int)
  {
    (forall i, j :: Opaque(s, i, j) && Before(i, j, row, col) ==> e.minX <= j <= e.maxX && e.minY <= i <= e.maxY) &&
    (SeenOpaque(s, row, col) ==>
      (exists i :: Opaque(s, i, e.minX)) && (exists i :: Opaque(s, i, e.maxX)) &&
      (exists j :: Opaque(s, e.minY, j)) && (exists j :: Opaque(s, e.maxY, j))) &&
    (!SeenOpaque(s, row, col) ==> e == Extent(s.width, 0, s.height, 0))
  }

  /**
   * The extent of the drawn pixels: the least and greatest column and row
   * holding one, or (width, 0, height, 0) when every pixel is transparent.
   */
  ghost predicate IsExtent(s: Sprite, e: Extent)
  {
    (forall i, j :: Opaque(s, i, j) ==> e.minX <= j <= e.maxX && e.minY <= i <= e.maxY) &&
    (HasOpaque(s) ==>
      (exists i :: Opaque(s, i, e.minX)) && (exists i :: Opaque(s, i, e.maxX)) &&
      (exists j :: Opaque(s, e.minY, j)) && (exists j :: Opaque(s, e.maxY, j))) &&
    (!HasOpaque(s) ==> e == Extent(s.width, 0, s.height, 0))
  }

  /** There is only one extent, so the box `computeBoundingBox` stores is determined by the pixels. */
  lemma ExtentUnique(s: Sprite, e1: Extent, e2: Extent)
    requires IsExtent(s, e1) && IsExtent(s, e2)
    ensures e1 == e2
  {
    if HasOpaque(s) {
      var a :| Opaque(s, a, e1.minX);
      var b :| Opaque(s, b, e2.minX);
      var c :| Opaque(s, c, e1.maxX);
      var d :| Opaque(s, d, e2.maxX);
      var f :| Opaque(s, e1.minY, f);
      var g :| Opaque(s, e2.minY, g);
      var h :| Opaque(s, e1.maxY, h);
      var k :| Opaque(s, e2.maxY, k);
    }
  }

  /** The scan's update at a drawn pixel (row, col): each edge moves out to it if it lies beyond. */
  function Widen(e: Extent, row: int, col: int): Extent
  {
    Extent(if col < e.minX then col else e.minX, if col > e.maxX then col else e.maxX,
           if row < e.minY then row else e.minY, if row > e.maxY then row else e.maxY)
  }

  /** One step of a row-major scan adds exactly (row, col) to what has been visited. */
  lemma BeforeNext(row: int, col: int)
    ensures forall i, j :: Before(i, j, row, col + 1) <==> Before(i, j, row, col) || (i == row && j == col)
  {
  }

  /** Visiting pixel (row, col), widening at a drawn one, keeps what the scan knows one pixel further on. */
  lemma ScanStep(s: Sprite, e: Extent, row: int, col: int, e': Extent)
    requires s.Valid() && 0 <= row < s.height && 0 <= col < s.width && ExtentSoFar(s, e, row, col)
    requires e' == if Opaque(s, row, col) then Widen(e, row, col) else e
    ensures ExtentSoFar(s, e', row, col + 1)
  {
    BeforeNext(row, col);
    if Opaque(s, row, col) {
      assert SeenOpaque(s, row, col + 1);
      var w := Widen(e, row, col);
      if !SeenOpaque(s, row, col) {
        assert w == Extent(col, col, row, row);
        assert forall i, j :: Opaque(s, i, j) && Before(i, j, row, col + 1) ==> i == row && j == col;
      }
    } else {
      forall i, j | Opaque(s, i, j) && Before(i, j, row, col + 1)
        ensures Before(i, j, row, col)
      {
      }
      assert SeenOpaque(s, row, col + 1) == SeenOpaque(s, row, col);
    }
  }

  /** The inner loop of the scan: row `row`, column by column. */
  method ScanRow(s: Sprite, row: int, e0: Extent) returns (e: Extent)
    requires s.Valid() && 0 <= row < s.height && ExtentSoFar(s, e0, row, 0)
    ensures ExtentSoFar(s, e, row + 1, 0)
  {
    e := e0;
    var j := 0;
    while j < s.width
      invariant 0 <= j <= s.width && ExtentSoFar(s, e, row, j)
    {
      ghost var before := e;
      if Opaque(s, row, j) {
        e := Widen(e, row, j);
      }
      ScanStep(s, before, row, j, e);
      j := j + 1;
    }
    SameScanned(s, e, row);
  }

  /** Within the pixel matrix, "before the end of row `row`" and "before the start of row `row + 1`" agree. */
  lemma SameScanned(s: Sprite, e: Extent, row: int)
    requires s.Valid() && 0 <= row < s.height && ExtentSoFar(s, e, row, s.width)
    ensures ExtentSoFar(s, e, row + 1, 0)
  {
    assert forall i, j :: Opaque(s, i, j) ==> (Before(i, j, row + 1, 0) <==> Before(i, j, row, s.width));
    assert SeenOpaque(s, row + 1, 0) == SeenOpaque(s, row, s.width);
  }

  /**
   * `computeBoundingBox(sprite)`: scans the pixels for the drawn ones and
   * stores the box around them relative to the origin; a custom bound
   * that is given replaces the scanned edge. `e` is the extent the scan
   * found.
   */
  method ComputeBoundingBox(s: Sprite) returns (ghost e: Extent)
    requires s.Valid()
    modifies s`bbox
    ensures IsExtent(s, e) && s.bbox == Some(BoxOf(s, e))
  {
    var ext := Extent(s.width, 0, s.height, 0);
    var i := 0;
    while i < s.height
      invariant 0 <= i <= s.height && ExtentSoFar(s, ext, i, 0)
    {
      ext := ScanRow(s, i, ext);
      i := i + 1;
    }
    assert forall a, b :: Opaque(s, a, b) ==> Before(a, b, s.height, 0);
    s.bbox := Some(BoxOf(s, ext));
    e := ext;
  }

  /** The custom bound when one is given (non-zero), else the scanned value. */
  function Or(custom: int, scanned: int): int
  {
    if custom != 0 then custom else scanned
  }

  /** The stored box: each edge, custom or scanned, relative to the origin. */
  function BoxOf(s: Sprite, e: Extent): Box
  {
    Box((Or(s.bboxTop, e.minY) - s.originY) as real, (Or(s.bboxBottom, e.maxY) - s.originY) as real,
        (Or(s.bboxLeft, e.minX) - s.originX) as real, (Or(s.bboxRight, e.maxX) - s.originX) as real)
  }

  /**
   * With at least one drawn pixel and no custom bounds, the box is
   * well-formed, and each edge is the outermost drawn column or row less
   * the origin: no drawn pixel lies outside it and every edge touches one.
   */
  lemma ScannedBoxIsTight(s: Sprite, e: Extent)
    requires IsExtent(s, e) && HasOpaque(s)
    requires s.bboxLeft == 0 && s.bboxRight == 0 && s.bboxTop == 0 && s.bboxBottom == 0
    ensures WellFormed(BoxOf(s, e))
    ensures forall i, j :: Opaque(s, i, j) ==>
              BoxOf(s, e).left <= (j - s.originX) as real <= BoxOf(s, e).right &&
              BoxOf(s, e).up <= (i - s.originY) as real <= BoxOf(s, e).down
    ensures exists i :: Opaque(s, i, e.minX) && BoxOf(s, e).left == (e.minX - s.originX) as real
  {
    var i, j :| Opaque(s, i, j);
  }

  /** With every pixel transparent and no custom bounds, the box is turned inside out: left exceeds right unless the sprite has no columns. */
  lemma EmptySpriteBox(s: Sprite, e: Extent)
    requires IsExtent(s, e) && !HasOpaque(s)
    requires s.bboxLeft == 0 && s.bboxRight == 0 && s.bboxTop == 0 && s.bboxBottom == 0
    ensures BoxOf(s, e) == Box((s.height - s.originY) as real, (-s.originY) as real, (s.width - s.originX) as real, (-s.originX) as real)
  {
  }
}
