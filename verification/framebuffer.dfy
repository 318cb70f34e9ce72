/**
 * The emulated VGA screen of src/dosemu.js and lib/dosemu.mjs: a 320×200
 * image whose pixels are four bytes (red, green, blue, alpha) in row-major
 * order, drawn on through one pixel primitive (`drawPixel` in
 * src/dosemu.js, `putPixel` in lib/dosemu.mjs) that clips to the screen
 * and looks the colour index up in the 256-colour palette.
 *
 * What a drawing call leaves in the buffer is stated with `Painted`: the
 * old bytes, except that every on-screen pixel the call's map covers takes
 * the colour the map gives it.
 */
module Framebuffer {
  import opened Common
  import Sprites
  import Font

  const SCREEN_WIDTH := 320
  const SCREEN_HEIGHT := 200
  /** Four bytes per pixel: red, green, blue and alpha. */
  const BUFFER_SIZE := 4 * SCREEN_WIDTH * SCREEN_HEIGHT
  /** The colour index drawn in place of one outside 0..255. */
  const FALLBACK_COLOUR := 201
  const OPAQUE := 255

  /** The pixels a drawing call covers, each with the colour it gets. */
  type Cover = imap<(int, int), Rgb>

  /** The clip test of the pixel primitive, made on the coordinates before they are rounded down. */
  predicate OnScreen(x: real, y: real)
  {
    0.0 <= x < SCREEN_WIDTH as real && 0.0 <= y < SCREEN_HEIGHT as real
  }

  /** A whole-numbered pixel position on the screen. */
  predicate Visible(p: (int, int))
  {
    0 <= p.0 < SCREEN_WIDTH && 0 <= p.1 < SCREEN_HEIGHT
  }

  /** A point passes the clip test exactly when the pixel it rounds down to is on the screen. */
  lemma FloorOnScreen(x: real, y: real)
    ensures OnScreen(x, y) <==> Visible((x.Floor, y.Floor))
  {
  }

  /** The colour index actually drawn: indices outside 0..255 become 201. */
  function ColourIndex(colorIndex: int): (c: int)
    ensures 0 <= c < 256
    ensures 0 <= colorIndex <= 255 ==> c == colorIndex
    ensures (colorIndex < 0 || colorIndex > 255) ==> c == FALLBACK_COLOUR
  {
    if colorIndex < 0 || colorIndex > 255 then FALLBACK_COLOUR else colorIndex
  }

  /** The offset of the first byte of pixel p: four bytes per pixel, row after row. */
  function Offset(p: (int, int)): int
  {
    4 * (p.1 * SCREEN_WIDTH + p.0)
  }

  /** The pixel that byte k belongs to. */
  function PixelOf(k: int): (int, int)
  {
    ((k / 4) % SCREEN_WIDTH, (k / 4) / SCREEN_WIDTH)
  }

  /** The pixels tile the buffer: byte k is byte k % 4 of pixel PixelOf(k), and of no other. */
  lemma PixelOfByte(k: int)
    requires 0 <= k < BUFFER_SIZE
    ensures Visible(PixelOf(k)) && Offset(PixelOf(k)) + k % 4 == k
  {
  }

  /** Byte `ch` of an on-screen pixel lies in the buffer and belongs to that pixel. */
  lemma ByteOfPixel(p: (int, int), ch: int)
    requires Visible(p) && 0 <= ch < 4
    ensures 0 <= Offset(p) + ch < BUFFER_SIZE
    ensures PixelOf(Offset(p) + ch) == p && (Offset(p) + ch) % 4 == ch
  {
    var k := Offset(p) + ch;
    assert k / 4 == p.1 * SCREEN_WIDTH + p.0;
  }

  /** Byte `ch` of a pixel of colour c: red, green, blue, then an opaque alpha. */
  function Channel(c: Rgb, ch: int): int
  {
    if ch == 0 then c.r else if ch == 1 then c.g else if ch == 2 then c.b else OPAQUE
  }

  /** The buffer `before` with every on-screen pixel that `m` covers set to the colour `m` gives it. */
  ghost function Painted(before: seq<int>, m: Cover): (after: seq<int>)
    requires |before| == BUFFER_SIZE
    ensures |after| == BUFFER_SIZE
  {
    seq(BUFFER_SIZE, k requires 0 <= k < BUFFER_SIZE => if PixelOf(k) in m then Channel(m[PixelOf(k)], k % 4) else before[k])
  }

  /** Reading a painted buffer: a covered pixel's bytes are its colour and alpha 255, any other pixel's are as before. */
  lemma PaintedPixel(before: seq<int>, m: Cover, p: (int, int), ch: int)
    requires |before| == BUFFER_SIZE && Visible(p) && 0 <= ch < 4
    ensures 0 <= Offset(p) + ch < BUFFER_SIZE
    ensures p in m ==> Painted(before, m)[Offset(p) + ch] == Channel(m[p], ch)
    ensures p !in m ==> Painted(before, m)[Offset(p) + ch] == before[Offset(p) + ch]
  {
    ByteOfPixel(p, ch);
  }

  /** Painting with one map and then another is painting with the two, the second winning where both cover a pixel. */
  lemma PaintedTwice(before: seq<int>, m1: Cover, m2: Cover)
    requires |before| == BUFFER_SIZE
    ensures Painted(Painted(before, m1), m2) == Painted(before, m1 + m2)
  {
  }

  /** Two maps that cover the same on-screen pixels, with the same colours. */
  ghost predicate SameOnScreen(m1: Cover, m2: Cover)
  {
    (forall p :: Visible(p) ==> (p in m1 <==> p in m2)) &&
    (forall p :: Visible(p) && p in m1 && p in m2 ==> m1[p] == m2[p])
  }

  /** Only the on-screen part of a map matters. */
  lemma PaintedAgree(before: seq<int>, m1: Cover, m2: Cover)
    requires |before| == BUFFER_SIZE
    requires SameOnScreen(m1, m2)
    ensures Painted(before, m1) == Painted(before, m2)
  {
    forall k | 0 <= k < BUFFER_SIZE
      ensures Painted(before, m1)[k] == Painted(before, m2)[k]
    {
      PixelOfByte(k);
    }
  }

  /** What one call of the pixel primitive at (x, y) covers: the pixel (x, y) rounds down to, if it passes the clip test. */
  ghost function PointMap(x: real, y: real, c: Rgb): Cover
  {
    if OnScreen(x, y) then imap[(x.Floor, y.Floor) := c] else imap[]
  }

  /** Pixel p is the pixel of byte k exactly when k is one of p's four bytes. */
  lemma ByteInPixel(p: (int, int), k: int)
    requires Visible(p) && 0 <= k < BUFFER_SIZE
    ensures PixelOf(k) == p <==> Offset(p) <= k < Offset(p) + 4
  {
    PixelOfByte(k);
    if Offset(p) <= k < Offset(p) + 4 {
      ByteOfPixel(p, k - Offset(p));
    }
  }

  /**
   * One call of the pixel primitive: off the screen it writes nothing; on
   * it, it writes red, green, blue and alpha 255 into the four bytes at
   * 4·(⌊y⌋·320 + ⌊x⌋) and leaves every other byte as it was.
   */
  lemma PointWrite(before: seq<int>, x: real, y: real, c: Rgb)
    requires |before| == BUFFER_SIZE
    ensures !OnScreen(x, y) ==> Painted(before, PointMap(x, y, c)) == before
    ensures OnScreen(x, y) ==>
      var o := Offset((x.Floor, y.Floor));
      0 <= o && o + 4 <= BUFFER_SIZE &&
      Painted(before, PointMap(x, y, c))[o..o + 4] == [c.r, c.g, c.b, OPAQUE] &&
      forall k :: 0 <= k < BUFFER_SIZE && !(o <= k < o + 4) ==> Painted(before, PointMap(x, y, c))[k] == before[k]
  {
    var after := Painted(before, PointMap(x, y, c));
    if OnScreen(x, y) {
      var p := (x.Floor, y.Floor);
      forall ch | 0 <= ch < 4
        ensures after[Offset(p) + ch] == Channel(c, ch)
      {
        PaintedPixel(before, PointMap(x, y, c), p, ch);
      }
      forall k | 0 <= k < BUFFER_SIZE && !(Offset(p) <= k < Offset(p) + 4)
        ensures after[k] == before[k]
      {
        ByteInPixel(p, k);
      }
    } else {
      assert after == before;
    }
  }

  /** Moving a point by whole numbers moves the pixel it rounds down to by the same amounts. */
  lemma FloorShift(x: real, n: int)
    ensures (x + n as real).Floor == x.Floor + n
  {
  }

  /** Painting one more map after `done` paints `next`, when the two agree on the screen. */
  lemma PaintStep(before: seq<int>, done: Cover, m: Cover, next: Cover)
    requires |before| == BUFFER_SIZE
    requires SameOnScreen(done + m, next)
    ensures Painted(Painted(before, done), m) == Painted(before, next)
  {
    PaintedTwice(before, done, m);
    PaintedAgree(before, done + m, next);
  }

  /** On the screen, painting a point over `done` is adding the pixel it rounds down to. */
  lemma PointCover(done: Cover, x: real, y: real, c: Rgb)
    ensures SameOnScreen(done + PointMap(x, y, c), done[(x.Floor, y.Floor) := c])
  {
    FloorOnScreen(x, y);
  }

  /** The point (x + dx, y + dy) rounds down to (⌊x⌋ + dx, ⌊y⌋ + dy). */
  lemma ShiftedPointCover(done: Cover, x: real, y: real, dx: int, dy: int, c: Rgb)
    ensures SameOnScreen(done + PointMap(x + dx as real, y + dy as real, c), done[(x.Floor + dx, y.Floor + dy) := c])
  {
    FloorShift(x, dx);
    FloorShift(y, dy);
    FloorOnScreen(x + dx as real, y + dy as real);
  }

  /** Drawing at (x + dx, y + dy) adds pixel (⌊x⌋ + dx, ⌊y⌋ + dy), however x and y are rounded. */
  lemma PaintPoint(before: seq<int>, done: Cover, x: real, y: real, dx: int, dy: int, c: Rgb)
    requires |before| == BUFFER_SIZE
    ensures Painted(Painted(before, done), PointMap(x + dx as real, y + dy as real, c))
         == Painted(before, done[(x.Floor + dx, y.Floor + dy) := c])
  {
    ShiftedPointCover(done, x, y, dx, dy, c);
    PaintStep(before, done, PointMap(x + dx as real, y + dy as real, c), done[(x.Floor + dx, y.Floor + dy) := c]);
  }

  /** Drawing at a whole-numbered point adds that pixel. */
  lemma PaintPixel(before: seq<int>, done: Cover, x: int, y: int, c: Rgb)
    requires |before| == BUFFER_SIZE
    ensures Painted(Painted(before, done), PointMap(x as real, y as real, c)) == Painted(before, done[(x, y) := c])
  {
    PointCover(done, x as real, y as real, c);
    PaintStep(before, done, PointMap(x as real, y as real, c), done[((x as real).Floor, (y as real).Floor) := c]);
  }

  /** The colour a pixel of colour index `colorIndex` gets: the palette entry of the index actually drawn. */
  function Shade(palette: seq<Rgb>, colorIndex: int): Rgb
    requires |palette| == 256
  {
    palette[ColourIndex(colorIndex)]
  }

  /**
   * The pixels a bar from (x1, y1) to (x2, y2) paints. Its loops visit
   * x1 + i for every whole i ≥ 0 with x1 + i ≤ x2, and likewise y1 + j, and
   * the point (x1 + i, y1 + j) lands on pixel (⌊x1⌋ + i, ⌊y1⌋ + j).
   */
  ghost function BarMap(x1: real, y1: real, x2: real, y2: real, c: Rgb): Cover
  {
    imap p: (int, int) | x1.Floor <= p.0 && x1 + (p.0 - x1.Floor) as real <= x2 &&
                         y1.Floor <= p.1 && y1 + (p.1 - y1.Floor) as real <= y2 :: c
  }

  /** The pixels of a bar drawn line by line up to, but not including, step `i` of line `j`. */
  ghost function BarDone(x1: real, y1: real, x2: real, j: int, i: int, c: Rgb): Cover
  {
    imap p: (int, int) | x1.Floor <= p.0 && x1 + (p.0 - x1.Floor) as real <= x2 &&
                         y1.Floor <= p.1 <= y1.Floor + j && (p.1 < y1.Floor + j || p.0 < x1.Floor + i) :: c
  }

  lemma BarDoneStep(x1: real, y1: real, x2: real, j: int, i: int, c: Rgb)
    requires 0 <= i && x1 + i as real <= x2 && 0 <= j
    ensures BarDone(x1, y1, x2, j, i, c)[(x1.Floor + i, y1.Floor + j) := c] == BarDone(x1, y1, x2, j, i + 1, c)
  {
  }

  /** A line ends at the first step past x2: the next line starts with this one complete. */
  lemma BarDoneLine(x1: real, y1: real, x2: real, j: int, i: int, c: Rgb)
    requires 0 <= i && x1 + i as real > x2 && (i == 0 || x1 + (i - 1) as real <= x2) && 0 <= j
    ensures BarDone(x1, y1, x2, j, i, c) == BarDone(x1, y1, x2, j + 1, 0, c)
  {
  }

  /** The bar ends at the first line past y2, with every line complete. */
  lemma BarDoneAll(x1: real, y1: real, x2: real, y2: real, j: int, c: Rgb)
    requires 0 <= j && y1 + j as real > y2 && (j == 0 || y1 + (j - 1) as real <= y2)
    ensures BarDone(x1, y1, x2, j, 0, c) == BarMap(x1, y1, x2, y2, c)
  {
  }

  /** With whole-numbered corners, a bar paints the integer points (u, v) with x1 ≤ u ≤ x2 and y1 ≤ v ≤ y2. */
  lemma WholeBar(x1: int, y1: int, x2: int, y2: int, c: Rgb, p: (int, int))
    ensures p in BarMap(x1 as real, y1 as real, x2 as real, y2 as real, c) <==> x1 <= p.0 <= x2 && y1 <= p.1 <= y2
    ensures p in BarMap(x1 as real, y1 as real, x2 as real, y2 as real, c) ==> BarMap(x1 as real, y1 as real, x2 as real, y2 as real, c)[p] == c
  {
  }

  /** `setNoiseStrength(value)`: the value scaled to 0..23, kept within 1..23 and rounded down. */
  function NoiseLevel(value: real): (n: int)
    ensures 1 <= n <= 23
    ensures 1.0 <= value * 23.0 <= 23.0 ==> n == (value * 23.0).Floor
  {
    Min(23.0, Max(1.0, value * 23.0)).Floor
  }

  /** The noise strength `drawNoise` uses: its argument kept within 2..23. */
  function NoiseStrength(strength: real): (s: real)
    ensures 2.0 <= s <= 23.0
    ensures 2.0 <= strength <= 23.0 ==> s == strength
  {
    Min(23.0, Max(2.0, strength))
  }

  /** The colour index `drawNoise` gives a pixel from a random draw in [0, 1). */
  function NoiseColour(draw: real, strength: real): int
  {
    (232.0 + draw * strength).Floor
  }

  /** A draw in [0, 1) scaled by a positive strength stays below the strength. */
  lemma ScaledDraw(draw: real, s: real)
    requires 0.0 <= draw < 1.0 && s > 0.0
    ensures 0.0 <= draw * s < s
  {
    assert s - draw * s == s * (1.0 - draw);
  }

  lemma FloorWithin(z: real, lo: int, hi: int)
    requires lo as real <= z < hi as real
    ensures lo <= z.Floor < hi && z.Floor as real <= z
  {
  }

  /** With a strength in 2..23, as `drawNoise` clamps it, a noise pixel takes one of the grey indices 232..254, never the fallback colour. */
  lemma NoiseColourRange(draw: real, s: real)
    requires 0.0 <= draw < 1.0 && 2.0 <= s <= 23.0
    ensures 232 <= NoiseColour(draw, s) <= 254
    ensures (NoiseColour(draw, s) as real) < 232.0 + s
    ensures ColourIndex(NoiseColour(draw, s)) == NoiseColour(draw, s)
  {
    ScaledDraw(draw, s);
    assert draw * s < s;
    var z := 232.0 + draw * s;
    assert z < 232.0 + s;
    FloorWithin(z, 232, 255);
  }

  /** `drawRectangle` / `rectangle`: the top, left, right and bottom lines, each drawn as a bar. */
  ghost function RectangleMap(x1: real, y1: real, x2: real, y2: real, c: Rgb): Cover
  {
    BarMap(x1, y1, x2, y1, c) + BarMap(x1, y1, x1, y2, c) + BarMap(x2, y1, x2, y2, c) + BarMap(x1, y2, x2, y2, c)
  }

  /**
   * With whole-numbered corners in order, a rectangle is the outline of the
   * bar with the same corners; with x1 > x2 only its two upright sides remain.
   */
  lemma RectangleOutline(x1: int, y1: int, x2: int, y2: int, c: Rgb, p: (int, int))
    ensures x1 <= x2 && y1 <= y2 ==>
      (p in RectangleMap(x1 as real, y1 as real, x2 as real, y2 as real, c) <==>
       p in BarMap(x1 as real, y1 as real, x2 as real, y2 as real, c) && (p.0 == x1 || p.0 == x2 || p.1 == y1 || p.1 == y2))
    ensures x1 > x2 ==>
      (p in RectangleMap(x1 as real, y1 as real, x2 as real, y2 as real, c) <==> (p.0 == x1 || p.0 == x2) && y1 <= p.1 <= y2)
    ensures p in RectangleMap(x1 as real, y1 as real, x2 as real, y2 as real, c) ==> RectangleMap(x1 as real, y1 as real, x2 as real, y2 as real, c)[p] == c
  {
    WholeBar(x1, y1, x2, y1, c, p);
    WholeBar(x1, y1, x1, y2, c, p);
    WholeBar(x2, y1, x2, y2, c, p);
    WholeBar(x1, y2, x2, y2, c, p);
    WholeBar(x1, y1, x2, y2, c, p);
  }

  /** p is one of the eight images of offset o about (x, y). */
  predicate Symmetric(p: (int, int), x: int, y: int, o: (int, int))
  {
    ((p.0 == x + o.0 || p.0 == x - o.0) && (p.1 == y + o.1 || p.1 == y - o.1)) ||
    ((p.0 == x + o.1 || p.0 == x - o.1) && (p.1 == y + o.0 || p.1 == y - o.0))
  }

  /** The eight points symmetric to offset o about (x, y). */
  ghost function Octants(x: int, y: int, o: (int, int), c: Rgb): Cover
  {
    imap p: (int, int) | Symmetric(p, x, y, o) :: c
  }

  /** p is plotted by `drawCircle` for one of the offsets it visits. */
  predicate InCircle(x: int, y: int, offsets: seq<(int, int)>, p: (int, int))
    decreases |offsets|
  {
    offsets != [] && (InCircle(x, y, offsets[..|offsets| - 1], p) || Symmetric(p, x, y, offsets[|offsets| - 1]))
  }

  /** The points `drawCircle` plots for the offsets it visits, all in colour c. */
  ghost function CircleMap(x: int, y: int, offsets: seq<(int, int)>, c: Rgb): Cover
  {
    imap p: (int, int) | InCircle(x, y, offsets, p) :: c
  }

  /** A circle covers exactly the eight symmetric images of the offsets it visits, all in one colour. */
  lemma {:induction false} CirclePoints(x: int, y: int, offsets: seq<(int, int)>, c: Rgb, p: (int, int))
    ensures p in CircleMap(x, y, offsets, c) <==> exists k :: 0 <= k < |offsets| && Symmetric(p, x, y, offsets[k])
    ensures p in CircleMap(x, y, offsets, c) ==> CircleMap(x, y, offsets, c)[p] == c
    decreases |offsets|
  {
    if offsets != [] {
      var init := offsets[..|offsets| - 1];
      CirclePoints(x, y, init, c, p);
      if p in CircleMap(x, y, init, c) {
        var k :| 0 <= k < |init| && Symmetric(p, x, y, init[k]);
        assert offsets[k] == init[k];
      }
      if exists k :: 0 <= k < |offsets| && Symmetric(p, x, y, offsets[k]) {
        var k :| 0 <= k < |offsets| && Symmetric(p, x, y, offsets[k]);
        if k < |init| {
          assert init[k] == offsets[k];
        }
      }
    }
  }

  /**
   * Pixel (i, j) of glyph `code` is set: `charData[code][i][j]` is a
   * non-zero number. A pixel beyond the end of its line reads as
   * `undefined` and is not drawn.
   */
  predicate GlyphBit(font: Font.FontData, code: int, i: int, j: int)
  {
    0 <= code < |font.charData| && 0 <= i < |font.charData[code]| &&
    0 <= j < |font.charData[code][i]| && font.charData[code][i][j] != 0
  }

  /** The font has a size, and every character of `str` has a glyph with at least `charHeight` lines. */
  predicate Printable(font: Font.FontData, str: string)
  {
    font.charWidth.Some? && font.charHeight.Some? &&
    forall k :: 0 <= k < |str| ==> str[k] as int < |font.charData| && |font.charData[str[k] as int]| >= font.charHeight.value
  }

  /** The set pixels of glyph `code` drawn with its top-left pixel at (px, py): lines before i, and line i before column j. */
  ghost function GlyphDone(font: Font.FontData, code: int, px: int, py: int, i: int, j: int, c: Rgb): Cover
    requires font.charWidth.Some?
  {
    imap p: (int, int) | py <= p.1 <= py + i && px <= p.0 < px + font.charWidth.value &&
                         (p.1 < py + i || p.0 < px + j) && GlyphBit(font, code, p.1 - py, p.0 - px) :: c
  }

  /** Pixel p is a set pixel of glyph `code` within its charWidth × charHeight cell, placed at (px, py). */
  predicate InGlyph(font: Font.FontData, code: int, px: int, py: int, p: (int, int))
    requires font.charWidth.Some? && font.charHeight.Some?
  {
    px <= p.0 < px + font.charWidth.value && py <= p.1 < py + font.charHeight.value &&
    GlyphBit(font, code, p.1 - py, p.0 - px)
  }

  /** The set pixels of glyph `code` placed at (px, py), in colour c. */
  ghost function GlyphMap(font: Font.FontData, code: int, px: int, py: int, c: Rgb): Cover
    requires font.charWidth.Some? && font.charHeight.Some?
  {
    imap p: (int, int) | InGlyph(font, code, px, py, p) :: c
  }

  /** Pixel p is covered by a string drawn from (px, py): by its first character's glyph there, or by the rest of the string one charWidth to the right. */
  predicate InText(font: Font.FontData, px: int, py: int, str: string, p: (int, int))
    requires font.charWidth.Some? && font.charHeight.Some?
    decreases |str|
  {
    str != [] && (InGlyph(font, str[0] as int, px, py, p) || InText(font, px + font.charWidth.value, py, str[1..], p))
  }

  /** The pixels of a string drawn from (px, py), all in the one colour c. */
  ghost function TextMap(font: Font.FontData, px: int, py: int, str: string, c: Rgb): Cover
    requires font.charWidth.Some? && font.charHeight.Some?
  {
    imap p: (int, int) | InText(font, px, py, str, p) :: c
  }

  /** Pixel p of a non-empty string: from its first glyph, or from the rest of the string, drawn from npx on. */
  lemma TextMapFirst(font: Font.FontData, px: int, npx: int, py: int, str: string, c: Rgb, p: (int, int))
    requires font.charWidth.Some? && font.charHeight.Some? && str != [] && npx == px + font.charWidth.value
    ensures p in TextMap(font, px, py, str, c) <==>
      p in GlyphMap(font, str[0] as int, px, py, c) || p in TextMap(font, npx, py, str[1..], c)
  {
  }

  lemma CellsAfterFirst(n: nat, m: nat, cw: nat)
    requires m == n - 1
    ensures n * cw == cw + m * cw && m * cw >= 0
  {
  }

  /**
   * A string of n characters stays within its n cells: the pixels it covers
   * lie in the charWidth·n × charHeight box from (px, py), and all take the
   * text's colour.
   */
  lemma {:induction false} TextBox(font: Font.FontData, px: int, py: int, str: string, c: Rgb, p: (int, int))
    requires font.charWidth.Some? && font.charHeight.Some?
    ensures p in TextMap(font, px, py, str, c) ==>
      px <= p.0 < px + |str| * font.charWidth.value && py <= p.1 < py + font.charHeight.value &&
      TextMap(font, px, py, str, c)[p] == c
    decreases |str|
  {
    if str != [] {
      TextMapFirst(font, px, px + font.charWidth.value, py, str, c, p);
      CellsAfterFirst(|str|, |str[1..]|, font.charWidth.value);
      TextBox(font, px + font.charWidth.value, py, str[1..], c, p);
    }
  }

  /** Where `drawText` (src/dosemu.js) starts drawing: "right" ends the text at x, "center" centres it on (x, y). */
  function BackTextOrigin(x: real, y: real, len: nat, cw: nat, ch: nat, alignment: string): (o: (real, real))
    ensures alignment == "right" ==> o.0 + (len * cw) as real == x && o.1 == y
    ensures alignment == "center" ==> o.0 + (len * cw) as real / 2.0 == x && o.1 + ch as real / 2.0 == y
    ensures alignment != "right" && alignment != "center" ==> o == (x, y)
  {
    match alignment
    case "right" => (x - (len * cw) as real, y)
    case "center" => (x - (len * cw) as real / 2.0, y - ch as real / 2.0)
    case _ => (x, y)
  }

  /** Where `text` (lib/dosemu.mjs) starts drawing: as `drawText`, except that "center" puts the middle of the text (length + 1)/2 characters left of x. */
  function FrontTextOrigin(x: real, y: real, len: nat, cw: nat, ch: nat, alignment: string): (o: (real, real))
    ensures alignment == "right" ==> o.0 + (len * cw) as real == x && o.1 == y
    ensures alignment == "center" ==> o.0 + ((len + 1) * cw) as real / 2.0 == x && o.1 + ch as real / 2.0 == y
    ensures alignment != "right" && alignment != "center" ==> o == (x, y)
  {
    match alignment
    case "right" => (x - (len * cw) as real, y)
    case "center" => (x - ((len + 1) * cw) as real / 2.0, y - ch as real / 2.0)
    case _ => (x, y)
  }

  /** The two versions agree except when centring, where the later one starts half a character further left. */
  lemma TextOriginsDiffer(x: real, y: real, len: nat, cw: nat, ch: nat, alignment: string)
    ensures alignment != "center" ==> FrontTextOrigin(x, y, len, cw, ch, alignment) == BackTextOrigin(x, y, len, cw, ch, alignment)
    ensures alignment == "center" ==>
      FrontTextOrigin(x, y, len, cw, ch, alignment).0 == BackTextOrigin(x, y, len, cw, ch, alignment).0 - cw as real / 2.0 &&
      FrontTextOrigin(x, y, len, cw, ch, alignment).1 == BackTextOrigin(x, y, len, cw, ch, alignment).1
  {
  }

  /** Where a sprite's pixel (0, 0) goes when its origin is drawn at coordinate z. */
  function Corner(z: real, origin: int): real
  {
    z - origin as real
  }

  /** The sprite has at least `height` lines of at least `width` pixels, so every pixel the blit reads exists. */
  predicate Blittable(s: Sprites.Sprite)
  {
    |s.pixels| >= s.height && forall i :: 0 <= i < s.height ==> |s.pixels[i]| >= s.width
  }

  /** Pixel (i, j) of the sprite is drawn: it is not the transparent colour and, in ghost mode, i + j is even. */
  predicate Drawn(s: Sprites.Sprite, ghostMode: bool, i: int, j: int)
    requires Blittable(s) && 0 <= i < s.height && 0 <= j < s.width
  {
    s.pixels[i][j] != s.transparent && (!ghostMode || (i + j) % 2 == 0)
  }

  /** The drawn pixels of a sprite placed with its pixel (0, 0) at (px, py): lines before i, and line i before column j. */
  ghost function ImageDone(palette: seq<Rgb>, s: Sprites.Sprite, ghostMode: bool, px: int, py: int, i: int, j: int): Cover
    requires |palette| == 256 && Blittable(s)
  {
    imap p: (int, int) | py <= p.1 <= py + i && p.1 < py + s.height && px <= p.0 < px + s.width &&
                         (p.1 < py + i || p.0 < px + j) && Drawn(s, ghostMode, p.1 - py, p.0 - px)
                      :: Shade(palette, s.pixels[p.1 - py][p.0 - px])
  }

  /** The drawn pixels of a whole sprite placed with its pixel (0, 0) at (px, py), each in its own colour. */
  ghost function ImageMap(palette: seq<Rgb>, s: Sprites.Sprite, ghostMode: bool, px: int, py: int): Cover
    requires |palette| == 256 && Blittable(s)
  {
    imap p: (int, int) | px <= p.0 < px + s.width && py <= p.1 < py + s.height && Drawn(s, ghostMode, p.1 - py, p.0 - px)
                      :: Shade(palette, s.pixels[p.1 - py][p.0 - px])
  }

  /**
   * A blit never draws a transparent pixel, draws a ghost only on the even
   * squares, and a ghost is the full image with every other pixel left out.
   */
  lemma ImageSkips(palette: seq<Rgb>, s: Sprites.Sprite, px: int, py: int, p: (int, int))
    requires |palette| == 256 && Blittable(s)
    ensures p in ImageMap(palette, s, false, px, py) <==>
      px <= p.0 < px + s.width && py <= p.1 < py + s.height && s.pixels[p.1 - py][p.0 - px] != s.transparent
    ensures p in ImageMap(palette, s, true, px, py) <==>
      p in ImageMap(palette, s, false, px, py) && (p.0 - px + p.1 - py) % 2 == 0
    ensures p in ImageMap(palette, s, true, px, py) ==>
      ImageMap(palette, s, true, px, py)[p] == ImageMap(palette, s, false, px, py)[p] == Shade(palette, s.pixels[p.1 - py][p.0 - px])
  {
  }

  /** The grey of noise pixel (u, v): the one draw u·200 + v picks. */
  ghost function NoiseShade(palette: seq<Rgb>, draws: seq<real>, s: real, u: int, v: int): Rgb
    requires |palette| == 256 && |draws| == SCREEN_WIDTH * SCREEN_HEIGHT
    requires 0 <= u < SCREEN_WIDTH && 0 <= v < SCREEN_HEIGHT
  {
    Shade(palette, NoiseColour(draws[u * SCREEN_HEIGHT + v], s))
  }

  /** The noise pixels `drawNoise` has drawn column by column up to, but not including, (x, y); pixel (u, v) uses draw u·200 + v. */
  ghost function NoiseDone(palette: seq<Rgb>, draws: seq<real>, s: real, x: int, y: int): Cover
    requires |palette| == 256 && |draws| == SCREEN_WIDTH * SCREEN_HEIGHT
  {
    imap p: (int, int) | 0 <= p.0 <= x && p.0 < SCREEN_WIDTH && 0 <= p.1 < SCREEN_HEIGHT && (p.0 < x || p.1 < y)
                      :: NoiseShade(palette, draws, s, p.0, p.1)
  }

  /** The whole screen, pixel (u, v) in the grey that draw u·200 + v picks. */
  ghost function NoiseMap(palette: seq<Rgb>, draws: seq<real>, s: real): Cover
    requires |palette| == 256 && |draws| == SCREEN_WIDTH * SCREEN_HEIGHT
  {
    imap p: (int, int) | Visible(p) :: NoiseShade(palette, draws, s, p.0, p.1)
  }

  /**
   * Noise covers every pixel, so what was on the screen before does not
   * show through, and with draws in [0, 1) every pixel is one of the
   * palette's greys 232..254.
   */
  lemma NoiseCoversScreen(palette: seq<Rgb>, draws: seq<real>, strength: real, b1: seq<int>, b2: seq<int>)
    requires |palette| == 256 && |draws| == SCREEN_WIDTH * SCREEN_HEIGHT
    requires |b1| == BUFFER_SIZE && |b2| == BUFFER_SIZE
    requires forall k :: 0 <= k < |draws| ==> 0.0 <= draws[k] < 1.0
    ensures Painted(b1, NoiseMap(palette, draws, NoiseStrength(strength))) == Painted(b2, NoiseMap(palette, draws, NoiseStrength(strength)))
    ensures forall p :: Visible(p) ==>
      p in NoiseMap(palette, draws, NoiseStrength(strength)) &&
      exists g :: 232 <= g <= 254 && NoiseMap(palette, draws, NoiseStrength(strength))[p] == palette[g]
  {
    var s := NoiseStrength(strength);
    var m := NoiseMap(palette, draws, s);
    forall k | 0 <= k < BUFFER_SIZE
      ensures Painted(b1, m)[k] == Painted(b2, m)[k]
    {
      PixelOfByte(k);
    }
    forall p | Visible(p)
      ensures p in m && exists g :: 232 <= g <= 254 && m[p] == palette[g]
    {
      var g := NoiseColour(draws[p.0 * SCREEN_HEIGHT + p.1], s);
      NoiseColourRange(draws[p.0 * SCREEN_HEIGHT + p.1], s);
      assert m[p] == palette[g];
    }
  }

  /** Painting nothing leaves the buffer as it was. */
  lemma PaintedNothing(before: seq<int>)
    requires |before| == BUFFER_SIZE
    ensures Painted(before, imap[]) == before
  {
  }

  lemma GlyphDoneStep(font: Font.FontData, code: int, x: real, y: real, i: int, j: int, c: Rgb)
    requires font.charWidth.Some? && 0 <= i && 0 <= j < font.charWidth.value && GlyphBit(font, code, i, j)
    ensures GlyphDone(font, code, x.Floor, y.Floor, i, j, c)[(x.Floor + j, y.Floor + i) := c] == GlyphDone(font, code, x.Floor, y.Floor, i, j + 1, c)
  {
  }

  lemma GlyphDoneSkip(font: Font.FontData, code: int, px: int, py: int, i: int, j: int, c: Rgb)
    requires font.charWidth.Some? && 0 <= i && 0 <= j && !GlyphBit(font, code, i, j)
    ensures GlyphDone(font, code, px, py, i, j, c) == GlyphDone(font, code, px, py, i, j + 1, c)
  {
  }

  lemma GlyphDoneLine(font: Font.FontData, code: int, px: int, py: int, i: int, c: Rgb)
    requires font.charWidth.Some? && 0 <= i
    ensures GlyphDone(font, code, px, py, i, font.charWidth.value, c) == GlyphDone(font, code, px, py, i + 1, 0, c)
  {
  }

  lemma GlyphDoneAll(font: Font.FontData, code: int, px: int, py: int, c: Rgb)
    requires font.charWidth.Some? && font.charHeight.Some?
    ensures GlyphDone(font, code, px, py, 0, 0, c) == imap[]
    ensures GlyphDone(font, code, px, py, font.charHeight.value, 0, c) == GlyphMap(font, code, px, py, c)
  {
  }

  /** One character of a string: painting its glyph, then the rest of the string one cell on, paints the string. */
  lemma {:induction false} TextStep(font: Font.FontData, now: seq<int>, after: seq<int>, x: real, nx: real, py: int, str: string, k: int, c: Rgb,
                 rest: Cover, next: Cover, whole: seq<int>)
    requires font.charWidth.Some? && font.charHeight.Some? && |now| == BUFFER_SIZE && 0 <= k < |str|
    requires nx == x + font.charWidth.value as real
    requires rest == TextMap(font, x.Floor, py, str[k..], c) && next == TextMap(font, nx.Floor, py, str[k + 1..], c)
    requires Painted(now, rest) == whole
    requires after == Painted(now, GlyphMap(font, str[k] as int, x.Floor, py, c))
    ensures Painted(after, next) == whole
  {
    var g := GlyphMap(font, str[k] as int, x.Floor, py, c);
    FloorShift(x, font.charWidth.value);
    assert str[k..][0] == str[k] && str[k..][1..] == str[k + 1..];
    forall p | Visible(p)
      ensures (p in rest <==> p in g + next) && (p in rest && p in g + next ==> rest[p] == (g + next)[p])
    {
      TextMapFirst(font, x.Floor, nx.Floor, py, str[k..], c, p);
    }
    PaintedAgree(now, rest, g + next);
    PaintedTwice(now, g, next);
  }

  /** Drawing the eight points one after another covers `Octants`. */
  lemma OctantsInOrder(x: int, y: int, i: int, j: int, c: Rgb)
    ensures SameOnScreen(imap[][(x + i, y + j) := c][(x + i, y - j) := c][(x - i, y + j) := c][(x - i, y - j) := c]
                  [(x + j, y + i) := c][(x + j, y - i) := c][(x - j, y + i) := c][(x - j, y - i) := c],
                         Octants(x, y, (i, j), c))
  {
  }

  /** The offsets of a midpoint circle of radius r: (0, r) first, then (k, j_k) with k <= j_k <= r, j dropping by 0 or 1 each step. */
  ghost predicate MidpointOffsets(offsets: seq<(int, int)>, r: int)
  {
    (forall k :: 0 <= k < |offsets| ==> offsets[k].0 == k && k <= offsets[k].1 <= r) &&
    (|offsets| > 0 ==> offsets[0] == (0, r)) &&
    (forall k :: 0 < k < |offsets| ==> offsets[k].1 == offsets[k - 1].1 || offsets[k].1 == offsets[k - 1].1 - 1)
  }

  /** The offsets the midpoint walk visits from (i, j) with decision value d, while i <= j: after each offset i
      moves on by one, then d < 0 keeps j and adds 4i + 6, and otherwise j drops by one after adding 4(i - j) + 10. */
  ghost function MidpointFrom(i: int, j: int, d: int): seq<(int, int)>
    decreases j - i + 1
  {
    if i > j then []
    else if d < 0 then [(i, j)] + MidpointFrom(i + 1, j, d + (i + 1) * 4 + 6)
    else [(i, j)] + MidpointFrom(i + 1, j - 1, d + (i + 1 - j) * 4 + 10)
  }

  /** The whole walk for radius r: it starts at (0, r) with decision value 3 - 2r. */
  ghost function MidpointWalk(r: int): seq<(int, int)>
  {
    MidpointFrom(0, r, 3 - (r + r))
  }

  /** One step of the walk: the offsets so far followed by the walk from (i, j) are those offsets with (i, j) appended, followed by the walk from the next state. */
  lemma MidpointUnroll(offsets: seq<(int, int)>, i: int, j: int, d: int)
    requires i <= j
    ensures d < 0 ==> offsets + MidpointFrom(i, j, d) == (offsets + [(i, j)]) + MidpointFrom(i + 1, j, d + (i + 1) * 4 + 6)
    ensures d >= 0 ==> offsets + MidpointFrom(i, j, d) == (offsets + [(i, j)]) + MidpointFrom(i + 1, j - 1, d + (i + 1 - j) * 4 + 10)
  {
    var next := if d < 0 then MidpointFrom(i + 1, j, d + (i + 1) * 4 + 6) else MidpointFrom(i + 1, j - 1, d + (i + 1 - j) * 4 + 10);
    assert MidpointFrom(i, j, d) == [(i, j)] + next;
    assert offsets + ([(i, j)] + next) == (offsets + [(i, j)]) + next;
  }

  /** Once i has passed j the walk visits nothing more. */
  lemma MidpointDone(offsets: seq<(int, int)>, i: int, j: int, d: int)
    requires i > j
    ensures offsets + MidpointFrom(i, j, d) == offsets
  {
    assert MidpointFrom(i, j, d) == [];
  }

  /** The walk from (i, j) visits (i, j), (i + 1, j1), ... with each second coordinate between the first and j, dropping by 0 or 1 per step, and is empty exactly when i has passed j. */
  lemma {:induction false} MidpointFromShape(i: int, j: int, d: int)
    ensures var s := MidpointFrom(i, j, d);
      (|s| > 0 <==> i <= j) && (|s| > 0 ==> s[0] == (i, j)) &&
      (forall k :: 0 <= k < |s| ==> s[k].0 == i + k && i + k <= s[k].1 <= j) &&
      (forall k :: 0 < k < |s| ==> s[k].1 == s[k - 1].1 || s[k].1 == s[k - 1].1 - 1)
    decreases j - i + 1
  {
    if i <= j {
      var j', d' := if d < 0 then j else j - 1, if d < 0 then d + (i + 1) * 4 + 6 else d + (i + 1 - j) * 4 + 10;
      var rest := MidpointFrom(i + 1, j', d');
      MidpointFromShape(i + 1, j', d');
      var s := MidpointFrom(i, j, d);
      assert s == [(i, j)] + rest;
      forall k | 0 < k < |s|
        ensures s[k].0 == i + k && i + k <= s[k].1 <= j
        ensures s[k].1 == s[k - 1].1 || s[k].1 == s[k - 1].1 - 1
      {
        assert s[k] == rest[k - 1];
        if k > 1 { assert s[k - 1] == rest[k - 2]; }
      }
    }
  }

  /** The walk for radius r has the shape of a midpoint circle's offsets, and is empty exactly when r < 0. */
  lemma MidpointWalkShape(r: int)
    ensures MidpointOffsets(MidpointWalk(r), r)
    ensures r >= 0 <==> |MidpointWalk(r)| > 0
  {
    MidpointFromShape(0, r, 3 - (r + r));
  }

  /** One more step of the circle paints that step's octants over the circle so far. */
  lemma CircleStep(before: seq<int>, x: int, y: int, offsets: seq<(int, int)>, o: (int, int), c: Rgb)
    requires |before| == BUFFER_SIZE
    ensures Painted(Painted(before, CircleMap(x, y, offsets, c)), Octants(x, y, o, c)) == Painted(before, CircleMap(x, y, offsets + [o], c))
  {
    var s := offsets + [o];
    assert s[..|s| - 1] == offsets && s[|s| - 1] == o;
    PaintedTwice(before, CircleMap(x, y, offsets, c), Octants(x, y, o, c));
    PaintedAgree(before, CircleMap(x, y, offsets, c) + Octants(x, y, o, c), CircleMap(x, y, s, c));
  }

  lemma ImageDoneStepAt(palette: seq<Rgb>, s: Sprites.Sprite, ghostMode: bool, px: int, py: int, i: int, j: int, color: int)
    requires |palette| == 256 && Blittable(s) && 0 <= i < s.height && 0 <= j < s.width && Drawn(s, ghostMode, i, j)
    requires color == s.pixels[i][j]
    ensures ImageDone(palette, s, ghostMode, px, py, i, j)[(px + j, py + i) := Shade(palette, color)]
         == ImageDone(palette, s, ghostMode, px, py, i, j + 1)
  {
    var a := ImageDone(palette, s, ghostMode, px, py, i, j)[(px + j, py + i) := Shade(palette, color)];
    var b := ImageDone(palette, s, ghostMode, px, py, i, j + 1);
    var before := ImageDone(palette, s, ghostMode, px, py, i, j);
    var t := (px + j, py + i);
    assert t.1 - py == i && t.0 - px == j;
    assert t in b && b[t] == a[t];
    forall p | p != t
      ensures (p in a <==> p in b) && (p in b ==> a[p] == b[p])
    {
      assert p.0 != px + j || p.1 != py + i;
      assert (p in a <==> p in before) && (p in a ==> a[p] == before[p]);
      assert p in before <==> p in b;
    }
  }

  lemma ImageDoneStep(palette: seq<Rgb>, s: Sprites.Sprite, ghostMode: bool, x: real, y: real, i: int, j: int, color: int)
    requires |palette| == 256 && Blittable(s) && 0 <= i < s.height && 0 <= j < s.width && Drawn(s, ghostMode, i, j)
    requires color == s.pixels[i][j]
    ensures ImageDone(palette, s, ghostMode, x.Floor, y.Floor, i, j)[(x.Floor + j, y.Floor + i) := Shade(palette, color)]
         == ImageDone(palette, s, ghostMode, x.Floor, y.Floor, i, j + 1)
  {
    ImageDoneStepAt(palette, s, ghostMode, x.Floor, y.Floor, i, j, color);
  }

  lemma ImageDoneSkip(palette: seq<Rgb>, s: Sprites.Sprite, ghostMode: bool, px: int, py: int, i: int, j: int, color: int)
    requires |palette| == 256 && Blittable(s) && 0 <= i < s.height && 0 <= j < s.width
    requires color == s.pixels[i][j] && !(color != s.transparent && (!ghostMode || (i + j) % 2 == 0))
    ensures ImageDone(palette, s, ghostMode, px, py, i, j) == ImageDone(palette, s, ghostMode, px, py, i, j + 1)
  {
    var t := (px + j, py + i);
    assert t.1 - py == i && t.0 - px == j;
    assert t !in ImageDone(palette, s, ghostMode, px, py, i, j + 1);
    forall p | p != t
      ensures p in ImageDone(palette, s, ghostMode, px, py, i, j + 1) <==> p in ImageDone(palette, s, ghostMode, px, py, i, j)
    {
    }
  }

  lemma ImageDoneLine(palette: seq<Rgb>, s: Sprites.Sprite, ghostMode: bool, px: int, py: int, i: int)
    requires |palette| == 256 && Blittable(s) && 0 <= i
    ensures ImageDone(palette, s, ghostMode, px, py, i, s.width) == ImageDone(palette, s, ghostMode, px, py, i + 1, 0)
  {
  }

  lemma ImageDoneAll(palette: seq<Rgb>, s: Sprites.Sprite, ghostMode: bool, px: int, py: int)
    requires |palette| == 256 && Blittable(s)
    ensures ImageDone(palette, s, ghostMode, px, py, 0, 0) == imap[]
    ensures ImageDone(palette, s, ghostMode, px, py, s.height, 0) == ImageMap(palette, s, ghostMode, px, py)
  {
  }

  lemma NoiseDoneStep(palette: seq<Rgb>, draws: seq<real>, s: real, x: int, y: int, colour: int)
    requires |palette| == 256 && |draws| == SCREEN_WIDTH * SCREEN_HEIGHT
    requires 0 <= x < SCREEN_WIDTH && 0 <= y < SCREEN_HEIGHT && colour == NoiseColour(draws[x * SCREEN_HEIGHT + y], s)
    ensures NoiseDone(palette, draws, s, x, y)[(x, y) := Shade(palette, colour)]
         == NoiseDone(palette, draws, s, x, y + 1)
  {
    var a := NoiseDone(palette, draws, s, x, y)[(x, y) := Shade(palette, colour)];
    var b := NoiseDone(palette, draws, s, x, y + 1);
    var before := NoiseDone(palette, draws, s, x, y);
    assert (x, y) in b && b[(x, y)] == a[(x, y)];
    forall p | p != (x, y)
      ensures (p in a <==> p in b) && (p in b ==> a[p] == b[p])
    {
      assert p.0 != x || p.1 != y;
      assert (p in a <==> p in before) && (p in a ==> a[p] == before[p]);
      assert p in before <==> p in b;
    }
  }

  lemma NoiseDoneLine(palette: seq<Rgb>, draws: seq<real>, s: real, x: int)
    requires |palette| == 256 && |draws| == SCREEN_WIDTH * SCREEN_HEIGHT && 0 <= x
    ensures NoiseDone(palette, draws, s, x, SCREEN_HEIGHT) == NoiseDone(palette, draws, s, x + 1, 0)
  {
  }

  lemma NoiseDoneAll(palette: seq<Rgb>, draws: seq<real>, s: real)
    requires |palette| == 256 && |draws| == SCREEN_WIDTH * SCREEN_HEIGHT
    ensures NoiseDone(palette, draws, s, 0, 0) == imap[]
    ensures NoiseDone(palette, draws, s, SCREEN_WIDTH, 0) == NoiseMap(palette, draws, s)
  {
  }

  /**
   * The emulated screen: the 256-colour palette, the 320×200 RGBA image
   * (`data.backBuffer` in src/dosemu.js, `data.frontBuffer` in
   * lib/dosemu.mjs), the noise strength and the font text is drawn with.
   */
  class Screen {
    const palette: seq<Rgb>
    const buffer: array<int>
    const font: Font.FontData
    var noiseStrength: int

    ghost predicate Valid()
      reads this
    {
      |palette| == 256 && buffer.Length == BUFFER_SIZE && 1 <= noiseStrength <= 23
    }

    /** A fresh screen: every byte zero (transparent black) and noise strength 5. */
    constructor (palette: seq<Rgb>, font: Font.FontData)
      requires |palette| == 256
      ensures Valid() && fresh(buffer)
      ensures this.palette == palette && this.font == font
      ensures buffer[..] == seq(BUFFER_SIZE, k => 0) && noiseStrength == 5
    {
      this.palette := palette;
      this.font := font;
      buffer := new int[BUFFER_SIZE](k => 0);
      noiseStrength := 5;
    }

    /** `setNoiseStrength(value)`. */
    method SetNoiseStrength(value: real)
      requires Valid()
      modifies this`noiseStrength
      ensures Valid() && noiseStrength == NoiseLevel(value)
    {
      noiseStrength := Min(23.0, Max(1.0, value * 23.0)).Floor;
    }

    /**
     * `drawPixel(x, y, colorIndex)` / `putPixel(x, y, colorIndex)`: clip,
     * replace an index outside 0..255 by 201, round the point down and
     * write the palette colour and an opaque alpha into its four bytes.
     */
    method PutPixel(x: real, y: real, colorIndex: int)
      requires Valid()
      modifies buffer
      ensures Valid()
      ensures buffer[..] == Painted(old(buffer[..]), PointMap(x, y, Shade(palette, colorIndex)))
    {
      ghost var before := buffer[..];
      ghost var m := PointMap(x, y, Shade(palette, colorIndex));
      if x < 0.0 || x >= SCREEN_WIDTH as real || y < 0.0 || y >= SCREEN_HEIGHT as real {
        PointWrite(before, x, y, Shade(palette, colorIndex));
        return;
      }
      var ci := colorIndex;
      if ci < 0 || ci > 255 {
        ci := FALLBACK_COLOUR;
      }
      var px := x.Floor;
      var py := y.Floor;
      var offset := 4 * (py * SCREEN_WIDTH + px);
      ByteOfPixel((px, py), 3);
      buffer[offset + 0] := palette[ci].r;
      buffer[offset + 1] := palette[ci].g;
      buffer[offset + 2] := palette[ci].b;
      buffer[offset + 3] := OPAQUE;
      PointWrite(before, x, y, Shade(palette, colorIndex));
      forall k | 0 <= k < BUFFER_SIZE
        ensures buffer[k] == Painted(before, m)[k]
      {
        if offset <= k < offset + 4 {
          assert Painted(before, m)[offset..offset + 4][k - offset] == Painted(before, m)[k];
        }
      }
    }

    /** Line `j` of a bar, at height y = y1 + j: the points x1, x1 + 1, .. up to x2, added to those of the lines above it. */
    method BarLine(x1: real, y1: real, x2: real, y: real, colorIndex: int, ghost j: int, ghost before: seq<int>)
      requires Valid() && |before| == BUFFER_SIZE && 0 <= j && y == y1 + j as real
      requires buffer[..] == Painted(before, BarDone(x1, y1, x2, j, 0, Shade(palette, colorIndex)))
      modifies buffer
      ensures buffer[..] == Painted(before, BarDone(x1, y1, x2, j + 1, 0, Shade(palette, colorIndex)))
    {
      ghost var c := Shade(palette, colorIndex);
      var x := x1;
      ghost var i := 0;
      while x <= x2
        invariant 0 <= i && x == x1 + i as real && (i == 0 || x1 + (i - 1) as real <= x2)
        invariant buffer[..] == Painted(before, BarDone(x1, y1, x2, j, i, c))
        decreases (x2 - x1).Floor + 1 - i
      {
        PointAt(x, y, colorIndex, x1, y1, i, j, before, BarDone(x1, y1, x2, j, i, c));
        BarDoneStep(x1, y1, x2, j, i, c);
        x := x + 1.0;
        i := i + 1;
      }
      BarDoneLine(x1, y1, x2, j, i, c);
    }

    /**
     * `drawBar(x1, y1, x2, y2, color)` / `bar(...)`: the points (x1 + i, y1 + j)
     * up to (x2, y2), line by line, each landing on the pixel it rounds down to.
     */
    method Bar(x1: real, y1: real, x2: real, y2: real, colorIndex: int)
      requires Valid()
      modifies buffer
      ensures buffer[..] == Painted(old(buffer[..]), BarMap(x1, y1, x2, y2, Shade(palette, colorIndex)))
    {
      ghost var before := buffer[..];
      ghost var c := Shade(palette, colorIndex);
      assert BarDone(x1, y1, x2, 0, 0, c) == imap[];
      PaintedNothing(before);
      var y := y1;
      ghost var j := 0;
      while y <= y2
        invariant 0 <= j && y == y1 + j as real && (j == 0 || y1 + (j - 1) as real <= y2)
        invariant buffer[..] == Painted(before, BarDone(x1, y1, x2, j, 0, c))
        decreases (y2 - y1).Floor + 1 - j
      {
        BarLine(x1, y1, x2, y, colorIndex, j, before);
        y := y + 1.0;
        j := j + 1;
      }
      BarDoneAll(x1, y1, x2, y2, j, c);
    }

    /** `drawRectangle(x1, y1, x2, y2, color)` / `rectangle(...)`: four bars, top, left, right and bottom. */
    method Rectangle(x1: real, y1: real, x2: real, y2: real, colorIndex: int)
      requires Valid()
      modifies buffer
      ensures buffer[..] == Painted(old(buffer[..]), RectangleMap(x1, y1, x2, y2, Shade(palette, colorIndex)))
    {
      ghost var before := buffer[..];
      ghost var c := Shade(palette, colorIndex);
      Bar(x1, y1, x2, y1, colorIndex);
      Bar(x1, y1, x1, y2, colorIndex);
      PaintedTwice(before, BarMap(x1, y1, x2, y1, c), BarMap(x1, y1, x1, y2, c));
      Bar(x2, y1, x2, y2, colorIndex);
      PaintedTwice(before, BarMap(x1, y1, x2, y1, c) + BarMap(x1, y1, x1, y2, c), BarMap(x2, y1, x2, y2, c));
      Bar(x1, y2, x2, y2, colorIndex);
      PaintedTwice(before, BarMap(x1, y1, x2, y1, c) + BarMap(x1, y1, x1, y2, c) + BarMap(x2, y1, x2, y2, c), BarMap(x1, y2, x2, y2, c));
    }

    /** The pixel primitive at a whole-numbered point, drawn over the pixels `done` already painted over `before`. */
    method PlotOver(x: int, y: int, colorIndex: int, ghost before: seq<int>, ghost done: Cover, ghost c: Rgb)
      requires Valid() && |before| == BUFFER_SIZE && buffer[..] == Painted(before, done) && c == Shade(palette, colorIndex)
      modifies buffer
      ensures Valid()
      ensures buffer[..] == Painted(before, done[(x, y) := c])
    {
      PutPixel(x as real, y as real, colorIndex);
      PaintPixel(before, done, x, y, c);
    }

    /** The pixel primitive at (x + dx, y + dy), drawn over the pixels `done` already painted over `before`. */
    method PointOver(x: real, y: real, dx: int, dy: int, colorIndex: int, ghost before: seq<int>, ghost done: Cover)
      requires Valid() && |before| == BUFFER_SIZE && buffer[..] == Painted(before, done)
      modifies buffer
      ensures Valid()
      ensures buffer[..] == Painted(before, done[(x.Floor + dx, y.Floor + dy) := Shade(palette, colorIndex)])
    {
      PointAt(x + dx as real, y + dy as real, colorIndex, x, y, dx, dy, before, done);
    }

    /** The pixel primitive at the point (x, y) = (x0 + i, y0 + j), drawn over the pixels `done` already painted over `before`. */
    method PointAt(x: real, y: real, colorIndex: int, ghost x0: real, ghost y0: real, ghost i: int, ghost j: int,
                   ghost before: seq<int>, ghost done: Cover)
      requires Valid() && |before| == BUFFER_SIZE && buffer[..] == Painted(before, done)
      requires x == x0 + i as real && y == y0 + j as real
      modifies buffer
      ensures Valid()
      ensures buffer[..] == Painted(before, done[(x0.Floor + i, y0.Floor + j) := Shade(palette, colorIndex)])
    {
      PutPixel(x, y, colorIndex);
      PaintPoint(before, done, x0, y0, i, j, Shade(palette, colorIndex));
    }

    /** Two points of a circle step: (px, y + b), then (px, y - b). */
    method PlotPair(px: int, y: int, b: int, colorIndex: int, ghost before: seq<int>, ghost done: Cover, ghost c: Rgb)
      requires Valid() && |before| == BUFFER_SIZE && buffer[..] == Painted(before, done) && c == Shade(palette, colorIndex)
      modifies buffer
      ensures Valid()
      ensures buffer[..] == Painted(before, done[(px, y + b) := c][(px, y - b) := c])
    {
      PlotOver(px, y + b, colorIndex, before, done, c);
      PlotOver(px, y - b, colorIndex, before, done[(px, y + b) := c], c);
    }

    /** Four of the eight points of a circle step: (x ± a, y ± b), in the order `drawCircle` draws them. */
    method PlotQuad(x: int, y: int, a: int, b: int, colorIndex: int, ghost before: seq<int>, ghost done: Cover, ghost c: Rgb)
      requires Valid() && |before| == BUFFER_SIZE && buffer[..] == Painted(before, done) && c == Shade(palette, colorIndex)
      modifies buffer
      ensures Valid()
      ensures buffer[..] == Painted(before, done[(x + a, y + b) := c][(x + a, y - b) := c][(x - a, y + b) := c][(x - a, y - b) := c])
    {
      PlotPair(x + a, y, b, colorIndex, before, done, c);
      PlotPair(x - a, y, b, colorIndex, before, done[(x + a, y + b) := c][(x + a, y - b) := c], c);
    }

    /** One step of `drawCircle`: the eight pixels symmetric to offset (i, j) about (x, y). */
    /** Plotting one more offset extends the circle painted over `before` by that offset's octants. */
    method PlotStep(x: int, y: int, i: int, j: int, colorIndex: int, ghost before: seq<int>, ghost offsets: seq<(int, int)>, ghost c: Rgb)
      requires Valid() && c == Shade(palette, colorIndex) && |before| == BUFFER_SIZE
      requires buffer[..] == Painted(before, CircleMap(x, y, offsets, c))
      modifies buffer
      ensures Valid()
      ensures buffer[..] == Painted(before, CircleMap(x, y, offsets + [(i, j)], c))
    {
      PlotOctants(x, y, i, j, colorIndex, c);
      CircleStep(before, x, y, offsets, (i, j), c);
    }

    method PlotOctants(x: int, y: int, i: int, j: int, colorIndex: int, ghost c: Rgb)
      requires Valid() && c == Shade(palette, colorIndex)
      modifies buffer
      ensures Valid()
      ensures buffer[..] == Painted(old(buffer[..]), Octants(x, y, (i, j), c))
    {
      ghost var before := buffer[..];
      PaintedNothing(before);
      PlotQuad(x, y, i, j, colorIndex, before, imap[], c);
      PlotQuad(x, y, j, i, colorIndex, before, imap[][(x + i, y + j) := c][(x + i, y - j) := c][(x - i, y + j) := c][(x - i, y - j) := c], c);
      OctantsInOrder(x, y, i, j, c);
      PaintedAgree(before, imap[][(x + i, y + j) := c][(x + i, y - j) := c][(x - i, y + j) := c][(x - i, y - j) := c]
                  [(x + j, y + i) := c][(x + j, y - i) := c][(x - j, y + i) := c][(x - j, y - i) := c], Octants(x, y, (i, j), c));
    }

    /**
     * `drawCircle(x, y, r, color)` / `circle(...)`: the midpoint circle. It
     * visits the offsets (0, r), (1, j1), (2, j2), ... with j dropping by 0
     * or 1 each step, stops once i passes j, and plots the eight symmetric
     * images of each offset.
     */
    method Circle(x: int, y: int, r: int, colorIndex: int) returns (ghost offsets: seq<(int, int)>)
      requires Valid()
      modifies buffer
      ensures buffer[..] == Painted(old(buffer[..]), CircleMap(x, y, offsets, Shade(palette, colorIndex)))
      ensures offsets == MidpointWalk(r)
      ensures MidpointOffsets(offsets, r) && (r >= 0 <==> |offsets| > 0)
    {
      ghost var before := buffer[..];
      ghost var c := Shade(palette, colorIndex);
      var d := 3 - (r + r);
      var i := 0;
      var j := r;
      offsets := [];
      ghost var walk := MidpointWalk(r);
      PaintedNothing(before);
      while i <= j
        invariant buffer[..] == Painted(before, CircleMap(x, y, offsets, c))
        invariant offsets + MidpointFrom(i, j, d) == walk
        decreases j - i + 1
      {
        PlotStep(x, y, i, j, colorIndex, before, offsets, c);
        MidpointUnroll(offsets, i, j, d);
        offsets := offsets + [(i, j)];
        i := i + 1;
        if d < 0 {
          d := d + i * 4 + 6;
        } else {
          d := d + (i - j) * 4 + 10;
          j := j - 1;
        }
      }
      MidpointDone(offsets, i, j, d);
      MidpointWalkShape(r);
    }

    /** One character of `drawText` / `text`: the set pixels of glyph `code`, line by line, from the top-left corner (x, y). */
    method DrawGlyph(x: real, y: real, code: int, colorIndex: int)
      requires Valid() && font.charWidth.Some? && font.charHeight.Some?
      requires 0 <= code < |font.charData| && |font.charData[code]| >= font.charHeight.value
      modifies buffer
      ensures buffer[..] == Painted(old(buffer[..]), GlyphMap(font, code, x.Floor, y.Floor, Shade(palette, colorIndex)))
    {
      ghost var before := buffer[..];
      ghost var c := Shade(palette, colorIndex);
      var cw, ch := font.charWidth.value, font.charHeight.value;
      GlyphDoneAll(font, code, x.Floor, y.Floor, c);
      PaintedNothing(before);
      for i := 0 to ch
        invariant buffer[..] == Painted(before, GlyphDone(font, code, x.Floor, y.Floor, i, 0, c))
      {
        for j := 0 to cw
          invariant buffer[..] == Painted(before, GlyphDone(font, code, x.Floor, y.Floor, i, j, c))
        {
          if GlyphBit(font, code, i, j) {
            PointOver(x, y, j, i, colorIndex, before, GlyphDone(font, code, x.Floor, y.Floor, i, j, c));
            GlyphDoneStep(font, code, x, y, i, j, c);
          } else {
            GlyphDoneSkip(font, code, x.Floor, y.Floor, i, j, c);
          }
        }
        GlyphDoneLine(font, code, x.Floor, y.Floor, i, c);
      }
    }

    /** The loop over the characters of a string shared by `drawText` and `text`: each glyph, then x moves on by charWidth. */
    method DrawString(x: real, y: real, str: string, colorIndex: int)
      requires Valid() && Printable(font, str)
      modifies buffer
      ensures buffer[..] == Painted(old(buffer[..]), TextMap(font, x.Floor, y.Floor, str, Shade(palette, colorIndex)))
    {
      ghost var before := buffer[..];
      ghost var c := Shade(palette, colorIndex);
      var cw := font.charWidth.value;
      var cx := x;
      for k := 0 to |str|
        invariant Painted(buffer[..], TextMap(font, cx.Floor, y.Floor, str[k..], c)) == Painted(before, TextMap(font, x.Floor, y.Floor, str, c))
      {
        ghost var now := buffer[..];
        DrawGlyph(cx, y, str[k] as int, colorIndex);
        var nx := cx + cw as real;
        TextStep(font, now, buffer[..], cx, nx, y.Floor, str, k, c, TextMap(font, cx.Floor, y.Floor, str[k..], c),
                 TextMap(font, nx.Floor, y.Floor, str[k + 1..], c), Painted(before, TextMap(font, x.Floor, y.Floor, str, c)));
        cx := nx;
      }
      assert str[|str|..] == [];
      PaintedAgree(buffer[..], TextMap(font, cx.Floor, y.Floor, str[|str|..], c), imap[]);
      PaintedNothing(buffer[..]);
    }

    /** `drawText(x, y, str, color, alignment)` of src/dosemu.js. */
    method DrawText(x: real, y: real, str: string, colorIndex: int, alignment: string)
      requires Valid() && Printable(font, str)
      modifies buffer
      ensures var o := BackTextOrigin(x, y, |str|, font.charWidth.value, font.charHeight.value, alignment);
        buffer[..] == Painted(old(buffer[..]), TextMap(font, o.0.Floor, o.1.Floor, str, Shade(palette, colorIndex)))
    {
      var o := BackTextOrigin(x, y, |str|, font.charWidth.value, font.charHeight.value, alignment);
      DrawString(o.0, o.1, str, colorIndex);
    }

    /** `text(x, y, str, color, alignment)` of lib/dosemu.mjs. */
    method Text(x: real, y: real, str: string, colorIndex: int, alignment: string)
      requires Valid() && Printable(font, str)
      modifies buffer
      ensures var o := FrontTextOrigin(x, y, |str|, font.charWidth.value, font.charHeight.value, alignment);
        buffer[..] == Painted(old(buffer[..]), TextMap(font, o.0.Floor, o.1.Floor, str, Shade(palette, colorIndex)))
    {
      var o := FrontTextOrigin(x, y, |str|, font.charWidth.value, font.charHeight.value, alignment);
      DrawString(o.0, o.1, str, colorIndex);
    }

    /**
     * The loops of `drawImageTargeted`, once the origin has been
     * subtracted: line by line, every pixel that is not the transparent
     * colour (and, in ghost mode, lies on an even square) is drawn at
     * (x0 + j, y0 + i) in its own colour.
     */
    method BlitAt(x0: real, y0: real, s: Sprites.Sprite, ghostMode: bool)
      requires Valid() && Blittable(s)
      modifies buffer
      ensures buffer[..] == Painted(old(buffer[..]), ImageMap(palette, s, ghostMode, x0.Floor, y0.Floor))
    {
      ghost var before := buffer[..];
      ImageDoneAll(palette, s, ghostMode, x0.Floor, y0.Floor);
      PaintedNothing(before);
      for i := 0 to s.height
        invariant buffer[..] == Painted(before, ImageDone(palette, s, ghostMode, x0.Floor, y0.Floor, i, 0))
      {
        for j := 0 to s.width
          invariant buffer[..] == Painted(before, ImageDone(palette, s, ghostMode, x0.Floor, y0.Floor, i, j))
        {
          var color := s.pixels[i][j];
          if color != s.transparent && (!ghostMode || (i + j) % 2 == 0) {
            PointOver(x0, y0, j, i, color, before, ImageDone(palette, s, ghostMode, x0.Floor, y0.Floor, i, j));
            ImageDoneStep(palette, s, ghostMode, x0, y0, i, j, color);
          } else {
            ImageDoneSkip(palette, s, ghostMode, x0.Floor, y0.Floor, i, j, color);
          }
        }
        ImageDoneLine(palette, s, ghostMode, x0.Floor, y0.Floor, i);
      }
    }

    /**
     * `drawImageTargeted(x, y, sprite, putPixel, ghost)`: the sprite drawn
     * with its origin at (x, y); the front buffer's version has no ghost
     * mode, which is `ghostMode == false`.
     */
    method DrawImage(x: real, y: real, s: Sprites.Sprite, ghostMode: bool)
      requires Valid() && Blittable(s)
      modifies buffer
      ensures buffer[..] == Painted(old(buffer[..]),
        ImageMap(palette, s, ghostMode, Corner(x, s.originX).Floor, Corner(y, s.originY).Floor))
    {
      BlitAt(Corner(x, s.originX), Corner(y, s.originY), s, ghostMode);
    }

    /**
     * `drawNoise(strength)`: the strength kept within 2..23, then every
     * pixel, column by column, in the grey `⌊232 + draw·strength⌋`. The
     * random draws are a parameter: pixel (x, y) uses draw x·200 + y.
     */
    method DrawNoise(strength: real, draws: seq<real>)
      requires Valid() && |draws| == SCREEN_WIDTH * SCREEN_HEIGHT
      modifies buffer
      ensures buffer[..] == Painted(old(buffer[..]), NoiseMap(palette, draws, NoiseStrength(strength)))
    {
      ghost var before := buffer[..];
      var s := NoiseStrength(strength);
      NoiseDoneAll(palette, draws, s);
      PaintedNothing(before);
      for x := 0 to SCREEN_WIDTH
        invariant buffer[..] == Painted(before, NoiseDone(palette, draws, s, x, 0))
      {
        for y := 0 to SCREEN_HEIGHT
          invariant buffer[..] == Painted(before, NoiseDone(palette, draws, s, x, y))
        {
          var colour := NoiseColour(draws[x * SCREEN_HEIGHT + y], s);
          PlotOver(x, y, colour, before, NoiseDone(palette, draws, s, x, y), Shade(palette, colour));
          NoiseDoneStep(palette, draws, s, x, y, colour);
        }
        NoiseDoneLine(palette, draws, s, x);
      }
    }
  }
}
