/**
 * The font converter (tools/fontconv/convert-fnt.js): a DOS bitmap font
 * file becomes the font the emulator draws text with.
 *
 * The file holds the character width and height in its first two bytes,
 * then 256 characters of ten bytes each, one byte per pixel line and one
 * bit per pixel, bit j (counted from the least significant) being pixel j.
 */
module Font {
  import opened Common

  /** A byte of the font file. */
  type Byte = x: int | 0 <= x < 256

  const HEADER_SIZE := 2
  const CHAR_COUNT := 256
  const CHAR_LINES := 10
  const LINE_PIXELS := 8
  /** The size of a complete font file. */
  const FILE_SIZE := HEADER_SIZE + CHAR_COUNT * CHAR_LINES

  /** `buf[k]`: byte k of the file, or `undefined` past its end. */
  function ByteAt(buf: seq<Byte>, k: nat): Option<Byte>
  {
    if k < |buf| then Some(buf[k]) else None
  }

  function Pow2(n: nat): (p: nat)
    ensures p > 0
  {
    if n == 0 then 1 else 2 * Pow2(n - 1)
  }

  /** Bit j of v, counted from the least significant: the last binary digit of v halved j times. */
  function Bit(v: nat, j: nat): (b: int)
    ensures b == 0 || b == 1
  {
    if j == 0 then v % 2 else Bit(v / 2, j - 1)
  }

  /**
   * `(b & (1 << j)) !== 0 ? 1 : 0`: pixel j of a line whose byte is `b`.
   * A byte read past the end of the file is `undefined`, which `&` takes
   * as 0, so its pixels are all clear.
   */
  function Pixel(b: Option<Byte>, j: nat): (p: int)
    ensures p == 0 || p == 1
    ensures p == 1 <==> b.Some? && Bit(b.value, j) == 1
  {
    match b
    case None => 0
    case Some(v) => Bit(v, j)
  }

  /** The eight pixels of a line. */
  function LinePixels(b: Option<Byte>): seq<int>
  {
    seq(LINE_PIXELS, j requires 0 <= j => Pixel(b, j))
  }

  /** A matrix of `rows` lines of eight 0/1 pixels. */
  predicate Glyph(m: seq<seq<int>>, rows: nat)
  {
    |m| == rows && forall i :: 0 <= i < rows ==> |m[i]| == LINE_PIXELS && forall j :: 0 <= j < LINE_PIXELS ==> m[i][j] == 0 || m[i][j] == 1
  }

  /** What `toCharData` makes of ten line bytes: line i, pixel j is bit j of byte i. */
  function CharMatrix(bytes: seq<Option<Byte>>): (m: seq<seq<int>>)
    requires |bytes| == CHAR_LINES
    ensures Glyph(m, CHAR_LINES)
    ensures forall i, j :: 0 <= i < CHAR_LINES && 0 <= j < LINE_PIXELS ==> m[i][j] == Pixel(bytes[i], j)
  {
    seq(CHAR_LINES, i requires 0 <= i < CHAR_LINES => LinePixels(bytes[i]))
  }

  /** `toCharData(bytes)`: ten lines of eight pixels, pixel j of line i being bit j of byte i. */
  method ToCharData(bytes: seq<Option<Byte>>) returns (charData: seq<seq<int>>)
    requires |bytes| == CHAR_LINES
    ensures charData == CharMatrix(bytes)
  {
    charData := [];
    for i := 0 to CHAR_LINES
      invariant |charData| == i
      invariant forall r :: 0 <= r < i ==> charData[r] == LinePixels(bytes[r])
    {
      var charLine := [];
      for j := 0 to LINE_PIXELS
        invariant charLine == seq(j, k requires 0 <= k => Pixel(bytes[i], k))
      {
        charLine := charLine + [Pixel(bytes[i], j)];
      }
      charData := charData + [charLine];
    }
  }

  /** The converted font: width, height and the 256 character matrices. */
  datatype FontData = FontData(charWidth: Option<Byte>, charHeight: Option<Byte>, charData: seq<seq<seq<int>>>)

  /** The ten line bytes of character c, read from offset 2 + 10c. */
  function CharBytes(buf: seq<Byte>, c: nat): seq<Option<Byte>>
  {
    seq(CHAR_LINES, l requires 0 <= l => ByteAt(buf, HEADER_SIZE + c * CHAR_LINES + l))
  }

  /** The font the converter makes of the file `buf`. */
  function FontOf(buf: seq<Byte>): (font: FontData)
    ensures font.charWidth == ByteAt(buf, 0) && font.charHeight == ByteAt(buf, 1)
    ensures |font.charData| == CHAR_COUNT && forall c :: 0 <= c < CHAR_COUNT ==> Glyph(font.charData[c], CHAR_LINES)
  {
    FontData(ByteAt(buf, 0), ByteAt(buf, 1), seq(CHAR_COUNT, c requires 0 <= c => CharMatrix(CharBytes(buf, c))))
  }

  /**
   * The converter's main script: the header bytes give the character
   * size, and each of the 256 characters is read from its ten bytes and
   * turned into its pixel matrix. Reading the file and writing the result
   * are left to the caller.
   */
  method ConvertFont(buf: seq<Byte>) returns (font: FontData)
    ensures font == FontOf(buf)
  {
    var charData := [];
    for i := 0 to CHAR_COUNT
      invariant |charData| == i
      invariant forall c :: 0 <= c < i ==> charData[c] == CharMatrix(CharBytes(buf, c))
    {
      var offs := HEADER_SIZE + i * CHAR_LINES;
      var charBytes := [];
      for line := 0 to CHAR_LINES
        invariant charBytes == seq(line, l requires 0 <= l => ByteAt(buf, offs + l))
      {
        charBytes := charBytes + [ByteAt(buf, offs + line)];
      }
      var m := ToCharData(charBytes);
      charData := charData + [m];
    }
    font := FontData(ByteAt(buf, 0), ByteAt(buf, 1), charData);
  }

  /** The number whose bit j is `row[j]`: the sum of row[j]·2^j. */
  function RowValue(row: seq<int>): int
  {
    if row == [] then 0 else row[0] + 2 * RowValue(row[1..])
  }

  /** The first n bits of v. */
  function Bits(v: nat, n: nat): seq<int>
  {
    seq(n, j requires 0 <= j => Bit(v, j))
  }

  lemma BitsShift(v: nat, n: nat)
    requires n > 0
    ensures Bits(v, n) == [v % 2] + Bits(v / 2, n - 1)
  {
    assert forall j :: 1 <= j < n ==> Bits(v, n)[j] == Bits(v / 2, n - 1)[j - 1];
  }

  /** Reading back the bits of a number below 2^n gives the number. */
  lemma {:induction false} BitsRoundTrip(v: nat, n: nat)
    requires v < Pow2(n)
    ensures RowValue(Bits(v, n)) == v
    decreases n
  {
    if n > 0 {
      BitsShift(v, n);
      var b := Bits(v, n);
      assert b[1..] == Bits(v / 2, n - 1);
      BitsRoundTrip(v / 2, n - 1);
    }
  }

  /** A row of n bits is the bits of its value, and that value is below 2^n. */
  lemma {:induction false} RowRoundTrip(row: seq<int>)
    requires forall j :: 0 <= j < |row| ==> row[j] == 0 || row[j] == 1
    ensures 0 <= RowValue(row) < Pow2(|row|)
    ensures Bits(RowValue(row), |row|) == row
    decreases |row|
  {
    if row != [] {
      RowRoundTrip(row[1..]);
      var v := RowValue(row);
      assert v / 2 == RowValue(row[1..]) && v % 2 == row[0];
      BitsShift(v, |row|);
    }
  }

  /** Summing pixel j times 2^j over a line gives back the line's byte. */
  lemma LineRoundTrip(v: Byte)
    ensures RowValue(LinePixels(Some(v))) == v
  {
    assert LinePixels(Some(v)) == Bits(v, LINE_PIXELS);
    assert Pow2(LINE_PIXELS) == 256;
    BitsRoundTrip(v, LINE_PIXELS);
  }

  /** The byte that stores a line of eight pixels. */
  function LineByte(row: seq<int>): (b: Byte)
    requires |row| == LINE_PIXELS && forall j :: 0 <= j < LINE_PIXELS ==> row[j] == 0 || row[j] == 1
    ensures LinePixels(Some(b)) == row
  {
    RowRoundTrip(row);
    assert Pow2(LINE_PIXELS) == 256;
    var b: Byte := RowValue(row);
    assert LinePixels(Some(b)) == Bits(b, LINE_PIXELS);
    b
  }

  /** A font that a complete file can hold: a width, a height and 256 glyphs of ten lines. */
  predicate Storable(font: FontData)
  {
    font.charWidth.Some? && font.charHeight.Some? &&
    |font.charData| == CHAR_COUNT && forall c :: 0 <= c < CHAR_COUNT ==> Glyph(font.charData[c], CHAR_LINES)
  }

  /** The font file that holds `font`: the reverse of the converter. */
  function EncodeFont(font: FontData): (buf: seq<Byte>)
    requires Storable(font)
    ensures |buf| == FILE_SIZE
  {
    [font.charWidth.value, font.charHeight.value] +
    seq(CHAR_COUNT * CHAR_LINES, k requires 0 <= k < CHAR_COUNT * CHAR_LINES =>
      LineByte(font.charData[k / CHAR_LINES][k % CHAR_LINES]))
  }

  /** Converting a complete font file loses nothing: writing the font back gives the same bytes. */
  lemma FileRoundTrip(buf: seq<Byte>)
    requires |buf| == FILE_SIZE
    ensures Storable(FontOf(buf)) && EncodeFont(FontOf(buf)) == buf
  {
    var font := FontOf(buf);
    var out := EncodeFont(font);
    forall k | HEADER_SIZE <= k < FILE_SIZE
      ensures out[k] == buf[k]
    {
      var c := (k - HEADER_SIZE) / CHAR_LINES;
      var l := (k - HEADER_SIZE) % CHAR_LINES;
      assert k - HEADER_SIZE == CHAR_LINES * c + l;
      assert HEADER_SIZE + c * CHAR_LINES + l == k;
      assert 0 <= c < CHAR_COUNT && 0 <= l < CHAR_LINES;
      assert CharBytes(buf, c)[l] == ByteAt(buf, HEADER_SIZE + c * CHAR_LINES + l);
      assert ByteAt(buf, k) == Some(buf[k]);
      assert CharBytes(buf, c)[l] == Some(buf[k]);
      LineRoundTrip(buf[k]);
      assert font.charData[c][l] == LinePixels(Some(buf[k]));
    }
  }

  /** Every font a file can hold comes back unchanged from its file. */
  lemma FontRoundTrip(font: FontData)
    requires Storable(font)
    ensures FontOf(EncodeFont(font)) == font
  {
    var buf := EncodeFont(font);
    var back := FontOf(buf);
    forall c | 0 <= c < CHAR_COUNT
      ensures back.charData[c] == font.charData[c]
    {
      forall l | 0 <= l < CHAR_LINES
        ensures back.charData[c][l] == font.charData[c][l]
      {
        var k := c * CHAR_LINES + l;
        assert k / CHAR_LINES == c && k % CHAR_LINES == l;
        assert buf[HEADER_SIZE + k] == LineByte(font.charData[c][l]);
        assert CharBytes(buf, c)[l] == ByteAt(buf, HEADER_SIZE + c * CHAR_LINES + l);
        assert CharBytes(buf, c)[l] == Some(buf[HEADER_SIZE + k]);
      }
    }
    assert back.charData == font.charData;
  }
}
