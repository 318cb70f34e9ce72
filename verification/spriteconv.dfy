/**
 * The sprite converter (tools/spriteconv/spriteconv.js): a decoded RGBA
 * image becomes a sprite whose pixels are indices into the 256-colour VGA
 * palette, each pixel taking the palette entry nearest its colour.
 */
module SpriteConv {
  import opened Common

  const PALETTE_SIZE := 256

  function Dist(x: int, y: int): nat
  {
    if x < y then y - x else x - y
  }

  /** `diff(i)`: the sum of the three channel distances between a colour and a palette entry. */
  function Diff(c: Rgb, p: Rgb): nat
  {
    Dist(c.r, p.r) + Dist(c.g, p.g) + Dist(c.b, p.b)
  }

  /**
   * Entry k is the one `bestMatch` settles on for colour c: no entry is
   * nearer, and every entry before it is strictly farther.
   */
  predicate IsBestMatch(c: Rgb, palette: seq<Rgb>, k: int)
    requires |palette| >= PALETTE_SIZE
  {
    0 <= k < PALETTE_SIZE &&
    (forall i :: 0 <= i < PALETTE_SIZE ==> Diff(c, palette[k]) <= Diff(c, palette[i])) &&
    (forall i :: 0 <= i < k ==> Diff(c, palette[i]) > Diff(c, palette[k]))
  }

  /**
   * `bestMatch(r, g, b, palette)`: scanning the 256 entries in order and
   * moving only to a strictly nearer one, it ends on the first of the
   * nearest entries.
   */
  method BestMatch(r: int, g: int, b: int, palette: seq<Rgb>) returns (bestI: int)
    requires |palette| >= PALETTE_SIZE
    ensures IsBestMatch(Rgb(r, g, b), palette, bestI)
  {
    var c := Rgb(r, g, b);
    bestI := 0;
    var bestDiff := Diff(c, palette[bestI]);
    for i := 1 to PALETTE_SIZE
      invariant 0 <= bestI < i && bestDiff == Diff(c, palette[bestI])
      invariant forall k :: 0 <= k < i ==> bestDiff <= Diff(c, palette[k])
      invariant forall k :: 0 <= k < bestI ==> Diff(c, palette[k]) > bestDiff
    {
      var diffi := Diff(c, palette[i]);
      if diffi < bestDiff {
        bestDiff := diffi;
        bestI := i;
      }
    }
  }

  /** There is only one best match: the ties go to the lowest index. */
  lemma BestMatchUnique(c: Rgb, palette: seq<Rgb>, k1: int, k2: int)
    requires |palette| >= PALETTE_SIZE
    requires IsBestMatch(c, palette, k1) && IsBestMatch(c, palette, k2)
    ensures k1 == k2
  {
    assert Diff(c, palette[k1]) == Diff(c, palette[k2]);
  }

  /** The sprite file the converter writes. */
  datatype SpriteFile = SpriteFile(
    width: nat, height: nat, originX: int, originY: int,
    transparent: Option<int>, pixels: seq<seq<int>>)

  /** Pixel (i, j) of a w-wide image lies within its w·h·4 bytes. */
  lemma OffsetInImage(w: nat, h: nat, i: nat, j: nat)
    requires i < h && j < w
    ensures (i * w + j) * 4 + 3 < w * h * 4
  {
    assert i * w + j < (i + 1) * w;
    assert (i + 1) * w <= h * w;
  }

  /** The colour of pixel (i, j): the R, G and B bytes at offset (i·w + j)·4. */
  function PixelColour(imagePixels: seq<int>, w: nat, h: nat, i: nat, j: nat): Rgb
    requires |imagePixels| == w * h * 4 && i < h && j < w
  {
    OffsetInImage(w, h, i, j);
    var offs := (i * w + j) * 4;
    Rgb(imagePixels[offs], imagePixels[offs + 1], imagePixels[offs + 2])
  }

  /** The origin: the command-line value when one is given, else the middle of the image. */
  function Origin(arg: Option<int>, size: nat): int
  {
    if arg.Some? then arg.value else size / 2
  }

  /**
   * The converter's decode callback: the image is turned line by line
   * into palette indices; the origin comes from the command line or is
   * the middle of the image, and the transparent colour is the bottom-left
   * pixel's. Loading the PNG and the palette and writing the file are left
   * to the caller: `imagePixels` are the decoded RGBA bytes of a w×h image.
   */
  method ConvertImage(imagePixels: seq<int>, w: nat, h: nat, palette: seq<Rgb>, argOriginX: Option<int>, argOriginY: Option<int>)
    returns (sprite: SpriteFile)
    requires |palette| >= PALETTE_SIZE && |imagePixels| == w * h * 4 && h >= 1
    ensures sprite.width == w && sprite.height == h
    ensures |sprite.pixels| == h
    ensures forall i :: 0 <= i < h ==> |sprite.pixels[i]| == w
    ensures forall i, j :: 0 <= i < h && 0 <= j < w ==>
      IsBestMatch(PixelColour(imagePixels, w, h, i, j), palette, sprite.pixels[i][j])
    ensures sprite.originX == Origin(argOriginX, w) && sprite.originY == Origin(argOriginY, h)
    ensures w > 0 ==> sprite.transparent == Some(sprite.pixels[h - 1][0])
    ensures w == 0 ==> sprite.transparent == None
  {
    var lines: seq<seq<int>> := [];
    for i := 0 to h
      invariant |lines| == i
      invariant forall k :: 0 <= k < i ==> |lines[k]| == w
      invariant forall k, j :: 0 <= k < i && 0 <= j < w ==>
        IsBestMatch(PixelColour(imagePixels, w, h, k, j), palette, lines[k][j])
    {
      var pixels: seq<int> := [];
      for j := 0 to w
        invariant |pixels| == j
        invariant forall l :: 0 <= l < j ==> IsBestMatch(PixelColour(imagePixels, w, h, i, l), palette, pixels[l])
      {
        OffsetInImage(w, h, i, j);
        var offs := (i * w + j) * 4;
        var best := BestMatch(imagePixels[offs + 0], imagePixels[offs + 1], imagePixels[offs + 2], palette);
        pixels := pixels + [best];
      }
      lines := lines + [pixels];
    }
    var transparent := if w > 0 then Some(lines[h - 1][0]) else None;
    sprite := SpriteFile(w, h, Origin(argOriginX, w), Origin(argOriginY, h), transparent, lines);
  }
}
