// The integer procedural textures: each builder fills an RGB8 buffer of
// size x size pixels, row by row, with colour channels at index
// (y * size + x) * 3 + c. The per-pixel colour rules are pure functions of
// (x, y); the builders are the game's nested fill loops, proved to produce
// exactly those colours. The GL upload that follows each fill is not modelled.
module Textures {

  /** An unsigned char. */
  type Byte = x: int | 0 <= x < 256

  datatype Rgb = Rgb(r: Byte, g: Byte, b: Byte)

  /** The four integer patterns, with the byte arguments their builders take. */
  datatype Pattern =
    | Checker
    | Stripe(a: Byte, b: Byte)
    | Dots(base: Byte, dot: Byte)
    | Fabric(base: Byte, stripe: Byte)

  /** Side length in pixels: 128 for the fabric, 64 for the others. */
  function Size(t: Pattern): nat {
    if t.Fabric? then 128 else 64
  }

  function Gray(v: Byte): Rgb {
    Rgb(v, v, v)
  }

  /** Channel c (0 red, 1 green, 2 blue) of a colour. */
  function Channel(color: Rgb, c: int): Byte {
    if c == 0 then color.r else if c == 1 then color.g else color.b
  }

  /** glm::clamp<int> of the fabric fill: max(lo, min(v, hi)) for lo <= hi,
      the only case the game uses. Vectors.Clamp is the same rule on reals;
      Dafny's int and real are distinct types, so each has its own. */
  function ClampInt(v: int, lo: int, hi: int): (r: int)
    ensures lo <= hi ==> lo <= r <= hi
    ensures lo <= v <= hi ==> r == v
    ensures lo <= hi && v < lo ==> r == lo
    ensures lo <= hi && v > hi ==> r == hi
  {
    if v < lo then lo else if v > hi then hi else v
  }

  /** Checker: 8 x 8 squares, light where the square's column and row
      indices have an odd sum. */
  function CheckerShade(x: nat, y: nat): (v: Byte)
    ensures v == 40 || v == 220
  {
    if ((x / 8) + (y / 8)) % 2 == 1 then 220 else 40
  }

  /** Stripe: vertical bands 6 pixels wide, a in the odd bands, b in the even ones. */
  function StripeShade(a: Byte, b: Byte, x: nat): (v: Byte)
    ensures v == a || v == b
  {
    if (x / 6) % 2 == 1 then a else b
  }

  /** Dots: a disc of radius 4 around the centre (8, 8) of every 16 x 16 cell. */
  predicate InDot(x: nat, y: nat) {
    var dx := x % 16 - 8;
    var dy := y % 16 - 8;
    dx * dx + dy * dy <= 16
  }

  /** Fabric: the red channel. A stripe is added in even 10-pixel bands, the
      weave lines (every fourth column and row) are darkened by 8, and the
      result is kept in [20, 230]. */
  function FabricRed(base: Byte, stripe: Byte, x: nat, y: nat): (c: Byte)
    ensures 20 <= c <= 230
  {
    var band := (x / 10) % 2 == 0;
    var weave := if x % 4 == 0 || y % 4 == 0 then -8 else 0;
    ClampInt(base + (if band then stripe else 0) + weave, 20, 230)
  }

  /** Green and blue follow the red channel 10 and 20 below it. */
  function FabricShade(base: Byte, stripe: Byte, x: nat, y: nat): (color: Rgb)
    ensures color.r == FabricRed(base, stripe, x, y)
    ensures color.g == color.r - 10 && color.b == color.r - 20
  {
    var c := FabricRed(base, stripe, x, y);
    Rgb(c, ClampInt(c - 10, 0, 255), ClampInt(c - 20, 0, 255))
  }

  /** The colour of pixel (x, y) of a pattern. */
  function Color(t: Pattern, x: nat, y: nat): Rgb {
    match t
    case Checker => Gray(CheckerShade(x, y))
    case Stripe(a, b) => Gray(StripeShade(a, b, x))
    case Dots(base, dot) => Gray(if InDot(x, y) then dot else base)
    case Fabric(base, stripe) => FabricShade(base, stripe, x, y)
  }

  /** Length of the buffer of a size x size RGB image. */
  function BufferLength(size: nat): nat {
    size * size * 3
  }

  /** The byte a pattern's buffer holds at index i. */
  function Expected(t: Pattern, i: nat): Byte {
    var p := i / 3;
    Channel(Color(t, p % Size(t), p / Size(t)), i % 3)
  }

  /** pixels is the whole image of the pattern, every byte in its place. */
  ghost predicate IsImageOf(pixels: seq<Byte>, t: Pattern) {
    |pixels| == BufferLength(Size(t)) &&
    forall i :: 0 <= i < |pixels| ==> pixels[i] == Expected(t, i)
  }

  lemma DivModUnique(n: int, d: int, q: int, r: int)
    requires d > 0 && 0 <= r < d && n == q * d + r
    ensures n / d == q && n % d == r
  {
    var q', r' := n / d, n % d;
    assert n == q' * d + r' && 0 <= r' < d;
    var k := q - q';
    assert k * d == q * d - q' * d;
    assert k * d == r' - r;
    if k >= 1 {
      MultipleAtLeast(k, d);
    } else if k <= -1 {
      MultipleAtLeast(-k, d);
    }
  }

  lemma MultipleAtLeast(k: int, d: int)
    requires k >= 1 && d > 0
    ensures k * d >= d
  {
    assert k * d == (k - 1) * d + d;
  }

  /** The layout of the buffer: index (y * size + x) * 3 + c lies inside it
      and stands for channel c of pixel (x, y), and only that index does. */
  lemma PixelIndex(size: nat, x: nat, y: nat, c: nat)
    requires x < size && y < size && c < 3
    ensures var p := y * size + x;
            var i := p * 3 + c;
            i < BufferLength(size) && i / 3 == p && i % 3 == c && p % size == x && p / size == y
  {
    var p := y * size + x;
    DivModUnique(p * 3 + c, 3, p, c);
    DivModUnique(p, size, y, x);
    assert p < (y + 1) * size <= size * size;
  }

  /** Every index of the buffer is the place of some (x, y, c); PixelIndex
      shows that (x, y, c) is the only one. */
  lemma IndexPixel(size: nat, i: nat)
    requires i < BufferLength(size)
    ensures var p := i / 3;
            var x, y, c := p % size, p / size, i % 3;
            x < size && y < size && c < 3 && (y * size + x) * 3 + c == i
  {
    var p := i / 3;
    assert p < size * size;
    assert size > 0;
    var x, y := p % size, p / size;
    assert y * size + x == p;
  }

  /** The image accessed by pixel: channel c of pixel (x, y) is that of its colour. */
  lemma ImagePixel(pixels: seq<Byte>, t: Pattern, x: nat, y: nat, c: nat)
    requires IsImageOf(pixels, t)
    requires x < Size(t) && y < Size(t) && c < 3
    ensures (y * Size(t) + x) * 3 + c < |pixels|
    ensures pixels[(y * Size(t) + x) * 3 + c] == Channel(Color(t, x, y), c)
  {
    PixelIndex(Size(t), x, y, c);
  }

  /** The first n bytes of s are those of the pattern's image. */
  ghost predicate Filled(s: seq<Byte>, t: Pattern, n: int) {
    0 <= n <= |s| && forall i :: 0 <= i < n ==> s[i] == Expected(t, i)
  }

  /** Writing pixel (x, y) in row-major order extends the filled prefix by
      its three channels. */
  lemma FillPixel(before: seq<Byte>, after: seq<Byte>, t: Pattern, x: nat, y: nat)
    requires x < Size(t) && y < Size(t) && |before| == BufferLength(Size(t))
    requires Filled(before, t, (y * Size(t) + x) * 3)
    requires var n := (y * Size(t) + x) * 3;
             |after| == |before| && after[..n] == before[..n] &&
             after[n] == Color(t, x, y).r && after[n + 1] == Color(t, x, y).g && after[n + 2] == Color(t, x, y).b
    ensures Filled(after, t, (y * Size(t) + x) * 3 + 3)
  {
    var n := (y * Size(t) + x) * 3;
    PixelIndex(Size(t), x, y, 0);
    PixelIndex(Size(t), x, y, 1);
    PixelIndex(Size(t), x, y, 2);
    forall i | 0 <= i < n + 3
      ensures after[i] == Expected(t, i)
    {
      if i < n {
        assert after[i] == after[..n][i];
      }
    }
  }

  method BuildCheckerTexture() returns (pixels: array<Byte>)
    ensures fresh(pixels) && IsImageOf(pixels[..], Checker)
  {
    var size := 64;
    pixels := new Byte[size * size * 3];
    for y := 0 to size
      invariant pixels.Length == BufferLength(size)
      invariant Filled(pixels[..], Checker, y * size * 3)
    {
      for x := 0 to size
        invariant Filled(pixels[..], Checker, (y * size + x) * 3)
      {
        ghost var before := pixels[..];
        var idx := (y * size + x) * 3;
        var odd := ((x / 8) + (y / 8)) % 2 == 1;
        var color: Byte := if odd then 220 else 40;
        pixels[idx + 0] := color;
        pixels[idx + 1] := color;
        pixels[idx + 2] := color;
        assert pixels[..idx] == before[..idx];
        FillPixel(before, pixels[..], Checker, x, y);
      }
    }
  }

  method BuildStripeTexture(a: Byte, b: Byte) returns (pixels: array<Byte>)
    ensures fresh(pixels) && IsImageOf(pixels[..], Stripe(a, b))
  {
    var size := 64;
    pixels := new Byte[size * size * 3];
    for y := 0 to size
      invariant pixels.Length == BufferLength(size)
      invariant Filled(pixels[..], Stripe(a, b), y * size * 3)
    {
      for x := 0 to size
        invariant Filled(pixels[..], Stripe(a, b), (y * size + x) * 3)
      {
        ghost var before := pixels[..];
        var idx := (y * size + x) * 3;
        var odd := (x / 6) % 2 == 1;
        var color := if odd then a else b;
        pixels[idx + 0] := color;
        pixels[idx + 1] := color;
        pixels[idx + 2] := color;
        assert pixels[..idx] == before[..idx];
        FillPixel(before, pixels[..], Stripe(a, b), x, y);
      }
    }
  }

  /** The buffer starts filled with base; only the dot pixels are overwritten. */
  method BuildDotsTexture(base: Byte, dot: Byte) returns (pixels: array<Byte>)
    ensures fresh(pixels) && IsImageOf(pixels[..], Dots(base, dot))
  {
    var size := 64;
    pixels := new Byte[size * size * 3](_ => base);
    for y := 0 to size
      invariant pixels.Length == BufferLength(size)
      invariant Filled(pixels[..], Dots(base, dot), y * size * 3)
      invariant forall i :: y * size * 3 <= i < pixels.Length ==> pixels[i] == base
    {
      for x := 0 to size
        invariant Filled(pixels[..], Dots(base, dot), (y * size + x) * 3)
        invariant forall i :: (y * size + x) * 3 <= i < pixels.Length ==> pixels[i] == base
      {
        ghost var before := pixels[..];
        var cellX := x % 16;
        var cellY := y % 16;
        var dx := cellX - 8;
        var dy := cellY - 8;
        var idx := (y * size + x) * 3;
        if dx * dx + dy * dy <= 16 {
          pixels[idx + 0] := dot;
          pixels[idx + 1] := dot;
          pixels[idx + 2] := dot;
        }
        assert pixels[..idx] == before[..idx];
        FillPixel(before, pixels[..], Dots(base, dot), x, y);
      }
    }
  }

  method BuildFabricTexture(base: Byte, stripe: Byte) returns (pixels: array<Byte>)
    ensures fresh(pixels) && IsImageOf(pixels[..], Fabric(base, stripe))
  {
    var size := 128;
    pixels := new Byte[size * size * 3];
    for y := 0 to size
      invariant pixels.Length == BufferLength(size)
      invariant Filled(pixels[..], Fabric(base, stripe), y * size * 3)
    {
      for x := 0 to size
        invariant Filled(pixels[..], Fabric(base, stripe), (y * size + x) * 3)
      {
        ghost var before := pixels[..];
        var idx := (y * size + x) * 3;
        var band := (x / 10) % 2 == 0;
        var weave := if x % 4 == 0 || y % 4 == 0 then -8 else 0;
        var c: Byte := ClampInt(base + (if band then stripe else 0) + weave, 20, 230);
        pixels[idx + 0] := c;
        pixels[idx + 1] := ClampInt(c - 10, 0, 255);
        pixels[idx + 2] := ClampInt(c - 20, 0, 255);
        assert pixels[..idx] == before[..idx];
        FillPixel(before, pixels[..], Fabric(base, stripe), x, y);
      }
    }
  }

  /** Every channel of a checker, stripe or dots pixel holds the same value. */
  lemma GrayPatterns(t: Pattern, x: nat, y: nat)
    requires !t.Fabric?
    ensures Color(t, x, y).r == Color(t, x, y).g == Color(t, x, y).b
  {
  }

  /** Neighbouring checker squares have opposite shades, one dark (40) and
      one light (220). */
  lemma CheckerAlternates(x: nat, y: nat)
    ensures CheckerShade(x, y) == 40 || CheckerShade(x, y) == 220
    ensures CheckerShade(x + 8, y) != CheckerShade(x, y)
    ensures CheckerShade(x, y + 8) != CheckerShade(x, y)
  {
    assert (x + 8) / 8 == x / 8 + 1;
    assert (y + 8) / 8 == y / 8 + 1;
  }

  /** The 64-pixel checker repeats without a seam: wrapping a coordinate
      (as GL_REPEAT does) gives the same shade. */
  lemma CheckerTiles(x: nat, y: nat)
    ensures CheckerShade(x % 64, y % 64) == CheckerShade(x, y)
  {
    EighthsOfWrap(x);
    EighthsOfWrap(y);
    var wrapped := (x % 64) / 8 + (y % 64) / 8;
    var k := 4 * (x / 64) + 4 * (y / 64);
    assert x / 8 + y / 8 == wrapped + 2 * k;
    DivModUnique(wrapped + 2 * k, 2, wrapped / 2 + k, wrapped % 2);
  }

  lemma EighthsOfWrap(x: nat)
    ensures x / 8 == (x % 64) / 8 + 8 * (x / 64)
  {
    var q, r := x / 64, x % 64;
    assert x == 64 * q + r;
    DivModUnique(x, 8, 8 * q + r / 8, r % 8);
  }

  /** Stripes are 6 pixels wide and alternate between a and b. */
  lemma StripeAlternates(a: Byte, b: Byte, x: nat)
    ensures StripeShade(a, b, x) == StripeShade(a, b, 6 * (x / 6))
    ensures a != b ==> StripeShade(a, b, x + 6) != StripeShade(a, b, x)
  {
    DivModUnique(6 * (x / 6), 6, x / 6, 0);
    assert (x + 6) / 6 == x / 6 + 1;
  }

  /** 64 is not a multiple of the 12-pixel stripe period: the b band that
      wraps around the texture edge (columns 60..63 and then 0..5) is 10
      pixels wide instead of 6. */
  lemma StripeSeam(a: Byte, b: Byte)
    ensures forall x: nat :: 60 <= x < 64 || x < 6 ==> StripeShade(a, b, x) == b
    ensures a != b ==> StripeShade(a, b, 59) == a && StripeShade(a, b, 6) == a
  {
  }

  /** A dot lies strictly inside its 16 x 16 cell (within [4, 12] on both
      axes), so dots of neighbouring cells never touch, and every cell
      centre is a dot. */
  lemma DotFootprint(x: nat, y: nat)
    ensures InDot(x, y) ==> 4 <= x % 16 <= 12 && 4 <= y % 16 <= 12
    ensures x % 16 == 8 && y % 16 == 8 ==> InDot(x, y)
  {
    var dx, dy := x % 16 - 8, y % 16 - 8;
    if InDot(x, y) {
      assert dy * dy >= 0 && dx * dx >= 0;
    }
  }

  /** With distinct shades, a dots pixel shows the dot shade exactly inside
      a dot, and the dots texture tiles without a seam. */
  lemma DotsTile(base: Byte, dot: Byte, x: nat, y: nat)
    ensures base != dot ==> (Color(Dots(base, dot), x, y) == Gray(dot) <==> InDot(x, y))
    ensures Color(Dots(base, dot), x % 64, y % 64) == Color(Dots(base, dot), x, y)
  {
    SixteenthsOfWrap(x);
    SixteenthsOfWrap(y);
  }

  lemma SixteenthsOfWrap(x: nat)
    ensures (x % 64) % 16 == x % 16
  {
    var q, r := x / 64, x % 64;
    assert x == 64 * q + r;
    DivModUnique(x, 16, 4 * q + r / 16, r % 16);
  }

  /** The fabric's red channel lies in [20, 230]; green and blue are exactly
      10 and 20 below it, so their clamps never cut in. */
  lemma FabricChannels(base: Byte, stripe: Byte, x: nat, y: nat)
    ensures var c := Color(Fabric(base, stripe), x, y);
            20 <= c.r <= 230 && c.g == c.r - 10 && c.b == c.r - 20
  {
  }

  /** A weave row is never lighter than a plain pixel of the same column. */
  lemma FabricWeaveDarker(base: Byte, stripe: Byte, x: nat, y: nat, y': nat)
    requires y % 4 == 0
    ensures FabricRed(base, stripe, x, y) <= FabricRed(base, stripe, x, y')
  {
  }
}
