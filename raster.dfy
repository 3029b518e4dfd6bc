/**
 * Tile addressing along the longitude axis and the output-format dispatch of the
 * mongosm package (raster.go). Longitudes are exact reals: the model states what
 * the float64 formulas compute without their rounding.
 */
module Raster {
  import opened Wrappers
  import opened GoTypes

  /** 2 to the power k. */
  function Pow2(k: nat): (r: nat)
    ensures r >= 1
  {
    if k == 0 then 1 else 2 * Pow2(k - 1)
  }

  lemma {:induction false} Pow2Add(a: nat, b: nat)
    ensures Pow2(a + b) == Pow2(a) * Pow2(b)
  {
    if b > 0 {
      Pow2Add(a, b - 1);
      assert Pow2(a + b) == 2 * Pow2(a + b - 1);
    }
  }

  lemma {:induction false} Pow2Increasing(a: nat, b: nat)
    requires a < b
    ensures Pow2(a) < Pow2(b)
  {
    if a + 1 < b {
      Pow2Increasing(a, b - 1);
    }
  }

  lemma Pow2Square(a: nat, v: nat)
    requires Pow2(a) == v
    ensures Pow2(a + a) == v * v
  {
    Pow2Add(a, a);
  }

  /** The sign bit of a 64-bit integer is 2^63. */
  lemma Pow2At63()
    ensures Pow2(63) == TwoTo63
  {
    Pow2Square(7, 128);
    Pow2Square(14, 0x4000);
    Pow2Square(28, 0x1000_0000);
    Pow2Add(56, 7);
  }

  /** Reinterprets the low 64 bits `v` of a value as Go's signed `int`. */
  function ToInt64(v: nat): int64
    requires v < TwoTo64
  {
    if v < TwoTo63 then v as int64 else (v - TwoTo64) as int64
  }

  /**
   * `n(level)`: Go's `1 << uint(level)` on a 64-bit `int`. The shift count is the
   * level read as unsigned, so a negative level is a count of at least 2^63; a count
   * of 64 or more shifts the bit out entirely, and a count of 63 lands on the sign bit.
   */
  function N(level: int64): (r: int64)
    ensures 0 <= level < 63 ==> r as int == Pow2(level as nat)
    ensures r > 0 <==> 0 <= level < 63
    ensures level == 63 ==> r as int == -TwoTo63
    ensures r == 0 <==> level < 0 || level > 63
  {
    var count := if level < 0 then level as int + TwoTo64 else level as int;
    if count < 64 then
      Pow2At63();
      if count < 63 then Pow2Increasing(count, 63); ToInt64(Pow2(count))
      else ToInt64(Pow2(count))
    else 0
  }

  /** Levels at which `n(level)` is the tile count 2^level. */
  predicate ValidLevel(level: int64) {
    0 <= level < 63
  }

  /** Going one level deeper doubles the tile count. */
  lemma NDoubles(level: int64)
    requires 0 <= level < 62
    ensures N(level + 1) as int == 2 * N(level) as int
  {
  }

  /** Go's conversion `int(f)` of a float: drops the fraction, rounding toward zero. */
  function Trunc(f: real): (i: int)
    ensures f >= 0.0 ==> i as real <= f < i as real + 1.0
    ensures f < 0.0 ==> i as real - 1.0 < f <= i as real
  {
    if f >= 0.0 then f.Floor else -((-f).Floor)
  }

  lemma TruncMonotone(f: real, g: real)
    requires f <= g
    ensures Trunc(f) <= Trunc(g)
  {
    if f >= 0.0 {
      assert f.Floor <= g.Floor;
    } else if g < 0.0 {
      assert (-g).Floor <= (-f).Floor;
    }
  }

  /** An integer is its own truncation. */
  lemma TruncOfInt(i: int)
    ensures Trunc(i as real) == i
  {
  }

  /** `a / c` compared with `b` is `a` compared with `b * c`, for a positive `c`. */
  lemma DivCompare(a: real, b: real, c: real)
    requires c > 0.0
    ensures a / c <= b <==> a <= b * c
    ensures a / c < b <==> a < b * c
  {
    assert a / c * c == a;
  }

  /** The column count as a real. */
  function Count(level: int64): (n: real)
    ensures n != 0.0 <==> 0 <= level <= 63
    ensures ValidLevel(level) ==> n > 0.0
  {
    N(level) as int as real
  }

  /** `X2Lon`: the longitude of the west edge of tile column `x` at `level`. */
  function X2Lon(level: int64, x: int): (lon: real)
    requires 0 <= level <= 63
    ensures x == 0 ==> lon == -180.0
    ensures ValidLevel(level) ==> (x >= 0 <==> lon >= -180.0)
  {
    (x as real) / Count(level) * 360.0 - 180.0
  }

  /** `Lon2X`: the tile column of a longitude at `level`. */
  function Lon2X(level: int64, lon: real): (x: int)
    ensures level < 0 || level > 63 ==> x == 0
    ensures ValidLevel(level) && lon >= -180.0 ==> x >= 0
  {
    Trunc(Count(level) * (lon + 180.0) / 360.0)
  }

  /** The longitude `lon` measured in column widths east of the antimeridian: what `Lon2X` truncates. */
  function Columns(level: int64, lon: real): real
  {
    Count(level) * (lon + 180.0) / 360.0
  }

  /** At a level where the shift leaves n(level) = 0, every longitude maps to column 0. */
  lemma Lon2XOutsideLevels(level: int64, lon: real)
    requires level < 0 || level > 63
    ensures Lon2X(level, lon) == 0
  {
  }

  /** A column starts at or before `lon` exactly when its index is at most `lon` in column widths. */
  lemma {:induction false} X2LonCompare(level: int64, x: int, lon: real)
    requires ValidLevel(level)
    ensures X2Lon(level, x) <= lon <==> x as real <= Columns(level, lon)
    ensures X2Lon(level, x) < lon <==> x as real < Columns(level, lon)
  {
    var n, d := Count(level), lon + 180.0;
    DivCompare(x as real, d / 360.0, n);
    DivCompare(d, x as real / n, 360.0);
    assert d / 360.0 * n == Columns(level, lon);
    assert X2Lon(level, x) <= lon <==> x as real / n * 360.0 <= d;
    assert X2Lon(level, x) <= lon <==> x as real / n <= d / 360.0;
    assert X2Lon(level, x) < lon <==> x as real / n < d / 360.0;
  }

  /** Column 0 starts at the antimeridian and column n(level) ends at it again. */
  lemma X2LonSpansWorld(level: int64)
    requires ValidLevel(level)
    ensures X2Lon(level, 0) == -180.0
    ensures X2Lon(level, N(level) as int) == 180.0
  {
    var n := Count(level);
    assert n == N(level) as int as real && n > 0.0;
    assert n / n == 1.0;
  }

  /** Columns further east start further east. */
  lemma {:induction false} X2LonStrictlyIncreasing(level: int64, x1: int, x2: int)
    requires ValidLevel(level)
    requires x1 < x2
    ensures X2Lon(level, x1) < X2Lon(level, x2)
  {
    X2LonCompare(level, x1, X2Lon(level, x2));
    X2LonCompare(level, x2, X2Lon(level, x2));
  }

  /** The antimeridian is the west edge of column 0. */
  lemma Lon2XAtWestEdge(level: int64)
    requires ValidLevel(level)
    ensures Lon2X(level, -180.0) == 0
  {
  }

  /** Every longitude of [-180, 180) falls in one of the n(level) columns. */
  lemma {:induction false} Lon2XInRange(level: int64, lon: real)
    requires ValidLevel(level)
    requires -180.0 <= lon < 180.0
    ensures 0 <= Lon2X(level, lon) < N(level) as int
  {
    X2LonSpansWorld(level);
    X2LonCompare(level, 0, lon);
    X2LonCompare(level, N(level) as int, lon);
  }

  /** Moving east never moves to a column further west. */
  lemma {:induction false} Lon2XMonotone(level: int64, lon1: real, lon2: real)
    requires ValidLevel(level)
    requires lon1 <= lon2
    ensures Lon2X(level, lon1) <= Lon2X(level, lon2)
  {
    var n := Count(level);
    assert n * (lon1 + 180.0) <= n * (lon2 + 180.0);
    TruncMonotone(Columns(level, lon1), Columns(level, lon2));
  }

  /** The west edge of a column maps back to that column, for every column. */
  lemma {:induction false} Lon2XOfX2Lon(level: int64, x: int)
    requires ValidLevel(level)
    ensures Lon2X(level, X2Lon(level, x)) == x
  {
    X2LonCompare(level, x, X2Lon(level, x));
    assert Columns(level, X2Lon(level, x)) == x as real;
    TruncOfInt(x);
  }

  /**
   * From the east of the antimeridian, `Lon2X` finds the column whose west edge is
   * at or before the longitude and whose east edge is after it.
   */
  lemma {:induction false} X2LonOfLon2X(level: int64, lon: real)
    requires ValidLevel(level)
    requires lon >= -180.0
    ensures X2Lon(level, Lon2X(level, lon)) <= lon < X2Lon(level, Lon2X(level, lon) + 1)
  {
    var x := Lon2X(level, lon);
    X2LonCompare(level, 0, lon);
    X2LonSpansWorld(level);
    X2LonCompare(level, x, lon);
    X2LonCompare(level, x + 1, lon);
  }

  /**
   * Because `int()` truncates, column 0 holds not only [-180, -180 + w) but also the
   * band of width w just west of the antimeridian (w = 360 / n(level), the column
   * width, so that band is (X2Lon(-1), -180)); a floor would have given column -1 there.
   */
  lemma {:induction false} Lon2XZeroBand(level: int64, lon: real)
    requires ValidLevel(level)
    ensures Lon2X(level, lon) == 0 <==> X2Lon(level, -1) < lon < X2Lon(level, 1)
  {
    X2LonCompare(level, -1, lon);
    X2LonCompare(level, 1, lon);
  }

  /** Scaling numerator and denominator alike leaves a quotient unchanged. */
  lemma ScaleCancel(a: real, n: real, k: real)
    requires n > 0.0 && k > 0.0
    ensures (k * a) / (k * n) == a / n
  {
    assert (k * a) == (a / n) * (k * n);
  }

  /** Column `x` at `level` starts where sub-column `256 x` starts eight levels deeper. */
  lemma {:induction false} X2LonDeeper(level: int64, x: int)
    requires 0 <= level < 55
    ensures X2Lon(level + 8, 256 * x) == X2Lon(level, x)
  {
    Pow2Add(level as nat, 8);
    assert Pow2(8) == 256;
    assert Count(level + 8) == 256.0 * Count(level);
    ScaleCancel(x as real, Count(level), 256.0);
  }

  /**
   * Projecting 8 levels deeper splits every column into 256 sub-columns: the west
   * edge of column x is sub-column 256 x, and every longitude of column x lands on
   * one of the 256 sub-columns 256 x, ..., 256 x + 255.
   */
  lemma {:induction false} OversampledColumn(level: int64, x: int, lon: real)
    requires 0 <= level < 55
    requires X2Lon(level, x) <= lon < X2Lon(level, x + 1)
    requires x >= 0
    ensures Lon2X(level + 8, X2Lon(level, x)) == 256 * x
    ensures 256 * x <= Lon2X(level + 8, lon) < 256 * x + 256
  {
    X2LonDeeper(level, x);
    X2LonDeeper(level, x + 1);
    Lon2XOfX2Lon(level + 8, 256 * x);
    X2LonCompare(level + 8, 256 * x, lon);
    X2LonCompare(level + 8, 256 * (x + 1), lon);
  }

  /** The two image encoders of the Go standard library, left opaque: each yields the bytes it wrote or its error. */
  datatype Encoders<!Image> = Encoders(jpeg: Image -> Result<seq<byte>, string>, png: Image -> Result<seq<byte>, string>)

  /** Where the format appears in the unsupported-format message. */
  const FormatOffset: nat := 27

  /** The error text for a format other than "jpg" and "png". */
  function UnsupportedFormatError(format: string): (msg: string)
    ensures |msg| == FormatOffset + |format| + 31
    ensures msg[FormatOffset..FormatOffset + |format|] == format
  {
    "Unsupported image format: '" + format + "'. Only 'jpg' or 'png' allowed."
  }

  /** Distinct bad formats give distinct messages: the message names the format exactly. */
  lemma UnsupportedFormatErrorInjective(f1: string, f2: string)
    requires UnsupportedFormatError(f1) == UnsupportedFormatError(f2)
    ensures f1 == f2
  {
    var m := UnsupportedFormatError(f1);
    assert f1 == m[FormatOffset..FormatOffset + |f1|];
  }

  /** `Encode`: "jpg" goes to the JPEG encoder, "png" to the PNG encoder, anything else is an error. */
  function Encode<Image>(img: Image, format: string, enc: Encoders<Image>): (r: Result<seq<byte>, string>)
    ensures format == "jpg" ==> r == enc.jpeg(img)
    ensures format == "png" ==> r == enc.png(img)
    ensures format != "jpg" && format != "png" ==> r == Failure(UnsupportedFormatError(format))
  {
    if format == "jpg" then
      match enc.jpeg(img)
      case Failure(e) => Failure(e)
      case Success(bytes) => Success(bytes)
    else if format == "png" then
      match enc.png(img)
      case Failure(e) => Failure(e)
      case Success(bytes) => Success(bytes)
    else
      Failure(UnsupportedFormatError(format))
  }

  /** Only "jpg" and "png" can succeed, and only through their own encoder succeeding. */
  lemma EncodeSuccess<Image>(img: Image, format: string, enc: Encoders<Image>)
    ensures Encode(img, format, enc).Success? <==>
      (format == "jpg" && enc.jpeg(img).Success?) || (format == "png" && enc.png(img).Success?)
  {
  }

  /** Each supported format consults its own encoder only: replacing the other one changes nothing. */
  lemma EncodeUsesOneEncoder<Image>(img: Image, format: string, enc1: Encoders<Image>, enc2: Encoders<Image>)
    requires format == "jpg" ==> enc1.jpeg == enc2.jpeg
    requires format == "png" ==> enc1.png == enc2.png
    ensures Encode(img, format, enc1) == Encode(img, format, enc2)
  {
  }
}
