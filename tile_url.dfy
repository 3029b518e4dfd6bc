// Decoding of a tile request path (cmd/serve_heatmap/serve_heatmap.go): the anchored
// pattern `\A/.*/(\d+)/(\d+)/(\d+)\.(png|jpeg)\z` written as a parser that works from
// the end of the path, followed by `strconv.Atoi` on the three digit groups.
module TileUrl {
  import opened Wrappers
  import opened GoTypes

  /** The four groups the pattern captures: level, x, y and the extension. */
  datatype UrlMatch = UrlMatch(level: string, x: string, y: string, ext: string)

  /** A decoded request; the extension is captured but plays no further part. */
  datatype TileRequest = TileRequest(level: int, x: int, y: int, ext: string)

  /** `\d` of Go's regular expressions: an ASCII digit. */
  predicate IsDigit(c: char) {
    '0' <= c <= '9'
  }

  /** `\d+`: a non-empty run of ASCII digits. */
  predicate IsDigits(s: string) {
    |s| > 0 && forall i :: 0 <= i < |s| ==> IsDigit(s[i])
  }

  /** `.*`: any text without a line feed (Go's `.` does not match `\n`). */
  predicate NoNewline(s: string) {
    forall i :: 0 <= i < |s| ==> s[i] != '\n'
  }

  predicate ValidExt(ext: string) {
    ext == "png" || ext == "jpeg"
  }

  /** Groups that the pattern could have captured. */
  predicate ValidMatch(m: UrlMatch) {
    IsDigits(m.level) && IsDigits(m.x) && IsDigits(m.y) && ValidExt(m.ext)
  }

  /** The path the pattern matches when `.*` matches `pre` and the groups are those of `m`. */
  function Compose(pre: string, m: UrlMatch): string {
    "/" + pre + "/" + m.level + "/" + m.x + "/" + m.y + "." + m.ext
  }

  /** Position of the last '/' of `s`, if any. */
  function LastSlash(s: string): (r: Option<nat>)
    ensures r.None? ==> forall i :: 0 <= i < |s| ==> s[i] != '/'
    ensures r.Some? ==> r.value < |s| && s[r.value] == '/'
    ensures r.Some? ==> forall i :: r.value < i < |s| ==> s[i] != '/'
  {
    if s == [] then None
    else if s[|s| - 1] == '/' then Some(|s| - 1)
    else LastSlash(s[..|s| - 1])
  }

  /** Splits `s` as `rest + "/" + digits`, `digits` being `\d+`, when `s` has that shape. */
  function SplitDigitGroup(s: string): (r: Option<(string, string)>)
    ensures r.Some? ==> s == r.value.0 + "/" + r.value.1 && IsDigits(r.value.1)
  {
    match LastSlash(s)
    case None => None
    case Some(i) =>
      if IsDigits(s[i + 1..]) then
        assert s == s[..i] + "/" + s[i + 1..];
        Some((s[..i], s[i + 1..]))
      else None
  }

  /** The one way to cut a digit group off the end. */
  lemma {:induction false} SplitDigitGroupOf(rest: string, digits: string)
    requires IsDigits(digits)
    ensures SplitDigitGroup(rest + "/" + digits) == Some((rest, digits))
  {
    var s := rest + "/" + digits;
    assert s[|rest|] == '/';
    assert forall i :: |rest| < i < |s| ==> s[i] == digits[i - |rest| - 1];
    assert LastSlash(s) == Some(|rest|);
    assert s[..|rest|] == rest;
    assert s[|rest| + 1..] == digits;
  }

  /** Splits off the `\.(png|jpeg)` at the very end of the path. */
  lemma SplitSuffix(s: string, k: nat)
    requires k <= |s|
    ensures s == s[..|s| - k] + s[|s| - k..]
  {
  }

  function SplitExtension(path: string): (r: Option<(string, string)>)
    ensures r.Some? ==> path == r.value.0 + "." + r.value.1 && ValidExt(r.value.1)
  {
    if |path| >= 4 && path[|path| - 4..] == ".png" then
      SplitSuffix(path, 4);
      Some((path[..|path| - 4], "png"))
    else if |path| >= 5 && path[|path| - 5..] == ".jpeg" then
      SplitSuffix(path, 5);
      Some((path[..|path| - 5], "jpeg"))
    else None
  }

  lemma SplitExtensionOf(body: string, ext: string)
    requires ValidExt(ext)
    ensures SplitExtension(body + "." + ext) == Some((body, ext))
  {
    var path := body + "." + ext;
    if ext == "png" {
      assert path[|path| - 4..] == ".png";
      assert path[..|path| - 4] == body;
    } else {
      assert path[|path| - 4..] != ".png" by {
        assert path[|path| - 4..][0] == 'j';
      }
      assert path[|path| - 5..] == ".jpeg";
      assert path[..|path| - 5] == body;
    }
  }

  /** `urlRegex.FindStringSubmatch(path)`: the captured groups, or no match. */
  function MatchTileUrl(path: string): (r: Option<UrlMatch>)
    ensures r.Some? ==> ValidMatch(r.value)
  {
    match SplitExtension(path)
    case None => None
    case Some((body, ext)) =>
      match SplitDigitGroup(body)
      case None => None
      case Some((rest, y)) =>
        match SplitDigitGroup(rest)
        case None => None
        case Some((rest', x)) =>
          match SplitDigitGroup(rest')
          case None => None
          case Some((head, level)) =>
            if |head| > 0 && head[0] == '/' && NoNewline(head[1..]) then Some(UrlMatch(level, x, y, ext))
            else None
  }

  /** Every path the pattern matches is decoded into the groups the pattern captures. */
  lemma {:induction false} MatchComposed(pre: string, m: UrlMatch)
    requires NoNewline(pre) && ValidMatch(m)
    ensures MatchTileUrl(Compose(pre, m)) == Some(m)
  {
    var head := "/" + pre;
    var r2 := head + "/" + m.level;
    var r1 := r2 + "/" + m.x;
    var body := r1 + "/" + m.y;
    assert Compose(pre, m) == body + "." + m.ext;
    SplitExtensionOf(body, m.ext);
    SplitDigitGroupOf(r1, m.y);
    SplitDigitGroupOf(r2, m.x);
    SplitDigitGroupOf(head, m.level);
    assert head[1..] == pre;
  }

  /** Every decoded path is one the pattern matches, with the captured groups. */
  lemma {:induction false} MatchSound(path: string)
    requires MatchTileUrl(path).Some?
    ensures exists pre :: NoNewline(pre) && path == Compose(pre, MatchTileUrl(path).value)
  {
    var m := MatchTileUrl(path).value;
    var (body, ext) := SplitExtension(path).value;
    var (rest, y) := SplitDigitGroup(body).value;
    var (rest', x) := SplitDigitGroup(rest).value;
    var (head, level) := SplitDigitGroup(rest').value;
    assert head == "/" + head[1..];
    assert path == Compose(head[1..], m);
  }

  /**
   * The decoder accepts exactly the paths of the pattern, and the groups are
   * determined by the path: digit groups hold no '/', so they are the last three
   * segments and `.*` takes everything before them.
   */
  lemma {:induction false} MatchTileUrlSpec(path: string, m: UrlMatch)
    ensures MatchTileUrl(path) == Some(m) <==>
      ValidMatch(m) && exists pre :: NoNewline(pre) && path == Compose(pre, m)
  {
    if MatchTileUrl(path) == Some(m) {
      MatchSound(path);
    }
    if ValidMatch(m) && exists pre :: NoNewline(pre) && path == Compose(pre, m) {
      var pre :| NoNewline(pre) && path == Compose(pre, m);
      MatchComposed(pre, m);
    }
  }

  function DigitValue(c: char): (d: nat)
    requires IsDigit(c)
    ensures d < 10
  {
    (c as int) - ('0' as int)
  }

  function Pow10(k: nat): (r: nat)
    ensures r >= 1
  {
    if k == 0 then 1 else 10 * Pow10(k - 1)
  }

  /** The number a string of decimal digits denotes (leading zeros allowed). */
  function DecimalValue(s: string): (v: nat)
    requires forall i :: 0 <= i < |s| ==> IsDigit(s[i])
    ensures v < Pow10(|s|)
  {
    if s == [] then 0 else DecimalValue(s[..|s| - 1]) * 10 + DigitValue(s[|s| - 1])
  }

  /** Reading the first digit: it is worth its value times the weight of the remaining digits. */
  lemma ShiftDigit(a: nat, p: nat, b: nat, c: nat)
    ensures (a * p + b) * 10 + c == a * (p * 10) + (b * 10 + c)
  {
  }

  lemma {:induction false} DecimalValueCons(s: string)
    requires |s| > 0 && forall i :: 0 <= i < |s| ==> IsDigit(s[i])
    ensures DecimalValue(s) == DigitValue(s[0]) * Pow10(|s| - 1) + DecimalValue(s[1..])
  {
    if |s| > 1 {
      var init, tail := s[..|s| - 1], s[1..];
      DecimalValueCons(init);
      assert init[1..] == tail[..|tail| - 1];
      assert tail[|tail| - 1] == s[|s| - 1];
      assert DecimalValue(tail) == DecimalValue(init[1..]) * 10 + DigitValue(s[|s| - 1]);
      ShiftDigit(DigitValue(s[0]), Pow10(|s| - 2), DecimalValue(init[1..]), DigitValue(s[|s| - 1]));
    } else {
      assert s[..0] == [];
    }
  }

  /**
   * A digit loop with the same outcome as `strconv.Atoi`: accumulates digits from the left onto
   * `acc` and gives up as soon as the running value exceeds the largest `int`.
   */
  function ParseDigits(s: string, acc: nat): Option<nat>
    requires forall i :: 0 <= i < |s| ==> IsDigit(s[i])
    decreases |s|
  {
    if s == [] then Some(acc)
    else
      var next := acc * 10 + DigitValue(s[0]);
      if next > MaxInt then None else ParseDigits(s[1..], next)
  }

  lemma Regroup(acc: nat, d: nat, p: nat, rest: nat)
    ensures acc * (10 * p) + (d * p + rest) == (acc * 10 + d) * p + rest
  {
  }

  lemma AtLeastItself(a: nat, p: nat)
    requires p >= 1
    ensures a * p >= a
  {
  }

  /** The digit loop computes `acc` followed by the digits, and fails exactly when that overflows. */
  lemma {:induction false} ParseDigitsValue(s: string, acc: nat)
    requires forall i :: 0 <= i < |s| ==> IsDigit(s[i])
    requires acc <= MaxInt
    ensures var v := acc * Pow10(|s|) + DecimalValue(s);
      ParseDigits(s, acc) == if v <= MaxInt then Some(v) else None
  {
    if s != [] {
      var d := DigitValue(s[0]);
      var next := acc * 10 + d;
      var k := |s| - 1;
      DecimalValueCons(s);
      Regroup(acc, d, Pow10(k), DecimalValue(s[1..]));
      assert acc * Pow10(|s|) + DecimalValue(s) == next * Pow10(k) + DecimalValue(s[1..]);
      if next > MaxInt {
        AtLeastItself(next, Pow10(k));
      } else {
        ParseDigitsValue(s[1..], next);
      }
    }
  }

  /** `strconv.Atoi` on a `\d+` group: its value, or an error when it does not fit in an `int`. */
  function Atoi(s: string): (r: Option<int>)
    requires IsDigits(s)
    ensures r.Some? <==> DecimalValue(s) <= MaxInt
    ensures r.Some? ==> r.value == DecimalValue(s)
  {
    ParseDigitsValue(s, 0);
    match ParseDigits(s, 0)
    case None => None
    case Some(v) => Some(v)
  }

  /**
   * The matching and decoding at the head of `tilesHandler`: a path that does not
   * match, or whose level, x or y does not fit in an `int`, has no decoding.
   */
  function DecodeTilePath(path: string): (r: Option<TileRequest>)
    ensures r.Some? <==> (MatchTileUrl(path).Some? &&
      var m := MatchTileUrl(path).value;
      DecimalValue(m.level) <= MaxInt && DecimalValue(m.x) <= MaxInt && DecimalValue(m.y) <= MaxInt)
    ensures r.Some? ==>
      var m := MatchTileUrl(path).value;
      r.value == TileRequest(DecimalValue(m.level), DecimalValue(m.x), DecimalValue(m.y), m.ext)
  {
    match MatchTileUrl(path)
    case None => None
    case Some(m) =>
      match Atoi(m.level)
      case None => None
      case Some(level) =>
        match Atoi(m.x)
        case None => None
        case Some(x) =>
          match Atoi(m.y)
          case None => None
          case Some(y) => Some(TileRequest(level, x, y, m.ext))
  }

  /** Decimal digits of `n`, without leading zeros: what a client puts in a tile path. */
  function DecimalString(n: nat): (s: string)
    ensures IsDigits(s) && DecimalValue(s) == n
  {
    var last := ['0' + (n % 10) as char];
    if n < 10 then last
    else
      var init := DecimalString(n / 10);
      assert (init + last)[..|init + last| - 1] == init;
      init + last
  }

  /** The tile path `<pre>/<level>/<x>/<y>.<ext>` that a client builds for a request. */
  function TilePath(pre: string, req: TileRequest): string
    requires req.level >= 0 && req.x >= 0 && req.y >= 0
  {
    Compose(pre, UrlMatch(DecimalString(req.level), DecimalString(req.x), DecimalString(req.y), req.ext))
  }

  /** Building a tile path and decoding it gives back the request, for every `int` level, x and y. */
  lemma {:induction false} DecodeTilePathRoundTrip(pre: string, req: TileRequest)
    requires NoNewline(pre) && ValidExt(req.ext)
    requires 0 <= req.level <= MaxInt && 0 <= req.x <= MaxInt && 0 <= req.y <= MaxInt
    ensures DecodeTilePath(TilePath(pre, req)) == Some(req)
  {
    MatchComposed(pre, UrlMatch(DecimalString(req.level), DecimalString(req.x), DecimalString(req.y), req.ext));
  }
}
