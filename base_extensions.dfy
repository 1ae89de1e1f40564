/** Small helpers on `Data`, `Int`, `String`, `Bundle` and `Color`
    (Extensions/BaseExtensions.swift). */
module BaseExtensions {
  import opened Types
  import opened Strings

  // ---------------------------------------------------------------- Data.mimeType

  /** `copyBytes(to:count: 1)` into a buffer of one zero byte: the first byte, or 0. */
  function FirstByte(data: Bytes): Byte {
    if data == [] then 0 else data[0]
  }

  /** `mimeType`: sniffed from the first byte. */
  function MimeType(data: Bytes): string {
    match FirstByte(data)
    case 0xFF => "image/jpeg"
    case 0x89 => "image/png"
    case 0x47 => "image/gif"
    case 0x49 => "image/tiff"
    case 0x4D => "image/tiff"
    case _ => "undefine"
  }

  /** The table of signatures; everything else, the empty data included, is "undefine". */
  lemma MimeTypeTable(data: Bytes)
    ensures data != [] && data[0] == 0xFF ==> MimeType(data) == "image/jpeg"
    ensures data != [] && data[0] == 0x89 ==> MimeType(data) == "image/png"
    ensures data != [] && data[0] == 0x47 ==> MimeType(data) == "image/gif"
    ensures data != [] && (data[0] == 0x49 || data[0] == 0x4D) ==> MimeType(data) == "image/tiff"
    ensures (data == [] || data[0] !in {0xFF, 0x89, 0x47, 0x49, 0x4D}) <==> MimeType(data) == "undefine"
  {
  }

  /** Only the first byte matters. */
  lemma MimeTypeDependsOnFirstByte(data: Bytes, other: Bytes)
    requires data != [] && other != [] && data[0] == other[0]
    ensures MimeType(data) == MimeType(other)
  {
  }

  // ---------------------------------------------------------------- Int.toBool

  /** `toBool`: false for 0 and true for every other value, negative ones included. */
  function ToBool(n: int): (b: bool)
    ensures b == (n != 0)
  {
    if n == 0 then false else true
  }

  // ---------------------------------------------------------------- String.replace, Bundle.appId

  /** `replacingOccurrences(of:with:)`: every non-overlapping occurrence of
      `target`, scanning left to right; an empty target changes nothing. */
  function ReplacingOccurrences(s: string, target: string, replacement: string): string
    decreases |s|
  {
    if target == [] || s == [] then s
    else if |target| <= |s| && s[..|target|] == target then
      replacement + ReplacingOccurrences(s[|target|..], target, replacement)
    else [s[0]] + ReplacingOccurrences(s[1..], target, replacement)
  }

  /** `replace(string:by:)`. */
  function Replace(s: string, string1: string, string2: string): string {
    ReplacingOccurrences(s, string1, string2)
  }

  /** Replacing one character by another maps the string character by character. */
  lemma {:induction false} ReplaceCharIsPointwise(s: string, from: char, to: char)
    ensures var r := Replace(s, [from], [to]);
            && |r| == |s|
            && forall k | 0 <= k < |s| :: r[k] == if s[k] == from then to else s[k]
  {
    if s != [] {
      ReplaceCharIsPointwise(s[1..], from, to);
      assert s[..1] == [s[0]];
    }
  }

  /** `appId`: the bundle identifier (or "none") with each "-" turned into ".". */
  function AppId(bundleIdentifier: Option<string>): string {
    Replace(bundleIdentifier.GetOr("none"), "-", ".")
  }

  lemma AppIdMeaning(bundleIdentifier: Option<string>)
    ensures bundleIdentifier.None? ==> AppId(bundleIdentifier) == "none"
    ensures bundleIdentifier.Some? ==>
              var id := bundleIdentifier.value;
              && |AppId(bundleIdentifier)| == |id|
              && forall k | 0 <= k < |id| :: AppId(bundleIdentifier)[k] == if id[k] == '-' then '.' else id[k]
    ensures forall k | 0 <= k < |AppId(bundleIdentifier)| :: AppId(bundleIdentifier)[k] != '-'
  {
    ReplaceCharIsPointwise(bundleIdentifier.GetOr("none"), '-', '.');
  }

  // ---------------------------------------------------------------- Color(hex:)

  const UInt64Max: int := 0xFFFF_FFFF_FFFF_FFFF

  function HexDigitValue(c: char): int {
    if '0' <= c <= '9' then c as int - '0' as int
    else if 'a' <= c <= 'f' then c as int - 'a' as int + 10
    else if 'A' <= c <= 'F' then c as int - 'A' as int + 10
    else -1
  }

  predicate IsHexDigit(c: char) {
    HexDigitValue(c) >= 0
  }

  /** The longest prefix made of hexadecimal digits. */
  function HexRun(s: string): (d: string)
    ensures |d| <= |s| && d == s[..|d|]
    ensures forall k | 0 <= k < |d| :: IsHexDigit(d[k])
    ensures |d| < |s| ==> !IsHexDigit(s[|d|])
  {
    if s != [] && IsHexDigit(s[0]) then [s[0]] + HexRun(s[1..]) else []
  }

  function HexValue(d: string): nat
    requires forall k | 0 <= k < |d| :: IsHexDigit(d[k])
  {
    if d == [] then 0
    else
      assert IsHexDigit(d[|d| - 1]);
      HexValue(d[..|d| - 1]) * 16 + HexDigitValue(d[|d| - 1])
  }

  function Pow16(n: nat): nat {
    if n == 0 then 1 else 16 * Pow16(n - 1)
  }

  lemma {:induction false} HexValueBound(d: string)
    requires forall k | 0 <= k < |d| :: IsHexDigit(d[k])
    ensures HexValue(d) < Pow16(|d|)
  {
    if d != [] {
      HexValueBound(d[..|d| - 1]);
    }
  }

  lemma {:induction false} Pow16Monotone(m: nat, n: nat)
    requires m <= n
    ensures Pow16(m) <= Pow16(n)
  {
    if m < n {
      Pow16Monotone(m, n - 1);
    }
  }

  /** `Scanner(string:).scanHexInt64(&int)` starting from 0: an optional
      "0x"/"0X" before at least one digit, then as many hexadecimal digits as
      there are; saturates at `UInt64.max`; 0 when nothing is scanned. */
  function ScanHexInt64(s: string): (n: nat)
    ensures n <= UInt64Max
    ensures ScannedDigits(s) == [] ==> n == 0
    ensures n < UInt64Max ==> n == HexValue(ScannedDigits(s))
    ensures HexValue(ScannedDigits(s)) >= UInt64Max ==> n == UInt64Max
  {
    var value := HexValue(ScannedDigits(s));
    if value > UInt64Max then UInt64Max else value
  }

  /** The length of the "0x" or "0X" the scanner skips: only when a
      hexadecimal digit follows it. */
  function HexPrefixLength(s: string): (p: nat)
    ensures p == 0 || p == 2
    ensures p == 2 <==> |s| >= 3 && s[0] == '0' && (s[1] == 'x' || s[1] == 'X') && IsHexDigit(s[2])
  {
    if |s| >= 3 && s[0] == '0' && (s[1] == 'x' || s[1] == 'X') && IsHexDigit(s[2]) then 2 else 0
  }

  /** The digits the scanner consumes: the longest run of hexadecimal digits
      right after the optional prefix. */
  function ScannedDigits(s: string): (d: string)
    ensures var p := HexPrefixLength(s);
            && p + |d| <= |s| && d == s[p..p + |d|]
            && (forall k | 0 <= k < |d| :: IsHexDigit(d[k]))
            && (p + |d| < |s| ==> !IsHexDigit(s[p + |d|]))
            && (p == 2 ==> d != [])
            && (s != [] && IsHexDigit(s[0]) ==> d != [])
  {
    var p := HexPrefixLength(s);
    var d := HexRun(s[p..]);
    assert s[p..][..|d|] == s[p..p + |d|];
    d
  }

  lemma ScanHexBound(s: string)
    ensures ScanHexInt64(s) < Pow16(|s|)
  {
    var digits := ScannedDigits(s);
    HexValueBound(digits);
    Pow16Monotone(|digits|, |s|);
  }

  /** The integer channels of `Color(hex:)`, before the division by 255. */
  datatype Channels = Channels(a: int, r: int, g: int, b: int)

  /** `Color(hex:)`: trim everything but letters and digits from both ends,
      scan the hexadecimal number, and split it by the trimmed length. */
  function ColorChannels(hex: string): Channels {
    var trimmed := Trimming(hex, c => !IsAsciiAlphanumeric(c));
    ChannelsForCount(|trimmed|, ScanHexInt64(trimmed))
  }

  /** The `switch hex.count`, with the shifts and masks on the scanned value
      written as division and remainder by powers of two. */
  function ChannelsForCount(count: nat, n: nat): Channels {
    if count == 3 then Channels(255, (n / 256) * 17, (n / 16 % 16) * 17, (n % 16) * 17)
    else if count == 6 then Channels(255, n / 65536, n / 256 % 256, n % 256)
    else if count == 8 then Channels(n / 16777216, n / 65536 % 256, n / 256 % 256, n % 256)
    else Channels(1, 1, 1, 0)
  }

  predicate InByteRange(x: int) {
    0 <= x <= 255
  }

  /** For the lengths 3, 6 and 8 every channel is a byte; any other length
      gives (a, r, g, b) = (1, 1, 1, 0). */
  lemma ColorChannelsInRange(hex: string)
    ensures var trimmed := Trimming(hex, c => !IsAsciiAlphanumeric(c));
            var ch := ColorChannels(hex);
            && (|trimmed| in {3, 6, 8} ==> InByteRange(ch.a) && InByteRange(ch.r) && InByteRange(ch.g) && InByteRange(ch.b))
            && (|trimmed| in {3, 6} ==> ch.a == 255)
            && (|trimmed| !in {3, 6, 8} ==> ch == Channels(1, 1, 1, 0))
  {
    var trimmed := Trimming(hex, c => !IsAsciiAlphanumeric(c));
    var n := ScanHexInt64(trimmed);
    ScanHexBound(trimmed);
    Pow16Eight();
    assert Pow16(3) == 4096 && Pow16(6) == 16777216;
    ChannelsForCountInRange(|trimmed|, n);
  }

  lemma ChannelsForCountInRange(count: nat, n: nat)
    requires count == 3 ==> n < 4096
    requires count == 6 ==> n < 16777216
    requires count == 8 ==> n < 4294967296
    ensures var ch := ChannelsForCount(count, n);
            && (count in {3, 6, 8} ==> InByteRange(ch.a) && InByteRange(ch.r) && InByteRange(ch.g) && InByteRange(ch.b))
            && (count in {3, 6} ==> ch.a == 255)
            && (count !in {3, 6, 8} ==> ch == Channels(1, 1, 1, 0))
  {
  }

  predicate AllHex(s: string) {
    forall k | 0 <= k < |s| :: IsHexDigit(s[k])
  }

  lemma AllHexAppend(d: string, e: string)
    requires AllHex(d) && AllHex(e)
    ensures AllHex(d + e)
  {
    forall k | 0 <= k < |d + e| ensures IsHexDigit((d + e)[k]) {
      if k < |d| { assert (d + e)[k] == d[k]; } else { assert (d + e)[k] == e[k - |d|]; }
    }
  }

  lemma ShiftStep(x: int, p: int, e: int, last: int)
    ensures (x * p + e) * 16 + last == x * (p * 16) + (e * 16 + last)
  {
  }

  /** Reading digits left to right: the value of `d + e` shifts `d` by `|e|` digits. */
  lemma {:induction false} HexValueAppend(d: string, e: string)
    requires AllHex(d) && AllHex(e)
    ensures AllHex(d + e)
    ensures HexValue(d + e) == HexValue(d) * Pow16(|e|) + HexValue(e)
  {
    AllHexAppend(d, e);
    if e == [] {
      assert d + e == d;
    } else {
      var e' := e[..|e| - 1];
      var last := HexDigitValue(e[|e| - 1]);
      assert AllHex(e');
      assert (d + e)[..|d + e| - 1] == d + e';
      assert (d + e)[|d + e| - 1] == e[|e| - 1];
      HexValueAppend(d, e');
      assert HexValue(d + e) == HexValue(d + e') * 16 + last;
      assert HexValue(e) == HexValue(e') * 16 + last;
      assert Pow16(|e|) == Pow16(|e'|) * 16;
      ShiftStep(HexValue(d), Pow16(|e'|), HexValue(e'), last);
    }
  }

  lemma {:induction false} HexRunOfAllHex(s: string)
    requires AllHex(s)
    ensures HexRun(s) == s
  {
    if s != [] {
      HexRunOfAllHex(s[1..]);
      assert [s[0]] + s[1..] == s;
    }
  }

  /** Up to eight digits, none of them written after a "0x", scan to their value. */
  lemma ScanAllHex(s: string)
    requires AllHex(s) && |s| <= 8
    ensures ScanHexInt64(s) == HexValue(s)
  {
    HexRunOfAllHex(s);
    if |s| >= 3 {
      assert !(s[1] == 'x' || s[1] == 'X') by {
        assert IsHexDigit(s[1]);
      }
    }
    assert ScannedDigits(s) == s;
    HexValueSmall(s);
    assert HexValue(ScannedDigits(s)) <= UInt64Max;
  }

  lemma HexValueSmall(s: string)
    requires AllHex(s) && |s| <= 8
    ensures HexValue(s) < 4294967296
  {
    HexValueBound(s);
    Pow16Monotone(|s|, 8);
    Pow16Eight();
  }

  lemma Pow16Eight()
    ensures Pow16(8) == 4294967296
  {
    assert Pow16(2) == 256;
    assert Pow16(4) == 65536;
    assert Pow16(6) == 16777216;
  }

  /** No ASCII letter or digit: what `Color(hex:)` trims away, such as a "#". */
  predicate NoAlphanumerics(s: string) {
    forall k | 0 <= k < |s| :: !IsAsciiAlphanumeric(s[k])
  }

  /** Surrounding non-alphanumerics are trimmed, and a run of hexadecimal
      digits between them is what remains. */
  lemma TrimmingKeepsHexCore(pre: string, s: string, post: string)
    requires NoAlphanumerics(pre) && AllHex(s) && NoAlphanumerics(post)
    ensures Trimming(pre + s + post, c => !IsAsciiAlphanumeric(c)) == s
  {
    var hex := pre + s + post;
    var i, j := |pre|, |pre| + |s|;
    forall k | 0 <= k < i ensures !IsAsciiAlphanumeric(hex[k]) {
      assert hex[k] == pre[k];
    }
    forall k | j <= k < |hex| ensures !IsAsciiAlphanumeric(hex[k]) {
      assert hex[k] == post[k - j];
    }
    if i < j {
      assert hex[i] == s[0] && IsHexDigit(s[0]);
      assert hex[j - 1] == s[|s| - 1] && IsHexDigit(s[|s| - 1]);
    }
    TrimmingIsCore(hex, c => !IsAsciiAlphanumeric(c), i, j);
    assert hex[i..j] == s;
  }

  /** Division and remainder by the powers of two the masks use are
      determined by any quotient-remainder pair. */
  lemma DivMod16(n: int, q: int, r: int)
    requires n == q * 16 + r && 0 <= r < 16
    ensures n / 16 == q && n % 16 == r
  {
  }

  lemma DivMod256(n: int, q: int, r: int)
    requires n == q * 256 + r && 0 <= r < 256
    ensures n / 256 == q && n % 256 == r
  {
  }

  lemma DivMod65536(n: int, q: int, r: int)
    requires n == q * 65536 + r && 0 <= r < 65536
    ensures n / 65536 == q && n % 65536 == r
  {
  }

  lemma DivMod16777216(n: int, q: int, r: int)
    requires n == q * 16777216 + r && 0 <= r < 16777216
    ensures n / 16777216 == q && n % 16777216 == r
  {
  }

  lemma NibbleSplit(hx: int, hy: int, hz: int)
    requires 0 <= hx < 16 && 0 <= hy < 16 && 0 <= hz < 16
    ensures var n := (hx * 16 + hy) * 16 + hz;
            n / 256 == hx && n / 16 % 16 == hy && n % 16 == hz
  {
    var n := (hx * 16 + hy) * 16 + hz;
    DivMod16(n, hx * 16 + hy, hz);
    DivMod16(hx * 16 + hy, hx, hy);
    DivMod256(n, hx, hy * 16 + hz);
  }

  lemma ByteSplit3(r: int, g: int, b: int)
    requires 0 <= r < 256 && 0 <= g < 256 && 0 <= b < 256
    ensures var n := r * 65536 + g * 256 + b;
            n / 65536 == r && n / 256 % 256 == g && n % 256 == b
  {
    var n := r * 65536 + g * 256 + b;
    DivMod256(n, r * 256 + g, b);
    DivMod256(r * 256 + g, r, g);
    DivMod65536(n, r, g * 256 + b);
  }

  lemma ByteSplit4(a: int, r: int, g: int, b: int)
    requires 0 <= a < 256 && 0 <= r < 256 && 0 <= g < 256 && 0 <= b < 256
    ensures var n := a * 16777216 + r * 65536 + g * 256 + b;
            n / 16777216 == a && n / 65536 % 256 == r && n / 256 % 256 == g && n % 256 == b
  {
    var n := a * 16777216 + r * 65536 + g * 256 + b;
    DivMod256(n, a * 65536 + r * 256 + g, b);
    DivMod256(a * 65536 + r * 256 + g, a * 256 + r, g);
    DivMod65536(n, a * 256 + r, g * 256 + b);
    DivMod256(a * 256 + r, a, r);
    DivMod16777216(n, a, r * 65536 + g * 256 + b);
  }

  lemma TwoDigitsAreAByte(s: string)
    requires AllHex(s) && |s| == 2
    ensures 0 <= HexValue(s) < 256
  {
    HexValueBound(s);
    assert Pow16(2) == 256;
  }

  /** Appending two digits shifts by one byte. */
  lemma HexValueAppendByte(d: string, e: string)
    requires AllHex(d) && AllHex(e) && |e| == 2
    ensures AllHex(d + e)
    ensures HexValue(d + e) == HexValue(d) * 256 + HexValue(e)
  {
    HexValueAppend(d, e);
    assert Pow16(2) == 256;
  }

  lemma ThreeByteValue(r: string, g: string, b: string)
    requires AllHex(r) && AllHex(g) && AllHex(b) && |g| == 2 && |b| == 2
    ensures AllHex(r + g + b)
    ensures HexValue(r + g + b) == HexValue(r) * 65536 + HexValue(g) * 256 + HexValue(b)
  {
    HexValueAppendByte(r, g);
    HexValueAppendByte(r + g, b);
  }

  lemma FourByteValue(a: string, r: string, g: string, b: string)
    requires AllHex(a) && AllHex(r) && AllHex(g) && AllHex(b) && |r| == 2 && |g| == 2 && |b| == 2
    ensures AllHex(a + r + g + b)
    ensures HexValue(a + r + g + b) ==
              HexValue(a) * 16777216 + HexValue(r) * 65536 + HexValue(g) * 256 + HexValue(b)
  {
    ThreeByteValue(a, r, g);
    HexValueAppendByte(a + r + g, b);
  }

  lemma ChannelsOfThreeBytes(n: nat, r: int, g: int, b: int)
    requires 0 <= r < 256 && 0 <= g < 256 && 0 <= b < 256
    requires n == r * 65536 + g * 256 + b
    ensures ChannelsForCount(6, n) == Channels(255, r, g, b)
  {
    ByteSplit3(r, g, b);
  }

  lemma ChannelsOfFourBytes(n: nat, a: int, r: int, g: int, b: int)
    requires 0 <= a < 256 && 0 <= r < 256 && 0 <= g < 256 && 0 <= b < 256
    requires n == a * 16777216 + r * 65536 + g * 256 + b
    ensures ChannelsForCount(8, n) == Channels(a, r, g, b)
  {
    ByteSplit4(a, r, g, b);
  }

  /** For letters and digits only, `Color(hex:)` switches on the length of its
      argument and reads it as one hexadecimal number. */
  lemma ColorChannelsOfHexDigits(pre: string, s: string, post: string)
    requires NoAlphanumerics(pre) && AllHex(s) && |s| <= 8 && NoAlphanumerics(post)
    ensures ColorChannels(pre + s + post) == ChannelsForCount(|s|, HexValue(s))
  {
    TrimmingKeepsHexCore(pre, s, post);
    ScanAllHex(s);
  }

  lemma ThreeDigitValue(s: string)
    requires AllHex(s) && |s| == 3
    ensures HexValue(s) == (HexDigitValue(s[0]) * 16 + HexDigitValue(s[1])) * 16 + HexDigitValue(s[2])
  {
    assert s[..2][..1] == s[..1] && s[..1][..0] == [] && s[..2][1] == s[1];
    assert HexValue(s[..1]) == HexDigitValue(s[0]);
  }

  lemma ChannelsOfNibbles(n: nat, x: int, y: int, z: int)
    requires 0 <= x < 16 && 0 <= y < 16 && 0 <= z < 16
    requires n == (x * 16 + y) * 16 + z
    ensures ChannelsForCount(3, n) == Channels(255, x * 17, y * 17, z * 17)
  {
    NibbleSplit(x, y, z);
  }

  /** Three hexadecimal digits (12-bit RGB), possibly inside a "#" or other
      non-alphanumerics: alpha 255 and each nibble times 17. */
  lemma ColorChannelsRgb12(pre: string, s: string, post: string)
    requires NoAlphanumerics(pre) && NoAlphanumerics(post)
    requires AllHex(s) && |s| == 3
    ensures ColorChannels(pre + s + post) ==
              Channels(255, HexDigitValue(s[0]) * 17, HexDigitValue(s[1]) * 17, HexDigitValue(s[2]) * 17)
  {
    ColorChannelsOfHexDigits(pre, s, post);
    ThreeDigitValue(s);
    assert IsHexDigit(s[0]) && IsHexDigit(s[1]) && IsHexDigit(s[2]);
    ChannelsOfNibbles(HexValue(s), HexDigitValue(s[0]), HexDigitValue(s[1]), HexDigitValue(s[2]));
  }

  /** Six hexadecimal digits (24-bit RGB), written as three two-digit bytes
      and possibly inside non-alphanumerics: alpha 255 and the bytes in order. */
  lemma ColorChannelsRgb24(pre: string, r: string, g: string, b: string, post: string)
    requires NoAlphanumerics(pre) && NoAlphanumerics(post)
    requires AllHex(r) && AllHex(g) && AllHex(b) && |r| == 2 && |g| == 2 && |b| == 2
    ensures ColorChannels(pre + (r + g + b) + post) == Channels(255, HexValue(r), HexValue(g), HexValue(b))
  {
    var s := r + g + b;
    ThreeByteValue(r, g, b);
    assert |s| == 6;
    ColorChannelsOfHexDigits(pre, s, post);
    var vr, vg, vb := HexValue(r), HexValue(g), HexValue(b);
    TwoDigitsAreAByte(r);
    TwoDigitsAreAByte(g);
    TwoDigitsAreAByte(b);
    ChannelsOfThreeBytes(HexValue(s), vr, vg, vb);
  }

  /** Eight hexadecimal digits (32-bit ARGB), written as four two-digit bytes
      and possibly inside non-alphanumerics: alpha is the first byte, then
      red, green and blue. */
  lemma ColorChannelsArgb32(pre: string, a: string, r: string, g: string, b: string, post: string)
    requires NoAlphanumerics(pre) && NoAlphanumerics(post)
    requires AllHex(a) && AllHex(r) && AllHex(g) && AllHex(b)
    requires |a| == 2 && |r| == 2 && |g| == 2 && |b| == 2
    ensures ColorChannels(pre + (a + r + g + b) + post) ==
              Channels(HexValue(a), HexValue(r), HexValue(g), HexValue(b))
  {
    var s := a + r + g + b;
    FourByteValue(a, r, g, b);
    assert |s| == 8;
    ColorChannelsOfHexDigits(pre, s, post);
    var va, vr, vg, vb := HexValue(a), HexValue(r), HexValue(g), HexValue(b);
    TwoDigitsAreAByte(a);
    TwoDigitsAreAByte(r);
    TwoDigitsAreAByte(g);
    TwoDigitsAreAByte(b);
    ChannelsOfFourBytes(HexValue(s), va, vr, vg, vb);
  }

  /** The usual spellings "#RGB", "#RRGGBB" and "#AARRGGBB". */
  lemma ColorChannelsHashRgb12(s: string)
    requires AllHex(s) && |s| == 3
    ensures ColorChannels("#" + s) ==
              Channels(255, HexDigitValue(s[0]) * 17, HexDigitValue(s[1]) * 17, HexDigitValue(s[2]) * 17)
  {
    assert NoAlphanumerics("#") && NoAlphanumerics("");
    assert "#" + s + "" == "#" + s;
    ColorChannelsRgb12("#", s, "");
  }

  lemma ColorChannelsHashRgb24(r: string, g: string, b: string)
    requires AllHex(r) && AllHex(g) && AllHex(b) && |r| == 2 && |g| == 2 && |b| == 2
    ensures ColorChannels("#" + r + g + b) == Channels(255, HexValue(r), HexValue(g), HexValue(b))
  {
    assert NoAlphanumerics("#") && NoAlphanumerics("");
    assert "#" + (r + g + b) + "" == "#" + r + g + b;
    ColorChannelsRgb24("#", r, g, b, "");
  }

  lemma ColorChannelsHashArgb32(a: string, r: string, g: string, b: string)
    requires AllHex(a) && AllHex(r) && AllHex(g) && AllHex(b)
    requires |a| == 2 && |r| == 2 && |g| == 2 && |b| == 2
    ensures ColorChannels("#" + a + r + g + b) == Channels(HexValue(a), HexValue(r), HexValue(g), HexValue(b))
  {
    assert NoAlphanumerics("#") && NoAlphanumerics("");
    assert "#" + (a + r + g + b) + "" == "#" + a + r + g + b;
    ColorChannelsArgb32("#", a, r, g, b, "");
  }
}
