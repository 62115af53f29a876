/**
 * String operations the core relies on, each modelled on the runtime that performs it:
 * JavaScript's `trim`, `startsWith`, `split`; Python's `strip`, `lower`, `title`, `split`,
 * `int()` and `urllib.parse.quote_plus`; and the UTF-8 / UTF-16 encodings of a string.
 * Strings are sequences of Unicode scalar values.
 */
module Text {
  import opened Wrappers

  // ---------------------------------------------------------------------------
  // Whitespace and trimming

  /** The code points JavaScript's `String.prototype.trim` removes (WhiteSpace and LineTerminator of ECMA-262). */
  predicate IsJsWhitespace(c: char) {
    c == '\t' || c == '\n' || c == '\U{B}' || c == '\U{C}' || c == '\r' || c == ' '
    || c == '\U{A0}' || c == '\U{1680}' || ('\U{2000}' <= c <= '\U{200A}')
    || c == '\U{2028}' || c == '\U{2029}' || c == '\U{202F}' || c == '\U{205F}'
    || c == '\U{3000}' || c == '\U{FEFF}'
  }

  /** The code points for which Python's `str.isspace()` holds, which `str.strip()` and `int()` remove. */
  predicate IsPyWhitespace(c: char) {
    ('\t' <= c <= '\r') || ('\U{1C}' <= c <= '\U{1F}') || c == ' ' || c == '\U{85}' || c == '\U{A0}'
    || c == '\U{1680}' || ('\U{2000}' <= c <= '\U{200A}') || c == '\U{2028}' || c == '\U{2029}'
    || c == '\U{202F}' || c == '\U{205F}' || c == '\U{3000}'
  }

  /** `r` occurs in `s` starting at index `k`. */
  ghost predicate InfixAt(r: string, s: string, k: int) {
    0 <= k && k + |r| <= |s| && s[k..k + |r|] == r
  }

  /** The number of leading characters satisfying `ws`. */
  function LeadingCount(s: string, ws: char -> bool): (k: nat)
    ensures k <= |s|
    ensures forall i :: 0 <= i < k ==> ws(s[i])
    ensures k == |s| || !ws(s[k])
  {
    if |s| > 0 && ws(s[0]) then
      var k := LeadingCount(s[1..], ws);
      assert forall i :: 1 <= i < k + 1 ==> s[i] == s[1..][i - 1];
      k + 1
    else 0
  }

  /** The number of trailing characters satisfying `ws`. */
  function TrailingCount(s: string, ws: char -> bool): (k: nat)
    ensures k <= |s|
    ensures forall i :: |s| - k <= i < |s| ==> ws(s[i])
    ensures k == |s| || !ws(s[|s| - k - 1])
  {
    if |s| > 0 && ws(s[|s| - 1]) then
      var k := TrailingCount(s[..|s| - 1], ws);
      assert forall i :: |s| - 1 - k <= i < |s| - 1 ==> s[i] == s[..|s| - 1][i];
      k + 1
    else 0
  }

  /** Drops leading and trailing characters satisfying `ws`: the longest infix that neither starts nor ends with one. */
  function Strip(s: string, ws: char -> bool): (r: string)
    ensures r == [] <==> (forall i :: 0 <= i < |s| ==> ws(s[i]))
    ensures r != [] ==> !ws(r[0]) && !ws(r[|r| - 1])
    ensures exists k :: InfixAt(r, s, k)
  {
    var a := LeadingCount(s, ws);
    if a == |s| then
      assert InfixAt([], s, 0);
      []
    else
      var b := TrailingCount(s[a..], ws);
      var r := s[a..|s| - b];
      assert InfixAt(r, s, a);
      assert r == s[a..][..|s| - a - b];
      r
  }

  /** JavaScript `s.trim()`. */
  function JsTrim(s: string): string {
    Strip(s, IsJsWhitespace)
  }

  /** Python `s.strip()`. */
  function PyStrip(s: string): string {
    Strip(s, IsPyWhitespace)
  }

  /** JavaScript truthiness of `s.trim()`: the string has a character other than whitespace. */
  predicate JsHasText(s: string) {
    exists i :: 0 <= i < |s| && !IsJsWhitespace(s[i])
  }

  /** `s.trim()` is non-empty exactly when `s` has text. */
  lemma JsHasTextIff(s: string)
    ensures JsHasText(s) <==> JsTrim(s) != ""
  {
  }

  // ---------------------------------------------------------------------------
  // Prefixes, suffixes, case

  predicate StartsWith(s: string, p: string) {
    |p| <= |s| && s[..|p|] == p
  }

  predicate EndsWith(s: string, p: string) {
    |p| <= |s| && s[|s| - |p|..] == p
  }

  predicate IsAsciiUpper(c: char) { 'A' <= c <= 'Z' }
  predicate IsAsciiLowerCase(c: char) { 'a' <= c <= 'z' }
  predicate IsAsciiLetter(c: char) { IsAsciiUpper(c) || IsAsciiLowerCase(c) }
  predicate IsDigit(c: char) { '0' <= c <= '9' }

  function LowerChar(c: char): (r: char)
    ensures IsAsciiUpper(c) ==> IsAsciiLowerCase(r) && r as int == c as int + 32
    ensures !IsAsciiUpper(c) ==> r == c
  {
    if IsAsciiUpper(c) then (c as int + 32) as char else c
  }

  function UpperChar(c: char): (r: char)
    ensures IsAsciiLowerCase(c) ==> IsAsciiUpper(r) && r as int == c as int - 32
    ensures !IsAsciiLowerCase(c) ==> r == c
  {
    if IsAsciiLowerCase(c) then (c as int - 32) as char else c
  }

  /** Lower-casing, on the ASCII letters (Python `str.lower`, SQL `lower`, JavaScript `toLowerCase` restricted to ASCII). */
  function AsciiLower(s: string): (r: string)
    ensures |r| == |s|
    ensures forall i :: 0 <= i < |s| ==> r[i] == LowerChar(s[i])
  {
    seq(|s|, i requires 0 <= i < |s| => LowerChar(s[i]))
  }

  /** Lower-casing twice is lower-casing once, so a normalised address compares equal to its own normalisation. */
  lemma AsciiLowerIdempotent(s: string)
    ensures AsciiLower(AsciiLower(s)) == AsciiLower(s)
  {
  }

  /** Python `str.title()` on ASCII text: a letter is upper-cased when the character before it is not a letter, lower-cased otherwise. */
  function TitleCase(s: string): (r: string)
    ensures |r| == |s|
  {
    TitleFrom(s, false)
  }

  function TitleFrom(s: string, afterLetter: bool): (r: string)
    ensures |r| == |s|
    ensures forall i :: 0 <= i < |s| && !IsAsciiLetter(s[i]) ==> r[i] == s[i]
    ensures forall i :: 0 <= i < |s| && IsAsciiLetter(s[i]) ==>
      r[i] == if (if i == 0 then afterLetter else IsAsciiLetter(s[i - 1])) then LowerChar(s[i]) else UpperChar(s[i])
  {
    if s == [] then []
    else
      var c := s[0];
      var head := if IsAsciiLetter(c) then (if afterLetter then LowerChar(c) else UpperChar(c)) else c;
      [head] + TitleFrom(s[1..], IsAsciiLetter(c))
  }

  /** Every occurrence of `from` replaced by `to` (Python `str.replace` with single characters). */
  function ReplaceChar(s: string, from: char, to: char): (r: string)
    ensures |r| == |s|
    ensures forall i :: 0 <= i < |s| ==> r[i] == if s[i] == from then to else s[i]
  {
    seq(|s|, i requires 0 <= i < |s| => if s[i] == from then to else s[i])
  }

  // ---------------------------------------------------------------------------
  // Splitting on one separator character (JavaScript `split("\n")`, Python `split(",")`)

  function Split(s: string, sep: char): (parts: seq<string>)
    ensures |parts| >= 1
    ensures forall i :: 0 <= i < |parts| ==> sep !in parts[i]
  {
    if s == [] then [[]]
    else
      var rest := Split(s[1..], sep);
      if s[0] == sep then [[]] + rest
      else [[s[0]] + rest[0]] + rest[1..]
  }

  function Join(parts: seq<string>, sep: char): string
    requires |parts| >= 1
  {
    if |parts| == 1 then parts[0] else parts[0] + [sep] + Join(parts[1..], sep)
  }

  function Count(s: string, c: char): nat {
    if s == [] then 0 else (if s[0] == c then 1 else 0) + Count(s[1..], c)
  }

  /** Joining the pieces with the separator gives back the input. */
  lemma {:induction false} JoinSplit(s: string, sep: char)
    ensures Join(Split(s, sep), sep) == s
  {
    if s != [] {
      JoinSplit(s[1..], sep);
      var rest := Split(s[1..], sep);
      if s[0] != sep {
        var parts := Split(s, sep);
        if |rest| == 1 {
          assert parts == [[s[0]] + rest[0]];
        } else {
          assert parts[1..] == rest[1..];
          assert Join(rest, sep) == rest[0] + [sep] + Join(rest[1..], sep);
        }
      } else {
        assert Split(s, sep)[1..] == rest;
      }
    }
  }

  /** There is one more piece than there are separators. */
  lemma {:induction false} SplitCount(s: string, sep: char)
    ensures |Split(s, sep)| == Count(s, sep) + 1
  {
    if s != [] {
      SplitCount(s[1..], sep);
    }
  }

  /** A first piece without the separator stays in one piece with whatever follows. */
  lemma {:induction false} SplitPrefix(a: string, t: string, sep: char)
    requires sep !in a
    ensures Split(a + t, sep) == [a + Split(t, sep)[0]] + Split(t, sep)[1..]
    decreases |a|
  {
    if a == [] {
      assert a + t == t;
      assert a + Split(t, sep)[0] == Split(t, sep)[0];
      assert Split(t, sep) == [Split(t, sep)[0]] + Split(t, sep)[1..];
    } else {
      assert (a + t)[0] == a[0];
      assert (a + t)[1..] == a[1..] + t;
      assert a[0] in a;
      assert forall x :: x in a[1..] ==> x in a;
      SplitPrefix(a[1..], t, sep);
      var st := Split(t, sep);
      var rest := Split(a[1..] + t, sep);
      assert rest[0] == a[1..] + st[0] && rest[1..] == st[1..];
      assert Split(a + t, sep) == [[a[0]] + rest[0]] + rest[1..];
      assert [a[0]] + (a[1..] + st[0]) == a + st[0];
    }
  }

  /** Splitting pieces without the separator, joined by it, gives back the pieces. */
  lemma {:induction false} SplitJoin(parts: seq<string>, sep: char)
    requires |parts| >= 1
    requires forall i :: 0 <= i < |parts| ==> sep !in parts[i]
    ensures Split(Join(parts, sep), sep) == parts
    decreases |parts|
  {
    if |parts| == 1 {
      SplitPrefix(parts[0], [], sep);
      assert parts[0] + [] == parts[0];
    } else {
      var rest := Join(parts[1..], sep);
      SplitJoin(parts[1..], sep);
      var t := [sep] + rest;
      assert t[0] == sep && t[1..] == rest;
      assert Split(t, sep) == [[]] + parts[1..];
      assert parts[0] + [sep] + rest == parts[0] + t;
      SplitPrefix(parts[0], t, sep);
      assert parts[0] + [] == parts[0];
      assert parts == [parts[0]] + parts[1..];
    }
  }

  // ---------------------------------------------------------------------------
  // Decimal and hexadecimal digits

  function DigitChar(d: nat): (c: char)
    requires d < 16
  {
    "0123456789abcdef"[d]
  }

  /** The value of a digit character in base 16 (upper or lower case), or -1. */
  function HexValue(c: char): (v: int)
    ensures -1 <= v < 16
    ensures IsDigit(c) ==> v == c as int - '0' as int
  {
    if IsDigit(c) then c as int - '0' as int
    else if 'a' <= c <= 'f' then c as int - 'a' as int + 10
    else if 'A' <= c <= 'F' then c as int - 'A' as int + 10
    else -1
  }

  lemma HexValueOfDigitChar(d: nat)
    requires d < 16
    ensures HexValue(DigitChar(d)) == d
  {
  }

  /** Python `str(n)` for a natural number: its decimal digits, most significant first, no leading zeros. */
  function NatToDecimal(n: nat): (r: string)
    ensures |r| >= 1
    ensures forall i :: 0 <= i < |r| ==> IsDigit(r[i])
  {
    if n < 10 then [DigitChar(n)] else NatToDecimal(n / 10) + [DigitChar(n % 10)]
  }

  /** Python `str(i)` for an integer. */
  function IntToDecimal(i: int): string {
    if i < 0 then "-" + NatToDecimal(-i) else NatToDecimal(i)
  }

  /** The number written by a sequence of digit values, most significant first. */
  function DigitsValue(ds: seq<int>, base: nat): int {
    if ds == [] then 0 else DigitsValue(ds[..|ds| - 1], base) * base + ds[|ds| - 1]
  }

  /** The digit values of a string of base-`base` digits and underscores, underscores dropped. */
  function DigitValues(s: string): (ds: seq<int>) {
    if s == [] then []
    else if s[|s| - 1] == '_' then DigitValues(s[..|s| - 1])
    else DigitValues(s[..|s| - 1]) + [HexValue(s[|s| - 1])]
  }

  /**
   * The digit part accepted by Python's `int()` in the given base: at least one digit, digits of the base,
   * single underscores only between digits, and one underscore right after a `0x` prefix when `prefixed`.
   */
  predicate WellFormedDigits(s: string, base: nat, prefixed: bool) {
    && |s| >= 1
    && (forall i :: 0 <= i < |s| ==> s[i] == '_' || 0 <= HexValue(s[i]) < base)
    && s[|s| - 1] != '_'
    && (s[0] == '_' ==> prefixed)
    && (forall i :: 0 <= i < |s| - 1 ==> !(s[i] == '_' && s[i + 1] == '_'))
  }

  /**
   * Python `int(s, base)` for base 10 or 16: surrounding whitespace, an optional sign, an optional `0x`/`0X`
   * in base 16 and underscores between digits are accepted; anything else raises `ValueError` (None here).
   */
  function PyParseInt(s: string, base: nat): Option<int>
    requires base == 10 || base == 16
  {
    var t := PyStrip(s);
    var signed := |t| > 0 && (t[0] == '+' || t[0] == '-');
    var u := if signed then t[1..] else t;
    var prefixed := base == 16 && |u| >= 2 && u[0] == '0' && (u[1] == 'x' || u[1] == 'X');
    var body := if prefixed then u[2..] else u;
    if !WellFormedDigits(body, base, prefixed) then None
    else
      var v := DigitsValue(DigitValues(body), base);
      Some(if signed && t[0] == '-' then -v else v)
  }

  /** A stripped, unsigned, unprefixed run of digits parses to its value. */
  lemma ParseIntPlain(s: string, base: nat)
    requires base == 10 || base == 16
    requires PyStrip(s) == s && |s| >= 2 && s[0] != '+' && s[0] != '-' && s[1] != 'x' && s[1] != 'X'
    requires WellFormedDigits(s, base, false)
    ensures PyParseInt(s, base) == Some(DigitsValue(DigitValues(s), base))
  {
  }

  lemma {:induction false} DigitValuesOfDecimal(n: nat)
    ensures DigitValues(NatToDecimal(n)) == DigitValuesOfNat(n)
    ensures DigitsValue(DigitValuesOfNat(n), 10) == n
  {
    if n >= 10 {
      DigitValuesOfDecimal(n / 10);
      var s := NatToDecimal(n);
      assert s[..|s| - 1] == NatToDecimal(n / 10);
      HexValueOfDigitChar(n % 10);
    } else {
      HexValueOfDigitChar(n);
    }
  }

  function DigitValuesOfNat(n: nat): seq<int> {
    if n < 10 then [n] else DigitValuesOfNat(n / 10) + [n % 10]
  }

  /** `int(str(n))` gives back `n`: the decimal rendering is accepted by Python's parser and denotes `n`. */
  lemma ParseIntOfDecimal(i: int)
    ensures PyParseInt(IntToDecimal(i), 10) == Some(i)
  {
    var n: nat := if i < 0 then -i else i;
    var d := NatToDecimal(n);
    var s := IntToDecimal(i);
    DecimalStrips(i);
    DecimalWellFormed(n);
    DigitValuesOfDecimal(n);
    var body := if i < 0 then s[1..] else s;
    assert body == d;
    assert (|s| > 0 && (s[0] == '+' || s[0] == '-')) <==> i < 0;
  }

  lemma DecimalWellFormed(n: nat)
    ensures WellFormedDigits(NatToDecimal(n), 10, false)
  {
  }

  lemma DecimalStrips(i: int)
    ensures PyStrip(IntToDecimal(i)) == IntToDecimal(i)
  {
    var s := IntToDecimal(i);
    assert s[0] == '-' || IsDigit(s[0]);
    assert IsDigit(s[|s| - 1]);
    StripNoEdgeSpace(s, IsPyWhitespace);
  }

  /** A string that neither starts nor ends with whitespace strips to itself. */
  lemma StripNoEdgeSpace(s: string, ws: char -> bool)
    requires s == [] || (!ws(s[0]) && !ws(s[|s| - 1]))
    ensures Strip(s, ws) == s
  {
  }

  // ---------------------------------------------------------------------------
  // Encodings

  /** The UTF-16 code units of one code point (JavaScript strings are sequences of these). */
  function CharUtf16(c: char): (r: seq<int>)
    ensures 1 <= |r| <= 2
    ensures forall i :: 0 <= i < |r| ==> 0 <= r[i] < 0x10000
    ensures c as int < 0x10000 ==> r == [c as int]
  {
    var v := c as int;
    if v < 0x10000 then [v]
    else
      var w := v - 0x10000;
      [0xD800 + w / 0x400, 0xDC00 + w % 0x400]
  }

  /** The UTF-16 code units of a string, as `charCodeAt` sees them. */
  function Utf16(s: string): (r: seq<int>)
    ensures |r| >= |s|
    ensures forall i :: 0 <= i < |r| ==> 0 <= r[i] < 0x10000
  {
    if s == [] then [] else CharUtf16(s[0]) + Utf16(s[1..])
  }

  /** The UTF-8 bytes of one code point. */
  function CharUtf8(c: char): (r: seq<int>)
    ensures 1 <= |r| <= 4
    ensures forall i :: 0 <= i < |r| ==> 0 <= r[i] < 256
    ensures (c as int < 0x80) <==> r == [c as int]
  {
    var v := c as int;
    if v < 0x80 then [v]
    else if v < 0x800 then [0xC0 + v / 64, 0x80 + v % 64]
    else if v < 0x10000 then [0xE0 + v / 4096, 0x80 + (v / 64) % 64, 0x80 + v % 64]
    else [0xF0 + v / 262144, 0x80 + (v / 4096) % 64, 0x80 + (v / 64) % 64, 0x80 + v % 64]
  }

  /** The UTF-8 bytes of a string. */
  function Utf8(s: string): (r: seq<int>)
    ensures forall i :: 0 <= i < |r| ==> 0 <= r[i] < 256
  {
    if s == [] then [] else CharUtf8(s[0]) + Utf8(s[1..])
  }

  // ---------------------------------------------------------------------------
  // urllib.parse.quote_plus (RFC 3986 percent-encoding, with '+' for a space)

  /** The bytes `quote` never escapes: ASCII letters, digits and `_.-~`. */
  predicate IsUnreserved(b: int) {
    ('A' as int <= b <= 'Z' as int) || ('a' as int <= b <= 'z' as int) || ('0' as int <= b <= '9' as int)
    || b == '_' as int || b == '.' as int || b == '-' as int || b == '~' as int
  }

  function UpperHex(d: nat): char
    requires d < 16
  {
    "0123456789ABCDEF"[d]
  }

  function QuoteByte(b: int): (r: string)
    requires 0 <= b < 256
  {
    if IsUnreserved(b) then [b as char]
    else if b == 0x20 then "+"
    else ['%', UpperHex(b / 16), UpperHex(b % 16)]
  }

  function QuoteBytes(bs: seq<int>): string
    requires forall i :: 0 <= i < |bs| ==> 0 <= bs[i] < 256
  {
    if bs == [] then [] else QuoteByte(bs[0]) + QuoteBytes(bs[1..])
  }

  /** Python `quote_plus(s)` with its default `safe=''`. */
  function QuotePlus(s: string): string {
    QuoteBytes(Utf8(s))
  }

  /** A character `quote_plus` may emit. */
  predicate IsQuotedChar(c: char) {
    IsUnreserved(c as int) || c == '+' || c == '%'
  }

  lemma {:induction false} QuoteBytesChars(bs: seq<int>)
    requires forall i :: 0 <= i < |bs| ==> 0 <= bs[i] < 256
    ensures forall i :: 0 <= i < |QuoteBytes(bs)| ==> IsQuotedChar(QuoteBytes(bs)[i])
  {
    if bs != [] {
      QuoteBytesChars(bs[1..]);
      QuoteByteChars(bs[0]);
      var q, r := QuoteByte(bs[0]), QuoteBytes(bs[1..]);
      assert QuoteBytes(bs) == q + r;
      forall i | 0 <= i < |q + r|
        ensures IsQuotedChar((q + r)[i])
      {
        if i < |q| {
          assert (q + r)[i] == q[i];
        } else {
          assert (q + r)[i] == r[i - |q|];
        }
      }
    }
  }

  /** One byte's encoding uses only characters `quote_plus` may emit. */
  lemma QuoteByteChars(b: int)
    requires 0 <= b < 256
    ensures forall i :: 0 <= i < |QuoteByte(b)| ==> IsQuotedChar(QuoteByte(b)[i])
  {
    if !IsUnreserved(b) && b != 0x20 {
      var hi, lo := UpperHex(b / 16), UpperHex(b % 16);
      assert "0123456789ABCDEF"[b / 16] == hi && "0123456789ABCDEF"[b % 16] == lo;
      assert forall k :: 0 <= k < 16 ==> IsUnreserved("0123456789ABCDEF"[k] as int);
    }
  }

  /** The encoded password holds no `:`, `@` or `/`, so it cannot be mistaken for URL structure. */
  lemma QuotePlusIsUrlSafe(s: string)
    ensures forall i :: 0 <= i < |QuotePlus(s)| ==> IsQuotedChar(QuotePlus(s)[i])
    ensures ':' !in QuotePlus(s) && '@' !in QuotePlus(s) && '/' !in QuotePlus(s)
  {
    QuoteBytesChars(Utf8(s));
  }

  /** Python `unquote_to_bytes` after replacing `+` by a space: the decoder `quote_plus` is built for. */
  function UnquotePlus(q: string): seq<int> {
    if q == [] then []
    else if q[0] == '+' then [0x20] + UnquotePlus(q[1..])
    else if q[0] == '%' && |q| >= 3 && HexValue(q[1]) >= 0 && HexValue(q[2]) >= 0 then
      [HexValue(q[1]) * 16 + HexValue(q[2])] + UnquotePlus(q[3..])
    else [q[0] as int] + UnquotePlus(q[1..])
  }

  lemma UnquoteQuoteByte(b: int, rest: string)
    requires 0 <= b < 256
    ensures UnquotePlus(QuoteByte(b) + rest) == [b] + UnquotePlus(rest)
  {
    var q := QuoteByte(b) + rest;
    if IsUnreserved(b) {
      assert q[0] == b as char && q[1..] == rest;
    } else if b == 0x20 {
      assert q[1..] == rest;
    } else {
      UnquoteEscape(b / 16, b % 16, rest);
    }
  }

  /** `HexValue` reads back the digit `UpperHex` writes. */
  lemma HexValueUpperHex(d: nat)
    requires d < 16
    ensures HexValue(UpperHex(d)) == d
  {
  }

  /** A `%XY` escape decodes to the byte with those two hex digits. */
  lemma UnquoteEscape(hi: nat, lo: nat, rest: string)
    requires hi < 16 && lo < 16
    ensures UnquotePlus(['%', UpperHex(hi), UpperHex(lo)] + rest) == [hi * 16 + lo] + UnquotePlus(rest)
  {
    var q := ['%', UpperHex(hi), UpperHex(lo)] + rest;
    HexValueUpperHex(hi);
    HexValueUpperHex(lo);
    assert q[1] == UpperHex(hi) && q[2] == UpperHex(lo);
    assert q[3..] == rest;
  }

  /** Decoding a `quote_plus` encoding gives back exactly the encoded bytes. */
  lemma {:induction false} UnquoteQuoteBytes(bs: seq<int>)
    requires forall i :: 0 <= i < |bs| ==> 0 <= bs[i] < 256
    ensures UnquotePlus(QuoteBytes(bs)) == bs
  {
    if bs != [] {
      UnquoteQuoteBytes(bs[1..]);
      UnquoteQuoteByte(bs[0], QuoteBytes(bs[1..]));
    }
  }
}
