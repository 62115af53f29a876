/**
 * UUIDs as the backend handles them: 128-bit values, their canonical text (Python `str(uuid)`, what the
 * access token carries as `sub`) and Python's `UUID(text)` constructor, which `get_current_user` uses to read
 * the subject back.
 */
module Uuid {
  import opened Wrappers
  import opened Text

  const UUID_LIMIT: nat := 0x1_0000_0000_0000_0000_0000_0000_0000_0000

  /** A 128-bit identifier. */
  type Uuid = n: nat | n < UUID_LIMIT

  function Pow16(n: nat): (p: nat)
    ensures p >= 1
  {
    if n == 0 then 1 else 16 * Pow16(n - 1)
  }

  /** The last `n` hexadecimal digits of `v`, lower case, most significant first (`'%0nx' % v` when it fits). */
  function HexDigits(v: nat, n: nat): (r: string)
    ensures |r| == n
    ensures forall i :: 0 <= i < n ==> 0 <= HexValue(r[i]) < 16
  {
    if n == 0 then [] else HexDigits(v / 16, n - 1) + [DigitChar(v % 16)]
  }

  /** Python `str(uuid)`: 32 lower-case hexadecimal digits grouped 8-4-4-4-12 by dashes. */
  function UuidText(u: Uuid): (r: string)
    ensures |r| == 36
  {
    var h := HexDigits(u, 32);
    h[..8] + "-" + h[8..12] + "-" + h[12..16] + "-" + h[16..20] + "-" + h[20..]
  }

  /** `s.replace(pat, "")`: every non-overlapping occurrence of `pat`, scanning left to right, removed. */
  function RemoveAll(s: string, pat: string): (r: string)
    requires pat != []
    ensures |r| <= |s|
    decreases |s|
  {
    if |s| < |pat| then s
    else if s[..|pat|] == pat then RemoveAll(s[|pat|..], pat)
    else [s[0]] + RemoveAll(s[1..], pat)
  }

  /** `s.replace(c, "")` for one character. */
  function RemoveChar(s: string, c: char): (r: string)
    ensures c !in r
    ensures forall x :: x in r <==> x in s && x != c
  {
    if s == [] then [] else (if s[0] == c then [] else [s[0]]) + RemoveChar(s[1..], c)
  }

  predicate IsBrace(c: char) {
    c == '{' || c == '}'
  }

  /**
   * Python `UUID(text)`: drop every `urn:` and then every `uuid:`, strip braces from both ends, drop every dash;
   * what is left must be 32 characters that `int(_, 16)` accepts, with a value of 128 bits.
   */
  function ParseUuid(text: string): (r: Option<Uuid>)
    ensures r.Some? ==> |RemoveChar(Strip(RemoveAll(RemoveAll(text, "urn:"), "uuid:"), IsBrace), '-')| == 32
  {
    var hex := RemoveChar(Strip(RemoveAll(RemoveAll(text, "urn:"), "uuid:"), IsBrace), '-');
    if |hex| != 32 then None
    else match PyParseInt(hex, 16)
      case Some(v) => if 0 <= v < UUID_LIMIT then Some(v as Uuid) else None
      case None => None
  }

  // ---------------------------------------------------------------------------
  // `UUID(str(u)) == u`

  /** A pattern whose first character never occurs is never removed. */
  lemma {:induction false} RemoveAllAbsent(s: string, pat: string)
    requires pat != [] && pat[0] !in s
    ensures RemoveAll(s, pat) == s
    decreases |s|
  {
    if |s| >= |pat| {
      assert s[..|pat|][0] == s[0];
      assert s[0] in s;
      assert forall x :: x in s[1..] ==> x in s;
      RemoveAllAbsent(s[1..], pat);
      assert [s[0]] + s[1..] == s;
    }
  }

  lemma {:induction false} RemoveCharAppend(a: string, b: string, c: char)
    ensures RemoveChar(a + b, c) == RemoveChar(a, c) + RemoveChar(b, c)
    decreases |a|
  {
    if a == [] {
      assert a + b == b;
    } else {
      assert (a + b)[0] == a[0];
      assert (a + b)[1..] == a[1..] + b;
      RemoveCharAppend(a[1..], b, c);
    }
  }

  lemma {:induction false} RemoveCharAbsent(s: string, c: char)
    requires c !in s
    ensures RemoveChar(s, c) == s
    decreases |s|
  {
    if s != [] {
      assert forall x :: x in s[1..] ==> x in s;
      RemoveCharAbsent(s[1..], c);
      assert [s[0]] + s[1..] == s;
    }
  }

  /** The digit values `DigitValues` reads back from `HexDigits`. */
  function HexDigitValues(v: nat, n: nat): seq<int> {
    if n == 0 then [] else HexDigitValues(v / 16, n - 1) + [v % 16]
  }

  lemma {:induction false} HexDigitsValue(v: nat, n: nat)
    requires v < Pow16(n)
    ensures DigitValues(HexDigits(v, n)) == HexDigitValues(v, n)
    ensures DigitsValue(HexDigitValues(v, n), 16) == v
    decreases n
  {
    if n > 0 {
      assert v / 16 < Pow16(n - 1);
      HexDigitsValue(v / 16, n - 1);
      var s := HexDigits(v, n);
      assert s[..|s| - 1] == HexDigits(v / 16, n - 1);
      HexValueOfDigitChar(v % 16);
      var ds := HexDigitValues(v, n);
      assert ds[..|ds| - 1] == HexDigitValues(v / 16, n - 1);
    }
  }

  lemma Pow16Of32()
    ensures Pow16(32) == UUID_LIMIT
  {
    var p8 := Pow16(8);
    assert p8 == 0x1_0000_0000 by {
      assert Pow16(4) == 0x1_0000;
    }
    assert Pow16(16) == p8 * p8 by {
      Pow16Add(8, 8);
    }
    Pow16Add(16, 16);
  }

  lemma {:induction false} Pow16Add(a: nat, b: nat)
    ensures Pow16(a + b) == Pow16(a) * Pow16(b)
    decreases a
  {
    if a > 0 {
      Pow16Add(a - 1, b);
    }
  }

  /** Hexadecimal digits contain no underscore and neither start nor end with a sign or whitespace. */
  lemma HexDigitsShape(v: nat, n: nat)
    requires n >= 2
    ensures WellFormedDigits(HexDigits(v, n), 16, false)
    ensures PyStrip(HexDigits(v, n)) == HexDigits(v, n)
    ensures HexDigits(v, n)[0] != '+' && HexDigits(v, n)[0] != '-'
    ensures HexDigits(v, n)[1] != 'x' && HexDigits(v, n)[1] != 'X'
  {
    var h := HexDigits(v, n);
    assert forall i :: 0 <= i < |h| ==> h[i] != '_' && !IsPyWhitespace(h[i]) by {
      forall i | 0 <= i < |h|
        ensures h[i] != '_' && !IsPyWhitespace(h[i])
      {
        assert 0 <= HexValue(h[i]);
      }
    }
    StripNoEdgeSpace(h, IsPyWhitespace);
    assert 0 <= HexValue(h[0]) && 0 <= HexValue(h[1]);
  }

  /** The 32 digits of a UUID are a base-16 literal `int` accepts, denoting the UUID. */
  lemma ParseHexDigits(u: Uuid)
    ensures PyParseInt(HexDigits(u, 32), 16) == Some(u as int)
  {
    HexDigitsShape(u, 32);
    ParseIntPlain(HexDigits(u, 32), 16);
    Pow16Of32();
    HexDigitsValue(u, 32);
  }

  /** Every character of a UUID's text is a dash or a hexadecimal digit. */
  lemma UuidTextChars(u: Uuid)
    ensures forall x :: x in UuidText(u) ==> x == '-' || 0 <= HexValue(x)
  {
    var h := HexDigits(u, 32);
    var s := UuidText(u);
    forall x | x in s
      ensures x == '-' || 0 <= HexValue(x)
    {
      assert x in h[..8] || x in h[8..12] || x in h[12..16] || x in h[16..20] || x in h[20..] || x == '-';
      assert x != '-' ==> x in h;
    }
  }

  lemma HexSliceNoDash(h: string, i: nat, j: nat)
    requires forall k :: 0 <= k < |h| ==> 0 <= HexValue(h[k])
    requires i <= j <= |h|
    ensures '-' !in h[i..j]
  {
    forall k | 0 <= k < j - i
      ensures h[i..j][k] != '-'
    {
      assert h[i..j][k] == h[i + k];
    }
  }

  lemma DropDash(a: string, b: string)
    requires '-' !in b
    ensures RemoveChar(a + "-" + b, '-') == RemoveChar(a, '-') + b
  {
    RemoveCharAppend(a + "-", b, '-');
    RemoveCharAppend(a, "-", '-');
    RemoveCharAbsent(b, '-');
  }

  /** Dropping the dashes of a UUID's text leaves its 32 digits. */
  lemma UuidTextDashless(u: Uuid)
    ensures RemoveChar(UuidText(u), '-') == HexDigits(u, 32)
  {
    var h := HexDigits(u, 32);
    var p1, p2, p3, p4, p5 := h[..8], h[8..12], h[12..16], h[16..20], h[20..];
    HexSliceNoDash(h, 0, 8);
    HexSliceNoDash(h, 8, 12);
    HexSliceNoDash(h, 12, 16);
    HexSliceNoDash(h, 16, 20);
    HexSliceNoDash(h, 20, 32);
    var x1 := p1;
    var x2 := x1 + "-" + p2;
    var x3 := x2 + "-" + p3;
    var x4 := x3 + "-" + p4;
    assert UuidText(u) == x4 + "-" + p5;
    RemoveCharAbsent(p1, '-');
    DropDash(x1, p2);
    var y2 := p1 + p2;
    DropDash(x2, p3);
    var y3 := y2 + p3;
    DropDash(x3, p4);
    var y4 := y3 + p4;
    DropDash(x4, p5);
    assert RemoveChar(UuidText(u), '-') == y4 + p5;
    assert h == h[..20] + p5 && h[..20] == h[..16] + p4 && h[..16] == h[..12] + p3 && h[..12] == p1 + p2;
  }

  /** The prefixes and braces `UUID` removes never occur in a UUID's text. */
  lemma UuidTextUnwrapped(u: Uuid)
    ensures Strip(RemoveAll(RemoveAll(UuidText(u), "urn:"), "uuid:"), IsBrace) == UuidText(u)
  {
    var s := UuidText(u);
    UuidTextChars(u);
    assert 'u' !in s by {
      assert HexValue('u') < 0;
    }
    RemoveAllAbsent(s, "urn:");
    RemoveAllAbsent(s, "uuid:");
    assert !IsBrace(s[0]) && !IsBrace(s[35]) by {
      assert s[0] in s && s[35] in s;
    }
    StripNoEdgeSpace(s, IsBrace);
  }

  /** `UUID(str(u)) == u`: the subject written into a token reads back as the same identifier. */
  lemma ParseUuidText(u: Uuid)
    ensures ParseUuid(UuidText(u)) == Some(u)
  {
    var s := UuidText(u);
    UuidTextUnwrapped(u);
    UuidTextDashless(u);
    var hex := RemoveChar(Strip(RemoveAll(RemoveAll(s, "urn:"), "uuid:"), IsBrace), '-');
    assert hex == HexDigits(u, 32);
    ParseHexDigits(u);
  }

  /** Distinct identifiers have distinct texts. */
  lemma UuidTextInjective(u: Uuid, w: Uuid)
    requires UuidText(u) == UuidText(w)
    ensures u == w
  {
    ParseUuidText(u);
    ParseUuidText(w);
  }
}
