/**
 * getUtf8ByteLength and clampUtf8Text of frontend/web-app/src/lib/utf8.ts, on UTF-16 strings with lone surrogates.
 */
module Utf8Clamp {
  import opened Basics

  type unit16 = u: int | 0 <= u < 0x1_0000

  type codepoint = cp: int | 0 <= cp < 0x11_0000

  type Text = seq<unit16>

  predicate IsHigh(u: unit16) {
    0xD800 <= u <= 0xDBFF
  }

  predicate IsLow(u: unit16) {
    0xDC00 <= u <= 0xDFFF
  }

  /** How many code units the string iterator takes for the character at `i`. */
  function CharLen(s: Text, i: nat): (n: nat)
    requires i < |s|
    ensures 1 <= n <= 2 && i + n <= |s|
  {
    if IsHigh(s[i]) && i + 1 < |s| && IsLow(s[i + 1]) then 2 else 1
  }

  function CodePointAt(s: Text, i: nat): codepoint
    requires i < |s|
  {
    if CharLen(s, i) == 2 then 0x1_0000 + (s[i] as int - 0xD800) * 0x400 + (s[i + 1] as int - 0xDC00) else s[i]
  }

  function Utf8ByteLengthForCodePoint(codePoint: nat): nat {
    if codePoint <= 0x7F then 1
    else if codePoint <= 0x7FF then 2
    else if codePoint <= 0xFFFF then 3
    else 4
  }

  /** Section 3 of RFC 3629, with U+FFFD for a lone surrogate, as TextEncoder writes it. */
  function EncodeCodePoint(codePoint: codepoint): seq<byte>
  {
    var cp := if 0xD800 <= codePoint <= 0xDFFF then 0xFFFD else codePoint;
    if cp <= 0x7F then [cp]
    else if cp <= 0x7FF then [0xC0 + cp / 0x40, 0x80 + cp % 0x40]
    else if cp <= 0xFFFF then [0xE0 + cp / 0x1000, 0x80 + cp / 0x40 % 0x40, 0x80 + cp % 0x40]
    else [0xF0 + cp / 0x4_0000, 0x80 + cp / 0x1000 % 0x40, 0x80 + cp / 0x40 % 0x40, 0x80 + cp % 0x40]
  }

  /** What the lead and continuation octets of the standard's table carry, most significant bits first. */
  function Carried(e: seq<byte>): int
    requires 1 <= |e| <= 4
  {
    if |e| == 1 then e[0]
    else if |e| == 2 then (e[0] as int - 0xC0) * 0x40 + Tail(e[1])
    else if |e| == 3 then ((e[0] as int - 0xE0) * 0x40 + Tail(e[1])) * 0x40 + Tail(e[2])
    else (((e[0] as int - 0xF0) * 0x40 + Tail(e[1])) * 0x40 + Tail(e[2])) * 0x40 + Tail(e[3])
  }

  function Tail(octet: byte): int {
    octet as int - 0x80
  }

  /** The octets carry the code point, each continuation octet six bits of it, in the fewest octets that can. */
  lemma OctetsCarryCodePoint(cp: codepoint)
    requires !(0xD800 <= cp <= 0xDFFF)
    ensures var e := EncodeCodePoint(cp); 1 <= |e| <= 4 && Carried(e) == cp && forall i :: 1 <= i < |e| ==> 0 <= Tail(e[i]) < 0x40
    ensures |EncodeCodePoint(cp)| == if cp < 0x80 then 1 else if cp < 0x800 then 2 else if cp < 0x1_0000 then 3 else 4
  {
    var low, mid := cp / 0x40, cp / 0x1000;
    assert cp == low * 0x40 + cp % 0x40;
    assert low == mid * 0x40 + low % 0x40;
    assert cp / 0x4_0000 == mid / 0x40 && mid == mid / 0x40 * 0x40 + mid % 0x40;
  }

  /** A lone surrogate is written as U+FFFD. */
  lemma LoneSurrogate(cp: codepoint)
    requires 0xD800 <= cp <= 0xDFFF
    ensures EncodeCodePoint(cp) == [0xEF, 0xBF, 0xBD]
  {
  }

  /** The characters the string iterator yields. */
  function CodePoints(s: Text): seq<codepoint>
    decreases |s|
  {
    if s == [] then [] else [CodePointAt(s, 0)] + CodePoints(s[CharLen(s, 0)..])
  }

  function EncodeAll(cps: seq<codepoint>): seq<byte> {
    if cps == [] then [] else EncodeAll(cps[..|cps| - 1]) + EncodeCodePoint(cps[|cps| - 1])
  }

  /** A unit in D800..DBFF before one in DC00..DFFF: section 3.8 of the Unicode Standard calls them a surrogate pair. */
  predicate PairAt(s: Text, i: nat) {
    i + 1 < |s| && 0xD800 <= s[i] < 0xDC00 <= s[i + 1] < 0xE000
  }

  /** The characters of a text: a pair counts as the one code point it stands for, any other unit as itself. */
  lemma CharacterLaw(s: Text)
    requires s != []
    ensures PairAt(s, 0) ==> CodePoints(s) == [0x1_0000 + (s[0] as int - 0xD800) * 0x400 + (s[1] as int - 0xDC00)] + CodePoints(s[2..])
    ensures !PairAt(s, 0) ==> CodePoints(s) == [s[0]] + CodePoints(s[1..])
  {
    UnitsOfFirst(s);
    var k := CharLen(s, 0);
    assert CodePoints(s) == [CodePointAt(s, 0)] + CodePoints(s[k..]);
  }

  lemma UnitsOfFirst(s: Text)
    requires s != []
    ensures PairAt(s, 0) ==> CharLen(s, 0) == 2 && CodePointAt(s, 0) == 0x1_0000 + (s[0] as int - 0xD800) * 0x400 + (s[1] as int - 0xDC00)
    ensures !PairAt(s, 0) ==> CharLen(s, 0) == 1 && CodePointAt(s, 0) == s[0]
  {
  }

  /** Every pair is one character of four bytes, which carry the code point it stands for. */
  lemma PairIsOneCharacter(h: unit16, l: unit16)
    requires 0xD800 <= h <= 0xDBFF && 0xDC00 <= l <= 0xDFFF
    ensures var cp := 0x1_0000 + (h as int - 0xD800) * 0x400 + (l as int - 0xDC00);
            CodePoints([h, l]) == [cp] && |Encode([h, l])| == 4 && Carried(Encode([h, l])) == cp
  {
    var cp: codepoint := 0x1_0000 + (h as int - 0xD800) * 0x400 + (l as int - 0xDC00);
    CharacterLaw([h, l]);
    assert CodePoints([h, l]) == [cp] + CodePoints([]);
    EncodeOneMore([], cp);
    assert [] + [cp] == [cp];
    OctetsCarryCodePoint(cp);
  }

  /** TextEncoder.encode. */
  function Encode(s: Text): seq<byte> {
    EncodeAll(CodePoints(s))
  }

  /** A prefix of `n` code units ends between two characters. */
  predicate Boundary(s: Text, n: nat)
    decreases |s|
  {
    n == 0 || (s != [] && n >= CharLen(s, 0) && Boundary(s[CharLen(s, 0)..], n - CharLen(s, 0)))
  }

  lemma {:induction false} BoundaryInside(s: Text, n: nat)
    requires Boundary(s, n)
    ensures n <= |s|
    decreases |s|
  {
    if n > 0 {
      BoundaryInside(s[CharLen(s, 0)..], n - CharLen(s, 0));
    }
  }

  lemma {:induction false} WholeIsBoundary(s: Text)
    ensures Boundary(s, |s|)
    decreases |s|
  {
    if s != [] {
      WholeIsBoundary(s[CharLen(s, 0)..]);
    }
  }

  /** No boundary splits a surrogate pair. */
  lemma {:induction false} BoundaryKeepsPairs(s: Text, n: nat)
    requires Boundary(s, n) && 0 < n < |s|
    ensures !PairAt(s, n - 1)
    decreases |s|
  {
    var k := CharLen(s, 0);
    if n > k {
      BoundaryKeepsPairs(s[k..], n - k);
    }
  }

  lemma SplitFirst(s: Text, n: nat)
    requires s != [] && CharLen(s, 0) <= n <= |s|
    ensures var k := CharLen(s, 0); CodePoints(s[..n]) == [CodePointAt(s, 0)] + CodePoints(s[k..][..n - k])
  {
    var k := CharLen(s, 0);
    assert CharLen(s[..n], 0) == k && CodePointAt(s[..n], 0) == CodePointAt(s, 0);
    assert s[..n][k..] == s[k..n] && s[k..][..n - k] == s[k..n];
  }

  lemma Shifted(s: Text, k: nat, i: nat)
    requires k <= i < |s|
    ensures CharLen(s[k..], i - k) == CharLen(s, i) && CodePointAt(s[k..], i - k) == CodePointAt(s, i)
  {
  }

  /** Induction over the first character. */
  lemma NextCharShifted(s: Text, i: nat)
    requires s != [] && CharLen(s, 0) <= i < |s| && Boundary(s, i)
    requires var k, n := CharLen(s, 0), CharLen(s, i);
             CodePoints(s[k..][..i + n - k]) == CodePoints(s[k..][..i - k]) + [CodePointAt(s, i)]
    ensures var n := CharLen(s, i); CodePoints(s[..i + n]) == CodePoints(s[..i]) + [CodePointAt(s, i)]
  {
    SplitFirst(s, i);
    SplitFirst(s, i + CharLen(s, i));
  }

  lemma FirstChar(s: Text)
    requires s != []
    ensures Boundary(s, CharLen(s, 0))
    ensures CodePoints(s[..CharLen(s, 0)]) == CodePoints(s[..0]) + [CodePointAt(s, 0)]
  {
    var k := CharLen(s, 0);
    SplitFirst(s, k);
    assert s[k..][..0] == [] && s[..0] == [];
    assert Boundary(s[k..], 0);
  }

  /** The character after a boundary ends at one, and comes after the characters before. */
  lemma {:induction false} NextChar(s: Text, i: nat)
    requires Boundary(s, i) && i < |s|
    ensures Boundary(s, i + CharLen(s, i))
    ensures CodePoints(s[..i + CharLen(s, i)]) == CodePoints(s[..i]) + [CodePointAt(s, i)]
    decreases |s|
  {
    var k := CharLen(s, 0);
    if i == 0 {
      FirstChar(s);
    } else {
      NextChar(s[k..], i - k);
      Shifted(s, k, i);
      NextCharShifted(s, i);
    }
  }

  lemma PrefixShifted(s: Text, a: nat, b: nat)
    requires s != [] && CharLen(s, 0) <= a <= b <= |s|
    requires var k := CharLen(s, 0); CodePoints(s[k..][..a - k]) <= CodePoints(s[k..][..b - k])
    ensures CodePoints(s[..a]) <= CodePoints(s[..b])
  {
    SplitFirst(s, a);
    SplitFirst(s, b);
  }

  /**
   * Boundaries come character by character: the next one is a character away, and a later one only adds
   * characters.
   */
  lemma {:induction false} NoBoundaryBetween(s: Text, i: nat, m: nat)
    requires Boundary(s, i) && Boundary(s, m) && i < m
    ensures m <= |s| && i + CharLen(s, i) <= m
    ensures CodePoints(s[..i + CharLen(s, i)]) <= CodePoints(s[..m])
    decreases |s|
  {
    BoundaryInside(s, m);
    var k := CharLen(s, 0);
    if i == 0 {
      assert s[k..][..0] == [];
      PrefixShifted(s, k, m);
    } else {
      NoBoundaryBetween(s[k..], i - k, m - k);
      Shifted(s, k, i);
      PrefixShifted(s, i + CharLen(s, i), m);
    }
  }

  lemma EncodeOneMore(cps: seq<codepoint>, cp: codepoint)
    ensures EncodeAll(cps + [cp]) == EncodeAll(cps) + EncodeCodePoint(cp)
  {
    assert (cps + [cp])[..|cps|] == cps;
  }

  lemma {:induction false} LongerEncodesLonger(short: seq<codepoint>, long: seq<codepoint>)
    requires short <= long
    ensures |EncodeAll(short)| <= |EncodeAll(long)|
    decreases |long|
  {
    if |short| < |long| {
      LongerEncodesLonger(short, long[..|long| - 1]);
    } else {
      assert short == long;
    }
  }

  /** One more character, in bytes. */
  lemma NextBytes(s: Text, i: nat)
    requires Boundary(s, i) && i < |s|
    ensures Boundary(s, i + CharLen(s, i))
    ensures |Encode(s[..i + CharLen(s, i)])| == |Encode(s[..i])| + Utf8ByteLengthForCodePoint(CodePointAt(s, i))
  {
    NextChar(s, i);
    EncodeOneMore(CodePoints(s[..i]), CodePointAt(s, i));
    CodePointBytes(CodePointAt(s, i));
  }

  lemma CodePointBytes(cp: codepoint)
    ensures |EncodeCodePoint(cp)| == Utf8ByteLengthForCodePoint(cp)
  {
  }

  /** The length of the encoding, counted without encoding. */
  method GetUtf8ByteLength(text: Text) returns (bytes: nat)
    ensures bytes == |Encode(text)|
  {
    bytes := 0;
    var i := 0;
    while i < |text|
      invariant 0 <= i <= |text| && Boundary(text, i)
      invariant bytes == |Encode(text[..i])|
    {
      NextBytes(text, i);
      bytes := bytes + Utf8ByteLengthForCodePoint(CodePointAt(text, i));
      i := i + CharLen(text, i);
    }
    assert text[..i] == text;
  }

  datatype Utf8ClampResult = Utf8ClampResult(text: Text, byteLength: nat, truncated: bool)

  /**
   * `t` is the longest prefix of whole characters whose encoding fits `maxBytes`; nothing fits a negative limit,
   * and the empty text stands in.
   */
  ghost predicate LongestFit(s: Text, maxBytes: int, t: Text) {
    && |t| <= |s| && t == s[..|t|] && Boundary(s, |t|)
    && (t != [] ==> |Encode(t)| <= maxBytes)
    && forall m: nat :: Boundary(s, m) && m > |t| ==> m <= |s| && |Encode(s[..m])| > maxBytes
  }

  method ClampUtf8Text(text: Text, maxBytes: int) returns (r: Utf8ClampResult)
    ensures LongestFit(text, maxBytes, r.text)
    ensures r.byteLength == |Encode(r.text)|
    ensures r.truncated <==> r.text != text
  {
    if maxBytes <= 0 {
      NothingFits(text, maxBytes);
      return Utf8ClampResult([], 0, |text| > 0);
    }
    var bytes := 0;
    var clamped: Text := [];
    var i := 0;
    while i < |text|
      invariant 0 <= i <= |text| && Boundary(text, i)
      invariant clamped == text[..i]
      invariant bytes == |Encode(clamped)| <= maxBytes
    {
      var charBytes := Utf8ByteLengthForCodePoint(CodePointAt(text, i));
      NextBytes(text, i);
      if bytes + charBytes > maxBytes {
        NoneLonger(text, i, maxBytes);
        return Utf8ClampResult(clamped, bytes, true);
      }
      bytes := bytes + charBytes;
      clamped := clamped + text[i..i + CharLen(text, i)];
      i := i + CharLen(text, i);
    }
    forall m: nat | Boundary(text, m) && m > |clamped| ensures false {
      BoundaryInside(text, m);
    }
    return Utf8ClampResult(clamped, bytes, false);
  }

  lemma NoneLonger(s: Text, i: nat, maxBytes: int)
    requires Boundary(s, i) && i < |s| && |Encode(s[..i + CharLen(s, i)])| > maxBytes
    ensures forall m: nat :: Boundary(s, m) && m > i ==> m <= |s| && |Encode(s[..m])| > maxBytes
  {
    forall m: nat | Boundary(s, m) && m > i ensures m <= |s| && |Encode(s[..m])| > maxBytes {
      NoBoundaryBetween(s, i, m);
      LongerEncodesLonger(CodePoints(s[..i + CharLen(s, i)]), CodePoints(s[..m]));
    }
  }

  lemma NothingFits(s: Text, maxBytes: int)
    requires maxBytes <= 0
    ensures forall m: nat :: Boundary(s, m) && m > 0 ==> m <= |s| && |Encode(s[..m])| > maxBytes
  {
    if s != [] {
      NextBytes(s, 0);
      assert s[..0] == [];
      NoneLonger(s, 0, maxBytes);
    }
  }

  /**
   * The fit is unique, never ends inside a surrogate pair, is everything when everything fits, and clamping it
   * again changes nothing.
   */
  lemma LongestFitLaws(s: Text, maxBytes: int, t: Text, other: Text)
    requires LongestFit(s, maxBytes, t)
    ensures LongestFit(s, maxBytes, other) ==> other == t
    ensures 0 < |t| < |s| ==> !(0xD800 <= s[|t| - 1] <= 0xDBFF && 0xDC00 <= s[|t|] <= 0xDFFF)
    ensures |Encode(s)| <= maxBytes ==> t == s
    ensures LongestFit(t, maxBytes, t)
  {
    if 0 < |t| < |s| {
      BoundaryKeepsPairs(s, |t|);
    }
    WholeIsBoundary(s);
    WholeIsBoundary(t);
    assert s[..|s|] == s;
    forall m: nat | Boundary(t, m) && m > |t| ensures false {
      BoundaryInside(t, m);
    }
  }
}
