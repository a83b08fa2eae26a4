/** Base 64 after section 4 and section 5 of RFC 4648, and the decoders the two sides build on. */
module Base64 {
  import opened Basics

  type sextet = v: int | 0 <= v < 64

  /** Section 4: the standard alphabet; section 5 changes its last two digits. */
  function Digit(v: sextet, url: bool): char {
    if v < 26 then 'A' + v as char
    else if v < 52 then 'a' + (v - 26) as char
    else if v < 62 then '0' + (v - 52) as char
    else if v == 62 then (if url then '-' else '+')
    else (if url then '_' else '/')
  }

  /** Tables 1 and 2 of RFC 4648. */
  const UPPER := "ABCDEFGHIJKLMNOPQRSTUVWXYZ"
  const LOWER := "abcdefghijklmnopqrstuvwxyz"
  const DECIMAL := "0123456789"

  function Table(url: bool): string {
    UPPER + LOWER + DECIMAL + (if url then "-_" else "+/")
  }

  lemma LettersInOrder(v: nat)
    requires v < 26
    ensures UPPER[v] == 'A' + v as char && LOWER[v] == 'a' + v as char
  {
  }

  lemma TableInParts(v: nat, url: bool)
    requires v < 64
    ensures |Table(url)| == 64
    ensures Table(url)[v] == if v < 26 then UPPER[v] else if v < 52 then LOWER[v - 26] else if v < 62 then DECIMAL[v - 52]
                             else if v == 62 then (if url then '-' else '+') else (if url then '_' else '/')
  {
  }

  function ValueOf(c: char, url: bool): Option<sextet> {
    if 'A' <= c <= 'Z' then Some(c as int - 'A' as int)
    else if 'a' <= c <= 'z' then Some(c as int - 'a' as int + 26)
    else if '0' <= c <= '9' then Some(c as int - '0' as int + 52)
    else if c == (if url then '-' else '+') then Some(62)
    else if c == (if url then '_' else '/') then Some(63)
    else None
  }

  predicate IsDigit(c: char, url: bool) {
    ValueOf(c, url).Some?
  }

  predicate AllDigits(s: string, url: bool) {
    forall i :: 0 <= i < |s| ==> IsDigit(s[i], url)
  }

  lemma DigitValue(v: sextet, url: bool)
    ensures ValueOf(Digit(v, url), url) == Some(v)
  {
  }

  lemma ValueDigit(c: char, url: bool)
    requires IsDigit(c, url)
    ensures Digit(ValueOf(c, url).value, url) == c
  {
  }

  /** Writing and reading a digit is looking it up in the standard's table. */
  lemma DigitsAreTheTable(v: sextet, c: char, url: bool)
    ensures |Table(url)| == 64 && Digit(v, url) == Table(url)[v]
    ensures ValueOf(c, url) == Some(v) <==> c == Table(url)[v]
  {
    TableInParts(v, url);
    if v < 26 {
      LettersInOrder(v);
    } else if v < 52 {
      LettersInOrder(v - 26);
    } else if v < 62 {
      assert DECIMAL[v - 52] == '0' + (v - 52) as char;
    }
    DigitValue(v, url);
    if IsDigit(c, url) {
      ValueDigit(c, url);
    }
  }

  function Digits(v: seq<sextet>, url: bool): (s: string)
    ensures |s| == |v| && forall i :: 0 <= i < |v| ==> s[i] == Digit(v[i], url)
  {
    seq(|v|, i requires 0 <= i < |v| => Digit(v[i], url))
  }

  function Values(s: string, url: bool): (v: seq<sextet>)
    requires AllDigits(s, url)
    ensures |v| == |s| && forall i :: 0 <= i < |s| ==> v[i] == ValueOf(s[i], url).value
  {
    seq(|s|, i requires 0 <= i < |s| => ValueOf(s[i], url).value)
  }

  lemma DigitsValues(v: seq<sextet>, url: bool)
    ensures AllDigits(Digits(v, url), url) && Values(Digits(v, url), url) == v
  {
    forall i | 0 <= i < |v| ensures ValueOf(Digits(v, url)[i], url) == Some(v[i]) {
      DigitValue(v[i], url);
    }
  }

  lemma ValuesDigits(s: string, url: bool)
    requires AllDigits(s, url)
    ensures Digits(Values(s, url), url) == s
  {
    forall i | 0 <= i < |s| ensures Digits(Values(s, url), url)[i] == s[i] {
      ValueDigit(s[i], url);
    }
  }

  function Group(a: byte, b: byte, c: byte): (v: seq<sextet>)
    ensures |v| == 4
  {
    [a / 4, a % 4 * 16 + b / 16, b % 16 * 4 + c / 64, c % 64]
  }

  /** Three bytes are four sextets; a last one or two bytes leave two or three, filled with zero bits. */
  function Sextets(b: seq<byte>): (v: seq<sextet>)
    ensures |v| == (4 * |b| + 2) / 3
    decreases |b|
  {
    if b == [] then []
    else if |b| == 1 then [b[0] / 4, b[0] % 4 * 16]
    else if |b| == 2 then [b[0] / 4, b[0] % 4 * 16 + b[1] / 16, b[1] % 16 * 4]
    else Group(b[0], b[1], b[2]) + Sextets(b[3..])
  }

  /** The first digits of a number in the given base. */
  function Two(v: seq<int>, base: int): int
    requires |v| >= 2
  {
    v[0] * base + v[1]
  }

  function Three(v: seq<int>, base: int): int
    requires |v| >= 3
  {
    Two(v, base) * base + v[2]
  }

  /**
   * The digits of a group, read as one number in base 64, are its bytes read as one number, shifted by the zero
   * bits that fill up the last digit.
   */
  lemma GroupBits(a: byte, b: byte, c: byte, rest: seq<byte>)
    ensures Two(Sextets([a]), 64) == a as int * 16
    ensures Three(Sextets([a, b]), 64) == Two([a, b], 256) * 4
    ensures var v := Sextets([a, b, c] + rest);
            && Three(v, 64) * 64 + v[3] as int == Three([a, b, c], 256)
            && v[4..] == Sextets(rest)
  {
    OneByteBits(a);
    TwoByteBits(a, b);
    ThreeByteBits(a, b, c);
    SextetsUnfold(a, b, c, rest);
  }

  lemma OneByteBits(a: int)
    ensures a / 4 * 64 + a % 4 * 16 == a * 16
  {
  }

  lemma TwoByteBits(a: int, b: int)
    ensures (a / 4 * 64 + (a % 4 * 16 + b / 16)) * 64 + b % 16 * 4 == (a * 256 + b) * 4
  {
    OneByteBits(a);
    assert b == b / 16 * 16 + b % 16;
  }

  lemma ThreeByteBits(a: int, b: int, c: int)
    ensures ((a / 4 * 64 + (a % 4 * 16 + b / 16)) * 64 + (b % 16 * 4 + c / 64)) * 64 + c % 64 == (a * 256 + b) * 256 + c
  {
    TwoByteBits(a, b);
    assert c == c / 64 * 64 + c % 64;
  }

  lemma SextetsUnfold(a: byte, b: byte, c: byte, rest: seq<byte>)
    ensures Sextets([a, b, c] + rest) == Group(a, b, c) + Sextets(rest)
  {
    var all := [a, b, c] + rest;
    assert all[0] == a && all[1] == b && all[2] == c && all[3..] == rest;
  }

  function HighByte(a: sextet, b: sextet): byte {
    a as int * 4 + b as int / 16
  }

  function MidByte(a: sextet, b: sextet): byte {
    a as int % 16 * 16 + b as int / 4
  }

  function LowByte(a: sextet, b: sextet): byte {
    a as int % 4 * 64 + b as int
  }

  /** The bytes that the sextets carry; left-over bits are dropped. */
  function Bytes(v: seq<sextet>): (b: seq<byte>)
    ensures |b| == 3 * |v| / 4
    decreases |v|
  {
    if |v| <= 1 then []
    else if |v| == 2 then [HighByte(v[0], v[1])]
    else if |v| == 3 then [HighByte(v[0], v[1]), MidByte(v[1], v[2])]
    else [HighByte(v[0], v[1]), MidByte(v[1], v[2]), LowByte(v[2], v[3])] + Bytes(v[4..])
  }

  lemma HighBack(a: byte, b: byte)
    ensures HighByte(a / 4, a % 4 * 16 + b / 16) == a && HighByte(a / 4, a % 4 * 16) == a
  {
  }

  lemma MidBack(a: byte, b: byte, c: byte)
    ensures MidByte(a % 4 * 16 + b / 16, b % 16 * 4 + c / 64) == b && MidByte(a % 4 * 16 + b / 16, b % 16 * 4) == b
  {
    assert (a % 4 * 16 + b / 16) % 16 == b / 16;
    assert (b % 16 * 4 + c / 64) / 4 == b % 16;
  }

  lemma LowBack(b: byte, c: byte)
    ensures LowByte(b % 16 * 4 + c / 64, c % 64) == c
  {
  }

  lemma BytesUnfold(a: sextet, b: sextet, c: sextet, d: sextet, rest: seq<sextet>)
    ensures Bytes([a, b, c, d] + rest) == [HighByte(a, b), MidByte(b, c), LowByte(c, d)] + Bytes(rest)
  {
    var all := [a, b, c, d] + rest;
    assert all[0] == a && all[1] == b && all[2] == c && all[3] == d && all[4..] == rest;
  }

  lemma GroupBack(a: byte, b: byte, c: byte, rest: seq<sextet>)
    ensures Bytes(Group(a, b, c) + rest) == [a, b, c] + Bytes(rest)
  {
    HighBack(a, b);
    MidBack(a, b, c);
    LowBack(b, c);
    BytesUnfold(a / 4, a % 4 * 16 + b / 16, b % 16 * 4 + c / 64, c % 64, rest);
  }

  lemma BytesOfGroup(a: byte, b: byte, c: byte, rest: seq<byte>)
    ensures Bytes(Sextets([a, b, c] + rest)) == [a, b, c] + Bytes(Sextets(rest))
  {
    SextetsUnfold(a, b, c, rest);
    GroupBack(a, b, c, Sextets(rest));
  }

  lemma BytesOfOne(a: byte)
    ensures Bytes(Sextets([a])) == [a]
  {
    HighBack(a, 0);
  }

  lemma ShortBytes(x: sextet, y: sextet, z: sextet, a: byte, b: byte)
    requires HighByte(x, y) == a && MidByte(y, z) == b
    ensures Bytes([x, y, z]) == [a, b]
  {
  }

  lemma ShortSextets(a: byte, b: byte, x: sextet, y: sextet, z: sextet)
    requires x == a / 4 && y == a % 4 * 16 + b / 16 && z == b % 16 * 4
    ensures Sextets([a, b]) == [x, y, z]
  {
  }

  lemma BytesOfTwo(a: byte, b: byte)
    ensures Bytes(Sextets([a, b])) == [a, b]
  {
    var x: sextet, y: sextet, z: sextet := a / 4, a % 4 * 16 + b / 16, b % 16 * 4;
    HighBack(a, b);
    MidBack(a, b, 0);
    ShortSextets(a, b, x, y, z);
    ShortBytes(x, y, z, a, b);
  }

  lemma {:induction false} BytesOfSextets(b: seq<byte>)
    ensures Bytes(Sextets(b)) == b
    decreases |b|
  {
    if |b| >= 3 {
      BytesOfSextets(b[3..]);
      BytesOfGroup(b[0], b[1], b[2], b[3..]);
      assert b == [b[0], b[1], b[2]] + b[3..];
    } else if |b| == 2 {
      BytesOfTwo(b[0], b[1]);
      assert b == [b[0], b[1]];
    } else if |b| == 1 {
      BytesOfOne(b[0]);
      assert b == [b[0]];
    }
  }

  /** The left-over bits of the last digit are zero, as an encoder leaves them. */
  predicate Canonical(v: seq<sextet>)
    decreases |v|
  {
    if |v| == 0 then true
    else if |v| == 1 then false
    else if |v| == 2 then v[1] % 16 == 0
    else if |v| == 3 then v[2] % 4 == 0
    else Canonical(v[4..])
  }

  lemma {:induction false} SextetsCanonical(b: seq<byte>)
    ensures Canonical(Sextets(b))
    decreases |b|
  {
    if |b| >= 3 {
      SextetsCanonical(b[3..]);
      assert Sextets(b)[4..] == Sextets(b[3..]);
    }
  }

  lemma HighFront(a: sextet, b: sextet)
    ensures HighByte(a, b) / 4 == a && HighByte(a, b) % 4 * 16 == b / 16 * 16
  {
  }

  lemma MidFront(b: sextet, c: sextet)
    ensures b / 16 * 16 + MidByte(b, c) / 16 == b && MidByte(b, c) % 16 * 4 == c / 4 * 4
  {
  }

  lemma LowFront(c: sextet, d: sextet)
    ensures c / 4 * 4 + LowByte(c, d) / 64 == c && LowByte(c, d) % 64 == d
  {
  }

  lemma MultipleOf(x: int, n: int)
    requires n > 0
    ensures x / n * n == x <==> x % n == 0
  {
    assert x == x / n * n + x % n;
  }

  lemma GroupFront(a: sextet, b: sextet, c: sextet, d: sextet)
    ensures Group(HighByte(a, b), MidByte(b, c), LowByte(c, d)) == [a, b, c, d]
  {
    HighFront(a, b);
    MidFront(b, c);
    LowFront(c, d);
  }

  lemma SextetsOfGroup(a: sextet, b: sextet, c: sextet, d: sextet, rest: seq<sextet>)
    ensures Sextets(Bytes([a, b, c, d] + rest)) == [a, b, c, d] + Sextets(Bytes(rest))
  {
    GroupFront(a, b, c, d);
    BytesUnfold(a, b, c, d, rest);
    SextetsUnfold(HighByte(a, b), MidByte(b, c), LowByte(c, d), Bytes(rest));
  }

  lemma SextetsOfTail(a: sextet, b: sextet, c: sextet)
    ensures Sextets(Bytes([a, b])) == [a, b] <==> b % 16 == 0
    ensures Sextets(Bytes([a, b, c])) == [a, b, c] <==> c % 4 == 0
  {
    HighFront(a, b);
    MidFront(b, c);
    MultipleOf(b, 16);
    MultipleOf(c, 4);
    assert Sextets(Bytes([a, b])) == [a, b / 16 * 16];
    assert Sextets(Bytes([a, b, c])) == [a, b, c / 4 * 4];
  }

  lemma CanonicalUnfold(a: sextet, b: sextet, c: sextet, d: sextet, rest: seq<sextet>)
    ensures Canonical([a, b, c, d] + rest) == Canonical(rest)
  {
    assert ([a, b, c, d] + rest)[4..] == rest;
  }

  lemma SameTail<T>(head: seq<T>, s: seq<T>, t: seq<T>)
    ensures head + s == head + t <==> s == t
  {
    assert (head + s)[|head|..] == s && (head + t)[|head|..] == t;
  }

  lemma {:induction false} SextetsOfBytes(v: seq<sextet>)
    requires |v| % 4 != 1
    ensures Sextets(Bytes(v)) == v <==> Canonical(v)
    decreases |v|
  {
    if |v| >= 4 {
      SextetsOfBytes(v[4..]);
      SextetsOfGroup(v[0], v[1], v[2], v[3], v[4..]);
      CanonicalUnfold(v[0], v[1], v[2], v[3], v[4..]);
      SameTail([v[0], v[1], v[2], v[3]], Sextets(Bytes(v[4..])), v[4..]);
      assert v == [v[0], v[1], v[2], v[3]] + v[4..];
    } else if |v| == 3 {
      SextetsOfTail(v[0], v[1], v[2]);
      assert v == [v[0], v[1], v[2]];
    } else if |v| == 2 {
      SextetsOfTail(v[0], v[1], 0);
      assert v == [v[0], v[1]];
    }
  }

  function Padding(n: nat): (pad: string)
    ensures (n + |pad|) % 4 == 0 && |pad| <= 3 && forall i :: 0 <= i < |pad| ==> pad[i] == '='
  {
    if n % 4 == 0 then "" else if n % 4 == 1 then "===" else if n % 4 == 2 then "==" else "="
  }

  /** Section 4 with padding: btoa. */
  function EncodeStd(b: seq<byte>): string {
    Digits(Sextets(b), false) + Padding(|Sextets(b)|)
  }

  /** Section 5 without padding: Go's RawURLEncoding. */
  function EncodeRawUrl(b: seq<byte>): string {
    Digits(Sextets(b), true)
  }

  function Without(s: string, dropped: set<char>): (t: string)
    ensures |t| <= |s| && forall i :: 0 <= i < |t| ==> t[i] !in dropped
    decreases |s|
  {
    if s == "" then ""
    else if s[0] in dropped then Without(s[1..], dropped)
    else [s[0]] + Without(s[1..], dropped)
  }

  lemma {:induction false} WithoutNone(s: string, dropped: set<char>)
    requires forall i :: 0 <= i < |s| ==> s[i] !in dropped
    ensures Without(s, dropped) == s
    decreases |s|
  {
    if s != "" {
      WithoutNone(s[1..], dropped);
    }
  }

  lemma {:induction false} WithoutAppend(s: string, t: string, dropped: set<char>)
    ensures Without(s + t, dropped) == Without(s, dropped) + Without(t, dropped)
    decreases |s|
  {
    if s == "" {
      assert s + t == t;
    } else {
      assert (s + t)[1..] == s[1..] + t;
      WithoutAppend(s[1..], t, dropped);
    }
  }

  /** How many trailing pad characters a decoder takes off a string of whole quads. */
  function PadCount(s: string): (n: nat)
    ensures n <= |s| && n <= 2
  {
    if |s| >= 2 && s[|s| - 1] == '=' && s[|s| - 2] == '=' then 2
    else if |s| >= 1 && s[|s| - 1] == '=' then 1
    else 0
  }

  const ASCII_WHITESPACE: set<char> := {'\t', '\n', '\r', ' ', 12 as char}

  /** The forgiving decoder behind atob. */
  function Atob(s: string): Option<seq<byte>> {
    var t := Without(s, ASCII_WHITESPACE);
    var body := if |t| % 4 == 0 then t[..|t| - PadCount(t)] else t;
    if |body| % 4 == 1 || !AllDigits(body, false) then None else Some(Bytes(Values(body, false)))
  }

  const LINE_BREAKS: set<char> := {'\r', '\n'}

  /** Go's RawURLEncoding.DecodeString: line breaks are skipped, left-over bits ignored. */
  function GoDecodeRaw(s: string): Option<seq<byte>> {
    var t := Without(s, LINE_BREAKS);
    if |t| % 4 == 1 || !AllDigits(t, true) then None else Some(Bytes(Values(t, true)))
  }

  /** Go's URLEncoding.DecodeString: the same with mandatory padding. */
  function GoDecodePadded(s: string): Option<seq<byte>> {
    var t := Without(s, LINE_BREAKS);
    var body := t[..|t| - PadCount(t)];
    if |t| % 4 != 0 || !AllDigits(body, true) then None else Some(Bytes(Values(body, true)))
  }

  /** atob skips ASCII white space, and takes padding only when it fills the last quad. */
  lemma AtobRefuses(s: string)
    ensures Atob(s) == Atob(Without(s, {'\t', '\n', '\r', ' ', '\U{0C}'}))
    ensures Atob(s).Some? && '=' in Without(s, ASCII_WHITESPACE) ==> |Without(s, ASCII_WHITESPACE)| % 4 == 0
    ensures Atob(s).Some? ==> |Without(s, ASCII_WHITESPACE)| % 4 != 1
  {
    var t := Without(s, ASCII_WHITESPACE);
    WithoutNone(t, ASCII_WHITESPACE);
    if '=' in t && |t| % 4 != 0 {
      NoPaddingWithin(t);
    }
  }

  lemma NoPaddingWithin(t: string)
    requires '=' in t
    ensures !AllDigits(t, false)
  {
    var i :| 0 <= i < |t| && t[i] == '=';
    assert !IsDigit(t[i], false);
  }

  /** Go's raw decoder skips line breaks only, and reads any number of digits but one over. */
  lemma GoRefuses(s: string)
    ensures GoDecodeRaw(s).Some? <==> |Without(s, {'\r', '\n'})| % 4 != 1 && AllDigits(Without(s, {'\r', '\n'}), true)
  {
  }

  // ---- Laws of the encoders and decoders ----

  predicate IsClean(c: char) {
    c !in LINE_BREAKS && c !in ASCII_WHITESPACE && c != '='
  }

  lemma DigitIsClean(c: char, url: bool)
    requires IsDigit(c, url)
    ensures IsClean(c)
  {
  }

  /** A string of digits has nothing a decoder would skip. */
  lemma CleanDigits(s: string, url: bool)
    requires AllDigits(s, url)
    ensures forall i :: 0 <= i < |s| ==> IsClean(s[i])
    ensures Without(s, LINE_BREAKS) == s && Without(s, ASCII_WHITESPACE) == s && Without(s, {'='}) == s
  {
    forall i | 0 <= i < |s| ensures IsClean(s[i]) {
      DigitIsClean(s[i], url);
    }
    WithoutNone(s, LINE_BREAKS);
    WithoutNone(s, ASCII_WHITESPACE);
    WithoutNone(s, {'='});
  }

  /** Padding to whole quads is taken off again, whatever the digits. */
  lemma PaddingComesOff(digits: string, url: bool)
    requires AllDigits(digits, url) && |digits| % 4 != 1
    ensures var padded := digits + Padding(|digits|);
            && Without(padded, ASCII_WHITESPACE) == padded && Without(padded, LINE_BREAKS) == padded
            && |padded| % 4 == 0 && padded[..|padded| - PadCount(padded)] == digits
  {
    var pad := Padding(|digits|);
    CleanDigits(digits, url);
    WithoutAppend(digits, pad, ASCII_WHITESPACE);
    WithoutNone(pad, ASCII_WHITESPACE);
    WithoutAppend(digits, pad, LINE_BREAKS);
    WithoutNone(pad, LINE_BREAKS);
    assert |digits| > 0 ==> IsClean(digits[|digits| - 1]);
    assert |digits| > 1 ==> IsClean(digits[|digits| - 2]);
    assert PadCount(digits + pad) == |pad|;
    assert (digits + pad)[..|digits|] == digits;
  }

  /** No byte count encodes to a length of 1 modulo 4. */
  lemma EncodedLength(n: nat)
    ensures (4 * n + 2) / 3 % 4 != 1
  {
    var q, r := n / 3, n % 3;
    assert (4 * n + 2) / 3 == 4 * q + (4 * r + 2) / 3;
  }

  lemma EncodedSize(b: seq<byte>)
    ensures |EncodeRawUrl(b)| == (4 * |b| + 2) / 3 && |EncodeRawUrl(b)| % 4 != 1
  {
    var n := |b|;
    EncodedLength(n);
  }

  lemma EncodedIsDigits(b: seq<byte>)
    ensures AllDigits(EncodeRawUrl(b), true) && Values(EncodeRawUrl(b), true) == Sextets(b)
    ensures |EncodeRawUrl(b)| == (4 * |b| + 2) / 3 && |EncodeRawUrl(b)| % 4 != 1
  {
    DigitsValues(Sextets(b), true);
    EncodedSize(b);
  }

  /** Go reads back what it wrote. */
  lemma GoRawRoundTrip(b: seq<byte>)
    ensures GoDecodeRaw(EncodeRawUrl(b)) == Some(b)
  {
    EncodedIsDigits(b);
    CleanDigits(EncodeRawUrl(b), true);
    BytesOfSextets(b);
  }

  /** The padded decoder reads it too, once the padding is put back. */
  lemma GoPaddedRoundTrip(b: seq<byte>)
    ensures GoDecodePadded(EncodeRawUrl(b) + Padding(|EncodeRawUrl(b)|)) == Some(b)
  {
    EncodedIsDigits(b);
    PaddingComesOff(EncodeRawUrl(b), true);
    BytesOfSextets(b);
  }
}
