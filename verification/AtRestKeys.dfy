/** parseAtRestKey: one configured value, three readings. */
module AtRestKeys {
  import opened Basics
  import opened Base64

  const AT_REST_KEY_LENGTH: nat := 32

  /** A Go string byte for byte. */
  function Chars(value: seq<byte>): (s: string)
    ensures |s| == |value| && forall i :: 0 <= i < |s| ==> s[i] == value[i] as char
  {
    seq(|value|, i requires 0 <= i < |value| => value[i] as char)
  }

  function Raw(s: string): (value: seq<byte>)
    requires forall i :: 0 <= i < |s| ==> s[i] as int < 256
    ensures |value| == |s| && forall i :: 0 <= i < |s| ==> value[i] == s[i] as int
  {
    seq(|s|, i requires 0 <= i < |s| => s[i] as int)
  }

  function HexValue(c: char): Option<nat> {
    if '0' <= c <= '9' then Some(c as int - '0' as int)
    else if 'a' <= c <= 'f' then Some(c as int - 'a' as int + 10)
    else if 'A' <= c <= 'F' then Some(c as int - 'A' as int + 10)
    else None
  }

  function HexDigit(v: int): char
    requires 0 <= v < 16
  {
    if v < 10 then '0' + v as char else 'a' + (v - 10) as char
  }

  predicate IsHex(s: string) {
    |s| % 2 == 0 && forall i :: 0 <= i < |s| ==> HexValue(s[i]).Some?
  }

  function HexByte(hi: char, lo: char): byte
    requires HexValue(hi).Some? && HexValue(lo).Some?
  {
    HexValue(hi).value * 16 + HexValue(lo).value
  }

  /** hex.DecodeString: pairs of digits of either case, nothing else. */
  function HexDecode(s: string): Option<seq<byte>> {
    if IsHex(s) then Some(seq(|s| / 2, i requires 0 <= i < |s| / 2 => HexByte(s[2 * i], s[2 * i + 1]))) else None
  }

  function HexEncode(b: seq<byte>): (s: string)
    ensures |s| == 2 * |b|
  {
    seq(2 * |b|, i requires 0 <= i < 2 * |b| => if i % 2 == 0 then HexDigit(b[i / 2] / 16) else HexDigit(b[i / 2] % 16))
  }

  predicate IsKey(decoded: Option<seq<byte>>) {
    decoded.Some? && |decoded.value| == AT_REST_KEY_LENGTH
  }

  function ParseAtRestKey(value: seq<byte>): Option<seq<byte>> {
    if IsKey(GoDecodeRaw(Chars(value))) then GoDecodeRaw(Chars(value))
    else if IsKey(HexDecode(Chars(value))) then HexDecode(Chars(value))
    else if |value| == AT_REST_KEY_LENGTH then Some(value)
    else None
  }

  lemma HexDigitValue(v: int)
    requires 0 <= v < 16
    ensures HexValue(HexDigit(v)) == Some(v)
  {
  }

  lemma HexPair(b: seq<byte>, i: nat)
    requires i < |b|
    ensures HexValue(HexEncode(b)[2 * i]) == Some(b[i] / 16) && HexValue(HexEncode(b)[2 * i + 1]) == Some(b[i] % 16)
  {
    HexDigitValue(b[i] / 16);
    HexDigitValue(b[i] % 16);
    assert (2 * i + 1) / 2 == i;
  }

  lemma HexEncodesHex(b: seq<byte>)
    ensures IsHex(HexEncode(b))
  {
    forall i | 0 <= i < 2 * |b| ensures HexValue(HexEncode(b)[i]).Some? {
      HexPair(b, i / 2);
      assert i == 2 * (i / 2) || i == 2 * (i / 2) + 1;
    }
  }

  lemma HexRoundTrip(b: seq<byte>)
    ensures HexDecode(HexEncode(b)) == Some(b)
  {
    HexEncodesHex(b);
    forall i | 0 <= i < |b| ensures HexDecode(HexEncode(b)).value[i] == b[i] {
      HexPair(b, i);
    }
    assert HexDecode(HexEncode(b)).value == b;
  }

  lemma HexIsClean(s: string)
    requires IsHex(s)
    ensures Without(s, LINE_BREAKS) == s
  {
    forall i | 0 <= i < |s| ensures s[i] !in LINE_BREAKS {
      assert HexValue(s[i]).Some?;
    }
    WithoutNone(s, LINE_BREAKS);
  }

  /**
   * By length alone at most one of the three readings of a value is a 32-byte key, so an earlier branch never
   * captures another's key.
   */
  lemma ReadingsExclude(value: seq<byte>)
    ensures IsKey(GoDecodeRaw(Chars(value))) ==> |value| >= 43
    ensures IsKey(HexDecode(Chars(value))) ==> |value| == 64 && !IsKey(GoDecodeRaw(Chars(value)))
    ensures |value| == 32 ==> !IsKey(GoDecodeRaw(Chars(value))) && !IsKey(HexDecode(Chars(value)))
  {
    if IsKey(HexDecode(Chars(value))) {
      HexIsClean(Chars(value));
    }
  }

  /** Whichever reading yields a key, that key is what parsing returns; and nothing else is ever returned. */
  lemma ParseIsUnambiguous(value: seq<byte>, key: seq<byte>)
    requires |key| == 32
    ensures ParseAtRestKey(value) == Some(key) <==>
              GoDecodeRaw(Chars(value)) == Some(key) || HexDecode(Chars(value)) == Some(key) || value == key
  {
    ReadingsExclude(value);
  }

  lemma RawChars(s: string)
    requires forall i :: 0 <= i < |s| ==> s[i] as int < 256
    ensures Chars(Raw(s)) == s
  {
  }

  lemma HexIsAscii(b: seq<byte>)
    ensures forall i :: 0 <= i < |HexEncode(b)| ==> HexEncode(b)[i] as int < 256
  {
  }

  lemma UrlIsAscii(b: seq<byte>)
    ensures forall i :: 0 <= i < |EncodeRawUrl(b)| ==> EncodeRawUrl(b)[i] as int < 256
  {
  }

  /** Every 32-byte key is recovered from its base64url, hex and raw forms alike. */
  lemma RecoversEveryKey(key: seq<byte>)
    requires |key| == 32
    ensures ParseAtRestKey(key) == Some(key)
    ensures (forall i :: 0 <= i < |HexEncode(key)| ==> HexEncode(key)[i] as int < 256) && ParseAtRestKey(Raw(HexEncode(key))) == Some(key)
    ensures (forall i :: 0 <= i < |EncodeRawUrl(key)| ==> EncodeRawUrl(key)[i] as int < 256) && ParseAtRestKey(Raw(EncodeRawUrl(key))) == Some(key)
  {
    ParseIsUnambiguous(key, key);
    HexIsAscii(key);
    HexRoundTrip(key);
    RawChars(HexEncode(key));
    ParseIsUnambiguous(Raw(HexEncode(key)), key);
    UrlIsAscii(key);
    GoRawRoundTrip(key);
    RawChars(EncodeRawUrl(key));
    ParseIsUnambiguous(Raw(EncodeRawUrl(key)), key);
  }

  /** The two hexadecimal texts of a nibble. */
  predicate SpellsNibble(c: char, v: nat) {
    v < 16 && (c == "0123456789abcdef"[v] || c == "0123456789ABCDEF"[v])
  }

  lemma NibbleRead(c: char, v: nat)
    requires v < 16
    ensures SpellsNibble(c, v) <==> HexValue(c) == Some(v)
  {
  }

  /** A key is recovered from any hexadecimal spelling of it, its letters in either case or mixed. */
  lemma RecoversEitherCase(key: seq<byte>, s: string)
    requires |key| == 32 && |s| == 64
    requires forall i :: 0 <= i < 32 ==> SpellsNibble(s[2 * i], key[i] / 16) && SpellsNibble(s[2 * i + 1], key[i] % 16)
    ensures (forall i :: 0 <= i < |s| ==> s[i] as int < 256) && ParseAtRestKey(Raw(s)) == Some(key)
  {
    forall i | 0 <= i < 64 ensures HexValue(s[i]).Some? && s[i] as int < 256 {
      NibbleRead(s[2 * (i / 2)], key[i / 2] / 16);
      NibbleRead(s[2 * (i / 2) + 1], key[i / 2] % 16);
    }
    forall i | 0 <= i < 32 ensures HexByte(s[2 * i], s[2 * i + 1]) == key[i] {
      NibbleRead(s[2 * i], key[i] / 16);
      NibbleRead(s[2 * i + 1], key[i] % 16);
    }
    assert HexDecode(s).value == key;
    RawChars(s);
    ParseIsUnambiguous(Raw(s), key);
  }

}
