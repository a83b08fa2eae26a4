/** encodeBase64Url and decodeBase64Url of frontend/web-app/src/lib/crypto.ts, over btoa and atob. */
module CryptoCodec {
  import opened Basics
  import opened Base64

  function ReplaceAll(s: string, from: char, to: char): (t: string)
    ensures |t| == |s| && forall i :: 0 <= i < |s| ==> t[i] == if s[i] == from then to else s[i]
  {
    seq(|s|, i requires 0 <= i < |s| => if s[i] == from then to else s[i])
  }

  /** btoa, then '+' and '/' become '-' and '_', and the padding goes. */
  function EncodeBase64Url(b: seq<byte>): string {
    Without(ReplaceAll(ReplaceAll(EncodeStd(b), '+', '-'), '/', '_'), {'='})
  }

  /** What String.prototype.trim strips: white space and line terminators. */
  predicate IsJsSpace(c: char) {
    var u := c as int;
    9 <= u <= 13 || u == 0x20 || u == 0xA0 || u == 0x1680 || 0x2000 <= u <= 0x200A || u == 0x2028 || u == 0x2029
    || u == 0x202F || u == 0x205F || u == 0x3000 || u == 0xFEFF
  }

  lemma JsSpaces(c: char)
    ensures IsJsSpace(c) <==> c in {
      '\t', '\n', '\r', ' ', '\U{0B}', '\U{0C}', '\U{A0}', '\U{1680}', '\U{2000}', '\U{2001}', '\U{2002}', '\U{2003}', '\U{2004}',
      '\U{2005}', '\U{2006}', '\U{2007}', '\U{2008}', '\U{2009}', '\U{200A}', '\U{2028}', '\U{2029}', '\U{202F}', '\U{205F}', '\U{3000}', '\U{FEFF}'}
  {
  }

  function TrimStart(s: string): (t: string)
    ensures |t| <= |s|
    decreases |s|
  {
    if s != "" && IsJsSpace(s[0]) then TrimStart(s[1..]) else s
  }

  function TrimEnd(s: string): (t: string)
    ensures |t| <= |s|
    decreases |s|
  {
    if s != "" && IsJsSpace(s[|s| - 1]) then TrimEnd(s[..|s| - 1]) else s
  }

  function Trim(s: string): string {
    TrimEnd(TrimStart(s))
  }

  /** The guard of the decoder, on the trimmed input. */
  predicate Accepted(input: string) {
    input != "" && AllDigits(input, true) && |input| % 4 != 1
  }

  datatype DecodeError = Base64UrlDecodeError

  /**
   * The decoder. It throws exactly when the guard refuses the trimmed input: once past the
   * guard atob never fails, and the result has floor(3 * length / 4) bytes.
   */
  method DecodeBase64Url(base64url: string) returns (r: Result<seq<byte>, DecodeError>)
    ensures r.Ok? <==> Accepted(Trim(base64url))
    ensures r.Ok? ==> r.value == Bytes(Values(Trim(base64url), true)) && |r.value| == 3 * |Trim(base64url)| / 4
  {
    var input := Trim(base64url);
    if !Accepted(input) {
      return Err(Base64UrlDecodeError);
    }
    var base64 := ReplaceAll(ReplaceAll(input, '-', '+'), '_', '/');
    AtobReads(input, base64);
    base64 := PadToQuads(base64);
    var binaryString := Atob(base64);
    if binaryString.None? {
      return Err(Base64UrlDecodeError);
    }
    var bytes := FillBytes(binaryString.value);
    return Ok(bytes);
  }

  /** The padding loop. */
  method PadToQuads(s: string) returns (base64: string)
    ensures base64 == s + Padding(|s|)
  {
    base64 := s;
    while |base64| % 4 != 0
      invariant |s| <= |base64| <= |s| + |Padding(|s|)|
      invariant base64 == s + Padding(|s|)[..|base64| - |s|]
      decreases |s| + |Padding(|s|)| - |base64|
    {
      assert Padding(|s|)[..|base64| + 1 - |s|] == Padding(|s|)[..|base64| - |s|] + "=";
      base64 := base64 + "=";
    }
  }

  /** The loop that fills the byte array from the binary string. */
  method FillBytes(binaryString: seq<byte>) returns (filled: seq<byte>)
    ensures filled == binaryString
  {
    var bytes := new byte[|binaryString|](_ => 0);
    for i := 0 to |binaryString|
      invariant bytes[..i] == binaryString[..i]
    {
      bytes[i] := binaryString[i];
    }
    return bytes[..];
  }

  lemma TranslatedDigits(input: string, std: string)
    requires AllDigits(input, true) && std == ReplaceAll(ReplaceAll(input, '-', '+'), '_', '/')
    ensures AllDigits(std, false) && Values(std, false) == Values(input, true)
  {
    forall i | 0 <= i < |input| ensures IsDigit(std[i], false) && ValueOf(std[i], false) == ValueOf(input[i], true) {
      assert IsDigit(input[i], true);
      Translated(input[i]);
    }
  }

  lemma Translated(c: char)
    requires IsDigit(c, true)
    ensures var d := if c == '-' then '+' else if c == '_' then '/' else c; ValueOf(d, false) == ValueOf(c, true)
  {
  }

  /** Translated and padded, an accepted input is something atob reads in full. */
  lemma AtobReads(input: string, std: string)
    requires Accepted(input) && std == ReplaceAll(ReplaceAll(input, '-', '+'), '_', '/')
    ensures Atob(std + Padding(|std|)) == Some(Bytes(Values(input, true)))
  {
    TranslatedDigits(input, std);
    PaddingComesOff(std, false);
  }

  /** The replace chain over btoa is the unpadded URL alphabet, so both sides write the same text. */
  lemma EncodersAgree(b: seq<byte>)
    ensures EncodeBase64Url(b) == EncodeRawUrl(b)
  {
    var v := Sextets(b);
    var pad := Padding(|v|);
    var t := ReplaceAll(ReplaceAll(EncodeStd(b), '+', '-'), '/', '_');
    assert t == Digits(v, true) + pad;
    WithoutAppend(Digits(v, true), pad, {'='});
    DigitsValues(v, true);
    CleanDigits(Digits(v, true), true);
    OnlyPadding(pad);
  }

  lemma OnlyPadding(pad: string)
    requires forall i :: 0 <= i < |pad| ==> pad[i] == '='
    ensures Without(pad, {'='}) == ""
  {
  }

  lemma TrimDigits(s: string)
    requires AllDigits(s, true)
    ensures Trim(s) == s
  {
    assert |s| > 0 ==> IsDigit(s[0], true) && IsDigit(s[|s| - 1], true);
  }

  /** What trimming takes off: the white space and line terminators of ECMA-262, and nothing from in between. */
  lemma TrimLaw(s: string) returns (a: nat, b: nat)
    ensures a + |Trim(s)| + b == |s| && Trim(s) == s[a..a + |Trim(s)|]
    ensures forall i :: 0 <= i < a || a + |Trim(s)| <= i < |s| ==> IsJsSpace(s[i])
    ensures Trim(s) != "" ==> !IsJsSpace(Trim(s)[0]) && !IsJsSpace(Trim(s)[|Trim(s)| - 1])
  {
    var t := TrimStart(s);
    a := StartTrimmed(s);
    b := EndTrimmed(t);
    forall i | 0 <= i < a || a + |Trim(s)| <= i < |s| ensures IsJsSpace(s[i]) {
      if i >= a {
        assert t[i - a] == s[i];
      }
    }
  }

  lemma {:induction false} StartTrimmed(s: string) returns (a: nat)
    ensures a <= |s| && TrimStart(s) == s[a..] && (forall i :: 0 <= i < a ==> IsJsSpace(s[i]))
    ensures TrimStart(s) != "" ==> !IsJsSpace(TrimStart(s)[0])
    decreases |s|
  {
    if s != "" && IsJsSpace(s[0]) {
      var rest := StartTrimmed(s[1..]);
      a := rest + 1;
      assert s[1..][rest..] == s[a..];
      assert forall i :: 0 < i < a ==> s[i] == s[1..][i - 1];
    } else {
      a := 0;
    }
  }

  lemma {:induction false} EndTrimmed(s: string) returns (b: nat)
    ensures |TrimEnd(s)| + b == |s| && TrimEnd(s) == s[..|s| - b] && (forall i :: |s| - b <= i < |s| ==> IsJsSpace(s[i]))
    ensures TrimEnd(s) != "" ==> TrimEnd(s)[0] == s[0] && !IsJsSpace(TrimEnd(s)[|TrimEnd(s)| - 1])
    decreases |s|
  {
    if s != "" && IsJsSpace(s[|s| - 1]) {
      var rest := EndTrimmed(s[..|s| - 1]);
      b := rest + 1;
    } else {
      b := 0;
    }
  }

  /** What DecodeBase64Url returns, as a function. */
  function Decoded(s: string): Result<seq<byte>, DecodeError> {
    if Accepted(Trim(s)) then Ok(Bytes(Values(Trim(s), true))) else Err(Base64UrlDecodeError)
  }

  lemma DecodedDigits(text: string)
    requires AllDigits(text, true) && text != "" && |text| % 4 != 1
    ensures Decoded(text) == Ok(Bytes(Values(text, true)))
  {
    TrimDigits(text);
  }

  /** decode(encode(b)) is b for every non-empty b, and an error for the empty one, whose encoding is empty. */
  lemma RoundTrip(b: seq<byte>)
    ensures Decoded(EncodeBase64Url(b)) == if b == [] then Err(Base64UrlDecodeError) else Ok(b)
  {
    EncodersAgree(b);
    EncodedIsDigits(b);
    BytesOfSextets(b);
    if b == [] {
      assert EncodeRawUrl(b) == "";
    } else {
      DecodedDigits(EncodeRawUrl(b));
    }
  }

  function Normal(s: string): string
    requires Decoded(s).Ok?
  {
    EncodeBase64Url(Decoded(s).value)
  }

  /**
   * Encoding what was decoded is a normal form: it decodes to the same bytes, is its own normal form, and is the
   * trimmed input exactly when that has zero left-over bits.
   */
  lemma NormalForm(s: string)
    requires Decoded(s).Ok?
    ensures Decoded(Normal(s)) == Decoded(s)
    ensures Normal(Normal(s)) == Normal(s)
    ensures Normal(s) == Trim(s) <==> Canonical(Values(Trim(s), true))
  {
    var v := Values(Trim(s), true);
    RoundTrip(Bytes(v));
    EncodersAgree(Bytes(v));
    SextetsOfBytes(v);
    ValuesDigits(Trim(s), true);
    DigitsValues(Sextets(Bytes(v)), true);
  }

  /** Server and browser read each other: Go's decoders return the bytes that the browser encoded. */
  lemma GoReadsBrowser(b: seq<byte>)
    ensures GoDecodeRaw(EncodeBase64Url(b)) == Some(b)
    ensures b != [] ==> Decoded(EncodeRawUrl(b)) == Ok(b)
  {
    EncodersAgree(b);
    GoRawRoundTrip(b);
    RoundTrip(b);
  }

  /** A link fragment imports exactly when its trimmed text is 43 URL digits; every exported key is one. */
  lemma KeyFragments(s: string, key: seq<byte>)
    ensures (Decoded(s).Ok? && |Decoded(s).value| == 32) <==> (|Trim(s)| == 43 && AllDigits(Trim(s), true))
    ensures |key| == 32 ==> |EncodeBase64Url(key)| == 43 && Decoded(EncodeBase64Url(key)) == Ok(key)
  {
    RoundTrip(key);
    EncodersAgree(key);
  }
}
