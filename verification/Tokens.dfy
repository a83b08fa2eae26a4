/** Secret tokens: what hashToken accepts, and that it accepts what is generated. */
module Tokens {
  import opened Basics
  import opened Base64

  const MIN_TOKEN_LENGTH: nat := 16
  const MAX_TOKEN_LENGTH: nat := 200
  const TOKEN_LENGTH_BYTES: nat := 16

  predicate IsTokenChar(c: char) {
    'a' <= c <= 'z' || 'A' <= c <= 'Z' || '0' <= c <= '9' || c == '-' || c == '_'
  }

  predicate IsValidToken(token: string) {
    MIN_TOKEN_LENGTH <= |token| <= MAX_TOKEN_LENGTH && forall i :: 0 <= i < |token| ==> IsTokenChar(token[i])
  }

  lemma TokenCharIsDigit(c: char)
    ensures IsTokenChar(c) <==> IsDigit(c, true)
  {
  }

  /** Every generated token is valid: 22 characters of the alphabet hashToken allows. */
  lemma GeneratedTokenIsValid(random: seq<byte>)
    requires |random| == TOKEN_LENGTH_BYTES
    ensures IsValidToken(EncodeRawUrl(random)) && |EncodeRawUrl(random)| == 22
  {
    var token := EncodeRawUrl(random);
    DigitsValues(Sextets(random), true);
    forall i | 0 <= i < |token| ensures IsTokenChar(token[i]) {
      assert IsDigit(token[i], true);
      TokenCharIsDigit(token[i]);
    }
  }

  /** A token is 16 to 200 characters of the URL alphabet of RFC 4648. */
  lemma TokensAreUrlText(token: string)
    ensures IsValidToken(token) <==> 16 <= |token| <= 200 && AllDigits(token, true)
  {
    forall i | 0 <= i < |token| ensures IsTokenChar(token[i]) <==> IsDigit(token[i], true) {
      TokenCharIsDigit(token[i]);
    }
  }

}
