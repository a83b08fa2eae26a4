/** From the text box to the server: what the form accepts, the server accepts. */
module SizeBudget {
  import opened Basics
  import opened SecretTypes
  import opened Base64
  import opened CryptoCodec
  import opened Utf8Clamp
  import opened Validation

  const MAX_PLAINTEXT_SIZE: nat := 10_240
  const GCM_TAG_LENGTH: nat := 16

  /** The request the form sends. */
  function FormRequest(ciphertext: seq<byte>, nonce: seq<byte>, ttl: int): CreateSecretRequest {
    CreateSecretRequest("", EncodeBase64Url(ciphertext), EncodeBase64Url(nonce), "AES-GCM", ttl, 0, None, "")
  }

  function TtlText(ttl: int): string
    requires ttl in ALLOWED_TTLS
  {
    if ttl == 3600 then "3600" else if ttl == 86400 then "86400" else "604800"
  }

  /** JSON.stringify of the request body: no field needs an escape. */
  function JsonBody(ciphertext: seq<byte>, nonce: seq<byte>, ttl: int): string
    requires ttl in ALLOWED_TTLS
  {
    "{\"ciphertext\":\"" + EncodeBase64Url(ciphertext) + "\",\"nonce\":\"" + EncodeBase64Url(nonce)
    + "\",\"algorithm\":\"AES-GCM\",\"ttlSeconds\":" + TtlText(ttl) + "}"
  }

  /** The body limit of the server, whatever size it is configured with. */
  function BodyLimit(maxSecretSizeKB: int): int {
    (if maxSecretSizeKB > 15 then maxSecretSizeKB else 15) * 1024
  }

  lemma UrlLength(b: seq<byte>)
    ensures |EncodeBase64Url(b)| == (4 * |b| + 2) / 3 && AllDigits(EncodeBase64Url(b), true)
  {
    EncodersAgree(b);
    EncodedIsDigits(b);
  }

  /** The server decodes exactly the bytes that the browser encoded. */
  lemma ServerReadsForm(b: seq<byte>)
    ensures Validation.DecodeBase64Url(EncodeBase64Url(b)) == Some(b)
  {
    EncodersAgree(b);
    EncodedIsDigits(b);
    GoPaddedRoundTrip(b);
    var s := EncodeRawUrl(b);
    assert s + (if |s| % 4 == 2 then "==" else if |s| % 4 == 3 then "=" else "") == s + Padding(|s|);
  }

  /** A 12-byte nonce and an offered TTL: the request passes validation exactly up to 11520 bytes of ciphertext. */
  lemma FormRequestAccepted(ciphertext: seq<byte>, nonce: seq<byte>, ttl: int)
    requires |nonce| == 12 && ttl in {3600, 86400, 604800}
    ensures Acceptable(FormRequest(ciphertext, nonce, ttl)) <==> 1 <= |ciphertext| <= 11_520
  {
    UrlLength(ciphertext);
    UrlLength(nonce);
    CleanDigits(EncodeBase64Url(nonce), true);
  }

  /** Any text the clamp lets through, sealed with a 16-byte tag, passes validation and fits the body limit. */
  lemma ClampedTextIsAccepted(typed: Text, kept: Text, ciphertext: seq<byte>, nonce: seq<byte>, ttl: int, maxSecretSizeKB: int)
    requires LongestFit(typed, MAX_PLAINTEXT_SIZE, kept)
    requires |ciphertext| == |Encode(kept)| + GCM_TAG_LENGTH && |nonce| == 12 && ttl in ALLOWED_TTLS
    ensures |Encode(kept)| <= 10_240 && |ciphertext| <= 10_256
    ensures Acceptable(FormRequest(ciphertext, nonce, ttl))
    ensures |JsonBody(ciphertext, nonce, ttl)| <= 15 * 1024 <= BodyLimit(maxSecretSizeKB)
  {
    FormRequestAccepted(ciphertext, nonce, ttl);
    UrlLength(ciphertext);
    UrlLength(nonce);
  }
}
