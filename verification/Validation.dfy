/** The server's checks on a create request. Go strings are modelled one character to a byte. */
module Validation {
  import opened Basics
  import opened SecretTypes
  import opened Base64

  const MAX_CIPHERTEXT_SIZE: nat := 15_360
  const NONCE_LENGTH: nat := 12
  const ALLOWED_TTLS: set<int> := {3600, 86400, 604800}
  const ALLOWED_EXPIRATION_MINUTES: set<int> := {60, 1440, 10080}

  datatype Code =
    | InvalidExpiration | InvalidTtl | PlaintextNotAllowed | EmptyCiphertext | BurnAfterReadRequired
    | InvalidAlgorithm | CiphertextTooLarge | EmptyNonce | InvalidNonceFormat | InvalidNonceLength

  /** decodeBase64Url of the server: padding added by the raw length, then Go's padded decoder. */
  function DecodeBase64Url(s: string): Option<seq<byte>> {
    GoDecodePadded(s + (if |s| % 4 == 2 then "==" else if |s| % 4 == 3 then "=" else ""))
  }

  /** When a request has the defect that an error code names. */
  predicate HasDefect(req: CreateSecretRequest, code: Code) {
    match code
    case InvalidExpiration => req.ttlSeconds == 0 && req.expiresInMinutes != 0 && req.expiresInMinutes !in ALLOWED_EXPIRATION_MINUTES
    case InvalidTtl => !(req.ttlSeconds == 0 && req.expiresInMinutes != 0) && req.ttlSeconds !in ALLOWED_TTLS
    case PlaintextNotAllowed => req.content != ""
    case EmptyCiphertext => req.ciphertext == ""
    case BurnAfterReadRequired => req.burnAfterRead == Some(false)
    case InvalidAlgorithm => req.ciphertext != "" && req.algorithm != "AES-GCM"
    case CiphertextTooLarge => |req.ciphertext| > MAX_CIPHERTEXT_SIZE
    case EmptyNonce => req.ciphertext != "" && req.nonce == ""
    case InvalidNonceFormat => req.ciphertext != "" && req.nonce != "" && DecodeBase64Url(req.nonce).None?
    case InvalidNonceLength =>
      req.ciphertext != "" && req.nonce != "" && DecodeBase64Url(req.nonce).Some? && |DecodeBase64Url(req.nonce).value| != NONCE_LENGTH
  }

  function One(req: CreateSecretRequest, code: Code): seq<Code> {
    if HasDefect(req, code) then [code] else []
  }

  function RequestDefects(req: CreateSecretRequest): seq<Code> {
    One(req, InvalidExpiration) + One(req, InvalidTtl) + One(req, PlaintextNotAllowed) + One(req, EmptyCiphertext) + One(req, BurnAfterReadRequired)
  }

  function CiphertextDefects(req: CreateSecretRequest): seq<Code> {
    One(req, InvalidAlgorithm) + One(req, CiphertextTooLarge) + One(req, EmptyNonce) + One(req, InvalidNonceFormat) + One(req, InvalidNonceLength)
  }

  /** The defects of a request in the order they are reported. */
  function Defects(req: CreateSecretRequest): seq<Code> {
    RequestDefects(req) + CiphertextDefects(req)
  }

  /** Reports every defect the request has, in order, and nothing exactly for an acceptable request. */
  method ValidateCreateSecretRequest(req: CreateSecretRequest) returns (validationErrors: seq<Code>)
    ensures validationErrors == Defects(req)
    ensures validationErrors == [] <==> Acceptable(req)
  {
    validationErrors := RequestErrors(req);
    var hasCiphertext := req.ciphertext != "";
    if hasCiphertext {
      validationErrors := CiphertextErrors(req, validationErrors);
    } else {
      NothingToSay(req);
    }
    NoDefectIffAcceptable(req);
  }

  lemma NothingToSay(req: CreateSecretRequest)
    requires req.ciphertext == ""
    ensures CiphertextDefects(req) == []
  {
  }

  /** The part of the checks that every request is put through. */
  method RequestErrors(req: CreateSecretRequest) returns (errors: seq<Code>)
    ensures errors == RequestDefects(req)
  {
    errors := [];
    if req.ttlSeconds == 0 && req.expiresInMinutes != 0 {
      if req.expiresInMinutes !in ALLOWED_EXPIRATION_MINUTES {
        errors := errors + [InvalidExpiration];
      }
    } else if req.ttlSeconds !in ALLOWED_TTLS {
      errors := errors + [InvalidTtl];
    }
    assert errors == One(req, InvalidExpiration) + One(req, InvalidTtl);
    var hasContent := req.content != "";
    var hasCiphertext := req.ciphertext != "";
    if hasContent {
      errors := errors + [PlaintextNotAllowed];
    }
    if !hasCiphertext {
      errors := errors + [EmptyCiphertext];
    }
    if req.burnAfterRead.Some? && !req.burnAfterRead.value {
      errors := errors + [BurnAfterReadRequired];
    }
  }

  /** The part of the checks that only a present ciphertext is put through. */
  method CiphertextErrors(req: CreateSecretRequest, before: seq<Code>) returns (errors: seq<Code>)
    requires req.ciphertext != ""
    ensures errors == before + CiphertextDefects(req)
  {
    errors := before;
    if req.algorithm != "AES-GCM" {
      errors := errors + [InvalidAlgorithm];
    }
    if |req.ciphertext| > MAX_CIPHERTEXT_SIZE {
      errors := errors + [CiphertextTooLarge];
    }
    if req.nonce == "" {
      errors := errors + [EmptyNonce];
    } else {
      var nonceBytes := DecodeBase64Url(req.nonce);
      if nonceBytes.None? {
        errors := errors + [InvalidNonceFormat];
      } else if |nonceBytes.value| != NONCE_LENGTH {
        errors := errors + [InvalidNonceLength];
      }
    }
  }

  predicate AllowedLifetime(req: CreateSecretRequest) {
    req.ttlSeconds in ALLOWED_TTLS || (req.ttlSeconds == 0 && req.expiresInMinutes in ALLOWED_EXPIRATION_MINUTES)
  }

  /** Sixteen URL digits; line breaks between them pass when they leave the raw length at 0 or 1 modulo 4. */
  predicate NonceText(s: string) {
    var t := Without(s, {'\r', '\n'});
    |t| == 16 && AllDigits(t, true) && |s| % 4 <= 1
  }

  /** What the server accepts, in terms of the request's text alone. */
  predicate Acceptable(req: CreateSecretRequest) {
    && AllowedLifetime(req)
    && req.content == ""
    && 0 < |req.ciphertext| <= MAX_CIPHERTEXT_SIZE
    && req.algorithm == "AES-GCM"
    && req.burnAfterRead != Some(false)
    && NonceText(req.nonce)
  }

  /** Sixteen digits decode without padding; a padded text never has twelve bytes. */
  lemma TwelveBytes(t: string)
    requires Without(t, LINE_BREAKS) == t
    ensures (GoDecodePadded(t).Some? && |GoDecodePadded(t).value| == NONCE_LENGTH) <==> |t| == 16 && AllDigits(t, true)
  {
    if |t| == 16 && AllDigits(t, true) {
      DigitIsClean(t[15], true);
    }
  }

  lemma DecodesItsText(s: string)
    ensures GoDecodePadded(s) == GoDecodePadded(Without(s, LINE_BREAKS))
    ensures Without(Without(s, LINE_BREAKS), LINE_BREAKS) == Without(s, LINE_BREAKS)
  {
    WithoutNone(Without(s, LINE_BREAKS), LINE_BREAKS);
  }

  /** A nonce decodes to 12 bytes exactly when its text is of that form. */
  lemma NonceLengthIsText(s: string)
    ensures (DecodeBase64Url(s).Some? && |DecodeBase64Url(s).value| == NONCE_LENGTH) <==> NonceText(s)
  {
    var pad := if |s| % 4 == 2 then "==" else if |s| % 4 == 3 then "=" else "";
    var t := Without(s + pad, LINE_BREAKS);
    DecodesItsText(s + pad);
    TwelveBytes(t);
    if |s| % 4 <= 1 {
      assert s + pad == s;
    } else {
      WithoutAppend(s, pad, LINE_BREAKS);
      WithoutNone(pad, LINE_BREAKS);
      assert t[|t| - 1] == '=';
      NotDigits(t);
    }
  }

  lemma NotDigits(t: string)
    requires t != "" && t[|t| - 1] == '='
    ensures !AllDigits(t, true)
  {
    assert !IsDigit(t[|t| - 1], true);
  }

  lemma NoRequestDefect(req: CreateSecretRequest)
    ensures RequestDefects(req) == [] <==> AllowedLifetime(req) && req.content == "" && req.ciphertext != "" && req.burnAfterRead != Some(false)
  {
  }

  lemma NoCiphertextDefect(req: CreateSecretRequest)
    requires req.ciphertext != ""
    ensures CiphertextDefects(req) == [] <==> req.algorithm == "AES-GCM" && |req.ciphertext| <= MAX_CIPHERTEXT_SIZE && NonceText(req.nonce)
  {
    NonceLengthIsText(req.nonce);
    if req.nonce == "" {
      assert Without(req.nonce, LINE_BREAKS) == "";
    }
  }

  /** No defect is left exactly when the request is acceptable. */
  lemma NoDefectIffAcceptable(req: CreateSecretRequest)
    ensures Defects(req) == [] <==> Acceptable(req)
  {
    NoRequestDefect(req);
    if req.ciphertext != "" {
      NoCiphertextDefect(req);
    }
  }

  /** Every accepted request has one of the three lifetimes, so creation never fails for its TTL. */
  lemma AcceptedLifetime(req: CreateSecretRequest)
    requires Acceptable(req)
    ensures (if req.ttlSeconds != 0 then req.ttlSeconds else req.expiresInMinutes * 60) in {3600, 86400, 604800}
    ensures forall hash, key, t :: Creation(hash, req, key, t, t).Valid()
  {
  }

  /**
   * Which code a request is given, in the values that the request may hold: each lifetime field by itself, and the
   * checks on the ciphertext only when there is one.
   */
  lemma CodesMean(req: CreateSecretRequest)
    ensures InvalidExpiration in Defects(req) <==> req.ttlSeconds == 0 && req.expiresInMinutes !in {0, 60, 1440, 10080}
    ensures InvalidTtl in Defects(req) <==> req.ttlSeconds !in {3600, 86400, 604800} && (req.ttlSeconds != 0 || req.expiresInMinutes == 0)
    ensures PlaintextNotAllowed in Defects(req) <==> |req.content| > 0
    ensures EmptyCiphertext in Defects(req) <==> |req.ciphertext| == 0
    ensures BurnAfterReadRequired in Defects(req) <==> req.burnAfterRead == Some(false)
    ensures InvalidAlgorithm in Defects(req) <==> |req.ciphertext| > 0 && req.algorithm != "AES-GCM"
    ensures CiphertextTooLarge in Defects(req) <==> |req.ciphertext| > 15_360
    ensures EmptyNonce in Defects(req) <==> |req.ciphertext| > 0 && |req.nonce| == 0
    ensures InvalidNonceFormat in Defects(req) || InvalidNonceLength in Defects(req) <==>
              |req.ciphertext| > 0 && |req.nonce| > 0 && !NonceText(req.nonce)
    ensures InvalidNonceFormat in Defects(req) ==> DecodeBase64Url(req.nonce).None?
    ensures InvalidNonceLength in Defects(req) ==> DecodeBase64Url(req.nonce).Some?
  {
    NonceLengthIsText(req.nonce);
    forall code ensures code in Defects(req) <==> HasDefect(req, code) {
      DefectReported(req, code);
    }
  }

  lemma DefectReported(req: CreateSecretRequest, code: Code)
    ensures code in Defects(req) <==> HasDefect(req, code)
  {
    OneReports(req, code, InvalidExpiration);
    OneReports(req, code, InvalidTtl);
    OneReports(req, code, PlaintextNotAllowed);
    OneReports(req, code, EmptyCiphertext);
    OneReports(req, code, BurnAfterReadRequired);
    OneReports(req, code, InvalidAlgorithm);
    OneReports(req, code, CiphertextTooLarge);
    OneReports(req, code, EmptyNonce);
    OneReports(req, code, InvalidNonceFormat);
    OneReports(req, code, InvalidNonceLength);
  }

  lemma OneReports(req: CreateSecretRequest, code: Code, asked: Code)
    ensures code in One(req, asked) <==> code == asked && HasDefect(req, asked)
  {
  }

  const REQUEST_ORDER: seq<Code> := [InvalidExpiration] + ([InvalidTtl] + ([PlaintextNotAllowed] + ([EmptyCiphertext] + [BurnAfterReadRequired])))

  const CIPHERTEXT_ORDER: seq<Code> := [InvalidAlgorithm] + ([CiphertextTooLarge] + ([EmptyNonce] + ([InvalidNonceFormat] + [InvalidNonceLength])))

  /** Those of the codes whose defect the request has. */
  function Filtered(req: CreateSecretRequest, codes: seq<Code>): seq<Code> {
    if codes == [] then [] else One(req, codes[0]) + Filtered(req, codes[1..])
  }

  lemma FilterHead(req: CreateSecretRequest, code: Code, rest: seq<Code>)
    ensures Filtered(req, [code] + rest) == One(req, code) + Filtered(req, rest)
  {
    assert ([code] + rest)[1..] == rest;
  }

  lemma SumsAgree<T>(a: seq<T>, b: seq<T>, c: seq<T>, d: seq<T>, e: seq<T>)
    ensures a + (b + (c + (d + (e + [])))) == a + b + c + d + e
  {
  }

  lemma FilterFive(req: CreateSecretRequest, a: Code, b: Code, c: Code, d: Code, e: Code)
    ensures Filtered(req, [a] + ([b] + ([c] + ([d] + [e])))) == One(req, a) + One(req, b) + One(req, c) + One(req, d) + One(req, e)
  {
    FilterHead(req, a, [b] + ([c] + ([d] + [e])));
    FilterHead(req, b, [c] + ([d] + [e]));
    FilterHead(req, c, [d] + [e]);
    FilterHead(req, d, [e]);
    FilterHead(req, e, []);
    assert [e] + [] == [e];
    SumsAgree(One(req, a), One(req, b), One(req, c), One(req, d), One(req, e));
  }

  /** The report lists the defects in the order of the checks, with no code twice. */
  lemma ReportedInOrder(req: CreateSecretRequest)
    ensures Defects(req) == Filtered(req, REQUEST_ORDER) + Filtered(req, CIPHERTEXT_ORDER)
  {
    FilterFive(req, InvalidExpiration, InvalidTtl, PlaintextNotAllowed, EmptyCiphertext, BurnAfterReadRequired);
    FilterFive(req, InvalidAlgorithm, CiphertextTooLarge, EmptyNonce, InvalidNonceFormat, InvalidNonceLength);
  }
}
