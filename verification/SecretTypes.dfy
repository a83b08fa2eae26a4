/** The records of backend/internal/secret and the constants its scripts use. */
module SecretTypes {
  import opened Basics

  const OPERATION_TIMEOUT_MS: nat := 5_000
  const RETENTION_SECONDS: nat := 604_800
  const RETENTION_MS: nat := 604_800_000
  const CLAIM_LEASE_SECONDS: nat := 30
  const CLAIM_LEASE_MS: nat := 30_000

  datatype CreateSecretRequest = CreateSecretRequest(
    content: string,
    ciphertext: string,
    nonce: string,
    algorithm: string,
    ttlSeconds: int,
    expiresInMinutes: int,
    burnAfterRead: Option<bool>,
    theme: string)

  function EffectiveTTLSeconds(req: CreateSecretRequest): int {
    if req.ttlSeconds != 0 then req.ttlSeconds else req.expiresInMinutes * 60
  }

  function EffectiveTheme(req: CreateSecretRequest): string {
    if req.theme == "" then "classic-letter" else req.theme
  }

  datatype SecretPayload = SecretPayload(
    content: string,
    ciphertext: string,
    nonce: string,
    algorithm: string,
    createdAt: nat,
    expiresAt: nat,
    burnAfterRead: bool,
    theme: string)

  type AtRestKey = seq<byte>

  /**
   * An ideal at-rest envelope: it opens under the key that sealed it, to what was
   * sealed, and under no other key.
   */
  datatype Envelope = Sealed(key: AtRestKey, payload: SecretPayload)

  function Unseal(envelope: Envelope, key: AtRestKey): Option<SecretPayload> {
    if envelope.key == key then Some(envelope.payload) else None
  }

  datatype Status = Active | Opening | Consumed | Expired | Deleted

  /** The Lua view of the metadata record: the Go struct lacks the two opening fields. */
  datatype Metadata = Metadata(
    tokenHash: string,
    status: Status,
    createdAtUnix: nat,
    expiresAtUnix: nat,
    consumedAtUnix: Option<nat>,
    ttlSeconds: int,
    viewCount: int,
    burnAfterRead: bool,
    theme: string,
    openingID: Option<string>,
    openingUntilUnix: Option<int>)
  {
    /** What unmarshalling into the Go struct and marshalling again keeps. */
    function GoView(): Metadata {
      this.(openingID := None, openingUntilUnix := None)
    }

    /** The record with no claim on it. */
    function Unclaimed(s: Status): Metadata {
      this.(status := s, openingID := None, openingUntilUnix := None)
    }
  }

  datatype ConsumeSecretResponse = ConsumeSecretResponse(
    ciphertext: string,
    nonce: string,
    algorithm: string,
    content: string,
    consumedAtUnix: Option<nat>)

  datatype OpenError =
    | SecretConsumed | SecretExpired | SecretNotFound | InvalidToken
    | Superseded | DecryptFailed | GaveUp | Unavailable

  /** What one successful creation fixed for good. */
  datatype Creation = Creation(
    tokenHash: string,
    req: CreateSecretRequest,
    key: AtRestKey,
    sampledAt: nat,
    storedAt: nat)
  {
    /** The creation went through, within the deadline of its call. */
    predicate Valid() {
      && EffectiveTTLSeconds(req) > 0
      && sampledAt <= storedAt <= sampledAt + OPERATION_TIMEOUT_MS
    }

    function TtlMs(): nat
      requires Valid()
    {
      EffectiveTTLSeconds(req) * 1000
    }

    function ExpiresAtUnix(): nat
      requires Valid()
    {
      Sec(sampledAt + TtlMs())
    }

    /** The last instant at which the stored payload is readable. */
    function PayloadEnd(): nat
      requires Valid()
    {
      storedAt + TtlMs()
    }

    function Payload(): SecretPayload
      requires Valid()
    {
      SecretPayload(req.content, req.ciphertext, req.nonce, req.algorithm,
                    sampledAt, sampledAt + TtlMs(), true, EffectiveTheme(req))
    }

    function SealedPayload(): Envelope
      requires Valid()
    {
      Sealed(key, Payload())
    }

    function InitialMetadata(): Metadata
      requires Valid()
    {
      Metadata(
        tokenHash, Active, Sec(sampledAt), ExpiresAtUnix(), None,
        EffectiveTTLSeconds(req), 0, true, EffectiveTheme(req), None, None)
    }
  }
}
