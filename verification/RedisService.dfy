/**
 * RedisService over the Redis it talks to: the commands, the three Lua scripts step
 * by step, and the service calls, each against the functions the protocol is made of.
 * Clock readings are parameters: the instants at which Redis runs and the API samples.
 */
module RedisService {
  import opened Basics
  import opened SecretTypes
  import opened OpenScripts
  import opened RedisKeys
  import opened Tokens

  datatype RevealSessionRecord = RevealSessionRecord(
    sessionID: string,
    tokenHash: string,
    active: bool,
    createdAtUnix: nat,
    expiresAtUnix: nat)

  const REVEAL_SESSION_TTL_MS: nat := 900_000

  function NewSession(sessionID: string, tokenHash: string, now: nat): RevealSessionRecord {
    RevealSessionRecord(sessionID, tokenHash, true, Sec(now), Sec(now + REVEAL_SESSION_TTL_MS))
  }

  datatype SecretStatus = StatusOf(status: Status) | StatusMissing

  class Redis {
    var metadata: map<string, Timed<Metadata>>
    var payloads: map<string, Timed<Envelope>>
    var sessions: map<string, Timed<RevealSessionRecord>>

    constructor ()
      ensures metadata == map[] && payloads == map[] && sessions == map[]
    {
      metadata, payloads, sessions := map[], map[], map[];
    }

    /** The two keys of one secret. */
    ghost function SlotOf(hash: string): Slot
      reads this
    {
      Slot(Lookup(metadata, SecretMetadataKey(hash)), Lookup(payloads, SecretPayloadKey(hash)))
    }

    /** Nothing but the two keys of `hash` has changed. */
    twostate predicate OnlyTouched(hash: string)
      reads this
    {
      && metadata - {SecretMetadataKey(hash)} == old(metadata) - {SecretMetadataKey(hash)}
      && payloads - {SecretPayloadKey(hash)} == old(payloads) - {SecretPayloadKey(hash)}
      && sessions == old(sessions)
    }

    /** A call for one token leaves the secret of every other token as it was. */
    twostate lemma OtherSecretsUntouched(hash: string, other: string)
      requires OnlyTouched(hash) && other != hash
      ensures SlotOf(other) == old(SlotOf(other))
    {
      KeyspacesDisjoint(hash, other);
      var metaKey, payloadKey := SecretMetadataKey(other), SecretPayloadKey(other);
      assert Lookup(metadata, metaKey) == Lookup(metadata - {SecretMetadataKey(hash)}, metaKey);
      assert old(Lookup(metadata, metaKey)) == Lookup(old(metadata) - {SecretMetadataKey(hash)}, metaKey);
      assert Lookup(payloads, payloadKey) == Lookup(payloads - {SecretPayloadKey(hash)}, payloadKey);
      assert old(Lookup(payloads, payloadKey)) == Lookup(old(payloads) - {SecretPayloadKey(hash)}, payloadKey);
    }

    // ---- The three scripts, line by line ----

    method ClaimOpenSecret(hash: string, at: nat, now: int, claimID: string, claimUntil: int) returns (reply: ClaimReply)
      modifies this`metadata, this`payloads
      ensures (SlotOf(hash), reply) == Claim(old(SlotOf(hash)), at, now, claimID, claimUntil)
      ensures OnlyTouched(hash)
    {
      var metaKey, payloadKey := SecretMetadataKey(hash), SecretPayloadKey(hash);
      var metaRaw := Live(Lookup(metadata, metaKey), at);
      if metaRaw.None? {
        return ClaimNotFound;
      }
      var meta := metaRaw.value;
      if meta.status.Consumed? {
        return ClaimConsumed;
      }
      if meta.status.Expired? {
        return ClaimExpired;
      }
      if meta.status.Deleted? {
        return ClaimNotFound;
      }
      if meta.status.Opening? {
        var openingUntil := if meta.openingUntilUnix.Some? then meta.openingUntilUnix.value else 0;
        if openingUntil > now {
          return ClaimConsumed;
        }
        meta := meta.(status := Active, openingID := None, openingUntilUnix := None);
      }
      if meta.expiresAtUnix <= now {
        meta := meta.(status := Expired, openingID := None, openingUntilUnix := None);
        payloads := payloads - {payloadKey};
        metadata := metadata[metaKey := Timed(meta, at + RETENTION_MS)];
        return ClaimExpired;
      }
      var payloadRaw := Live(Lookup(payloads, payloadKey), at);
      if payloadRaw.None? {
        meta := meta.(status := Expired, openingID := None, openingUntilUnix := None);
        metadata := metadata[metaKey := Timed(meta, at + RETENTION_MS)];
        return ClaimExpired;
      }
      meta := meta.(status := Opening, openingID := Some(claimID), openingUntilUnix := Some(claimUntil));
      metadata := metadata[metaKey := Timed(meta, metadata[metaKey].expiresAt)];
      return ClaimOk(payloadRaw.value);
    }

    method FinalizeOpenSecret(hash: string, at: nat, consumedAtUnix: nat, claimID: string) returns (reply: FinalizeReply)
      modifies this`metadata, this`payloads
      ensures (SlotOf(hash), reply) == Finalize(old(SlotOf(hash)), at, consumedAtUnix, claimID)
      ensures OnlyTouched(hash)
    {
      var metaKey, payloadKey := SecretMetadataKey(hash), SecretPayloadKey(hash);
      var metaRaw := Live(Lookup(metadata, metaKey), at);
      if metaRaw.None? {
        return FinalizeNotFound;
      }
      var meta := metaRaw.value;
      if meta.status.Consumed? {
        return FinalizeConsumed;
      }
      if meta.status.Expired? {
        return FinalizeExpired;
      }
      if meta.status.Deleted? {
        return FinalizeNotFound;
      }
      if !meta.status.Opening? || meta.openingID != Some(claimID) {
        return FinalizeConflict;
      }
      if Live(Lookup(payloads, payloadKey), at).None? {
        meta := meta.(status := Expired, openingID := None, openingUntilUnix := None);
        metadata := metadata[metaKey := Timed(meta, at + RETENTION_MS)];
        return FinalizeExpired;
      }
      meta := meta.(status := Consumed, openingID := None, openingUntilUnix := None);
      meta := meta.(consumedAtUnix := Some(consumedAtUnix), viewCount := meta.viewCount + 1);
      payloads := payloads - {payloadKey};
      metadata := metadata[metaKey := Timed(meta, at + RETENTION_MS)];
      return FinalizeOk(meta);
    }

    method AbortOpenSecret(hash: string, at: nat, now: int, claimID: string) returns (reply: AbortReply)
      modifies this`metadata, this`payloads
      ensures (SlotOf(hash), reply) == Abort(old(SlotOf(hash)), at, now, claimID)
      ensures OnlyTouched(hash)
    {
      var metaKey, payloadKey := SecretMetadataKey(hash), SecretPayloadKey(hash);
      var metaRaw := Live(Lookup(metadata, metaKey), at);
      if metaRaw.None? {
        return AbortNotFound;
      }
      var meta := metaRaw.value;
      if !meta.status.Opening? || meta.openingID != Some(claimID) {
        return AbortIgnored;
      }
      meta := meta.(openingID := None, openingUntilUnix := None);
      if meta.expiresAtUnix <= now {
        meta := meta.(status := Expired);
        payloads := payloads - {payloadKey};
        metadata := metadata[metaKey := Timed(meta, at + RETENTION_MS)];
        return AbortExpired;
      }
      meta := meta.(status := Active);
      metadata := metadata[metaKey := Timed(meta, metadata[metaKey].expiresAt)];
      return AbortOk;
    }

    // ---- Service calls ----

    /**
     * Stores what the protocol starts from, or nothing when the TTL is not positive: the requested seconds, in
     * milliseconds from the store, are the payload's life, and seven days more the metadata's.
     */
    method CreateSecret(hash: string, req: CreateSecretRequest, key: AtRestKey, sampledAt: nat, storedAt: nat) returns (ok: bool)
      requires sampledAt <= storedAt <= sampledAt + OPERATION_TIMEOUT_MS
      modifies this`metadata, this`payloads
      ensures ok <==> (if req.ttlSeconds != 0 then req.ttlSeconds else req.expiresInMinutes * 60) > 0
      ensures ok ==> SlotOf(hash) == Created(Creation(hash, req, key, sampledAt, storedAt)) && OnlyTouched(hash)
      ensures var ttl := if req.ttlSeconds != 0 then req.ttlSeconds else req.expiresInMinutes * 60;
              var theme := if req.theme == "" then "classic-letter" else req.theme;
              ok ==>
                && SlotOf(hash).payload == Some(Timed(
                     Sealed(key, SecretPayload(req.content, req.ciphertext, req.nonce, req.algorithm, sampledAt, sampledAt + 1000 * ttl, true, theme)),
                     storedAt + 1000 * ttl))
                && SlotOf(hash).meta == Some(Timed(
                     Metadata(hash, Active, sampledAt / 1000, (sampledAt + 1000 * ttl) / 1000, None, ttl, 0, true, theme, None, None),
                     storedAt + 1000 * ttl + 604_800_000))
      ensures !ok ==> unchanged(this)
    {
      var ttlSeconds := EffectiveTTLSeconds(req);
      if ttlSeconds <= 0 {
        return false;
      }
      var expiresAt := sampledAt + ttlSeconds * 1000;
      var payload := SecretPayload(req.content, req.ciphertext, req.nonce, req.algorithm, sampledAt, expiresAt, true, EffectiveTheme(req));
      var meta := Metadata(hash, Active, Sec(sampledAt), Sec(expiresAt), None, ttlSeconds, 0, payload.burnAfterRead, payload.theme, None, None);
      var ttl := ttlSeconds * 1000;
      payloads := payloads[SecretPayloadKey(hash) := Timed(Sealed(key, payload), storedAt + ttl)];
      metadata := metadata[SecretMetadataKey(hash) := Timed(meta, storedAt + ttl + RETENTION_MS)];
      return true;
    }

    /**
     * An undisturbed status call: an active secret past its second is marked expired and emptied, anything else is
     * left alone.
     */
    method GetSecretStatus(token: string, hash: string, readAt: nat, clockAt: nat, setAt: nat) returns (r: Result<SecretStatus, OpenError>)
      modifies this`metadata, this`payloads
      ensures !IsValidToken(token) ==> r == Err(InvalidToken)
      ensures var seen := Live(old(SlotOf(hash).meta), readAt);
              var late := seen.Some? && seen.value.status.Active? && seen.value.expiresAtUnix <= Sec(clockAt);
              IsValidToken(token) ==>
                && r == Ok(if seen.None? then StatusMissing else if late then StatusOf(Expired) else StatusOf(seen.value.status))
                && (late ==> SlotOf(hash) == Slot(Some(Timed(seen.value.GoView().(status := Expired), setAt + RETENTION_MS)), None))
                && (!late ==> unchanged(this))
      ensures !IsValidToken(token) ==> unchanged(this)
      ensures OnlyTouched(hash)
    {
      if !IsValidToken(token) {
        return Err(InvalidToken);
      }
      var metaKey := SecretMetadataKey(hash);
      var found := Live(Lookup(metadata, metaKey), readAt);
      if found.None? {
        return Ok(StatusMissing);
      }
      var meta := found.value.GoView();
      if meta.status.Active? && meta.expiresAtUnix <= Sec(clockAt) {
        meta := meta.(status := Expired);
        metadata := metadata[metaKey := Timed(meta, setAt + RETENTION_MS)];
        payloads := payloads - {SecretPayloadKey(hash)};
      }
      return Ok(StatusOf(meta.status));
    }

    /**
     * What an undisturbed open needs: no terminal mark, no live lease, its second not come, and a payload that
     * lasts until finalize.
     */
    ghost predicate Openable(s: Slot, key: AtRestKey, sampledAt: nat, claimRunAt: nat, finalizeRunAt: nat) {
      var meta, payload := Live(s.meta, claimRunAt), Live(s.payload, claimRunAt);
      && meta.Some? && (meta.value.status.Active? || meta.value.status.Opening?)
      && !Leased(meta.value, Sec(sampledAt))
      && Sec(sampledAt) < meta.value.expiresAtUnix
      && payload.Some? && payload.value.key == key
      && Live(s.meta, finalizeRunAt).Some? && Live(s.payload, finalizeRunAt).Some?
    }

    /**
     * An undisturbed open succeeds exactly on an openable secret: it returns what was sealed,
     * burns the payload and leaves consumed metadata. With the wrong key it burns nothing.
     */
    method ConsumeSecret(token: string, hash: string, key: AtRestKey, claimID: string,
                         sampledAt: nat, claimRunAt: nat, decidedAt: nat, secondRunAt: nat)
      returns (r: Result<ConsumeSecretResponse, OpenError>)
      requires sampledAt <= claimRunAt <= decidedAt <= secondRunAt
      modifies this`metadata, this`payloads
      ensures OnlyTouched(hash)
      ensures !IsValidToken(token) ==> r == Err(InvalidToken) && SlotOf(hash) == old(SlotOf(hash))
      ensures IsValidToken(token) ==> (r.Ok? <==> Openable(old(SlotOf(hash)), key, sampledAt, claimRunAt, secondRunAt))
      ensures r.Ok? ==>
                var s := old(SlotOf(hash));
                var p := s.payload.value.value.payload;
                && r.value == ConsumeSecretResponse(p.ciphertext, p.nonce, p.algorithm, p.content, Some(Sec(decidedAt)))
                && SlotOf(hash).payload.None?
                && SlotOf(hash).meta.Some?
                && SlotOf(hash).meta.value.value.status.Consumed?
                && SlotOf(hash).meta.value.value.viewCount == s.meta.value.value.viewCount + 1
      ensures r == Err(DecryptFailed) ==>
                var s := old(SlotOf(hash));
                && s.payload.Some? && s.payload.value.value.key != key && s.meta.Some?
                && (Sec(decidedAt) < s.meta.value.value.expiresAtUnix && secondRunAt <= s.meta.value.expiresAt ==>
                      SlotOf(hash) == s.(meta := Some(Timed(s.meta.value.value.Unclaimed(Active), s.meta.value.expiresAt))))
                && (Sec(decidedAt) >= s.meta.value.value.expiresAtUnix && secondRunAt <= s.meta.value.expiresAt ==>
                      SlotOf(hash) == Slot(Retired(s.meta.value.value, secondRunAt), None))
      ensures IsValidToken(token) ==>
                var s := old(SlotOf(hash));
                var (claimed, reply) := Claim(s, claimRunAt, Sec(sampledAt), claimID, Sec(sampledAt + CLAIM_LEASE_MS));
                var keyFits := reply.ClaimOk? && reply.envelope.key == key;
                && (r == Err(DecryptFailed) <==> reply.ClaimOk? && !keyFits)
                && (r == Err(SecretConsumed) <==> reply.ClaimConsumed?)
                && (r == Err(SecretNotFound) <==> reply.ClaimNotFound? || (keyFits && Live(s.meta, secondRunAt).None?))
                && (r == Err(SecretExpired) <==> reply.ClaimExpired? || (keyFits && Live(s.meta, secondRunAt).Some? && Live(s.payload, secondRunAt).None?))
                && (!reply.ClaimOk? ==> SlotOf(hash) == claimed)
                && (reply.ClaimOk? && Live(s.meta, secondRunAt).Some? ==> SlotOf(hash).meta.Some? && SlotOf(hash).meta.value.value.status != Opening)
      ensures r != Err(Superseded)
    {
      if !IsValidToken(token) {
        return Err(InvalidToken);
      }
      var claim := ClaimOpenSecret(hash, claimRunAt, Sec(sampledAt), claimID, Sec(sampledAt + CLAIM_LEASE_MS));
      match claim
      case ClaimConsumed => return Err(SecretConsumed);
      case ClaimExpired => return Err(SecretExpired);
      case ClaimNotFound => return Err(SecretNotFound);
      case ClaimOk(envelope) =>
        var payload := Unseal(envelope, key);
        if payload.None? {
          var aborted := AbortOpenSecret(hash, secondRunAt, Sec(decidedAt), claimID);
          return Err(DecryptFailed);
        }
        var done := FinalizeOpenSecret(hash, secondRunAt, Sec(decidedAt), claimID);
        match done
        case FinalizeOk(meta) =>
          return Ok(ConsumeSecretResponse(payload.value.ciphertext, payload.value.nonce, payload.value.algorithm, payload.value.content, meta.consumedAtUnix));
        case FinalizeConsumed => return Err(SecretConsumed);
        case FinalizeExpired => return Err(SecretExpired);
        case FinalizeNotFound => return Err(SecretNotFound);
        case FinalizeConflict => return Err(Superseded);
    }

    // ---- Reveal sessions ----

    /**
     * A session is stored exactly when the status call says "active", under the hash of its token; the secret's
     * keys see only that status call.
     */
    method CreateRevealSession(token: string, hash: string, sessionID: string, readAt: nat, clockAt: nat, setAt: nat, now: nat, storedAt: nat)
      returns (r: Result<RevealSessionRecord, OpenError>)
      modifies this
      ensures var seen := Live(old(SlotOf(hash).meta), readAt);
              r.Ok? <==> IsValidToken(token) && seen.Some? && seen.value.status.Active? && Sec(clockAt) < seen.value.expiresAtUnix
      ensures r.Ok? ==>
                && r.value == NewSession(sessionID, hash, now) == RevealSessionRecord(sessionID, hash, true, now / 1000, (now + 900_000) / 1000)
                && sessions == old(sessions)[RevealSessionKey(sessionID) := Timed(r.value, storedAt + 900_000)]
                && metadata == old(metadata) && payloads == old(payloads)
      ensures r.Err? ==> sessions == old(sessions) && OnlyTouched(hash)
      ensures var seen := Live(old(SlotOf(hash).meta), readAt);
              r.Err? ==>
                && (r.error == if !IsValidToken(token) then InvalidToken
                               else if seen.None? || seen.value.status.Deleted? then SecretNotFound
                               else if seen.value.status.Consumed? then SecretConsumed
                               else if seen.value.status.Opening? then Unavailable
                               else SecretExpired)
                && (IsValidToken(token) && seen.Some? && seen.value.status.Active? ==>
                      SlotOf(hash) == Slot(Some(Timed(seen.value.GoView().(status := Expired), setAt + RETENTION_MS)), None))
                && (!IsValidToken(token) || seen.None? || !seen.value.status.Active? ==> metadata == old(metadata) && payloads == old(payloads))
    {
      var status := GetSecretStatus(token, hash, readAt, clockAt, setAt);
      if status.Err? {
        return Err(status.error);
      }
      match status.value
      case StatusMissing => return Err(SecretNotFound);
      case StatusOf(s) =>
        match s
        case Consumed => return Err(SecretConsumed);
        case Expired => return Err(SecretExpired);
        case Deleted => return Err(SecretNotFound);
        case Opening => return Err(Unavailable);
        case Active =>
          var session := NewSession(sessionID, hash, now);
          sessions := sessions[RevealSessionKey(sessionID) := Timed(session, storedAt + REVEAL_SESSION_TTL_MS)];
          return Ok(session);
    }

    /** Passes exactly a live, active session of this token before its last second, and never touches a secret. */
    method ValidateRevealSession(token: string, hash: string, sessionID: string, readAt: nat, now: nat) returns (r: Result<(), OpenError>)
      modifies this`sessions
      ensures var seen := Live(Lookup(old(sessions), RevealSessionKey(sessionID)), readAt);
              && (r.Ok? <==> (sessionID != "" && IsValidToken(token) && seen.Some?
                             && seen.value.tokenHash == hash && seen.value.active && Sec(now) < seen.value.expiresAtUnix))
              && sessions == (if r == Err(SecretExpired) then old(sessions) - {RevealSessionKey(sessionID)} else old(sessions))
              && (r.Err? ==> r.error == if sessionID == "" || !IsValidToken(token) then InvalidToken
                                        else if seen.None? then SecretNotFound
                                        else if seen.value.tokenHash != hash then InvalidToken
                                        else SecretExpired)
    {
      if sessionID == "" {
        return Err(InvalidToken);
      }
      if !IsValidToken(token) {
        return Err(InvalidToken);
      }
      var sessionKey := RevealSessionKey(sessionID);
      var found := Live(Lookup(sessions, sessionKey), readAt);
      if found.None? {
        return Err(SecretNotFound);
      }
      if found.value.tokenHash != hash {
        return Err(InvalidToken);
      }
      if !found.value.active || found.value.expiresAtUnix <= Sec(now) {
        sessions := sessions - {sessionKey};
        return Err(SecretExpired);
      }
      return Ok(());
    }

    /**
     * A session that was created is good for its token for fifteen minutes: checked later, it passes exactly until
     * the second it names and as long as its record is stored, and otherwise fails as expired or not found.
     */
    method CreateThenValidate(token: string, hash: string, sessionID: string, readAt: nat, clockAt: nat, setAt: nat, now: nat, storedAt: nat,
                              checkReadAt: nat, checkNow: nat)
      returns (created: Result<RevealSessionRecord, OpenError>, checked: Result<(), OpenError>)
      requires sessionID != ""
      modifies this
      ensures created.Ok? ==>
                && (checked.Ok? <==> checkReadAt <= storedAt + 900_000 && checkNow / 1000 < (now + 900_000) / 1000)
                && (checked.Err? ==> checked.error == if checkReadAt > storedAt + 900_000 then SecretNotFound else SecretExpired)
      ensures created.Err? ==> checked.Err?
    {
      created := CreateRevealSession(token, hash, sessionID, readAt, clockAt, setAt, now, storedAt);
      if created.Err? {
        return created, Err(created.error);
      }
      assert Lookup(sessions, RevealSessionKey(sessionID)) == Some(Timed(created.value, storedAt + 900_000));
      checked := ValidateRevealSession(token, hash, sessionID, checkReadAt, checkNow);
    }
  }
}
