/**
 * The three open scripts as functions on the two keys of one secret. `at` is the
 * instant Redis runs the script, `now` the second its caller sampled beforehand.
 */
module OpenScripts {
  import opened Basics
  import opened SecretTypes

  datatype Slot = Slot(meta: Option<Timed<Metadata>>, payload: Option<Timed<Envelope>>)

  datatype ClaimReply = ClaimOk(envelope: Envelope) | ClaimConsumed | ClaimExpired | ClaimNotFound
  datatype FinalizeReply = FinalizeOk(meta: Metadata) | FinalizeConsumed | FinalizeExpired | FinalizeNotFound | FinalizeConflict
  datatype AbortReply = AbortOk | AbortExpired | AbortIgnored | AbortNotFound

  /** Somebody holds the secret for opening and the lease has not run out. */
  predicate Leased(m: Metadata, now: int) {
    m.status.Opening? && (if m.openingUntilUnix.Some? then m.openingUntilUnix.value else 0) > now
  }

  predicate HeldBy(m: Metadata, claimID: string) {
    m.status.Opening? && m.openingID == Some(claimID)
  }

  function Retired(m: Metadata, at: nat): Option<Timed<Metadata>> {
    Some(Timed(m.Unclaimed(Expired), at + RETENTION_MS))
  }

  function Claim(s: Slot, at: nat, now: int, claimID: string, until: int): (Slot, ClaimReply) {
    match Live(s.meta, at)
    case None => (s, ClaimNotFound)
    case Some(m) =>
      if m.status.Consumed? || Leased(m, now) then (s, ClaimConsumed)
      else if m.status.Expired? then (s, ClaimExpired)
      else if m.status.Deleted? then (s, ClaimNotFound)
      else if m.expiresAtUnix <= now then (Slot(Retired(m, at), None), ClaimExpired)
      else
        match Live(s.payload, at)
        case None => (s.(meta := Retired(m, at)), ClaimExpired)
        case Some(envelope) =>
          var held := m.(status := Opening, openingID := Some(claimID), openingUntilUnix := Some(until));
          (s.(meta := Some(Timed(held, s.meta.value.expiresAt))), ClaimOk(envelope))
  }

  function Finalize(s: Slot, at: nat, consumedAtUnix: nat, claimID: string): (Slot, FinalizeReply) {
    match Live(s.meta, at)
    case None => (s, FinalizeNotFound)
    case Some(m) =>
      if m.status.Consumed? then (s, FinalizeConsumed)
      else if m.status.Expired? then (s, FinalizeExpired)
      else if m.status.Deleted? then (s, FinalizeNotFound)
      else if !HeldBy(m, claimID) then (s, FinalizeConflict)
      else if Live(s.payload, at).None? then (s.(meta := Retired(m, at)), FinalizeExpired)
      else
        var burnt := m.Unclaimed(Consumed).(consumedAtUnix := Some(consumedAtUnix), viewCount := m.viewCount + 1);
        (Slot(Some(Timed(burnt, at + RETENTION_MS)), None), FinalizeOk(burnt))
  }

  function Abort(s: Slot, at: nat, now: int, claimID: string): (Slot, AbortReply) {
    match Live(s.meta, at)
    case None => (s, AbortNotFound)
    case Some(m) =>
      if !HeldBy(m, claimID) then (s, AbortIgnored)
      else if m.expiresAtUnix <= now then (Slot(Retired(m, at), None), AbortExpired)
      else (s.(meta := Some(Timed(m.Unclaimed(Active), s.meta.value.expiresAt))), AbortOk)
  }

  function Created(c: Creation): Slot
    requires c.Valid()
  {
    Slot(Some(Timed(c.InitialMetadata(), c.PayloadEnd() + RETENTION_MS)), Some(Timed(c.SealedPayload(), c.PayloadEnd())))
  }

  /**
   * Records that no run of the service leaves behind, but that the scripts provide for: a deleted one is answered
   * like a missing one, and a claim with no end, or one that has ended, is open to the next.
   */
  lemma OddRecords(s: Slot, at: nat, now: nat, id: string, until: int)
    requires s.meta.Some? && at <= s.meta.value.expiresAt
    ensures var m := s.meta.value.value;
            && (m.status.Deleted? ==> Claim(s, at, now, id, until) == (s, ClaimNotFound) && Finalize(s, at, now, id) == (s, FinalizeNotFound))
            && (m.status.Opening? && (m.openingUntilUnix.None? || m.openingUntilUnix.value <= now) ==>
                  now < m.expiresAtUnix && s.payload.Some? && at <= s.payload.value.expiresAt ==>
                    Claim(s, at, now, id, until).1 == ClaimOk(s.payload.value.value))
            && (m.status.Opening? && m.openingUntilUnix.Some? && now < m.openingUntilUnix.value ==> Claim(s, at, now, id, until) == (s, ClaimConsumed))
  {
  }

}
