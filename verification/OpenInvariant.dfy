/** The inductive invariant of the protocol and the proof that every step keeps it. */
module OpenInvariant {
  import opened Basics
  import opened SecretTypes
  import opened OpenScripts
  import opened OpenProtocol

  /** The four shapes a record of this secret can take. */
  ghost predicate MetaOk(b: Creation, m: Metadata)
    requires b.Valid()
  {
    var m0 := b.InitialMetadata();
    match m.status
    case Active => m == m0
    case Opening => m.openingID.Some? && m == m0.(status := Opening, openingID := m.openingID, openingUntilUnix := m.openingUntilUnix)
    case Consumed => m == m0.(status := Consumed, viewCount := 1, consumedAtUnix := m.consumedAtUnix)
    case Expired => m == m0.(status := Expired)
    case Deleted => false
  }

  ghost predicate SlotOk(b: Creation, now: nat, slot: Slot, burnt: bool)
    requires b.Valid()
  {
    && (slot.payload.Some? ==> slot.payload.value == Timed(b.SealedPayload(), b.PayloadEnd()))
    && (slot.meta.Some? ==> MetaOk(b, slot.meta.value.value))
    && (!Closed(slot) ==> slot.meta.value.expiresAt == b.PayloadEnd() + RETENTION_MS)
    && (slot.meta.Some? && slot.meta.value.value.status.Consumed? ==> burnt)
    && (burnt ==> Closed(slot) && slot.payload.None?)
    && (!burnt && Sec(now) < b.ExpiresAtUnix() ==> !Closed(slot) && slot.payload.Some?)
    && (Live(slot.payload, now).Some? ==> slot.meta.Some? && b.PayloadEnd() < slot.meta.value.expiresAt)
  }

  /** Whoever holds the secret sent a claim, and its lease ends 30 s after that claim's second. */
  ghost predicate LeaseOk(slot: Slot, openers: map<string, Opener>) {
    slot.meta.Some? && slot.meta.value.value.status.Opening? ==>
      var m := slot.meta.value.value;
      && m.openingID.Some?
      && m.openingID.value in openers
      && openers[m.openingID.value].claimAt.Some?
      && m.openingUntilUnix == Some(Sec(openers[m.openingID.value].claimAt.value) + CLAIM_LEASE_SECONDS)
  }

  /** From its granted claim on, a call keeps the secret until it is closed or its lease has run out. */
  ghost predicate Secure(now: nat, slot: Slot, id: string, o: Opener)
    requires o.claimAt.Some?
  {
    || Closed(slot)
    || HeldBy(slot.meta.value.value, id)
    || LeaseEnd(o) <= now
  }

  /** The first instant whose second is no longer covered by the lease. */
  function LeaseEnd(o: Opener): nat
    requires o.claimAt.Some?
  {
    (Sec(o.claimAt.value) + CLAIM_LEASE_SECONDS) * 1000
  }

  ghost predicate SamplesOk(b: Creation, now: nat, o: Opener) {
    && b.storedAt <= o.start <= now
    && (o.claimAt.Some? ==> o.start <= o.claimAt.value <= now)
    && (o.finalizeAt.Some? ==> o.claimAt.Some? && o.claimAt.value <= o.finalizeAt.value <= now && o.abortAt.None? && o.key == b.key)
    && (o.abortAt.Some? ==> o.claimAt.Some? && o.abortAt.value <= now && o.key != b.key)
  }

  ghost predicate PhaseOk(b: Creation, log: seq<Event>, id: string, o: Opener)
    requires b.Valid()
  {
    match o.phase
    case Begun => o.claimAt.None? && o.finalizeAt.None? && o.abortAt.None?
    case Claiming => o.claimAt.Some? && o.finalizeAt.None? && o.abortAt.None?
    case Claimed(reply) =>
      && o.claimAt.Some? && o.finalizeAt.None? && o.abortAt.None?
      && (reply.ClaimOk? ==> reply.envelope == b.SealedPayload())
    case Finalizing(payload) => o.finalizeAt.Some? && payload == b.Payload()
    case Finalized(payload, reply) =>
      && o.finalizeAt.Some? && payload == b.Payload()
      && (reply.FinalizeOk? ==> OpenedBy(log, id) && reply.meta.consumedAtUnix == Some(Sec(o.finalizeAt.value)))
    case Aborting => o.abortAt.Some?
    case Returned(result) =>
      result.Delivered? ==>
        && o.finalizeAt.Some?
        && OpenedBy(log, id)
        && result.response == ConsumeSecretResponse(b.req.ciphertext, b.req.nonce, b.req.algorithm, b.req.content, Some(Sec(o.finalizeAt.value)))
  }

  ghost predicate OpenerOk(w: World, id: string)
    requires w.born.Valid() && id in w.openers
  {
    var o := w.openers[id];
    && SamplesOk(w.born, w.now, o)
    && PhaseOk(w.born, w.log, id, o)
    && (o.finalizeAt.Some? || (o.phase.Claimed? && o.phase.claimReply.ClaimOk?) ==> Secure(w.now, w.slot, id, o))
    && (ToldSuperseded(o.phase) ==> o.claimAt.Some? && LeaseEnd(o) <= w.now)
  }

  /** The call was told, or has already told its caller, that another claim took over. */
  predicate ToldSuperseded(phase: OpenPhase) {
    (phase.Finalized? && phase.finalizeReply.FinalizeConflict?) || phase == Returned(Failed(Superseded))
  }

  /** What a status call holds of its GET, against the box of that instant and the slot of now. */
  ghost predicate SeenOk(b: Creation, slot: Slot, reader: Reader)
    requires b.Valid()
  {
    match reader.seen
    case None => reader.sawBox != Available
    case Some(m) =>
      && m.openingID.None? && m.openingUntilUnix.None?
      && (m.status.Active? ==> m == b.InitialMetadata())
      && (m.status.Active? || m.status.Opening? ==> Sec(reader.readAt) < b.ExpiresAtUnix() ==> reader.sawBox == Available)
      && (m.status.Consumed? ==> reader.sawBox == Opened && Closed(slot))
      && (m.status.Expired? ==> reader.sawBox != Available && Closed(slot))
      && !m.status.Deleted?
  }

  ghost predicate ReaderOk(w: World, r: nat)
    requires w.born.Valid() && r in w.readers
  {
    var reader := w.readers[r];
    var late := w.born.ExpiresAtUnix() <= Sec(w.now);
    && w.born.storedAt <= reader.readAt <= w.now
    && SeenOk(w.born, w.slot, reader)
    && (reader.overwrite.Some? ==> reader.overwrite.value == w.born.InitialMetadata().(status := Expired) && late)
    && (reader.phase.Overwriting? ==> reader.overwrite.Some?)
    && (reader.deleteSent || reader.phase.Deleting? ==> late && Closed(w.slot))
    && (reader.phase.Answered? ==> AnswerOk(w, reader))
  }

  ghost predicate AnswerOk(w: World, reader: Reader)
    requires reader.phase.Answered?
  {
    match reader.phase.answer
    case StatusNotFound => reader.sawBox != Available
    case StatusIs(s) =>
      && (s.Active? ==> reader.sawBox == Available)
      && (s.Consumed? ==> reader.sawBox == Opened)
      && (s.Expired? ==> Closed(w.slot))
  }

  /** An answer that tells its caller that the secret has expired. */
  ghost predicate SaysExpired(e: Event) {
    match e
    case ClaimRan(_, _, reply) => reply.ClaimExpired?
    case FinalizeRan(_, _, reply) => reply.FinalizeExpired?
    case AbortRan(_, _, reply) => reply.AbortExpired?
    case StatusGiven(_, _, answer) => answer == StatusIs(Expired)
  }

  ghost predicate LogOk(w: World) {
    && (forall i, j :: 0 <= i < |w.log| && 0 <= j < |w.log| && IsOpen(w.log[i]) && IsOpen(w.log[j]) ==> i == j)
    && (forall i, j :: 0 <= i < j < |w.log| && SaysExpired(w.log[i]) ==> !IsOpen(w.log[j]))
    && (forall i :: 0 <= i < |w.log| && SaysExpired(w.log[i]) ==> Closed(w.slot))
    && (forall i :: 0 <= i < |w.log| ==> EventOk(w, w.log[i]))
  }

  ghost predicate EventOk(w: World, e: Event) {
    e.at <= w.now && (e.FinalizeRan? ==>
      && e.claimID in w.openers
      && w.openers[e.claimID].finalizeAt.Some?
      && w.openers[e.claimID].claimAt.Some?
      && w.openers[e.claimID].key == w.born.key
      && (e.finalizeReply.FinalizeOk? ==> w.born.Valid() && e.at <= w.born.PayloadEnd())
      && (e.finalizeReply.FinalizeConflict? ==> LeaseEnd(w.openers[e.claimID]) <= e.at))
  }

  /** The part of the invariant that speaks of the two keys alone. */
  ghost predicate KeysOk(w: World) {
    && w.born.Valid()
    && w.born.storedAt <= w.now
    && SlotOk(w.born, w.now, w.slot, EverOpened(w.log))
  }

  ghost predicate Inv(w: World) {
    && KeysOk(w)
    && LeaseOk(w.slot, w.openers)
    && (forall id :: id in w.openers ==> OpenerOk(w, id))
    && (forall r :: r in w.readers ==> ReaderOk(w, r))
    && LogOk(w)
  }

  lemma InitInv(w: World)
    requires Init(w)
    ensures Inv(w)
  {
  }

  lemma LogAppend(log: seq<Event>, e: Event, id: string)
    ensures EverOpened(log + [e]) == (EverOpened(log) || IsOpen(e))
    ensures OpenedBy(log, id) ==> OpenedBy(log + [e], id)
    ensures IsOpen(e) && e.claimID == id ==> OpenedBy(log + [e], id)
  {
    var more := log + [e];
    assert more[|log|] == e;
    assert forall i :: 0 <= i < |log| ==> more[i] == log[i];
  }

  /** A step that leaves slot and log alone and touches no call keeps what is known of every call. */
  lemma ClockInv(w: World, ms: nat)
    requires Inv(w)
    ensures Inv(Do(w, Tick(ms)))
  {
    var w' := Do(w, Tick(ms));
    assert Sec(w.now) <= Sec(w'.now);
    forall id | id in w'.openers ensures OpenerOk(w', id) {
      assert OpenerOk(w, id);
    }
    forall r | r in w'.readers ensures ReaderOk(w', r) {
      assert ReaderOk(w, r);
    }
    forall i | 0 <= i < |w'.log| ensures EventOk(w', w'.log[i]) {
      assert EventOk(w, w.log[i]);
    }
  }

  lemma DropInv(w: World, step: Step)
    requires Inv(w) && (step.DropMetadata? || step.DropPayload?) && Enabled(w, step)
    ensures Inv(Do(w, step))
  {
    var w' := Do(w, step);
    forall id | id in w'.openers ensures OpenerOk(w', id) {
      assert OpenerOk(w, id);
    }
    forall r | r in w'.readers ensures ReaderOk(w', r) {
      assert ReaderOk(w, r);
    }
    forall i | 0 <= i < |w'.log| ensures EventOk(w', w'.log[i]) {
      assert EventOk(w, w.log[i]);
    }
  }

  /** `o'` is a later state of the call `o`: what was sent stays sent. */
  ghost predicate Later(o: Opener, o': Opener) {
    && o'.key == o.key
    && (o.claimAt.Some? ==> o'.claimAt == o.claimAt)
    && (o.finalizeAt.Some? ==> o'.finalizeAt == o.finalizeAt)
  }

  ghost predicate Touches(w: World, w': World, id: string) {
    && w'.born == w.born && w'.now == w.now && w'.readers == w.readers
    && id in w'.openers
    && w'.openers == w.openers[id := w'.openers[id]]
    && (id in w.openers ==> Later(w.openers[id], w'.openers[id]))
    && |w.log| <= |w'.log| && w'.log[..|w.log|] == w.log
    && (Closed(w.slot) ==> Closed(w'.slot))
  }

  /** Every other call that was secure still is. */
  ghost predicate OthersSecure(w: World, w': World, id: string) {
    forall k :: k in w.openers && k != id && w.openers[k].claimAt.Some? && Secure(w.now, w.slot, k, w.openers[k]) ==>
      Secure(w.now, w'.slot, k, w.openers[k])
  }

  lemma LogPrefix(log: seq<Event>, more: seq<Event>, id: string)
    requires |log| <= |more| && more[..|log|] == log
    ensures OpenedBy(log, id) ==> OpenedBy(more, id)
    ensures EverOpened(log) ==> EverOpened(more)
  {
    assert forall i :: 0 <= i < |log| ==> more[i] == log[i];
  }

  /** A step of one call leaves every other call and every reader as it was. */
  lemma OthersKept(w: World, w': World, id: string)
    requires Inv(w) && Touches(w, w', id)
    requires OthersSecure(w, w', id)
    ensures forall k :: k in w'.openers && k != id ==> OpenerOk(w', k)
    ensures forall r :: r in w'.readers ==> ReaderOk(w', r)
    ensures forall i :: 0 <= i < |w.log| ==> EventOk(w', w'.log[i])
  {
    forall k | k in w'.openers && k != id ensures OpenerOk(w', k) {
      assert OpenerOk(w, k);
      LogPrefix(w.log, w'.log, k);
    }
    forall r | r in w'.readers ensures ReaderOk(w', r) {
      assert ReaderOk(w, r);
    }
    forall i | 0 <= i < |w.log| ensures EventOk(w', w'.log[i]) {
      assert w'.log[i] == w.log[i];
      assert EventOk(w, w.log[i]);
    }
  }

  /** A step that leaves slot and log as they are only has to answer for its own call. */
  lemma QuietInv(w: World, w': World, id: string)
    requires Inv(w) && Touches(w, w', id) && w'.slot == w.slot && w'.log == w.log
    requires OpenerOk(w', id)
    ensures Inv(w')
  {
    OthersKept(w, w', id);
  }

  lemma DecideOk(w: World, id: string)
    requires Inv(w) && Enabled(w, Decide(id))
    ensures OpenerOk(DoDecide(w, id), id)
  {
    assert OpenerOk(w, id);
  }

  lemma ReturnOk(w: World, id: string)
    requires Inv(w) && Enabled(w, Return(id))
    ensures OpenerOk(DoReturn(w, id), id)
  {
    assert OpenerOk(w, id);
  }

  lemma BeginOk(w: World, id: string, key: AtRestKey)
    requires Inv(w) && Enabled(w, BeginOpen(id, key))
    ensures OpenerOk(DoBegin(w, id, key), id)
  {
  }

  lemma SendOk(w: World, id: string)
    requires Inv(w) && Enabled(w, SendClaim(id))
    ensures OpenerOk(DoSend(w, id), id)
  {
    assert OpenerOk(w, id);
  }

  lemma GiveUpOk(w: World, id: string)
    requires Inv(w) && Enabled(w, GiveUp(id))
    ensures OpenerOk(DoGiveUp(w, id), id)
  {
    assert OpenerOk(w, id);
  }

  /** The steps a call takes by itself, without Redis. */
  predicate IsLocal(step: Step) {
    step.BeginOpen? || step.SendClaim? || step.Decide? || step.Return? || step.GiveUp?
  }

  lemma LocalOk(w: World, step: Step)
    requires Inv(w) && Enabled(w, step) && IsLocal(step)
    ensures step.claimID in Do(w, step).openers && OpenerOk(Do(w, step), step.claimID)
  {
    match step
    case BeginOpen(id, key) => BeginOk(w, id, key);
    case SendClaim(id) => SendOk(w, id);
    case Decide(id) => DecideOk(w, id);
    case Return(id) => ReturnOk(w, id);
    case GiveUp(id) => GiveUpOk(w, id);
  }

  lemma LocalTouches(w: World, step: Step)
    requires Inv(w) && Enabled(w, step) && IsLocal(step)
    ensures var w' := Do(w, step); Touches(w, w', step.claimID) && w'.slot == w.slot && w'.log == w.log
  {
    assert step.claimID in w.openers ==> OpenerOk(w, step.claimID);
  }

  lemma LocalInv(w: World, step: Step)
    requires Inv(w) && Enabled(w, step) && IsLocal(step)
    ensures Inv(Do(w, step))
  {
    LocalOk(w, step);
    LocalTouches(w, step);
    QuietInv(w, Do(w, step), step.claimID);
  }

  /** What a claim whose sample is not in the future does to the slot. */
  lemma ClaimSlot(b: Creation, at: nat, s: Slot, burnt: bool, now: nat, id: string, until: int)
    requires b.Valid() && b.storedAt <= at && now <= Sec(at) && SlotOk(b, at, s, burnt)
    ensures var (s', reply) := Claim(s, at, now, id, until);
            && SlotOk(b, at, s', burnt)
            && (Closed(s) ==> Closed(s'))
            && (reply.ClaimOk? ==> reply.envelope == b.SealedPayload())
            && (reply.ClaimExpired? ==> Closed(s'))
  {
  }

  /** The slot is as it was, or closed, or newly held by this claim. */
  lemma ClaimHolder(s: Slot, at: nat, now: nat, id: string, until: int)
    ensures var (s', reply) := Claim(s, at, now, id, until);
            || (s' == s && !reply.ClaimOk?)
            || (Closed(s') && !reply.ClaimOk?)
            || (s'.meta.Some? && HeldBy(s'.meta.value.value, id) && s'.meta.value.value.openingUntilUnix == Some(until)
                && s.meta.Some? && !Leased(s.meta.value.value, now))
  {
  }

  /** A claim that takes the secret over does so only from a lease that has run out. */
  lemma ClaimRespects(w: World, id: string, delivered: bool, k: string)
    requires LeaseOk(w.slot, w.openers) && Enabled(w, RunClaim(id, delivered)) && w.openers[id].claimAt.value <= w.now
    requires k in w.openers && w.openers[k].claimAt.Some? && Secure(w.now, w.slot, k, w.openers[k])
    ensures Secure(w.now, DoClaim(w, id, delivered).slot, k, w.openers[k])
  {
    var sampled := w.openers[id].claimAt.value;
    assert Sec(sampled) <= Sec(w.now);
    ClaimHolder(w.slot, w.now, Sec(sampled), id, Sec(sampled + CLAIM_LEASE_MS));
  }

  lemma ClaimLease(w: World, id: string, delivered: bool)
    requires LeaseOk(w.slot, w.openers) && Enabled(w, RunClaim(id, delivered))
    ensures var w' := DoClaim(w, id, delivered);
            LeaseOk(w'.slot, w'.openers)
  {
    var sampled := w.openers[id].claimAt.value;
    ClaimHolder(w.slot, w.now, Sec(sampled), id, Sec(sampled + CLAIM_LEASE_MS));
  }

  lemma ClaimOpener(w: World, id: string, delivered: bool)
    requires KeysOk(w) && LeaseOk(w.slot, w.openers) && Enabled(w, RunClaim(id, delivered)) && OpenerOk(w, id)
    ensures OpenerOk(DoClaim(w, id, delivered), id)
  {
    var w' := DoClaim(w, id, delivered);
    var sampled := w.openers[id].claimAt.value;
    ClaimSlot(w.born, w.now, w.slot, EverOpened(w.log), Sec(sampled), id, Sec(sampled + CLAIM_LEASE_MS));
    ClaimHolder(w.slot, w.now, Sec(sampled), id, Sec(sampled + CLAIM_LEASE_MS));
    LogPrefix(w.log, w'.log, id);
    if Secure(w.now, w.slot, id, w.openers[id]) {
      ClaimRespects(w, id, delivered, id);
    }
  }

  lemma ClaimEffect(w: World, id: string, delivered: bool)
    requires KeysOk(w) && Enabled(w, RunClaim(id, delivered)) && w.openers[id].claimAt.value <= w.now
    ensures var w' := DoClaim(w, id, delivered);
            && Touches(w, w', id)
            && SlotOk(w.born, w.now, w'.slot, EverOpened(w.log))
            && |w'.log| == |w.log| + 1 && w'.log == w.log + [w'.log[|w.log|]]
            && w'.log[|w.log|].ClaimRan? && w'.log[|w.log|].at == w.now
            && (SaysExpired(w'.log[|w.log|]) ==> Closed(w'.slot))
  {
    var sampled := w.openers[id].claimAt.value;
    ClaimSlot(w.born, w.now, w.slot, EverOpened(w.log), Sec(sampled), id, Sec(sampled + CLAIM_LEASE_MS));
  }

  lemma ClaimInv(w: World, id: string, delivered: bool)
    requires Inv(w) && Enabled(w, RunClaim(id, delivered))
    ensures Inv(DoClaim(w, id, delivered))
  {
    var w' := DoClaim(w, id, delivered);
    assert OpenerOk(w, id);
    ClaimEffect(w, id, delivered);
    ClaimLease(w, id, delivered);
    ClaimOpener(w, id, delivered);
    forall k | k in w.openers && k != id && w.openers[k].claimAt.Some? && Secure(w.now, w.slot, k, w.openers[k])
      ensures Secure(w.now, w'.slot, k, w.openers[k])
    {
      ClaimRespects(w, id, delivered, k);
    }
    AssembleInv(w, w', id, w'.log[|w.log|]);
  }

  /** A log stays in order when an open comes first and an "expired" answer leaves the slot closed. */
  lemma LogGrows(w: World, w': World, e: Event)
    requires LogOk(w) && w'.log == w.log + [e]
    requires EverOpened(w.log) ==> Closed(w.slot)
    requires IsOpen(e) ==> !Closed(w.slot)
    requires SaysExpired(e) || Closed(w.slot) ==> Closed(w'.slot)
    requires forall i :: 0 <= i < |w.log| ==> EventOk(w', w'.log[i])
    requires EventOk(w', e)
    ensures LogOk(w')
  {
    assert forall i :: 0 <= i < |w.log| ==> w'.log[i] == w.log[i];
    assert w'.log[|w.log|] == e;
  }

  /** A script run: the slot lemma, the acting call and the new event make up the invariant. */
  lemma AssembleInv(w: World, w': World, id: string, e: Event)
    requires Inv(w) && Touches(w, w', id) && w'.log == w.log + [e]
    requires SlotOk(w.born, w.now, w'.slot, EverOpened(w.log) || IsOpen(e))
    requires LeaseOk(w'.slot, w'.openers)
    requires OthersSecure(w, w', id)
    requires OpenerOk(w', id)
    requires IsOpen(e) ==> !Closed(w.slot)
    requires SaysExpired(e) ==> Closed(w'.slot)
    requires EventOk(w', e)
    ensures Inv(w')
  {
    LogAppend(w.log, e, id);
    OthersKept(w, w', id);
    LogGrows(w, w', e);
  }

  lemma FinalizeSlot(b: Creation, at: nat, s: Slot, burnt: bool, consumedAt: nat, id: string)
    requires b.Valid() && b.storedAt <= at && SlotOk(b, at, s, burnt)
    ensures var (s', reply) := Finalize(s, at, consumedAt, id);
            && SlotOk(b, at, s', burnt || reply.FinalizeOk?)
            && (s' == s || Closed(s'))
            && (reply.FinalizeOk? ==> HeldBy(s.meta.value.value, id) && at <= b.PayloadEnd() && reply.meta.consumedAtUnix == Some(consumedAt))
            && (reply.FinalizeExpired? ==> Closed(s'))
            && (reply.FinalizeConflict? ==> !Closed(s) && !HeldBy(s.meta.value.value, id))
  {
  }

  lemma FinalizeOpener(w: World, id: string, delivered: bool)
    requires KeysOk(w) && Enabled(w, RunFinalize(id, delivered)) && OpenerOk(w, id)
    ensures OpenerOk(DoFinalize(w, id, delivered), id)
  {
    var w' := DoFinalize(w, id, delivered);
    var o := w.openers[id];
    FinalizeSlot(w.born, w.now, w.slot, EverOpened(w.log), Sec(o.finalizeAt.value), id);
    LogPrefix(w.log, w'.log, id);
    LogAppend(w.log, w'.log[|w.log|], id);
  }

  lemma FinalizeEffect(w: World, id: string, delivered: bool)
    requires KeysOk(w) && LeaseOk(w.slot, w.openers) && Enabled(w, RunFinalize(id, delivered))
    ensures var w' := DoFinalize(w, id, delivered);
            var reply := w'.log[|w.log|].finalizeReply;
            && Touches(w, w', id) && (w'.slot == w.slot || Closed(w'.slot))
            && SlotOk(w.born, w.now, w'.slot, EverOpened(w.log) || reply.FinalizeOk?) && LeaseOk(w'.slot, w'.openers)
            && (reply.FinalizeOk? ==> !Closed(w.slot) && w.now <= w.born.PayloadEnd())
            && (reply.FinalizeExpired? ==> Closed(w'.slot))
            && (reply.FinalizeConflict? ==> !Closed(w.slot) && !HeldBy(w.slot.meta.value.value, id))
  {
    FinalizeSlot(w.born, w.now, w.slot, EverOpened(w.log), Sec(w.openers[id].finalizeAt.value), id);
  }

  lemma FinalizeInv(w: World, id: string, delivered: bool)
    requires Inv(w) && Enabled(w, RunFinalize(id, delivered))
    ensures Inv(DoFinalize(w, id, delivered))
  {
    var w' := DoFinalize(w, id, delivered);
    assert OpenerOk(w, id);
    FinalizeEffect(w, id, delivered);
    FinalizeOpener(w, id, delivered);
    AssembleInv(w, w', id, w'.log[|w.log|]);
  }

  lemma AbortSlot(b: Creation, at: nat, s: Slot, burnt: bool, now: nat, id: string)
    requires b.Valid() && b.storedAt <= at && now <= Sec(at) && SlotOk(b, at, s, burnt)
    ensures var (s', reply) := Abort(s, at, now, id);
            && SlotOk(b, at, s', burnt)
            && (s' == s || Closed(s') || (!Closed(s) && HeldBy(s.meta.value.value, id) && s'.meta.Some? && s'.meta.value.value.status.Active?))
            && (reply.AbortExpired? ==> Closed(s'))
            && (Closed(s) ==> s' == s)
  {
  }

  lemma AbortOpener(w: World, id: string, delivered: bool)
    requires KeysOk(w) && Enabled(w, RunAbort(id, delivered)) && OpenerOk(w, id)
    ensures OpenerOk(DoAbort(w, id, delivered), id)
  {
    LogPrefix(w.log, DoAbort(w, id, delivered).log, id);
  }

  /** An abort releases its own claim only. */
  lemma AbortEffect(w: World, id: string, delivered: bool)
    requires KeysOk(w) && LeaseOk(w.slot, w.openers) && Enabled(w, RunAbort(id, delivered)) && w.openers[id].abortAt.value <= w.now
    ensures var w' := DoAbort(w, id, delivered);
            && Touches(w, w', id)
            && SlotOk(w.born, w.now, w'.slot, EverOpened(w.log)) && LeaseOk(w'.slot, w'.openers)
            && OthersSecure(w, w', id)
  {
    AbortSlot(w.born, w.now, w.slot, EverOpened(w.log), Sec(w.openers[id].abortAt.value), id);
  }

  lemma AbortInv(w: World, id: string, delivered: bool)
    requires Inv(w) && Enabled(w, RunAbort(id, delivered))
    ensures Inv(DoAbort(w, id, delivered))
  {
    var w' := DoAbort(w, id, delivered);
    assert OpenerOk(w, id);
    AbortEffect(w, id, delivered);
    AbortOpener(w, id, delivered);
    AbortSlot(w.born, w.now, w.slot, EverOpened(w.log), Sec(w.openers[id].abortAt.value), id);
    AssembleInv(w, w', id, w'.log[|w.log|]);
  }

  /** A step of one status call leaves every open call and every other reader as it was. */
  lemma ReaderInv(w: World, w': World, r: nat, more: seq<Event>)
    requires Inv(w)
    requires w'.born == w.born && w'.now == w.now && w'.openers == w.openers && r in w'.readers
    requires w'.readers == w.readers[r := w'.readers[r]]
    requires w'.slot == w.slot || Closed(w'.slot)
    requires SlotOk(w'.born, w'.now, w'.slot, EverOpened(w.log)) && LeaseOk(w'.slot, w'.openers)
    requires w'.log == w.log + more && |more| <= 1
    requires forall e :: e in more ==> e.StatusGiven? && EventOk(w', e) && (SaysExpired(e) ==> Closed(w'.slot))
    requires ReaderOk(w', r)
    ensures Inv(w')
  {
    forall id | id in w'.openers ensures OpenerOk(w', id) {
      assert OpenerOk(w, id);
      LogPrefix(w.log, w'.log, id);
    }
    forall k | k in w'.readers && k != r ensures ReaderOk(w', k) {
      assert ReaderOk(w, k);
    }
    forall i | 0 <= i < |w.log| ensures EventOk(w', w'.log[i]) {
      assert w'.log[i] == w.log[i] && EventOk(w, w.log[i]);
    }
    ReaderLog(w, w', more);
  }

  lemma ReaderLog(w: World, w': World, more: seq<Event>)
    requires LogOk(w) && (EverOpened(w.log) ==> Closed(w.slot)) && (Closed(w.slot) ==> Closed(w'.slot))
    requires w'.log == w.log + more && |more| <= 1
    requires forall e :: e in more ==> e.StatusGiven? && EventOk(w', e) && (SaysExpired(e) ==> Closed(w'.slot))
    requires forall i :: 0 <= i < |w.log| ==> EventOk(w', w'.log[i])
    ensures LogOk(w') && EverOpened(w'.log) == EverOpened(w.log)
  {
    if |more| == 1 {
      assert more == [more[0]] && more[0] in more && !IsOpen(more[0]);
      LogAppend(w.log, more[0], "");
      LogGrows(w, w', more[0]);
    } else {
      assert w'.log == w.log;
    }
  }

  lemma ReadInv(w: World, r: nat)
    requires Inv(w) && Enabled(w, ReadStatus(r))
    ensures Inv(DoRead(w, r))
  {
    var w' := DoRead(w, r);
    assert SeenOk(w.born, w.slot, w'.readers[r]);
    ReaderInv(w, w', r, []);
  }

  /** Giving an answer that fits what was seen keeps the invariant. */
  lemma GiveInv(w: World, r: nat, answer: StatusAnswer)
    requires Inv(w) && r in w.readers
    requires AnswerOk(w, w.readers[r].(phase := Answered(answer)))
    ensures Inv(Answer(w, r, answer))
  {
    var w' := Answer(w, r, answer);
    assert ReaderOk(w, r);
    ReaderInv(w, w', r, [StatusGiven(r, w.now, answer)]);
  }

  lemma CheckInv(w: World, r: nat)
    requires Inv(w) && Enabled(w, CheckClock(r))
    ensures Inv(DoCheck(w, r))
  {
    var reader := w.readers[r];
    assert ReaderOk(w, r);
    match reader.seen
    case None => GiveInv(w, r, StatusNotFound);
    case Some(m) =>
      if m.status.Active? && m.expiresAtUnix <= Sec(w.now) {
        ReaderInv(w, DoCheck(w, r), r, []);
      } else {
        GiveInv(w, r, StatusIs(m.status));
      }
  }

  lemma AnswerInv(w: World, step: Step)
    requires Inv(w) && Enabled(w, step) && (step.AnswerAnyway? || step.FailStatus?)
    ensures Inv(Do(w, step))
  {
    assert ReaderOk(w, step.reader);
    ReaderInv(w, Do(w, step), step.reader, if step.AnswerAnyway? then [StatusGiven(step.reader, w.now, StatusIs(Expired))] else []);
  }

  lemma OverwriteInv(w: World, r: nat, delivered: bool)
    requires Inv(w) && Enabled(w, RunOverwrite(r, delivered))
    ensures Inv(DoOverwrite(w, r, delivered))
  {
    assert ReaderOk(w, r);
    ReaderInv(w, DoOverwrite(w, r, delivered), r, []);
  }

  lemma DeleteInv(w: World, r: nat, delivered: bool)
    requires Inv(w) && Enabled(w, RunDelete(r, delivered))
    ensures Inv(DoDelete(w, r, delivered))
  {
    var emptied := w.(slot := w.slot.(payload := None));
    assert ReaderOk(w, r);
    assert emptied.readers == w.readers[r := w.readers[r]];
    ReaderInv(w, emptied, r, []);
    if delivered && w.readers[r].phase.Deleting? {
      GiveInv(emptied, r, StatusIs(Expired));
    }
  }

  /** Every step of every process keeps the invariant. */
  lemma StepInv(w: World, step: Step)
    requires Inv(w) && Enabled(w, step)
    ensures Inv(Do(w, step))
  {
    match step
    case Tick(ms) => ClockInv(w, ms);
    case DropMetadata => DropInv(w, step);
    case DropPayload => DropInv(w, step);
    case BeginOpen(_, _) => LocalInv(w, step);
    case SendClaim(_) => LocalInv(w, step);
    case RunClaim(id, delivered) => ClaimInv(w, id, delivered);
    case Decide(_) => LocalInv(w, step);
    case RunFinalize(id, delivered) => FinalizeInv(w, id, delivered);
    case RunAbort(id, delivered) => AbortInv(w, id, delivered);
    case Return(_) => LocalInv(w, step);
    case GiveUp(_) => LocalInv(w, step);
    case ReadStatus(r) => ReadInv(w, r);
    case CheckClock(r) => CheckInv(w, r);
    case RunOverwrite(r, delivered) => OverwriteInv(w, r, delivered);
    case RunDelete(r, delivered) => DeleteInv(w, r, delivered);
    case AnswerAnyway(_) => AnswerInv(w, step);
    case FailStatus(_) => AnswerInv(w, step);
  }

  lemma {:induction false} RunInv(run: seq<World>, steps: seq<Step>, i: nat)
    requires Run(run, steps) && i < |run|
    ensures Inv(run[i])
  {
    if i == 0 {
      InitInv(run[0]);
    } else {
      RunInv(run, steps, i - 1);
      StepInv(run[i - 1], steps[i - 1]);
    }
  }

  ghost predicate KeptByAll(kept: World -> bool) {
    forall w, step :: Inv(w) && Enabled(w, step) && kept(w) ==> kept(Do(w, step))
  }

  lemma KeptNext(run: seq<World>, steps: seq<Step>, kept: World -> bool, n: nat)
    requires Run(run, steps) && KeptByAll(kept) && n < |steps| && kept(run[n])
    ensures kept(run[n + 1])
  {
    RunInv(run, steps, n);
  }

  lemma {:induction false} KeptAlong(run: seq<World>, kept: World -> bool, i: nat, j: nat)
    requires i <= j < |run| && kept(run[i])
    requires forall n :: i <= n < j && kept(run[n]) ==> kept(run[n + 1])
    ensures kept(run[j])
  {
    if i < j {
      KeptAlong(run, kept, i, j - 1);
    }
  }

  /** What every step keeps holds from any state of a run on. */
  lemma RunKeeps(run: seq<World>, steps: seq<Step>, kept: World -> bool, i: nat, j: nat)
    requires Run(run, steps) && i <= j < |run| && kept(run[i]) && KeptByAll(kept)
    ensures kept(run[j])
  {
    forall n | i <= n < j && kept(run[n]) ensures kept(run[n + 1]) {
      KeptNext(run, steps, kept, n);
    }
    KeptAlong(run, kept, i, j);
  }

  lemma {:induction false} RunBorn(run: seq<World>, steps: seq<Step>, i: nat)
    requires Run(run, steps) && i < |run|
    ensures run[i].born == run[0].born
  {
    if i > 0 {
      RunBorn(run, steps, i - 1);
    }
  }
}
