/** What stays possible: abort undoes a claim, and an unexpired secret can always be opened again. */
module OpenLiveness {
  import opened Basics
  import opened SecretTypes
  import opened OpenScripts
  import opened OpenProtocol
  import opened OpenInvariant

  // ---- Abort undoes claim ----

  /** A script run by somebody else, or by a retry, while the secret is held. */
  datatype Intrusion =
    | ClaimTry(at: nat, now: int, claimID: string, until: int)
    | FinalizeTry(at: nat, consumedAtUnix: nat, claimID: string)
    | AbortTry(at: nat, now: int, claimID: string)

  function Intrude(s: Slot, i: Intrusion): Slot {
    match i
    case ClaimTry(at, now, id, until) => Claim(s, at, now, id, until).0
    case FinalizeTry(at, consumedAt, id) => Finalize(s, at, consumedAt, id).0
    case AbortTry(at, now, id) => Abort(s, at, now, id).0
  }

  function IntrudeAll(s: Slot, intrusions: seq<Intrusion>): Slot
    decreases |intrusions|
  {
    if intrusions == [] then s else IntrudeAll(Intrude(s, intrusions[0]), intrusions[1..])
  }

  /** A claim sampled within the holder's lease, or a finalize or abort under another claim id. */
  predicate Harmless(i: Intrusion, holder: string, until: int, metaEnd: nat) {
    i.at <= metaEnd && (if i.ClaimTry? then i.now < until else i.claimID != holder)
  }

  lemma {:induction false} IntrusionsLeave(s: Slot, intrusions: seq<Intrusion>, holder: string, until: int)
    requires s.meta.Some? && HeldBy(s.meta.value.value, holder) && s.meta.value.value.openingUntilUnix == Some(until)
    requires forall i :: i in intrusions ==> Harmless(i, holder, until, s.meta.value.expiresAt)
    ensures IntrudeAll(s, intrusions) == s
  {
    if intrusions != [] {
      assert intrusions[0] in intrusions;
      assert Intrude(s, intrusions[0]) == s;
      IntrusionsLeave(s, intrusions[1..], holder, until);
    }
  }

  /**
   * Claim, any number of refused intrusions, abort: metadata, payload and both TTLs are as before the claim, a
   * stale claim aside.
   */
  lemma AbortUndoesClaim(s: Slot, at: nat, now: int, id: string, until: int, intrusions: seq<Intrusion>, later: nat, abortNow: int)
    requires Claim(s, at, now, id, until).1.ClaimOk?
    requires forall i :: i in intrusions ==> Harmless(i, id, until, s.meta.value.expiresAt)
    requires later <= s.meta.value.expiresAt && abortNow < s.meta.value.value.expiresAtUnix
    ensures var (s', reply) := Abort(IntrudeAll(Claim(s, at, now, id, until).0, intrusions), later, abortNow, id);
            && reply.AbortOk?
            && s' == s.(meta := Some(Timed(s.meta.value.value.Unclaimed(Active), s.meta.value.expiresAt)))
            && (s.meta.value.value == s.meta.value.value.Unclaimed(Active) ==> s' == s)
  {
    IntrusionsLeave(Claim(s, at, now, id, until).0, intrusions, id, until);
  }

  // ---- Recovery ----

  /** Nobody's lease covers the second of this instant. */
  predicate ClaimableAt(w: World, at: nat) {
    w.slot.meta.Some? && !Leased(w.slot.meta.value.value, Sec(at))
  }

  predicate Claimable(w: World) {
    ClaimableAt(w, w.now)
  }

  /** Unopened, and its second has not come. */
  ghost predicate Fresh(w: World) {
    Inv(w) && !EverOpened(w.log) && Sec(w.now) < w.born.ExpiresAtUnix()
  }

  lemma DoCons(w: World, step: Step, rest: seq<Step>)
    requires Enabled(w, step) && CanDo(Do(w, step), rest)
    ensures CanDo(w, [step] + rest) && DoAll(w, [step] + rest) == DoAll(Do(w, step), rest)
  {
    assert ([step] + rest)[1..] == rest;
  }

  lemma DoOne(w: World, step: Step)
    requires Enabled(w, step)
    ensures CanDo(w, [step]) && DoAll(w, [step]) == Do(w, step)
  {
    assert [step] + [] == [step];
    DoCons(w, step, []);
  }

  lemma {:induction false} DoAppend(w: World, first: seq<Step>, rest: seq<Step>)
    requires CanDo(w, first) && CanDo(DoAll(w, first), rest)
    ensures CanDo(w, first + rest) && DoAll(w, first + rest) == DoAll(DoAll(w, first), rest)
    decreases |first|
  {
    if first == [] {
      assert first + rest == rest;
    } else {
      DoAppend(Do(w, first[0]), first[1..], rest);
      DoCons(w, first[0], first[1..] + rest);
      assert first + rest == [first[0]] + (first[1..] + rest);
    }
  }

  lemma {:induction false} DoSplit(w: World, first: seq<Step>, rest: seq<Step>)
    requires CanDo(w, first + rest)
    ensures CanDo(w, first) && CanDo(DoAll(w, first), rest)
    ensures DoAll(w, first + rest) == DoAll(DoAll(w, first), rest)
    decreases |first|
  {
    if first == [] {
      assert first + rest == rest;
    } else {
      assert (first + rest)[1..] == first[1..] + rest;
      DoSplit(Do(w, first[0]), first[1..], rest);
    }
  }

  lemma {:induction false} InvDoAll(w: World, steps: seq<Step>)
    requires Inv(w) && CanDo(w, steps)
    ensures Inv(DoAll(w, steps)) && DoAll(w, steps).born == w.born && w.now <= DoAll(w, steps).now
    decreases |steps|
  {
    if steps != [] {
      StepInv(w, steps[0]);
      StepFrame(w, steps[0]);
      InvDoAll(Do(w, steps[0]), steps[1..]);
    }
  }

  lemma StepFrame(w: World, step: Step)
    requires Enabled(w, step)
    ensures Do(w, step).born == w.born && w.now <= Do(w, step).now
  {
  }

  /** How long a call takes from each of its steps to the next. */
  datatype Pace = Pace(toSend: nat, toClaim: nat, toDecide: nat, toSettle: nat, toReturn: nat)

  function SendSteps(id: string, key: AtRestKey, pace: Pace): seq<Step> {
    [BeginOpen(id, key)] + ([Tick(pace.toSend)] + ([SendClaim(id)] + [Tick(pace.toClaim)]))
  }

  function ClaimSteps(id: string, key: AtRestKey, pace: Pace): seq<Step> {
    SendSteps(id, key, pace) + [RunClaim(id, true)]
  }

  function BurnSteps(id: string, toReturn: nat): seq<Step> {
    [RunFinalize(id, true)] + ([Tick(toReturn)] + [Return(id)])
  }

  function OpenSteps(id: string, pace: Pace): seq<Step> {
    [Tick(pace.toDecide)] + ([Decide(id)] + ([Tick(pace.toSettle)] + BurnSteps(id, pace.toReturn)))
  }

  /** The record that a claim sampled at `sampled` leaves. */
  function Held(meta: Timed<Metadata>, id: string, sampled: nat): Option<Timed<Metadata>> {
    Some(Timed(meta.value.(status := Opening, openingID := Some(id), openingUntilUnix := Some(Sec(sampled) + CLAIM_LEASE_SECONDS)), meta.expiresAt))
  }

  /** The claim script grants a fresh secret that is claimable, in its time, at the instant the caller sampled. */
  lemma GrantSlot(b: Creation, from: nat, slot: Slot, sampled: nat, at: nat, id: string)
    requires b.Valid() && b.storedAt <= from <= sampled <= at <= b.PayloadEnd()
    requires SlotOk(b, from, slot, false) && Sec(from) < b.ExpiresAtUnix() && Sec(sampled) < b.ExpiresAtUnix()
    requires slot.meta.Some? && !Leased(slot.meta.value.value, Sec(sampled))
    ensures Claim(slot, at, Sec(sampled), id, Sec(sampled + CLAIM_LEASE_MS)) == (slot.(meta := Held(slot.meta.value, id, sampled)), ClaimOk(b.SealedPayload()))
  {
  }

  function GrantedOpener(w: World, key: AtRestKey, sampled: nat): Opener
    requires w.born.Valid()
  {
    Opener(w.now, key, Some(sampled), None, None, Claimed(ClaimOk(w.born.SealedPayload())))
  }

  /** The call can sample its clock while the secret is fresh and claimable, and reach Redis while the payload lasts. */
  ghost predicate MayClaim(w: World, id: string, pace: Pace) {
    && Fresh(w) && id !in w.openers
    && ClaimableAt(w, w.now + pace.toSend)
    && Sec(w.now + pace.toSend) < w.born.ExpiresAtUnix()
    && w.now + pace.toSend + pace.toClaim <= w.born.PayloadEnd()
  }

  /** An undisturbed claim on a fresh, claimable secret is granted the payload and nothing but the claim changes. */
  lemma ClaimGranted(w: World, id: string, key: AtRestKey, pace: Pace)
    requires MayClaim(w, id, pace)
    ensures CanDo(w, ClaimSteps(id, key, pace))
    ensures var w' := DoAll(w, ClaimSteps(id, key, pace)); var sampled := w.now + pace.toSend;
            && w'.born == w.born && w'.now == sampled + pace.toClaim && w'.readers == w.readers
            && w'.slot == w.slot.(meta := Held(w.slot.meta.value, id, sampled))
            && EverOpened(w'.log) == EverOpened(w.log)
            && w'.openers == w.openers[id := GrantedOpener(w, key, sampled)]
  {
    var sent := Sent(w, id, key, pace);
    SendReaches(w, id, key, pace);
    SentIsGranted(w, id, key, pace);
    DoOne(sent, RunClaim(id, true));
    DoAppend(w, SendSteps(id, key, pace), [RunClaim(id, true)]);
  }

  /** The world as the claim of an undisturbed call reaches Redis. */
  function Sent(w: World, id: string, key: AtRestKey, pace: Pace): World {
    w.(now := w.now + pace.toSend + pace.toClaim,
       openers := w.openers[id := Opener(w.now, key, Some(w.now + pace.toSend), None, None, Claiming)])
  }

  lemma SendReaches(w: World, id: string, key: AtRestKey, pace: Pace)
    requires id !in w.openers
    ensures CanDo(w, SendSteps(id, key, pace)) && DoAll(w, SendSteps(id, key, pace)) == Sent(w, id, key, pace)
  {
    var w1 := DoBegin(w, id, key);
    var w2 := Do(w1, Tick(pace.toSend));
    var w3 := DoSend(w2, id);
    DoOne(w3, Tick(pace.toClaim));
    DoCons(w2, SendClaim(id), [Tick(pace.toClaim)]);
    DoCons(w1, Tick(pace.toSend), [SendClaim(id)] + [Tick(pace.toClaim)]);
    DoCons(w, BeginOpen(id, key), [Tick(pace.toSend)] + ([SendClaim(id)] + [Tick(pace.toClaim)]));
  }

  lemma SentIsGranted(w: World, id: string, key: AtRestKey, pace: Pace)
    requires MayClaim(w, id, pace)
    ensures var sampled := w.now + pace.toSend; var w' := DoClaim(Sent(w, id, key, pace), id, true);
            && w'.slot == w.slot.(meta := Held(w.slot.meta.value, id, sampled))
            && w'.openers == w.openers[id := GrantedOpener(w, key, sampled)]
            && EverOpened(w'.log) == EverOpened(w.log)
  {
    var sampled := w.now + pace.toSend;
    GrantSlot(w.born, w.now, w.slot, sampled, sampled + pace.toClaim, id);
    LogAppend(w.log, ClaimRan(id, sampled + pace.toClaim, ClaimOk(w.born.SealedPayload())), id);
  }

  /** A holder that finalizes while the payload lasts returns the secret. */
  lemma FinalizeDelivers(w: World, id: string, toReturn: nat)
    requires w.born.Valid() && id in w.openers && w.openers[id].finalizeAt.Some? && w.openers[id].phase == Finalizing(w.born.Payload())
    requires w.slot.meta.Some? && HeldBy(w.slot.meta.value.value, id) && w.born.PayloadEnd() < w.slot.meta.value.expiresAt
    requires w.slot.payload == Some(Timed(w.born.SealedPayload(), w.born.PayloadEnd())) && w.now <= w.born.PayloadEnd()
    ensures CanDo(w, BurnSteps(id, toReturn))
    ensures Opens(DoAll(w, BurnSteps(id, toReturn)), w, id, w.now)
    ensures DoAll(w, BurnSteps(id, toReturn)).now == w.now + toReturn
  {
    var w1 := DoFinalize(w, id, true);
    var w2 := Do(w1, Tick(toReturn));
    assert w1.openers[id].phase == Finalized(w.born.Payload(), w1.log[|w.log|].finalizeReply);
    assert IsOpen(w1.log[|w.log|]) && w1.log[|w.log|].at == w.now;
    DoOne(w2, Return(id));
    DoCons(w1, Tick(toReturn), [Return(id)]);
    DoCons(w, RunFinalize(id, true), [Tick(toReturn)] + [Return(id)]);
  }

  /** In `w'` the call has returned the secret that was open to it in `w`, having burnt it at the instant `at`. */
  ghost predicate Opens(w': World, w: World, id: string, at: nat) {
    && w.born.Valid() && w'.born == w.born && w'.readers == w.readers
    && OpenedAt(w'.log, at)
    && w'.slot.payload.None? && w'.slot.meta.Some? && w'.slot.meta.value.value.status.Consumed?
    && id in w'.openers
    && w'.openers[id].phase == Returned(Delivered(Response(w.born.Payload(), w'.slot.meta.value.value)))
  }

  /** A granted call with the right key, left to itself, decides to finalize and delivers. */
  lemma GrantDelivers(w: World, id: string, pace: Pace)
    requires w.born.Valid() && id in w.openers && w.openers[id].claimAt.Some? && w.openers[id].key == w.born.key
    requires w.openers[id].phase == Claimed(ClaimOk(w.born.SealedPayload()))
    requires w.slot.meta.Some? && HeldBy(w.slot.meta.value.value, id) && w.born.PayloadEnd() < w.slot.meta.value.expiresAt
    requires w.slot.payload == Some(Timed(w.born.SealedPayload(), w.born.PayloadEnd()))
    requires w.now + pace.toDecide + pace.toSettle <= w.born.PayloadEnd()
    ensures CanDo(w, OpenSteps(id, pace))
    ensures Opens(DoAll(w, OpenSteps(id, pace)), w, id, w.now + pace.toDecide + pace.toSettle)
    ensures DoAll(w, OpenSteps(id, pace)).now == w.now + pace.toDecide + pace.toSettle + pace.toReturn
  {
    var w1 := Do(w, Tick(pace.toDecide));
    var w2 := DoDecide(w1, id);
    var w3 := Do(w2, Tick(pace.toSettle));
    FinalizeDelivers(w3, id, pace.toReturn);
    DoCons(w2, Tick(pace.toSettle), BurnSteps(id, pace.toReturn));
    DoCons(w1, Decide(id), [Tick(pace.toSettle)] + BurnSteps(id, pace.toReturn));
    DoCons(w, Tick(pace.toDecide), [Decide(id)] + ([Tick(pace.toSettle)] + BurnSteps(id, pace.toReturn)));
  }

  /**
   * In every reachable state, a fresh secret that no live lease covers is opened by the next undisturbed call with
   * the right key, however slow, as long as its finalize comes while the payload lasts.
   */
  lemma FreshSecretOpens(w: World, id: string, pace: Pace)
    requires MayClaim(w, id, pace)
    requires w.now + pace.toSend + pace.toClaim + pace.toDecide + pace.toSettle <= w.born.PayloadEnd()
    ensures var steps := ClaimSteps(id, w.born.key, pace) + OpenSteps(id, pace);
            var burntAt := w.now + pace.toSend + pace.toClaim + pace.toDecide + pace.toSettle;
            CanDo(w, steps) && Opens(DoAll(w, steps), w, id, burntAt) && DoAll(w, steps).now == burntAt + pace.toReturn
  {
    ClaimGranted(w, id, w.born.key, pace);
    GrantDelivers(DoAll(w, ClaimSteps(id, w.born.key, pace)), id, pace);
    DoAppend(w, ClaimSteps(id, w.born.key, pace), OpenSteps(id, pace));
  }

  /** Whatever crashed, a lease is over 30 s later: then the secret, if still fresh, is claimable again. */
  lemma LeaseRunsOut(w: World, wait: nat)
    requires Fresh(w) && wait >= CLAIM_LEASE_MS && Sec(w.now + wait) < w.born.ExpiresAtUnix()
    ensures Fresh(Do(w, Tick(wait))) && Claimable(Do(w, Tick(wait)))
  {
    StepInv(w, Tick(wait));
    var m := w.slot.meta.value.value;
    if m.status.Opening? {
      assert OpenerOk(w, m.openingID.value);
    }
  }

  /** Bounded recovery: 30 s after any crash a fresh secret still opens. */
  lemma RecoversAfterLease(w: World, wait: nat, id: string, pace: Pace)
    requires Fresh(w) && wait >= CLAIM_LEASE_MS && Sec(w.now + wait + pace.toSend) < w.born.ExpiresAtUnix() && id !in w.openers
    requires w.now + wait + pace.toSend + pace.toClaim + pace.toDecide + pace.toSettle <= w.born.PayloadEnd()
    ensures var steps := [Tick(wait)] + (ClaimSteps(id, w.born.key, pace) + OpenSteps(id, pace));
            CanDo(w, steps) && Opens(DoAll(w, steps), w, id, w.now + wait + pace.toSend + pace.toClaim + pace.toDecide + pace.toSettle)
  {
    assert Sec(w.now + wait) <= Sec(w.now + wait + pace.toSend);
    LeaseRunsOut(w, wait);
    FreshSecretOpens(Do(w, Tick(wait)), id, pace);
    DoCons(w, Tick(wait), ClaimSteps(id, w.born.key, pace) + OpenSteps(id, pace));
  }

  /**
   * So in every run: wherever it has got to, waiting 30 s and one undisturbed call open an unopened secret, as long
   * as its second has not come when that call samples its clock.
   */
  lemma EveryRunRecovers(run: seq<World>, taken: seq<Step>, k: nat, wait: nat, id: string, pace: Pace)
    requires Run(run, taken) && k < |run| && run[k].born.Valid()
    requires !EverOpened(run[k].log) && id !in run[k].openers && wait >= 30_000
    requires Sec(run[k].now + wait + pace.toSend) < run[k].born.ExpiresAtUnix()
    requires run[k].now + wait + pace.toSend + pace.toClaim + pace.toDecide + pace.toSettle <= run[k].born.PayloadEnd()
    ensures var steps := [Tick(wait)] + (ClaimSteps(id, run[k].born.key, pace) + OpenSteps(id, pace));
            var burntAt := run[k].now + wait + pace.toSend + pace.toClaim + pace.toDecide + pace.toSettle;
            CanDo(run[k], steps) && Opens(DoAll(run[k], steps), run[k], id, burntAt)
  {
    RunInv(run, taken, k);
    assert Sec(run[k].now) <= Sec(run[k].now + wait + pace.toSend);
    RecoversAfterLease(run[k], wait, id, pace);
  }

  // ---- A granted call among others ----

  /** A step that is not one of the call's own, except that Redis may run its claim again. */
  predicate Foreign(step: Step, id: string) {
    match step
    case BeginOpen(k, _) => k != id
    case SendClaim(k) => k != id
    case Decide(k) => k != id
    case RunFinalize(k, _) => k != id
    case RunAbort(k, _) => k != id
    case Return(k) => k != id
    case GiveUp(k) => k != id
    case _ => true
  }

  predicate AllForeign(steps: seq<Step>, id: string) {
    forall step :: step in steps ==> Foreign(step, id)
  }

  /** A call that was granted the secret, within its lease and before the secret's second. */
  ghost predicate Holding(w: World, id: string) {
    && Fresh(w)
    && id in w.openers && w.openers[id].claimAt.Some? && !w.openers[id].phase.Claiming?
    && w.now < LeaseEnd(w.openers[id])
    && w.slot.meta.Some? && HeldBy(w.slot.meta.value.value, id)
  }

  /** What every script of others does to a held slot, whatever clock sample it carries. */
  lemma ScriptsRefused(s: Slot, at: nat, sampled: nat, k: string, id: string)
    requires s.meta.Some? && at <= s.meta.value.expiresAt && HeldBy(s.meta.value.value, id)
    requires s.meta.value.value.openingUntilUnix.Some? && Sec(at) < s.meta.value.value.openingUntilUnix.value
    ensures sampled <= at ==> Claim(s, at, Sec(sampled), k, Sec(sampled + CLAIM_LEASE_MS)) == (s, ClaimConsumed)
    ensures k != id ==> Finalize(s, at, Sec(sampled), k) == (s, FinalizeConflict)
    ensures k != id ==> Abort(s, at, Sec(sampled), k) == (s, AbortIgnored)
  {
  }

  /** Before the secret's second no status call has a write or a delete on its way. */
  lemma NoLateWritesYet(w: World)
    requires Fresh(w)
    ensures forall r :: r in w.readers ==> w.readers[r].overwrite.None? && !w.readers[r].deleteSent
  {
    forall r | r in w.readers ensures w.readers[r].overwrite.None? && !w.readers[r].deleteSent {
      assert ReaderOk(w, r);
    }
  }

  lemma HeldSlot(w: World, step: Step, id: string)
    requires Holding(w, id) && Enabled(w, step) && Foreign(step, id)
    ensures Do(w, step).slot == w.slot && EverOpened(Do(w, step).log) == EverOpened(w.log)
  {
    NoLateWritesYet(w);
    match step
    case RunClaim(k, delivered) =>
      assert OpenerOk(w, k);
      ScriptsRefused(w.slot, w.now, w.openers[k].claimAt.value, k, id);
      LogAppend(w.log, ClaimRan(k, w.now, ClaimConsumed), k);
    case RunFinalize(k, delivered) =>
      ScriptsRefused(w.slot, w.now, w.openers[k].finalizeAt.value, k, id);
      LogAppend(w.log, FinalizeRan(k, w.now, FinalizeConflict), k);
    case RunAbort(k, delivered) =>
      ScriptsRefused(w.slot, w.now, w.openers[k].abortAt.value, k, id);
      LogAppend(w.log, AbortRan(k, w.now, AbortIgnored), k);
    case CheckClock(r) => QuietLog(w, Do(w, step));
    case AnswerAnyway(r) => QuietLog(w, Do(w, step));
    case _ =>
  }

  lemma QuietLog(w: World, w': World)
    requires w'.log == w.log || (|w'.log| == |w.log| + 1 && w'.log == w.log + [w'.log[|w.log|]] && w'.log[|w.log|].StatusGiven?)
    ensures EverOpened(w'.log) == EverOpened(w.log)
  {
    if w'.log != w.log {
      LogAppend(w.log, w'.log[|w.log|], "");
    }
  }

  lemma ForeignOpener(w: World, step: Step, id: string)
    requires Enabled(w, step) && Foreign(step, id) && id in w.openers && !w.openers[id].phase.Claiming?
    ensures id in Do(w, step).openers && Do(w, step).openers[id] == w.openers[id]
  {
  }

  /** Whatever others do, a held secret is left as it is until the lease or the secret's time is over. */
  lemma {:induction false} HeldThroughOthers(w: World, id: string, others: seq<Step>)
    requires Holding(w, id) && CanDo(w, others) && AllForeign(others, id)
    requires Sec(DoAll(w, others).now) < w.born.ExpiresAtUnix() && DoAll(w, others).now < LeaseEnd(w.openers[id])
    ensures var w' := DoAll(w, others);
            Holding(w', id) && w'.slot == w.slot && w'.openers[id] == w.openers[id] && w'.born == w.born
    decreases |others|
  {
    if others != [] {
      var w1 := Do(w, others[0]);
      assert others[0] in others;
      StepInv(w, others[0]);
      StepFrame(w, others[0]);
      InvDoAll(w1, others[1..]);
      HeldSlot(w, others[0], id);
      ForeignOpener(w, others[0], id);
      assert Sec(w1.now) <= Sec(DoAll(w1, others[1..]).now);
      HeldThroughOthers(w1, id, others[1..]);
    }
  }

  /** A claim, steps of others, the decision, more steps of others. */
  function Tried(id: string, key: AtRestKey, pace: Pace, first: seq<Step>, second: seq<Step>): seq<Step> {
    ClaimSteps(id, key, pace) + (first + ([Decide(id)] + second))
  }

  /** The steps can be taken, those in between are others', and they end within the lease and the secret's time. */
  ghost predicate InLease(w: World, id: string, key: AtRestKey, pace: Pace, first: seq<Step>, second: seq<Step>) {
    && MayClaim(w, id, pace)
    && CanDo(w, Tried(id, key, pace, first, second)) && AllForeign(first, id) && AllForeign(second, id)
    && var end := DoAll(w, Tried(id, key, pace, first, second)).now;
    && Sec(end) < w.born.ExpiresAtUnix() && Sec(end) < Sec(w.now + pace.toSend) + 30
  }

  lemma DecidedHolds(w: World, id: string)
    requires Holding(w, id) && w.openers[id].phase == Claimed(ClaimOk(w.born.SealedPayload()))
    ensures var w' := DoDecide(w, id);
            && Holding(w', id) && w'.slot == w.slot && w'.born == w.born && w'.now == w.now
            && w'.openers[id].claimAt == w.openers[id].claimAt
            && (if w.openers[id].key == w.born.key then w'.openers[id].finalizeAt.Some? && w'.openers[id].phase == Finalizing(w.born.Payload())
                else w'.openers[id].abortAt.Some? && w'.openers[id].phase.Aborting?)
  {
    StepInv(w, Decide(id));
  }

  /** Through all of this the call keeps what its claim won, and has decided by its key. */
  lemma HeldToDecision(w: World, id: string, key: AtRestKey, pace: Pace, first: seq<Step>, second: seq<Step>)
    requires InLease(w, id, key, pace, first, second)
    ensures var w' := DoAll(w, Tried(id, key, pace, first, second));
            && Holding(w', id) && w'.born == w.born
            && w'.slot == w.slot.(meta := Held(w.slot.meta.value, id, w.now + pace.toSend))
            && (if key == w.born.key then w'.openers[id].finalizeAt.Some? && w'.openers[id].phase == Finalizing(w.born.Payload())
                else w'.openers[id].abortAt.Some? && w'.openers[id].phase.Aborting?)
  {
    ClaimGranted(w, id, key, pace);
    var w1 := DoAll(w, ClaimSteps(id, key, pace));
    InvDoAll(w, ClaimSteps(id, key, pace));
    DoSplit(w, ClaimSteps(id, key, pace), first + ([Decide(id)] + second));
    HeldFromGrant(w1, id, first, second);
  }

  lemma HeldFromGrant(w: World, id: string, first: seq<Step>, second: seq<Step>)
    requires Inv(w) && !EverOpened(w.log) && id in w.openers && w.openers[id].claimAt.Some?
    requires w.openers[id].phase == Claimed(ClaimOk(w.born.SealedPayload()))
    requires w.slot.meta.Some? && HeldBy(w.slot.meta.value.value, id)
    requires CanDo(w, first + ([Decide(id)] + second)) && AllForeign(first, id) && AllForeign(second, id)
    requires var end := DoAll(w, first + ([Decide(id)] + second)).now;
             Sec(end) < w.born.ExpiresAtUnix() && end < LeaseEnd(w.openers[id])
    ensures var w' := DoAll(w, first + ([Decide(id)] + second));
            && Holding(w', id) && w'.slot == w.slot && w'.born == w.born
            && (if w.openers[id].key == w.born.key then w'.openers[id].finalizeAt.Some? && w'.openers[id].phase == Finalizing(w.born.Payload())
                else w'.openers[id].abortAt.Some? && w'.openers[id].phase.Aborting?)
  {
    DoSplit(w, first, [Decide(id)] + second);
    InvDoAll(w, first);
    var w1 := DoAll(w, first);
    DoSplit(w1, [Decide(id)], second);
    DoOne(w1, Decide(id));
    var w2 := DoDecide(w1, id);
    StepInv(w1, Decide(id));
    InvDoAll(w2, second);
    assert Sec(w.now) <= Sec(w1.now) <= Sec(DoAll(w2, second).now);
    HeldThroughOthers(w, id, first);
    DecidedHolds(w1, id);
    HeldThroughOthers(w2, id, second);
  }

  /**
   * With the right key the granted call delivers, whatever other calls do in the meantime, if it finalizes within
   * its lease and before the secret's second.
   */
  lemma OpensDespiteOthers(w: World, id: string, pace: Pace, first: seq<Step>, second: seq<Step>)
    requires InLease(w, id, w.born.key, pace, first, second)
    ensures var tried := Tried(id, w.born.key, pace, first, second); var steps := tried + BurnSteps(id, pace.toReturn);
            CanDo(w, steps) && Opens(DoAll(w, steps), DoAll(w, tried), id, DoAll(w, tried).now)
  {
    var tried := Tried(id, w.born.key, pace, first, second);
    HeldToDecision(w, id, w.born.key, pace, first, second);
    FinalizeDelivers(DoAll(w, tried), id, pace.toReturn);
    DoAppend(w, tried, BurnSteps(id, pace.toReturn));
  }

  /**
   * A server with the wrong key claims, fails to decrypt and aborts, with any steps of other calls in between:
   * nothing is burnt, and the secret is at once claimable again.
   */
  lemma WrongKeyReleases(w: World, id: string, key: AtRestKey, pace: Pace, first: seq<Step>, second: seq<Step>)
    requires InLease(w, id, key, pace, first, second) && key != w.born.key
    ensures var steps := Tried(id, key, pace, first, second) + [RunAbort(id, true)];
            && CanDo(w, steps)
            && var w' := DoAll(w, steps);
            && Fresh(w') && Claimable(w')
            && w'.slot == Slot(Some(Timed(w.born.InitialMetadata(), w.slot.meta.value.expiresAt)), w.slot.payload)
            && id in w'.openers && w'.openers[id].phase == Returned(Failed(DecryptFailed))
  {
    var tried := Tried(id, key, pace, first, second);
    var w1 := DoAll(w, tried);
    HeldToDecision(w, id, key, pace, first, second);
    AbortReleases(w1, id);
    DoOne(w1, RunAbort(id, true));
    DoAppend(w, tried, [RunAbort(id, true)]);
  }

  /**
   * Whether an abort releases the secret or marks it expired goes by the second that its call sampled, however late
   * Redis runs it.
   */
  lemma AbortGoesByItsSample(w: World, id: string, delivered: bool)
    requires KeysOk(w) && Enabled(w, RunAbort(id, delivered))
    requires w.slot.meta.Some? && HeldBy(w.slot.meta.value.value, id) && w.now <= w.slot.meta.value.expiresAt
    ensures var slot := DoAbort(w, id, delivered).slot;
            if w.openers[id].abortAt.value / 1000 < w.born.ExpiresAtUnix() then
              slot == Slot(Some(Timed(w.born.InitialMetadata(), w.slot.meta.value.expiresAt)), w.slot.payload)
            else
              slot == Slot(Some(Timed(w.born.InitialMetadata().(status := Expired), w.now + 604_800_000)), None)
  {
  }

  lemma AbortReleases(w: World, id: string)
    requires Fresh(w) && Enabled(w, RunAbort(id, true)) && w.openers[id].phase.Aborting? && HeldBy(w.slot.meta.value.value, id)
    ensures var w' := Do(w, RunAbort(id, true));
            && Fresh(w') && Claimable(w')
            && w'.slot == Slot(Some(Timed(w.born.InitialMetadata(), w.slot.meta.value.expiresAt)), w.slot.payload)
            && id in w'.openers && w'.openers[id].phase == Returned(Failed(DecryptFailed))
  {
    var w' := DoAbort(w, id, true);
    assert OpenerOk(w, id);
    StepInv(w, RunAbort(id, true));
    LogAppend(w.log, w'.log[|w.log|], id);
  }
}
