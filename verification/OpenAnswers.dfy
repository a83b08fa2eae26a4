/**
 * What the result of an open call means: which script run told it, and what that run found. By results, not by
 * replies, so that a caller can rely on the error it is given.
 */
module OpenAnswers {
  import opened Basics
  import opened SecretTypes
  import opened OpenScripts
  import opened OpenProtocol
  import opened OpenInvariant
  import opened OneShotBox
  import opened OpenSafety

  /** What the claim script answers if Redis runs it now for this call. */
  function ClaimReplyAt(w: World, id: string): ClaimReply
    requires id in w.openers && w.openers[id].claimAt.Some?
  {
    var sampled := w.openers[id].claimAt.value;
    Claim(w.slot, w.now, Sec(sampled), id, Sec(sampled + CLAIM_LEASE_MS)).1
  }

  function FinalizeReplyAt(w: World, id: string): FinalizeReply
    requires id in w.openers && w.openers[id].finalizeAt.Some?
  {
    Finalize(w.slot, w.now, Sec(w.openers[id].finalizeAt.value), id).1
  }

  /** The step that puts a call into this phase, as seen from the world before it. */
  ghost predicate Tells(w: World, step: Step, id: string, phase: OpenPhase) {
    && Enabled(w, step) && id in w.openers
    && match phase
       case Claimed(reply) => step == RunClaim(id, true) && w.openers[id].phase.Claiming? && reply == ClaimReplyAt(w, id)
       case Finalized(_, reply) => step == RunFinalize(id, true) && w.openers[id].phase.Finalizing? && reply == FinalizeReplyAt(w, id)
       case Returned(_) => step == Decide(id) || step == Return(id) || step == GiveUp(id) || step == RunAbort(id, true)
       case _ => true
  }

  /** A phase is entered by its own step, or was there before. */
  lemma PhaseStep(w: World, step: Step, id: string)
    requires Enabled(w, step) && id in Do(w, step).openers
    ensures var phase := Do(w, step).openers[id].phase;
            phase.Claimed? || phase.Finalized? || phase.Returned? ==>
              id in w.openers && (w.openers[id].phase == phase || (Tells(w, step, id, phase) && !w.openers[id].phase.Returned?))
  {
  }

  /** The step of the run that put the call into the phase it is in. */
  lemma {:induction false} EnteredAt(run: seq<World>, steps: seq<Step>, k: nat, id: string) returns (m: nat)
    requires Run(run, steps) && k < |run| && id in run[k].openers
    requires run[k].openers[id].phase.Claimed? || run[k].openers[id].phase.Finalized? || run[k].openers[id].phase.Returned?
    ensures m < k && Tells(run[m], steps[m], id, run[k].openers[id].phase) && !run[m].openers[id].phase.Returned?
    ensures id in run[m + 1].openers && run[m + 1].openers[id].phase == run[k].openers[id].phase
  {
    PhaseStep(run[k - 1], steps[k - 1], id);
    if Tells(run[k - 1], steps[k - 1], id, run[k].openers[id].phase) && !run[k - 1].openers[id].phase.Returned? {
      m := k - 1;
    } else {
      m := EnteredAt(run, steps, k - 1, id);
    }
  }

  /** What a call is told when it ends: the script run, decision or interruption that each result comes from. */
  ghost predicate Explains(w: World, step: Step, id: string, result: OpenResult) {
    && id in w.openers
    && var o := w.openers[id];
    && (step == RunClaim(id, true) ==> o.phase.Claiming? && o.claimAt.Some?)
    && (step == RunFinalize(id, true) ==> o.phase.Finalizing? && o.finalizeAt.Some?)
    && match result
       case Delivered(_) => step == RunFinalize(id, true) && FinalizeReplyAt(w, id).FinalizeOk?
       case Failed(SecretConsumed) =>
         (step == RunClaim(id, true) && ClaimReplyAt(w, id).ClaimConsumed?) || (step == RunFinalize(id, true) && FinalizeReplyAt(w, id).FinalizeConsumed?)
       case Failed(SecretExpired) =>
         (step == RunClaim(id, true) && ClaimReplyAt(w, id).ClaimExpired?) || (step == RunFinalize(id, true) && FinalizeReplyAt(w, id).FinalizeExpired?)
       case Failed(SecretNotFound) =>
         (step == RunClaim(id, true) && ClaimReplyAt(w, id).ClaimNotFound?) || (step == RunFinalize(id, true) && FinalizeReplyAt(w, id).FinalizeNotFound?)
       case Failed(Superseded) => step == RunFinalize(id, true) && FinalizeReplyAt(w, id).FinalizeConflict?
       case Failed(DecryptFailed) => (step == RunAbort(id, true) || step == GiveUp(id)) && o.key != w.born.key
       case Failed(GaveUp) => step == GiveUp(id) && o.abortAt.None?
       case Failed(_) => false
  }

  lemma DecideExplains(w: World, id: string)
    requires Enabled(w, Decide(id)) && DoDecide(w, id).openers[id].phase.Returned?
    ensures var error := DoDecide(w, id).openers[id].phase.result.error; var reply := w.openers[id].phase.claimReply;
            && DoDecide(w, id).openers[id].phase.result.Failed?
            && (reply.ClaimConsumed? ==> error == SecretConsumed)
            && (reply.ClaimExpired? ==> error == SecretExpired)
            && (reply.ClaimNotFound? ==> error == SecretNotFound)
            && !reply.ClaimOk?
  {
  }

  lemma ReturnExplains(w: World, id: string)
    requires Enabled(w, Return(id))
    ensures var result := DoReturn(w, id).openers[id].phase.result; var reply := w.openers[id].phase.finalizeReply;
            && (reply.FinalizeOk? <==> result.Delivered?)
            && (reply.FinalizeConsumed? ==> result == Failed(SecretConsumed))
            && (reply.FinalizeExpired? ==> result == Failed(SecretExpired))
            && (reply.FinalizeNotFound? ==> result == Failed(SecretNotFound))
            && (reply.FinalizeConflict? ==> result == Failed(Superseded))
  {
  }

  /** A call that ends without an answer gave up; once it has sent an abort it always reports the failed decryption. */
  lemma EndExplains(w: World, step: Step, id: string)
    requires Inv(w) && Enabled(w, step) && (step == GiveUp(id) || step == RunAbort(id, true)) && !w.openers[id].phase.Returned?
    requires Do(w, step).openers[id].phase.Returned?
    ensures Explains(w, step, id, Do(w, step).openers[id].phase.result)
  {
    assert OpenerOk(w, id);
  }

  /** Every result that a call returns was told by one step of the run, and says what that step found. */
  lemma EveryResultIsTold(run: seq<World>, steps: seq<Step>, k: nat, id: string) returns (m: nat)
    requires Run(run, steps) && k < |run| && id in run[k].openers && run[k].openers[id].phase.Returned?
    ensures m < k && Enabled(run[m], steps[m]) && Explains(run[m], steps[m], id, run[k].openers[id].phase.result)
  {
    m := EnteredAt(run, steps, k, id);
    var last := m;
    if steps[last] == Decide(id) {
      DecideExplains(run[last], id);
      m := EnteredAt(run, steps, last, id);
    } else if steps[last] == Return(id) {
      ReturnExplains(run[last], id);
      m := EnteredAt(run, steps, last, id);
    } else {
      RunInv(run, steps, last);
      EndExplains(run[last], steps[last], id);
    }
  }

  // ---- What each error means for the secret ----

  lemma NotFoundShows(w: World, step: Step, id: string)
    requires Inv(w) && Enabled(w, step) && Explains(w, step, id, Failed(SecretNotFound))
    ensures Live(w.slot.payload, w.now).None?
  {
  }

  lemma ExpiredShows(w: World, step: Step, id: string)
    requires Inv(w) && Enabled(w, step) && Explains(w, step, id, Failed(SecretExpired))
    ensures Shown(w, Do(w, step)).SayExpired?
    ensures Live(w.slot.meta, w.now).Some? && !Live(w.slot.meta, w.now).value.status.Consumed?
  {
  }

  /** A live lease at the second that the call sampled: the status and the end of the lease as they are stored. */
  predicate LeaseCovers(slot: Slot, at: nat, sampled: nat) {
    var meta := Live(slot.meta, at);
    meta.Some? && meta.value.status.Opening? && meta.value.openingUntilUnix.Some? && sampled / 1000 < meta.value.openingUntilUnix.value
  }

  lemma ConsumedShows(w: World, step: Step, id: string)
    requires Inv(w) && Enabled(w, step) && Explains(w, step, id, Failed(SecretConsumed))
    ensures EverOpened(w.log) || (step == RunClaim(id, true) && LeaseCovers(w.slot, w.now, w.openers[id].claimAt.value))
  {
  }

  /** "Not found" is returned only when the payload was unreadable as the script ran, and it stays so. */
  lemma ReturnedNotFound(run: seq<World>, steps: seq<Step>, k: nat, id: string, j: nat) returns (m: nat)
    requires Run(run, steps) && k < |run| && id in run[k].openers && run[k].openers[id].phase == Returned(Failed(SecretNotFound))
    ensures m < k && (steps[m] == RunClaim(id, true) || steps[m] == RunFinalize(id, true))
    ensures m <= j < |run| ==> Live(run[j].slot.payload, run[j].now).None?
  {
    m := EveryResultIsTold(run, steps, k, id);
    RunInv(run, steps, m);
    NotFoundShows(run[m], steps[m], id);
    if m <= j < |run| {
      PayloadStaysGone(run, steps, m, j);
    }
  }

  /**
   * "Expired" is returned only once the secret is no longer available, and it never is again; and not when the
   * script still found "consumed", or nothing at all.
   */
  lemma ReturnedExpired(run: seq<World>, steps: seq<Step>, k: nat, id: string, j: nat) returns (m: nat)
    requires Run(run, steps) && k < |run| && id in run[k].openers && run[k].openers[id].phase == Returned(Failed(SecretExpired))
    ensures m < k && (steps[m] == RunClaim(id, true) || steps[m] == RunFinalize(id, true))
    ensures Live(run[m].slot.meta, run[m].now).Some? && !Live(run[m].slot.meta, run[m].now).value.status.Consumed?
    ensures m < j < |run| ==> !Abs(run[j]).Available? && (j < |steps| ==> !Shown(run[j], run[j + 1]).Deliver?)
  {
    m := EveryResultIsTold(run, steps, k, id);
    RunInv(run, steps, m);
    ExpiredShows(run[m], steps[m], id);
    StepRefinesBox(run[m], steps[m]);
    if m < j < |run| {
      ShutForGood(run, steps, m + 1, j);
    }
  }

  /** "Consumed" is returned only after the open, or when the claim met a live lease. */
  lemma ReturnedConsumed(run: seq<World>, steps: seq<Step>, k: nat, id: string) returns (m: nat)
    requires Run(run, steps) && k < |run| && id in run[k].openers && run[k].openers[id].phase == Returned(Failed(SecretConsumed))
    ensures m < k && id in run[m].openers
    ensures EverOpened(run[m].log) || (steps[m] == RunClaim(id, true) && run[m].openers[id].claimAt.Some? && LeaseCovers(run[m].slot, run[m].now, run[m].openers[id].claimAt.value))
  {
    m := EveryResultIsTold(run, steps, k, id);
    RunInv(run, steps, m);
    ConsumedShows(run[m], steps[m], id);
  }

  /** Before its second an unopened secret has not been returned as expired or not found to any call. */
  lemma NeverRefusedEarly(run: seq<World>, steps: seq<Step>, k: nat, id: string)
    requires Run(run, steps) && k < |run| && run[0].born.Valid() && id in run[k].openers
    requires var req := run[0].born.req; var ttl := if req.ttlSeconds != 0 then req.ttlSeconds else req.expiresInMinutes * 60;
             !EverOpened(run[k].log) && run[k].now / 1000 < (run[0].born.sampledAt + 1000 * ttl) / 1000
    ensures run[k].openers[id].phase != Returned(Failed(SecretExpired))
    ensures run[k].openers[id].phase != Returned(Failed(SecretNotFound))
  {
    NoLossBeforeExpiry(run, steps, k);
    if run[k].openers[id].phase == Returned(Failed(SecretExpired)) {
      var m := ReturnedExpired(run, steps, k, id, k);
    } else if run[k].openers[id].phase == Returned(Failed(SecretNotFound)) {
      var m := ReturnedNotFound(run, steps, k, id, k);
    }
  }
}
