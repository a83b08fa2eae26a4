/** What the open protocol promises, over every run. */
module OpenSafety {
  import opened Basics
  import opened SecretTypes
  import opened OpenScripts
  import opened OpenProtocol
  import opened OpenInvariant
  import opened OneShotBox

  // ---- At most one delivery ----

  /** No two script runs open the secret, and nothing is granted after the one that did. */
  lemma DeliversAtMostOnce(run: seq<World>, steps: seq<Step>, i: nat, j: nat)
    requires Run(run, steps) && i < j < |steps|
    requires Shown(run[i], run[i + 1]).Deliver?
    ensures !Shown(run[j], run[j + 1]).Deliver? && !Shown(run[j], run[j + 1]).Grant?
  {
    RunRefinesBox(run, steps);
    assert Labels(run, steps)[i] == Shown(run[i], run[i + 1]);
    assert Labels(run, steps)[j] == Shown(run[j], run[j + 1]);
    BoxDeliversOnce(Boxes(run), Labels(run, steps), DueTimes(run, steps), i, j);
  }

  ghost predicate ReturnedSecret(w: World, id: string) {
    id in w.openers && w.openers[id].phase.Returned? && w.openers[id].phase.result.Delivered?
  }

  /**
   * At most one call returns the secret. It held the sealing key, and returns what creation was given, with the
   * second that it sampled for its finalize.
   */
  lemma ReturnsTheSecretOnce(run: seq<World>, steps: seq<Step>, k: nat, id: string, other: string)
    requires Run(run, steps) && k < |run|
    requires ReturnedSecret(run[k], id) && ReturnedSecret(run[k], other)
    ensures id == other
    ensures run[k].openers[id].key == run[0].born.key
    ensures var response := run[k].openers[id].phase.result.response; var req := run[0].born.req;
            && response.ciphertext == req.ciphertext && response.nonce == req.nonce && response.algorithm == req.algorithm && response.content == req.content
            && run[k].openers[id].finalizeAt.Some? && response.consumedAtUnix == Some(run[k].openers[id].finalizeAt.value / 1000)
    ensures OpenedBy(run[k].log, id)
  {
    var w := run[k];
    RunInv(run, steps, k);
    RunBorn(run, steps, k);
    assert OpenerOk(w, id) && OpenerOk(w, other);
    var i :| 0 <= i < |w.log| && IsOpen(w.log[i]) && w.log[i].claimID == id;
    var j :| 0 <= j < |w.log| && IsOpen(w.log[j]) && w.log[j].claimID == other;
    assert i == j;
  }

  /**
   * A secret is never opened later than its TTL after it was stored: at most five seconds past the expiry that was
   * promised.
   */
  lemma OpensBeforeItsEnd(run: seq<World>, steps: seq<Step>, k: nat, i: nat)
    requires Run(run, steps) && k < |run| && i < |run[k].log| && IsOpen(run[k].log[i])
    ensures run[0].born.Valid()
    ensures run[k].log[i].at <= run[0].born.PayloadEnd() <= run[0].born.sampledAt + run[0].born.TtlMs() + OPERATION_TIMEOUT_MS
    ensures run[k].log[i].at < (run[0].born.ExpiresAtUnix() + 6) * 1000
  {
    RunInv(run, steps, k);
    RunBorn(run, steps, k);
    assert EventOk(run[k], run[k].log[i]);
  }

  // ---- No loss before expiry ----

  /** Until it is opened or its second comes, a secret stays readable, whatever anybody did or failed to do. */
  lemma NoLossBeforeExpiry(run: seq<World>, steps: seq<Step>, k: nat)
    requires Run(run, steps) && k < |run| && run[0].born.Valid()
    requires !EverOpened(run[k].log) && Sec(run[k].now) < run[0].born.ExpiresAtUnix()
    ensures Live(run[k].slot.payload, run[k].now) == Some(run[0].born.SealedPayload())
    ensures var meta := Live(run[k].slot.meta, run[k].now); meta.Some? && (meta.value.status.Active? || meta.value.status.Opening?)
    ensures Abs(run[k]).Available?
  {
    RunInv(run, steps, k);
    RunBorn(run, steps, k);
  }

  lemma NotDueNotRefused(w: World, w': World)
    requires Refines(w, w') && Abs(w).Available? && !Due(w')
    ensures !Shown(w, w').SayExpired? && !Shown(w, w').SayNotFound? && !Shown(w, w').SayConsumed?
  {
  }

  /**
   * Before that second no script answers "expired", "not found" or, to an unopened secret, "consumed" for any
   * reason but a live lease.
   */
  lemma NoEarlyRefusal(run: seq<World>, steps: seq<Step>, k: nat)
    requires Run(run, steps) && k < |steps| && run[0].born.Valid()
    requires !EverOpened(run[k].log) && Sec(run[k + 1].now) < run[0].born.ExpiresAtUnix()
    ensures var shown := Shown(run[k], run[k + 1]); !shown.SayExpired? && !shown.SayNotFound? && !shown.SayConsumed?
  {
    RunInv(run, steps, k);
    RunBorn(run, steps, k);
    RunBorn(run, steps, k + 1);
    StepRefinesBox(run[k], steps[k]);
    NowGrows(run[k], steps[k]);
    NoLossBeforeExpiry(run, steps, k);
    NotDueNotRefused(run[k], run[k + 1]);
  }

  lemma NowGrows(w: World, step: Step)
    requires Enabled(w, step)
    ensures w.now <= Do(w, step).now
  {
  }

  // ---- Terminal states ----

  lemma StepKeepsClosed(w: World, step: Step)
    requires Inv(w) && Enabled(w, step) && Closed(w.slot)
    ensures Closed(Do(w, step).slot)
  {
    match step
    case RunClaim(id, delivered) =>
      assert OpenerOk(w, id);
      ClaimEffect(w, id, delivered);
    case RunFinalize(id, _) => FinalizeSlot(w.born, w.now, w.slot, EverOpened(w.log), Sec(w.openers[id].finalizeAt.value), id);
    case RunAbort(id, _) =>
      assert OpenerOk(w, id);
      AbortSlot(w.born, w.now, w.slot, EverOpened(w.log), Sec(w.openers[id].abortAt.value), id);
    case RunOverwrite(r, _) => assert ReaderOk(w, r);
    case _ =>
  }

  /** What a reader of the metadata finds is final: nothing any more, "consumed" or "expired". */
  predicate Ended(w: World) {
    match Live(w.slot.meta, w.now)
    case None => true
    case Some(m) => m.status.Consumed? || m.status.Expired?
  }

  /** Metadata that has timed out is never revived, dropped yet or not. */
  lemma StepKeepsEnded(w: World, step: Step)
    requires Inv(w) && Enabled(w, step) && Ended(w)
    ensures Ended(Do(w, step))
  {
    match step
    case RunClaim(id, delivered) =>
      assert OpenerOk(w, id);
      ClaimEnded(w, w.openers[id].claimAt.value, id);
    case RunFinalize(id, _) => FinalizeEnded(w, w.openers[id].finalizeAt.value, id);
    case RunAbort(id, _) => AbortEnded(w, w.openers[id].abortAt.value, id);
    case RunOverwrite(r, _) => assert ReaderOk(w, r);
    case _ =>
  }

  lemma ClaimEnded(w: World, sampled: nat, id: string)
    requires Ended(w)
    ensures Claim(w.slot, w.now, Sec(sampled), id, Sec(sampled + CLAIM_LEASE_MS)).0 == w.slot
  {
  }

  lemma FinalizeEnded(w: World, sampled: nat, id: string)
    requires Ended(w)
    ensures Finalize(w.slot, w.now, Sec(sampled), id).0 == w.slot
  {
  }

  lemma AbortEnded(w: World, sampled: nat, id: string)
    requires Ended(w)
    ensures Abort(w.slot, w.now, Sec(sampled), id).0 == w.slot
  {
  }

  lemma EndedStep(w: World, step: Step)
    requires Inv(w) && Enabled(w, step) && Ended(w)
    ensures Ended(Do(w, step)) && (Closed(w.slot) ==> Closed(Do(w, step).slot))
    ensures !Shown(w, Do(w, step)).Deliver? && !Shown(w, Do(w, step)).Grant?
  {
    StepRefinesBox(w, step);
    StepKeepsEnded(w, step);
    if Closed(w.slot) {
      StepKeepsClosed(w, step);
    }
    EndedIsShut(w);
  }

  lemma EndedIsShut(w: World)
    requires KeysOk(w) && Ended(w)
    ensures !Abs(w).Available?
  {
  }

  /**
   * Once consumed, expired or timed out, never active or opening again: no straggler, not even a late status
   * write, revives a secret. Timed out counts from the instant the TTL ends, and a closed slot stays closed.
   */
  lemma TerminalAbsorbs(run: seq<World>, steps: seq<Step>, i: nat, j: nat)
    requires Run(run, steps) && i <= j < |run| && Ended(run[i])
    ensures Ended(run[j])
    ensures Closed(run[i].slot) ==> Closed(run[j].slot)
  {
    var closed := Closed(run[i].slot);
    forall w, step | Inv(w) && Enabled(w, step) && Ended(w) && (closed ==> Closed(w.slot))
      ensures Ended(Do(w, step)) && (closed ==> Closed(Do(w, step).slot))
    {
      EndedStep(w, step);
    }
    RunKeeps(run, steps, (w: World) => Ended(w) && (closed ==> Closed(w.slot)), i, j);
  }

  /** From a terminal state on no claim is granted and no finalize succeeds. */
  lemma NothingOpensTerminal(run: seq<World>, steps: seq<Step>, i: nat, j: nat)
    requires Run(run, steps) && i <= j < |steps| && Ended(run[i])
    ensures !Shown(run[j], run[j + 1]).Deliver? && !Shown(run[j], run[j + 1]).Grant?
  {
    TerminalAbsorbs(run, steps, i, j);
    RunInv(run, steps, j);
    EndedStep(run[j], steps[j]);
  }

  /**
   * The same seen from outside, TTLs included: once the box is opened or lapsed it stays what it is, and nothing
   * more is granted or delivered.
   */
  lemma ShutForGood(run: seq<World>, steps: seq<Step>, i: nat, j: nat)
    requires Run(run, steps) && i <= j < |run| && !Abs(run[i]).Available?
    ensures Abs(run[j]) == Abs(run[i])
    ensures j < |steps| ==> !Shown(run[j], run[j + 1]).Deliver? && !Shown(run[j], run[j + 1]).Grant?
  {
    RunRefinesBox(run, steps);
    BoxStaysShut(Boxes(run), Labels(run, steps), DueTimes(run, steps), i, j);
    if j < |steps| {
      assert BoxNext(Boxes(run)[j], Boxes(run)[j + 1], Labels(run, steps)[j], DueTimes(run, steps)[j + 1]);
    }
  }

  /**
   * An "expired" answer, from any script or status call, is never followed by an open, and the secret is closed
   * from then on.
   */
  lemma ExpiredAnswerIsFinal(run: seq<World>, steps: seq<Step>, k: nat, i: nat)
    requires Run(run, steps) && k < |run| && i < |run[k].log| && SaysExpired(run[k].log[i])
    ensures forall j :: i < j < |run[k].log| ==> !IsOpen(run[k].log[j])
    ensures Closed(run[k].slot)
  {
    RunInv(run, steps, k);
  }

  // ---- Leases ----

  /**
   * Finalize answers "conflict" only after the caller's lease, more than 29 s after its claim's clock sample, so
   * never within the 5 s a call may take.
   */
  lemma NoConflictWithinLease(run: seq<World>, steps: seq<Step>, k: nat, i: nat)
    requires Run(run, steps) && k < |run| && i < |run[k].log|
    requires run[k].log[i].FinalizeRan? && run[k].log[i].finalizeReply.FinalizeConflict?
    ensures run[k].log[i].claimID in run[k].openers
    ensures run[k].log[i].at > run[k].openers[run[k].log[i].claimID].start + 29_000
  {
    RunInv(run, steps, k);
    assert EventOk(run[k], run[k].log[i]);
    assert OpenerOk(run[k], run[k].log[i].claimID);
  }

  /** A call that is within its deadline has not been told that another claim took over. */
  lemma NeverSupersededInTime(run: seq<World>, steps: seq<Step>, k: nat, id: string)
    requires Run(run, steps) && k < |run| && id in run[k].openers
    requires run[k].now <= run[k].openers[id].start + 5_000
    ensures run[k].openers[id].phase != Returned(Failed(Superseded))
  {
    RunInv(run, steps, k);
    assert OpenerOk(run[k], id);
  }

  /** A claim retried under its own live lease is refused as "consumed" and changes nothing. */
  lemma OwnRetryIsRefused(s: Slot, at: nat, now: nat, id: string, until: int, later: nat)
    requires Claim(s, at, now, id, until).1.ClaimOk? && now < until && later <= s.meta.value.expiresAt
    ensures Claim(Claim(s, at, now, id, until).0, later, now, id, until) == (Claim(s, at, now, id, until).0, ClaimConsumed)
  {
  }

  // ---- Metadata outlives payload ----

  /** While the payload can be read so can its metadata, even between a status call's write and its delete. */
  lemma MetadataOutlivesPayload(run: seq<World>, steps: seq<Step>, k: nat)
    requires Run(run, steps) && k < |run| && Live(run[k].slot.payload, run[k].now).Some?
    ensures Live(run[k].slot.meta, run[k].now).Some?
    ensures run[k].slot.payload.value.expiresAt < run[k].slot.meta.value.expiresAt
  {
    RunInv(run, steps, k);
  }

  /** A script answers "not found" only when the payload is gone, and it stays gone. */
  lemma NotFoundMeansGone(run: seq<World>, steps: seq<Step>, i: nat, j: nat)
    requires Run(run, steps) && i < j < |run|
    requires Shown(run[i], run[i + 1]).SayNotFound?
    ensures Live(run[j].slot.payload, run[j].now).None?
  {
    RunInv(run, steps, i);
    NotFoundNow(run[i], steps[i]);
    PayloadStaysGone(run, steps, i, j);
  }

  lemma PayloadStaysGone(run: seq<World>, steps: seq<Step>, i: nat, j: nat)
    requires Run(run, steps) && i <= j < |run| && Live(run[i].slot.payload, run[i].now).None?
    ensures Live(run[j].slot.payload, run[j].now).None?
  {
    forall w, step | Inv(w) && Enabled(w, step) && Live(w.slot.payload, w.now).None?
      ensures Live(Do(w, step).slot.payload, Do(w, step).now).None?
    {
      StepPayload(w, step);
    }
    RunKeeps(run, steps, (w: World) => Live(w.slot.payload, w.now).None?, i, j);
  }

  lemma StepPayload(w: World, step: Step)
    requires Enabled(w, step)
    ensures Do(w, step).slot.payload == w.slot.payload || Do(w, step).slot.payload.None?
    ensures w.now <= Do(w, step).now
  {
  }

  lemma NotFoundNow(w: World, step: Step)
    requires Inv(w) && Enabled(w, step) && Shown(w, Do(w, step)).SayNotFound?
    ensures Live(w.slot.payload, w.now).None?
  {
    assert Live(w.slot.meta, w.now).Some? ==> !w.slot.meta.value.value.status.Deleted?;
  }

  // ---- Status answers ----

  /** A GET that misses finds no payload either, and none comes back. */
  ghost predicate MissOk(w: World, r: nat)
    requires r in w.readers
  {
    var reader := w.readers[r];
    && (reader.phase == Answered(StatusNotFound) ==> reader.seen.None?)
    && (reader.seen.None? ==> reader.overwrite.None? && Live(w.slot.payload, w.now).None?)
  }

  /** A status call is never forgotten, and what its GET returned is never taken back. */
  lemma SeenStays(w: World, step: Step, r: nat)
    requires Enabled(w, step) && r in w.readers
    ensures r in Do(w, step).readers && Do(w, step).readers[r].seen == w.readers[r].seen
  {
  }

  lemma MissRead(w: World, r: nat)
    requires KeysOk(w)
    ensures MissOk(DoRead(w, r), r)
  {
  }

  lemma MissKept(w: World, step: Step, r: nat)
    requires Enabled(w, step) && r in w.readers && MissOk(w, r)
    ensures r in Do(w, step).readers && MissOk(Do(w, step), r)
  {
    StepPayload(w, step);
    SeenStays(w, step, r);
    if step.CheckClock? || step.RunDelete? || step.AnswerAnyway? || step.FailStatus? || step.RunOverwrite? {
      assert step.reader != r ==> Do(w, step).readers[r] == w.readers[r];
    } else {
      assert Do(w, step).readers[r] == w.readers[r];
    }
  }

  lemma OnlyReadsAppear(w: World, step: Step, r: nat)
    requires Enabled(w, step) && r !in w.readers && r in Do(w, step).readers
    ensures step == ReadStatus(r)
  {
  }

  lemma MissStep(w: World, step: Step, r: nat)
    requires KeysOk(w) && Enabled(w, step) && r in Do(w, step).readers
    requires r in w.readers ==> MissOk(w, r)
    ensures MissOk(Do(w, step), r)
  {
    if r in w.readers {
      MissKept(w, step, r);
    } else {
      OnlyReadsAppear(w, step, r);
      MissRead(w, r);
    }
  }

  lemma MissRun(run: seq<World>, steps: seq<Step>, k: nat, r: nat)
    requires Run(run, steps) && k < |run| && r in run[k].readers
    ensures MissOk(run[k], r)
  {
    forall w, step | Inv(w) && Enabled(w, step) && (r in w.readers ==> MissOk(w, r))
      ensures r in Do(w, step).readers ==> MissOk(Do(w, step), r)
    {
      if r in Do(w, step).readers {
        MissStep(w, step, r);
      }
    }
    RunKeeps(run, steps, (w: World) => r in w.readers ==> MissOk(w, r), 0, k);
  }

  lemma SeenRun(run: seq<World>, steps: seq<Step>, j: nat, k: nat, r: nat)
    requires Run(run, steps) && j <= k < |run| && r in run[j].readers
    ensures r in run[k].readers && run[k].readers[r].seen == run[j].readers[r].seen
  {
    var seen := run[j].readers[r].seen;
    forall w, step | Inv(w) && Enabled(w, step) && r in w.readers && w.readers[r].seen == seen
      ensures r in Do(w, step).readers && Do(w, step).readers[r].seen == seen
    {
      SeenStays(w, step, r);
    }
    RunKeeps(run, steps, (w: World) => r in w.readers && w.readers[r].seen == seen, j, k);
  }

  /** A GET sees the stored status while the record's TTL lasts, and afterwards nothing, dropped yet or not. */
  lemma GetSees(w: World, r: nat)
    requires r !in w.readers
    ensures var seen := DoRead(w, r).readers[r].seen;
            && (seen.Some? <==> w.slot.meta.Some? && w.now <= w.slot.meta.value.expiresAt)
            && (seen.Some? ==> seen.value.status == w.slot.meta.value.value.status && seen.value.expiresAtUnix == w.slot.meta.value.value.expiresAtUnix)
  {
  }

  /**
   * A status answer is true of the box at the instant of its GET; an "expired" one is true of the box for good. A
   * "not found" one says that the payload is unreadable in every state since the GET.
   */
  lemma StatusTellsTheTruth(run: seq<World>, steps: seq<Step>, j: nat, k: nat, r: nat)
    requires Run(run, steps) && j <= k < |run| && r in run[j].readers
    requires r in run[k].readers && run[k].readers[r].phase.Answered?
    ensures var reader := run[k].readers[r];
            match reader.phase.answer
            case StatusNotFound => !reader.sawBox.Available? && Live(run[j].slot.payload, run[j].now).None?
            case StatusIs(s) =>
              && (s.Active? ==> reader.sawBox.Available?)
              && (s.Consumed? ==> reader.sawBox.Opened?)
              && (s.Expired? ==> !Abs(run[k]).Available?)
  {
    RunInv(run, steps, k);
    SeenRun(run, steps, j, k, r);
    MissRun(run, steps, k, r);
    MissRun(run, steps, j, r);
    assert ReaderOk(run[k], r);
  }

  /** What a finalize or a status call's delete has emptied, no later step fills again. */
  lemma EmptiedForGood(run: seq<World>, steps: seq<Step>, i: nat, j: nat)
    requires Run(run, steps) && i < j < |run|
    requires steps[i].RunDelete? || Shown(run[i], run[i + 1]).Deliver?
    ensures run[j].slot.payload.None?
  {
    RunInv(run, steps, i);
    EmptiesNow(run[i], steps[i]);
    forall w, step | Inv(w) && Enabled(w, step) && w.slot.payload.None? ensures Do(w, step).slot.payload.None? {
      StepPayload(w, step);
    }
    RunKeeps(run, steps, (w: World) => w.slot.payload.None?, i + 1, j);
  }

  lemma EmptiesNow(w: World, step: Step)
    requires Inv(w) && Enabled(w, step) && (step.RunDelete? || Shown(w, Do(w, step)).Deliver?)
    ensures Do(w, step).slot.payload.None?
  {
    StepInv(w, step);
    if !step.RunDelete? {
      StepRefinesBox(w, step);
      assert Abs(Do(w, step)).Opened?;
    }
  }

  // ---- Stragglers ----

  /**
   * Nothing that can go wrong is left out of the runs: in every state a call may begin, an unfinished one may break
   * off, and a key that has timed out may be dropped or linger.
   */
  lemma AnythingMayHappen(w: World, id: string, key: AtRestKey, r: nat, ms: nat)
    ensures Enabled(w, Tick(ms))
    ensures id !in w.openers ==> Enabled(w, BeginOpen(id, key))
    ensures id in w.openers && !w.openers[id].phase.Returned? ==> Enabled(w, GiveUp(id))
    ensures r !in w.readers ==> Enabled(w, ReadStatus(r))
    ensures r in w.readers && !w.readers[r].phase.Answered? ==> Enabled(w, FailStatus(r))
    ensures w.slot.meta.Some? && w.slot.meta.value.expiresAt < w.now ==> Enabled(w, DropMetadata)
    ensures w.slot.payload.Some? && w.slot.payload.value.expiresAt < w.now ==> Enabled(w, DropPayload)
  {
  }

  predicate IsRequest(step: Step) {
    step.RunClaim? || step.RunFinalize? || step.RunAbort? || step.RunOverwrite? || step.RunDelete?
  }

  /** A call's own step sends the request that follows from it, with the clock sample of that step. */
  lemma SendingEnables(w: World, step: Step, delivered: bool)
    requires Inv(w) && Enabled(w, step)
    ensures step.SendClaim? ==> Enabled(Do(w, step), RunClaim(step.claimID, delivered)) && Do(w, step).openers[step.claimID].claimAt == Some(w.now)
    ensures step.Decide? && w.openers[step.claimID].phase.claimReply.ClaimOk? ==>
              if w.openers[step.claimID].key == w.born.key then
                Enabled(Do(w, step), RunFinalize(step.claimID, delivered)) && Do(w, step).openers[step.claimID].finalizeAt == Some(w.now)
              else
                Enabled(Do(w, step), RunAbort(step.claimID, delivered)) && Do(w, step).openers[step.claimID].abortAt == Some(w.now)
    ensures step.CheckClock? && Do(w, step).readers[step.reader].phase.Overwriting? ==> Enabled(Do(w, step), RunOverwrite(step.reader, delivered))
    ensures step.RunOverwrite? && step.delivered && w.readers[step.reader].phase.Overwriting? ==> Enabled(Do(w, step), RunDelete(step.reader, delivered))
  {
    if step.Decide? {
      assert OpenerOk(w, step.claimID);
    }
  }

  lemma RunnableOpenStays(w: World, step: Step, request: Step)
    requires Enabled(w, step) && Enabled(w, request) && (request.RunClaim? || request.RunFinalize? || request.RunAbort?)
    ensures Enabled(Do(w, step), request)
  {
  }

  lemma RunnableStatusStays(w: World, step: Step, request: Step)
    requires Enabled(w, step) && Enabled(w, request) && (request.RunOverwrite? || request.RunDelete?)
    ensures Enabled(Do(w, step), request)
  {
  }

  /**
   * Redis may run a request that was sent at any later time, whatever its call has come to by then, and again and
   * again.
   */
  lemma SentMayRun(run: seq<World>, steps: seq<Step>, i: nat, j: nat, request: Step)
    requires Run(run, steps) && i <= j < |run| && IsRequest(request) && Enabled(run[i], request)
    ensures Enabled(run[j], request)
  {
    forall w, step | Inv(w) && Enabled(w, step) && Enabled(w, request) ensures Enabled(Do(w, step), request) {
      if request.RunOverwrite? || request.RunDelete? {
        RunnableStatusStays(w, step, request);
      } else {
        RunnableOpenStays(w, step, request);
      }
    }
    RunKeeps(run, steps, (w: World) => Enabled(w, request), i, j);
  }
}
