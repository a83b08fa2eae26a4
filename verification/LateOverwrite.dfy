/**
 * The one mark a late status write can hide: "consumed". When it can, and that otherwise
 * the mark stays for its whole retention.
 */
module LateOverwrite {
  import opened Basics
  import opened SecretTypes
  import opened OpenScripts
  import opened OpenProtocol
  import opened OpenInvariant
  import opened OpenSafety
  import opened OpenLiveness

  /** The first instant of the secret's second. */
  function DueAt(b: Creation): (due: nat)
    requires b.Valid()
    ensures due > 0
  {
    b.ExpiresAtUnix() * 1000
  }

  // ---- Calls within their deadline ----

  /** The status call holds an active record, and the clock now says that it has expired: it will write. */
  predicate WillWrite(w: World, r: nat)
    requires r in w.readers
  {
    var seen := w.readers[r].seen;
    seen.Some? && seen.value.status.Active? && seen.value.expiresAtUnix <= Sec(w.now)
  }

  /** A status call sends no write once its deadline is over. Redis may still run a sent write at any later time. */
  predicate PromptStep(w: World, step: Step)
    requires Enabled(w, step)
  {
    step.CheckClock? && WillWrite(w, step.reader) ==> w.now <= w.readers[step.reader].readAt + OPERATION_TIMEOUT_MS
  }

  predicate Prompt(w: World, steps: seq<Step>)
    requires CanDo(w, steps)
    decreases |steps|
  {
    steps == [] || (PromptStep(w, steps[0]) && Prompt(Do(w, steps[0]), steps[1..]))
  }

  /** Everything that a call does, or that Redis does for it, happens within the call's deadline. */
  predicate StepInTime(w: World, step: Step)
    requires Enabled(w, step)
  {
    match step
    case Tick(_) => true
    case DropMetadata => true
    case DropPayload => true
    case BeginOpen(_, _) => true
    case ReadStatus(_) => true
    case CheckClock(r) => w.now <= w.readers[r].readAt + OPERATION_TIMEOUT_MS
    case RunOverwrite(r, _) => w.now <= w.readers[r].readAt + OPERATION_TIMEOUT_MS
    case RunDelete(r, _) => w.now <= w.readers[r].readAt + OPERATION_TIMEOUT_MS
    case AnswerAnyway(r) => w.now <= w.readers[r].readAt + OPERATION_TIMEOUT_MS
    case FailStatus(r) => w.now <= w.readers[r].readAt + OPERATION_TIMEOUT_MS
    case _ => w.now <= w.openers[step.claimID].start + OPERATION_TIMEOUT_MS
  }

  predicate InTime(w: World, steps: seq<Step>)
    requires CanDo(w, steps)
    decreases |steps|
  {
    steps == [] || (StepInTime(w, steps[0]) && InTime(Do(w, steps[0]), steps[1..]))
  }

  lemma {:induction false} InTimeIsPrompt(w: World, steps: seq<Step>)
    requires CanDo(w, steps) && InTime(w, steps)
    ensures Prompt(w, steps)
    decreases |steps|
  {
    if steps != [] {
      InTimeIsPrompt(Do(w, steps[0]), steps[1..]);
    }
  }

  // ---- What holds when no status call writes late ----

  /** A call that was granted the secret sampled its clock before the secret's second. */
  ghost predicate GrantedBefore(w: World, id: string)
    requires w.born.Valid() && id in w.openers
  {
    var o := w.openers[id];
    o.finalizeAt.Some? || (o.phase.Claimed? && o.phase.claimReply.ClaimOk?) ==>
      o.claimAt.Some? && Sec(o.claimAt.value) < w.born.ExpiresAtUnix()
  }

  /** A status call that writes read "active" no more than its deadline before the secret's second. */
  ghost predicate WriterOk(w: World, r: nat)
    requires w.born.Valid() && r in w.readers
  {
    var reader := w.readers[r];
    reader.overwrite.Some? ==>
      && reader.seen.Some? && reader.seen.value.status.Active?
      && DueAt(w.born) <= reader.readAt + OPERATION_TIMEOUT_MS
  }

  /** Opened at `t`: who saw it active read earlier, and the mark is still there unless it may be hidden or has timed out. */
  ghost predicate BurntSince(w: World, t: nat)
    requires w.born.Valid()
  {
    && t <= w.now
    && (forall r :: r in w.readers && w.readers[r].seen.Some? && w.readers[r].seen.value.status.Active? ==> w.readers[r].readAt <= t)
    && match w.slot.meta
       case None => t + RETENTION_MS < w.now
       case Some(m) =>
         || (m.value.status.Consumed? && m.expiresAt == t + RETENTION_MS)
         || (m.value.status.Expired? && t + RETENTION_MS <= m.expiresAt && DueAt(w.born) <= t + OPERATION_TIMEOUT_MS)
  }

  /** The call that opened the secret had sampled its clock earlier, and before the secret's second. */
  ghost predicate OpenerBefore(w: World, e: Event)
    requires w.born.Valid() && IsOpen(e)
  {
    && e.claimID in w.openers && w.openers[e.claimID].claimAt.Some?
    && w.openers[e.claimID].claimAt.value <= e.at
    && Sec(w.openers[e.claimID].claimAt.value) < w.born.ExpiresAtUnix()
  }

  ghost predicate PromptInv(w: World) {
    && Inv(w)
    && (forall id :: id in w.openers ==> GrantedBefore(w, id))
    && (forall r :: r in w.readers ==> WriterOk(w, r))
    && (forall i :: 0 <= i < |w.log| && IsOpen(w.log[i]) ==> BurntSince(w, w.log[i].at) && OpenerBefore(w, w.log[i]))
  }

  lemma ClaimGrantsBefore(b: Creation, at: nat, s: Slot, burnt: bool, now: int, id: string, until: int)
    requires b.Valid() && SlotOk(b, at, s, burnt)
    ensures Claim(s, at, now, id, until).1.ClaimOk? ==> now < b.ExpiresAtUnix()
  {
  }

  lemma ClaimBefore(w: World, id: string, delivered: bool)
    requires KeysOk(w) && Enabled(w, RunClaim(id, delivered)) && GrantedBefore(w, id)
    ensures GrantedBefore(DoClaim(w, id, delivered), id)
  {
    var sampled := w.openers[id].claimAt.value;
    ClaimGrantsBefore(w.born, w.now, w.slot, EverOpened(w.log), Sec(sampled), id, Sec(sampled + CLAIM_LEASE_MS));
  }

  /** No step but the claim script grants. */
  lemma OtherStepsGrantNothing(w: World, step: Step, id: string)
    requires w.born.Valid() && Enabled(w, step) && !step.RunClaim? && id in Do(w, step).openers
    requires id in w.openers ==> GrantedBefore(w, id) && PhaseOk(w.born, w.log, id, w.openers[id])
    ensures Do(w, step).born == w.born && GrantedBefore(Do(w, step), id)
  {
  }

  lemma CallsStep(w: World, step: Step, id: string)
    requires KeysOk(w) && Enabled(w, step) && id in Do(w, step).openers && Do(w, step).born == w.born
    requires id in w.openers ==> GrantedBefore(w, id) && OpenerOk(w, id)
    ensures GrantedBefore(Do(w, step), id)
  {
    if step.RunClaim? {
      if step.claimID == id {
        ClaimBefore(w, id, step.delivered);
      }
    } else {
      OtherStepsGrantNothing(w, step, id);
    }
  }

  lemma CheckWrites(w: World, r: nat)
    requires w.born.Valid() && Enabled(w, CheckClock(r)) && PromptStep(w, CheckClock(r))
    requires WriterOk(w, r) && SeenOk(w.born, w.slot, w.readers[r])
    ensures WriterOk(DoCheck(w, r), r)
  {
  }

  lemma OtherStepsWriteNothing(w: World, step: Step, r: nat)
    requires Enabled(w, step) && r in Do(w, step).readers && step != CheckClock(r)
    ensures Do(w, step).readers[r].overwrite.Some? ==>
              && r in w.readers
              && Do(w, step).readers[r].overwrite == w.readers[r].overwrite
              && Do(w, step).readers[r].seen == w.readers[r].seen
              && Do(w, step).readers[r].readAt == w.readers[r].readAt
  {
  }

  lemma WritersStep(w: World, step: Step, r: nat)
    requires KeysOk(w) && Enabled(w, step) && PromptStep(w, step) && r in Do(w, step).readers && Do(w, step).born == w.born
    requires r in w.readers ==> WriterOk(w, r) && SeenOk(w.born, w.slot, w.readers[r])
    ensures WriterOk(Do(w, step), r)
  {
    if step == CheckClock(r) {
      CheckWrites(w, r);
    } else {
      OtherStepsWriteNothing(w, step, r);
    }
  }

  /** A step adds at most one event, and only a finalize adds an open. */
  lemma StepLog(w: World, step: Step)
    requires Enabled(w, step)
    ensures var more := Do(w, step).log;
            && |w.log| <= |more| <= |w.log| + 1 && more[..|w.log|] == w.log
            && (|more| == |w.log| + 1 && IsOpen(more[|w.log|]) ==> step.RunFinalize?)
  {
  }

  /** The scripts of others leave the marks of a closed slot. */
  lemma ScriptsLeaveClosed(w: World, step: Step)
    requires Enabled(w, step) && Closed(w.slot) && (step.RunClaim? || step.RunFinalize? || step.RunAbort?)
    ensures Do(w, step).slot == w.slot
  {
    match step
    case RunClaim(id, _) => ClaimEnded(w, w.openers[id].claimAt.value, id);
    case RunFinalize(id, _) => FinalizeEnded(w, w.openers[id].finalizeAt.value, id);
    case RunAbort(id, _) => AbortEnded(w, w.openers[id].abortAt.value, id);
  }

  lemma BurntStep(w: World, step: Step, t: nat)
    requires w.born.Valid() && Enabled(w, step) && BurntSince(w, t)
    requires step.RunOverwrite? ==> WriterOk(w, step.reader) && w.readers[step.reader].overwrite.value.status.Expired?
    ensures BurntSince(Do(w, step), t)
  {
    if step.RunClaim? || step.RunFinalize? || step.RunAbort? {
      ScriptsLeaveClosed(w, step);
    }
  }

  /** The finalize that opens the secret. */
  lemma BurnsNow(w: World, id: string, delivered: bool)
    requires Inv(w) && Enabled(w, RunFinalize(id, delivered)) && GrantedBefore(w, id)
    ensures var w' := DoFinalize(w, id, delivered); var e := w'.log[|w.log|];
            IsOpen(e) ==> e.at == w.now && BurntSince(w', w.now) && OpenerBefore(w', e)
  {
    assert OpenerOk(w, id);
    forall r | r in w.readers ensures w.readers[r].readAt <= w.now {
      assert ReaderOk(w, r);
    }
  }

  lemma CallKept(w: World, step: Step, id: string)
    requires Enabled(w, step) && id in w.openers && w.openers[id].claimAt.Some? && !w.openers[id].phase.Begun?
    ensures id in Do(w, step).openers && Do(w, step).openers[id].claimAt == w.openers[id].claimAt
  {
  }

  lemma StartKept(w: World, step: Step)
    requires Enabled(w, step)
    ensures forall id :: id in w.openers ==> id in Do(w, step).openers && Do(w, step).openers[id].start == w.openers[id].start
    ensures forall r :: r in w.readers ==> r in Do(w, step).readers && Do(w, step).readers[r].readAt == w.readers[r].readAt
  {
  }

  lemma EventKept(w: World, step: Step, e: Event)
    requires w.born.Valid() && Enabled(w, step) && IsOpen(e) && BurntSince(w, e.at) && OpenerBefore(w, e)
    requires step.RunOverwrite? ==> WriterOk(w, step.reader) && w.readers[step.reader].overwrite.value.status.Expired?
    requires !w.openers[e.claimID].phase.Begun?
    ensures Do(w, step).born == w.born && BurntSince(Do(w, step), e.at) && OpenerBefore(Do(w, step), e)
  {
    StepFrame(w, step);
    BurntStep(w, step, e.at);
    CallKept(w, step, e.claimID);
  }

  lemma EventsStep(w: World, step: Step, i: nat)
    requires PromptInv(w) && Enabled(w, step) && i < |Do(w, step).log| && IsOpen(Do(w, step).log[i])
    ensures var w' := Do(w, step);
            w'.born == w.born && BurntSince(w', w'.log[i].at) && OpenerBefore(w', w'.log[i])
  {
    StepLog(w, step);
    var w' := Do(w, step);
    if i < |w.log| {
      assert w'.log[i] == w.log[i];
      if step.RunOverwrite? {
        assert ReaderOk(w, step.reader);
      }
      assert OpenerOk(w, w.log[i].claimID);
      EventKept(w, step, w.log[i]);
    } else {
      StepFrame(w, step);
      BurnsNow(w, step.claimID, step.delivered);
    }
  }

  lemma PromptInvStep(w: World, step: Step)
    requires PromptInv(w) && Enabled(w, step) && PromptStep(w, step)
    ensures PromptInv(Do(w, step))
  {
    var w' := Do(w, step);
    StepInv(w, step);
    StepFrame(w, step);
    forall id | id in w'.openers ensures GrantedBefore(w', id) {
      assert id in w.openers ==> OpenerOk(w, id);
      CallsStep(w, step, id);
    }
    forall r | r in w'.readers ensures WriterOk(w', r) {
      assert r in w.readers ==> ReaderOk(w, r);
      WritersStep(w, step, r);
    }
    forall i | 0 <= i < |w'.log| && IsOpen(w'.log[i]) ensures BurntSince(w', w'.log[i].at) && OpenerBefore(w', w'.log[i]) {
      EventsStep(w, step, i);
    }
  }

  lemma {:induction false} PromptInvRun(w: World, steps: seq<Step>)
    requires PromptInv(w) && CanDo(w, steps) && Prompt(w, steps)
    ensures PromptInv(DoAll(w, steps)) && DoAll(w, steps).born == w.born
    decreases |steps|
  {
    if steps != [] {
      PromptInvStep(w, steps[0]);
      StepFrame(w, steps[0]);
      PromptInvRun(Do(w, steps[0]), steps[1..]);
    }
  }

  lemma PromptReaches(w: World, steps: seq<Step>, t: nat)
    requires Init(w) && CanDo(w, steps) && Prompt(w, steps) && OpenedAt(DoAll(w, steps).log, t)
    ensures var w' := DoAll(w, steps);
            && PromptInv(w') && w'.born == w.born && BurntSince(w', t)
            && w.born.storedAt <= t <= w.born.PayloadEnd() && Sec(w.born.storedAt) < w.born.ExpiresAtUnix()
  {
    InitInv(w);
    PromptInvRun(w, steps);
    var w' := DoAll(w, steps);
    var i :| 0 <= i < |w'.log| && IsOpen(w'.log[i]) && w'.log[i].at == t;
    assert EventOk(w', w'.log[i]) && OpenerBefore(w', w'.log[i]) && OpenerOk(w', w'.log[i].claimID);
    assert Sec(w.born.storedAt) <= Sec(w'.openers[w'.log[i].claimID].claimAt.value);
  }

  /**
   * Opened more than a call's deadline before its second, a secret reads "consumed" for the whole retention, to
   * status calls and to open calls, wherever the run goes on to, if only status calls do not write past their
   * deadline.
   */
  lemma ConsumedUntilOverwritten(w: World, steps: seq<Step>, t: nat)
    requires Init(w) && CanDo(w, steps) && Prompt(w, steps) && OpenedAt(DoAll(w, steps).log, t)
    requires t + 5_000 < w.born.ExpiresAtUnix() * 1000
    ensures var w' := DoAll(w, steps); var meta := Live(w'.slot.meta, w'.now);
            && (meta.Some? <==> w'.now <= t + 604_800_000)
            && (meta.Some? ==> meta.value.status.Consumed? && GoRead(w') == Some(meta.value.GoView()))
            && (meta.Some? ==> forall now: int, id, until: int :: Claim(w'.slot, w'.now, now, id, until) == (w'.slot, ClaimConsumed))
            && (meta.Some? ==> forall now: nat, id :: Finalize(w'.slot, w'.now, now, id) == (w'.slot, FinalizeConsumed))
  {
    PromptReaches(w, steps, t);
  }

  // ---- A run that hides the mark ----

  /** Steps that as a whole take no longer than a deadline, among calls that are young enough, are in time. */
  lemma {:induction false} ShortIsInTime(w: World, steps: seq<Step>)
    requires CanDo(w, steps) && DoAll(w, steps).now <= w.now + OPERATION_TIMEOUT_MS
    requires forall id :: id in w.openers ==> DoAll(w, steps).now <= w.openers[id].start + OPERATION_TIMEOUT_MS
    requires forall r :: r in w.readers ==> DoAll(w, steps).now <= w.readers[r].readAt + OPERATION_TIMEOUT_MS
    ensures InTime(w, steps) && w.now <= DoAll(w, steps).now
    decreases |steps|
  {
    if steps != [] {
      var w1 := Do(w, steps[0]);
      StepFrame(w, steps[0]);
      StartKept(w, steps[0]);
      StartNew(w, steps[0]);
      ShortIsInTime(w1, steps[1..]);
    }
  }

  lemma StartNew(w: World, step: Step)
    requires Enabled(w, step)
    ensures forall id :: id in Do(w, step).openers && id !in w.openers ==> Do(w, step).openers[id].start == w.now
    ensures forall r :: r in Do(w, step).readers && r !in w.readers ==> Do(w, step).readers[r].readAt == w.now
  {
  }

  /** Reader 0 holds the new secret's record and has not looked at the clock. */
  predicate HoldsNew(w: World) {
    w.born.Valid() && 0 in w.readers && w.readers[0].phase.HasRead? && w.readers[0].seen == Some(w.born.InitialMetadata())
  }

  const LATE_WRITE: seq<Step> := [CheckClock(0)] + [RunOverwrite(0, true)]

  /** A reader that saw the secret active and looks at the clock too late overwrites whatever is there. */
  lemma LateWrite(w: World)
    requires HoldsNew(w) && w.born.ExpiresAtUnix() <= Sec(w.now)
    ensures CanDo(w, LATE_WRITE)
    ensures DoAll(w, LATE_WRITE).log == w.log && DoAll(w, LATE_WRITE).now == w.now
    ensures MarkHidden(DoAll(w, LATE_WRITE))
  {
    var w1 := Do(w, CheckClock(0));
    DoOne(w1, RunOverwrite(0, true));
    DoCons(w, CheckClock(0), [RunOverwrite(0, true)]);
  }

  /** The metadata says "expired". */
  predicate MarkHidden(w: World) {
    w.slot.meta.Some? && w.slot.meta.value.value.status.Expired?
  }

  lemma ReadsNew(w: World, wait: nat, toClaim: nat)
    requires Init(w) && Sec(w.now + wait) < w.born.ExpiresAtUnix() && w.now + wait + toClaim <= w.born.PayloadEnd()
    ensures var w1 := DoRead(w.(now := w.now + wait), 0);
            MayClaim(w1, "a", Pace(0, toClaim, 0, 0, 0)) && HoldsNew(w1)
  {
    InitInv(w);
    StepInv(w, Tick(wait));
    StepInv(Do(w, Tick(wait)), ReadStatus(0));
  }

  /** When the calls of the run below begin: as late as they can for a secret opened at `t`. */
  function BeginAt(due: nat, t: nat): nat
    requires due > 0
  {
    if t < due then t else due - 1
  }

  /** What the run does from its GET, at `begin`, on: an open that burns the secret at `t`, then the late write. */
  function HidingRest(key: AtRestKey, begin: nat, t: nat, due: nat): seq<Step>
    requires begin <= t
  {
    OpeningAt(key, begin, t) + ([Tick(if t < due then due - t else 0)] + LATE_WRITE)
  }

  function OpeningAt(key: AtRestKey, begin: nat, t: nat): seq<Step>
    requires begin <= t
  {
    ClaimSteps("a", key, Pace(0, t - begin, 0, 0, 0)) + OpenSteps("a", Pace(0, t - begin, 0, 0, 0))
  }

  /** A status GET, an open call that burns the secret at `t`, and the status call's clock sample and late write. */
  function HidingSteps(w: World, t: nat): seq<Step>
    requires w.born.Valid() && w.now <= BeginAt(DueAt(w.born), t) <= t
  {
    var begin := BeginAt(DueAt(w.born), t);
    [Tick(begin - w.now)] + ([ReadStatus(0)] + HidingRest(w.born.key, begin, t, DueAt(w.born)))
  }

  /** The instants at which an open call within its deadline can burn the secret, and a status call hide it. */
  predicate MayHide(w: World, t: nat)
    requires w.born.Valid()
  {
    && w.born.storedAt <= t <= w.born.PayloadEnd() && Sec(w.born.storedAt) < w.born.ExpiresAtUnix()
    && DueAt(w.born) <= t + OPERATION_TIMEOUT_MS && t < DueAt(w.born) + OPERATION_TIMEOUT_MS
  }

  /** The steps can be taken, every call within its deadline, and leave a secret opened at `t` marked "expired". */
  predicate Hides(w: World, steps: seq<Step>, t: nat) {
    CanDo(w, steps) && InTime(w, steps) && OpenedAt(DoAll(w, steps).log, t) && MarkHidden(DoAll(w, steps))
  }

  lemma BeginsInTime(b: Creation, t: nat, begin: nat)
    requires b.Valid() && begin == BeginAt(DueAt(b), t)
    requires b.storedAt <= t && Sec(b.storedAt) < b.ExpiresAtUnix()
    requires DueAt(b) <= t + OPERATION_TIMEOUT_MS && t < DueAt(b) + OPERATION_TIMEOUT_MS
    ensures b.storedAt <= begin <= t && Sec(begin) < b.ExpiresAtUnix()
    ensures t <= begin + OPERATION_TIMEOUT_MS && DueAt(b) <= begin + OPERATION_TIMEOUT_MS
  {
  }

  predicate ReachesOpened(w: World, steps: seq<Step>, t: nat) {
    && CanDo(w, steps)
    && var w' := DoAll(w, steps);
    && HoldsNew(w') && w'.born == w.born && OpenedAt(w'.log, t) && w'.now == t
  }

  predicate ReachesHidden(w: World, steps: seq<Step>, t: nat, end: nat) {
    && CanDo(w, steps)
    && var w' := DoAll(w, steps);
    && MarkHidden(w') && OpenedAt(w'.log, t) && w'.now == end
  }

  lemma WaitAndWrite(w: World, first: seq<Step>, d: nat, t: nat)
    requires w.born.Valid() && ReachesOpened(w, first, t) && w.born.ExpiresAtUnix() <= Sec(t + d)
    ensures ReachesHidden(w, first + ([Tick(d)] + LATE_WRITE), t, t + d)
  {
    var w1 := DoAll(w, first);
    LateWrite(Do(w1, Tick(d)));
    DoCons(w1, Tick(d), LATE_WRITE);
    DoAppend(w, first, [Tick(d)] + LATE_WRITE);
  }

  lemma OpensForReader(w: World, t: nat)
    requires HoldsNew(w) && w.now <= t <= w.born.PayloadEnd() && MayClaim(w, "a", Pace(0, t - w.now, 0, 0, 0))
    ensures ReachesOpened(w, OpeningAt(w.born.key, w.now, t), t)
  {
    FreshSecretOpens(w, "a", Pace(0, t - w.now, 0, 0, 0));
  }

  /** From its GET on the run takes until `t` or the secret's second, whichever is later. */
  lemma HidesFromRead(w: World, t: nat, due: nat)
    requires HoldsNew(w) && w.now <= t <= w.born.PayloadEnd() && MayClaim(w, "a", Pace(0, t - w.now, 0, 0, 0))
    requires due == DueAt(w.born)
    ensures ReachesHidden(w, HidingRest(w.born.key, w.now, t, due), t, if t < due then due else t)
  {
    OpensForReader(w, t);
    WaitAndWrite(w, OpeningAt(w.born.key, w.now, t), if t < due then due - t else 0, t);
  }

  /** A wait, a GET on the new secret, and no more than one deadline's time from there. */
  lemma InTimeFromRead(w: World, wait: nat, rest: seq<Step>, t: nat, end: nat)
    requires w.openers == map[] && w.readers == map[]
    requires ReachesHidden(DoRead(w.(now := w.now + wait), 0), rest, t, end) && end <= w.now + wait + OPERATION_TIMEOUT_MS
    ensures Hides(w, [Tick(wait)] + ([ReadStatus(0)] + rest), t)
  {
    var w1 := Do(w, Tick(wait));
    DoCons(w1, ReadStatus(0), rest);
    DoCons(w, Tick(wait), [ReadStatus(0)] + rest);
    ShortIsInTime(w1, [ReadStatus(0)] + rest);
    assert ([Tick(wait)] + ([ReadStatus(0)] + rest))[1..] == [ReadStatus(0)] + rest;
  }

  /**
   * For every instant between a deadline before the secret's second and the last at which a call can open it in
   * time, the run above burns the secret at that instant and leaves it marked "expired", every call within its
   * deadline.
   */
  lemma LateWriteHidesConsumption(w: World, t: nat)
    requires Init(w) && MayHide(w, t)
    ensures w.now <= BeginAt(DueAt(w.born), t) <= t && Hides(w, HidingSteps(w, t), t)
  {
    var due := DueAt(w.born);
    var begin := BeginAt(due, t);
    BeginsInTime(w.born, t, begin);
    ReadThenHides(w, begin - w.now, t, due);
    InTimeFromRead(w, begin - w.now, HidingRest(w.born.key, begin, t, due), t, if t < due then due else t);
  }

  lemma ReadThenHides(w: World, wait: nat, t: nat, due: nat)
    requires Init(w) && w.now + wait <= t <= w.born.PayloadEnd() && Sec(w.now + wait) < w.born.ExpiresAtUnix()
    requires due == DueAt(w.born)
    ensures ReachesHidden(DoRead(w.(now := w.now + wait), 0), HidingRest(w.born.key, w.now + wait, t, due), t, if t < due then due else t)
  {
    ReadsNew(w, wait, t - w.now - wait);
    HidesFromRead(DoRead(w.(now := w.now + wait), 0), t, due);
  }

  // ---- Exactly when ----

  /** An open call within its deadline opens before the secret's second, or less than a deadline after it. */
  lemma {:induction false} OpensInTime(w: World, steps: seq<Step>)
    requires PromptInv(w) && CanDo(w, steps) && InTime(w, steps)
    requires forall i :: 0 <= i < |w.log| && IsOpen(w.log[i]) ==> w.log[i].at < DueAt(w.born) + OPERATION_TIMEOUT_MS
    ensures PromptInv(DoAll(w, steps))
    ensures forall i :: 0 <= i < |DoAll(w, steps).log| && IsOpen(DoAll(w, steps).log[i]) ==>
              DoAll(w, steps).log[i].at < DueAt(w.born) + OPERATION_TIMEOUT_MS
    decreases |steps|
  {
    if steps != [] {
      var w1 := Do(w, steps[0]);
      PromptInvStep(w, steps[0]);
      StepFrame(w, steps[0]);
      StepLog(w, steps[0]);
      forall i | 0 <= i < |w1.log| && IsOpen(w1.log[i])
        ensures w1.log[i].at < DueAt(w.born) + OPERATION_TIMEOUT_MS
      {
        if i < |w.log| {
          assert w1.log[i] == w.log[i];
        } else {
          OpenInTime(w, steps[0]);
        }
      }
      OpensInTime(w1, steps[1..]);
    }
  }

  lemma OpenInTime(w: World, step: Step)
    requires PromptInv(w) && Enabled(w, step) && step.RunFinalize? && StepInTime(w, step)
    ensures w.now < DueAt(w.born) + OPERATION_TIMEOUT_MS
    ensures Do(w, step).log[|w.log|].at == w.now
  {
    assert OpenerOk(w, step.claimID) && GrantedBefore(w, step.claimID);
  }

  /**
   * A secret opened at `t` by calls within their deadlines can come to read "expired", no call exceeding its
   * deadline, if and only if `t` is no more than one deadline before the secret's second.
   */
  lemma HiddenExactlyNearExpiry(w: World, steps: seq<Step>, t: nat)
    requires Init(w) && CanDo(w, steps) && InTime(w, steps) && OpenedAt(DoAll(w, steps).log, t)
    ensures (exists late :: Hides(w, late, t)) <==> w.born.ExpiresAtUnix() * 1000 <= t + 5_000
  {
    if DueAt(w.born) <= t + OPERATION_TIMEOUT_MS {
      MayHideIfOpened(w, steps, t);
      LateWriteHidesConsumption(w, t);
    }
    forall late | Hides(w, late, t) ensures DueAt(w.born) <= t + OPERATION_TIMEOUT_MS {
      InTimeIsPrompt(w, late);
      PromptReaches(w, late, t);
    }
  }

  lemma MayHideIfOpened(w: World, steps: seq<Step>, t: nat)
    requires Init(w) && CanDo(w, steps) && InTime(w, steps) && OpenedAt(DoAll(w, steps).log, t)
    requires DueAt(w.born) <= t + OPERATION_TIMEOUT_MS
    ensures MayHide(w, t)
  {
    InTimeIsPrompt(w, steps);
    PromptReaches(w, steps, t);
    InitInv(w);
    OpensInTime(w, steps);
  }
}
