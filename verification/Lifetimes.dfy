/** How long a secret and its marks last, in the seconds and milliseconds that the requests and constants name. */
module Lifetimes {
  import opened Basics
  import opened SecretTypes
  import opened OpenScripts
  import opened OpenProtocol
  import opened OpenInvariant
  import opened OneShotBox
  import opened OpenSafety
  import opened OpenLiveness
  import opened OpenAnswers

  // ---- The lifetime asked for ----

  /** The requested seconds: what the two stored records and the two TTLs of a creation are made of. */
  lemma CreatedLastsAsAsked(c: Creation)
    requires c.Valid()
    ensures var ttl := if c.req.ttlSeconds != 0 then c.req.ttlSeconds else c.req.expiresInMinutes * 60;
            && ttl > 0 && c.storedAt <= c.sampledAt + 5_000
            && c.PayloadEnd() == c.storedAt + 1000 * ttl
            && c.ExpiresAtUnix() == (c.sampledAt + 1000 * ttl) / 1000
            && c.Payload().expiresAt == c.sampledAt + 1000 * ttl
            && var slot := Created(c);
            && slot.payload.Some? && slot.payload.value.expiresAt == c.storedAt + 1000 * ttl
            && slot.meta.Some? && slot.meta.value.expiresAt == c.storedAt + 1000 * ttl + 604_800_000
            && slot.meta.value.value.createdAtUnix == c.sampledAt / 1000
            && slot.meta.value.value.expiresAtUnix == (c.sampledAt + 1000 * ttl) / 1000
            && slot.meta.value.value.ttlSeconds == ttl
  {
  }

  /** Over every run: readable and unrefused up to the promised second, and never opened five seconds past it. */
  lemma OpensWithinLifetime(run: seq<World>, steps: seq<Step>, k: nat)
    requires Run(run, steps) && k < |run|
    ensures var req := run[0].born.req; var end := run[0].born.sampledAt + 1000 * (if req.ttlSeconds != 0 then req.ttlSeconds else req.expiresInMinutes * 60);
            && (forall i :: 0 <= i < |run[k].log| && IsOpen(run[k].log[i]) ==> run[k].log[i].at <= end + 5_000)
            && (!EverOpened(run[k].log) && run[k].now / 1000 < end / 1000 ==>
                  Abs(run[k]).Available? && Live(run[k].slot.payload, run[k].now).Some? && Live(run[k].slot.meta, run[k].now).Some?)
            && (run[k].now > end + 5_000 ==> Live(run[k].slot.payload, run[k].now).None? && !Abs(run[k]).Available?)
  {
    RunInv(run, steps, k);
    RunBorn(run, steps, k);
    CreatedLastsAsAsked(run[k].born);
    forall i | 0 <= i < |run[k].log| && IsOpen(run[k].log[i]) ensures run[k].log[i].at <= run[k].born.PayloadEnd() {
      assert EventOk(run[k], run[k].log[i]);
    }
  }

  // ---- The mark that a script leaves ----

  /** A script that marks the secret: the record it reads is not marked yet, the one it leaves is. */
  predicate Marks(s: Slot, s': Slot, at: nat) {
    && Live(s.meta, at).Some? && !Live(s.meta, at).value.status.Expired?
    && Live(s'.meta, at).Some? && Live(s'.meta, at).value.status.Expired?
  }

  /**
   * Once a script has marked the secret expired, status reads and scripts find just that for the seven days, and
   * then nothing; the payload is unreadable at once.
   */
  lemma ExpiredMarkLasts(s: Slot, first: Intrusion, later: nat, now: int, consumedAt: nat, id: string, until: int)
    requires Marks(s, Intrude(s, first), first.at) && first.at <= later
    ensures var s' := Intrude(s, first);
            && Live(s'.payload, later).None?
            && (later <= first.at + 604_800_000 ==>
                  && Live(s'.meta, later) == Some(s.meta.value.value.(status := Expired, openingID := None, openingUntilUnix := None))
                  && Claim(s', later, now, id, until) == (s', ClaimExpired)
                  && Finalize(s', later, consumedAt, id) == (s', FinalizeExpired)
                  && Abort(s', later, now, id) == (s', AbortIgnored))
            && (later > first.at + 604_800_000 ==>
                  && Live(s'.meta, later).None?
                  && Claim(s', later, now, id, until) == (s', ClaimNotFound)
                  && Finalize(s', later, consumedAt, id) == (s', FinalizeNotFound)
                  && Abort(s', later, now, id) == (s', AbortNotFound))
  {
  }

  // ---- The same over runs ----

  /** The mark is kept at least until `end`, which is no further away than a new mark would last. */
  predicate MarkedUntil(w: World, end: nat) {
    && end <= w.now + RETENTION_MS
    && (w.now <= end ==> w.slot.meta.Some? && w.slot.meta.value.value.status.Expired? && end <= w.slot.meta.value.expiresAt)
  }

  lemma MarkStep(w: World, step: Step)
    requires Inv(w) && Enabled(w, step) && Marks(w.slot, Do(w, step).slot, w.now)
    ensures MarkedUntil(Do(w, step), w.now + 604_800_000)
  {
    NowGrows(w, step);
    if step.RunOverwrite? {
      assert ReaderOk(w, step.reader);
    }
  }

  lemma MarkedStays(w: World, step: Step, end: nat)
    requires Inv(w) && Enabled(w, step) && MarkedUntil(w, end)
    ensures MarkedUntil(Do(w, step), end)
  {
    NowGrows(w, step);
    if step.RunOverwrite? {
      assert ReaderOk(w, step.reader);
    } else if w.now <= end && (step.RunClaim? || step.RunFinalize? || step.RunAbort?) {
      ScriptsLeaveEnded(w, step);
    }
  }

  lemma ScriptsLeaveEnded(w: World, step: Step)
    requires Enabled(w, step) && Ended(w) && (step.RunClaim? || step.RunFinalize? || step.RunAbort?)
    ensures Do(w, step).slot == w.slot
  {
    match step
    case RunClaim(id, _) => ClaimEnded(w, w.openers[id].claimAt.value, id);
    case RunFinalize(id, _) => FinalizeEnded(w, w.openers[id].finalizeAt.value, id);
    case RunAbort(id, _) => AbortEnded(w, w.openers[id].abortAt.value, id);
  }

  lemma MarkedRun(run: seq<World>, steps: seq<Step>, k: nat, j: nat)
    requires Run(run, steps) && k < j < |run| && Marks(run[k].slot, run[k + 1].slot, run[k].now)
    ensures MarkedUntil(run[j], run[k].now + 604_800_000)
  {
    var end := run[k].now + 604_800_000;
    RunInv(run, steps, k);
    MarkStep(run[k], steps[k]);
    forall w, step | Inv(w) && Enabled(w, step) && MarkedUntil(w, end) ensures MarkedUntil(Do(w, step), end) {
      MarkedStays(w, step, end);
    }
    RunKeeps(run, steps, (w: World) => MarkedUntil(w, end), k + 1, j);
  }

  lemma ClockRun(run: seq<World>, steps: seq<Step>, i: nat, j: nat)
    requires Run(run, steps) && i <= j < |run|
    ensures run[i].now <= run[j].now
  {
    var t := run[i].now;
    forall w, step | Inv(w) && Enabled(w, step) && t <= w.now ensures t <= Do(w, step).now {
      NowGrows(w, step);
    }
    RunKeeps(run, steps, (w: World) => t <= w.now, i, j);
  }

  /** The metadata is gone, or has come back as a late status call's mark. */
  predicate Missed(w: World) {
    Live(w.slot.meta, w.now).None? || Live(w.slot.meta, w.now).value.status.Expired?
  }

  lemma MissedStays(w: World, step: Step)
    requires Inv(w) && Enabled(w, step) && Missed(w)
    ensures Missed(Do(w, step))
  {
    if step.RunOverwrite? {
      assert ReaderOk(w, step.reader);
    } else if step.RunClaim? || step.RunFinalize? || step.RunAbort? {
      ScriptsLeaveEnded(w, step);
    }
  }

  lemma MissedRun(run: seq<World>, steps: seq<Step>, i: nat, j: nat)
    requires Run(run, steps) && i <= j < |run| && Missed(run[i])
    ensures Missed(run[j])
  {
    forall w, step | Inv(w) && Enabled(w, step) && Missed(w) ensures Missed(Do(w, step)) {
      MissedStays(w, step);
    }
    RunKeeps(run, steps, Missed, i, j);
  }

  /** The state in which a status call's GET found what it found. */
  lemma {:induction false} ReadAt(run: seq<World>, steps: seq<Step>, k: nat, r: nat) returns (m: nat)
    requires Run(run, steps) && k < |run| && r in run[k].readers
    ensures m < k && steps[m] == ReadStatus(r) && run[k].readers[r].seen == GoRead(run[m])
  {
    if r in run[k - 1].readers {
      m := ReadAt(run, steps, k - 1, r);
      SeenStays(run[k - 1], steps[k - 1], r);
    } else {
      OnlyReadsAppear(run[k - 1], steps[k - 1], r);
      m := k - 1;
    }
  }

  /** Nobody misses the metadata before it was marked, or while the mark lasts. */
  lemma NotMissedAround(run: seq<World>, steps: seq<Step>, k: nat, j: nat, m: nat)
    requires Run(run, steps) && k < j < |run| && Marks(run[k].slot, run[k + 1].slot, run[k].now)
    requires run[j].now <= run[k].now + 604_800_000 && m < j
    ensures Live(run[m].slot.meta, run[m].now).Some?
  {
    if m <= k {
      if Live(run[m].slot.meta, run[m].now).None? {
        MissedRun(run, steps, m, k);
      }
    } else {
      ClockRun(run, steps, m, j);
      MarkedRun(run, steps, k, m);
    }
  }

  lemma NotFoundNeedsMiss(w: World, step: Step, id: string)
    requires Inv(w) && Enabled(w, step) && Explains(w, step, id, Failed(SecretNotFound))
    ensures Live(w.slot.meta, w.now).None?
  {
  }

  /**
   * From the mark on, over every run, the metadata reads "expired" for seven days, and up to then no open call and
   * no status call at all has been told "not found".
   */
  lemma MarkIsKept(run: seq<World>, steps: seq<Step>, k: nat, j: nat)
    requires Run(run, steps) && k < j < |run| && Marks(run[k].slot, run[k + 1].slot, run[k].now)
    requires run[j].now <= run[k].now + 604_800_000
    ensures Live(run[j].slot.meta, run[j].now).Some? && Live(run[j].slot.meta, run[j].now).value.status.Expired?
    ensures forall id :: id in run[j].openers ==> run[j].openers[id].phase != Returned(Failed(SecretNotFound))
    ensures forall r :: r in run[j].readers ==> run[j].readers[r].phase != Answered(StatusNotFound)
  {
    MarkedRun(run, steps, k, j);
    forall id | id in run[j].openers && run[j].openers[id].phase == Returned(Failed(SecretNotFound)) ensures false {
      var m := EveryResultIsTold(run, steps, j, id);
      RunInv(run, steps, m);
      NotFoundNeedsMiss(run[m], steps[m], id);
      NotMissedAround(run, steps, k, j, m);
    }
    forall r | r in run[j].readers && run[j].readers[r].phase == Answered(StatusNotFound) ensures false {
      MissRun(run, steps, j, r);
      var m := ReadAt(run, steps, j, r);
      NotMissedAround(run, steps, k, j, m);
    }
  }
}
