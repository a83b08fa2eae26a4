/**
 * Reveal sessions beside the open protocol: timed records bound to a token hash. Stores
 * may be repeated and come late, session records of other tokens share the store, and
 * every step of the secret's own machine may come in between. An open request that names
 * a session starts its call only once the session has passed; one that names none starts
 * its call at once.
 */
module RevealSessions {
  import opened Basics
  import opened SecretTypes
  import opened OpenProtocol
  import opened OpenInvariant
  import opened OpenSafety
  import opened RedisService

  /** A session that was issued, when, and by which status call; none if it is for another token. */
  datatype Issued = Issued(record: RevealSessionRecord, sampledAt: nat, reader: Option<nat>)

  datatype Verdict = Pending | Passed(at: nat) | UnknownSession | WrongToken | SessionExpired

  /** One open request for this secret's token that names a session, and the open call it went on to, if any. */
  datatype Check = Check(sessionID: string, seen: Option<RevealSessionRecord>, verdict: Verdict, claim: Option<string>)

  datatype House = House(
    secret: World,
    issued: map<string, Issued>,
    stored: map<string, Timed<RevealSessionRecord>>,
    checks: map<nat, Check>)

  datatype HouseStep =
    | SecretStep(step: Step)
    | Issue(reader: nat, sessionID: string)
    | IssueOther(sessionID: string, otherHash: string)
    | RunStore(sessionID: string)
    | DropSession(sessionID: string)
    | ReadSession(check: nat, sessionID: string)
    | Judge(check: nat)
    | RunDeleteSession(check: nat)
    | OpenThrough(check: nat, claimID: string, key: AtRestKey)

  predicate HouseEnabled(h: House, step: HouseStep) {
    match step
    case SecretStep(s) => Enabled(h.secret, s)
    case Issue(r, sid) => r in h.secret.readers && h.secret.readers[r].phase == Answered(StatusIs(Active)) && sid !in h.issued
    case IssueOther(sid, other) => other != h.secret.born.tokenHash && sid !in h.issued
    case RunStore(sid) => sid in h.issued
    case DropSession(sid) => sid in h.stored && h.stored[sid].expiresAt < h.secret.now
    case ReadSession(c, _) => c !in h.checks
    case Judge(c) => c in h.checks && h.checks[c].verdict.Pending?
    case RunDeleteSession(c) => c in h.checks && h.checks[c].verdict.SessionExpired?
    case OpenThrough(c, id, key) =>
      c in h.checks && h.checks[c].verdict.Passed? && h.checks[c].claim.None? && Enabled(h.secret, BeginOpen(id, key))
  }

  function Judgement(seen: Option<RevealSessionRecord>, tokenHash: string, now: nat): Verdict {
    match seen
    case None => UnknownSession
    case Some(record) =>
      if record.tokenHash != tokenHash then WrongToken
      else if !record.active || record.expiresAtUnix <= Sec(now) then SessionExpired
      else Passed(now)
  }

  function HouseDo(h: House, step: HouseStep): House
    requires HouseEnabled(h, step)
  {
    var now := h.secret.now;
    match step
    case SecretStep(s) => h.(secret := Do(h.secret, s))
    case Issue(r, sid) => h.(issued := h.issued[sid := Issued(NewSession(sid, h.secret.born.tokenHash, now), now, Some(r))])
    case IssueOther(sid, other) => h.(issued := h.issued[sid := Issued(NewSession(sid, other, now), now, None)])
    case RunStore(sid) => h.(stored := h.stored[sid := Timed(h.issued[sid].record, now + REVEAL_SESSION_TTL_MS)])
    case DropSession(sid) => h.(stored := h.stored - {sid})
    case ReadSession(c, sid) => h.(checks := h.checks[c := Check(sid, Live(Lookup(h.stored, sid), now), Pending, None)])
    case Judge(c) => h.(checks := h.checks[c := h.checks[c].(verdict := Judgement(h.checks[c].seen, h.secret.born.tokenHash, now))])
    case RunDeleteSession(c) => h.(stored := h.stored - {h.checks[c].sessionID})
    case OpenThrough(c, id, key) => h.(secret := DoBegin(h.secret, id, key), checks := h.checks[c := h.checks[c].(claim := Some(id))])
  }

  ghost predicate HouseRun(run: seq<House>, steps: seq<HouseStep>) {
    && |run| == |steps| + 1
    && Init(run[0].secret) && run[0].issued == map[] && run[0].stored == map[] && run[0].checks == map[]
    && forall i :: 0 <= i < |steps| ==> HouseEnabled(run[i], steps[i]) && run[i + 1] == HouseDo(run[i], steps[i])
  }

  ghost predicate IssuedOk(h: House, sid: string)
    requires sid in h.issued
  {
    var issued := h.issued[sid];
    && issued.sampledAt <= h.secret.now
    && issued.record == NewSession(sid, issued.record.tokenHash, issued.sampledAt)
    && (issued.reader.None? <==> issued.record.tokenHash != h.secret.born.tokenHash)
    && (issued.reader.Some? ==>
          && issued.reader.value in h.secret.readers
          && h.secret.readers[issued.reader.value].phase == Answered(StatusIs(Active))
          && h.secret.readers[issued.reader.value].readAt <= issued.sampledAt)
  }

  ghost predicate CheckOk(h: House, c: nat)
    requires c in h.checks
  {
    var check := h.checks[c];
    && (check.seen.Some? ==> check.sessionID in h.issued && check.seen.value == h.issued[check.sessionID].record)
    && (check.verdict.Passed? ==>
          && check.seen.Some? && check.seen.value.tokenHash == h.secret.born.tokenHash
          && h.issued[check.sessionID].sampledAt <= check.verdict.at <= h.secret.now
          && Sec(check.verdict.at) < check.seen.value.expiresAtUnix)
    && (check.claim.Some? ==>
          && check.verdict.Passed?
          && check.claim.value in h.secret.openers
          && check.verdict.at <= h.secret.openers[check.claim.value].start)
  }

  /** No two requests go on to the same call. */
  ghost predicate RoutesOk(checks: map<nat, Check>) {
    forall c, d :: c in checks && d in checks && checks[c].claim.Some? && checks[c].claim == checks[d].claim ==> c == d
  }

  ghost predicate HouseInv(h: House) {
    && Inv(h.secret)
    && (forall sid :: sid in h.issued ==> IssuedOk(h, sid))
    && (forall sid :: sid in h.stored ==> sid in h.issued && h.stored[sid].value == h.issued[sid].record)
    && (forall c :: c in h.checks ==> CheckOk(h, c))
    && RoutesOk(h.checks)
  }

  /** An answered status call is left as it is by every step. */
  lemma AnsweredStays(w: World, step: Step, r: nat)
    requires Enabled(w, step) && r in w.readers && w.readers[r].phase.Answered?
    ensures r in Do(w, step).readers && Do(w, step).readers[r] == w.readers[r]
  {
  }

  /** A call that has begun stays, with the instant it began at. */
  lemma CallStays(w: World, step: Step, id: string)
    requires Enabled(w, step) && id in w.openers
    ensures id in Do(w, step).openers && Do(w, step).openers[id].start == w.openers[id].start
  {
  }

  lemma SecretFrame(w: World, step: Step)
    requires Enabled(w, step)
    ensures w.now <= Do(w, step).now && Do(w, step).born == w.born
  {
  }

  lemma HouseSecretStep(h: House, s: Step)
    requires HouseInv(h) && Enabled(h.secret, s)
    ensures HouseInv(h.(secret := Do(h.secret, s)))
  {
    var h' := h.(secret := Do(h.secret, s));
    StepInv(h.secret, s);
    SecretFrame(h.secret, s);
    forall sid | sid in h'.issued ensures IssuedOk(h', sid) {
      assert IssuedOk(h, sid);
      if h.issued[sid].reader.Some? {
        AnsweredStays(h.secret, s, h.issued[sid].reader.value);
      }
    }
    forall c | c in h'.checks ensures CheckOk(h', c) {
      assert CheckOk(h, c);
      if h.checks[c].claim.Some? {
        CallStays(h.secret, s, h.checks[c].claim.value);
      }
    }
  }

  lemma IssueInv(h: House, step: HouseStep)
    requires HouseInv(h) && HouseEnabled(h, step) && (step.Issue? || step.IssueOther?)
    ensures HouseInv(HouseDo(h, step))
  {
    var h' := HouseDo(h, step);
    if step.Issue? {
      assert ReaderOk(h.secret, step.reader);
    }
    forall sid | sid in h'.issued ensures IssuedOk(h', sid) {
      assert sid in h.issued ==> IssuedOk(h, sid);
    }
    forall c | c in h'.checks ensures CheckOk(h', c) {
      assert CheckOk(h, c);
    }
  }

  /** Stores, deletions and TTLs only move records that were issued. */
  lemma StoreInv(h: House, step: HouseStep)
    requires HouseInv(h) && HouseEnabled(h, step) && (step.RunStore? || step.DropSession? || step.RunDeleteSession?)
    ensures HouseInv(HouseDo(h, step))
  {
    var h' := HouseDo(h, step);
    forall sid | sid in h'.issued ensures IssuedOk(h', sid) {
      assert IssuedOk(h, sid);
    }
    forall c | c in h'.checks ensures CheckOk(h', c) {
      assert CheckOk(h, c);
    }
  }

  /** A step of one check leaves every session and every other check as it was. */
  lemma CheckInv(h: House, h': House, c: nat)
    requires HouseInv(h) && c in h'.checks && h' == h.(checks := h.checks[c := h'.checks[c]])
    requires CheckOk(h', c)
    requires forall d :: d in h.checks && d != c && h'.checks[c].claim.Some? ==> h.checks[d].claim != h'.checks[c].claim
    ensures HouseInv(h')
  {
    forall sid | sid in h'.issued ensures IssuedOk(h', sid) {
      assert IssuedOk(h, sid);
    }
    forall k | k in h'.checks && k != c ensures CheckOk(h', k) {
      assert CheckOk(h, k);
    }
  }

  lemma JudgeInv(h: House, c: nat)
    requires HouseInv(h) && HouseEnabled(h, Judge(c))
    ensures HouseInv(HouseDo(h, Judge(c)))
  {
    assert CheckOk(h, c);
    assert h.checks[c].seen.Some? ==> IssuedOk(h, h.checks[c].sessionID);
    CheckInv(h, HouseDo(h, Judge(c)), c);
  }

  /** Starting a call through a session: the secret's own step, then the mark on the request. */
  lemma OpenThroughInv(h: House, c: nat, id: string, key: AtRestKey)
    requires HouseInv(h) && HouseEnabled(h, OpenThrough(c, id, key))
    ensures HouseInv(HouseDo(h, OpenThrough(c, id, key)))
  {
    var begun := h.(secret := DoBegin(h.secret, id, key));
    HouseSecretStep(h, BeginOpen(id, key));
    forall d | d in h.checks && d != c ensures h.checks[d].claim != Some(id) {
      assert CheckOk(h, d);
    }
    assert CheckOk(h, c) && CheckOk(begun, c);
    CheckInv(begun, HouseDo(h, OpenThrough(c, id, key)), c);
  }

  lemma HouseStepInv(h: House, step: HouseStep)
    requires HouseInv(h) && HouseEnabled(h, step)
    ensures HouseInv(HouseDo(h, step))
  {
    match step
    case SecretStep(s) => HouseSecretStep(h, s);
    case Issue(_, _) => IssueInv(h, step);
    case IssueOther(_, _) => IssueInv(h, step);
    case ReadSession(c, _) => CheckInv(h, HouseDo(h, step), c);
    case Judge(c) => JudgeInv(h, c);
    case OpenThrough(c, id, key) => OpenThroughInv(h, c, id, key);
    case _ => StoreInv(h, step);
  }

  lemma {:induction false} HouseRunInv(run: seq<House>, steps: seq<HouseStep>, k: nat)
    requires HouseRun(run, steps) && k < |run|
    ensures HouseInv(run[k]) && run[k].secret.born == run[0].secret.born
  {
    if k == 0 {
      InitInv(run[0].secret);
    } else {
      HouseRunInv(run, steps, k - 1);
      HouseStepInv(run[k - 1], steps[k - 1]);
      if steps[k - 1].SecretStep? {
        SecretFrame(run[k - 1].secret, steps[k - 1].step);
      }
    }
  }

  /**
   * The session was issued for this very token, less than 15 minutes before `at`, by a call whose status read found
   * the secret available.
   */
  ghost predicate Genuine(h: House, sessionID: string, at: nat) {
    && sessionID in h.issued
    && var issued := h.issued[sessionID];
    && issued.record.tokenHash == h.secret.born.tokenHash
    && issued.sampledAt <= at < issued.sampledAt + 900_000
    && issued.reader.Some? && issued.reader.value in h.secret.readers
    && var reader := h.secret.readers[issued.reader.value];
    && reader.phase == Answered(StatusIs(Active)) && reader.readAt <= issued.sampledAt && reader.sawBox.Available?
  }

  /** Only a genuine session passes. */
  lemma PassedSessionIsGenuine(run: seq<House>, steps: seq<HouseStep>, k: nat, c: nat)
    requires HouseRun(run, steps) && k < |run| && c in run[k].checks && run[k].checks[c].verdict.Passed?
    ensures Genuine(run[k], run[k].checks[c].sessionID, run[k].checks[c].verdict.at)
    ensures run[k].secret.born == run[0].secret.born
  {
    HouseRunInv(run, steps, k);
    var h := run[k];
    assert CheckOk(h, c);
    assert IssuedOk(h, h.checks[c].sessionID);
    assert ReaderOk(h.secret, h.issued[h.checks[c].sessionID].reader.value);
  }

  /**
   * A request that names a session starts an open call only after that session has passed, and only a genuine one
   * does; no two requests start the same call.
   */
  lemma RoutedOpenIsGenuine(run: seq<House>, steps: seq<HouseStep>, k: nat, c: nat)
    requires HouseRun(run, steps) && k < |run| && c in run[k].checks && run[k].checks[c].claim.Some?
    ensures var h := run[k]; var check := h.checks[c];
            && check.verdict.Passed? && Genuine(h, check.sessionID, check.verdict.at)
            && check.claim.value in h.secret.openers
            && check.verdict.at <= h.secret.openers[check.claim.value].start
            && forall d :: d in h.checks && h.checks[d].claim == check.claim ==> d == c
  {
    HouseRunInv(run, steps, k);
    assert CheckOk(run[k], c);
    PassedSessionIsGenuine(run, steps, k, c);
  }

  /** What a step with sessions is to the secret: one of its own steps, or none. */
  function AsSecretStep(step: HouseStep): Option<Step> {
    match step
    case SecretStep(s) => Some(s)
    case OpenThrough(_, id, key) => Some(BeginOpen(id, key))
    case _ => None
  }

  lemma SecretMoves(h: House, step: HouseStep)
    requires HouseEnabled(h, step)
    ensures match AsSecretStep(step)
            case Some(s) => Enabled(h.secret, s) && HouseDo(h, step).secret == Do(h.secret, s)
            case None => HouseDo(h, step).secret == h.secret
  {
  }

  lemma RunExtends(run: seq<World>, steps: seq<Step>, step: Step)
    requires Run(run, steps) && Enabled(run[|steps|], step)
    ensures Run(run + [Do(run[|steps|], step)], steps + [step])
  {
  }

  /**
   * Seen from the secret, a run with sessions is a run without them, in which a call that was started through a
   * session begins like any other.
   */
  lemma {:induction false} SessionsAreInvisible(run: seq<House>, steps: seq<HouseStep>, k: nat) returns (secretRun: seq<World>, secretSteps: seq<Step>)
    requires HouseRun(run, steps) && k < |run|
    ensures Run(secretRun, secretSteps) && |secretSteps| <= k
    ensures secretRun[0] == run[0].secret && secretRun[|secretSteps|] == run[k].secret
  {
    if k == 0 {
      secretRun, secretSteps := [run[0].secret], [];
    } else {
      secretRun, secretSteps := SessionsAreInvisible(run, steps, k - 1);
      var step := AsSecretStep(steps[k - 1]);
      SecretMoves(run[k - 1], steps[k - 1]);
      if step.Some? {
        RunExtends(secretRun, secretSteps, step.value);
        secretRun, secretSteps := secretRun + [Do(secretRun[|secretSteps|], step.value)], secretSteps + [step.value];
      }
    }
  }

  /**
   * Of all requests, with and without sessions, at most one is given the secret. If it came through a session, that
   * session is genuine, and no other session check led to the secret.
   */
  lemma OnceThroughSessions(run: seq<House>, steps: seq<HouseStep>, k: nat, id: string, other: string)
    requires HouseRun(run, steps) && k < |run|
    requires ReturnedSecret(run[k].secret, id) && ReturnedSecret(run[k].secret, other)
    ensures id == other && run[k].secret.openers[id].key == run[0].secret.born.key
    ensures forall c :: c in run[k].checks && run[k].checks[c].claim == Some(id) ==>
              && run[k].checks[c].verdict.Passed?
              && Genuine(run[k], run[k].checks[c].sessionID, run[k].checks[c].verdict.at)
              && run[k].checks[c].verdict.at <= run[k].secret.openers[id].start
    ensures forall c, d :: c in run[k].checks && d in run[k].checks && run[k].checks[c].claim == Some(id) && run[k].checks[d].claim == Some(other) ==> c == d
  {
    var secretRun, secretSteps := SessionsAreInvisible(run, steps, k);
    ReturnsTheSecretOnce(secretRun, secretSteps, |secretSteps|, id, other);
    forall c | c in run[k].checks && run[k].checks[c].claim == Some(id)
      ensures run[k].checks[c].verdict.Passed? && Genuine(run[k], run[k].checks[c].sessionID, run[k].checks[c].verdict.at)
      ensures run[k].checks[c].verdict.at <= run[k].secret.openers[id].start
    {
      RoutedOpenIsGenuine(run, steps, k, c);
    }
    HouseRunInv(run, steps, k);
  }

  // ---- A session that was issued passes ----

  /** The session is this token's, and its record is in the store for now. */
  ghost predicate Kept(h: House, sid: string, until: nat) {
    && sid in h.issued && h.issued[sid].reader.Some?
    && sid in h.stored && h.secret.now <= until <= h.stored[sid].expiresAt
  }

  /** A request only deletes a session whose second has come. */
  ghost predicate DeletesLate(h: House, c: nat)
    requires c in h.checks
  {
    var check := h.checks[c];
    check.verdict.SessionExpired? ==>
      check.seen.Some? && check.seen.value.expiresAtUnix <= Sec(h.secret.now)
  }

  lemma DeletesLateStep(h: House, step: HouseStep, c: nat)
    requires HouseInv(h) && HouseEnabled(h, step) && c in HouseDo(h, step).checks
    requires c in h.checks ==> DeletesLate(h, c)
    ensures DeletesLate(HouseDo(h, step), c)
  {
    if step.SecretStep? {
      SecretFrame(h.secret, step.step);
      assert Sec(h.secret.now) <= Sec(Do(h.secret, step.step).now);
    } else if step == Judge(c) {
      assert CheckOk(h, c);
      if h.checks[c].seen.Some? {
        assert IssuedOk(h, h.checks[c].sessionID);
      }
    }
  }

  lemma {:induction false} DeletesLateRun(run: seq<House>, steps: seq<HouseStep>, k: nat, c: nat)
    requires HouseRun(run, steps) && k < |run| && c in run[k].checks
    ensures DeletesLate(run[k], c)
  {
    if k > 0 {
      HouseRunInv(run, steps, k - 1);
      if c in run[k - 1].checks {
        DeletesLateRun(run, steps, k - 1, c);
      }
      DeletesLateStep(run[k - 1], steps[k - 1], c);
    }
  }

  lemma HouseClock(h: House, step: HouseStep)
    requires HouseEnabled(h, step)
    ensures h.secret.now <= HouseDo(h, step).secret.now
    ensures forall sid :: sid in h.issued ==> sid in HouseDo(h, step).issued && HouseDo(h, step).issued[sid] == h.issued[sid]
  {
    if step.SecretStep? {
      SecretFrame(h.secret, step.step);
    }
  }

  /** A record goes only when its TTL or its session is over, and a repeated store only renews its TTL. */
  lemma StoredStep(h: House, step: HouseStep, sid: string)
    requires HouseEnabled(h, step) && sid in h.stored && sid in h.issued
    requires step != DropSession(sid) && (step.RunDeleteSession? ==> h.checks[step.check].sessionID != sid)
    ensures sid in HouseDo(h, step).stored
    ensures HouseDo(h, step).stored[sid].expiresAt == h.stored[sid].expiresAt || HouseDo(h, step).stored[sid].expiresAt == h.secret.now + REVEAL_SESSION_TTL_MS
  {
  }

  lemma KeptStep(h: House, step: HouseStep, sid: string, until: nat)
    requires HouseInv(h) && HouseEnabled(h, step) && Kept(h, sid, until)
    requires step.RunDeleteSession? ==> DeletesLate(h, step.check)
    requires until <= h.secret.now + REVEAL_SESSION_TTL_MS && HouseDo(h, step).secret.now <= until
    requires Sec(h.secret.now) < h.issued[sid].record.expiresAtUnix
    ensures Kept(HouseDo(h, step), sid, until)
  {
    if step.RunDeleteSession? {
      assert CheckOk(h, step.check);
    }
    HouseClock(h, step);
    StoredStep(h, step, sid);
  }

  ghost predicate Clocked(run: seq<House>) {
    forall n :: 0 <= n < |run| - 1 ==> run[n].secret.now <= run[n + 1].secret.now
  }

  lemma RunIsClocked(run: seq<House>, steps: seq<HouseStep>)
    requires HouseRun(run, steps)
    ensures Clocked(run)
  {
    forall n | 0 <= n < |run| - 1 ensures run[n].secret.now <= run[n + 1].secret.now {
      HouseClock(run[n], steps[n]);
    }
  }

  lemma {:induction false} ClockOrder(run: seq<House>, i: nat, j: nat)
    requires Clocked(run) && i <= j < |run|
    ensures run[i].secret.now <= run[j].secret.now && Sec(run[i].secret.now) <= Sec(run[j].secret.now)
  {
    if i < j {
      ClockOrder(run, i, j - 1);
    }
  }

  /** The session's record and its last second have not run out. */
  ghost predicate Lasts(h: House, sid: string, until: nat, record: Issued) {
    Kept(h, sid, until) && h.issued[sid] == record && until <= h.secret.now + REVEAL_SESSION_TTL_MS
  }

  /** If the session lasts in this state and its time is not over in the next, it lasts in the next. */
  ghost predicate LastsOn(run: seq<House>, n: nat, sid: string, until: nat, record: Issued) {
    n < |run| - 1 && Lasts(run[n], sid, until, record) && run[n + 1].secret.now <= until && Sec(run[n + 1].secret.now) < record.record.expiresAtUnix ==>
      Lasts(run[n + 1], sid, until, record)
  }

  lemma KeptNext(run: seq<House>, steps: seq<HouseStep>, n: nat, sid: string, until: nat, record: Issued)
    requires HouseRun(run, steps)
    ensures LastsOn(run, n, sid, until, record)
  {
    if n < |steps| && Lasts(run[n], sid, until, record) && run[n + 1].secret.now <= until && Sec(run[n + 1].secret.now) < record.record.expiresAtUnix {
      HouseRunInv(run, steps, n);
      HouseClock(run[n], steps[n]);
      assert Sec(run[n].secret.now) <= Sec(run[n + 1].secret.now);
      if steps[n].RunDeleteSession? {
        DeletesLateRun(run, steps, n, steps[n].check);
      }
      KeptStep(run[n], steps[n], sid, until);
    }
  }

  lemma {:induction false} LastsTo(run: seq<House>, i: nat, j: nat, sid: string, until: nat, record: Issued)
    requires Clocked(run) && i <= j < |run| && Lasts(run[i], sid, until, record)
    requires run[j].secret.now <= until && Sec(run[j].secret.now) < record.record.expiresAtUnix
    requires forall n: nat :: LastsOn(run, n, sid, until, record)
    ensures Lasts(run[j], sid, until, record)
  {
    if i < j {
      ClockOrder(run, j - 1, j);
      LastsTo(run, i, j - 1, sid, until, record);
      assert LastsOn(run, j - 1, sid, until, record);
    }
  }

  /** A check that is still pending holds what its read found. */
  lemma {:induction false} PendingRun(run: seq<House>, steps: seq<HouseStep>, i: nat, j: nat, c: nat)
    requires HouseRun(run, steps) && i <= j < |run| && c in run[i].checks
    ensures c in run[j].checks && run[j].checks[c].seen == run[i].checks[c].seen && run[j].checks[c].sessionID == run[i].checks[c].sessionID
  {
    if i < j {
      PendingRun(run, steps, i, j - 1, c);
    }
  }

  /**
   * An issued session passes: read within 900 000 ms of being stored and judged before its last second, whatever
   * else happens in between, stores of it repeated and sessions deleted included.
   */
  lemma IssuedSessionPasses(run: seq<House>, steps: seq<HouseStep>, k: nat, l: nat, m: nat, sid: string, c: nat)
    requires HouseRun(run, steps) && k < l < m < |steps|
    requires steps[k] == RunStore(sid) && run[k].issued[sid].reader.Some?
    requires steps[l] == ReadSession(c, sid) && run[l].secret.now <= run[k].secret.now + 900_000
    requires steps[m] == Judge(c) && run[m].secret.now / 1000 < (run[k].issued[sid].sampledAt + 900_000) / 1000
    ensures run[m + 1].checks[c].verdict == Passed(run[m].secret.now)
  {
    var until := run[k].secret.now + 900_000;
    var record := run[k].issued[sid];
    HouseRunInv(run, steps, k);
    assert IssuedOk(run[k], sid);
    RunIsClocked(run, steps);
    ClockOrder(run, k + 1, l);
    ClockOrder(run, l, m);
    forall n: nat ensures LastsOn(run, n, sid, until, record) {
      KeptNext(run, steps, n, sid, until, record);
    }
    assert Lasts(run[k + 1], sid, until, record);
    LastsTo(run, k + 1, l, sid, until, record);
    HouseRunInv(run, steps, l);
    assert IssuedOk(run[l], sid);
    ReadIsJudged(run, steps, l, m, c);
  }

  /** What was read is what is judged, for this secret's token. */
  lemma ReadIsJudged(run: seq<House>, steps: seq<HouseStep>, l: nat, m: nat, c: nat)
    requires HouseRun(run, steps) && l < m < |steps| && steps[l].ReadSession? && steps[l].check == c && steps[m] == Judge(c)
    ensures c in run[m + 1].checks && run[0].secret.born == run[l].secret.born
    ensures run[m + 1].checks[c].verdict
         == Judgement(Live(Lookup(run[l].stored, steps[l].sessionID), run[l].secret.now), run[l].secret.born.tokenHash, run[m].secret.now)
  {
    HouseRunInv(run, steps, l);
    HouseRunInv(run, steps, m);
    PendingRun(run, steps, l + 1, m, c);
  }

  /** Deleting an expired session forgets that one and leaves every other; the secret does not see it. */
  lemma DeletionForgets(h: House, c: nat, other: string)
    requires HouseEnabled(h, RunDeleteSession(c))
    ensures var h' := HouseDo(h, RunDeleteSession(c));
            && h.checks[c].sessionID !in h'.stored && h'.secret == h.secret
            && (other != h.checks[c].sessionID ==> Lookup(h'.stored, other) == Lookup(h.stored, other))
  {
  }

  // ---- What a refusal means ----

  /** The state in which a request read its session, and what it found there. */
  lemma {:induction false} ReadAt(run: seq<House>, steps: seq<HouseStep>, k: nat, c: nat) returns (l: nat)
    requires HouseRun(run, steps) && k < |run| && c in run[k].checks
    ensures l < k && steps[l] == ReadSession(c, run[k].checks[c].sessionID)
    ensures run[k].checks[c].seen == Live(Lookup(run[l].stored, run[k].checks[c].sessionID), run[l].secret.now)
  {
    if c in run[k - 1].checks {
      l := ReadAt(run, steps, k - 1, c);
    } else {
      l := k - 1;
    }
  }

  /** A verdict fits what was read. */
  ghost predicate VerdictOk(h: House, c: nat)
    requires c in h.checks
  {
    var check := h.checks[c];
    && (check.verdict.UnknownSession? ==> check.seen.None?)
    && (check.verdict.WrongToken? ==> check.seen.Some? && check.seen.value.tokenHash != h.secret.born.tokenHash)
    && (check.verdict.SessionExpired? ==>
          check.seen.Some? && check.seen.value.tokenHash == h.secret.born.tokenHash && check.seen.value.expiresAtUnix <= h.secret.now / 1000)
  }

  lemma VerdictStep(h: House, step: HouseStep, c: nat)
    requires HouseInv(h) && HouseEnabled(h, step) && c in HouseDo(h, step).checks
    requires c in h.checks ==> VerdictOk(h, c)
    ensures VerdictOk(HouseDo(h, step), c)
  {
    HouseClock(h, step);
    if step.SecretStep? {
      SecretFrame(h.secret, step.step);
    } else if step == Judge(c) {
      assert CheckOk(h, c);
      if h.checks[c].seen.Some? {
        assert IssuedOk(h, h.checks[c].sessionID);
      }
    }
  }

  lemma {:induction false} VerdictRun(run: seq<House>, steps: seq<HouseStep>, k: nat, c: nat)
    requires HouseRun(run, steps) && k < |run| && c in run[k].checks
    ensures VerdictOk(run[k], c)
  {
    if k > 0 {
      HouseRunInv(run, steps, k - 1);
      if c in run[k - 1].checks {
        VerdictRun(run, steps, k - 1, c);
      }
      VerdictStep(run[k - 1], steps[k - 1], c);
    }
  }

  /**
   * A refused session was not stored when it was read, or was issued for another token, or its fifteen minutes were
   * over; and no request whose session was refused starts an open call.
   */
  lemma RefusalsMean(run: seq<House>, steps: seq<HouseStep>, k: nat, c: nat) returns (l: nat)
    requires HouseRun(run, steps) && k < |run| && c in run[k].checks
    ensures l < k && steps[l] == ReadSession(c, run[k].checks[c].sessionID)
    ensures var check := run[k].checks[c];
            && (check.verdict.UnknownSession? ==> Live(Lookup(run[l].stored, check.sessionID), run[l].secret.now).None?)
            && (check.verdict.WrongToken? ==> check.sessionID in run[k].issued && run[k].issued[check.sessionID].reader.None?)
            && (check.verdict.SessionExpired? ==>
                  && check.sessionID in run[k].issued && run[k].issued[check.sessionID].reader.Some?
                  && (run[k].issued[check.sessionID].sampledAt + 900_000) / 1000 <= run[k].secret.now / 1000)
            && (!check.verdict.Passed? ==> check.claim.None?)
  {
    l := ReadAt(run, steps, k, c);
    HouseRunInv(run, steps, k);
    VerdictRun(run, steps, k, c);
    assert CheckOk(run[k], c);
    if run[k].checks[c].seen.Some? {
      assert IssuedOk(run[k], run[k].checks[c].sessionID);
    }
  }

}
