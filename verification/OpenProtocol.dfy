/**
 * The life of one secret as a state machine: one Redis, one clock, any number of
 * ConsumeSecret and GetSecretStatus calls. A request that was sent may be run by
 * Redis at any later instant and any number of times, and any reply may be lost,
 * so retries, timeouts, crashes and stragglers are all runs of this machine.
 */
module OpenProtocol {
  import opened Basics
  import opened SecretTypes
  import opened OpenScripts

  datatype OpenResult = Delivered(response: ConsumeSecretResponse) | Failed(error: OpenError)

  datatype OpenPhase =
    | Begun
    | Claiming
    | Claimed(claimReply: ClaimReply)
    | Finalizing(payload: SecretPayload)
    | Finalized(payload: SecretPayload, finalizeReply: FinalizeReply)
    | Aborting
    | Returned(result: OpenResult)

  /** One ConsumeSecret call. The three instants are the clock samples of the requests it sent. */
  datatype Opener = Opener(
    start: nat,
    key: AtRestKey,
    claimAt: Option<nat>,
    finalizeAt: Option<nat>,
    abortAt: Option<nat>,
    phase: OpenPhase)

  datatype StatusAnswer = StatusNotFound | StatusIs(status: Status)

  datatype ReadPhase = HasRead | Overwriting | Deleting | Answered(answer: StatusAnswer) | ReadFailed

  /** The three things a secret can be, seen as an atomic box. */
  datatype Box = Available | Opened | Lapsed

  /**
   * One GetSecretStatus call. `sawBox` is a history variable: what the box was at
   * the instant of the GET.
   */
  datatype Reader = Reader(
    readAt: nat,
    seen: Option<Metadata>,
    sawBox: Box,
    overwrite: Option<Metadata>,
    deleteSent: bool,
    phase: ReadPhase)

  datatype Event =
    | ClaimRan(claimID: string, at: nat, claimReply: ClaimReply)
    | FinalizeRan(claimID: string, at: nat, finalizeReply: FinalizeReply)
    | AbortRan(claimID: string, at: nat, abortReply: AbortReply)
    | StatusGiven(reader: nat, at: nat, answer: StatusAnswer)

  datatype World = World(
    born: Creation,
    now: nat,
    slot: Slot,
    openers: map<string, Opener>,
    readers: map<nat, Reader>,
    log: seq<Event>)

  ghost predicate Init(w: World) {
    && w.born.Valid()
    && w.now == w.born.storedAt
    && w.slot == Created(w.born)
    && w.openers == map[]
    && w.readers == map[]
    && w.log == []
  }

  datatype Step =
    | Tick(ms: nat)
    | DropMetadata
    | DropPayload
    | BeginOpen(claimID: string, key: AtRestKey)
    | SendClaim(claimID: string)
    | RunClaim(claimID: string, delivered: bool)
    | Decide(claimID: string)
    | RunFinalize(claimID: string, delivered: bool)
    | RunAbort(claimID: string, delivered: bool)
    | Return(claimID: string)
    | GiveUp(claimID: string)
    | ReadStatus(reader: nat)
    | CheckClock(reader: nat)
    | RunOverwrite(reader: nat, delivered: bool)
    | RunDelete(reader: nat, delivered: bool)
    | AnswerAnyway(reader: nat)
    | FailStatus(reader: nat)

  predicate Enabled(w: World, step: Step) {
    match step
    case Tick(_) => true
    case DropMetadata => w.slot.meta.Some? && Live(w.slot.meta, w.now).None?
    case DropPayload => w.slot.payload.Some? && Live(w.slot.payload, w.now).None?
    case BeginOpen(id, _) => id !in w.openers
    case SendClaim(id) => id in w.openers && w.openers[id].phase.Begun?
    case RunClaim(id, _) => id in w.openers && w.openers[id].claimAt.Some?
    case Decide(id) => id in w.openers && w.openers[id].phase.Claimed?
    case RunFinalize(id, _) => id in w.openers && w.openers[id].finalizeAt.Some?
    case RunAbort(id, _) => id in w.openers && w.openers[id].abortAt.Some?
    case Return(id) => id in w.openers && w.openers[id].phase.Finalized?
    case GiveUp(id) => id in w.openers && !w.openers[id].phase.Returned?
    case ReadStatus(r) => r !in w.readers
    case CheckClock(r) => r in w.readers && w.readers[r].phase.HasRead?
    case RunOverwrite(r, _) => r in w.readers && w.readers[r].overwrite.Some?
    case RunDelete(r, _) => r in w.readers && w.readers[r].deleteSent
    case AnswerAnyway(r) => r in w.readers && w.readers[r].phase.Deleting?
    case FailStatus(r) => r in w.readers && !w.readers[r].phase.Answered?
  }

  function Do(w: World, step: Step): World
    requires Enabled(w, step)
  {
    match step
    case Tick(ms) => w.(now := w.now + ms)
    case DropMetadata => w.(slot := w.slot.(meta := None))
    case DropPayload => w.(slot := w.slot.(payload := None))
    case BeginOpen(id, key) => DoBegin(w, id, key)
    case SendClaim(id) => DoSend(w, id)
    case RunClaim(id, delivered) => DoClaim(w, id, delivered)
    case Decide(id) => DoDecide(w, id)
    case RunFinalize(id, delivered) => DoFinalize(w, id, delivered)
    case RunAbort(id, delivered) => DoAbort(w, id, delivered)
    case Return(id) => DoReturn(w, id)
    case GiveUp(id) => DoGiveUp(w, id)
    case ReadStatus(r) => DoRead(w, r)
    case CheckClock(r) => DoCheck(w, r)
    case RunOverwrite(r, delivered) => DoOverwrite(w, r, delivered)
    case RunDelete(r, delivered) => DoDelete(w, r, delivered)
    case AnswerAnyway(r) => Answer(w, r, StatusIs(Expired))
    case FailStatus(r) => SetReader(w, r, w.readers[r].(phase := ReadFailed))
  }

  function SetOpener(w: World, id: string, o: Opener): World {
    w.(openers := w.openers[id := o])
  }

  function SetReader(w: World, r: nat, reader: Reader): World {
    w.(readers := w.readers[r := reader])
  }

  function DoBegin(w: World, id: string, key: AtRestKey): World {
    SetOpener(w, id, Opener(w.now, key, None, None, None, Begun))
  }

  function DoSend(w: World, id: string): World
    requires Enabled(w, SendClaim(id))
  {
    SetOpener(w, id, w.openers[id].(claimAt := Some(w.now), phase := Claiming))
  }

  function DoDecide(w: World, id: string): World
    requires Enabled(w, Decide(id))
  {
    SetOpener(w, id, AfterClaim(w.openers[id], w.now))
  }

  function DoReturn(w: World, id: string): World
    requires Enabled(w, Return(id))
  {
    SetOpener(w, id, w.openers[id].(phase := Returned(AfterFinalize(w.openers[id].phase))))
  }

  function DoGiveUp(w: World, id: string): World
    requires Enabled(w, GiveUp(id))
  {
    SetOpener(w, id, w.openers[id].(phase := Returned(Failed(Unfinished(w.openers[id].phase)))))
  }

  function DoRead(w: World, r: nat): World {
    SetReader(w, r, Reader(w.now, GoRead(w), Abs(w), None, false, HasRead))
  }

  /** The claim request carries the second it sampled and, 30 s later, the end of its lease. */
  function DoClaim(w: World, id: string, delivered: bool): World
    requires Enabled(w, RunClaim(id, delivered))
  {
    var o := w.openers[id];
    var sampled := o.claimAt.value;
    var (slot, reply) := Claim(w.slot, w.now, Sec(sampled), id, Sec(sampled + CLAIM_LEASE_MS));
    var told := if delivered && o.phase.Claiming? then o.(phase := Claimed(reply)) else o;
    SetOpener(w, id, told).(slot := slot, log := w.log + [ClaimRan(id, w.now, reply)])
  }

  /** Decryption, then the clock sample and the request that follow from the claim's reply. */
  function AfterClaim(o: Opener, now: nat): Opener
    requires o.phase.Claimed?
  {
    match o.phase.claimReply
    case ClaimOk(envelope) =>
      (match Unseal(envelope, o.key)
       case Some(payload) => o.(finalizeAt := Some(now), phase := Finalizing(payload))
       case None => o.(abortAt := Some(now), phase := Aborting))
    case ClaimConsumed => o.(phase := Returned(Failed(SecretConsumed)))
    case ClaimExpired => o.(phase := Returned(Failed(SecretExpired)))
    case ClaimNotFound => o.(phase := Returned(Failed(SecretNotFound)))
  }

  function DoFinalize(w: World, id: string, delivered: bool): World
    requires Enabled(w, RunFinalize(id, delivered))
  {
    var o := w.openers[id];
    var (slot, reply) := Finalize(w.slot, w.now, Sec(o.finalizeAt.value), id);
    var told := if delivered && o.phase.Finalizing? then o.(phase := Finalized(o.phase.payload, reply)) else o;
    SetOpener(w, id, told).(slot := slot, log := w.log + [FinalizeRan(id, w.now, reply)])
  }

  function Response(payload: SecretPayload, meta: Metadata): ConsumeSecretResponse {
    ConsumeSecretResponse(payload.ciphertext, payload.nonce, payload.algorithm, payload.content, meta.consumedAtUnix)
  }

  function AfterFinalize(phase: OpenPhase): OpenResult
    requires phase.Finalized?
  {
    match phase.finalizeReply
    case FinalizeOk(meta) => Delivered(Response(phase.payload, meta))
    case FinalizeConsumed => Failed(SecretConsumed)
    case FinalizeExpired => Failed(SecretExpired)
    case FinalizeNotFound => Failed(SecretNotFound)
    case FinalizeConflict => Failed(Superseded)
  }

  /** A lost abort reply is ignored; every other lost reply, timeout or crash ends the call without an answer. */
  function Unfinished(phase: OpenPhase): OpenError {
    if phase.Aborting? then DecryptFailed else GaveUp
  }

  /** Whatever the abort answers, the call reports that it could not decrypt. */
  function DoAbort(w: World, id: string, delivered: bool): World
    requires Enabled(w, RunAbort(id, delivered))
  {
    var o := w.openers[id];
    var (slot, reply) := Abort(w.slot, w.now, Sec(o.abortAt.value), id);
    var told := if delivered && o.phase.Aborting? then o.(phase := Returned(Failed(DecryptFailed))) else o;
    SetOpener(w, id, told).(slot := slot, log := w.log + [AbortRan(id, w.now, reply)])
  }

  /** The GET of a status call, unmarshalled into the Go struct. */
  function GoRead(w: World): Option<Metadata> {
    match Live(w.slot.meta, w.now)
    case None => None
    case Some(m) => Some(m.GoView())
  }

  function Answer(w: World, r: nat, answer: StatusAnswer): World
    requires r in w.readers
  {
    SetReader(w, r, w.readers[r].(phase := Answered(answer))).(log := w.log + [StatusGiven(r, w.now, answer)])
  }

  function DoCheck(w: World, r: nat): World
    requires Enabled(w, CheckClock(r))
  {
    match w.readers[r].seen
    case None => Answer(w, r, StatusNotFound)
    case Some(m) =>
      if m.status.Active? && m.expiresAtUnix <= Sec(w.now) then
        SetReader(w, r, w.readers[r].(overwrite := Some(m.(status := Expired)), phase := Overwriting))
      else
        Answer(w, r, StatusIs(m.status))
  }

  function DoOverwrite(w: World, r: nat, delivered: bool): World
    requires Enabled(w, RunOverwrite(r, delivered))
  {
    var reader := w.readers[r];
    var written := Some(Timed(reader.overwrite.value, w.now + RETENTION_MS));
    var told := if delivered && reader.phase.Overwriting? then reader.(deleteSent := true, phase := Deleting) else reader;
    SetReader(w, r, told).(slot := w.slot.(meta := written))
  }

  function DoDelete(w: World, r: nat, delivered: bool): World
    requires Enabled(w, RunDelete(r, delivered))
  {
    var emptied := w.(slot := w.slot.(payload := None));
    if delivered && w.readers[r].phase.Deleting? then Answer(emptied, r, StatusIs(Expired)) else emptied
  }

  /** `run` is what the steps, taken in order from a fresh secret, lead through. */
  ghost predicate Run(run: seq<World>, steps: seq<Step>) {
    && |run| == |steps| + 1
    && Init(run[0])
    && forall i :: 0 <= i < |steps| ==> Enabled(run[i], steps[i]) && run[i + 1] == Do(run[i], steps[i])
  }

  /** The steps can be taken one after the other from `w`. */
  predicate CanDo(w: World, steps: seq<Step>)
    decreases |steps|
  {
    steps == [] || (Enabled(w, steps[0]) && CanDo(Do(w, steps[0]), steps[1..]))
  }

  function DoAll(w: World, steps: seq<Step>): World
    requires CanDo(w, steps)
    decreases |steps|
  {
    if steps == [] then w else DoAll(Do(w, steps[0]), steps[1..])
  }

  predicate IsOpen(e: Event) {
    e.FinalizeRan? && e.finalizeReply.FinalizeOk?
  }

  /** The finalize request of this call was the one that burnt the secret. */
  predicate OpenedBy(log: seq<Event>, id: string) {
    exists i :: 0 <= i < |log| && IsOpen(log[i]) && log[i].claimID == id
  }

  predicate EverOpened(log: seq<Event>) {
    exists i :: 0 <= i < |log| && IsOpen(log[i])
  }

  /** Some script run opened the secret at this instant. */
  predicate OpenedAt(log: seq<Event>, t: nat) {
    exists i :: 0 <= i < |log| && IsOpen(log[i]) && log[i].at == t
  }

  /** No script can open the secret again: its metadata is gone or final. */
  predicate Closed(slot: Slot) {
    slot.meta.None? || slot.meta.value.value.status.Consumed? || slot.meta.value.value.status.Expired?
  }

  /** The box a world stands for. */
  function Abs(w: World): Box {
    if EverOpened(w.log) then Opened
    else if !Closed(w.slot) && Live(w.slot.payload, w.now).Some? then Available
    else Lapsed
  }
}
