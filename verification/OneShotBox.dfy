/** The atomic box that the open protocol implements, and the proof that it does. */
module OneShotBox {
  import opened Basics
  import opened SecretTypes
  import opened OpenScripts
  import opened OpenProtocol
  import opened OpenInvariant

  /** What a step lets its caller see of the box. */
  datatype Label =
    | Quiet
    | Grant
    | Busy
    | Deliver
    | SayConsumed
    | SayExpired
    | SayNotFound
    | SayConflict

  /** The box may lapse by itself, but not before it is due. */
  predicate Idle(b: Box, b': Box, due: bool) {
    b' == b || (b.Available? && b'.Lapsed? && due)
  }

  predicate BoxNext(b: Box, b': Box, shown: Label, due: bool) {
    match shown
    case Quiet => Idle(b, b', due)
    case Grant => b'.Available? && b.Available?
    case Busy => b' == b && !b.Opened?
    case Deliver => b.Available? && b'.Opened?
    case SayConsumed => b'.Opened? && b.Opened?
    case SayExpired => Idle(b, b', due) && !b'.Available?
    case SayNotFound => b' == b && !b.Available?
    case SayConflict => b' == b
  }

  function ClaimLabel(w: World, reply: ClaimReply): Label {
    match reply
    case ClaimOk(_) => Grant
    case ClaimConsumed => if Closed(w.slot) then SayConsumed else Busy
    case ClaimExpired => SayExpired
    case ClaimNotFound => SayNotFound
  }

  function FinalizeLabel(reply: FinalizeReply): Label {
    match reply
    case FinalizeOk(_) => Deliver
    case FinalizeConsumed => SayConsumed
    case FinalizeExpired => SayExpired
    case FinalizeNotFound => SayNotFound
    case FinalizeConflict => SayConflict
  }

  function AbortLabel(reply: AbortReply): Label {
    match reply
    case AbortOk => Quiet
    case AbortIgnored => Quiet
    case AbortExpired => SayExpired
    case AbortNotFound => SayNotFound
  }

  /**
   * What a step showed is read off the reply it logged. A status call answers about the instant of its GET, so
   * only its "expired" shows here.
   */
  function Shown(w: World, w': World): Label {
    if |w'.log| <= |w.log| then Quiet
    else
      match w'.log[|w.log|]
      case ClaimRan(_, _, reply) => ClaimLabel(w, reply)
      case FinalizeRan(_, _, reply) => FinalizeLabel(reply)
      case AbortRan(_, _, reply) => AbortLabel(reply)
      case StatusGiven(_, _, answer) => if answer == StatusIs(Expired) then SayExpired else Quiet
  }

  ghost predicate Refines(w: World, w': World) {
    w'.born.Valid() && BoxNext(Abs(w), Abs(w'), Shown(w, w'), Due(w'))
  }

  predicate Due(w: World)
    requires w.born.Valid()
  {
    w.born.ExpiresAtUnix() <= Sec(w.now)
  }

  /** Being no longer available is for good, and needs the due second or a delivery. */
  lemma AbsStep(w: World, w': World)
    requires KeysOk(w) && KeysOk(w') && w'.born == w.born && w.now <= w'.now
    requires EverOpened(w'.log) == EverOpened(w.log)
    requires Closed(w.slot) ==> Closed(w'.slot)
    requires w'.slot.payload == w.slot.payload || w'.slot.payload.None?
    ensures Idle(Abs(w), Abs(w'), Due(w'))
  {
  }

  /** What a claim's reply says about the slot it ran on. */
  lemma ClaimShows(b: Creation, at: nat, s: Slot, burnt: bool, now: nat, id: string, until: int)
    requires b.Valid() && b.storedAt <= at && now <= Sec(at) && SlotOk(b, at, s, burnt)
    ensures var (s', reply) := Claim(s, at, now, id, until);
            match reply
            case ClaimOk(_) => !Closed(s') && s'.payload == s.payload && Live(s.payload, at).Some?
            case ClaimConsumed => s' == s && (Closed(s) ==> burnt) && (!Closed(s) ==> !burnt)
            case ClaimExpired => Closed(s')
            case ClaimNotFound => s' == s && Live(s.payload, at).None?
  {
  }

  lemma RunClaimRefines(w: World, id: string, delivered: bool)
    requires KeysOk(w) && Enabled(w, RunClaim(id, delivered)) && w.openers[id].claimAt.value <= w.now
    requires KeysOk(DoClaim(w, id, delivered))
    ensures Refines(w, DoClaim(w, id, delivered))
  {
    var w' := DoClaim(w, id, delivered);
    ClaimEffect(w, id, delivered);
    LogAppend(w.log, w'.log[|w.log|], id);
    var sampled := w.openers[id].claimAt.value;
    ClaimShows(w.born, w.now, w.slot, EverOpened(w.log), Sec(sampled), id, Sec(sampled + CLAIM_LEASE_MS));
    AbsStep(w, w');
  }

  lemma RunFinalizeRefines(w: World, id: string, delivered: bool)
    requires KeysOk(w) && Enabled(w, RunFinalize(id, delivered)) && KeysOk(DoFinalize(w, id, delivered))
    ensures Refines(w, DoFinalize(w, id, delivered))
  {
    var w' := DoFinalize(w, id, delivered);
    FinalizeSlot(w.born, w.now, w.slot, EverOpened(w.log), Sec(w.openers[id].finalizeAt.value), id);
    LogAppend(w.log, w'.log[|w.log|], id);
    if !w'.log[|w.log|].finalizeReply.FinalizeOk? {
      AbsStep(w, w');
    }
  }

  lemma RunAbortRefines(w: World, id: string, delivered: bool)
    requires KeysOk(w) && Enabled(w, RunAbort(id, delivered)) && w.openers[id].abortAt.value <= w.now
    requires KeysOk(DoAbort(w, id, delivered))
    ensures Refines(w, DoAbort(w, id, delivered))
  {
    var w' := DoAbort(w, id, delivered);
    AbortSlot(w.born, w.now, w.slot, EverOpened(w.log), Sec(w.openers[id].abortAt.value), id);
    LogAppend(w.log, w'.log[|w.log|], id);
    AbsStep(w, w');
  }

  /** Status calls change the slot only once the secret is due, and only towards closed. */
  lemma StatusRefines(w: World, w': World, r: nat)
    requires KeysOk(w) && KeysOk(w') && w'.born == w.born && w'.now == w.now
    requires w'.log == w.log || exists answer :: w'.log == w.log + [StatusGiven(r, w.now, answer)] && (answer == StatusIs(Expired) ==> Closed(w'.slot))
    requires w'.slot == w.slot || (Closed(w'.slot) && (w'.slot.payload == w.slot.payload || w'.slot.payload.None?))
    ensures Refines(w, w')
  {
    if w'.log != w.log {
      LogAppend(w.log, w'.log[|w.log|], "");
    }
    AbsStep(w, w');
  }

  lemma CheckRefines(w: World, r: nat)
    requires KeysOk(w) && Enabled(w, CheckClock(r)) && ReaderOk(w, r) && KeysOk(DoCheck(w, r))
    ensures Refines(w, DoCheck(w, r))
  {
    StatusRefines(w, DoCheck(w, r), r);
  }

  lemma OverwriteRefines(w: World, r: nat, delivered: bool)
    requires KeysOk(w) && Enabled(w, RunOverwrite(r, delivered)) && ReaderOk(w, r) && KeysOk(DoOverwrite(w, r, delivered))
    ensures Refines(w, DoOverwrite(w, r, delivered))
  {
    StatusRefines(w, DoOverwrite(w, r, delivered), r);
  }

  lemma DeleteRefines(w: World, r: nat, delivered: bool)
    requires KeysOk(w) && Enabled(w, RunDelete(r, delivered)) && ReaderOk(w, r) && KeysOk(DoDelete(w, r, delivered))
    ensures Refines(w, DoDelete(w, r, delivered))
  {
    StatusRefines(w, DoDelete(w, r, delivered), r);
  }

  /** A step that logs nothing and leaves the keys to themselves. */
  lemma SilentRefines(w: World, w': World)
    requires KeysOk(w) && KeysOk(w') && w'.born == w.born && w.now <= w'.now && w'.log == w.log
    requires Closed(w.slot) ==> Closed(w'.slot)
    requires w'.slot.payload == w.slot.payload || w'.slot.payload.None?
    ensures Refines(w, w')
  {
    AbsStep(w, w');
  }

  lemma ScriptRefines(w: World, step: Step)
    requires Inv(w) && Enabled(w, step) && Inv(Do(w, step)) && (step.RunClaim? || step.RunFinalize? || step.RunAbort?)
    ensures Refines(w, Do(w, step))
  {
    assert OpenerOk(w, step.claimID);
    match step
    case RunClaim(id, delivered) => RunClaimRefines(w, id, delivered);
    case RunFinalize(id, delivered) => RunFinalizeRefines(w, id, delivered);
    case RunAbort(id, delivered) => RunAbortRefines(w, id, delivered);
  }

  lemma ReaderRefines(w: World, step: Step)
    requires Inv(w) && Enabled(w, step) && Inv(Do(w, step))
    requires step.CheckClock? || step.RunOverwrite? || step.RunDelete? || step.AnswerAnyway?
    ensures Refines(w, Do(w, step))
  {
    assert ReaderOk(w, step.reader);
    match step
    case CheckClock(r) => CheckRefines(w, r);
    case RunOverwrite(r, delivered) => OverwriteRefines(w, r, delivered);
    case RunDelete(r, delivered) => DeleteRefines(w, r, delivered);
    case AnswerAnyway(r) => StatusRefines(w, Answer(w, r, StatusIs(Expired)), r);
  }

  /** Every step of the protocol is one step of the box, with the same visible answer. */
  lemma StepRefinesBox(w: World, step: Step)
    requires Inv(w) && Enabled(w, step)
    ensures Inv(Do(w, step)) && Refines(w, Do(w, step))
  {
    StepInv(w, step);
    if step.RunClaim? || step.RunFinalize? || step.RunAbort? {
      ScriptRefines(w, step);
    } else if step.CheckClock? || step.RunOverwrite? || step.RunDelete? || step.AnswerAnyway? {
      ReaderRefines(w, step);
    } else {
      SilentRefines(w, Do(w, step));
    }
  }

  /** A run of the box: it starts available and moves by its own rules. */
  ghost predicate BoxRun(boxes: seq<Box>, labels: seq<Label>, due: seq<bool>) {
    && |boxes| == |labels| + 1 == |due|
    && boxes[0].Available?
    && forall i :: 0 <= i < |labels| ==> BoxNext(boxes[i], boxes[i + 1], labels[i], due[i + 1])
  }

  function Boxes(run: seq<World>): (boxes: seq<Box>) {
    seq(|run|, i requires 0 <= i < |run| => Abs(run[i]))
  }

  ghost function Labels(run: seq<World>, steps: seq<Step>): seq<Label>
    requires Run(run, steps)
  {
    seq(|steps|, i requires 0 <= i < |steps| => Shown(run[i], run[i + 1]))
  }

  ghost function DueTimes(run: seq<World>, steps: seq<Step>): (due: seq<bool>)
    requires Run(run, steps)
  {
    seq(|run|, i requires 0 <= i < |run| => run[0].born.ExpiresAtUnix() <= Sec(run[i].now))
  }

  /**
   * The protocol refines the one-shot box: every run, whatever its interleaving, losses and repetitions, is a run
   * of the box.
   */
  lemma RunRefinesBox(run: seq<World>, steps: seq<Step>)
    requires Run(run, steps)
    ensures BoxRun(Boxes(run), Labels(run, steps), DueTimes(run, steps))
  {
    forall i | 0 <= i < |steps|
      ensures BoxNext(Abs(run[i]), Abs(run[i + 1]), Shown(run[i], run[i + 1]), DueTimes(run, steps)[i + 1])
    {
      RunInv(run, steps, i);
      RunBorn(run, steps, i + 1);
      StepRefinesBox(run[i], steps[i]);
    }
  }

  lemma {:induction false} BoxStaysShut(boxes: seq<Box>, labels: seq<Label>, due: seq<bool>, i: nat, j: nat)
    requires BoxRun(boxes, labels, due) && i <= j < |boxes| && !boxes[i].Available?
    ensures boxes[j] == boxes[i]
  {
    if i < j {
      BoxStaysShut(boxes, labels, due, i, j - 1);
      assert BoxNext(boxes[j - 1], boxes[j], labels[j - 1], due[j]);
    }
  }

  /** The box delivers at most once, and never after it has answered "expired", "consumed" or "not found". */
  lemma BoxDeliversOnce(boxes: seq<Box>, labels: seq<Label>, due: seq<bool>, i: nat, j: nat)
    requires BoxRun(boxes, labels, due) && i < j < |labels|
    requires labels[i].Deliver? || labels[i].SayExpired? || labels[i].SayConsumed? || labels[i].SayNotFound?
    ensures !labels[j].Deliver? && !labels[j].Grant?
  {
    assert BoxNext(boxes[i], boxes[i + 1], labels[i], due[i + 1]);
    BoxStaysShut(boxes, labels, due, i + 1, j);
    assert BoxNext(boxes[j], boxes[j + 1], labels[j], due[j + 1]);
  }
}
