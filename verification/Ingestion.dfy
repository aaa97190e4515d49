/**
 * The supervision and ingestion loop interleaved with the encoding worker and the shutdown signal:
 * a machine whose steps are the stretches of code between two accesses to shared state.
 */
module Ingestion {
  import opened Common
  import Motion
  import P = Pipeline

  datatype Config = Config(grid: Motion.Grid, minInterval: int, postRoll: int, startSeconds: int, endSeconds: int) {
    ghost predicate Valid() { grid.Valid() }
  }

  // ------------------------------------------------------------ schedule

  const DAY := 86400

  /** Whether a second of the day falls inside the schedule, which may run over midnight. */
  predicate IsWithinTimeFrame(cfg: Config, nowSec: int) {
    if cfg.startSeconds <= cfg.endSeconds
    then cfg.startSeconds <= nowSec <= cfg.endSeconds
    else nowSec >= cfg.startSeconds || nowSec <= cfg.endSeconds
  }

  /** On a clock face: from the start one meets nowSec no later than the end. */
  lemma ScheduleIsClockArc(cfg: Config, nowSec: int)
    requires 0 <= nowSec < DAY && 0 <= cfg.startSeconds < DAY && 0 <= cfg.endSeconds < DAY
    ensures IsWithinTimeFrame(cfg, nowSec) <==>
            (nowSec - cfg.startSeconds) % DAY <= (cfg.endSeconds - cfg.startSeconds) % DAY
  {
  }

  // ------------------------------------------------------------ the decision on one frame

  /** The loop's timing variables; None is the zero time. */
  datatype Timing = Timing(lastSent: Option<int>, lastMotion: Option<int>, lastBox: Option<Box>)

  predicate TooSoon(cfg: Config, tm: Timing, now: int) {
    tm.lastSent.Some? && now - tm.lastSent.value < cfg.minInterval
  }

  /** No motion now, but motion not longer ago than the post-roll. */
  predicate InPostRoll(cfg: Config, tm: Timing, now: int, m: Motion.MotionResult) {
    !m.hasMotion && tm.lastMotion.Some? && now - tm.lastMotion.value <= cfg.postRoll
  }

  // ------------------------------------------------------------ state

  datatype Phase = Idle | Started | Reading | Judging

  datatype Fate = RateLimited | LightingShift | DuplicateFrame | Accepted | Backpressure

  /** One captured frame and what became of it; `item` is what was submitted, if anything. */
  datatype Entry = Entry(now: int, frame: P.Frame, fate: Fate, motion: Option<Motion.MotionResult>,
                         item: Option<P.Item>)

  datatype Counters = Counters(captured: nat, rateLimited: nat, lightingShift: nat, duplicate: nat, backpressure: nat,
                               sent: nat, encodingFailed: nat, marshalFailed: nat, publishFailed: nat)

  /**
   * isRunning and session belong to the capturer, reference to the detector, now, tm, seqCounter and phase to
   * the loop, pipe to the pipeline. log, accepted, finished and published are the history.
   */
  datatype State = State(isRunning: bool, session: nat, cancelled: bool, reference: Option<P.Frame>,
                         now: int, tm: Timing, seqCounter: nat, phase: Phase, pipe: P.State, workerUp: bool,
                         count: Counters, log: seq<Entry>, accepted: seq<P.Item>, finished: nat, published: seq<P.Item>)

  predicate IsMotion(e: Entry) {
    e.motion.Some? && !e.motion.value.isLightingShift && e.motion.value.hasMotion
  }

  /** The timing variables once the frame of this entry is dealt with. */
  function TimingAfter(tm: Timing, e: Entry): Timing {
    if e.motion.None? then tm
    else
      var noted := if IsMotion(e) then tm.(lastMotion := Some(e.now), lastBox := e.motion.value.motionBox) else tm;
      if e.fate.Backpressure? then noted else noted.(lastSent := Some(e.now))
  }

  function CountFate(c: Counters, fate: Fate): Counters {
    match fate
    case RateLimited => c.(rateLimited := c.rateLimited + 1)
    case LightingShift => c.(lightingShift := c.lightingShift + 1)
    case DuplicateFrame => c.(duplicate := c.duplicate + 1)
    case Backpressure => c.(backpressure := c.backpressure + 1)
    case Accepted => c
  }

  function CountOutcome(c: Counters, outcome: P.Outcome): Counters {
    match outcome
    case Sent => c.(sent := c.sent + 1)
    case EncodingFailed => c.(encodingFailed := c.encodingFailed + 1)
    case MarshalFailed => c.(marshalFailed := c.marshalFailed + 1)
    case PublishFailed => c.(publishFailed := c.publishFailed + 1)
  }

  /** The state before the first iteration; `start` is any time not after it. */
  function Initial(start: int): State {
    State(false, 0, false, None, start, Timing(None, None, None), 0, Idle, P.EMPTY, true,
          Counters(0, 0, 0, 0, 0, 0, 0, 0, 0), [], [], 0, [])
  }

  /** The held item's frame, once one has been read. */
  function HeldFrame(s: State): Option<P.Frame> {
    if P.Holding(s.pipe) then P.HeldItem(s.pipe).data else None
  }

  /** What becomes of the held frame, given the detector's answer. */
  function EntryOf(cfg: Config, s: State, m: Motion.MotionResult): Entry
    requires HeldFrame(s).Some?
  {
    var frame := HeldFrame(s).value;
    if TooSoon(cfg, s.tm, s.now) then Entry(s.now, frame, RateLimited, None, None)
    else if m.isLightingShift then Entry(s.now, frame, LightingShift, Some(m), None)
    else if m.hasMotion || InPostRoll(cfg, s.tm, s.now, m) then
      var box := if m.motionBox.Some? || m.hasMotion then m.motionBox else s.tm.lastBox;
      Entry(s.now, frame, if P.HasRoom(s.pipe) then Accepted else Backpressure, Some(m),
            Some(P.Item(Some(frame), s.now, s.seqCounter + 1, box, !m.hasMotion)))
    else Entry(s.now, frame, DuplicateFrame, Some(m), None)
  }

  // ------------------------------------------------------------ steps

  /**
   * StopAndReset: broker lost, or the end of the inner loop. Sleep: outside the schedule. StartFailed, Begin: the
   * capturer could not, or could, be started. Borrow: an item from the pool. ReadFailed, ReadOk: the frame read.
   * Analyse: everything from the rate limit to Submit. Receive, Finish, WorkerExit: the worker.
   * Cancel, SignalStop: the signal handler. Collect: the runtime empties the pool.
   */
  datatype Step =
    | Cancel
    | SignalStop
    | StopAndReset
    | Sleep(now: int, sec: int)
    | StartFailed(now: int, sec: int)
    | Begin(now: int, sec: int)
    | Borrow(pick: Option<nat>)
    | ReadFailed
    | ReadOk(y: Plane)
    | Analyse(motion: Motion.MotionResult)
    | Receive
    | Finish(outcome: P.Outcome)
    | WorkerExit
    | Collect(k: nat)

  function PlaneOf(f: Option<P.Frame>): Option<Plane> {
    if f.Some? then Some(f.value.y) else None
  }

  /** The step can be taken as far as control and ownership go. */
  predicate Possible(cfg: Config, s: State, e: Step) {
    match e
    case Cancel => !s.cancelled
    case SignalStop => s.cancelled
    case StopAndReset => s.phase.Idle?
    case Sleep(now, sec) => s.phase.Idle? && s.now <= now && !IsWithinTimeFrame(cfg, sec)
    case StartFailed(now, sec) => s.phase.Idle? && s.now <= now && IsWithinTimeFrame(cfg, sec) && !s.isRunning
    case Begin(now, sec) =>
      s.phase.Idle? && s.now <= now && IsWithinTimeFrame(cfg, sec) && (s.isRunning || !s.cancelled)
    case Borrow(pick) =>
      && s.phase.Started? && s.pipe.holding.None?
      && (pick.Some? ==> pick.value < |s.pipe.pool| && s.pipe.pool[pick.value] < |s.pipe.heap|)
    case ReadFailed => s.phase.Reading? && P.Holding(s.pipe)
    case ReadOk(y) =>
      s.phase.Reading? && s.isRunning && P.Holding(s.pipe) && |y| == cfg.grid.width * cfg.grid.height
    case Analyse(m) => s.phase.Judging? && HeldFrame(s).Some?
    case Receive => s.workerUp && s.pipe.worker.None? && s.pipe.channel != []
    case Finish(_) => s.pipe.worker.Some? && s.pipe.worker.value < |s.pipe.heap|
    case WorkerExit => s.cancelled && s.workerUp && s.pipe.worker.None?
    case Collect(k) => k < |s.pipe.pool|
  }

  /** An analysis that takes place gives the detector's answer. */
  ghost predicate RightAnswer(cfg: Config, s: State, e: Step)
    requires cfg.Valid() && Possible(cfg, s, e)
  {
    e.Analyse? && !TooSoon(cfg, s.tm, s.now) ==>
      Motion.Analysed(cfg.grid, PlaneOf(s.reference), HeldFrame(s).value.y, e.motion)
  }

  /** The step's access to the shared items. */
  function PipeAction(cfg: Config, s: State, e: Step): (a: P.Action)
    requires Possible(cfg, s, e)
    ensures P.CanAct(s.pipe, a)
  {
    match e
    case Borrow(pick) => P.Take(pick)
    case ReadFailed => P.Give(P.HeldItem(s.pipe).(data := None))
    case ReadOk(y) => P.Fill(P.HeldItem(s.pipe).(data := Some(P.Frame(s.session, y))))
    case Analyse(m) =>
      var en := EntryOf(cfg, s, m);
      if en.item.Some? then P.Put(en.item.value) else P.Give(P.HeldItem(s.pipe))
    case Receive => P.Dequeue
    case Finish(_) => P.Done
    case Collect(k) => P.Reclaim(k)
    case _ => P.Stay
  }

  /** The loop's variables and the history once a frame has been dealt with. */
  function Recorded(s: State, en: Entry): State {
    s.(phase := Idle, tm := TimingAfter(s.tm, en), count := CountFate(s.count, en.fate),
       reference := if en.motion.Some? then Some(en.frame) else s.reference,
       seqCounter := if en.item.Some? then s.seqCounter + 1 else s.seqCounter,
       accepted := if en.fate.Accepted? && en.item.Some? then s.accepted + [en.item.value] else s.accepted,
       log := s.log + [en])
  }

  /** The step's effect on everything but the shared items. */
  function Control(cfg: Config, s: State, e: Step): State
    requires Possible(cfg, s, e)
  {
    match e
    case Cancel => s.(cancelled := true)
    case SignalStop => s.(isRunning := false)
    case StopAndReset => s.(isRunning := false, reference := None)
    case Sleep(now, _) => s.(now := now, isRunning := false, reference := None)
    case StartFailed(now, _) => s.(now := now)
    case Begin(now, _) =>
      s.(now := now, isRunning := true, session := if s.isRunning then s.session else s.session + 1, phase := Started)
    case Borrow(_) => s.(phase := Reading)
    case ReadFailed => s.(phase := Idle, isRunning := false, reference := None)
    case ReadOk(_) => s.(phase := Judging, count := s.count.(captured := s.count.captured + 1))
    case Analyse(m) => Recorded(s, EntryOf(cfg, s, m))
    case Receive => s
    case Finish(outcome) =>
      s.(count := CountOutcome(s.count, outcome), finished := s.finished + 1,
         published := if outcome == P.Sent then s.published + [s.pipe.heap[s.pipe.worker.value]] else s.published)
    case WorkerExit => s.(workerUp := false)
    case Collect(_) => s
  }

  function Apply(cfg: Config, s: State, e: Step): State
    requires Possible(cfg, s, e)
  {
    Control(cfg, s, e).(pipe := P.Act(s.pipe, PipeAction(cfg, s, e)))
  }

  /** The state after a schedule of steps, if every one of them could be taken when its turn came. */
  ghost function Run(cfg: Config, start: int, es: seq<Step>): Option<State>
    requires cfg.Valid()
    decreases |es|, 0
  {
    if es == [] then Some(Initial(start)) else After(cfg, start, es[..|es| - 1], es[|es| - 1])
  }

  /** The state after one more step, if the schedule and then the step could be taken. */
  ghost function After(cfg: Config, start: int, es: seq<Step>, e: Step): Option<State>
    requires cfg.Valid()
    decreases |es|, 1
  {
    var s := Run(cfg, start, es);
    if s.Some? && Possible(cfg, s.value, e) && RightAnswer(cfg, s.value, e) then Some(Apply(cfg, s.value, e)) else None
  }

  lemma {:induction false} LastStep(cfg: Config, start: int, es: seq<Step>) returns (s: State)
    requires cfg.Valid() && es != [] && Run(cfg, start, es).Some?
    ensures Run(cfg, start, es[..|es| - 1]) == Some(s)
    ensures Possible(cfg, s, es[|es| - 1]) && RightAnswer(cfg, s, es[|es| - 1])
    ensures Run(cfg, start, es) == Some(Apply(cfg, s, es[|es| - 1]))
  {
    assert After(cfg, start, es[..|es| - 1], es[|es| - 1]).Some?;
    s := Run(cfg, start, es[..|es| - 1]).value;
  }

  // ------------------------------------------------------------ ownership

  /** The loop holds an item exactly between borrowing and giving it away; the channel keeps its bound. */
  predicate PhaseInv(s: State) {
    |s.pipe.channel| <= P.CHANNEL_CAPACITY && (s.pipe.holding.Some? <==> s.phase.Reading? || s.phase.Judging?)
  }

  /** The parts of a step's effect that concern the shared items. */
  lemma Effects(cfg: Config, s: State, e: Step)
    requires Possible(cfg, s, e)
    ensures var a, t := PipeAction(cfg, s, e), Apply(cfg, s, e);
            && t.pipe == P.Act(s.pipe, a)
            && t.accepted == (if a.Put? && P.HasRoom(s.pipe) then s.accepted + [a.item] else s.accepted)
            && t.finished == (if a.Done? then s.finished + 1 else s.finished)
  {
  }

  lemma PhaseStep(cfg: Config, s: State, e: Step)
    requires PhaseInv(s) && Possible(cfg, s, e)
    ensures PhaseInv(Apply(cfg, s, e))
  {
    P.ActKeepsBounds(s.pipe, PipeAction(cfg, s, e));
  }

  lemma OwnershipStep(cfg: Config, s: State, e: Step)
    requires P.Owned(s.pipe) && Possible(cfg, s, e)
    ensures P.Owned(Apply(cfg, s, e).pipe)
  {
    P.ActKeepsOwned(s.pipe, PipeAction(cfg, s, e));
  }

  // ------------------------------------------------------------ frame accounting

  function InWorker(s: State): nat {
    if s.pipe.worker.Some? then 1 else 0
  }

  /** Every captured frame is counted once: by its skip reason, where it waits, or by its outcome. */
  ghost predicate CountInv(s: State) {
    var c := s.count;
    && c.captured == c.rateLimited + c.lightingShift + c.duplicate + c.backpressure
                  + |s.pipe.channel| + InWorker(s)
                  + c.sent + c.encodingFailed + c.marshalFailed + c.publishFailed
                  + (if s.phase.Judging? then 1 else 0)
    && s.finished == c.sent + c.encodingFailed + c.marshalFailed + c.publishFailed
  }

  lemma CountStep(cfg: Config, s: State, e: Step)
    requires CountInv(s) && Possible(cfg, s, e)
    ensures CountInv(Apply(cfg, s, e))
  {
    match e {
      case Analyse(m) => AnalyseCount(cfg, s, m);
      case ReadOk(y) => ReadCount(cfg, s, y);
      case Receive => ReceiveCount(cfg, s);
      case Finish(outcome) => FinishCount(cfg, s, outcome);
      case _ => QuietCount(cfg, s, e);
    }
  }

  lemma ReadCount(cfg: Config, s: State, y: Plane)
    requires CountInv(s) && Possible(cfg, s, ReadOk(y))
    ensures CountInv(Apply(cfg, s, ReadOk(y)))
  {
  }

  lemma ReceiveCount(cfg: Config, s: State)
    requires CountInv(s) && Possible(cfg, s, Receive)
    ensures CountInv(Apply(cfg, s, Receive))
  {
  }

  lemma FinishCount(cfg: Config, s: State, outcome: P.Outcome)
    requires CountInv(s) && Possible(cfg, s, Finish(outcome))
    ensures CountInv(Apply(cfg, s, Finish(outcome)))
  {
  }

  lemma QuietCount(cfg: Config, s: State, e: Step)
    requires CountInv(s) && Possible(cfg, s, e) && !e.Analyse? && !e.ReadOk? && !e.Receive? && !e.Finish?
    ensures CountInv(Apply(cfg, s, e))
  {
  }

  lemma AnalyseCount(cfg: Config, s: State, m: Motion.MotionResult)
    requires CountInv(s) && Possible(cfg, s, Analyse(m))
    ensures CountInv(Apply(cfg, s, Analyse(m)))
  {
    var t, en := Apply(cfg, s, Analyse(m)), EntryOf(cfg, s, m);
    EntryReachesChannel(cfg, s, m);
    assert t.count == CountFate(s.count, en.fate);
  }

  /** An item is submitted when the frame is accepted or meets backpressure, and queued when it is accepted. */
  lemma EntryReachesChannel(cfg: Config, s: State, m: Motion.MotionResult)
    requires Possible(cfg, s, Analyse(m))
    ensures var en, t := EntryOf(cfg, s, m), Apply(cfg, s, Analyse(m));
            && (en.item.Some? <==> en.fate in {Accepted, Backpressure})
            && |t.pipe.channel| == |s.pipe.channel| + (if en.fate.Accepted? then 1 else 0)
            && t.pipe.worker == s.pipe.worker && t.phase.Idle?
  {
  }

  function FateCount(log: seq<Entry>, fate: Fate): nat {
    if log == [] then 0
    else FateCount(log[..|log| - 1], fate) + if log[|log| - 1].fate == fate then 1 else 0
  }

  /** Each skip counter counts the frames skipped for its own reason. */
  ghost predicate ReasonsInv(c: Counters, log: seq<Entry>) {
    && c.rateLimited == FateCount(log, RateLimited) && c.lightingShift == FateCount(log, LightingShift)
    && c.duplicate == FateCount(log, DuplicateFrame) && c.backpressure == FateCount(log, Backpressure)
  }

  lemma ReasonsStep(cfg: Config, s: State, e: Step)
    requires ReasonsInv(s.count, s.log) && Possible(cfg, s, e)
    ensures ReasonsInv(Apply(cfg, s, e).count, Apply(cfg, s, e).log)
  {
    if e.Analyse? {
      ReasonsGrow(s.count, s.log, EntryOf(cfg, s, e.motion));
    }
  }

  lemma ReasonsGrow(c: Counters, log: seq<Entry>, en: Entry)
    requires ReasonsInv(c, log)
    ensures ReasonsInv(CountFate(c, en.fate), log + [en])
  {
    assert (log + [en])[..|log|] == log;
  }

  // ------------------------------------------------------------ the queue holds what was submitted

  /**
   * The accepted items split, in order, into finished ones, the worker's and the queued ones; the items in flight
   * still have the contents they were submitted with.
   */
  ghost predicate FifoInv(s: State) {
    InFlight(s.pipe, s.accepted, s.finished)
  }

  ghost predicate InFlight(p: P.State, accepted: seq<P.Item>, finished: nat) {
    var first := finished + |P.Held(p.worker)|;
    && first + |p.channel| == |accepted|
    && (p.worker.Some? ==> p.worker.value < |p.heap| && p.heap[p.worker.value] == accepted[finished])
    && forall j :: 0 <= j < |p.channel| ==> p.channel[j] < |p.heap| && p.heap[p.channel[j]] == accepted[first + j]
  }

  lemma FifoStep(cfg: Config, s: State, e: Step)
    requires P.Owned(s.pipe) && FifoInv(s) && Possible(cfg, s, e)
    ensures FifoInv(Apply(cfg, s, e))
  {
    Effects(cfg, s, e);
    ActFifo(s.pipe, PipeAction(cfg, s, e), s.accepted, s.finished);
  }

  lemma ActFifo(p: P.State, a: P.Action, accepted: seq<P.Item>, finished: nat)
    requires P.Owned(p) && P.CanAct(p, a) && InFlight(p, accepted, finished)
    ensures InFlight(P.Act(p, a), if a.Put? && P.HasRoom(p) then accepted + [a.item] else accepted,
                     if a.Done? then finished + 1 else finished)
  {
    match a {
      case Dequeue => DequeueFifo(p, accepted, finished);
      case Done => DoneFifo(p, accepted, finished);
      case Put(item) =>
        if P.HasRoom(p) {
          PutFifo(p, accepted, finished, item);
        } else {
          FrozenFifo(p, a, accepted, finished);
        }
      case _ => FrozenFifo(p, a, accepted, finished);
    }
  }

  lemma FrozenFifo(p: P.State, a: P.Action, accepted: seq<P.Item>, finished: nat)
    requires P.Owned(p) && P.CanAct(p, a) && !a.Dequeue? && !a.Done? && (a.Put? ==> !P.HasRoom(p))
    requires InFlight(p, accepted, finished)
    ensures InFlight(P.Act(p, a), accepted, finished)
  {
    P.FlightIsFrozen(p, a);
    SameInFlight(p, P.Act(p, a), accepted, finished);
  }

  lemma SameInFlight(p: P.State, q: P.State, accepted: seq<P.Item>, finished: nat)
    requires InFlight(p, accepted, finished) && P.SameFlight(p, q)
    ensures InFlight(q, accepted, finished)
  {
  }

  lemma DequeueFifo(p: P.State, accepted: seq<P.Item>, finished: nat)
    requires P.CanAct(p, P.Dequeue) && InFlight(p, accepted, finished)
    ensures InFlight(P.Received(p), accepted, finished)
  {
    var q := P.Received(p);
    forall j | 0 <= j < |q.channel|
      ensures q.channel[j] == p.channel[j + 1]
    {
    }
  }

  lemma DoneFifo(p: P.State, accepted: seq<P.Item>, finished: nat)
    requires P.Owned(p) && P.CanAct(p, P.Done) && InFlight(p, accepted, finished)
    ensures InFlight(P.Finished(p), accepted, finished + 1)
  {
    P.WorkerApart(p);
  }

  lemma PutFifo(p: P.State, accepted: seq<P.Item>, finished: nat, item: P.Item)
    requires P.Owned(p) && P.Holding(p) && P.HasRoom(p) && InFlight(p, accepted, finished)
    ensures InFlight(P.Act(p, P.Put(item)), accepted + [item], finished)
  {
    P.WriteLeavesFlightAlone(p, item);
    SameInFlight(p, P.Written(p, item), accepted, finished);
    EnqueueFifo(P.Written(p, item), accepted, finished);
  }

  lemma EnqueueFifo(p: P.State, accepted: seq<P.Item>, finished: nat)
    requires P.Holding(p) && P.HasRoom(p) && InFlight(p, accepted, finished)
    ensures InFlight(P.Submitted(p), accepted + [P.HeldItem(p)], finished)
  {
  }

  // ------------------------------------------------------------ sequence numbers

  ghost predicate StrictlyIncreasing(items: seq<P.Item>) {
    forall i, j :: 0 <= i < j < |items| ==> items[i].sequence < items[j].sequence
  }

  /** The items of the accepted entries, in order. */
  function AcceptedItems(log: seq<Entry>): seq<P.Item> {
    if log == [] then []
    else
      var e := log[|log| - 1];
      AcceptedItems(log[..|log| - 1]) + if e.fate.Accepted? && e.item.Some? then [e.item.value] else []
  }

  ghost predicate SequenceInv(s: State) {
    && s.seqCounter == |s.accepted| + s.count.backpressure
    && s.accepted == AcceptedItems(s.log)
    && NumberedUpTo(s.accepted, s.seqCounter)
    && s.finished <= |s.accepted| && |s.published| == s.count.sent
    && StrictlyIncreasing(s.published)
    && forall i :: 0 <= i < |s.published| ==> s.published[i] in s.accepted[..s.finished]
  }

  ghost predicate NumberedUpTo(items: seq<P.Item>, n: int) {
    StrictlyIncreasing(items) && forall i :: 0 <= i < |items| ==> 1 <= items[i].sequence <= n
  }

  lemma SequenceStep(cfg: Config, s: State, e: Step)
    requires FifoInv(s) && SequenceInv(s) && Possible(cfg, s, e)
    ensures SequenceInv(Apply(cfg, s, e))
  {
    match e {
      case Analyse(m) => AnalyseSequence(cfg, s, m);
      case Finish(outcome) => FinishSequence(s, Apply(cfg, s, e), outcome);
      case _ => QuietSequence(cfg, s, e);
    }
  }

  lemma AnalyseSequence(cfg: Config, s: State, m: Motion.MotionResult)
    requires SequenceInv(s) && Possible(cfg, s, Analyse(m))
    ensures SequenceInv(Apply(cfg, s, Analyse(m)))
  {
    RecordedSequence(s, EntryOf(cfg, s, m));
  }

  lemma QuietSequence(cfg: Config, s: State, e: Step)
    requires SequenceInv(s) && Possible(cfg, s, e) && !e.Analyse? && !e.Finish?
    ensures SequenceInv(Apply(cfg, s, e))
  {
  }

  lemma RecordedSequence(s: State, en: Entry)
    requires SequenceInv(s)
    requires en.item.Some? <==> en.fate in {Accepted, Backpressure}
    requires en.item.Some? ==> en.item.value.sequence == s.seqCounter + 1
    ensures SequenceInv(Recorded(s, en))
  {
    var t := Recorded(s, en);
    assert t.log[..|t.log| - 1] == s.log;
    assert t.accepted[..s.finished] == s.accepted[..s.finished];
  }

  lemma FinishSequence(s: State, t: State, outcome: P.Outcome)
    requires FifoInv(s) && SequenceInv(s) && s.pipe.worker.Some? && t.finished == s.finished + 1
    requires t.seqCounter == s.seqCounter && t.accepted == s.accepted && t.log == s.log
    requires t.count == CountOutcome(s.count, outcome)
    requires t.published == if outcome == P.Sent then s.published + [s.accepted[s.finished]] else s.published
    ensures SequenceInv(t)
  {
    PublishNext(s.accepted, s.finished, s.published);
    assert s.accepted[..s.finished] <= s.accepted[..s.finished + 1];
  }

  lemma PublishNext(accepted: seq<P.Item>, finished: nat, published: seq<P.Item>)
    requires finished < |accepted| && StrictlyIncreasing(accepted) && StrictlyIncreasing(published)
    requires forall i :: 0 <= i < |published| ==> published[i] in accepted[..finished]
    ensures StrictlyIncreasing(published + [accepted[finished]])
    ensures accepted[finished] in accepted[..finished + 1]
  {
    forall i | 0 <= i < |published|
      ensures published[i].sequence < accepted[finished].sequence
    {
      var j :| 0 <= j < finished && accepted[j] == published[i];
    }
    assert accepted[..finished + 1][finished] == accepted[finished];
  }

  // ------------------------------------------------------------ session freshness

  /** The frame analysed last in the given capture session. */
  function PreviousInSession(log: seq<Entry>, session: nat): Option<P.Frame> {
    if log == [] then None
    else
      var e := log[|log| - 1];
      if e.motion.Some? && e.frame.session == session then Some(e.frame)
      else PreviousInSession(log[..|log| - 1], session)
  }

  /** Entry k was analysed against the frame analysed before it in its own session, if there was one. */
  ghost predicate FreshEntry(cfg: Config, log: seq<Entry>, k: nat)
    requires cfg.Valid() && k < |log|
  {
    var e := log[k];
    e.motion.Some? ==>
      Motion.Analysed(cfg.grid, PlaneOf(PreviousInSession(log[..k], e.frame.session)), e.frame.y, e.motion.value)
  }

  ghost predicate FreshLog(cfg: Config, log: seq<Entry>)
    requires cfg.Valid()
  {
    forall k :: 0 <= k < |log| ==> FreshEntry(cfg, log, k)
  }

  /** The detector's reference, whenever the next frame could be compared with it. */
  ghost predicate FreshState(s: State) {
    && (forall k :: 0 <= k < |s.log| ==> s.log[k].frame.session <= s.session)
    && (s.isRunning || s.phase.Judging? ==> s.reference == PreviousInSession(s.log, s.session))
    && (!s.isRunning && !s.cancelled ==> s.reference.None? && s.phase.Idle?)
    && (s.phase.Judging? ==> HeldFrame(s).Some? && HeldFrame(s).value.session == s.session)
  }

  lemma {:induction false} NothingFromTheFuture(log: seq<Entry>, session: nat)
    requires forall k :: 0 <= k < |log| ==> log[k].frame.session < session
    ensures PreviousInSession(log, session).None?
  {
    if log != [] {
      NothingFromTheFuture(log[..|log| - 1], session);
    }
  }

  lemma FreshStateStep(cfg: Config, s: State, e: Step)
    requires FreshState(s) && P.Owned(s.pipe) && PhaseInv(s) && Possible(cfg, s, e)
    ensures FreshState(Apply(cfg, s, e))
  {
    match e {
      case Analyse(m) => AnalyseFresh(cfg, s, m);
      case Begin(now, sec) => BeginStepFresh(cfg, s, now, sec);
      case ReadOk(y) => ReadStepFresh(cfg, s, y);
      case _ => QuietStepFresh(cfg, s, e);
    }
  }

  lemma AnalyseFresh(cfg: Config, s: State, m: Motion.MotionResult)
    requires FreshState(s) && Possible(cfg, s, Analyse(m))
    ensures FreshState(Apply(cfg, s, Analyse(m)))
  {
    RecordedFresh(s, EntryOf(cfg, s, m), P.Act(s.pipe, PipeAction(cfg, s, Analyse(m))));
  }

  lemma BeginStepFresh(cfg: Config, s: State, now: int, sec: int)
    requires FreshState(s) && Possible(cfg, s, Begin(now, sec))
    ensures FreshState(Apply(cfg, s, Begin(now, sec)))
  {
    BeginFresh(s, now);
  }

  lemma ReadStepFresh(cfg: Config, s: State, y: Plane)
    requires FreshState(s) && Possible(cfg, s, ReadOk(y))
    ensures FreshState(Apply(cfg, s, ReadOk(y)))
  {
    ReadFresh(s, Apply(cfg, s, ReadOk(y)), y);
  }

  lemma QuietStepFresh(cfg: Config, s: State, e: Step)
    requires FreshState(s) && P.Owned(s.pipe) && PhaseInv(s) && Possible(cfg, s, e)
    requires !e.Analyse? && !e.Begin? && !e.ReadOk?
    ensures FreshState(Apply(cfg, s, e))
  {
    var t := Apply(cfg, s, e);
    if e.ReadFailed? || e.StopAndReset? || e.Sleep? {
      StopFresh(s, t);
    } else {
      if s.phase.Judging? {
        HeldSurvives(cfg, s, e);
      }
      KeepFresh(s, t);
    }
  }

  /** Stop and Reset come together. */
  lemma StopFresh(s: State, t: State)
    requires FreshState(s) && t.log == s.log && t.session == s.session
    requires !t.isRunning && t.reference == None && t.phase.Idle?
    ensures FreshState(t)
  {
  }

  /** Only the signal handler stops the capturer without a Reset, and no session starts after it. */
  lemma KeepFresh(s: State, t: State)
    requires FreshState(s) && t.log == s.log && t.session == s.session
    requires t.reference == s.reference && (t.phase == s.phase || (s.phase.Started? && t.phase.Reading?))
    requires (s.cancelled ==> t.cancelled) && (t.isRunning == s.isRunning || (!t.isRunning && t.cancelled))
    requires s.phase.Judging? ==> HeldFrame(t) == HeldFrame(s)
    ensures FreshState(t)
  {
  }

  lemma ReadFresh(s: State, t: State, y: Plane)
    requires FreshState(s) && s.isRunning && t.isRunning && t.log == s.log && t.session == s.session
    requires t.reference == s.reference && HeldFrame(t) == Some(P.Frame(s.session, y))
    ensures FreshState(t)
  {
  }

  lemma BeginFresh(s: State, now: int)
    requires FreshState(s) && s.phase.Idle? && (s.isRunning || !s.cancelled)
    ensures FreshState(s.(now := now, isRunning := true, session := if s.isRunning then s.session else s.session + 1,
                          phase := Started))
  {
    NothingFromTheFuture(s.log, s.session + 1);
  }

  lemma RecordedFresh(s: State, en: Entry, pipe: P.State)
    requires FreshState(s) && s.phase.Judging? && Some(en.frame) == HeldFrame(s)
    ensures FreshState(Recorded(s, en).(pipe := pipe))
  {
    var t := Recorded(s, en);
    assert t.log[..|t.log| - 1] == s.log;
  }

  /** No step of the worker, of the runtime or of the signal handler touches the frame the loop is judging. */
  lemma HeldSurvives(cfg: Config, s: State, e: Step)
    requires P.Owned(s.pipe) && PhaseInv(s) && s.phase.Judging? && Possible(cfg, s, e) && !e.Analyse?
    ensures HeldFrame(Apply(cfg, s, e)) == HeldFrame(s)
  {
    assert PipeAction(cfg, s, e).Stay? || PipeAction(cfg, s, e).Dequeue? || PipeAction(cfg, s, e).Done?
           || PipeAction(cfg, s, e).Reclaim?;
    Effects(cfg, s, e);
    P.HeldIsFrozen(s.pipe, PipeAction(cfg, s, e));
  }

  lemma FreshLogStep(cfg: Config, s: State, e: Step)
    requires cfg.Valid() && FreshLog(cfg, s.log) && FreshState(s) && Possible(cfg, s, e) && RightAnswer(cfg, s, e)
    ensures FreshLog(cfg, Apply(cfg, s, e).log)
  {
    if e.Analyse? {
      var en := EntryOf(cfg, s, e.motion);
      assert (s.log + [en])[..|s.log|] == s.log;
      assert FreshEntry(cfg, s.log + [en], |s.log|);
      FreshLogGrows(cfg, s.log, en);
    }
  }

  lemma FreshLogGrows(cfg: Config, log: seq<Entry>, en: Entry)
    requires cfg.Valid() && FreshLog(cfg, log) && FreshEntry(cfg, log + [en], |log|)
    ensures FreshLog(cfg, log + [en])
  {
    var longer := log + [en];
    forall k | 0 <= k < |longer|
      ensures FreshEntry(cfg, longer, k)
    {
      if k < |log| {
        assert longer[k] == log[k] && longer[..k] == log[..k];
        assert FreshEntry(cfg, log, k);
      }
    }
  }

  // ------------------------------------------------------------ post-roll

  /** The latest frame with motion. */
  function LatestMotion(log: seq<Entry>): (latest: Option<Entry>)
    ensures latest.Some? ==> IsMotion(latest.value)
  {
    if log == [] then None
    else if IsMotion(log[|log| - 1]) then Some(log[|log| - 1])
    else LatestMotion(log[..|log| - 1])
  }

  /** What became of an entry, told from the history up to and including it. */
  ghost predicate PostRollEntry(cfg: Config, e: Entry, latest: Option<Entry>)
    requires latest.Some? ==> IsMotion(latest.value)
  {
    && (e.fate in {Accepted, Backpressure} <==> e.item.Some?)
    && (e.fate.RateLimited? <==> e.motion.None?)
    && (e.fate.LightingShift? <==> e.motion.Some? && e.motion.value.isLightingShift)
    && (e.item.Some? ==> e.motion.Some? && !e.motion.value.isLightingShift)
    && (e.motion.Some? && !e.motion.value.isLightingShift ==>
          (e.item.Some? <==> e.motion.value.hasMotion || (latest.Some? && e.now - latest.value.now <= cfg.postRoll)))
    && (e.item.Some? ==>
          && e.item.value.isPostRoll == !e.motion.value.hasMotion
          && e.item.value.timestamp == e.now && e.item.value.data == Some(e.frame)
          && latest.Some? && e.item.value.motionBox == latest.value.motion.value.motionBox)
  }

  /** Every entry has the right story. */
  ghost predicate PostRollLog(cfg: Config, log: seq<Entry>) {
    log == [] || (PostRollLog(cfg, log[..|log| - 1]) && PostRollEntry(cfg, log[|log| - 1], LatestMotion(log)))
  }

  lemma {:induction false} PostRollAt(cfg: Config, log: seq<Entry>, k: nat)
    requires PostRollLog(cfg, log) && k < |log|
    ensures PostRollEntry(cfg, log[k], LatestMotion(log[..k + 1]))
  {
    if k == |log| - 1 {
      assert log[..k + 1] == log;
    } else {
      PostRollAt(cfg, log[..|log| - 1], k);
      assert log[..|log| - 1][..k + 1] == log[..k + 1];
    }
  }

  /** The two timing variables remember exactly the latest motion frame. */
  ghost predicate PostRollState(tm: Timing, log: seq<Entry>) {
    match LatestMotion(log)
    case Some(e) => tm.lastMotion == Some(e.now) && tm.lastBox == e.motion.value.motionBox
    case None => tm.lastMotion == None && tm.lastBox == None
  }

  /** A result with a box has motion, as every answer of the detector does. */
  predicate BoxMeansMotion(m: Motion.MotionResult) {
    m.motionBox.Some? ==> m.hasMotion && !m.isLightingShift
  }

  lemma PostRollStep(cfg: Config, s: State, e: Step)
    requires PostRollLog(cfg, s.log) && PostRollState(s.tm, s.log) && Possible(cfg, s, e)
    requires e.Analyse? && !TooSoon(cfg, s.tm, s.now) ==> BoxMeansMotion(e.motion)
    ensures PostRollLog(cfg, Apply(cfg, s, e).log) && PostRollState(Apply(cfg, s, e).tm, Apply(cfg, s, e).log)
  {
    if e.Analyse? {
      var en := EntryOf(cfg, s, e.motion);
      LatestGrows(s.log, en);
      PostRollStateGrows(s.tm, s.log, en);
      EntryPostRoll(cfg, s, e.motion);
      PostRollLogGrows(cfg, s.log, en);
    }
  }

  lemma LatestGrows(log: seq<Entry>, en: Entry)
    ensures LatestMotion(log + [en]) == if IsMotion(en) then Some(en) else LatestMotion(log)
  {
    assert (log + [en])[..|log|] == log;
  }

  lemma PostRollStateGrows(tm: Timing, log: seq<Entry>, en: Entry)
    requires PostRollState(tm, log)
    ensures PostRollState(TimingAfter(tm, en), log + [en])
  {
    LatestGrows(log, en);
  }

  lemma EntryPostRoll(cfg: Config, s: State, m: Motion.MotionResult)
    requires PostRollState(s.tm, s.log) && HeldFrame(s).Some?
    requires !TooSoon(cfg, s.tm, s.now) ==> BoxMeansMotion(m)
    ensures PostRollEntry(cfg, EntryOf(cfg, s, m), LatestMotion(s.log + [EntryOf(cfg, s, m)]))
  {
    LatestGrows(s.log, EntryOf(cfg, s, m));
  }

  lemma PostRollLogGrows(cfg: Config, log: seq<Entry>, en: Entry)
    requires PostRollLog(cfg, log) && PostRollEntry(cfg, en, LatestMotion(log + [en]))
    ensures PostRollLog(cfg, log + [en])
  {
    assert (log + [en])[..|log|] == log;
  }

  // ------------------------------------------------------------ rate limit

  ghost predicate TimesInv(log: seq<Entry>, now: int) {
    && (forall i, j :: 0 <= i <= j < |log| ==> log[i].now <= log[j].now)
    && forall i :: 0 <= i < |log| ==> log[i].now <= now
  }

  lemma TimesStep(cfg: Config, s: State, e: Step)
    requires TimesInv(s.log, s.now) && Possible(cfg, s, e)
    ensures TimesInv(Apply(cfg, s, e).log, Apply(cfg, s, e).now)
  {
    var t := Apply(cfg, s, e);
    assert s.now <= t.now;
    if e.Analyse? {
      var en := EntryOf(cfg, s, e.motion);
      assert en.now == s.now == t.now && t.log == s.log + [en];
    } else {
      assert t.log == s.log;
    }
  }

  /** Entries that move lastSentTime: dropping a frame for backpressure does not. */
  predicate Marks(e: Entry) {
    e.fate in {LightingShift, DuplicateFrame, Accepted}
  }

  /** A marking entry lies less than minInterval before `now`. */
  ghost predicate MarkedWithin(cfg: Config, log: seq<Entry>, now: int) {
    exists i :: 0 <= i < |log| && Marks(log[i]) && now - log[i].now < cfg.minInterval
  }

  ghost predicate RateLog(cfg: Config, log: seq<Entry>) {
    forall k :: 0 <= k < |log| ==> (log[k].fate.RateLimited? <==> MarkedWithin(cfg, log[..k], log[k].now))
  }

  /** lastSentTime is the time of the latest marking entry. */
  ghost predicate RateState(lastSent: Option<int>, log: seq<Entry>) {
    && (forall i :: 0 <= i < |log| && Marks(log[i]) ==> lastSent.Some? && log[i].now <= lastSent.value)
    && (lastSent.Some? ==> exists i :: 0 <= i < |log| && Marks(log[i]) && log[i].now == lastSent.value)
  }

  lemma RateStep(cfg: Config, s: State, e: Step)
    requires RateLog(cfg, s.log) && RateState(s.tm.lastSent, s.log) && TimesInv(s.log, s.now) && Possible(cfg, s, e)
    ensures RateLog(cfg, Apply(cfg, s, e).log) && RateState(Apply(cfg, s, e).tm.lastSent, Apply(cfg, s, e).log)
  {
    if e.Analyse? {
      AnalyseRate(cfg, s, e.motion);
    }
  }

  lemma AnalyseRate(cfg: Config, s: State, m: Motion.MotionResult)
    requires RateLog(cfg, s.log) && RateState(s.tm.lastSent, s.log) && TimesInv(s.log, s.now) && HeldFrame(s).Some?
    ensures var en := EntryOf(cfg, s, m);
            RateLog(cfg, s.log + [en]) && RateState(TimingAfter(s.tm, en).lastSent, s.log + [en])
  {
    var en := EntryOf(cfg, s, m);
    assert en.fate.RateLimited? <==> TooSoon(cfg, s.tm, s.now);
    TooSoonIffMarked(cfg, s.tm, s.log, s.now);
    RateLogGrows(cfg, s.log, en);
    RateStateGrows(s.tm, s.log, en);
  }

  lemma TooSoonIffMarked(cfg: Config, tm: Timing, log: seq<Entry>, now: int)
    requires RateState(tm.lastSent, log)
    ensures TooSoon(cfg, tm, now) <==> MarkedWithin(cfg, log, now)
  {
  }

  lemma RateLogGrows(cfg: Config, log: seq<Entry>, en: Entry)
    requires RateLog(cfg, log) && (en.fate.RateLimited? <==> MarkedWithin(cfg, log, en.now))
    ensures RateLog(cfg, log + [en])
  {
    var longer := log + [en];
    forall k | 0 <= k < |longer|
      ensures longer[k].fate.RateLimited? <==> MarkedWithin(cfg, longer[..k], longer[k].now)
    {
      if k < |log| {
        assert longer[..k] == log[..k];
      } else {
        assert longer[..k] == log;
      }
    }
  }

  lemma RateStateGrows(tm: Timing, log: seq<Entry>, en: Entry)
    requires RateState(tm.lastSent, log) && TimesInv(log, en.now)
    requires Marks(en) ==> en.motion.Some?
    requires en.motion.Some? ==> Marks(en) || en.fate.Backpressure?
    ensures RateState(TimingAfter(tm, en).lastSent, log + [en])
  {
    var longer := log + [en];
    assert longer[|log|] == en;
    if !Marks(en) && tm.lastSent.Some? {
      var i :| 0 <= i < |log| && Marks(log[i]) && log[i].now == tm.lastSent.value;
      assert longer[i] == log[i];
    }
  }

  // ------------------------------------------------------------ every schedule

  ghost predicate Safe(cfg: Config, s: State)
    requires cfg.Valid()
  {
    && PhaseInv(s) && P.Owned(s.pipe) && CountInv(s) && ReasonsInv(s.count, s.log) && FifoInv(s) && SequenceInv(s)
    && FreshState(s) && FreshLog(cfg, s.log)
    && PostRollLog(cfg, s.log) && PostRollState(s.tm, s.log)
    && TimesInv(s.log, s.now) && RateLog(cfg, s.log) && RateState(s.tm.lastSent, s.log)
  }

  lemma AnswerBox(cfg: Config, s: State, e: Step)
    requires cfg.Valid() && Possible(cfg, s, e) && RightAnswer(cfg, s, e)
    ensures e.Analyse? && !TooSoon(cfg, s.tm, s.now) ==> BoxMeansMotion(e.motion)
  {
  }

  lemma StepSafe(cfg: Config, s: State, e: Step)
    requires cfg.Valid() && Safe(cfg, s) && Possible(cfg, s, e) && RightAnswer(cfg, s, e)
    ensures Safe(cfg, Apply(cfg, s, e))
  {
    PhaseStep(cfg, s, e);
    OwnershipStep(cfg, s, e);
    CountStep(cfg, s, e);
    ReasonsStep(cfg, s, e);
    FifoStep(cfg, s, e);
    SequenceStep(cfg, s, e);
    FreshStateStep(cfg, s, e);
    FreshLogStep(cfg, s, e);
    AnswerBox(cfg, s, e);
    PostRollStep(cfg, s, e);
    TimesStep(cfg, s, e);
    RateStep(cfg, s, e);
  }

  lemma InitiallySafe(cfg: Config, start: int)
    requires cfg.Valid()
    ensures Safe(cfg, Initial(start))
  {
  }

  /** Whatever the interleaving of loop, worker, signal and runtime. */
  lemma {:induction false} EveryRunIsSafe(cfg: Config, start: int, es: seq<Step>)
    requires cfg.Valid() && Run(cfg, start, es).Some?
    ensures Safe(cfg, Run(cfg, start, es).value)
  {
    if es == [] {
      InitiallySafe(cfg, start);
    } else {
      var s := LastStep(cfg, start, es);
      EveryRunIsSafe(cfg, start, es[..|es| - 1]);
      StepSafe(cfg, s, es[|es| - 1]);
    }
  }

  // ------------------------------------------------------------ from a step of the run onwards

  lemma {:induction false} PrefixRuns(cfg: Config, start: int, es: seq<Step>, n: nat)
    requires cfg.Valid() && Run(cfg, start, es).Some? && n <= |es|
    ensures Run(cfg, start, es[..n]).Some?
  {
    if n < |es| {
      var s := LastStep(cfg, start, es);
      PrefixRuns(cfg, start, es[..|es| - 1], n);
      assert es[..|es| - 1][..n] == es[..n];
    } else {
      assert es[..n] == es;
    }
  }

  /** State t comes after s, in which no session was under way: everything new belongs to later sessions. */
  ghost predicate LaterSessions(s: State, t: State) {
    && s.session <= t.session && (t.isRunning || !t.phase.Idle? ==> s.session < t.session)
    && LaterEntries(s.log, s.session, t.log)
  }

  ghost predicate LaterEntries(earlier: seq<Entry>, session: nat, log: seq<Entry>) {
    earlier <= log && forall k :: |earlier| <= k < |log| ==> session < log[k].frame.session
  }

  lemma LaterSessionsStep(cfg: Config, s: State, t: State, e: Step)
    requires LaterSessions(s, t) && FreshState(t) && Possible(cfg, t, e)
    ensures LaterSessions(s, Apply(cfg, t, e))
  {
    if e.Analyse? {
      assert EntryOf(cfg, t, e.motion).frame == HeldFrame(t).value;
    }
  }

  /** Broker loss, an end of the schedule and a failed read end the capture session. */
  predicate EndsSession(e: Step) {
    e.StopAndReset? || e.Sleep? || e.ReadFailed?
  }

  lemma EndStops(cfg: Config, s: State, e: Step)
    requires Possible(cfg, s, e) && EndsSession(e)
    ensures var t := Apply(cfg, s, e); !t.isRunning && t.reference == None && t.phase.Idle? && LaterSessions(t, t)
  {
  }

  lemma {:induction false} SessionsAfter(cfg: Config, start: int, es: seq<Step>, n: nat)
    requires cfg.Valid() && Run(cfg, start, es).Some? && 0 < n <= |es| && EndsSession(es[n - 1])
    ensures Run(cfg, start, es[..n]).Some?
    ensures var s := Run(cfg, start, es[..n]).value;
            !s.isRunning && s.reference == None && LaterSessions(s, Run(cfg, start, es).value)
  {
    var init := es[..|es| - 1];
    var last := LastStep(cfg, start, es);
    if n == |es| {
      assert es[..n] == es;
      EndStops(cfg, last, es[n - 1]);
    } else {
      assert init[..n] == es[..n];
      SessionsAfter(cfg, start, init, n);
      EveryRunIsSafe(cfg, start, init);
      LaterSessionsStep(cfg, Run(cfg, start, es[..n]).value, last, es[|es| - 1]);
    }
  }

  /**
   * A lost broker, the end of the schedule and a failed read leave no process and no reference behind, and every
   * frame dealt with later belongs to a later capture session than every frame before.
   */
  lemma {:induction false} SessionsEnd(cfg: Config, start: int, es: seq<Step>, n: nat)
    requires cfg.Valid() && Run(cfg, start, es).Some? && 0 < n <= |es|
    requires es[n - 1].StopAndReset? || es[n - 1].Sleep? || es[n - 1].ReadFailed?
    ensures Run(cfg, start, es[..n]).Some?
    ensures var s, t := Run(cfg, start, es[..n]).value, Run(cfg, start, es).value;
            && !s.isRunning && s.reference == None
            && |s.log| <= |t.log| && t.log[..|s.log|] == s.log
            && forall j, k :: 0 <= j < |s.log| <= k < |t.log| ==> t.log[j].frame.session < t.log[k].frame.session
  {
    SessionsAfter(cfg, start, es, n);
    EveryRunIsSafe(cfg, start, es[..n]);
  }

  lemma CancelledStep(cfg: Config, s: State, e: Step)
    requires s.cancelled && Possible(cfg, s, e)
    ensures Apply(cfg, s, e).cancelled && Apply(cfg, s, e).session == s.session
  {
  }

  /** Once the program is told to stop, no capture session begins. */
  lemma {:induction false} NoSessionAfterCancel(cfg: Config, start: int, es: seq<Step>, n: nat)
    requires cfg.Valid() && Run(cfg, start, es).Some? && 0 < n <= |es| && es[n - 1].Cancel?
    ensures Run(cfg, start, es[..n]).Some?
    ensures var s, t := Run(cfg, start, es[..n]).value, Run(cfg, start, es).value;
            t.cancelled && t.session == s.session
  {
    var init := es[..|es| - 1];
    var last := LastStep(cfg, start, es);
    if n == |es| {
      assert es[..n] == es;
    } else {
      assert init[..n] == es[..n];
      NoSessionAfterCancel(cfg, start, init, n);
      CancelledStep(cfg, last, es[|es| - 1]);
    }
  }

  // ------------------------------------------------------------ what was done, told from the steps

  /** The time of the iteration begun last. */
  function BegunAt(start: int, es: seq<Step>): int {
    if es == [] then start
    else if es[|es| - 1].Begin? then es[|es| - 1].now
    else BegunAt(start, es[..|es| - 1])
  }

  /** A plane a capture process delivered, and the time of the iteration that read it. */
  datatype Read = Read(y: Plane, at: int)

  function Reads(start: int, es: seq<Step>): seq<Read> {
    if es == [] then []
    else
      var init, e := es[..|es| - 1], es[|es| - 1];
      Reads(start, init) + if e.ReadOk? then [Read(e.y, BegunAt(start, init))] else []
  }

  /** Every read is dealt with by one log entry, in order; the last one may still be with the loop. */
  ghost predicate ReadsInv(s: State, frames: seq<Read>, begun: int) {
    && |frames| == |s.log| + (if s.phase.Judging? then 1 else 0) && s.count.captured == |frames|
    && (forall k :: 0 <= k < |s.log| ==> Read(s.log[k].frame.y, s.log[k].now) == frames[k])
    && (s.phase.Judging? ==> HeldFrame(s).Some? && Read(HeldFrame(s).value.y, s.now) == frames[|s.log|])
    && (!s.phase.Idle? ==> s.now == begun)
  }

  lemma ReadsStep(cfg: Config, s: State, e: Step, frames: seq<Read>, begun: int)
    requires ReadsInv(s, frames, begun) && P.Owned(s.pipe) && PhaseInv(s) && Possible(cfg, s, e)
    ensures ReadsInv(Apply(cfg, s, e), if e.ReadOk? then frames + [Read(e.y, begun)] else frames,
                     if e.Begin? then e.now else begun)
  {
    match e {
      case ReadOk(y) => ReadOkReads(cfg, s, y, frames, begun);
      case Analyse(m) => AnalyseReads(cfg, s, m, frames, begun);
      case _ =>
        if s.phase.Judging? {
          HeldSurvives(cfg, s, e);
        }
        QuietReads(cfg, s, e, frames, begun);
    }
  }

  lemma ReadOkReads(cfg: Config, s: State, y: Plane, frames: seq<Read>, begun: int)
    requires ReadsInv(s, frames, begun) && Possible(cfg, s, ReadOk(y))
    ensures ReadsInv(Apply(cfg, s, ReadOk(y)), frames + [Read(y, begun)], begun)
  {
  }

  lemma AnalyseReads(cfg: Config, s: State, m: Motion.MotionResult, frames: seq<Read>, begun: int)
    requires ReadsInv(s, frames, begun) && Possible(cfg, s, Analyse(m))
    ensures ReadsInv(Apply(cfg, s, Analyse(m)), frames, begun)
  {
    assert EntryOf(cfg, s, m).frame == HeldFrame(s).value && EntryOf(cfg, s, m).now == s.now;
  }

  lemma QuietReads(cfg: Config, s: State, e: Step, frames: seq<Read>, begun: int)
    requires ReadsInv(s, frames, begun) && Possible(cfg, s, e) && !e.ReadOk? && !e.Analyse?
    requires s.phase.Judging? ==> HeldFrame(Apply(cfg, s, e)) == HeldFrame(s)
    ensures ReadsInv(Apply(cfg, s, e), frames, if e.Begin? then e.now else begun)
  {
  }

  lemma {:induction false} ReadsRun(cfg: Config, start: int, es: seq<Step>)
    requires cfg.Valid() && Run(cfg, start, es).Some?
    ensures ReadsInv(Run(cfg, start, es).value, Reads(start, es), BegunAt(start, es))
  {
    if es != [] {
      var init := es[..|es| - 1];
      var last := LastStep(cfg, start, es);
      ReadsRun(cfg, start, init);
      EveryRunIsSafe(cfg, start, init);
      ReadsStep(cfg, last, es[|es| - 1], Reads(start, init), BegunAt(start, init));
    }
  }

  /** What was captured is what was read: entry k deals with the k-th plane delivered, at its iteration's time. */
  lemma {:induction false} LogIsWhatWasRead(cfg: Config, start: int, es: seq<Step>)
    requires cfg.Valid() && Run(cfg, start, es).Some?
    ensures var s, frames := Run(cfg, start, es).value, Reads(start, es);
            && s.count.captured == |frames|
            && |s.log| == |frames| - (if s.phase.Judging? then 1 else 0)
            && forall k :: 0 <= k < |s.log| ==> s.log[k].frame.y == frames[k].y && s.log[k].now == frames[k].at
  {
    ReadsRun(cfg, start, es);
  }

  /** How often the worker ended with this outcome. */
  function Outcomes(es: seq<Step>, outcome: P.Outcome): nat {
    if es == [] then 0
    else Outcomes(es[..|es| - 1], outcome) + if es[|es| - 1] == Finish(outcome) then 1 else 0
  }

  lemma OutcomeStep(cfg: Config, s: State, e: Step)
    requires Possible(cfg, s, e)
    ensures var c, d := s.count, Apply(cfg, s, e).count;
            && d.sent == c.sent + (if e == Finish(P.Sent) then 1 else 0)
            && d.encodingFailed == c.encodingFailed + (if e == Finish(P.EncodingFailed) then 1 else 0)
            && d.marshalFailed == c.marshalFailed + (if e == Finish(P.MarshalFailed) then 1 else 0)
            && d.publishFailed == c.publishFailed + (if e == Finish(P.PublishFailed) then 1 else 0)
  {
  }

  /** Each outcome counter counts its own outcome. */
  lemma {:induction false} OutcomesAreCounted(cfg: Config, start: int, es: seq<Step>)
    requires cfg.Valid() && Run(cfg, start, es).Some?
    ensures var c := Run(cfg, start, es).value.count;
            && c.sent == Outcomes(es, P.Sent) && c.encodingFailed == Outcomes(es, P.EncodingFailed)
            && c.marshalFailed == Outcomes(es, P.MarshalFailed) && c.publishFailed == Outcomes(es, P.PublishFailed)
  {
    if es != [] {
      var last := LastStep(cfg, start, es);
      OutcomesAreCounted(cfg, start, es[..|es| - 1]);
      OutcomeStep(cfg, last, es[|es| - 1]);
    }
  }

  // ------------------------------------------------------------ what every run gives

  /** One owner per item, never more than four items out of the pool, whoever moves when. */
  lemma {:induction false} OneOwnerAlways(cfg: Config, start: int, es: seq<Step>)
    requires cfg.Valid() && Run(cfg, start, es).Some?
    ensures var p := Run(cfg, start, es).value.pipe;
            && P.Owned(p)
            && |p.channel| <= P.CHANNEL_CAPACITY && |p.heap| - |p.pool| - |p.collected| <= 4
  {
    EveryRunIsSafe(cfg, start, es);
    P.AtMostFourOutside(Run(cfg, start, es).value.pipe);
  }

  /** Between iterations every captured frame is accounted for exactly once, and every skipped one by its reason. */
  lemma {:induction false} FramesAreConserved(cfg: Config, start: int, es: seq<Step>)
    requires cfg.Valid() && Run(cfg, start, es).Some?
    ensures var s := Run(cfg, start, es).value;
            var c := s.count;
            && s.seqCounter == |s.accepted| + c.backpressure && ReasonsInv(c, s.log)
            && |s.accepted| == |s.pipe.channel| + InWorker(s)
                               + c.sent + c.encodingFailed + c.marshalFailed + c.publishFailed
            && (s.phase.Idle? ==>
                  c.captured == c.rateLimited + c.lightingShift + c.duplicate + c.backpressure
                                + |s.pipe.channel| + InWorker(s)
                                + c.sent + c.encodingFailed + c.marshalFailed + c.publishFailed)
  {
    EveryRunIsSafe(cfg, start, es);
  }

  lemma {:induction false} AcceptedComesFromLog(log: seq<Entry>, item: P.Item) returns (k: nat)
    requires item in AcceptedItems(log)
    ensures k < |log| && log[k].fate.Accepted? && log[k].item == Some(item)
  {
    var n := |log| - 1;
    if log[n].fate.Accepted? && log[n].item == Some(item) {
      k := n;
    } else {
      k := AcceptedComesFromLog(log[..n], item);
    }
  }

  /**
   * What is published is what was submitted: the very frame captured at its iteration, under a sequence number
   * larger than any published before.
   */
  lemma {:induction false} PublishedAsSubmitted(cfg: Config, start: int, es: seq<Step>, i: nat) returns (k: nat)
    requires cfg.Valid() && Run(cfg, start, es).Some? && i < |Run(cfg, start, es).value.published|
    ensures var s := Run(cfg, start, es).value;
            var sent := s.published[i];
            && StrictlyIncreasing(s.published) && 1 <= sent.sequence <= s.seqCounter
            && k < |s.log| && s.log[k].fate.Accepted? && s.log[k].item == Some(sent)
            && sent.data == Some(s.log[k].frame) && sent.timestamp == s.log[k].now
  {
    EveryRunIsSafe(cfg, start, es);
    var s := Run(cfg, start, es).value;
    var j :| 0 <= j < s.finished && s.accepted[j] == s.published[i];
    k := AcceptedComesFromLog(s.log, s.published[i]);
    PostRollAt(cfg, s.log, k);
  }

  lemma {:induction false} PreviousIsEarlier(log: seq<Entry>, session: nat)
    ensures match PreviousInSession(log, session)
            case Some(f) =>
              f.session == session && exists j :: 0 <= j < |log| && log[j].motion.Some? && log[j].frame == f
            case None => forall j :: 0 <= j < |log| && log[j].motion.Some? ==> log[j].frame.session != session
  {
    if log != [] {
      var n := |log| - 1;
      PreviousIsEarlier(log[..n], session);
    }
  }

  /** A frame is only ever compared with a frame of its own capture session, and the first of a session with none. */
  lemma {:induction false} AnalysesStayInSession(cfg: Config, start: int, es: seq<Step>, k: nat)
    requires cfg.Valid() && Run(cfg, start, es).Some?
    requires k < |Run(cfg, start, es).value.log| && Run(cfg, start, es).value.log[k].motion.Some?
    ensures var log := Run(cfg, start, es).value.log;
            var prev := PreviousInSession(log[..k], log[k].frame.session);
            && Motion.Analysed(cfg.grid, PlaneOf(prev), log[k].frame.y, log[k].motion.value)
            && (prev.Some? ==> prev.value.session == log[k].frame.session)
            && ((forall j :: 0 <= j < k && log[j].motion.Some? ==> log[j].frame.session != log[k].frame.session)
                ==> prev.None? && !log[k].motion.value.hasMotion)
  {
    EveryRunIsSafe(cfg, start, es);
    var log := Run(cfg, start, es).value.log;
    assert FreshEntry(cfg, log, k);
    PreviousIsEarlier(log[..k], log[k].frame.session);
  }

  predicate AnalysedIn(e: Entry, session: nat) {
    e.motion.Some? && e.frame.session == session
  }

  /** The entries at these places are consecutive analyses of one capture session. */
  ghost predicate Consecutive(log: seq<Entry>, session: nat, at: seq<nat>) {
    && (forall j :: 0 <= j < |at| ==> at[j] < |log| && AnalysedIn(log[at[j]], session))
    && (forall j :: 0 <= j < |at| - 1 ==> at[j] < at[j + 1])
    && forall j, i :: 0 <= j < |at| - 1 && at[j] < i < at[j + 1] ==> !AnalysedIn(log[i], session)
  }

  lemma {:induction false} PreviousIs(log: seq<Entry>, session: nat, i: nat)
    requires i < |log| && AnalysedIn(log[i], session)
    requires forall j :: i < j < |log| ==> !AnalysedIn(log[j], session)
    ensures PreviousInSession(log, session) == Some(log[i].frame)
  {
    if i < |log| - 1 {
      PreviousIs(log[..|log| - 1], session, i);
    }
  }

  lemma {:induction false} ComparedWithNeighbour(cfg: Config, log: seq<Entry>, session: nat, at: seq<nat>, j: nat)
    requires cfg.Valid() && FreshLog(cfg, log) && Consecutive(log, session, at) && j + 1 < |at|
    ensures Motion.Analysed(cfg.grid, Some(log[at[j]].frame.y), log[at[j + 1]].frame.y, log[at[j + 1]].motion.value)
  {
    assert FreshEntry(cfg, log, at[j + 1]);
    PreviousIs(log[..at[j + 1]], session, at[j]);
  }

  ghost function FramesAt(log: seq<Entry>, at: seq<nat>): (frames: seq<Plane>)
    requires forall j :: 0 <= j < |at| ==> at[j] < |log|
    ensures |frames| == |at| && forall j :: 0 <= j < |at| ==> frames[j] == log[at[j]].frame.y
  {
    seq(|at|, j requires 0 <= j < |at| => log[at[j]].frame.y)
  }

  /** The answers for all frames but the first. */
  ghost function AnswersAfter(log: seq<Entry>, at: seq<nat>): (rs: seq<Motion.MotionResult>)
    requires |at| >= 1 && forall j :: 0 <= j < |at| ==> at[j] < |log| && log[at[j]].motion.Some?
    ensures |rs| == |at| - 1 && forall j :: 0 <= j < |rs| ==> rs[j] == log[at[j + 1]].motion.value
  {
    seq(|at| - 1, j requires 0 <= j < |at| - 1 => log[at[j + 1]].motion.value)
  }

  lemma {:induction false} AllCompared(cfg: Config, log: seq<Entry>, session: nat, at: seq<nat>)
    requires cfg.Valid() && FreshLog(cfg, log) && Consecutive(log, session, at) && |at| >= 1
    ensures forall j :: 0 <= j < |at| - 1 ==>
              Motion.Analysed(cfg.grid, Some(FramesAt(log, at)[j]), FramesAt(log, at)[j + 1], AnswersAfter(log, at)[j])
  {
    forall j | 0 <= j < |at| - 1
      ensures Motion.Analysed(cfg.grid, Some(FramesAt(log, at)[j]), FramesAt(log, at)[j + 1], AnswersAfter(log, at)[j])
    {
      ComparedWithNeighbour(cfg, log, session, at, j);
    }
  }

  /** No slow escape in the loop: n comparisons of a session do not all miss a block that drifts by n thresholds. */
  lemma {:induction false} SlowDriftIsSeen(cfg: Config, start: int, es: seq<Step>, session: nat, at: seq<nat>, n: nat,
                                           i: int)
    returns (k: nat)
    requires cfg.Valid() && Run(cfg, start, es).Some? && |at| == n + 1 && n >= 1
    requires Consecutive(Run(cfg, start, es).value.log, session, at)
    requires 0 <= i < cfg.grid.Total() && !cfg.grid.masked[i] && cfg.grid.gridW > 0
    requires var log := Run(cfg, start, es).value.log;
             Motion.Mad(cfg.grid, log[at[0]].frame.y, log[at[n]].frame.y, i) >= Motion.Shares(n, cfg.grid.threshold)
    ensures var log := Run(cfg, start, es).value.log;
            && 1 <= k <= n && log[at[k]].motion.value.activeBlocks >= 1
            && log[at[k]].motion.value.maxBlockDelta >= cfg.grid.threshold
  {
    EveryRunIsSafe(cfg, start, es);
    k := DriftInLog(cfg, Run(cfg, start, es).value.log, session, at, n, i);
  }

  /** Every answer is the right one for its neighbours. */
  ghost predicate Answered(g: Motion.Grid, frames: seq<Plane>, rs: seq<Motion.MotionResult>)
    requires g.Valid()
  {
    |frames| == |rs| + 1 && forall j :: 0 <= j < |rs| ==> Motion.Analysed(g, Some(frames[j]), frames[j + 1], rs[j])
  }

  lemma {:induction false} DriftInLog(cfg: Config, log: seq<Entry>, session: nat, at: seq<nat>, n: nat, i: int)
    returns (k: nat)
    requires cfg.Valid() && FreshLog(cfg, log) && Consecutive(log, session, at) && |at| == n + 1 && n >= 1
    requires 0 <= i < cfg.grid.Total() && !cfg.grid.masked[i] && cfg.grid.gridW > 0
    requires Motion.Mad(cfg.grid, log[at[0]].frame.y, log[at[n]].frame.y, i) >= Motion.Shares(n, cfg.grid.threshold)
    ensures 1 <= k <= n && log[at[k]].motion.value.activeBlocks >= 1
    ensures log[at[k]].motion.value.maxBlockDelta >= cfg.grid.threshold
  {
    var frames, rs := FramesAt(log, at), AnswersAfter(log, at);
    assert Answered(cfg.grid, frames, rs) by {
      AllCompared(cfg, log, session, at);
    }
    k := DriftIn(cfg.grid, frames, n, rs, i, log[at[0]].frame.y, log[at[n]].frame.y);
  }

  lemma {:induction false} DriftIn(g: Motion.Grid, frames: seq<Plane>, n: nat, rs: seq<Motion.MotionResult>, i: int,
                                   first: Plane, last: Plane)
    returns (k: nat)
    requires g.Valid() && 0 <= i < g.Total() && !g.masked[i] && g.gridW > 0
    requires n >= 1 && |rs| == n && Answered(g, frames, rs) && first == frames[0] && last == frames[n]
    requires Motion.Mad(g, first, last, i) >= Motion.Shares(n, g.threshold)
    ensures 1 <= k <= n && rs[k - 1].activeBlocks >= 1 && rs[k - 1].maxBlockDelta >= g.threshold
  {
    Motion.SharesAre(n, g.threshold);
    var j := Motion.SlowDriftIsReported(g, frames, n, rs, i);
    k := j + 1;
  }

  lemma {:induction false} LatestIsLatest(log: seq<Entry>) returns (i: nat)
    requires LatestMotion(log).Some?
    ensures i < |log| && LatestMotion(log) == Some(log[i]) && IsMotion(log[i])
    ensures forall j :: i < j < |log| ==> !IsMotion(log[j])
  {
    var n := |log| - 1;
    if IsMotion(log[n]) {
      i := n;
    } else {
      i := LatestIsLatest(log[..n]);
    }
  }

  lemma {:induction false} NoMotionAtAll(log: seq<Entry>)
    requires LatestMotion(log).None?
    ensures forall j :: 0 <= j < |log| ==> !IsMotion(log[j])
  {
    if log != [] {
      NoMotionAtAll(log[..|log| - 1]);
    }
  }

  /** Some frame of the log up to k, at most postRoll older, had motion. */
  ghost predicate MotionWithin(cfg: Config, log: seq<Entry>, k: nat)
    requires k < |log|
  {
    exists j :: 0 <= j <= k && IsMotion(log[j]) && log[k].now - log[j].now <= cfg.postRoll
  }

  /**
   * The constant-size state implements the history: an analysed frame that is no lighting shift is submitted
   * exactly when it or some frame at most postRoll earlier had motion. (A frame with motion is submitted even under
   * a negative postRoll.) Only frames without motion are marked post-roll. A frame is skipped as a lighting shift
   * exactly when it was analysed as one, and as a duplicate exactly when there was neither that nor recent motion.
   */
  lemma {:induction false} SubmittedIffRecentMotion(cfg: Config, start: int, es: seq<Step>, k: nat)
    requires cfg.Valid() && Run(cfg, start, es).Some? && k < |Run(cfg, start, es).value.log|
    ensures var log := Run(cfg, start, es).value.log;
            var e := log[k];
            var analysed := e.motion.Some?;
            var shift := e.motion.Some? && e.motion.value.isLightingShift;
            var recent := (e.motion.Some? && e.motion.value.hasMotion)
                          || (exists j :: 0 <= j <= k && IsMotion(log[j]) && e.now - log[j].now <= cfg.postRoll);
            && (e.fate in {Accepted, Backpressure} <==> analysed && !shift && recent)
            && (e.fate == LightingShift <==> shift)
            && (e.fate == DuplicateFrame <==> analysed && !shift && !recent)
            && (e.fate == RateLimited <==> !analysed)
            && (e.item.Some? <==> e.fate in {Accepted, Backpressure})
            && (e.item.Some? ==> e.item.value.isPostRoll == !e.motion.value.hasMotion)
  {
    EveryRunIsSafe(cfg, start, es);
    var log := Run(cfg, start, es).value.log;
    PostRollAt(cfg, log, k);
    LatestDecides(cfg, log, k);
    assert MotionWithin(cfg, log, k) <==>
           exists j :: 0 <= j <= k && IsMotion(log[j]) && log[k].now - log[j].now <= cfg.postRoll;
  }

  lemma LatestDecides(cfg: Config, log: seq<Entry>, k: nat)
    requires k < |log| && forall i, j :: 0 <= i <= j < |log| ==> log[i].now <= log[j].now
    ensures var latest := LatestMotion(log[..k + 1]);
            MotionWithin(cfg, log, k) <==> latest.Some? && log[k].now - latest.value.now <= cfg.postRoll
  {
    var prefix := log[..k + 1];
    assert forall j :: 0 <= j <= k ==> prefix[j] == log[j];
    if LatestMotion(prefix).Some? {
      var i := LatestIsLatest(prefix);
      assert IsMotion(log[i]);
    } else {
      NoMotionAtAll(prefix);
    }
  }

  /** A submitted frame carries the box of the latest frame with motion, itself included. */
  lemma {:induction false} SubmittedBoxIsLatest(cfg: Config, start: int, es: seq<Step>, k: nat) returns (i: nat)
    requires cfg.Valid() && Run(cfg, start, es).Some?
    requires k < |Run(cfg, start, es).value.log| && Run(cfg, start, es).value.log[k].item.Some?
    ensures var log := Run(cfg, start, es).value.log;
            && i <= k && IsMotion(log[i]) && (forall j :: i < j <= k ==> !IsMotion(log[j]))
            && log[k].item.value.motionBox == log[i].motion.value.motionBox
  {
    EveryRunIsSafe(cfg, start, es);
    var log := Run(cfg, start, es).value.log;
    PostRollAt(cfg, log, k);
    i := LatestIsLatest(log[..k + 1]);
    assert forall j :: 0 <= j <= k ==> log[..k + 1][j] == log[j];
  }

  /**
   * What an accepted item says: the frame captured at entry k, marked post-roll exactly when that frame had no motion,
   * with the box of the latest frame with motion, entry i.
   */
  lemma {:induction false} AcceptedTells(cfg: Config, start: int, es: seq<Step>, j: nat) returns (k: nat, i: nat)
    requires cfg.Valid() && Run(cfg, start, es).Some? && j < |Run(cfg, start, es).value.accepted|
    ensures var s := Run(cfg, start, es).value;
            && i <= k < |s.log| && s.log[k].fate.Accepted? && s.log[k].motion.Some? && s.log[i].motion.Some?
            && s.accepted[j].data == Some(s.log[k].frame)
            && s.accepted[j].isPostRoll == !s.log[k].motion.value.hasMotion
            && s.log[i].motion.value.hasMotion && (forall l :: i < l <= k ==> !IsMotion(s.log[l]))
            && s.accepted[j].motionBox == s.log[i].motion.value.motionBox
  {
    EveryRunIsSafe(cfg, start, es);
    var s := Run(cfg, start, es).value;
    k := AcceptedComesFromLog(s.log, s.accepted[j]);
    PostRollAt(cfg, s.log, k);
    i := SubmittedBoxIsLatest(cfg, start, es, k);
  }

  /**
   * Across reconnects, too: a frame is rate-limited exactly when a sent, duplicate or lighting-shift frame lies less
   * than minInterval back, so accepted submissions are at least minInterval apart.
   */
  lemma {:induction false} RateLimitIsExact(cfg: Config, start: int, es: seq<Step>, k: nat)
    requires cfg.Valid() && Run(cfg, start, es).Some? && k < |Run(cfg, start, es).value.log|
    ensures var log := Run(cfg, start, es).value.log;
            && (log[k].fate.RateLimited? <==>
                  exists i :: 0 <= i < k && log[i].fate in {LightingShift, DuplicateFrame, Accepted}
                              && log[k].now - log[i].now < cfg.minInterval)
            && (log[k].fate.Accepted? ==>
                  forall i :: 0 <= i < k && log[i].fate.Accepted? ==> log[k].now - log[i].now >= cfg.minInterval)
  {
    EveryRunIsSafe(cfg, start, es);
    var log := Run(cfg, start, es).value.log;
    assert MarkedWithin(cfg, log[..k], log[k].now) <==> log[k].fate.RateLimited?;
    if i :| 0 <= i < k && log[i].fate in {LightingShift, DuplicateFrame, Accepted}
            && log[k].now - log[i].now < cfg.minInterval {
      assert Marks(log[..k][i]);
    }
  }

  /** Accepted submissions with lo <= time <= hi. */
  function AcceptedBetween(log: seq<Entry>, lo: int, hi: int): nat {
    if log == [] then 0
    else
      var e := log[|log| - 1];
      AcceptedBetween(log[..|log| - 1], lo, hi) + if e.fate.Accepted? && lo <= e.now <= hi then 1 else 0
  }

  ghost predicate AcceptedApart(log: seq<Entry>, gap: int) {
    forall i, j :: 0 <= i < j < |log| && log[i].fate.Accepted? && log[j].fate.Accepted? ==>
      log[j].now - log[i].now >= gap
  }

  lemma {:induction false} LastAcceptedIn(log: seq<Entry>, gap: nat, lo: int, hi: int) returns (i: nat)
    requires AcceptedApart(log, gap) && AcceptedBetween(log, lo, hi) > 0
    ensures i < |log| && log[i].fate.Accepted? && lo <= log[i].now <= hi
    ensures (AcceptedBetween(log, lo, hi) - 1) * gap <= log[i].now - lo
  {
    var n := |log| - 1;
    var init := log[..n];
    var before := AcceptedBetween(init, lo, hi);
    if log[n].fate.Accepted? && lo <= log[n].now <= hi {
      i := n;
      if before > 0 {
        var j := LastAcceptedIn(init, gap, lo, hi);
        assert init[j] == log[j];
        assert before * gap == (before - 1) * gap + gap;
      }
    } else {
      i := LastAcceptedIn(init, gap, lo, hi);
    }
  }

  lemma WindowCount(log: seq<Entry>, gap: nat, lo: int, hi: int)
    requires AcceptedApart(log, gap) && gap > 0 && lo <= hi
    ensures AcceptedBetween(log, lo, hi) <= (hi - lo) / gap + 1
  {
    var n := AcceptedBetween(log, lo, hi);
    if n > 0 {
      var i := LastAcceptedIn(log, gap, lo, hi);
      FitsInQuotient(n - 1, gap, hi - lo);
    }
  }

  /** A window of length hi - lo holds at most (hi - lo) / minInterval + 1 accepted submissions. */
  lemma {:induction false} RateBound(cfg: Config, start: int, es: seq<Step>, lo: int, hi: int)
    requires cfg.Valid() && cfg.minInterval > 0 && Run(cfg, start, es).Some? && lo <= hi
    ensures AcceptedBetween(Run(cfg, start, es).value.log, lo, hi) <= (hi - lo) / cfg.minInterval + 1
  {
    var log := Run(cfg, start, es).value.log;
    forall i, j | 0 <= i < j < |log| && log[i].fate.Accepted? && log[j].fate.Accepted?
      ensures log[j].now - log[i].now >= cfg.minInterval
    {
      RateLimitIsExact(cfg, start, es, j);
    }
    WindowCount(log, cfg.minInterval, lo, hi);
  }
}
