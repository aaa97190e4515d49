/**
 * The ingestion engine as the program has it: a capturer, a detector, a pipeline and the loop's variables,
 * changed in place. Every method is one step of the Ingestion machine, so whatever order loop, worker and
 * signal handler are scheduled in, the engine's history is a run of that machine and its laws hold.
 */
module Engine {
  import opened Common
  import opened Ingestion
  import Motion
  import P = Pipeline

  /** The supervised capture process; a session is one process. */
  class StreamCapturer {
    var cmd: Option<nat>
    var stdout: Option<nat>
    var isRunning: bool
    /** Number of processes started so far. */
    ghost var session: nat

    ghost predicate Valid()
      reads this
    {
      cmd == stdout == if isRunning then Some(session) else None
    }

    constructor ()
      ensures Valid() && !isRunning && session == 0
    {
      cmd, stdout, isRunning, session := None, None, false, 0;
    }

    /** Starts a process unless one is running; a cancelled context starts none. `pid` names the new process. */
    method Start(cancelled: bool, spawned: bool, pid: nat) returns (ok: bool)
      requires Valid() && pid == session + 1
      modifies this
      ensures Valid() && isRunning == ok
      ensures ok <==> old(isRunning) || (spawned && !cancelled)
      ensures session == if ok && !old(isRunning) then old(session) + 1 else old(session)
    {
      if isRunning {
        return true;
      }
      if !spawned || cancelled {
        return false;
      }
      cmd, stdout, isRunning := Some(pid), Some(pid), true;
      session := session + 1;
      return true;
    }

    /** One frame from the process's pipe, when it is open and delivers a whole frame. */
    method ReadFrame(read: Option<Plane>) returns (frame: Option<P.Frame>)
      requires Valid()
      ensures frame == if isRunning && read.Some? then Some(P.Frame(session, read.value)) else None
    {
      frame := if stdout.Some? && read.Some? then Some(P.Frame(stdout.value, read.value)) else None;
    }

    method Stop()
      requires Valid()
      modifies this
      ensures Valid() && !isRunning && session == old(session)
    {
      if !isRunning {
        return;
      }
      stdout := None;
      cmd := None;
      isRunning := false;
    }
  }

  /** What the methods below ask of the machine state holds in every run. */
  lemma {:induction false} RunMeetsPreconditions(cfg: Config, start: int, es: seq<Step>)
    requires cfg.Valid() && Run(cfg, start, es).Some?
    ensures var s := Run(cfg, start, es).value;
            && (s.phase.Idle? || s.phase.Started? ==> s.pipe.holding.None?)
            && (s.phase.Judging? ==> HeldFrame(s).Some?)
            && (s.pipe.worker.Some? ==> s.pipe.holding != s.pipe.worker && WorkerHasAccepted(s))
  {
    EveryRunIsSafe(cfg, start, es);
    var s := Run(cfg, start, es).value;
    if s.pipe.worker.Some? {
      P.WorkerApart(s.pipe);
    }
  }

  /** The worker's item is the oldest accepted one not finished yet. */
  ghost predicate WorkerHasAccepted(s: State) {
    && s.pipe.worker.Some? && s.pipe.worker.value < |s.pipe.heap| && s.finished < |s.accepted|
    && s.pipe.heap[s.pipe.worker.value] == s.accepted[s.finished]
  }

  /** A method call that is a possible step with the right answer prolongs the run. */
  lemma {:induction false} RunGrows(cfg: Config, start: int, es: seq<Step>, e: Step)
    requires cfg.Valid() && Run(cfg, start, es).Some?
    requires var s := Run(cfg, start, es).value; Possible(cfg, s, e) && RightAnswer(cfg, s, e)
    ensures Run(cfg, start, es + [e]) == Some(Apply(cfg, Run(cfg, start, es).value, e))
  {
    assert (es + [e])[..|es|] == es;
  }

  /** What submitting leaves behind, field by field. */
  lemma SendLeaves(cfg: Config, s: State, m: Motion.MotionResult)
    requires Possible(cfg, s, Step.Analyse(m)) && !TooSoon(cfg, s.tm, s.now)
    requires !m.isLightingShift && (m.hasMotion || InPostRoll(cfg, s.tm, s.now, m))
    ensures var t := Apply(cfg, s, Step.Analyse(m));
            var tm := if m.hasMotion then s.tm.(lastMotion := Some(s.now), lastBox := m.motionBox) else s.tm;
            var ok := P.HasRoom(s.pipe);
            && t.isRunning == s.isRunning && t.session == s.session && t.cancelled == s.cancelled && t.now == s.now
            && t.reference == HeldFrame(s) && t.phase.Idle? && t.seqCounter == s.seqCounter + 1
            && t.tm == (if ok then tm.(lastSent := Some(s.now)) else tm)
            && t.count == (if ok then s.count else s.count.(backpressure := s.count.backpressure + 1))
            && t.pipe == P.Submitted(P.Written(s.pipe,
                 P.Item(HeldFrame(s), s.now, s.seqCounter + 1, if m.motionBox.Some? then m.motionBox else tm.lastBox,
                        !m.hasMotion)))
  {
  }

  /** What a finished item leaves behind. */
  lemma FinishLeaves(cfg: Config, s: State, outcome: P.Outcome)
    requires Possible(cfg, s, Step.Finish(outcome))
    ensures var t := Apply(cfg, s, Step.Finish(outcome));
            && SameLoop(s, t) && t.phase == s.phase
            && t.count == CountOutcome(s.count, outcome) && t.pipe == P.Finished(s.pipe)
            && (s.pipe.holding != s.pipe.worker ==> HeldFrame(t) == HeldFrame(s))
  {
  }

  /** The parts of the machine state no step on the pipeline alone touches. */
  ghost predicate SameLoop(s: State, t: State) {
    && t.isRunning == s.isRunning && t.session == s.session && t.cancelled == s.cancelled && t.now == s.now
    && t.reference == s.reference && t.seqCounter == s.seqCounter && t.tm == s.tm
  }

  lemma ReadLeaves(cfg: Config, s: State, y: Plane)
    requires Possible(cfg, s, Step.ReadOk(y))
    ensures var t := Apply(cfg, s, Step.ReadOk(y));
            && SameLoop(s, t) && t.count == s.count.(captured := s.count.captured + 1) && t.phase.Judging?
            && t.pipe == P.Written(s.pipe, P.HeldItem(s.pipe).(data := Some(P.Frame(s.session, y))))
            && HeldFrame(t) == Some(P.Frame(s.session, y))
  {
  }

  lemma AbortLeaves(cfg: Config, s: State)
    requires Possible(cfg, s, Step.ReadFailed)
    ensures var t := Apply(cfg, s, Step.ReadFailed);
            && !t.isRunning && t.reference == None && t.phase.Idle? && t.count == s.count
            && t.session == s.session && t.cancelled == s.cancelled && t.now == s.now
            && t.seqCounter == s.seqCounter && t.tm == s.tm
            && t.pipe == P.Act(s.pipe, P.Give(P.HeldItem(s.pipe).(data := None)))
  {
  }

  class Engine {
    const cfg: Config
    const capturer: StreamCapturer
    const detector: Motion.MacroblockDetector
    const pipeline: P.Pipeline
    var cancelled: bool
    var now: int
    var tm: Timing
    var seqCounter: nat
    var count: Counters
    /** The machine state the objects stand for. */
    ghost var sys: State

    ghost predicate Valid()
      reads this, capturer, detector, detector.isMasked, detector.lastY, pipeline, pipeline.items
    {
      && cfg.Valid() && capturer.Valid() && detector.Valid() && detector.View() == cfg.grid && pipeline.Valid()
      && Matches()
    }

    /** Field by field, the machine state is what the objects hold. */
    ghost predicate Matches()
      reads this, capturer, detector, pipeline
    {
      && sys.isRunning == capturer.isRunning && sys.session == capturer.session && sys.cancelled == cancelled
      && PlaneOf(sys.reference) == Motion.ReferenceAfter(detector.history)
      && sys.tm == tm
      && sys.now == now && sys.seqCounter == seqCounter && sys.count == count && sys.pipe == pipeline.state
      && (HeldFrame(sys).Some? && sys.phase.Judging? ==> |HeldFrame(sys).value.y| == cfg.grid.width * cfg.grid.height)
    }

    /** No process is being read and no frame remembered. */
    ghost predicate NoSession()
      reads capturer, detector
    {
      !capturer.isRunning && Motion.ReferenceAfter(detector.history) == None
    }

    constructor (motion: Motion.Config, minInterval: int, postRoll: int, startSeconds: int, endSeconds: int, began: int)
      ensures Valid() && sys == Initial(began)
      ensures cfg == Config(detector.View(), minInterval, postRoll, startSeconds, endSeconds)
    {
      capturer := new StreamCapturer();
      var d := new Motion.MacroblockDetector(motion);
      pipeline := new P.Pipeline();
      detector := d;
      cfg := Config(d.View(), minInterval, postRoll, startSeconds, endSeconds);
      cancelled, now, tm, seqCounter := false, began, Timing(None, None, None), 0;
      count := Counters(0, 0, 0, 0, 0, 0, 0, 0, 0);
      sys := Initial(began);
    }

    // ---- signal handler

    method Cancel()
      requires Valid() && !cancelled
      modifies this`cancelled, this`sys
      ensures Valid() && sys == Apply(cfg, old(sys), Step.Cancel) && cancelled
    {
      sys := Apply(cfg, sys, Step.Cancel);
      cancelled := true;
    }

    method SignalStop()
      requires Valid() && cancelled
      modifies this`sys, capturer
      ensures Valid() && sys == Apply(cfg, old(sys), Step.SignalStop) && !capturer.isRunning
    {
      sys := Apply(cfg, sys, Step.SignalStop);
      capturer.Stop();
    }

    // ---- loop

    /** Broker lost, or the inner loop left. */
    method StopAndReset()
      requires Valid() && sys.phase.Idle?
      modifies this`sys, capturer, detector
      ensures Valid() && sys == Apply(cfg, old(sys), Step.StopAndReset) && NoSession()
    {
      sys := Apply(cfg, sys, Step.StopAndReset);
      capturer.Stop();
      detector.Reset();
    }

    /** An iteration at time t outside the schedule. */
    method SleepOutsideSchedule(t: int, sec: int)
      requires Valid() && sys.phase.Idle? && now <= t && !IsWithinTimeFrame(cfg, sec)
      modifies this`now, this`sys, capturer, detector
      ensures Valid() && sys == Apply(cfg, old(sys), Step.Sleep(t, sec)) && NoSession() && now == t
    {
      sys := Apply(cfg, sys, Step.Sleep(t, sec));
      now := t;
      capturer.Stop();
      detector.Reset();
    }

    /** The head of an iteration inside the schedule. */
    method StartCapture(t: int, sec: int, spawned: bool, pid: nat) returns (ok: bool)
      requires Valid() && sys.phase.Idle? && now <= t && IsWithinTimeFrame(cfg, sec) && pid == capturer.session + 1
      modifies this`now, this`sys, capturer
      ensures Valid() && ok == (old(capturer.isRunning) || (spawned && !cancelled))
      ensures capturer.isRunning == ok && now == t
      ensures sys == Apply(cfg, old(sys), if ok then Step.Begin(t, sec) else Step.StartFailed(t, sec))
    {
      ok := capturer.Start(cancelled, spawned, pid);
      now := t;
      sys := Apply(cfg, sys, if ok then Step.Begin(t, sec) else Step.StartFailed(t, sec));
    }

    method Borrow(pick: Option<nat>) returns (item: P.FrameItem)
      requires Valid() && sys.phase.Started? && sys.pipe.holding.None?
      requires pick.Some? ==> pick.value < |pipeline.framePool|
      modifies this`sys, pipeline, pipeline.items
      ensures Valid() && pipeline.Holds(pipeline.state.holding, item) && (item in old(pipeline.items) || fresh(item))
      ensures Possible(cfg, old(sys), Step.Borrow(pick)) && sys == Apply(cfg, old(sys), Step.Borrow(pick))
    {
      item := pipeline.AcquireFrame(pick);
      sys := Apply(cfg, sys, Step.Borrow(pick));
    }

    /** Reads a frame into the borrowed item; on failure everything is given back and reset. */
    method ReadFrame(item: P.FrameItem, read: Option<Plane>) returns (ok: bool)
      requires Valid() && sys.phase.Reading? && pipeline.Holds(pipeline.state.holding, item)
      requires read.Some? ==> |read.value| == cfg.grid.width * cfg.grid.height
      modifies this`count, this`sys, capturer, detector, pipeline`state, pipeline`framePool, item
      ensures Valid() && ok == (old(capturer.isRunning) && read.Some?)
      ensures sys == Apply(cfg, old(sys), if ok then Step.ReadOk(read.value) else Step.ReadFailed)
      ensures if ok then pipeline.Holds(pipeline.state.holding, item) else NoSession()
      ensures count.captured == old(count.captured) + if ok then 1 else 0
    {
      var frame := capturer.ReadFrame(read);
      if frame.None? {
        AbortRead(item);
        return false;
      }
      ReadLeaves(cfg, sys, read.value);
      sys := Apply(cfg, sys, Step.ReadOk(read.value));
      pipeline.Fill(item, frame);
      count := count.(captured := count.captured + 1);
      return true;
    }

    method AbortRead(item: P.FrameItem)
      requires Valid() && sys.phase.Reading? && pipeline.Holds(pipeline.state.holding, item)
      modifies this`sys, capturer, detector, pipeline`state, pipeline`framePool, item
      ensures Valid() && sys == Apply(cfg, old(sys), Step.ReadFailed) && NoSession()
    {
      AbortLeaves(cfg, sys);
      sys := Apply(cfg, sys, Step.ReadFailed);
      GiveBack(item);
      capturer.Stop();
      detector.Reset();
    }

    /** The half-read buffer goes back to the pool. */
    method GiveBack(item: P.FrameItem)
      requires pipeline.Valid() && pipeline.Holds(pipeline.state.holding, item)
      modifies pipeline`state, pipeline`framePool, item
      ensures pipeline.Valid()
      ensures pipeline.state == P.Act(old(pipeline.state), P.Give(P.HeldItem(old(pipeline.state)).(data := None)))
    {
      pipeline.Fill(item, None);
      pipeline.ReleaseFrame(item);
    }

    /** From the rate limit to Submit: what becomes of a captured frame. */
    method HandleFrame(item: P.FrameItem) returns (ghost answer: Motion.MotionResult)
      requires Valid() && sys.phase.Judging? && HeldFrame(sys).Some? && pipeline.Holds(pipeline.state.holding, item)
      modifies this, detector, detector.lastY, pipeline, item
      ensures Valid() && Possible(cfg, old(sys), Step.Analyse(answer))
      ensures RightAnswer(cfg, old(sys), Step.Analyse(answer))
      ensures sys == Apply(cfg, old(sys), Step.Analyse(answer)) && count.captured == old(count.captured)
    {
      if tm.lastSent.Some? && now - tm.lastSent.value < cfg.minInterval {
        answer := Motion.MotionResult(false, 0, 0, 0, false, 0.0, None);
        RateLimit(item, answer);
        return;
      }
      var motion := detector.Analyze(item.data.value.y);
      answer := motion;
      if motion.isLightingShift {
        SkipFrame(item, motion);
        return;
      }
      if motion.hasMotion || (tm.lastMotion.Some? && now - tm.lastMotion.value <= cfg.postRoll) {
        SendFrame(item, motion);
      } else {
        SkipFrame(item, motion);
      }
    }

    method RateLimit(item: P.FrameItem, ghost m: Motion.MotionResult)
      requires Valid() && sys.phase.Judging? && HeldFrame(sys).Some? && pipeline.Holds(pipeline.state.holding, item)
      requires TooSoon(cfg, sys.tm, sys.now)
      modifies this`count, this`sys, pipeline`state, pipeline`framePool, item
      ensures Valid() && sys == Apply(cfg, old(sys), Step.Analyse(m))
      ensures count.captured == old(count.captured)
    {
      WriteSame(sys.pipe);
      sys := Apply(cfg, sys, Step.Analyse(m));
      count := count.(rateLimited := count.rateLimited + 1);
      pipeline.ReleaseFrame(item);
    }

    /** Everything as in Valid, except that the detector has already seen the held frame. */
    ghost predicate Analysing()
      reads this, capturer, detector, detector.isMasked, detector.lastY, pipeline, pipeline.items
    {
      && cfg.Valid() && capturer.Valid() && detector.Valid() && detector.View() == cfg.grid && pipeline.Valid()
      && sys.isRunning == capturer.isRunning && sys.session == capturer.session && sys.cancelled == cancelled
      && sys.tm == tm
      && sys.now == now && sys.seqCounter == seqCounter && sys.count == count && sys.pipe == pipeline.state
      && sys.phase.Judging? && HeldFrame(sys).Some? && !TooSoon(cfg, sys.tm, sys.now)
      && Motion.ReferenceAfter(detector.history) == Some(HeldFrame(sys).value.y)
    }

    /** A lighting shift, or neither motion nor post-roll. */
    method SkipFrame(item: P.FrameItem, m: Motion.MotionResult)
      requires Analysing() && pipeline.Holds(pipeline.state.holding, item)
      requires m.isLightingShift || !(m.hasMotion || InPostRoll(cfg, sys.tm, sys.now, m))
      modifies this`count, this`sys, this`tm, pipeline`state, pipeline`framePool, item
      ensures Valid() && sys == Apply(cfg, old(sys), Step.Analyse(m))
      ensures count.captured == old(count.captured)
    {
      WriteSame(sys.pipe);
      Skip(item, m.isLightingShift);
      sys := Apply(cfg, sys, Step.Analyse(m));
    }

    method Skip(item: P.FrameItem, isLightingShift: bool)
      requires pipeline.Valid() && pipeline.Holds(pipeline.state.holding, item)
      modifies this`count, this`tm, pipeline`state, pipeline`framePool, item
      ensures pipeline.Valid() && pipeline.state == P.Released(old(pipeline.state))
      ensures tm == old(tm).(lastSent := Some(now))
      ensures count == CountFate(old(count), if isLightingShift then LightingShift else DuplicateFrame)
    {
      if isLightingShift {
        count := count.(lightingShift := count.lightingShift + 1);
      } else {
        count := count.(duplicate := count.duplicate + 1);
      }
      pipeline.ReleaseFrame(item);
      tm := tm.(lastSent := Some(now));
    }

    /** Motion, or post-roll. */
    method SendFrame(item: P.FrameItem, m: Motion.MotionResult)
      requires Analysing() && pipeline.Holds(pipeline.state.holding, item)
      requires !m.isLightingShift && (m.hasMotion || InPostRoll(cfg, sys.tm, sys.now, m))
      modifies this`sys, this`seqCounter, this`count, this`tm
      modifies pipeline`state, pipeline`framePool, pipeline`frameChan, item
      ensures Valid() && sys == Apply(cfg, old(sys), Step.Analyse(m))
      ensures count.captured == old(count.captured)
    {
      Send(item, m);
      SendLeaves(cfg, sys, m);
      sys := Apply(cfg, sys, Step.Analyse(m));
    }

    /** Stamps and submits; lastSentTime moves only when the channel had room. */
    method Send(item: P.FrameItem, m: Motion.MotionResult)
      requires pipeline.Valid() && pipeline.Holds(pipeline.state.holding, item)
      modifies this`seqCounter, this`count, this`tm
      modifies pipeline`state, pipeline`framePool, pipeline`frameChan, item
      ensures pipeline.Valid() && seqCounter == old(seqCounter) + 1
      ensures var noted := if m.hasMotion then old(tm).(lastMotion := Some(now), lastBox := m.motionBox) else old(tm);
              var box := if m.motionBox.Some? then m.motionBox else noted.lastBox;
              var ok := P.HasRoom(old(pipeline.state));
              && tm == (if ok then noted.(lastSent := Some(now)) else noted)
              && count == (if ok then old(count) else old(count).(backpressure := old(count).backpressure + 1))
              && pipeline.state == P.Submitted(P.Written(old(pipeline.state),
                   P.Item(P.HeldItem(old(pipeline.state)).data, now, seqCounter, box, !m.hasMotion)))
    {
      var noted := if m.hasMotion then tm.(lastMotion := Some(now), lastBox := m.motionBox) else tm;
      seqCounter := seqCounter + 1;
      pipeline.Stamp(item, now, seqCounter, !m.hasMotion, if m.motionBox.Some? then m.motionBox else noted.lastBox);
      var ok := pipeline.Submit(item);
      if ok {
        noted := noted.(lastSent := Some(now));
      } else {
        count := count.(backpressure := count.backpressure + 1);
      }
      tm := noted;
    }

    // ---- worker

    method WorkerReceive() returns (item: P.FrameItem)
      requires Valid() && sys.workerUp && sys.pipe.worker.None? && pipeline.frameChan != []
      modifies this`sys, pipeline`state, pipeline`frameChan
      ensures Valid() && pipeline.Holds(pipeline.state.worker, item)
      ensures Possible(cfg, old(sys), Step.Receive) && sys == Apply(cfg, old(sys), Step.Receive)
    {
      sys := Apply(cfg, sys, Step.Receive);
      item := pipeline.Receive();
    }

    /** Encodes and publishes the worker's item and gives it back. */
    method WorkerProcess(item: P.FrameItem, outcome: P.Outcome) returns (published: Option<P.Payload>)
      requires Valid() && sys.pipe.holding != sys.pipe.worker && pipeline.Holds(pipeline.state.worker, item)
      modifies this`count, this`sys, pipeline`state, pipeline`framePool, item
      ensures Valid() && Possible(cfg, old(sys), Step.Finish(outcome))
      ensures sys == Apply(cfg, old(sys), Step.Finish(outcome))
      ensures published.Some? <==> outcome == P.Sent
      ensures published.Some? ==>
                && published.value.image == old(item.data) && published.value.motionBox == old(item.motionBox)
                && published.value.isPostRoll == old(item.isPostRoll)
    {
      published := pipeline.ProcessFrame(item, outcome);
      count := CountOutcome(count, outcome);
      FinishLeaves(cfg, sys, outcome);
      sys := Apply(cfg, sys, Step.Finish(outcome));
    }
  }

  lemma WriteSame(p: P.State)
    ensures P.Holding(p) ==> P.Written(p, P.HeldItem(p)) == p
  {
    if P.Holding(p) {
      assert p.heap[p.holding.value := p.heap[p.holding.value]] == p.heap;
    }
  }

  /** The step a read is: `ok` says whether a whole frame came. */
  function ReadStep(read: Option<Plane>, ok: bool): Step
    requires ok ==> read.Some?
  {
    if ok then Step.ReadOk(read.value) else Step.ReadFailed
  }

  /** To the steps before, the given ones were added, and then the judgement of a frame if there was one. */
  predicate Took(steps: seq<Step>, before: seq<Step>, more: seq<Step>, judged: bool) {
    if judged
    then |steps| > 0 && steps[|steps| - 1].Analyse? && steps[..|steps| - 1] == before + more
    else steps == before + more
  }

  lemma TookBefore(steps: seq<Step>, before: seq<Step>, first: Step, more: seq<Step>, judged: bool)
    requires Took(steps, before + [first], more, judged)
    ensures Took(steps, before, [first] + more, judged)
  {
    assert before + [first] + more == before + ([first] + more);
  }

  /** An engine together with the steps it has taken: its state is the state of a run. */
  class Service {
    const engine: Engine
    ghost const began: int
    ghost var steps: seq<Step>

    ghost predicate Valid()
      reads this, engine, engine.capturer, engine.detector, engine.detector.isMasked, engine.detector.lastY
      reads engine.pipeline, engine.pipeline.items
    {
      engine.Valid() && Run(engine.cfg, began, steps) == Some(engine.sys)
    }

    constructor (e: Engine, start: int)
      requires e.Valid() && e.sys == Initial(start)
      ensures Valid() && engine == e && began == start && steps == []
    {
      engine, began, steps := e, start, [];
    }

    ghost method Record(before: State, e: Step)
      requires engine.cfg.Valid() && Run(engine.cfg, began, steps) == Some(before)
      requires Possible(engine.cfg, before, e) && RightAnswer(engine.cfg, before, e)
      requires engine.sys == Apply(engine.cfg, before, e)
      modifies this`steps
      ensures steps == old(steps) + [e] && Run(engine.cfg, began, steps) == Some(engine.sys)
    {
      RunGrows(engine.cfg, began, steps, e);
      steps := steps + [e];
    }

    // ---- signal handler

    method Cancel()
      requires Valid() && !engine.cancelled
      modifies this`steps, engine`cancelled, engine`sys
      ensures Valid() && steps == old(steps) + [Step.Cancel]
    {
      engine.Cancel();
      Record(old(engine.sys), Step.Cancel);
    }

    method SignalStop()
      requires Valid() && engine.cancelled
      modifies this`steps, engine`sys, engine.capturer
      ensures Valid() && steps == old(steps) + [Step.SignalStop]
    {
      engine.SignalStop();
      Record(old(engine.sys), Step.SignalStop);
    }

    // ---- loop

    method StopAndReset()
      requires Valid() && engine.sys.phase.Idle?
      modifies this`steps, engine`sys, engine.capturer, engine.detector
      ensures Valid() && engine.sys.phase.Idle? && steps == old(steps) + [Step.StopAndReset] && engine.NoSession()
    {
      engine.StopAndReset();
      Record(old(engine.sys), Step.StopAndReset);
    }

    method SleepOutsideSchedule(t: int, sec: int)
      requires Valid() && engine.sys.phase.Idle? && engine.now <= t && !IsWithinTimeFrame(engine.cfg, sec)
      modifies this`steps, engine`now, engine`sys, engine.capturer, engine.detector
      ensures Valid() && engine.sys.phase.Idle? && steps == old(steps) + [Step.Sleep(t, sec)] && engine.NoSession()
    {
      engine.SleepOutsideSchedule(t, sec);
      Record(old(engine.sys), Step.Sleep(t, sec));
    }

    method StartCapture(t: int, sec: int, spawned: bool, pid: nat) returns (ok: bool)
      requires Valid() && engine.sys.phase.Idle? && engine.now <= t && IsWithinTimeFrame(engine.cfg, sec)
      requires pid == engine.capturer.session + 1
      modifies this`steps, engine`now, engine`sys, engine.capturer
      ensures Valid() && ok == (old(engine.capturer.isRunning) || (spawned && !engine.cancelled))
      ensures engine.capturer.isRunning == ok && engine.now == t
      ensures if ok then engine.sys.phase.Started? else engine.sys.phase.Idle?
      ensures steps == old(steps) + [if ok then Step.Begin(t, sec) else Step.StartFailed(t, sec)]
    {
      ok := engine.StartCapture(t, sec, spawned, pid);
      Record(old(engine.sys), if ok then Step.Begin(t, sec) else Step.StartFailed(t, sec));
    }

    method Borrow(pick: Option<nat>) returns (item: P.FrameItem)
      requires Valid() && engine.sys.phase.Started?
      requires pick.Some? ==> pick.value < |engine.pipeline.framePool|
      modifies this`steps, engine`sys, engine.pipeline, engine.pipeline.items
      ensures Valid() && engine.sys.phase.Reading? && engine.pipeline.Holds(engine.pipeline.state.holding, item)
      ensures steps == old(steps) + [Step.Borrow(pick)] && (item in old(engine.pipeline.items) || fresh(item))
      ensures engine.capturer.isRunning == old(engine.capturer.isRunning)
    {
      RunMeetsPreconditions(engine.cfg, began, steps);
      item := engine.Borrow(pick);
      Record(old(engine.sys), Step.Borrow(pick));
    }

    method ReadFrame(item: P.FrameItem, read: Option<Plane>) returns (ok: bool)
      requires Valid() && engine.sys.phase.Reading? && engine.pipeline.Holds(engine.pipeline.state.holding, item)
      requires read.Some? ==> |read.value| == engine.cfg.grid.width * engine.cfg.grid.height
      modifies this`steps, engine`count, engine`sys, engine.capturer, engine.detector
      modifies engine.pipeline`state, engine.pipeline`framePool, item
      ensures Valid() && ok == (old(engine.capturer.isRunning) && read.Some?)
      ensures if ok then engine.sys.phase.Judging? else engine.sys.phase.Idle?
      ensures if ok then engine.pipeline.Holds(engine.pipeline.state.holding, item) else engine.NoSession()
      ensures engine.count.captured == old(engine.count.captured) + if ok then 1 else 0
      ensures steps == old(steps) + [if ok then Step.ReadOk(read.value) else Step.ReadFailed]
    {
      ok := engine.ReadFrame(item, read);
      Record(old(engine.sys), if ok then Step.ReadOk(read.value) else Step.ReadFailed);
    }

    method HandleFrame(item: P.FrameItem)
      requires Valid() && engine.sys.phase.Judging? && engine.pipeline.Holds(engine.pipeline.state.holding, item)
      modifies this`steps, engine, engine.detector, engine.detector.lastY, engine.pipeline, item
      ensures Valid() && engine.sys.phase.Idle? && engine.count.captured == old(engine.count.captured)
      ensures |steps| == |old(steps)| + 1 && steps[..|old(steps)|] == old(steps) && steps[|old(steps)|].Analyse?
    {
      RunMeetsPreconditions(engine.cfg, began, steps);
      ghost var answer := engine.HandleFrame(item);
      Record(old(engine.sys), Step.Analyse(answer));
    }

    /**
     * One turn of the inner loop, whatever clock, broker, capture process and pool do, and exactly the steps it takes:
     * a frame that can be read is captured and judged, anything else ends or begins no more than it has to.
     */
    method Iterate(brokerLost: bool, t: int, sec: int, spawned: bool, pid: nat, pick: Option<nat>, read: Option<Plane>)
      requires Valid() && engine.sys.phase.Idle? && engine.now <= t && pid == engine.capturer.session + 1
      requires pick.Some? ==> pick.value < |engine.pipeline.framePool|
      requires read.Some? ==> |read.value| == engine.cfg.grid.width * engine.cfg.grid.height
      modifies this`steps, engine, engine.capturer, engine.detector, engine.detector.lastY
      modifies engine.pipeline, engine.pipeline.items
      ensures Valid() && engine.sys.phase.Idle?
      ensures brokerLost ==> steps == old(steps) + [Step.StopAndReset] && engine.NoSession()
      ensures !brokerLost && !IsWithinTimeFrame(engine.cfg, sec) ==>
                steps == old(steps) + [Step.Sleep(t, sec)] && engine.NoSession()
      ensures !brokerLost && IsWithinTimeFrame(engine.cfg, sec) ==>
                if !old(engine.capturer.isRunning) && (!spawned || old(engine.cancelled))
                then steps == old(steps) + [Step.StartFailed(t, sec)]
                else if read.None?
                then steps == old(steps) + [Step.Begin(t, sec), Step.Borrow(pick), Step.ReadFailed]
                     && engine.NoSession()
                else Took(steps, old(steps), [Step.Begin(t, sec), Step.Borrow(pick), Step.ReadOk(read.value)], true)
      ensures engine.count.captured == old(engine.count.captured) +
                if !brokerLost && IsWithinTimeFrame(engine.cfg, sec) && read.Some?
                   && (old(engine.capturer.isRunning) || (spawned && !old(engine.cancelled))) then 1 else 0
    {
      if brokerLost {
        StopAndReset();
      } else if IsWithinTimeFrame(engine.cfg, sec) {
        Monitor(t, sec, spawned, pid, pick, read);
      } else {
        SleepOutsideSchedule(t, sec);
      }
    }

    /** An iteration inside the schedule. */
    method Monitor(t: int, sec: int, spawned: bool, pid: nat, pick: Option<nat>, read: Option<Plane>)
      requires Valid() && engine.sys.phase.Idle? && engine.now <= t && pid == engine.capturer.session + 1
      requires IsWithinTimeFrame(engine.cfg, sec) && (pick.Some? ==> pick.value < |engine.pipeline.framePool|)
      requires read.Some? ==> |read.value| == engine.cfg.grid.width * engine.cfg.grid.height
      modifies this`steps, engine, engine.capturer, engine.detector, engine.detector.lastY
      modifies engine.pipeline, engine.pipeline.items
      ensures Valid() && engine.sys.phase.Idle?
      ensures if !old(engine.capturer.isRunning) && (!spawned || old(engine.cancelled))
              then steps == old(steps) + [Step.StartFailed(t, sec)]
              else if read.None?
              then steps == old(steps) + [Step.Begin(t, sec), Step.Borrow(pick), Step.ReadFailed] && engine.NoSession()
              else Took(steps, old(steps), [Step.Begin(t, sec), Step.Borrow(pick), Step.ReadOk(read.value)], true)
      ensures engine.count.captured == old(engine.count.captured) +
                if read.Some? && (old(engine.capturer.isRunning) || (spawned && !old(engine.cancelled))) then 1 else 0
    {
      var ok := StartCapture(t, sec, spawned, pid);
      if ok {
        var got := TakeFrame(pick, read);
        TookBefore(steps, old(steps), Step.Begin(t, sec), [Step.Borrow(pick), ReadStep(read, got)], got);
      }
    }

    /** Borrows, reads and judges one frame. */
    method TakeFrame(pick: Option<nat>, read: Option<Plane>) returns (got: bool)
      requires Valid() && engine.sys.phase.Started?
      requires pick.Some? ==> pick.value < |engine.pipeline.framePool|
      requires read.Some? ==> |read.value| == engine.cfg.grid.width * engine.cfg.grid.height
      modifies this`steps, engine, engine.capturer, engine.detector, engine.detector.lastY
      modifies engine.pipeline, engine.pipeline.items
      ensures Valid() && engine.sys.phase.Idle?
      ensures got == (old(engine.capturer.isRunning) && read.Some?)
      ensures Took(steps, old(steps), [Step.Borrow(pick), ReadStep(read, got)], got) && (got || engine.NoSession())
      ensures engine.count.captured == old(engine.count.captured) +
                if got then 1 else 0
    {
      var item := Borrow(pick);
      got := ReadAndHandle(item, read);
      TookBefore(steps, old(steps), Step.Borrow(pick), [ReadStep(read, got)], got);
    }

    method ReadAndHandle(item: P.FrameItem, read: Option<Plane>) returns (ok: bool)
      requires Valid() && engine.sys.phase.Reading? && engine.pipeline.Holds(engine.pipeline.state.holding, item)
      requires read.Some? ==> |read.value| == engine.cfg.grid.width * engine.cfg.grid.height
      modifies this`steps, engine, engine.capturer, engine.detector, engine.detector.lastY, engine.pipeline, item
      ensures Valid() && engine.sys.phase.Idle?
      ensures ok == (old(engine.capturer.isRunning) && read.Some?)
      ensures Took(steps, old(steps), [ReadStep(read, ok)], ok) && (ok || engine.NoSession())
      ensures engine.count.captured == old(engine.count.captured) +
                if ok then 1 else 0
    {
      ok := ReadFrame(item, read);
      if ok {
        HandleFrame(item);
      }
    }

    // ---- worker

    method WorkerReceive() returns (item: P.FrameItem)
      requires Valid() && engine.sys.workerUp && engine.sys.pipe.worker.None? && engine.pipeline.frameChan != []
      modifies this`steps, engine`sys, engine.pipeline`state, engine.pipeline`frameChan
      ensures Valid() && engine.pipeline.Holds(engine.pipeline.state.worker, item)
      ensures steps == old(steps) + [Step.Receive]
    {
      item := engine.WorkerReceive();
      Record(old(engine.sys), Step.Receive);
    }

    /**
     * What is published is the oldest accepted item not finished yet: the frame captured at log entry k, marked
     * post-roll exactly when that frame had no motion, with the box of entry i, the latest frame with motion.
     */
    method WorkerProcess(item: P.FrameItem, outcome: P.Outcome)
      returns (published: Option<P.Payload>, ghost k: nat, ghost i: nat)
      requires Valid() && engine.pipeline.Holds(engine.pipeline.state.worker, item)
      modifies this`steps, engine`count, engine`sys, engine.pipeline`state, engine.pipeline`framePool, item
      ensures Valid() && steps == old(steps) + [Step.Finish(outcome)]
      ensures published.Some? <==> outcome == P.Sent
      ensures var log := old(engine.sys).log;
              && i <= k < |log| && log[k].motion.Some? && log[i].motion.Some?
              && log[i].motion.value.hasMotion && (forall l :: i < l <= k ==> !IsMotion(log[l]))
              && (published.Some? ==>
                    && published.value.image == Some(log[k].frame)
                    && published.value.isPostRoll == !log[k].motion.value.hasMotion
                    && published.value.motionBox == log[i].motion.value.motionBox)
    {
      RunMeetsPreconditions(engine.cfg, began, steps);
      assert item.View() == engine.sys.accepted[engine.sys.finished];
      k, i := AcceptedTells(engine.cfg, began, steps, engine.sys.finished);
      published := engine.WorkerProcess(item, outcome);
      Record(old(engine.sys), Step.Finish(outcome));
    }

    // ---- the laws of runs, on the objects

    /** Between iterations the program's counters and its queue account for every captured frame. */
    lemma {:induction false} CountersBalance()
      requires Valid() && engine.sys.phase.Idle?
      ensures var c := engine.count;
              c.captured == c.rateLimited + c.lightingShift + c.duplicate + c.backpressure
                            + |engine.pipeline.frameChan| + (if engine.pipeline.state.worker.Some? then 1 else 0)
                            + c.sent + c.encodingFailed + c.marshalFailed + c.publishFailed
      ensures engine.seqCounter == |engine.sys.accepted| + engine.count.backpressure
    {
      FramesAreConserved(engine.cfg, began, steps);
    }

    /** Channel and pool hold different objects, each only once. */
    lemma {:induction false} NothingIsShared()
      requires Valid()
      ensures |engine.pipeline.frameChan| <= P.CHANNEL_CAPACITY && engine.pipeline.QueuesDiffer()
    {
      OneOwnerAlways(engine.cfg, began, steps);
      engine.pipeline.OwnedQueuesDiffer();
    }
  }
}
