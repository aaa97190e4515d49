/**
 * The alert dispatcher: a bounded drop-oldest queue between the detector's callback and a background worker.
 * First the machine of their interleaved accesses to the queue, then the object that performs them.
 */
module AlertDispatcher {
  import opened Common

  datatype Alert = Alert(frame: int, filename: string, camera: string, humanCount: nat)

  /** How an alert left the queue; for an eviction, what the worker took since Full was seen, and the queue length. */
  datatype Leaving = Delivered(alert: Alert) | Evicted(alert: Alert, taken: nat, queued: nat)

  /** Where the one submitting thread stands in submit. */
  datatype Submitter =
    | Ready
    | Putting(alert: Alert)
    | Evicting(alert: Alert)
    | TaskDone(alert: Alert)

  /**
   * queue and unfinished are the queue object's, worker is the alert the background thread works on. Of the current
   * or latest submit: puts, evictions, ownSteps, and what the worker took since Full was seen. The rest is history:
   * handled are the alerts the worker has finished.
   */
  datatype State = State(queue: seq<Alert>, unfinished: int, submitter: Submitter, worker: Option<Alert>,
                         puts: nat, evictions: nat, ownSteps: nat, taken: nat,
                         submitted: seq<Alert>, enqueued: seq<Alert>, left: seq<Leaving>, evicted: nat,
                         handled: seq<Alert>)

  const INITIAL := State([], 0, Ready, None, 0, 0, 0, 0, [], [], [], 0, [])

  /** A queue bounded by maxsize, unbounded when that is not positive. */
  predicate Full(maxsize: int, queue: seq<Alert>) {
    0 < maxsize <= |queue|
  }

  /** One atomic access: submit's entry, put_nowait, get_nowait and task_done; the worker's get and task_done. */
  datatype Step = Call(alert: Alert) | TryPut | TryEvict | MarkDone | Take | Finish

  predicate Possible(s: State, e: Step) {
    match e
    case Call(_) => s.submitter.Ready?
    case TryPut => s.submitter.Putting?
    case TryEvict => s.submitter.Evicting?
    case MarkDone => s.submitter.TaskDone?
    case Take => s.worker.None? && s.queue != []
    case Finish => s.worker.Some?
  }

  function Apply(maxsize: int, s: State, e: Step): State
    requires Possible(s, e)
  {
    match e
    case Call(a) =>
      s.(submitter := Putting(a), submitted := s.submitted + [a], puts := 0, evictions := 0, ownSteps := 0)
    case TryPut =>
      var a := s.submitter.alert;
      var t := s.(puts := s.puts + 1, ownSteps := s.ownSteps + 1);
      if Full(maxsize, s.queue) then t.(submitter := Evicting(a), taken := 0)
      else t.(queue := s.queue + [a], unfinished := s.unfinished + 1, submitter := Ready, enqueued := s.enqueued + [a])
    case TryEvict =>
      var a := s.submitter.alert;
      var t := s.(ownSteps := s.ownSteps + 1);
      if s.queue == [] then t.(submitter := Putting(a))
      else t.(queue := s.queue[1..], submitter := TaskDone(a), evictions := s.evictions + 1, evicted := s.evicted + 1,
              left := s.left + [Evicted(s.queue[0], s.taken, |s.queue|)])
    case MarkDone =>
      s.(unfinished := s.unfinished - 1, submitter := Putting(s.submitter.alert), ownSteps := s.ownSteps + 1)
    case Take =>
      s.(queue := s.queue[1..], worker := Some(s.queue[0]), taken := s.taken + 1,
         left := s.left + [Delivered(s.queue[0])])
    case Finish => s.(worker := None, unfinished := s.unfinished - 1, handled := s.handled + [s.worker.value])
  }

  function Run(maxsize: int, es: seq<Step>): Option<State> {
    if es == [] then Some(INITIAL)
    else
      var t := Run(maxsize, es[..|es| - 1]);
      var e := es[|es| - 1];
      if t.Some? && Possible(t.value, e) then Some(Apply(maxsize, t.value, e)) else None
  }

  lemma RunGrows(maxsize: int, es: seq<Step>, e: Step)
    requires Run(maxsize, es).Some? && Possible(Run(maxsize, es).value, e)
    ensures Run(maxsize, es + [e]) == Some(Apply(maxsize, Run(maxsize, es).value, e))
  {
    assert (es + [e])[..|es|] == es;
  }

  // ------------------------------------------------------------ invariants

  /** The alerts that left, in the order they left. */
  function Alerts(left: seq<Leaving>): (r: seq<Alert>)
    ensures |r| == |left|
  {
    if left == [] then [] else Alerts(left[..|left| - 1]) + [left[|left| - 1].alert]
  }

  function Evictions(left: seq<Leaving>): nat {
    if left == [] then 0 else Evictions(left[..|left| - 1]) + if left[|left| - 1].Evicted? then 1 else 0
  }

  /** The alerts that left to the worker. */
  function Deliveries(left: seq<Leaving>): seq<Alert> {
    if left == [] then []
    else
      var l := left[|left| - 1];
      Deliveries(left[..|left| - 1]) + if l.Delivered? then [l.alert] else []
  }

  function Held(worker: Option<Alert>): seq<Alert> {
    if worker.Some? then [worker.value] else []
  }

  /** First in, first out, whichever way out. */
  predicate HistoryInv(s: State) {
    && s.enqueued == Alerts(s.left) + s.queue
    && s.submitted == (if s.submitter.Ready? then s.enqueued else s.enqueued + [s.submitter.alert])
    && s.evicted == Evictions(s.left)
    && s.handled + Held(s.worker) == Deliveries(s.left)
  }

  predicate TasksInv(s: State) {
    s.unfinished == |s.queue| + (if s.worker.Some? then 1 else 0) + (if s.submitter.TaskDone? then 1 else 0)
  }

  /** Only the worker changes the queue while submit is between two of its own steps, and it only makes room. */
  predicate SubmitInv(maxsize: int, s: State) {
    && (maxsize > 0 ==> |s.queue| <= maxsize)
    && match s.submitter
       case Ready => s.puts <= 2 && s.evictions <= 1 && s.ownSteps <= 4
       case Putting(_) =>
         || (s.puts == s.evictions == s.ownSteps == 0)
         || (s.puts == 1 && s.evictions <= 1 && s.ownSteps == 2 + s.evictions && 0 < maxsize && |s.queue| < maxsize)
       case Evicting(_) =>
         s.puts == s.ownSteps == 1 && s.evictions == 0 && 0 < maxsize && |s.queue| + s.taken == maxsize
       case TaskDone(_) => s.puts == s.evictions == 1 && s.ownSteps == 2 && 0 < maxsize && |s.queue| < maxsize
  }

  predicate EvictionsInv(maxsize: int, s: State) {
    && (forall i :: 0 <= i < |s.left| && s.left[i].Evicted? ==>
          1 <= s.left[i].queued && s.left[i].queued + s.left[i].taken == maxsize)
    && (s.evicted > 0 ==> 0 < maxsize && s.evicted + maxsize <= |s.submitted|)
    && (s.submitter.Evicting? ==> s.evicted + maxsize < |s.submitted|)
    && (s.evicted > 0 && s.submitter.Putting? && s.puts == 0 ==> s.evicted + maxsize < |s.submitted|)
  }

  predicate Inv(maxsize: int, s: State) {
    HistoryInv(s) && TasksInv(s) && SubmitInv(maxsize, s) && EvictionsInv(maxsize, s)
  }

  lemma HistoryStep(maxsize: int, s: State, e: Step)
    requires HistoryInv(s) && Possible(s, e)
    ensures HistoryInv(Apply(maxsize, s, e))
  {
    match e {
      case Take => TakeHistory(maxsize, s);
      case TryEvict => EvictHistory(maxsize, s);
      case TryPut => PutHistory(maxsize, s);
      case _ =>
    }
  }

  lemma TakeHistory(maxsize: int, s: State)
    requires HistoryInv(s) && Possible(s, Take)
    ensures HistoryInv(Apply(maxsize, s, Take))
  {
    HeadLeaves(s.left, s.queue, Delivered(s.queue[0]));
  }

  lemma EvictHistory(maxsize: int, s: State)
    requires HistoryInv(s) && Possible(s, TryEvict)
    ensures HistoryInv(Apply(maxsize, s, TryEvict))
  {
    if s.queue != [] {
      HeadLeaves(s.left, s.queue, Evicted(s.queue[0], s.taken, |s.queue|));
    }
  }

  lemma PutHistory(maxsize: int, s: State)
    requires HistoryInv(s) && Possible(s, TryPut)
    ensures HistoryInv(Apply(maxsize, s, TryPut))
  {
    assert s.enqueued + [s.submitter.alert] == Alerts(s.left) + (s.queue + [s.submitter.alert]);
  }

  lemma HeadLeaves(left: seq<Leaving>, queue: seq<Alert>, l: Leaving)
    requires queue != [] && l.alert == queue[0]
    ensures Alerts(left + [l]) + queue[1..] == Alerts(left) + queue
    ensures Evictions(left + [l]) == Evictions(left) + if l.Evicted? then 1 else 0
    ensures Deliveries(left + [l]) == Deliveries(left) + if l.Delivered? then [l.alert] else []
  {
    assert (left + [l])[..|left|] == left;
  }

  lemma SubmitStep(maxsize: int, s: State, e: Step)
    requires TasksInv(s) && SubmitInv(maxsize, s) && Possible(s, e)
    ensures TasksInv(Apply(maxsize, s, e)) && SubmitInv(maxsize, Apply(maxsize, s, e))
  {
  }

  lemma EvictionsStep(maxsize: int, s: State, e: Step)
    requires HistoryInv(s) && SubmitInv(maxsize, s) && EvictionsInv(maxsize, s) && Possible(s, e)
    ensures EvictionsInv(maxsize, Apply(maxsize, s, e))
  {
    EvictedAtMostLeft(s.left);
  }

  lemma {:induction false} EvictedAtMostLeft(left: seq<Leaving>)
    ensures Evictions(left) <= |left|
  {
    if left != [] {
      EvictedAtMostLeft(left[..|left| - 1]);
    }
  }

  lemma {:induction false} EveryRunKeepsInv(maxsize: int, es: seq<Step>)
    requires Run(maxsize, es).Some?
    ensures Inv(maxsize, Run(maxsize, es).value)
  {
    if es != [] {
      var init, e := es[..|es| - 1], es[|es| - 1];
      EveryRunKeepsInv(maxsize, init);
      var s := Run(maxsize, init).value;
      HistoryStep(maxsize, s, e);
      SubmitStep(maxsize, s, e);
      EvictionsStep(maxsize, s, e);
    }
  }

  // ------------------------------------------------------------ what every interleaving gives

  lemma {:induction false} AlertsAt(left: seq<Leaving>, i: nat)
    requires i < |left|
    ensures Alerts(left)[i] == left[i].alert
  {
    if i < |left| - 1 {
      AlertsAt(left[..|left| - 1], i);
    }
  }

  /**
   * The queue is the unremoved end of what was submitted, never longer than its bound; every earlier alert left
   * exactly once, to the worker or evicted.
   */
  lemma {:induction false} QueueIsSuffix(maxsize: int, es: seq<Step>)
    requires Run(maxsize, es).Some?
    ensures var s := Run(maxsize, es).value;
            && s.submitted == (if s.submitter.Ready? then s.enqueued else s.enqueued + [s.submitter.alert])
            && |s.enqueued| == |s.left| + |s.queue| && s.queue == s.enqueued[|s.left|..]
            && (forall i :: 0 <= i < |s.left| ==> s.left[i].alert == s.enqueued[i])
            && (maxsize > 0 ==> |s.queue| <= maxsize)
  {
    EveryRunKeepsInv(maxsize, es);
    var s := Run(maxsize, es).value;
    forall i | 0 <= i < |s.left|
      ensures s.left[i].alert == s.enqueued[i]
    {
      AlertsAt(s.left, i);
    }
  }

  lemma {:induction false} DeliveryPositions(left: seq<Leaving>) returns (at: seq<nat>)
    ensures |at| == |Deliveries(left)|
    ensures forall i :: 0 <= i < |at| ==> at[i] < |left| && left[at[i]] == Delivered(Deliveries(left)[i])
    ensures forall i, j :: 0 <= i < j < |at| ==> at[i] < at[j]
  {
    if left == [] {
      at := [];
    } else {
      var n := |left| - 1;
      at := DeliveryPositions(left[..n]);
      if left[n].Delivered? {
        at := at + [n];
      }
    }
  }

  /** The worker handles alerts in the order they were submitted. */
  lemma {:induction false} DeliveriesKeepOrder(maxsize: int, es: seq<Step>) returns (at: seq<nat>)
    requires Run(maxsize, es).Some?
    ensures var s := Run(maxsize, es).value;
            && |at| == |s.handled + Held(s.worker)|
            && (forall i :: 0 <= i < |at| ==>
                  at[i] < |s.submitted| && s.submitted[at[i]] == (s.handled + Held(s.worker))[i])
            && forall i, j :: 0 <= i < j < |at| ==> at[i] < at[j]
  {
    EveryRunKeepsInv(maxsize, es);
    QueueIsSuffix(maxsize, es);
    at := DeliveryPositions(Run(maxsize, es).value.left);
  }

  /** task_done is called once per alert, so the count of unfinished tasks is exact and task_done never fails. */
  lemma {:induction false} TasksAreAccounted(maxsize: int, es: seq<Step>)
    requires Run(maxsize, es).Some?
    ensures var s := Run(maxsize, es).value;
            && s.unfinished == |s.queue| + |Held(s.worker)| + (if s.submitter.TaskDone? then 1 else 0)
            && (Possible(s, MarkDone) || Possible(s, Finish) ==> s.unfinished >= 1)
            && |s.submitted| == |s.handled| + s.evicted + |s.queue| + |Held(s.worker)|
                                + (if s.submitter.Ready? then 0 else 1)
  {
    EveryRunKeepsInv(maxsize, es);
    LeftSplits(Run(maxsize, es).value.left);
  }

  lemma {:induction false} LeftSplits(left: seq<Leaving>)
    ensures |left| == |Deliveries(left)| + Evictions(left)
  {
    if left != [] {
      LeftSplits(left[..|left| - 1]);
    }
  }

  /**
   * A submit takes at most four accesses of its own, at most two puts and one eviction, however the worker moves,
   * and ends with its alert queued last.
   */
  lemma {:induction false} SubmitIsBounded(maxsize: int, es: seq<Step>)
    requires Run(maxsize, es).Some?
    ensures var s := Run(maxsize, es).value;
            && s.puts <= 2 && s.evictions <= 1 && s.ownSteps <= 4
            && (s.ownSteps == 4 ==> s.submitter.Ready?)
            && (s.submitter.Ready? ==> s.enqueued == s.submitted)
  {
    EveryRunKeepsInv(maxsize, es);
  }

  /** No more alerts are evicted than were submitted beyond the bound; an unbounded queue evicts none. */
  lemma {:induction false} DropsAreBounded(maxsize: int, es: seq<Step>)
    requires Run(maxsize, es).Some?
    ensures var s := Run(maxsize, es).value;
            && s.evicted == Evictions(s.left)
            && (maxsize <= 0 ==> s.evicted == 0)
            && (maxsize > 0 ==> s.evicted <= Max(0, |s.submitted| - maxsize))
  {
    EveryRunKeepsInv(maxsize, es);
  }

  /** An eviction follows an observed Full, and meets a full queue exactly when the worker took nothing since. */
  lemma {:induction false} EvictionNeededIff(maxsize: int, es: seq<Step>, i: nat)
    requires Run(maxsize, es).Some? && i < |Run(maxsize, es).value.left|
    requires Run(maxsize, es).value.left[i].Evicted?
    ensures var l := Run(maxsize, es).value.left[i];
            && l.queued + l.taken == maxsize && 1 <= l.queued
            && (l.queued == maxsize <==> l.taken == 0)
  {
    EveryRunKeepsInv(maxsize, es);
  }

  /** A needless eviction: the worker makes room between Full and get_nowait, yet the older alert is lost. */
  lemma {:induction false} NeedlessEvictionExample(a: Alert, b: Alert, c: Alert) returns (es: seq<Step>)
    ensures Run(2, es).Some?
    ensures var s := Run(2, es).value;
            s.left == [Delivered(a), Evicted(b, 1, 1)] && s.queue == [] && s.submitter == TaskDone(c)
  {
    es := [];
    es := Prolong(2, es, Call(a));
    es := Prolong(2, es, TryPut);
    es := Prolong(2, es, Call(b));
    es := Prolong(2, es, TryPut);
    es := Prolong(2, es, Call(c));
    es := Prolong(2, es, TryPut);
    es := Prolong(2, es, Take);
    es := Prolong(2, es, TryEvict);
  }

  lemma Prolong(maxsize: int, es: seq<Step>, e: Step) returns (longer: seq<Step>)
    requires Run(maxsize, es).Some? && Possible(Run(maxsize, es).value, e)
    ensures longer == es + [e] && Run(maxsize, longer) == Some(Apply(maxsize, Run(maxsize, es).value, e))
  {
    longer := es + [e];
    RunGrows(maxsize, es, e);
  }

  // ------------------------------------------------------------ the object

  /** A broker connection or channel as its holder sees it. */
  datatype Link = Absent | Closed | Open

  /** What the broker does to one publish attempt: which links it has closed by then, and which calls succeed. */
  datatype Attempt = Attempt(connectionCloses: bool, channelCloses: bool, connects: bool, publishes: bool)

  /** A link once the broker has had its chance to close it. */
  function Seen(l: Link, closes: bool): Link {
    if l == Open && closes then Closed else l
  }

  predicate Usable(connection: Link, channel: Link, a: Attempt) {
    Seen(connection, a.connectionCloses) == Open && Seen(channel, a.channelCloses) == Open
  }

  /** Attempt number i gets through; every attempt but the first finds both links absent. */
  predicate GetsThrough(connection: Link, channel: Link, attempts: seq<Attempt>, i: nat)
    requires i < |attempts|
  {
    attempts[i].publishes && (attempts[i].connects || (i == 0 && Usable(connection, channel, attempts[0])))
  }

  ghost predicate SomeGetsThrough(connection: Link, channel: Link, attempts: seq<Attempt>, retries: int)
    requires retries <= |attempts|
  {
    exists i :: 0 <= i < retries && GetsThrough(connection, channel, attempts, i)
  }

  class AlertDispatcher {
    const maxsize: int
    var queue: seq<Alert>
    var unfinished: int
    var connection: Link
    var channel: Link
    /** The alert the worker thread holds in its local variables. */
    var inHand: Option<Alert>
    /** Alerts handed to the broker, and times slept between attempts. */
    ghost var published: seq<Alert>
    ghost var slept: nat
    /** The accesses made so far and the machine state they lead to. */
    ghost var steps: seq<Step>
    ghost var sys: State

    /** The object's history is a run of the machine, so every law above holds of it. */
    ghost predicate Valid()
      reads this
    {
      Consistent() && inHand == sys.worker
    }

    ghost predicate Consistent()
      reads this
    {
      Run(maxsize, steps) == Some(sys) && queue == sys.queue && unfinished == sys.unfinished
    }

    constructor (queueSize: int)
      ensures Valid() && maxsize == queueSize && sys == INITIAL && connection == channel == Absent && published == []
    {
      maxsize, queue, unfinished, connection, channel, inHand := queueSize, [], 0, Absent, Absent, None;
      published, slept, steps, sys := [], 0, [], INITIAL;
    }

    ghost method Record(e: Step)
      requires Run(maxsize, steps) == Some(sys) && Possible(sys, e)
      modifies this`steps, this`sys
      ensures Run(maxsize, steps) == Some(sys) && sys == Apply(maxsize, old(sys), e) && steps == old(steps) + [e]
    {
      RunGrows(maxsize, steps, e);
      steps, sys := steps + [e], Apply(maxsize, sys, e);
    }

    // ---- the queue's own operations, each one atomic

    /** False stands for queue.Full. */
    method PutNowait(a: Alert) returns (ok: bool)
      requires Valid() && sys.submitter == Putting(a)
      modifies this`queue, this`unfinished, this`steps, this`sys
      ensures Valid() && sys == Apply(maxsize, old(sys), TryPut) && ok == !Full(maxsize, old(queue))
    {
      Record(TryPut);
      if maxsize > 0 && |queue| >= maxsize {
        return false;
      }
      queue, unfinished := queue + [a], unfinished + 1;
      return true;
    }

    /** None stands for queue.Empty. */
    method GetNowait() returns (head: Option<Alert>)
      requires Valid() && sys.submitter.Evicting?
      modifies this`queue, this`steps, this`sys
      ensures Valid() && sys == Apply(maxsize, old(sys), TryEvict)
      ensures head == if old(queue) == [] then None else Some(old(queue)[0])
    {
      Record(TryEvict);
      if queue == [] {
        return None;
      }
      head, queue := Some(queue[0]), queue[1..];
    }

    /** Python raises ValueError when no task is unfinished; that never happens. */
    method TaskDone(ghost e: Step) returns (raised: bool)
      requires Consistent() && e in {MarkDone, Finish} && Possible(sys, e)
      modifies this`unfinished, this`steps, this`sys
      ensures !raised && Consistent() && sys == Apply(maxsize, old(sys), e)
    {
      TasksAreAccounted(maxsize, steps);
      Record(e);
      if unfinished <= 0 {
        return true;
      }
      unfinished := unfinished - 1;
      return false;
    }

    // ---- the submitting thread

    /**
     * Enqueues a, evicting the oldest alert when the queue is full. `moves(k)` is the number of accesses the worker
     * makes before the k-th access of this call, so the result holds for every interleaving.
     */
    method Submit(a: Alert, moves: nat -> nat)
      requires Valid() && sys.submitter.Ready?
      modifies this`queue, this`unfinished, this`inHand, this`steps, this`sys
      ensures Valid() && sys.submitter.Ready? && sys.submitted == old(sys.submitted) + [a] == sys.enqueued
      ensures sys.puts <= 2 && sys.evictions <= 1 && sys.evicted == old(sys.evicted) + sys.evictions
      ensures old(sys.left) <= sys.left
    {
      Record(Call(a));
      var k := 0;
      while true
        invariant Valid() && sys.submitter == Putting(a) && sys.submitted == old(sys.submitted) + [a]
        invariant sys.evicted == old(sys.evicted) + sys.evictions && old(sys.left) <= sys.left
        invariant sys.ownSteps <= 3
        decreases 4 - sys.ownSteps
      {
        WorkerMoves(moves(k));
        var ok := PutNowait(a);
        if ok {
          break;
        }
        WorkerMoves(moves(k + 1));
        var head := GetNowait();
        k := k + 2;
        if head == None {
          SubmitIsBounded(maxsize, steps);
          continue;
        }
        WorkerMoves(moves(k));
        var raised := TaskDone(MarkDone);
        k := k + 1;
        SubmitIsBounded(maxsize, steps);
      }
      SubmitIsBounded(maxsize, steps);
    }

    // ---- the worker thread

    /** The blocking get, once there is something to get. */
    method Get()
      requires Valid() && inHand == None && queue != []
      modifies this`queue, this`inHand, this`steps, this`sys
      ensures Valid() && sys == Apply(maxsize, old(sys), Take) && inHand == Some(old(queue)[0])
    {
      Record(Take);
      inHand, queue := Some(queue[0]), queue[1..];
    }

    /** The worker makes at most n accesses to the queue: whatever else it does, it never evicts or submits. */
    method WorkerMoves(n: nat)
      requires Valid()
      modifies this`queue, this`unfinished, this`inHand, this`steps, this`sys
      ensures Valid() && SubmitterUntouched(old(sys), sys)
    {
      for i := 0 to n
        invariant Valid() && SubmitterUntouched(old(sys), sys)
      {
        if inHand.Some? {
          var raised := TaskDone(Finish);
          inHand := None;
        } else if queue != [] {
          Get();
        }
      }
    }

    // ---- publishing

    /** Connects unless both links are usable; false stands for a failed connect. */
    method EnsureChannel(a: Attempt) returns (ok: bool)
      modifies this`connection, this`channel
      ensures ok <==> || a.connects
                      || (old(connection) == Open && !a.connectionCloses && old(channel) == Open && !a.channelCloses)
      ensures ok ==> connection == channel == Open
    {
      connection, channel := Seen(connection, a.connectionCloses), Seen(channel, a.channelCloses);
      if connection != Open || channel != Open {
        if !a.connects {
          return false;
        }
        connection, channel := Open, Open;
      }
      return true;
    }

    method ResetChannel()
      modifies this`connection, this`channel
      ensures connection == channel == Absent
    {
      channel := Absent;
      connection := Absent;
    }

    /**
     * Publishes within `retries` attempts if any of them gets through, and then exactly once; sleeps between
     * attempts only; leaves either both links open or none.
     */
    method PublishWithRetry(a: Alert, retries: int, attempts: seq<Attempt>) returns (ok: bool)
      requires retries <= |attempts|
      modifies this`connection, this`channel, this`published, this`slept
      ensures ok <==> SomeGetsThrough(old(connection), old(channel), attempts, retries)
      ensures published == if ok then old(published) + [a] else old(published)
      ensures ok ==> connection == channel == Open && 0 <= slept - old(slept) < retries
                     && GetsThrough(old(connection), old(channel), attempts, slept - old(slept))
      ensures !ok ==> slept - old(slept) == Max(retries - 1, 0)
      ensures !ok && retries > 0 ==> connection == channel == Absent
    {
      var attempt := 1;
      while attempt <= retries
        invariant 1 <= attempt <= Max(retries, 0) + 1 && published == old(published)
        invariant attempt == 1 ==> connection == old(connection) && channel == old(channel)
        invariant attempt > 1 ==> connection == channel == Absent
        invariant forall i :: 0 <= i < attempt - 1 ==> !GetsThrough(old(connection), old(channel), attempts, i)
        invariant slept - old(slept) == Min(attempt - 1, Max(retries - 1, 0))
      {
        var ready := EnsureChannel(attempts[attempt - 1]);
        if ready && attempts[attempt - 1].publishes {
          assert GetsThrough(old(connection), old(channel), attempts, attempt - 1);
          published := published + [a];
          return true;
        }
        ResetChannel();
        if attempt < retries {
          slept := slept + 1;
        }
        attempt := attempt + 1;
      }
      return false;
    }

    /**
     * One turn of the worker: get, save, publish, and task_done on every path. `saves` is false when writing the
     * picture raises; a mere failure to write does not keep the alert from being published.
     */
    method HandleNext(saves: bool, attempts: seq<Attempt>)
      requires Valid() && inHand == None && queue != [] && |attempts| >= 3
      modifies this
      ensures Valid() && inHand == None && Possible(Apply(maxsize, old(sys), Take), Finish)
      ensures sys == Apply(maxsize, Apply(maxsize, old(sys), Take), Finish)
      ensures published == old(published) +
                           if saves && SomeGetsThrough(old(connection), old(channel), attempts, 3)
                           then [old(queue)[0]] else []
    {
      Get();
      if saves {
        var ok := PublishWithRetry(inHand.value, 3, attempts);
      }
      var raised := TaskDone(Finish);
      inHand := None;
    }
  }

  ghost predicate SubmitterUntouched(s: State, t: State) {
    && t.submitter == s.submitter && t.submitted == s.submitted && t.enqueued == s.enqueued
    && t.puts == s.puts && t.evictions == s.evictions && t.ownSteps == s.ownSteps && t.evicted == s.evicted
    && s.left <= t.left
  }
}
