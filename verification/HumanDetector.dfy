/**
 * The detector's message callback: warm-up, deduplication, inference and acknowledgement. What every delivery must
 * come to is told from the whole history; the service keeps two small maps and a counter and comes to the same.
 */
module HumanDetector {
  import opened Common

  const WARMUP_LIMIT := 30

  /** The hash field: its value up to Python's ==, whether it counts as true, and whether hash[:8] works on it. */
  datatype Hash = Hash(value: nat, truthy: bool, sliceable: bool)

  /** What base64, the decoder and the model make of the picture. */
  datatype Vision = Unreadable | Undecodable | InferenceFails | Humans(count: nat)

  /** A body that is no JSON object, one whose camera cannot be a dictionary key, or a proper message. */
  datatype Message = Unparsable | Unhashable | Proper(camera: string, hash: Hash, vision: Vision)

  /** A message and what the channel makes of the first and the second basic_ack. */
  datatype Delivery = Delivery(message: Message, firstAck: bool, secondAck: bool)

  datatype End = Raised | WarmingUp | Duplicate | NotAnImage | NobodySeen | Alerted

  /** How far a message got: past the warm-up, into the model, into the table of hashes. */
  datatype Handling = Handling(end: End, counted: bool, inferred: bool, recorded: bool)

  /** What became of a delivery: how far it got, how often it was acknowledged and how often with success. */
  datatype Entry = Entry(message: Message, handling: Handling, attempts: nat, acks: nat) {
    predicate Of(camera: string) { message.Proper? && message.camera == camera }
    predicate Records(camera: string) { Of(camera) && handling.recorded }
  }

  // ------------------------------------------------------------ told from the history

  /** Messages of this camera so far. */
  function Seen(log: seq<Entry>, camera: string): nat {
    if log == [] then 0 else Seen(log[..|log| - 1], camera) + if log[|log| - 1].Of(camera) then 1 else 0
  }

  /** The hash recorded last for this camera. */
  function LastRecorded(log: seq<Entry>, camera: string): Option<Hash> {
    if log == [] then None
    else if log[|log| - 1].Records(camera) then Some(log[|log| - 1].message.hash)
    else LastRecorded(log[..|log| - 1], camera)
  }

  /** Deliveries past the warm-up. */
  function Counted(log: seq<Entry>): nat {
    if log == [] then 0 else Counted(log[..|log| - 1]) + if log[|log| - 1].handling.counted then 1 else 0
  }

  /** Calls of the model. */
  function Inferred(log: seq<Entry>): nat {
    if log == [] then 0 else Inferred(log[..|log| - 1]) + if log[|log| - 1].handling.inferred then 1 else 0
  }

  /** The messages alerts were raised for. */
  function Alerts(log: seq<Entry>): seq<Message> {
    if log == [] then []
    else Alerts(log[..|log| - 1]) + if log[|log| - 1].handling.end.Alerted? then [log[|log| - 1].message] else []
  }

  /** Acknowledgements attempted and acknowledgements that succeeded. */
  function Attempted(log: seq<Entry>): nat {
    if log == [] then 0 else Attempted(log[..|log| - 1]) + log[|log| - 1].attempts
  }

  function Acked(log: seq<Entry>): nat {
    if log == [] then 0 else Acked(log[..|log| - 1]) + log[|log| - 1].acks
  }

  /** What must become of a message of a camera seen so often, with this hash recorded last. */
  function JudgedBy(seen: int, last: Option<Hash>, m: Message): Handling
    requires m.Proper?
  {
    if seen < WARMUP_LIMIT then Handling(WarmingUp, false, false, false)
    else if m.hash.truthy && last == Some(m.hash)
      then Handling(if m.hash.sliceable then Duplicate else Raised, true, false, false)
    else
      match m.vision
      case Unreadable => Handling(Raised, true, false, false)
      case Undecodable => Handling(NotAnImage, true, false, false)
      case InferenceFails => Handling(Raised, true, true, false)
      case Humans(n) =>
        Handling(if n == 0 then NobodySeen else if m.hash.sliceable then Alerted else Raised,
                 true, true, n > 0 && m.hash.truthy)
  }

  /** What must become of a message after this history. */
  function Judged(log: seq<Entry>, m: Message): Handling {
    if m.Proper? then JudgedBy(Seen(log, m.camera), LastRecorded(log, m.camera), m)
    else Handling(Raised, false, false, false)
  }

  /** What the channel makes of the n-th acknowledgement of a delivery; a third one would succeed. */
  predicate Answer(d: Delivery, n: nat) {
    if n == 0 then d.firstAck else if n == 1 then d.secondAck else true
  }

  /** A second acknowledgement is due only when the first was made in the try block and failed. */
  function Attempts(end: End, d: Delivery): nat {
    if end.Raised? || d.firstAck then 1 else 2
  }

  ghost predicate SomeSucceeds(d: Delivery, attempts: nat) {
    exists n :: 0 <= n < attempts && Answer(d, n)
  }

  function Acks(end: End, d: Delivery): (acks: nat)
    ensures acks == if SomeSucceeds(d, Attempts(end, d)) then 1 else 0
  {
    assert Answer(d, 0) <==> d.firstAck;
    assert Answer(d, 1) <==> d.secondAck;
    if d.firstAck || (!end.Raised? && d.secondAck) then 1 else 0
  }

  function EntryAfter(log: seq<Entry>, d: Delivery): Entry {
    var h := Judged(log, d.message);
    Entry(d.message, h, Attempts(h.end, d), Acks(h.end, d))
  }

  /** The history of a sequence of deliveries. */
  function History(ds: seq<Delivery>): (log: seq<Entry>)
    ensures |log| == |ds|
  {
    if ds == [] then []
    else
      var before := History(ds[..|ds| - 1]);
      before + [EntryAfter(before, ds[|ds| - 1])]
  }

  lemma {:induction false} HistoryAt(ds: seq<Delivery>, k: nat)
    requires k < |ds|
    ensures History(ds)[..k] == History(ds[..k])
    ensures History(ds)[k] == EntryAfter(History(ds[..k]), ds[k])
  {
    var n := |ds| - 1;
    if k < n {
      HistoryAt(ds[..n], k);
      assert ds[..n][..k] == ds[..k];
    }
    assert History(ds)[..n] == History(ds[..n]);
  }

  lemma HistoryGrows(log: seq<Entry>, e: Entry)
    ensures forall c :: Seen(log + [e], c) == Seen(log, c) + if e.Of(c) then 1 else 0
    ensures forall c :: LastRecorded(log + [e], c) ==
              if e.Records(c) then Some(e.message.hash) else LastRecorded(log, c)
    ensures Counted(log + [e]) == Counted(log) + if e.handling.counted then 1 else 0
    ensures Inferred(log + [e]) == Inferred(log) + if e.handling.inferred then 1 else 0
    ensures Alerts(log + [e]) == Alerts(log) + if e.handling.end.Alerted? then [e.message] else []
    ensures Attempted(log + [e]) == Attempted(log) + e.attempts && Acked(log + [e]) == Acked(log) + e.acks
  {
    assert (log + [e])[..|log|] == log;
  }

  /** Proper messages of this camera among the deliveries. */
  function Messages(ds: seq<Delivery>, camera: string): nat {
    if ds == [] then 0
    else
      var m := ds[|ds| - 1].message;
      Messages(ds[..|ds| - 1], camera) + if m.Proper? && m.camera == camera then 1 else 0
  }

  lemma {:induction false} SeenAreMessages(ds: seq<Delivery>, camera: string)
    ensures Seen(History(ds), camera) == Messages(ds, camera)
  {
    if ds != [] {
      SeenAreMessages(ds[..|ds| - 1], camera);
      assert History(ds)[..|ds| - 1] == History(ds[..|ds| - 1]);
    }
  }

  // ------------------------------------------------------------ the service

  /** The consumer's end of the broker channel, with its acknowledgements counted. */
  class AckChannel {
    var attempted: nat
    var succeeded: nat

    constructor ()
      ensures attempted == succeeded == 0
    {
      attempted, succeeded := 0, 0;
    }

    /** `ok` is what the broker makes of it; a failure is an exception. */
    method BasicAck(ok: bool) returns (raised: bool)
      modifies this
      ensures attempted == old(attempted) + 1 && succeeded == old(succeeded) + if ok then 1 else 0
      ensures raised == !ok
    {
      attempted := attempted + 1;
      if ok {
        succeeded := succeeded + 1;
      }
      raised := !ok;
    }
  }

  class DetectorService {
    const channel: AckChannel
    var cameraWarmup: map<string, nat>
    var lastSavedHashes: map<string, Hash>
    var frameCounter: nat
    /** Calls of the model, and the messages handed to the alert dispatcher. */
    var inferences: nat
    var submitted: seq<Message>
    ghost var deliveries: seq<Delivery>
    ghost var log: seq<Entry>

    /** Two maps and a counter stand for the whole history, and everything done is what the history asks for. */
    ghost predicate Valid()
      reads this, channel
    {
      && log == History(deliveries) && Remembers(log)
      && channel.attempted == Attempted(log) && channel.succeeded == Acked(log)
    }

    ghost predicate Remembers(history: seq<Entry>)
      reads this
    {
      && frameCounter == Counted(history) && inferences == Inferred(history) && submitted == Alerts(history)
      && (forall c :: WarmupOf(c) == Min(Seen(history, c), WARMUP_LIMIT))
      && forall c :: LastHashOf(c) == LastRecorded(history, c)
    }

    function WarmupOf(camera: string): int
      reads this
    {
      if camera in cameraWarmup then cameraWarmup[camera] else 0
    }

    function LastHashOf(camera: string): Option<Hash>
      reads this
    {
      if camera in lastSavedHashes then Some(lastSavedHashes[camera]) else None
    }

    constructor ()
      ensures Valid() && deliveries == [] && fresh(channel)
    {
      channel := new AckChannel();
      cameraWarmup, lastSavedHashes, frameCounter, inferences, submitted := map[], map[], 0, 0, [];
      deliveries, log := [], [];
    }

    /**
     * The callback. On every path through the try block and its handler one or two acknowledgements are attempted,
     * and exactly one succeeds unless all of them fail. The first thirty messages of a camera change neither the
     * frame counter nor the number of model calls nor the alerts.
     */
    method Callback(d: Delivery)
      requires Valid()
      modifies this, channel
      ensures Valid() && deliveries == old(deliveries) + [d] && log == old(log) + [EntryAfter(old(log), d)]
      ensures 1 <= channel.attempted - old(channel.attempted) <= 2
      ensures channel.succeeded - old(channel.succeeded) ==
              if SomeSucceeds(d, channel.attempted - old(channel.attempted)) then 1 else 0
      ensures d.message.Proper? ==>
                (Messages(old(deliveries), d.message.camera) < 30 <==> frameCounter == old(frameCounter))
      ensures var m, unseen := d.message, old(Unseen(d.message));
              var somebody := unseen && m.vision.Humans? && m.vision.count >= 1;
              && inferences == old(inferences)
                               + (if unseen && (m.vision.Humans? || m.vision.InferenceFails?) then 1 else 0)
              && submitted == old(submitted) + (if somebody && m.hash.sliceable then [m] else [])
              && lastSavedHashes == (if somebody && m.hash.truthy then old(lastSavedHashes)[m.camera := m.hash]
                                     else old(lastSavedHashes))
    {
      var before := channel.attempted;
      ghost var end: End;
      var raised;
      JudgedFromVariables(d);
      raised, end := TryBlock(d, before);
      if raised {
        var again := Ack(d, before);
      }
      Log(d);
    }

    /** What the message comes to, told from the variables before it. */
    ghost predicate Unseen(m: Message)
      reads this
    {
      && m.Proper? && Messages(deliveries, m.camera) >= 30
      && !(m.hash.truthy && m.camera in lastSavedHashes && lastSavedHashes[m.camera] == m.hash)
    }

    lemma {:induction false} JudgedFromVariables(d: Delivery)
      requires Valid()
      ensures var m, h, after := d.message, Judged(log, d.message), log + [EntryAfter(log, d)];
              var somebody := Unseen(m) && m.vision.Humans? && m.vision.count >= 1;
              && (m.Proper? ==> (Messages(deliveries, m.camera) < 30 <==> Counted(after) == Counted(log)))
              && Inferred(after) == Inferred(log)
                                    + (if Unseen(m) && (m.vision.Humans? || m.vision.InferenceFails?) then 1 else 0)
              && Alerts(after) == Alerts(log) + (if somebody && m.hash.sliceable then [m] else [])
              && (h.recorded <==> somebody && m.hash.truthy)
    {
      if d.message.Proper? {
        SeenAreMessages(deliveries, d.message.camera);
        assert LastHashOf(d.message.camera) == LastRecorded(log, d.message.camera);
      }
      HistoryGrows(log, EntryAfter(log, d));
    }

    /** One basic_ack of the delivery; `before` acknowledgements were made for earlier ones. */
    method Ack(d: Delivery, before: nat) returns (raised: bool)
      requires before <= channel.attempted
      modifies channel
      ensures var ok := Answer(d, old(channel.attempted) - before);
              && raised == !ok && channel.attempted == old(channel.attempted) + 1
              && channel.succeeded == old(channel.succeeded) + if ok then 1 else 0
    {
      raised := channel.BasicAck(Answer(d, channel.attempted - before));
    }

    ghost method Log(d: Delivery)
      requires log == History(deliveries) && Remembers(log + [EntryAfter(log, d)])
      requires channel.attempted == Attempted(log + [EntryAfter(log, d)])
      requires channel.succeeded == Acked(log + [EntryAfter(log, d)])
      modifies this`log, this`deliveries
      ensures Valid() && deliveries == old(deliveries) + [d] && log == old(log) + [EntryAfter(old(log), d)]
    {
      assert (deliveries + [d])[..|deliveries|] == deliveries;
      deliveries, log := deliveries + [d], log + [EntryAfter(log, d)];
    }

    /** The try block, told from the history. */
    method TryBlock(d: Delivery, before: nat) returns (raised: bool, ghost end: End)
      requires Remembers(log) && before == channel.attempted
      modifies this`cameraWarmup, this`lastSavedHashes, this`frameCounter, this`inferences, this`submitted, channel
      ensures end == Judged(log, d.message).end && Remembers(log + [EntryAfter(log, d)])
      ensures lastSavedHashes == if Judged(log, d.message).recorded
                                 then old(lastSavedHashes)[d.message.camera := d.message.hash] else old(lastSavedHashes)
      ensures raised == (end.Raised? || !d.firstAck)
      ensures channel.attempted == before + if end.Raised? then 0 else 1
      ensures channel.succeeded == old(channel.succeeded) + if !end.Raised? && d.firstAck then 1 else 0
    {
      ghost var h := Judged(log, d.message);
      end := h.end;
      raised := true;
      if d.message.Proper? {
        raised := HandleProper(d, before, h);
      }
      ReachedIsRemembered(d, h);
    }

    method HandleProper(d: Delivery, before: nat, ghost h: Handling) returns (raised: bool)
      requires Remembers(log) && before == channel.attempted && d.message.Proper? && h == Judged(log, d.message)
      modifies this`cameraWarmup, this`lastSavedHashes, this`frameCounter, this`inferences, this`submitted, channel
      ensures Reached(d.message, h) && raised == (h.end.Raised? || !d.firstAck)
      ensures lastSavedHashes ==
              if h.recorded then old(lastSavedHashes)[d.message.camera := d.message.hash] else old(lastSavedHashes)
      ensures channel.attempted == before + if h.end.Raised? then 0 else 1
      ensures channel.succeeded == old(channel.succeeded) + if !h.end.Raised? && d.firstAck then 1 else 0
    {
      assert WarmupOf(d.message.camera) == Min(Seen(log, d.message.camera), WARMUP_LIMIT);
      assert LastHashOf(d.message.camera) == LastRecorded(log, d.message.camera);
      raised := Handle(d, before, h);
    }

    /** The variables after a message that got this far, told from the history before it. */
    ghost predicate Reached(m: Message, h: Handling)
      reads this
    {
      && frameCounter == Counted(log) + (if h.counted then 1 else 0)
      && inferences == Inferred(log) + (if h.inferred then 1 else 0)
      && submitted == Alerts(log) + (if h.end.Alerted? then [m] else [])
      && (forall c :: WarmupOf(c) == Min(Seen(log, c) + (if m.Proper? && m.camera == c then 1 else 0), WARMUP_LIMIT))
      && forall c :: LastHashOf(c) ==
           if m.Proper? && m.camera == c && h.recorded then Some(m.hash) else LastRecorded(log, c)
    }

    lemma ReachedIsRemembered(d: Delivery, h: Handling)
      requires h == Judged(log, d.message) && Reached(d.message, h)
      ensures Remembers(log + [EntryAfter(log, d)])
    {
      HistoryGrows(log, EntryAfter(log, d));
    }

    /** The try block of a proper message, with an acknowledgement at the end of each of its four regular paths. */
    method Handle(d: Delivery, before: nat, ghost h: Handling) returns (raised: bool)
      requires d.message.Proper? && before == channel.attempted
      requires h == JudgedBy(WarmupOf(d.message.camera), LastHashOf(d.message.camera), d.message)
      modifies this`cameraWarmup, this`lastSavedHashes, this`frameCounter, this`inferences, this`submitted, channel
      ensures forall c :: WarmupOf(c) ==
                old(WarmupOf(c)) + if c == d.message.camera && h.end.WarmingUp? then 1 else 0
      ensures lastSavedHashes ==
              if h.recorded then old(lastSavedHashes)[d.message.camera := d.message.hash] else old(lastSavedHashes)
      ensures frameCounter == old(frameCounter) + if h.counted then 1 else 0
      ensures inferences == old(inferences) + if h.inferred then 1 else 0
      ensures submitted == old(submitted) + if h.end.Alerted? then [d.message] else []
      ensures raised == (h.end.Raised? || !d.firstAck)
      ensures channel.attempted == before + if h.end.Raised? then 0 else 1
      ensures channel.succeeded == old(channel.succeeded) + if !h.end.Raised? && d.firstAck then 1 else 0
    {
      var camera, hash := d.message.camera, d.message.hash;
      var currentCount := if camera in cameraWarmup then cameraWarmup[camera] else 0;
      if currentCount < WARMUP_LIMIT {
        cameraWarmup := cameraWarmup[camera := currentCount + 1];
        raised := Ack(d, before);
        return;
      }
      frameCounter := frameCounter + 1;
      if hash.truthy && camera in lastSavedHashes && lastSavedHashes[camera] == hash {
        if !hash.sliceable {
          return true;
        }
        raised := Ack(d, before);
        return;
      }
      raised := Recognise(d, before, h);
    }

    /** From decoding the picture to the acknowledgement of a processed frame. */
    method Recognise(d: Delivery, before: nat, ghost h: Handling) returns (raised: bool)
      requires d.message.Proper? && before == channel.attempted
      requires !(d.message.hash.truthy && LastHashOf(d.message.camera) == Some(d.message.hash))
      requires h == JudgedBy(WARMUP_LIMIT, LastHashOf(d.message.camera), d.message)
      modifies this`lastSavedHashes, this`inferences, this`submitted, channel
      ensures lastSavedHashes ==
              if h.recorded then old(lastSavedHashes)[d.message.camera := d.message.hash] else old(lastSavedHashes)
      ensures inferences == old(inferences) + if h.inferred then 1 else 0
      ensures submitted == old(submitted) + if h.end.Alerted? then [d.message] else []
      ensures raised == (h.end.Raised? || !d.firstAck)
      ensures channel.attempted == before + if h.end.Raised? then 0 else 1
      ensures channel.succeeded == old(channel.succeeded) + if !h.end.Raised? && d.firstAck then 1 else 0
    {
      var camera, hash, vision := d.message.camera, d.message.hash, d.message.vision;
      if vision.Unreadable? {
        return true;
      }
      if vision.Undecodable? {
        raised := Ack(d, before);
        return;
      }
      inferences := inferences + 1;
      if vision.InferenceFails? {
        return true;
      }
      if vision.count > 0 {
        if hash.truthy {
          lastSavedHashes := lastSavedHashes[camera := hash];
        }
        if !hash.sliceable {
          return true;
        }
        submitted := submitted + [d.message];
      }
      raised := Ack(d, before);
    }
  }

  // ------------------------------------------------------------ laws of the history

  /**
   * Among the first k deliveries lie fewer than thirty messages of the camera exactly when delivery k is warm-up; then
   * it adds nothing to the frame counter, the model calls or the alerts, and otherwise it is counted.
   */
  lemma {:induction false} WarmupIsThirty(ds: seq<Delivery>, k: nat, camera: string)
    requires k < |ds| && ds[k].message.Proper? && ds[k].message.camera == camera
    ensures var e, before, after := History(ds)[k].handling, History(ds[..k]), History(ds[..k + 1]);
            && (Messages(ds[..k], camera) < WARMUP_LIMIT <==> e.end == WarmingUp)
            && (Messages(ds[..k], camera) < WARMUP_LIMIT <==> Counted(after) == Counted(before))
            && (Messages(ds[..k], camera) < WARMUP_LIMIT ==>
                  Inferred(after) == Inferred(before) && Alerts(after) == Alerts(before))
  {
    HistoryAt(ds, k);
    SeenAreMessages(ds[..k], camera);
    assert ds[..k + 1][..k] == ds[..k];
    WarmupAdds(History(ds[..k]), ds[k]);
  }

  lemma {:induction false} WarmupAdds(log: seq<Entry>, d: Delivery)
    requires d.message.Proper?
    ensures var e, after := EntryAfter(log, d), log + [EntryAfter(log, d)];
            && (Seen(log, d.message.camera) < WARMUP_LIMIT <==> e.handling.end == WarmingUp)
            && (Seen(log, d.message.camera) < WARMUP_LIMIT <==> Counted(after) == Counted(log))
            && (Seen(log, d.message.camera) < WARMUP_LIMIT ==>
                  Inferred(after) == Inferred(log) && Alerts(after) == Alerts(log))
  {
    HistoryGrows(log, EntryAfter(log, d));
  }

  /** One successful acknowledgement per delivery unless all attempted ones failed, and one or two attempts. */
  lemma {:induction false} AcknowledgedOnce(ds: seq<Delivery>, k: nat)
    requires k < |ds|
    ensures var e := History(ds)[k];
            && 1 <= e.attempts <= 2
            && e.acks == (if SomeSucceeds(ds[k], e.attempts) then 1 else 0)
            && (e.attempts == 1 <==> ds[k].firstAck || e.handling.end == Raised)
  {
    HistoryAt(ds, k);
  }

  /** What LastRecorded finds: the latest recording entry of the camera. */
  lemma {:induction false} LastRecordedIs(log: seq<Entry>, camera: string, i: nat)
    requires i < |log| && log[i].Records(camera)
    requires forall j :: i < j < |log| ==> !log[j].Records(camera)
    ensures LastRecorded(log, camera) == Some(log[i].message.hash)
  {
    if i < |log| - 1 {
      LastRecordedIs(log[..|log| - 1], camera, i);
    }
  }

  /** Hashes recorded one after the other for a camera differ, whatever was delivered in between. */
  lemma {:induction false} RecordedHashesDiffer(ds: seq<Delivery>, camera: string, i: nat, k: nat)
    requires i < k < |ds| && History(ds)[i].Records(camera) && History(ds)[k].Records(camera)
    requires forall j :: i < j < k ==> !History(ds)[j].Records(camera)
    ensures History(ds)[i].message.hash != History(ds)[k].message.hash
  {
    HistoryAt(ds, k);
    NextRecordedDiffers(History(ds[..k]), History(ds)[k], camera, i);
  }

  lemma NextRecordedDiffers(log: seq<Entry>, e: Entry, camera: string, i: nat)
    requires e.Records(camera) && e.handling == Judged(log, e.message)
    requires i < |log| && log[i].Records(camera) && forall j :: i < j < |log| ==> !log[j].Records(camera)
    ensures log[i].message.hash != e.message.hash
  {
    LastRecordedIs(log, camera, i);
  }

  lemma {:induction false} NothingRecorded(log: seq<Entry>, camera: string)
    requires LastRecorded(log, camera).None?
    ensures forall j :: 0 <= j < |log| ==> !log[j].Records(camera)
  {
    if log != [] {
      NothingRecorded(log[..|log| - 1], camera);
    }
  }

  lemma {:induction false} SomethingRecorded(log: seq<Entry>, camera: string) returns (i: nat)
    requires LastRecorded(log, camera).Some?
    ensures i < |log| && log[i].Records(camera) && LastRecorded(log, camera) == Some(log[i].message.hash)
    ensures forall j :: i < j < |log| ==> !log[j].Records(camera)
  {
    if log[|log| - 1].Records(camera) {
      i := |log| - 1;
    } else {
      i := SomethingRecorded(log[..|log| - 1], camera);
    }
  }

  /** The latest entry before k that recorded a hash for the camera recorded this one. */
  ghost predicate RecordedLast(log: seq<Entry>, k: nat, camera: string, hash: Hash)
    requires k <= |log|
  {
    exists i :: 0 <= i < k && log[i].Records(camera) && log[i].message.hash == hash
                && forall j :: i < j < k ==> !log[j].Records(camera)
  }

  lemma {:induction false} RecordedLastIff(log: seq<Entry>, k: nat, camera: string, hash: Hash)
    requires k <= |log|
    ensures RecordedLast(log, k, camera, hash) <==> LastRecorded(log[..k], camera) == Some(hash)
  {
    if LastRecorded(log[..k], camera).Some? {
      var i := SomethingRecorded(log[..k], camera);
      assert forall j :: 0 <= j < k ==> log[..k][j] == log[j];
      if n :| 0 <= n < k && log[n].Records(camera) && log[n].message.hash == hash
              && forall j :: n < j < k ==> !log[j].Records(camera) {
        LastRecordedIs(log[..k], camera, n);
      }
    } else {
      NothingRecorded(log[..k], camera);
      assert forall j :: 0 <= j < k ==> log[..k][j] == log[j];
    }
  }

  /**
   * What a message comes to, told from the deliveries and the picture alone. Past thirty messages of its camera and
   * unless its true hash is the one recorded last, the model sees every picture that can be decoded; an alert is
   * raised exactly when the model then finds somebody and the hash can be cut to eight characters, and the hash is
   * recorded exactly when the model finds somebody and it is true.
   */
  lemma {:induction false} AlertsAreForPeople(ds: seq<Delivery>, k: nat)
    requires k < |ds|
    ensures var m, log, e := ds[k].message, History(ds), History(ds)[k].handling;
            var unseen := && m.Proper? && Messages(ds[..k], m.camera) >= 30
                          && !(m.hash.truthy && RecordedLast(log, k, m.camera, m.hash));
            var somebody := unseen && m.vision.Humans? && m.vision.count >= 1;
            && (e.inferred <==> unseen && (m.vision.Humans? || m.vision.InferenceFails?))
            && (e.end == Alerted <==> somebody && m.hash.sliceable)
            && (e.recorded <==> somebody && m.hash.truthy)
  {
    HistoryAt(ds, k);
    var m := ds[k].message;
    if m.Proper? {
      SeenAreMessages(ds[..k], m.camera);
      RecordedLastIff(History(ds), k, m.camera, m.hash);
    }
  }

  /** An alert for a message with a hash. */
  predicate HashedAlert(e: Entry, camera: string) {
    e.Of(camera) && e.handling.end.Alerted? && e.message.hash.truthy
  }

  /** No two consecutive hashed alerts of a camera carry the same hash. */
  ghost predicate AlertsDiffer(log: seq<Entry>) {
    forall camera, i, k {:trigger HashedAlert(log[i], camera), HashedAlert(log[k], camera)} ::
      && 0 <= i < k < |log| && HashedAlert(log[i], camera) && HashedAlert(log[k], camera)
      && (forall j :: i < j < k ==> !HashedAlert(log[j], camera))
      ==> log[i].message.hash != log[k].message.hash
  }

  ghost predicate HashesFrom(ds: seq<Delivery>, hs: set<Hash>) {
    forall k :: 0 <= k < |ds| && ds[k].message.Proper? ==> ds[k].message.hash in hs
  }

  /** The hashes never mix text with true values that are not text, such as numbers. */
  ghost predicate Unmixed(hs: set<Hash>) {
    forall h, u :: h in hs && u in hs && h.truthy && u.truthy ==> h.sliceable == u.sliceable
  }

  /** Whether consecutive alerts always differ depends on exactly one thing: that the hashes are unmixed. */
  lemma {:induction false} AlertsDifferIffUnmixed(hs: set<Hash>)
    ensures (forall ds :: HashesFrom(ds, hs) ==> AlertsDiffer(History(ds))) <==> Unmixed(hs)
  {
    if Unmixed(hs) {
      forall ds | HashesFrom(ds, hs)
        ensures AlertsDiffer(History(ds))
      {
        UnmixedAlertsDiffer(ds, hs);
      }
    } else {
      var h, u :| h in hs && u in hs && h.truthy && u.truthy && h.sliceable != u.sliceable;
      var ds := MixedRun(if h.sliceable then h else u, if h.sliceable then u else h, hs);
      assert HashesFrom(ds, hs) && !AlertsDiffer(History(ds));
    }
  }

  /** An alert needs a hash that can be sliced and records it if true; recording one that cannot be sliced raises. */
  predicate WellHandled(e: Entry) {
    var h := e.handling;
    && (h.end.Alerted? ==> e.message.Proper? && e.message.hash.sliceable && h.recorded == e.message.hash.truthy)
    && (h.recorded ==> e.message.Proper? && e.message.hash.truthy && (e.message.hash.sliceable ==> h.end.Alerted?))
  }

  lemma JudgedWell(log: seq<Entry>, d: Delivery)
    ensures WellHandled(EntryAfter(log, d))
  {
  }

  lemma {:induction false} HandledWell(ds: seq<Delivery>, k: nat)
    requires k < |ds|
    ensures History(ds)[k].message == ds[k].message && WellHandled(History(ds)[k])
  {
    HistoryAt(ds, k);
    JudgedWell(History(ds[..k]), ds[k]);
  }

  lemma {:induction false} UnmixedAlertsDiffer(ds: seq<Delivery>, hs: set<Hash>)
    requires Unmixed(hs) && HashesFrom(ds, hs)
    ensures AlertsDiffer(History(ds))
  {
    var log := History(ds);
    forall camera, i, k | && 0 <= i < k < |log| && HashedAlert(log[i], camera) && HashedAlert(log[k], camera)
                          && (forall j :: i < j < k ==> !HashedAlert(log[j], camera))
      ensures log[i].message.hash != log[k].message.hash
    {
      HandledWell(ds, i);
      HandledWell(ds, k);
      forall j | i < j < k
        ensures !log[j].Records(camera)
      {
        HandledWell(ds, j);
      }
      RecordedHashesDiffer(ds, camera, i, k);
    }
  }

  function Carrying(hash: Hash, vision: Vision): Delivery {
    Delivery(Proper("cam", hash, vision), true, true)
  }

  function WarmUps(hash: Hash, n: nat): (ds: seq<Delivery>)
    ensures |ds| == n && forall k :: 0 <= k < n ==> ds[k] == Carrying(hash, Undecodable)
  {
    if n == 0 then [] else WarmUps(hash, n - 1) + [Carrying(hash, Undecodable)]
  }

  lemma {:induction false} WarmedUp(hash: Hash, n: nat)
    requires n <= WARMUP_LIMIT
    ensures Seen(History(WarmUps(hash, n)), "cam") == n && LastRecorded(History(WarmUps(hash, n)), "cam") == None
  {
    if n > 0 {
      WarmedUp(hash, n - 1);
      Delivered(WarmUps(hash, n - 1), Carrying(hash, Undecodable));
    }
  }

  lemma Delivered(ds: seq<Delivery>, d: Delivery)
    requires d.message.Proper?
    ensures var e := EntryAfter(History(ds), d);
            && History(ds + [d]) == History(ds) + [e]
            && Seen(History(ds + [d]), d.message.camera) == Seen(History(ds), d.message.camera) + 1
            && LastRecorded(History(ds + [d]), d.message.camera) ==
               if e.handling.recorded then Some(d.message.hash) else LastRecorded(History(ds), d.message.camera)
  {
    assert (ds + [d])[..|ds|] == ds;
    HistoryGrows(History(ds), EntryAfter(History(ds), d));
  }

  /** Text, a number, the same text again: the number is recorded without an alert, so the text alerts twice. */
  lemma {:induction false} MixedRun(h: Hash, u: Hash, hs: set<Hash>) returns (ds: seq<Delivery>)
    requires h in hs && u in hs && h.truthy && u.truthy && h.sliceable && !u.sliceable
    ensures HashesFrom(ds, hs) && !AlertsDiffer(History(ds))
  {
    var d0 := WarmUps(h, WARMUP_LIMIT);
    WarmedUp(h, WARMUP_LIMIT);
    Delivered(d0, Carrying(h, Humans(1)));
    var d1 := d0 + [Carrying(h, Humans(1))];
    Delivered(d1, Carrying(u, Humans(1)));
    var d2 := d1 + [Carrying(u, Humans(1))];
    Delivered(d2, Carrying(h, Humans(1)));
    ds := d2 + [Carrying(h, Humans(1))];
    var log := History(ds);
    assert HashedAlert(log[30], "cam") && !HashedAlert(log[31], "cam") && HashedAlert(log[32], "cam");
  }

  // ------------------------------------------------------------ cameras do not disturb each other

  /** The entries of one camera. */
  function Only(log: seq<Entry>, camera: string): seq<Entry> {
    if log == [] then []
    else Only(log[..|log| - 1], camera) + if log[|log| - 1].Of(camera) then [log[|log| - 1]] else []
  }

  /** The deliveries of one camera. */
  function OnlyDeliveries(ds: seq<Delivery>, camera: string): seq<Delivery> {
    if ds == [] then []
    else
      var m := ds[|ds| - 1].message;
      OnlyDeliveries(ds[..|ds| - 1], camera) + if m.Proper? && m.camera == camera then [ds[|ds| - 1]] else []
  }

  lemma {:induction false} OnlyMatters(log: seq<Entry>, camera: string)
    ensures Seen(log, camera) == Seen(Only(log, camera), camera)
    ensures LastRecorded(log, camera) == LastRecorded(Only(log, camera), camera)
  {
    if log != [] {
      var init, e := log[..|log| - 1], log[|log| - 1];
      OnlyMatters(init, camera);
      HistoryGrows(Only(init, camera), e);
      assert Only(log, camera) == if e.Of(camera) then Only(init, camera) + [e] else Only(init, camera);
    }
  }

  /** The history of one camera's deliveries alone is that camera's part of the whole history. */
  lemma {:induction false} CamerasAreIsolated(ds: seq<Delivery>, camera: string)
    ensures History(OnlyDeliveries(ds, camera)) == Only(History(ds), camera)
  {
    if ds != [] {
      var init, d := ds[..|ds| - 1], ds[|ds| - 1];
      CamerasAreIsolated(init, camera);
      assert History(ds)[..|init|] == History(init);
      OnlyMatters(History(init), camera);
      if d.message.Proper? && d.message.camera == camera {
        Delivered(OnlyDeliveries(init, camera), d);
        assert OnlyDeliveries(ds, camera) == OnlyDeliveries(init, camera) + [d];
      } else {
        assert OnlyDeliveries(ds, camera) == OnlyDeliveries(init, camera);
        assert Only(History(ds), camera) == Only(History(init), camera);
      }
    }
  }

  // ------------------------------------------------------------ redelivery

  lemma {:induction false} SeenNeverFalls(ds: seq<Delivery>, n: nat, camera: string)
    requires n <= |ds|
    ensures Messages(ds[..n], camera) <= Messages(ds, camera)
  {
    if n < |ds| {
      SeenNeverFalls(ds[..|ds| - 1], n, camera);
      assert ds[..|ds| - 1][..n] == ds[..n];
    } else {
      assert ds[..n] == ds;
    }
  }

  /**
   * An alert whose delivery was never acknowledged is not raised again when the broker delivers the message anew,
   * unless its hash counts as false, however many deliveries lie between: of other cameras, or of this one as long
   * as none of them records another hash.
   */
  lemma {:induction false} RedeliveryRaisesNoSecondAlert(ds: seq<Delivery>, i: nat, again: Delivery)
    requires i < |ds| && ds[i].message.Proper? && again.message == ds[i].message
    requires History(ds)[i].handling.end == Alerted
    requires forall j :: i < j < |ds| ==> !History(ds)[j].Records(ds[i].message.camera)
    ensures EntryAfter(History(ds), again).handling.end == Alerted <==> !again.message.hash.truthy
  {
    var m := ds[i].message;
    HistoryAt(ds, i);
    SeenAreMessages(ds[..i], m.camera);
    SeenAreMessages(ds, m.camera);
    SeenNeverFalls(ds, i, m.camera);
    if m.hash.truthy {
      HandledWell(ds, i);
      LastRecordedIs(History(ds), m.camera, i);
    }
    Repeated(History(ds[..i]), History(ds), m);
  }

  lemma {:induction false} Repeated(first: seq<Entry>, later: seq<Entry>, m: Message)
    requires m.Proper? && Judged(first, m).end == Alerted && Seen(first, m.camera) <= Seen(later, m.camera)
    requires m.hash.truthy ==> LastRecorded(later, m.camera) == Some(m.hash)
    ensures Judged(later, m).end == Alerted <==> !m.hash.truthy
  {
  }
}
