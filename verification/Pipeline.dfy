/**
 * The pooled pipeline: frame items borrowed from a recycling pool, a channel of two, one encoding worker.
 * The first half is a machine over item numbers, the second half the same operations on shared objects.
 */
module Pipeline {
  import opened Common

  /** A captured frame: its luminance plane and the capture session it was read from. */
  datatype Frame = Frame(session: nat, y: Plane)

  /** The contents of a frame item; data is None while the buffer holds no complete frame. */
  datatype Item = Item(data: Option<Frame>, timestamp: int, sequence: int, motionBox: Option<Box>, isPostRoll: bool)

  const CHANNEL_CAPACITY := 2

  /** Items are numbered in allocation order. `holding` is the ingestion loop's item, `worker` the worker's. */
  datatype State = State(heap: seq<Item>, pool: seq<nat>, channel: seq<nat>, holding: Option<nat>, worker: Option<nat>,
                         collected: seq<nat>)

  const EMPTY := State([], [], [], None, None, [])

  function Held(o: Option<nat>): multiset<nat> {
    if o.Some? then multiset{o.value} else multiset{}
  }

  /** Everybody who can reach an item, owner by owner. */
  function Owners(s: State): multiset<nat> {
    Held(s.holding) + multiset(s.channel) + Held(s.worker) + multiset(s.pool) + multiset(s.collected)
  }

  /** Each of the first n numbers once. */
  ghost function Ids(n: nat): (m: multiset<nat>)
    ensures |m| == n
    ensures forall i: nat :: m[i] == if i < n then 1 else 0
  {
    if n == 0 then multiset{} else Ids(n - 1) + multiset{n - 1}
  }

  /** Every item ever allocated has exactly one owner, and owners own nothing else. */
  ghost predicate Owned(s: State) {
    Owners(s) == Ids(|s.heap|)
  }

  // ------------------------------------------------------------ the operations

  /** A fresh item, or the k-th pooled one with its box and post-roll mark cleared. */
  function Acquired(s: State, pick: Option<nat>): State
    requires s.holding.None? && (pick.Some? ==> pick.value < |s.pool| && s.pool[pick.value] < |s.heap|)
  {
    match pick
    case None => s.(heap := s.heap + [Item(None, 0, 0, None, false)], holding := Some(|s.heap|))
    case Some(k) =>
      var id := s.pool[k];
      s.(heap := s.heap[id := s.heap[id].(motionBox := None, isPostRoll := false)],
         pool := s.pool[..k] + s.pool[k + 1..],
         holding := Some(id))
  }

  /** The loop's item gets new contents. */
  function Written(s: State, item: Item): State
    requires s.holding.Some? && s.holding.value < |s.heap|
  {
    s.(heap := s.heap[s.holding.value := item])
  }

  function HeldItem(s: State): Item
    requires s.holding.Some? && s.holding.value < |s.heap|
  {
    s.heap[s.holding.value]
  }

  /** The loop gives its item back. */
  function Released(s: State): State
    requires s.holding.Some? && s.holding.value < |s.heap|
  {
    var id := s.holding.value;
    s.(heap := s.heap[id := s.heap[id].(motionBox := None)], pool := s.pool + [id], holding := None)
  }

  predicate HasRoom(s: State) {
    |s.channel| < CHANNEL_CAPACITY
  }

  /** The loop's item enters the channel, or goes back to the pool when the channel is full. */
  function Submitted(s: State): State
    requires s.holding.Some? && s.holding.value < |s.heap|
  {
    if HasRoom(s) then s.(channel := s.channel + [s.holding.value], holding := None) else Released(s)
  }

  /** The worker takes the oldest queued item. */
  function Received(s: State): State
    requires s.worker.None? && s.channel != []
  {
    s.(worker := Some(s.channel[0]), channel := s.channel[1..])
  }

  /** The worker gives its item back. */
  function Finished(s: State): State
    requires s.worker.Some? && s.worker.value < |s.heap|
  {
    var id := s.worker.value;
    s.(heap := s.heap[id := s.heap[id].(motionBox := None)], pool := s.pool + [id], worker := None)
  }

  /** The runtime reclaims a pooled item. */
  function Collected(s: State, k: nat): State
    requires k < |s.pool|
  {
    s.(pool := s.pool[..k] + s.pool[k + 1..], collected := s.collected + [s.pool[k]])
  }

  /** One access of loop, worker or runtime to the shared items; Give and Put write the held item first. */
  datatype Action =
    | Stay
    | Take(pick: Option<nat>)
    | Fill(item: Item)
    | Give(item: Item)
    | Put(item: Item)
    | Dequeue
    | Done
    | Reclaim(k: nat)

  predicate CanAct(s: State, a: Action) {
    match a
    case Stay => true
    case Take(pick) => s.holding.None? && (pick.Some? ==> pick.value < |s.pool| && s.pool[pick.value] < |s.heap|)
    case Fill(_) => Holding(s)
    case Give(_) => Holding(s)
    case Put(_) => Holding(s)
    case Dequeue => s.worker.None? && s.channel != []
    case Done => s.worker.Some? && s.worker.value < |s.heap|
    case Reclaim(k) => k < |s.pool|
  }

  function Act(s: State, a: Action): State
    requires CanAct(s, a)
  {
    match a
    case Stay => s
    case Take(pick) => Acquired(s, pick)
    case Fill(item) => Written(s, item)
    case Give(item) => Released(Written(s, item))
    case Put(item) => Submitted(Written(s, item))
    case Dequeue => Received(s)
    case Done => Finished(s)
    case Reclaim(k) => Collected(s, k)
  }

  predicate Holding(s: State) {
    s.holding.Some? && s.holding.value < |s.heap|
  }

  // ------------------------------------------------------------ what ownership gives

  lemma Multiplicity(p: seq<nat>, j: nat, k: nat)
    requires j < k < |p|
    ensures p[j] == p[k] ==> multiset(p)[p[j]] >= 2
  {
    assert p == p[..j] + [p[j]] + p[j + 1..k] + [p[k]] + p[k + 1..];
  }

  lemma NoDuplicates(p: seq<nat>)
    requires forall i :: multiset(p)[i] <= 1
    ensures forall j, k :: 0 <= j < k < |p| ==> p[j] != p[k]
  {
    forall j, k | 0 <= j < k < |p|
      ensures p[j] != p[k]
    {
      Multiplicity(p, j, k);
    }
  }

  /** How often item x is reachable, place by place: once when allocated, never otherwise. */
  lemma {:induction false} Places(s: State, x: nat)
    requires Owned(s)
    ensures Held(s.holding)[x] + multiset(s.channel)[x] + Held(s.worker)[x]
            + multiset(s.pool)[x] + multiset(s.collected)[x]
            == if x < |s.heap| then 1 else 0
  {
    assert Owners(s)[x] == Ids(|s.heap|)[x];
  }

  lemma LoopApart(s: State)
    requires Owned(s) && s.holding.Some?
    ensures s.holding.value < |s.heap| && s.holding != s.worker
    ensures s.holding.value !in s.channel && s.holding.value !in s.pool
  {
    Places(s, s.holding.value);
  }

  lemma WorkerApart(s: State)
    requires Owned(s) && s.worker.Some?
    ensures s.worker.value < |s.heap| && s.holding != s.worker
    ensures s.worker.value !in s.channel && s.worker.value !in s.pool
  {
    Places(s, s.worker.value);
  }

  lemma QueuesApart(s: State)
    requires Owned(s)
    ensures forall k :: 0 <= k < |s.channel| ==> s.channel[k] < |s.heap| && s.channel[k] !in s.pool
    ensures forall k :: 0 <= k < |s.pool| ==> s.pool[k] < |s.heap|
    ensures forall j, k :: 0 <= j < k < |s.channel| ==> s.channel[j] != s.channel[k]
    ensures forall j, k :: 0 <= j < k < |s.pool| ==> s.pool[j] != s.pool[k]
  {
    forall x: nat
      ensures multiset(s.channel)[x] + multiset(s.pool)[x] <= if x < |s.heap| then 1 else 0
    {
      Places(s, x);
    }
    NoDuplicates(s.channel);
    NoDuplicates(s.pool);
    assert forall k :: 0 <= k < |s.channel| ==> multiset(s.channel)[s.channel[k]] >= 1;
    assert forall k :: 0 <= k < |s.pool| ==> multiset(s.pool)[s.pool[k]] >= 1;
  }

  /** The loop, the channel and the worker never have more than four items out of the pool. */
  lemma {:induction false} AtMostFourOutside(s: State)
    requires Owned(s) && |s.channel| <= CHANNEL_CAPACITY
    ensures |s.heap| - |s.pool| - |s.collected| == |Held(s.holding)| + |s.channel| + |Held(s.worker)| <= 4
  {
    assert |Owners(s)| == |s.heap|;
  }

  // ------------------------------------------------------------ every operation keeps ownership

  lemma TakeAt(p: seq<nat>, k: nat)
    requires k < |p|
    ensures multiset(p) == multiset(p[..k] + p[k + 1..]) + multiset{p[k]}
  {
    assert p == p[..k] + [p[k]] + p[k + 1..];
  }

  lemma FreshKeepsOwned(s: State)
    requires Owned(s) && s.holding.None?
    ensures Owned(Acquired(s, None))
  {
    assert Held(Acquired(s, None).holding) == multiset{|s.heap|} && Held(s.holding) == multiset{};
    assert Owners(Acquired(s, None)) == Owners(s) + multiset{|s.heap|};
  }

  lemma PickKeepsOwned(s: State, k: nat)
    requires Owned(s) && s.holding.None? && k < |s.pool| && s.pool[k] < |s.heap|
    ensures Owned(Acquired(s, Some(k)))
  {
    var t := Acquired(s, Some(k));
    TakeAt(s.pool, k);
    assert multiset(s.pool) == multiset(t.pool) + Held(t.holding);
    assert Owners(t) == Owners(s);
  }

  lemma SubmitKeepsOwned(s: State)
    requires Owned(s) && s.holding.Some? && s.holding.value < |s.heap|
    ensures Owned(Released(s)) && Owned(Submitted(s))
  {
    assert Owners(Released(s)) == Owners(s);
    assert Owners(Submitted(s)) == Owners(s);
  }

  lemma ReceiveKeepsOwned(s: State)
    requires Owned(s) && s.worker.None? && s.channel != []
    ensures Owned(Received(s))
  {
    var t := Received(s);
    assert s.channel == [s.channel[0]] + t.channel;
    assert multiset(s.channel) == multiset(t.channel) + Held(t.worker);
    assert Owners(t) == Owners(s);
  }

  lemma FinishKeepsOwned(s: State)
    requires Owned(s) && s.worker.Some? && s.worker.value < |s.heap|
    ensures Owned(Finished(s))
  {
    assert Owners(Finished(s)) == Owners(s);
  }

  lemma CollectKeepsOwned(s: State, k: nat)
    requires Owned(s) && k < |s.pool|
    ensures Owned(Collected(s, k))
  {
    TakeAt(s.pool, k);
    assert Owners(Collected(s, k)) == Owners(s);
  }

  /** Whatever is done next, every item keeps exactly one owner, and the channel its bound. */
  lemma {:induction false} ActKeepsOwned(s: State, a: Action)
    requires Owned(s) && CanAct(s, a)
    ensures Owned(Act(s, a))
  {
    match a {
      case Take(None) => FreshKeepsOwned(s);
      case Take(Some(k)) => PickKeepsOwned(s, k);
      case Give(item) => WriteKeepsOwned(s, item); SubmitKeepsOwned(Written(s, item));
      case Put(item) => WriteKeepsOwned(s, item); SubmitKeepsOwned(Written(s, item));
      case Dequeue => ReceiveKeepsOwned(s);
      case Done => FinishKeepsOwned(s);
      case Reclaim(k) => CollectKeepsOwned(s, k);
      case _ =>
    }
  }

  /** The channel keeps its bound; only Take gives the loop an item, Give and Put take it away. */
  lemma ActKeepsBounds(s: State, a: Action)
    requires CanAct(s, a) && |s.channel| <= CHANNEL_CAPACITY
    ensures |Act(s, a).channel| <= CHANNEL_CAPACITY
    ensures Act(s, a).holding.Some? <==> a.Take? || (s.holding.Some? && !a.Give? && !a.Put?)
  {
  }

  lemma WriteKeepsOwned(s: State, item: Item)
    requires Owned(s) && Holding(s)
    ensures Owned(Written(s, item))
  {
  }

  // ------------------------------------------------------------ items in flight

  /** Queued items and the worker's are the same and have the same contents. */
  ghost predicate SameFlight(s: State, t: State) {
    && t.channel == s.channel && t.worker == s.worker && |t.heap| >= |s.heap|
    && (s.worker.Some? && s.worker.value < |s.heap| ==> t.heap[s.worker.value] == s.heap[s.worker.value])
    && forall j :: 0 <= j < |s.channel| && s.channel[j] < |s.heap| ==> t.heap[s.channel[j]] == s.heap[s.channel[j]]
  }

  lemma WriteLeavesFlightAlone(s: State, item: Item)
    requires Owned(s) && Holding(s)
    ensures SameFlight(s, Written(s, item))
  {
    LoopApart(s);
  }

  lemma ReleaseLeavesFlightAlone(s: State)
    requires Owned(s) && Holding(s)
    ensures SameFlight(s, Released(s))
  {
    LoopApart(s);
  }

  lemma AcquireLeavesFlightAlone(s: State, pick: Option<nat>)
    requires Owned(s) && CanAct(s, Take(pick))
    ensures SameFlight(s, Acquired(s, pick))
  {
    QueuesApart(s);
    if s.worker.Some? {
      WorkerApart(s);
    }
  }

  /** An item that is queued or being encoded is never overwritten. */
  lemma {:induction false} FlightIsFrozen(s: State, a: Action)
    requires Owned(s) && CanAct(s, a) && !a.Dequeue? && !a.Done? && (a.Put? ==> !HasRoom(s))
    ensures SameFlight(s, Act(s, a))
  {
    match a {
      case Take(pick) => AcquireLeavesFlightAlone(s, pick);
      case Fill(item) => WriteLeavesFlightAlone(s, item);
      case Give(item) => GiveLeavesFlightAlone(s, item);
      case Put(item) => GiveLeavesFlightAlone(s, item);
      case _ =>
    }
  }

  /** What worker and runtime do leaves the loop's item alone. */
  lemma HeldIsFrozen(s: State, a: Action)
    requires Owned(s) && CanAct(s, a) && (a.Stay? || a.Dequeue? || a.Done? || a.Reclaim?)
    ensures Holding(Act(s, a)) <==> Holding(s)
    ensures Holding(s) ==> HeldItem(Act(s, a)) == HeldItem(s)
  {
    if s.worker.Some? {
      WorkerApart(s);
    }
  }

  lemma GiveLeavesFlightAlone(s: State, item: Item)
    requires Owned(s) && Holding(s)
    ensures SameFlight(s, Released(Written(s, item)))
  {
    WriteLeavesFlightAlone(s, item);
    WriteKeepsOwned(s, item);
    ReleaseLeavesFlightAlone(Written(s, item));
  }

  // ------------------------------------------------------------ the objects

  class FrameItem {
    var data: Option<Frame>
    var timestamp: int
    var sequence: int
    var motionBox: Option<Box>
    var isPostRoll: bool

    constructor ()
      ensures View() == Item(None, 0, 0, None, false)
    {
      data, timestamp, sequence, motionBox, isPostRoll := None, 0, 0, None, false;
    }

    function View(): Item
      reads this
    {
      Item(data, timestamp, sequence, motionBox, isPostRoll)
    }
  }

  datatype Outcome = EncodingFailed | MarshalFailed | PublishFailed | Sent

  /** What the worker publishes: the fields of the item at the moment it is encoded. */
  datatype Payload = Payload(image: Option<Frame>, motionBox: Option<Box>, isPostRoll: bool)

  class Pipeline {
    var frameChan: seq<FrameItem>
    var framePool: seq<FrameItem>
    /** Every item ever allocated, and the machine state the objects stand for. */
    ghost var items: seq<FrameItem>
    ghost var state: State

    ghost predicate Valid()
      reads this, items
    {
      && |items| == |state.heap|
      && (forall i, j :: 0 <= i < j < |items| ==> items[i] != items[j])
      && (forall i :: 0 <= i < |items| ==> items[i].View() == state.heap[i])
      && Points(frameChan, state.channel) && Points(framePool, state.pool)
    }

    /** The references are those of the numbered items. */
    ghost predicate Points(refs: seq<FrameItem>, ids: seq<nat>)
      reads this
    {
      |refs| == |ids| && forall k :: 0 <= k < |ids| ==> ids[k] < |items| && refs[k] == items[ids[k]]
    }

    /** item is the one the given owner holds. */
    ghost predicate Holds(owner: Option<nat>, item: FrameItem)
      reads this
    {
      owner.Some? && owner.value < |items| && item == items[owner.value]
    }

    /** No item is in the channel or the pool twice, or in both. */
    ghost predicate QueuesDiffer()
      reads this
    {
      && (forall j, k :: 0 <= j < |frameChan| && 0 <= k < |framePool| ==> frameChan[j] != framePool[k])
      && (forall j, k :: 0 <= j < k < |framePool| ==> framePool[j] != framePool[k])
      && (forall j, k :: 0 <= j < k < |frameChan| ==> frameChan[j] != frameChan[k])
    }

    lemma {:induction false} OwnedQueuesDiffer()
      requires Valid() && Owned(state)
      ensures QueuesDiffer()
    {
      QueuesApart(state);
    }

    constructor ()
      ensures Valid() && state == EMPTY && items == []
    {
      frameChan, framePool, items, state := [], [], [], EMPTY;
    }

    /** Borrows an item; the pool may hand out any of its items or allocate a new one. */
    method AcquireFrame(pick: Option<nat>) returns (item: FrameItem)
      requires Valid() && state.holding.None? && (pick.Some? ==> pick.value < |framePool|)
      modifies this, items
      ensures pick.Some? ==> pick.value < |old(state).pool| && old(state).pool[pick.value] < |old(state).heap|
      ensures Valid() && state == Acquired(old(state), pick) && Holds(state.holding, item)
      ensures items == old(items) || (fresh(item) && items == old(items) + [item])
      ensures pick.Some? ==> item == old(framePool)[pick.value]
      ensures item.motionBox == None && !item.isPostRoll
    {
      match pick {
        case None =>
          item := new FrameItem();
          items := items + [item];
        case Some(k) =>
          item := framePool[k];
          framePool := framePool[..k] + framePool[k + 1..];
      }
      state := Acquired(state, pick);
      item.motionBox := None;
      item.isPostRoll := false;
    }

    /** The capturer reads into the borrowed buffer. */
    method Fill(item: FrameItem, data: Option<Frame>)
      requires Valid() && Holds(state.holding, item)
      modifies this`state, item
      ensures Valid() && state == Written(old(state), HeldItem(old(state)).(data := data))
    {
      item.data := data;
      state := Written(state, HeldItem(state).(data := data));
    }

    /** The loop marks its item before handing it over. */
    method Stamp(item: FrameItem, now: int, sequence: int, isPostRoll: bool, motionBox: Option<Box>)
      requires Valid() && Holds(state.holding, item)
      modifies this`state, item
      ensures Valid()
      ensures state == Written(old(state), Item(HeldItem(old(state)).data, now, sequence, motionBox, isPostRoll))
      ensures item.data == old(item.data) && item.timestamp == now && item.sequence == sequence
      ensures item.isPostRoll == isPostRoll && item.motionBox == motionBox
    {
      item.timestamp := now;
      item.sequence := sequence;
      item.isPostRoll := isPostRoll;
      item.motionBox := motionBox;
      state := Written(state, Item(HeldItem(state).data, now, sequence, motionBox, isPostRoll));
    }

    /** Returns an item to the pool, for whichever of the loop and the worker holds it. */
    method ReleaseFrame(item: FrameItem)
      requires Valid() && (Holds(state.holding, item) || Holds(state.worker, item))
      modifies this`state, this`framePool, item
      ensures Valid()
      ensures state == if old(Holds(state.holding, item)) then Released(old(state)) else Finished(old(state))
      ensures item.motionBox == None && framePool == old(framePool) + [item]
    {
      item.motionBox := None;
      framePool := framePool + [item];
      state := if Holds(state.holding, item) then Released(state) else Finished(state);
    }

    /** Enqueues the loop's item, or drops it when the worker is saturated. */
    method Submit(item: FrameItem) returns (ok: bool)
      requires Valid() && Holds(state.holding, item)
      modifies this`state, this`framePool, this`frameChan, item
      ensures Valid() && state == Submitted(old(state)) && ok == HasRoom(old(state))
      ensures ok <==> |old(frameChan)| < 2
      ensures ok ==> frameChan == old(frameChan) + [item] && framePool == old(framePool)
      ensures !ok ==> frameChan == old(frameChan) && framePool == old(framePool) + [item]
    {
      if |frameChan| < CHANNEL_CAPACITY {
        frameChan := frameChan + [item];
        state := Submitted(state);
        return true;
      }
      ReleaseFrame(item);
      return false;
    }

    /** The worker's receive. */
    method Receive() returns (item: FrameItem)
      requires Valid() && state.worker.None? && frameChan != []
      modifies this`state, this`frameChan
      ensures Valid() && old(state).channel != [] && state == Received(old(state)) && Holds(state.worker, item)
      ensures item == old(frameChan)[0] && frameChan == old(frameChan)[1..]
    {
      item := frameChan[0];
      frameChan := frameChan[1..];
      state := Received(state);
    }

    /**
     * Encodes and publishes one item and gives it back on every path; `outcome` is what the encoder, the
     * marshaller and the broker make of it.
     */
    method ProcessFrame(item: FrameItem, outcome: Outcome) returns (published: Option<Payload>)
      requires Valid() && Holds(state.worker, item) && state.holding != state.worker
      modifies this`state, this`framePool, item
      ensures Valid() && state == Finished(old(state))
      ensures published.Some? <==> outcome == Sent
      ensures published.Some? ==>
                && published.value.image == old(item.data) && published.value.motionBox == old(item.motionBox)
                && published.value.isPostRoll == old(item.isPostRoll)
      ensures item.motionBox == None && framePool == old(framePool) + [item]
    {
      var payload := Payload(item.data, item.motionBox, item.isPostRoll);
      published := if outcome == Sent then Some(payload) else None;
      assert !Holds(state.holding, item);
      ReleaseFrame(item);
    }
  }
}
