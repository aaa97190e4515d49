/**
 * The alert service: one cooldown per camera for ntfy messages, one for all voice calls. Both are greedy selections
 * from the arrival times, shown to be the largest selections a cooldown allows.
 */
module AlertService {
  import opened Common

  // ------------------------------------------------------------ cooldown as greedy selection

  /** The arrival selected last, and 0 before any. */
  function Last(ts: seq<real>, gap: real): real {
    if ts == [] then 0.0
    else
      var last, t := Last(ts[..|ts| - 1], gap), ts[|ts| - 1];
      if t - last > gap then t else last
  }

  /** Arrival k is selected: it comes more than the gap after the one selected before it. */
  predicate Picked(ts: seq<real>, gap: real, k: nat)
    requires k < |ts|
  {
    ts[k] - Last(ts[..k], gap) > gap
  }

  function CountPicked(ts: seq<real>, gap: real): nat {
    if ts == [] then 0
    else CountPicked(ts[..|ts| - 1], gap) + if Picked(ts, gap, |ts| - 1) then 1 else 0
  }

  ghost predicate NonDecreasing(ts: seq<real>) {
    forall i, j :: 0 <= i <= j < |ts| ==> ts[i] <= ts[j]
  }

  /** No reading lies below the dispatch before it. */
  ghost predicate NeverBelowLast(ts: seq<real>, gap: real) {
    forall k :: 0 <= k < |ts| ==> CountPicked(ts[..k], gap) == 0 || ts[k] >= Last(ts[..k], gap)
  }

  lemma {:induction false} NeverBelowLastPrefix(ts: seq<real>, gap: real, n: nat)
    requires NeverBelowLast(ts, gap) && n <= |ts|
    ensures NeverBelowLast(ts[..n], gap)
  {
    forall k | 0 <= k < n
      ensures CountPicked(ts[..n][..k], gap) == 0 || ts[..n][k] >= Last(ts[..n][..k], gap)
    {
      assert ts[..n][..k] == ts[..k];
    }
  }

  lemma {:induction false} OrderedNeverBelowLast(ts: seq<real>, gap: real)
    requires NonDecreasing(ts)
    ensures NeverBelowLast(ts, gap)
  {
    forall k | 0 <= k < |ts|
      ensures CountPicked(ts[..k], gap) == 0 || ts[k] >= Last(ts[..k], gap)
    {
      LastPickedNotLater(ts[..k], gap, ts[k]);
    }
  }

  /** Any selection from the arrivals. */
  function CountChosen(chosen: seq<bool>): nat {
    if chosen == [] then 0 else CountChosen(chosen[..|chosen| - 1]) + if chosen[|chosen| - 1] then 1 else 0
  }

  /** The chosen arrivals are pairwise more than the gap apart. */
  ghost predicate Spaced(ts: seq<real>, gap: real, chosen: seq<bool>)
    requires |chosen| == |ts|
  {
    forall i, j :: 0 <= i < j < |ts| && chosen[i] && chosen[j] ==> ts[j] - ts[i] > gap
  }

  /** None of them lies within the gap after time 0, where the cooldown starts. */
  ghost predicate AfterStart(ts: seq<real>, gap: real, chosen: seq<bool>)
    requires |chosen| == |ts|
  {
    forall i :: 0 <= i < |ts| && chosen[i] ==> ts[i] > gap
  }

  /** The chosen arrival that comes last, and 0 if none is chosen. */
  function LastChosen(ts: seq<real>, chosen: seq<bool>): real
    requires |chosen| == |ts|
  {
    if ts == [] then 0.0
    else if chosen[|ts| - 1] then ts[|ts| - 1]
    else LastChosen(ts[..|ts| - 1], chosen[..|ts| - 1])
  }

  lemma {:induction false} LastChosenIsChosen(ts: seq<real>, chosen: seq<bool>, gap: real, t: real)
    requires |chosen| == |ts| && t > gap
    requires forall i :: 0 <= i < |ts| && chosen[i] ==> t - ts[i] > gap
    ensures t - LastChosen(ts, chosen) > gap
  {
    if ts != [] && !chosen[|ts| - 1] {
      LastChosenIsChosen(ts[..|ts| - 1], chosen[..|ts| - 1], gap, t);
    }
  }

  lemma {:induction false} LastPickedNotLater(ts: seq<real>, gap: real, t: real)
    requires forall i :: 0 <= i < |ts| ==> ts[i] <= t
    ensures CountPicked(ts, gap) > 0 ==> Last(ts, gap) <= t
  {
    if ts != [] {
      LastPickedNotLater(ts[..|ts| - 1], gap, t);
    }
  }

  /** Greedy stays ahead: it has selected more, or as many and the last one no later. */
  lemma {:induction false} StaysAhead(ts: seq<real>, gap: real, chosen: seq<bool>)
    requires |chosen| == |ts| && NeverBelowLast(ts, gap) && Spaced(ts, gap, chosen) && AfterStart(ts, gap, chosen)
    ensures CountChosen(chosen) <= CountPicked(ts, gap)
    ensures CountChosen(chosen) == CountPicked(ts, gap) ==> Last(ts, gap) <= LastChosen(ts, chosen)
  {
    if ts != [] {
      var n := |ts| - 1;
      NeverBelowLastPrefix(ts, gap, n);
      StaysAhead(ts[..n], gap, chosen[..n]);
      if chosen[n] {
        LastChosenIsChosen(ts[..n], chosen[..n], gap, ts[n]);
      }
    }
  }

  /** The selected arrivals as a selection. */
  function PickedFlags(ts: seq<real>, gap: real): (chosen: seq<bool>)
    ensures |chosen| == |ts|
  {
    if ts == [] then [] else PickedFlags(ts[..|ts| - 1], gap) + [Picked(ts, gap, |ts| - 1)]
  }

  lemma {:induction false} PickedFlagsCount(ts: seq<real>, gap: real)
    ensures CountChosen(PickedFlags(ts, gap)) == CountPicked(ts, gap)
  {
    if ts != [] {
      PickedFlagsCount(ts[..|ts| - 1], gap);
    }
  }

  lemma {:induction false} PickedFlagsAt(ts: seq<real>, gap: real, k: nat)
    requires k < |ts|
    ensures PickedFlags(ts, gap)[k] <==> Picked(ts, gap, k)
  {
    if k < |ts| - 1 {
      PickedFlagsAt(ts[..|ts| - 1], gap, k);
      assert ts[..|ts| - 1][..k] == ts[..k];
    }
  }

  lemma {:induction false} LastCoversPicked(ts: seq<real>, gap: real, k: nat)
    requires gap >= 0.0 && k < |ts| && Picked(ts, gap, k)
    ensures ts[k] <= Last(ts, gap)
  {
    var n := |ts| - 1;
    if k == n {
      assert ts[..k] == ts[..n];
    } else {
      assert ts[..n][..k] == ts[..k];
      LastCoversPicked(ts[..n], gap, k);
    }
  }

  /** Selected arrivals are more than the gap apart, even when the clock jumps. */
  lemma {:induction false} PickedApart(ts: seq<real>, gap: real, i: nat, k: nat)
    requires gap >= 0.0 && i < k < |ts| && Picked(ts, gap, i) && Picked(ts, gap, k)
    ensures ts[k] - ts[i] > gap
  {
    assert ts[..k][..i] == ts[..i];
    LastCoversPicked(ts[..k], gap, i);
  }

  lemma {:induction false} PickedAfterStart(ts: seq<real>, gap: real, k: nat)
    requires gap >= 0.0 && k < |ts| && Picked(ts, gap, k)
    ensures ts[k] > gap
  {
    LastNotNegative(ts[..k], gap);
  }

  lemma {:induction false} LastNotNegative(ts: seq<real>, gap: real)
    requires gap >= 0.0
    ensures Last(ts, gap) >= 0.0
  {
    if ts != [] {
      LastNotNegative(ts[..|ts| - 1], gap);
    }
  }

  /** chosen is a legal selection, and none is larger. */
  ghost predicate Optimal(ts: seq<real>, gap: real, chosen: seq<bool>) {
    && |chosen| == |ts| && Spaced(ts, gap, chosen) && AfterStart(ts, gap, chosen)
    && forall other: seq<bool> :: |other| == |ts| && Spaced(ts, gap, other) && AfterStart(ts, gap, other) ==>
         CountChosen(other) <= CountChosen(chosen)
  }

  lemma {:induction false} GreedyIsOptimal(ts: seq<real>, gap: real)
    requires NeverBelowLast(ts, gap) && gap >= 0.0
    ensures Optimal(ts, gap, PickedFlags(ts, gap))
  {
    var flags := PickedFlags(ts, gap);
    PickedFlagsCount(ts, gap);
    forall i, j | 0 <= i < j < |ts| && flags[i] && flags[j]
      ensures ts[j] - ts[i] > gap
    {
      PickedFlagsAt(ts, gap, i);
      PickedFlagsAt(ts, gap, j);
      PickedApart(ts, gap, i, j);
    }
    forall i | 0 <= i < |ts| && flags[i]
      ensures ts[i] > gap
    {
      PickedFlagsAt(ts, gap, i);
      PickedAfterStart(ts, gap, i);
    }
    forall other: seq<bool> | |other| == |ts| && Spaced(ts, gap, other) && AfterStart(ts, gap, other)
      ensures CountChosen(other) <= CountChosen(flags)
    {
      StaysAhead(ts, gap, other);
    }
  }

  /** No reading lies more than d below an earlier one. */
  ghost predicate SetBackAtMost(ts: seq<real>, d: real) {
    forall i, j :: 0 <= i < j < |ts| ==> ts[i] - ts[j] <= d
  }

  /** How far the clock may be set back for every sequence of readings to give a largest selection: not at all. */
  lemma {:induction false} OptimalIffNeverSetBack(gap: real, d: real)
    requires gap >= 0.0 && d >= 0.0
    ensures (forall ts :: SetBackAtMost(ts, d) ==> Optimal(ts, gap, PickedFlags(ts, gap))) <==> d == 0.0
  {
    if d == 0.0 {
      forall ts | SetBackAtMost(ts, d)
        ensures Optimal(ts, gap, PickedFlags(ts, gap))
      {
        assert NonDecreasing(ts) by {
          forall i, j | 0 <= i <= j < |ts|
            ensures ts[i] <= ts[j]
          {
            assert i == j || ts[i] - ts[j] <= d;
          }
        }
        OrderedNeverBelowLast(ts, gap);
        GreedyIsOptimal(ts, gap);
      }
    } else {
      var ts := SetBackLosesOne(gap, d);
      assert SetBackAtMost(ts, d) && !Optimal(ts, gap, PickedFlags(ts, gap));
    }
  }

  /** One dispatch, then the clock falls by d: the two readings that follow could both be served, and neither is. */
  lemma {:induction false} SetBackLosesOne(gap: real, d: real) returns (ts: seq<real>)
    requires gap >= 0.0 && d > 0.0
    ensures SetBackAtMost(ts, d) && !Optimal(ts, gap, PickedFlags(ts, gap))
  {
    var a := gap + 1.0 + d;
    var one, two := [a], [a, a - d];
    ts := [a, a - d, a - d / 2.0 + gap];
    var other := [false, true, true];
    assert ts[..2] == two && two[..1] == one && one[..0] == [];
    assert Last(one, gap) == a && Last(two, gap) == a;
    assert CountPicked(one, gap) == 1 && CountPicked(two, gap) == 1 && CountPicked(ts, gap) == 1;
    assert other[..2] == [false, true] && [false, true][..1] == [false];
    assert CountChosen([false]) == 0 && CountChosen([false, true]) == 1 && CountChosen(other) == 2;
    PickedFlagsCount(ts, gap);
    assert Spaced(ts, gap, other) && AfterStart(ts, gap, other);
  }

  /** With clock readings beyond the first gap, the selection is as large as any pairwise spaced one. */
  lemma {:induction false} NoSpacedSelectionIsLarger(ts: seq<real>, gap: real, other: seq<bool>)
    requires NeverBelowLast(ts, gap) && |other| == |ts| && Spaced(ts, gap, other)
    requires forall i :: 0 <= i < |ts| ==> ts[i] > gap
    ensures CountChosen(other) <= CountPicked(ts, gap)
  {
    StaysAhead(ts, gap, other);
  }

  /** The order of arrival times matters: a clock set back after one dispatch silences three legal ones. */
  lemma {:induction false} ClockSetBackExample()
    ensures var ts, other := [1000.0, 100.0, 200.0, 300.0], [false, true, true, true];
            && Spaced(ts, 60.0, other) && AfterStart(ts, 60.0, other)
            && CountChosen(other) == 3 && CountPicked(ts, 60.0) == 1
  {
    var ts, other := [1000.0, 100.0, 200.0, 300.0], [false, true, true, true];
    assert ts[..3] == [1000.0, 100.0, 200.0] && ts[..3][..2] == [1000.0, 100.0] && ts[..3][..2][..1] == [1000.0];
    assert other[..3] == [false, true, true] && other[..3][..2] == [false, true] && other[..3][..2][..1] == [false];
    assert Last([1000.0], 60.0) == Last([1000.0, 100.0], 60.0) == Last([1000.0, 100.0, 200.0], 60.0) == 1000.0;
    assert CountPicked([1000.0], 60.0) == CountPicked([1000.0, 100.0], 60.0) == CountPicked(ts[..3], 60.0) == 1;
    assert CountChosen([false]) == 0 && CountChosen([false, true]) == 1 && CountChosen(other[..3]) == 2;
  }

  // ------------------------------------------------------------ decisions, told from the history

  datatype Config = Config(ntfyCooldown: int, alertCooldown: int, callsEnabled: bool)

  /** A parsed body: no JSON object, fields that cannot be read, a camera no dictionary takes, or a proper alert. */
  datatype Payload = NotAnObject | Malformed | Unkeyable(camera: string) | Proper(camera: string)

  const UNKNOWN := "unknown"

  /** One handled alert. */
  datatype Entry = Entry(camera: string, now: real, ntfy: bool, call: bool)

  function Times(log: seq<Entry>): (ts: seq<real>)
    ensures |ts| == |log|
  {
    if log == [] then [] else Times(log[..|log| - 1]) + [log[|log| - 1].now]
  }

  /** The alerts of one camera. */
  function Only(log: seq<Entry>, camera: string): seq<Entry> {
    if log == [] then []
    else Only(log[..|log| - 1], camera) + if log[|log| - 1].camera == camera then [log[|log| - 1]] else []
  }

  function LastNtfy(cfg: Config, log: seq<Entry>, camera: string): real {
    Last(Times(Only(log, camera)), cfg.ntfyCooldown as real)
  }

  function LastCall(cfg: Config, log: seq<Entry>): real {
    if cfg.callsEnabled then Last(Times(log), cfg.alertCooldown as real) else 0.0
  }

  /** What must become of an alert after this history. */
  function EntryAfter(cfg: Config, log: seq<Entry>, camera: string, now: real): Entry {
    Entry(camera, now, now - LastNtfy(cfg, log, camera) > cfg.ntfyCooldown as real,
          cfg.callsEnabled && now - LastCall(cfg, log) > cfg.alertCooldown as real)
  }

  datatype Arrival = Arrival(camera: string, now: real)

  /** The history of a sequence of arrivals. */
  function Handled(cfg: Config, arrivals: seq<Arrival>): (log: seq<Entry>)
    ensures |log| == |arrivals|
  {
    if arrivals == [] then []
    else
      var before, a := Handled(cfg, arrivals[..|arrivals| - 1]), arrivals[|arrivals| - 1];
      before + [EntryAfter(cfg, before, a.camera, a.now)]
  }

  function NtfySent(log: seq<Entry>, camera: string): nat {
    if log == [] then 0
    else
      var e := log[|log| - 1];
      NtfySent(log[..|log| - 1], camera) + if e.camera == camera && e.ntfy then 1 else 0
  }

  /** Voice calls triggered by this camera's alerts. */
  function CallsMade(log: seq<Entry>, camera: string): nat {
    if log == [] then 0
    else
      var e := log[|log| - 1];
      CallsMade(log[..|log| - 1], camera) + if e.camera == camera && e.call then 1 else 0
  }

  function SuppressionsOf(cfg: Config, e: Entry): nat {
    (if e.ntfy then 0 else 1) + (if cfg.callsEnabled && !e.call then 1 else 0)
  }

  function Suppressed(cfg: Config, log: seq<Entry>, camera: string): nat {
    if log == [] then 0
    else
      var e := log[|log| - 1];
      Suppressed(cfg, log[..|log| - 1], camera) + if e.camera == camera then SuppressionsOf(cfg, e) else 0
  }

  // ------------------------------------------------------------ laws of the history

  lemma OnlyGrows(log: seq<Entry>, e: Entry, camera: string)
    ensures Only(log + [e], camera) == if e.camera == camera then Only(log, camera) + [e] else Only(log, camera)
    ensures Times(log + [e]) == Times(log) + [e.now]
  {
    assert (log + [e])[..|log|] == log;
  }

  function NtfyFlags(log: seq<Entry>): (flags: seq<bool>)
    ensures |flags| == |log|
  {
    if log == [] then [] else NtfyFlags(log[..|log| - 1]) + [log[|log| - 1].ntfy]
  }

  function CallFlags(log: seq<Entry>): (flags: seq<bool>)
    ensures |flags| == |log|
  {
    if log == [] then [] else CallFlags(log[..|log| - 1]) + [log[|log| - 1].call]
  }

  lemma FlagsGrow(log: seq<Entry>, e: Entry)
    ensures NtfyFlags(log + [e]) == NtfyFlags(log) + [e.ntfy] && CallFlags(log + [e]) == CallFlags(log) + [e.call]
  {
    assert (log + [e])[..|log|] == log;
  }

  lemma PickedFlagsGrow(ts: seq<real>, gap: real, t: real)
    ensures PickedFlags(ts + [t], gap) == PickedFlags(ts, gap) + [t - Last(ts, gap) > gap]
  {
    assert (ts + [t])[..|ts|] == ts;
  }

  /** The ntfy decisions on one camera are the greedy selection from that camera's arrival times. */
  lemma {:induction false} NtfyIsGreedy(cfg: Config, arrivals: seq<Arrival>, camera: string)
    ensures var own := Only(Handled(cfg, arrivals), camera);
            NtfyFlags(own) == PickedFlags(Times(own), cfg.ntfyCooldown as real)
  {
    if arrivals != [] {
      var init, a := arrivals[..|arrivals| - 1], arrivals[|arrivals| - 1];
      NtfyIsGreedy(cfg, init, camera);
      var before := Handled(cfg, init);
      var e := EntryAfter(cfg, before, a.camera, a.now);
      OnlyGrows(before, e, camera);
      if a.camera == camera {
        var own := Only(before, camera);
        FlagsGrow(own, e);
        OnlyGrows(own, e, camera);
        PickedFlagsGrow(Times(own), cfg.ntfyCooldown as real, a.now);
      }
    }
  }

  /** The call decisions are the greedy selection from all arrival times. */
  lemma {:induction false} CallsAreGreedy(cfg: Config, arrivals: seq<Arrival>)
    requires cfg.callsEnabled
    ensures var log := Handled(cfg, arrivals);
            CallFlags(log) == PickedFlags(Times(log), cfg.alertCooldown as real)
  {
    if arrivals != [] {
      var init, a := arrivals[..|arrivals| - 1], arrivals[|arrivals| - 1];
      CallsAreGreedy(cfg, init);
      var before := Handled(cfg, init);
      var e := EntryAfter(cfg, before, a.camera, a.now);
      FlagsGrow(before, e);
      OnlyGrows(before, e, a.camera);
      PickedFlagsGrow(Times(before), cfg.alertCooldown as real, a.now);
    }
  }

  /** No camera could have been notified more often without breaking its cooldown. */
  lemma {:induction false} NtfyIsOptimal(cfg: Config, arrivals: seq<Arrival>, camera: string)
    requires cfg.ntfyCooldown >= 0
    requires NeverBelowLast(Times(Only(Handled(cfg, arrivals), camera)), cfg.ntfyCooldown as real)
    ensures var own := Only(Handled(cfg, arrivals), camera);
            Optimal(Times(own), cfg.ntfyCooldown as real, NtfyFlags(own))
  {
    NtfyIsGreedy(cfg, arrivals, camera);
    GreedyIsOptimal(Times(Only(Handled(cfg, arrivals), camera)), cfg.ntfyCooldown as real);
  }

  /** Nor could more calls have been made, over all cameras together. */
  lemma {:induction false} CallsAreOptimal(cfg: Config, arrivals: seq<Arrival>)
    requires cfg.callsEnabled && cfg.alertCooldown >= 0
    requires NeverBelowLast(Times(Handled(cfg, arrivals)), cfg.alertCooldown as real)
    ensures var log := Handled(cfg, arrivals);
            Optimal(Times(log), cfg.alertCooldown as real, CallFlags(log))
  {
    CallsAreGreedy(cfg, arrivals);
    GreedyIsOptimal(Times(Handled(cfg, arrivals)), cfg.alertCooldown as real);
  }

  lemma {:induction false} HandledAt(cfg: Config, arrivals: seq<Arrival>, k: nat)
    requires k < |arrivals|
    ensures Handled(cfg, arrivals)[..k] == Handled(cfg, arrivals[..k])
    ensures Handled(cfg, arrivals)[k] ==
            EntryAfter(cfg, Handled(cfg, arrivals[..k]), arrivals[k].camera, arrivals[k].now)
  {
    var n := |arrivals| - 1;
    if k < n {
      HandledAt(cfg, arrivals[..n], k);
      assert arrivals[..n][..k] == arrivals[..k];
    }
    assert Handled(cfg, arrivals)[..n] == Handled(cfg, arrivals[..n]);
  }

  /** An ntfy message was sent for entry i of the log, for this camera. */
  predicate Notified(log: seq<Entry>, i: nat, camera: string)
    requires i < |log|
  {
    log[i].camera == camera && log[i].ntfy
  }

  /** The cooldown of a camera runs from its latest ntfy message: every message lies at or before it. */
  lemma {:induction false} LastNtfyIsLatest(cfg: Config, arrivals: seq<Arrival>, camera: string)
    requires cfg.ntfyCooldown >= 0
    ensures var log, last := Handled(cfg, arrivals), LastNtfy(cfg, Handled(cfg, arrivals), camera);
            && last >= 0.0
            && (forall i :: 0 <= i < |log| && Notified(log, i, camera) ==> log[i].now <= last)
            && (last == 0.0 || exists i :: 0 <= i < |log| && Notified(log, i, camera) && log[i].now == last)
  {
    if arrivals != [] {
      var n := |arrivals| - 1;
      LastNtfyIsLatest(cfg, arrivals[..n], camera);
      HandledAt(cfg, arrivals, n);
      var before, e := Handled(cfg, arrivals[..n]), Handled(cfg, arrivals)[n];
      HistoryGrows(cfg, before, e);
      LatestGrows(before, e, camera, LastNtfy(cfg, before, camera), LastNtfy(cfg, before + [e], camera));
    }
  }

  lemma {:induction false} LatestGrows(log: seq<Entry>, e: Entry, camera: string, last: real, next: real)
    requires last >= 0.0 && next == if e.camera == camera && e.ntfy then e.now else last
    requires e.camera == camera && e.ntfy ==> e.now >= last
    requires forall i :: 0 <= i < |log| && Notified(log, i, camera) ==> log[i].now <= last
    requires last == 0.0 || exists i :: 0 <= i < |log| && Notified(log, i, camera) && log[i].now == last
    ensures next >= 0.0
    ensures forall i :: 0 <= i < |log| + 1 && Notified(log + [e], i, camera) ==> (log + [e])[i].now <= next
    ensures next == 0.0 ||
            exists i :: 0 <= i < |log| + 1 && Notified(log + [e], i, camera) && (log + [e])[i].now == next
  {
    var longer := log + [e];
    assert forall i :: 0 <= i < |log| ==> (Notified(longer, i, camera) <==> Notified(log, i, camera));
    if e.camera == camera && e.ntfy {
      assert Notified(longer, |log|, camera);
    } else if last != 0.0 {
      var i :| 0 <= i < |log| && Notified(log, i, camera) && log[i].now == last;
      assert Notified(longer, i, camera);
    }
  }

  /**
   * Whatever the clock does: an alert is sent to ntfy exactly when it comes more than the ntfy cooldown after time 0
   * and after every message sent for its camera before.
   */
  lemma {:induction false} NtfyIff(cfg: Config, arrivals: seq<Arrival>, k: nat)
    requires cfg.ntfyCooldown >= 0 && k < |arrivals|
    ensures var log := Handled(cfg, arrivals);
            && log[k].camera == arrivals[k].camera && log[k].now == arrivals[k].now
            && (log[k].ntfy <==>
                  && log[k].now > cfg.ntfyCooldown as real
                  && forall i :: 0 <= i < k && log[i].camera == log[k].camera && log[i].ntfy ==>
                       log[k].now - log[i].now > cfg.ntfyCooldown as real)
  {
    HandledAt(cfg, arrivals, k);
    LastNtfyIsLatest(cfg, arrivals[..k], arrivals[k].camera);
    var log := Handled(cfg, arrivals);
    assert forall i :: 0 <= i < k ==> log[..k][i] == log[i];
    assert forall i :: 0 <= i < k ==>
             (Notified(log[..k], i, log[k].camera) <==> log[i].camera == log[k].camera && log[i].ntfy);
  }

  lemma {:induction false} LastCallIsLatest(cfg: Config, arrivals: seq<Arrival>)
    requires cfg.alertCooldown >= 0
    ensures var log, last := Handled(cfg, arrivals), LastCall(cfg, Handled(cfg, arrivals));
            && last >= 0.0
            && (forall i :: 0 <= i < |log| && log[i].call ==> log[i].now <= last)
            && (last == 0.0 || exists i :: 0 <= i < |log| && log[i].call && log[i].now == last)
  {
    if arrivals != [] {
      var n := |arrivals| - 1;
      LastCallIsLatest(cfg, arrivals[..n]);
      HandledAt(cfg, arrivals, n);
      var before, e := Handled(cfg, arrivals[..n]), Handled(cfg, arrivals)[n];
      HistoryGrows(cfg, before, e);
      LatestCallGrows(before, e, LastCall(cfg, before), LastCall(cfg, before + [e]));
    }
  }

  lemma {:induction false} LatestCallGrows(log: seq<Entry>, e: Entry, last: real, next: real)
    requires last >= 0.0 && next == (if e.call then e.now else last) && (e.call ==> e.now >= last)
    requires forall i :: 0 <= i < |log| && log[i].call ==> log[i].now <= last
    requires last == 0.0 || exists i :: 0 <= i < |log| && log[i].call && log[i].now == last
    ensures next >= 0.0
    ensures forall i :: 0 <= i < |log| + 1 && (log + [e])[i].call ==> (log + [e])[i].now <= next
    ensures next == 0.0 || exists i :: 0 <= i < |log| + 1 && (log + [e])[i].call && (log + [e])[i].now == next
  {
    var longer := log + [e];
    if e.call {
      assert longer[|log|].call;
    } else if last != 0.0 {
      var i :| 0 <= i < |log| && log[i].call && log[i].now == last;
      assert longer[i].call;
    }
  }

  /** The same for the calls, over all cameras, when they are enabled; otherwise there is none. */
  lemma {:induction false} CallIff(cfg: Config, arrivals: seq<Arrival>, k: nat)
    requires cfg.alertCooldown >= 0 && k < |arrivals|
    ensures var log := Handled(cfg, arrivals);
            log[k].call <==>
              && cfg.callsEnabled && log[k].now > cfg.alertCooldown as real
              && forall i :: 0 <= i < k && log[i].call ==> log[k].now - log[i].now > cfg.alertCooldown as real
  {
    HandledAt(cfg, arrivals, k);
    LastCallIsLatest(cfg, arrivals[..k]);
    var log := Handled(cfg, arrivals);
    assert forall i :: 0 <= i < k ==> log[..k][i] == log[i];
  }

  function OnlyArrivals(arrivals: seq<Arrival>, camera: string): seq<Arrival> {
    if arrivals == [] then []
    else
      var a := arrivals[|arrivals| - 1];
      OnlyArrivals(arrivals[..|arrivals| - 1], camera) + if a.camera == camera then [a] else []
  }

  /** Without the other cameras' alerts, a camera's ntfy decisions are the same. */
  lemma {:induction false} CamerasAreIsolated(cfg: Config, arrivals: seq<Arrival>, camera: string)
    ensures var own, alone := Only(Handled(cfg, arrivals), camera), Handled(cfg, OnlyArrivals(arrivals, camera));
            Times(own) == Times(alone) && NtfyFlags(own) == NtfyFlags(alone) && Only(alone, camera) == alone
  {
    if arrivals != [] {
      var init, a := arrivals[..|arrivals| - 1], arrivals[|arrivals| - 1];
      CamerasAreIsolated(cfg, init, camera);
      var before, rest := Handled(cfg, init), OnlyArrivals(init, camera);
      var e := EntryAfter(cfg, before, a.camera, a.now);
      OnlyGrows(before, e, camera);
      if a.camera == camera {
        var alone := Handled(cfg, rest);
        var f := EntryAfter(cfg, alone, a.camera, a.now);
        assert OnlyArrivals(arrivals, camera) == rest + [a];
        assert (rest + [a])[..|rest|] == rest;
        assert Handled(cfg, rest + [a]) == alone + [f];
        OnlyGrows(alone, f, camera);
        OnlyGrows(Only(before, camera), e, camera);
        FlagsGrow(Only(before, camera), e);
        FlagsGrow(alone, f);
      } else {
        assert OnlyArrivals(arrivals, camera) == rest;
      }
    }
  }

  /** Every alert is dispatched or suppressed, once for ntfy and, when calls are enabled, once more for the call. */
  lemma {:induction false} EveryAlertIsAccounted(cfg: Config, arrivals: seq<Arrival>, camera: string)
    ensures var log := Handled(cfg, arrivals);
            NtfySent(log, camera) + CallsMade(log, camera) + Suppressed(cfg, log, camera)
            == |Only(log, camera)| * (if cfg.callsEnabled then 2 else 1)
  {
    if arrivals != [] {
      EveryAlertIsAccounted(cfg, arrivals[..|arrivals| - 1], camera);
    }
  }

  lemma HistoryGrows(cfg: Config, log: seq<Entry>, e: Entry)
    requires e == EntryAfter(cfg, log, e.camera, e.now)
    ensures LastCall(cfg, log + [e]) == if e.call then e.now else LastCall(cfg, log)
    ensures forall c :: LastNtfy(cfg, log + [e], c) == if c == e.camera && e.ntfy then e.now else LastNtfy(cfg, log, c)
    ensures forall c :: Suppressed(cfg, log + [e], c) ==
              Suppressed(cfg, log, c) + if c == e.camera then SuppressionsOf(cfg, e) else 0
    ensures forall c :: |Only(log + [e], c)| == |Only(log, c)| + if c == e.camera then 1 else 0
  {
    LastGrows(Times(log), cfg.alertCooldown as real, e.now);
    OnlyGrows(log, e, e.camera);
    forall c
      ensures LastNtfy(cfg, log + [e], c) == if c == e.camera && e.ntfy then e.now else LastNtfy(cfg, log, c)
      ensures |Only(log + [e], c)| == |Only(log, c)| + if c == e.camera then 1 else 0
    {
      OnlyGrows(log, e, c);
      OnlyGrows(Only(log, c), e, c);
      LastGrows(Times(Only(log, c)), cfg.ntfyCooldown as real, e.now);
    }
    assert (log + [e])[..|log|] == log;
  }

  function NtfyTime(times: map<string, real>, camera: string): real {
    if camera in times then times[camera] else 0.0
  }

  /** The service's variables say about the history what the next decision needs. */
  ghost predicate Remembers(cfg: Config, log: seq<Entry>, lastCall: real, lastNtfy: map<string, real>,
                            suppressed: map<string, nat>)
  {
    && lastCall == LastCall(cfg, log)
    && (forall c :: NtfyTime(lastNtfy, c) == LastNtfy(cfg, log, c))
    && (forall c :: CountOf(suppressed, c) == Suppressed(cfg, log, c))
  }

  lemma StillRemembers(cfg: Config, log: seq<Entry>, lastCall: real, lastNtfy: map<string, real>,
                       suppressed: map<string, nat>, lastCall': real, lastNtfy': map<string, real>,
                       suppressed': map<string, nat>, e: Entry)
    requires Remembers(cfg, log, lastCall, lastNtfy, suppressed) && e == EntryAfter(cfg, log, e.camera, e.now)
    requires lastCall' == if e.call then e.now else lastCall
    requires forall c :: NtfyTime(lastNtfy', c) == if c == e.camera && e.ntfy then e.now else NtfyTime(lastNtfy, c)
    requires forall c :: CountOf(suppressed', c) ==
               CountOf(suppressed, c) + if c == e.camera then SuppressionsOf(cfg, e) else 0
    ensures Remembers(cfg, log + [e], lastCall', lastNtfy', suppressed')
    ensures forall c :: |Only(log + [e], c)| == |Only(log, c)| + if c == e.camera then 1 else 0
  {
    HistoryGrows(cfg, log, e);
  }

  lemma LastGrows(ts: seq<real>, gap: real, t: real)
    ensures Last(ts + [t], gap) == if t - Last(ts, gap) > gap then t else Last(ts, gap)
  {
    assert (ts + [t])[..|ts|] == ts;
  }

  // ------------------------------------------------------------ the service

  function CountOf(m: map<string, nat>, camera: string): nat {
    if camera in m then m[camera] else 0
  }

  function Incremented(m: map<string, nat>, camera: string): (r: map<string, nat>)
    ensures forall c :: CountOf(r, c) == CountOf(m, c) + if c == camera then 1 else 0
  {
    m[camera := CountOf(m, camera) + 1]
  }

  class AlertService {
    const cfg: Config
    var lastCallTime: real
    var lastNtfyTimes: map<string, real>
    var alertsTotal: map<string, nat>
    var alertsSuppressed: map<string, nat>
    /** False once an exception has left the callback and ended the consumer. */
    var consuming: bool
    ghost var arrivals: seq<Arrival>
    ghost var log: seq<Entry>
    /** The label under which the alert that ended the consumer was counted. */
    ghost var stoppedOn: Option<string>

    /** One time per camera, one for the calls and two counters stand for the whole history. */
    ghost predicate Valid()
      reads this
    {
      && log == Handled(cfg, arrivals) && (consuming ==> stoppedOn == None)
      && Remembers(cfg, log, lastCallTime, lastNtfyTimes, alertsSuppressed)
      && forall c :: CountOf(alertsTotal, c) == |Only(log, c)| + if stoppedOn == Some(c) then 1 else 0
    }

    constructor (config: Config)
      ensures Valid() && cfg == config && arrivals == [] && consuming
    {
      cfg, lastCallTime, lastNtfyTimes, alertsTotal, alertsSuppressed := config, 0.0, map[], map[], map[];
      consuming, arrivals, log, stoppedOn := true, [], [], None;
    }

    /** The counters of a camera balance, also after the alert that ended the consumer. */
    lemma {:induction false} CountersBalance(camera: string)
      requires Valid()
      ensures var each := if cfg.callsEnabled then 2 else 1;
              NtfySent(log, camera) + CallsMade(log, camera) + CountOf(alertsSuppressed, camera)
              == (CountOf(alertsTotal, camera) - if stoppedOn == Some(camera) then 1 else 0) * each
    {
      EveryAlertIsAccounted(cfg, arrivals, camera);
    }

    /**
     * The callback at time now. Unreadable fields count as an alert of the camera "unknown"; a body that is no
     * object, or a camera that cannot be looked up, ends the consumer.
     */
    method Callback(payload: Payload, now: real) returns (ntfy: bool, call: bool)
      requires Valid() && consuming
      modifies this
      ensures Valid() && consuming == (payload.Malformed? || payload.Proper?)
      ensures consuming ==>
                var camera := if payload.Proper? then payload.camera else "unknown";
                && arrivals == old(arrivals) + [Arrival(camera, now)]
                && log == old(log) + [Entry(camera, now, ntfy, call)]
      ensures !consuming ==> log == old(log) && !ntfy && !call
      ensures stoppedOn == if payload.Unkeyable? then Some(payload.camera) else None
    {
      if payload.NotAnObject? {
        consuming := false;
        return false, false;
      }
      var camera := if payload.Malformed? then UNKNOWN else payload.camera;
      if payload.Unkeyable? {
        Fail(camera);
        return false, false;
      }
      ntfy, call := CountAndDispatch(camera, now);
    }

    /** The alert is counted, then looking up its camera raises. */
    method Fail(camera: string)
      requires Valid() && consuming
      modifies this`alertsTotal, this`consuming, this`stoppedOn
      ensures Valid() && !consuming && stoppedOn == Some(camera)
    {
      alertsTotal := Incremented(alertsTotal, camera);
      stoppedOn, consuming := Some(camera), false;
    }

    method CountAndDispatch(camera: string, now: real) returns (ntfy: bool, call: bool)
      requires Valid() && consuming
      modifies this`alertsTotal, this`lastCallTime, this`lastNtfyTimes, this`alertsSuppressed, this`arrivals, this`log
      ensures Valid() && arrivals == old(arrivals) + [Arrival(camera, now)]
      ensures log == old(log) + [Entry(camera, now, ntfy, call)]
    {
      alertsTotal := Incremented(alertsTotal, camera);
      ntfy, call := Dispatch(camera, now);
    }

    /** Both cooldowns for one alert, ntfy first. */
    method Decide(camera: string, now: real) returns (ntfy: bool, call: bool)
      modifies this`lastCallTime, this`lastNtfyTimes, this`alertsSuppressed
      ensures ntfy == (now - NtfyTime(old(lastNtfyTimes), camera) > cfg.ntfyCooldown as real)
      ensures call == (cfg.callsEnabled && now - old(lastCallTime) > cfg.alertCooldown as real)
      ensures lastCallTime == if call then now else old(lastCallTime)
      ensures forall c :: NtfyTime(lastNtfyTimes, c) ==
                if c == camera && ntfy then now else NtfyTime(old(lastNtfyTimes), c)
      ensures forall c :: CountOf(alertsSuppressed, c) ==
                CountOf(old(alertsSuppressed), c)
                + if c == camera then SuppressionsOf(cfg, Entry(camera, now, ntfy, call)) else 0
    {
      var lastCamNtfy := if camera in lastNtfyTimes then lastNtfyTimes[camera] else 0.0;
      ntfy := now - lastCamNtfy > cfg.ntfyCooldown as real;
      if ntfy {
        lastNtfyTimes := lastNtfyTimes[camera := now];
      } else {
        alertsSuppressed := Incremented(alertsSuppressed, camera);
      }
      call := false;
      if cfg.callsEnabled {
        call := now - lastCallTime > cfg.alertCooldown as real;
        if call {
          lastCallTime := now;
        } else {
          alertsSuppressed := Incremented(alertsSuppressed, camera);
        }
      }
    }

    /** Decides on one alert and notes it in the history. */
    method Dispatch(camera: string, now: real) returns (ntfy: bool, call: bool)
      requires log == Handled(cfg, arrivals)
      requires Remembers(cfg, log, lastCallTime, lastNtfyTimes, alertsSuppressed)
      modifies this`lastCallTime, this`lastNtfyTimes, this`alertsSuppressed, this`arrivals, this`log
      ensures log == Handled(cfg, arrivals)
      ensures Remembers(cfg, log, lastCallTime, lastNtfyTimes, alertsSuppressed)
      ensures arrivals == old(arrivals) + [Arrival(camera, now)]
      ensures log == old(log) + [Entry(camera, now, ntfy, call)]
      ensures forall c :: |Only(log, c)| == |Only(old(log), c)| + if c == camera then 1 else 0
    {
      ghost var e := EntryAfter(cfg, log, camera, now);
      ntfy, call := Decide(camera, now);
      StillRemembers(cfg, log, old(lastCallTime), old(lastNtfyTimes), old(alertsSuppressed),
                     lastCallTime, lastNtfyTimes, alertsSuppressed, e);
      assert (arrivals + [Arrival(camera, now)])[..|arrivals|] == arrivals;
      arrivals, log := arrivals + [Arrival(camera, now)], log + [e];
    }
  }
}
