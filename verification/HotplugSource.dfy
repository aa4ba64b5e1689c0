/** Who sends hotplug events: the scan that compares every connector's reading with its last known state. */
module HotplugSource {
  import opened EventQueue
  import opened EventProtocol

  const HOTPLUG_DRM_EVENT := 2

  /** A reading of a connector; the driver may refuse one. */
  datatype Reading = Read(connection: Connection) | Failed

  function Update(before: Connection, r: Reading): Connection {
    if r.Read? then r.connection else before
  }

  function EventFor(display: int, c: Connection, timestamp: nat): DrmEvent {
    DrmEvent(display, HOTPLUG_DRM_EVENT, c, timestamp, false)
  }

  function Updated(states: seq<Connection>, readings: seq<Reading>): seq<Connection>
    requires |readings| == |states|
  {
    seq(|states|, i requires 0 <= i < |states| => Update(states[i], readings[i]))
  }

  /** One event for each of the first `n` connectors whose state changes. */
  function Changes(displays: seq<int>, states: seq<Connection>, readings: seq<Reading>, timestamp: nat,
      n: nat): seq<DrmEvent>
    requires |displays| == |states| == |readings| && n <= |states|
  {
    if n == 0 then []
    else
      var rest := Changes(displays, states, readings, timestamp, n - 1);
      var c := Update(states[n - 1], readings[n - 1]);
      if c != states[n - 1] then rest + [EventFor(displays[n - 1], c, timestamp)] else rest
  }

  function Everything(displays: seq<int>, states: seq<Connection>, timestamp: nat): seq<DrmEvent>
    requires |displays| == |states|
  {
    seq(|displays|, i requires 0 <= i < |displays| => EventFor(displays[i], states[i], timestamp))
  }

  predicate Distinct(displays: seq<int>) {
    forall i, j :: 0 <= i < j < |displays| ==> displays[i] != displays[j]
  }

  class DrmHotplugSource {
    const displays: seq<int>
    const isRK3528: bool
    var states: seq<Connection>

    constructor (displays: seq<int>, states: seq<Connection>, isRK3528: bool)
      requires |displays| == |states|
      ensures this.displays == displays && this.states == states && this.isRK3528 == isRK3528
    {
      this.displays, this.states, this.isRK3528 := displays, states, isRK3528;
    }

    method Scan(readings: seq<Reading>, timestamp: nat) returns (sends: seq<DrmEvent>)
      requires |displays| == |states| == |readings|
      modifies this
      ensures |states| == |displays| && states == Updated(old(states), readings)
      ensures sends == Changes(displays, old(states), readings, timestamp, |displays|)
      ensures forall i :: 0 <= i < |states| ==>
                states[i] == if readings[i].Read? then readings[i].connection else old(states)[i]
    {
      sends := [];
      var i := 0;
      while i < |displays|
        invariant 0 <= i <= |displays| == |states|
        invariant forall j :: 0 <= j < i ==> states[j] == Update(old(states)[j], readings[j])
        invariant forall j :: i <= j < |states| ==> states[j] == old(states)[j]
        invariant sends == Changes(displays, old(states), readings, timestamp, i)
      {
        var oldState := states[i];
        states := states[i := Update(oldState, readings[i])];
        if states[i] != oldState {
          sends := sends + [EventFor(displays[i], states[i], timestamp)];
        }
        i := i + 1;
      }
      assert states == Updated(old(states), readings);
    }

    /** Fast readings first; slow ones only when those show no change. */
    method HandleEvent(fast: seq<Reading>, slow: seq<Reading>, timestamp: nat) returns (sends: seq<DrmEvent>)
      requires |displays| == |states| == |fast| == |slow|
      modifies this
      ensures |states| == |displays|
      ensures (states, sends) == Handle(displays, old(states), fast, slow, timestamp, isRK3528)
      ensures var quiet := forall j :: 0 <= j < |states| && fast[j].Read? ==> fast[j].connection == old(states)[j];
              forall i :: 0 <= i < |states| ==>
                states[i] == if quiet && slow[i].Read? then slow[i].connection
                             else if fast[i].Read? then fast[i].connection else old(states)[i]
    {
      sends := Scan(fast, timestamp);
      if sends == [] {
        sends := Scan(slow, timestamp);
      }
      if sends == [] && isRK3528 && timestamp == 0 {
        var i := 0;
        while i < |displays|
          invariant 0 <= i <= |displays| == |states|
          invariant states == Handle(displays, old(states), fast, slow, timestamp, isRK3528).0
          invariant sends == Everything(displays, states, timestamp)[..i]
        {
          sends := sends + [EventFor(displays[i], states[i], timestamp)];
          i := i + 1;
        }
        assert sends == Everything(displays, states, timestamp);
      }
      forall i | 0 <= i < |states|
        ensures states[i] == match Counted(old(states), Call(fast, slow, timestamp), i)
                             case Read(c) => c case Failed => old(states)[i]
      {
        HandleReads(displays, old(states), Call(fast, slow, timestamp), isRK3528, i);
      }
    }
  }

  function Handle(displays: seq<int>, states: seq<Connection>, fast: seq<Reading>, slow: seq<Reading>, timestamp: nat,
      rk: bool)
    : (r: (seq<Connection>, seq<DrmEvent>))
    requires |displays| == |states| == |fast| == |slow|
    ensures |r.0| == |states|
  {
    var s1 := Updated(states, fast);
    var e1 := Changes(displays, states, fast, timestamp, |states|);
    if e1 != [] then (s1, e1)
    else
      var s2 := Updated(s1, slow);
      var e2 := Changes(displays, s1, slow, timestamp, |states|);
      if e2 == [] && rk && timestamp == 0 then (s2, Everything(displays, s2, timestamp)) else (s2, e2)
  }

  // ---- Sends alternate ------------------------------------------------------------------------

  /** What one call may be handed. */
  datatype Call = Call(fast: seq<Reading>, slow: seq<Reading>, timestamp: nat)

  predicate Sized(n: nat, calls: seq<Call>) {
    forall i :: 0 <= i < |calls| ==> |calls[i].fast| == |calls[i].slow| == n
  }

  /** All that a series of calls leaves and sends, on a device that is an RK3528 or not. */
  function HandleAll(displays: seq<int>, states: seq<Connection>, calls: seq<Call>, rk: bool)
    : (r: (seq<Connection>, seq<DrmEvent>))
    requires |displays| == |states| && Sized(|states|, calls)
    ensures |r.0| == |states|
  {
    if calls == [] then (states, [])
    else
      var n := |calls| - 1;
      var before := HandleAll(displays, states, calls[..n], rk);
      var last := Handle(displays, before.0, calls[n].fast, calls[n].slow, calls[n].timestamp, rk);
      (last.0, before.1 + last.1)
  }

  /** The call is the first-boot one: nothing changed in either scan, on that device, at timestamp zero. */
  predicate Boots(displays: seq<int>, states: seq<Connection>, call: Call, rk: bool)
    requires |displays| == |states| == |call.fast| == |call.slow|
  {
    && rk && call.timestamp == 0
    && Changes(displays, states, call.fast, 0, |states|) == []
    && Changes(displays, Updated(states, call.fast), call.slow, 0, |states|) == []
  }

  /** Call `n` is a first-boot one and the slot was sent something before. */
  predicate BootsLate(displays: seq<int>, states: seq<Connection>, calls: seq<Call>, rk: bool, t: Slot, n: nat)
    requires |displays| == |states| && Sized(|states|, calls) && n < |calls|
  {
    var before := HandleAll(displays, states, calls[..n], rk);
    Boots(displays, before.0, calls[n], rk) && To(before.1, t) != []
  }

  /** Every first-boot call comes before anything else is sent to the slot. */
  ghost predicate BootsFirst(displays: seq<int>, states: seq<Connection>, calls: seq<Call>, rk: bool, t: Slot)
    requires |displays| == |states| && Sized(|states|, calls)
  {
    forall n: nat :: n < |calls| ==> !BootsLate(displays, states, calls, rk, t, n)
  }

  /** A scan sends at most one event to a slot, and then one that contradicts the state before it. */
  lemma {:induction false} ChangesTo(displays: seq<int>, states: seq<Connection>, readings: seq<Reading>,
      timestamp: nat, n: nat, i: nat)
    requires |displays| == |states| == |readings| && n <= |states| && i < |states| && Distinct(displays)
    ensures var c := Update(states[i], readings[i]);
            To(Changes(displays, states, readings, timestamp, n), Slot(displays[i], HOTPLUG_DRM_EVENT))
            == if i < n && c != states[i] then [EventFor(displays[i], c, timestamp)] else []
  {
    if n > 0 {
      ChangesTo(displays, states, readings, timestamp, n - 1, i);
      var rest := Changes(displays, states, readings, timestamp, n - 1);
      var e := EventFor(displays[n - 1], Update(states[n - 1], readings[n - 1]), timestamp);
      assert (rest + [e])[..|rest + [e]| - 1] == rest;
    }
  }

  lemma QuietMeansSame(displays: seq<int>, states: seq<Connection>, readings: seq<Reading>, timestamp: nat, i: nat)
    requires |displays| == |states| == |readings| && i < |states| && Distinct(displays)
    requires Changes(displays, states, readings, timestamp, |states|) == []
    ensures Updated(states, readings)[i] == states[i]
  {
    ChangesTo(displays, states, readings, timestamp, |states|, i);
  }

  lemma {:induction false} EverythingTo(displays: seq<int>, states: seq<Connection>, timestamp: nat, i: nat, n: nat)
    requires |displays| == |states| && i < |states| && Distinct(displays) && n <= |displays|
    ensures To(Everything(displays, states, timestamp)[..n], Slot(displays[i], HOTPLUG_DRM_EVENT))
         == if i < n then [EventFor(displays[i], states[i], timestamp)] else []
  {
    if n > 0 {
      EverythingTo(displays, states, timestamp, i, n - 1);
      var es := Everything(displays, states, timestamp)[..n];
      assert es[..n - 1] == Everything(displays, states, timestamp)[..n - 1];
    }
  }

  /** One call: one event for the slot at most, carrying the new state; it differs from the old but for first boots. */
  lemma HandleTo(displays: seq<int>, states: seq<Connection>, call: Call, rk: bool, i: nat)
    requires |displays| == |states| == |call.fast| == |call.slow| && i < |states| && Distinct(displays)
    ensures var r := Handle(displays, states, call.fast, call.slow, call.timestamp, rk);
            && (Boots(displays, states, call, rk) ==> r.0[i] == states[i])
            && To(r.1, Slot(displays[i], HOTPLUG_DRM_EVENT))
            == if r.0[i] != states[i] || Boots(displays, states, call, rk)
              then [EventFor(displays[i], r.0[i], call.timestamp)]
               else []
  {
    var ts := call.timestamp;
    ChangesTo(displays, states, call.fast, ts, |states|, i);
    if Changes(displays, states, call.fast, ts, |states|) == [] {
      QuietMeansSame(displays, states, call.fast, ts, i);
      var s1 := Updated(states, call.fast);
      ChangesTo(displays, s1, call.slow, ts, |states|, i);
      if Changes(displays, s1, call.slow, ts, |states|) == [] && rk && ts == 0 {
        var all := Everything(displays, Updated(s1, call.slow), ts);
        EverythingTo(displays, Updated(s1, call.slow), ts, i, |displays|);
        assert all[..|displays|] == all;
      }
    }
  }

  /** Nothing that was read differs from what was known. */
  predicate Quiet(states: seq<Connection>, readings: seq<Reading>)
    requires |readings| == |states|
  {
    forall i :: 0 <= i < |states| && readings[i].Read? ==> readings[i].connection == states[i]
  }

  /** The reading of a connector that counts: the slow one if the fast ones show no change, and it succeeds. */
  function Counted(states: seq<Connection>, call: Call, i: nat): Reading
    requires |states| == |call.fast| == |call.slow| && i < |states|
  {
    if Quiet(states, call.fast) && call.slow[i].Read? then call.slow[i] else call.fast[i]
  }

  lemma {:induction false} ChangesAreSeen(displays: seq<int>, states: seq<Connection>, readings: seq<Reading>,
      timestamp: nat, n: nat)
    requires |displays| == |states| == |readings| && n <= |states|
    ensures Changes(displays, states, readings, timestamp, n) == []
       <==> forall i :: 0 <= i < n && readings[i].Read? ==> readings[i].connection == states[i]
  {
    if n > 0 {
      ChangesAreSeen(displays, states, readings, timestamp, n - 1);
    }
  }

  lemma QuietReadings(displays: seq<int>, states: seq<Connection>, readings: seq<Reading>, timestamp: nat)
    requires |displays| == |states| == |readings|
    ensures Changes(displays, states, readings, timestamp, |states|) == [] <==> Quiet(states, readings)
    ensures Quiet(states, readings) <==> Updated(states, readings) == states
  {
    ChangesAreSeen(displays, states, readings, timestamp, |states|);
    if Updated(states, readings) == states {
      forall i | 0 <= i < |states| && readings[i].Read? ensures readings[i].connection == states[i] {
        assert Updated(states, readings)[i] == states[i];
      }
    }
  }

  /** Afterwards every connector is in the state of its counted reading, or as it was if that failed. */
  lemma HandleReads(displays: seq<int>, states: seq<Connection>, call: Call, rk: bool, i: nat)
    requires |displays| == |states| == |call.fast| == |call.slow| && i < |states|
    ensures var r := Handle(displays, states, call.fast, call.slow, call.timestamp, rk);
            r.0[i] == match Counted(states, call, i) case Read(c) => c case Failed => states[i]
  {
    QuietReadings(displays, states, call.fast, call.timestamp);
    hide Changes, Everything;
  }

  /** The first-boot call: nothing changed at all, at timestamp zero on that device. */
  lemma BootsWhenQuiet(displays: seq<int>, states: seq<Connection>, call: Call, rk: bool)
    requires |displays| == |states| == |call.fast| == |call.slow|
    ensures Boots(displays, states, call, rk)
       <==> rk && call.timestamp == 0
            && Handle(displays, states, call.fast, call.slow, call.timestamp, rk).0 == states
  {
    hide Changes, Everything;
    QuietReadings(displays, states, call.fast, call.timestamp);
    QuietReadings(displays, Updated(states, call.fast), call.slow, call.timestamp);
  }

  /**
   * One call, by its readings: every connector takes the state of the reading that counts; one event goes to a
   * connector exactly when that is a change, or when nothing at all changed in a first-boot call. The event
   * carries the new state and the call's timestamp.
   */
  lemma OneCall(displays: seq<int>, states: seq<Connection>, call: Call, rk: bool, i: nat)
    requires |displays| == |states| == |call.fast| == |call.slow| && i < |states| && Distinct(displays)
    ensures var r := Handle(displays, states, call.fast, call.slow, call.timestamp, rk);
            var quiet := forall j :: 0 <= j < |states| && call.fast[j].Read? ==> call.fast[j].connection == states[j];
            && r.0[i] == (if quiet && call.slow[i].Read? then call.slow[i].connection
                          else if call.fast[i].Read? then call.fast[i].connection else states[i])
            && To(r.1, Slot(displays[i], 2))
            == if r.0[i] != states[i] || (rk && call.timestamp == 0 && r.0 == states)
               then [DrmEvent(displays[i], 2, r.0[i], call.timestamp, false)] else []
  {
    HandleReads(displays, states, call, rk, i);
    BootsWhenQuiet(displays, states, call, rk);
    HandleTo(displays, states, call, rk, i);
    hide Handle, Boots, To, Distinct;
  }

  /** The events of a call are for its connectors only, in their order. */
  lemma SentInOrder(displays: seq<int>, states: seq<Connection>, call: Call, rk: bool) returns (at: seq<nat>)
    requires |displays| == |states| == |call.fast| == |call.slow|
    ensures var es := Handle(displays, states, call.fast, call.slow, call.timestamp, rk).1;
            && |at| == |es|
            && (forall a, b :: 0 <= a < b < |at| ==> at[a] < at[b])
            && forall a :: 0 <= a < |at| ==>
                 at[a] < |displays| && es[a].display == displays[at[a]] && es[a].kind == HOTPLUG_DRM_EVENT
  {
    var n, ts := |states|, call.timestamp;
    var s1 := Updated(states, call.fast);
    if Changes(displays, states, call.fast, ts, n) != [] {
      at := ChangesInOrder(displays, states, call.fast, ts, n);
    } else if Changes(displays, s1, call.slow, ts, n) != [] {
      at := ChangesInOrder(displays, s1, call.slow, ts, n);
    } else if rk && ts == 0 {
      at := seq(n, i requires 0 <= i < n => i);
    } else {
      at := [];
    }
  }

  lemma {:induction false} ChangesInOrder(displays: seq<int>, states: seq<Connection>, readings: seq<Reading>,
      timestamp: nat, n: nat) returns (at: seq<nat>)
    requires |displays| == |states| == |readings| && n <= |states|
    ensures var es := Changes(displays, states, readings, timestamp, n);
            && |at| == |es|
            && (forall a, b :: 0 <= a < b < |at| ==> at[a] < at[b])
            && forall a :: 0 <= a < |at| ==>
                 at[a] < n && es[a].display == displays[at[a]] && es[a].kind == HOTPLUG_DRM_EVENT
  {
    at := [];
    if n > 0 {
      at := ChangesInOrder(displays, states, readings, timestamp, n - 1);
      if Update(states[n - 1], readings[n - 1]) != states[n - 1] {
        at := at + [n - 1];
      }
    }
  }

  lemma HandleAllSteps(displays: seq<int>, states: seq<Connection>, calls: seq<Call>, rk: bool, n: nat)
    requires |displays| == |states| && Sized(|states|, calls) && n < |calls|
    ensures var before := HandleAll(displays, states, calls[..n], rk);
            var r := Handle(displays, before.0, calls[n].fast, calls[n].slow, calls[n].timestamp, rk);
            HandleAll(displays, states, calls[..n + 1], rk) == (r.0, before.1 + r.1)
  {
    hide Handle;
    assert calls[..n + 1][..n] == calls[..n] && calls[..n + 1][n] == calls[n];
  }

  /** Call `n` of a series, after the others: the state it leaves and the event it adds. */
  lemma EveryCall(displays: seq<int>, states: seq<Connection>, calls: seq<Call>, rk: bool, i: nat, n: nat)
    requires |displays| == |states| && Sized(|states|, calls) && i < |states| && Distinct(displays) && n < |calls|
    ensures var before := HandleAll(displays, states, calls[..n], rk);
            var after := HandleAll(displays, states, calls[..n + 1], rk);
            var t := Slot(displays[i], 2);
            && after.0[i] == (match Counted(before.0, calls[n], i) case Read(c) => c case Failed => before.0[i])
            && To(after.1, t)
            == To(before.1, t)
               + if after.0[i] != before.0[i] || (rk && calls[n].timestamp == 0 && after.0 == before.0)
                 then [DrmEvent(displays[i], 2, after.0[i], calls[n].timestamp, false)] else []
  {
    hide Handle, HandleAll, To, Distinct, Counted;
    HandleAllSteps(displays, states, calls, rk, n);
    var before := HandleAll(displays, states, calls[..n], rk);
    var r := Handle(displays, before.0, calls[n].fast, calls[n].slow, calls[n].timestamp, rk);
    OneCall(displays, before.0, calls[n], rk, i);
    HandleReads(displays, before.0, calls[n], rk, i);
    ToConcat(before.1, r.1, Slot(displays[i], 2));
  }

  /** What call `n` of a series reads of a connector. */
  function ReadIn(displays: seq<int>, states: seq<Connection>, calls: seq<Call>, rk: bool, i: nat, n: nat): Reading
    requires |displays| == |states| && Sized(|states|, calls) && i < |states| && n < |calls|
  {
    Counted(HandleAll(displays, states, calls[..n], rk).0, calls[n], i)
  }

  lemma {:induction false} FailuresChangeNothing(displays: seq<int>, states: seq<Connection>, calls: seq<Call>,
      rk: bool, i: nat, n: nat, m: nat)
    requires |displays| == |states| && Sized(|states|, calls) && i < |states| && n <= m <= |calls|
    requires forall j: nat :: n <= j < m ==> ReadIn(displays, states, calls, rk, i, j).Failed?
    ensures HandleAll(displays, states, calls[..m], rk).0[i] == HandleAll(displays, states, calls[..n], rk).0[i]
  {
    hide Handle, HandleAll, Counted;
    if n < m {
      FailuresChangeNothing(displays, states, calls, rk, i, n, m - 1);
      HandleAllSteps(displays, states, calls, rk, m - 1);
      HandleReads(displays, HandleAll(displays, states, calls[..m - 1], rk).0, calls[m - 1], rk, i);
      assert ReadIn(displays, states, calls, rk, i, m - 1).Failed?;
    }
  }

  /**
   * After a series of calls a connector is in the state of the last successful reading of it that counted,
   * and as it was at first when there was none.
   */
  lemma LastReadingWins(displays: seq<int>, states: seq<Connection>, calls: seq<Call>, rk: bool, i: nat, n: nat)
    requires |displays| == |states| && Sized(|states|, calls) && i < |states| && n <= |calls|
    requires forall j: nat :: n <= j < |calls| ==> ReadIn(displays, states, calls, rk, i, j).Failed?
    requires n > 0 ==> ReadIn(displays, states, calls, rk, i, n - 1).Read?
    ensures HandleAll(displays, states, calls, rk).0[i]
         == if n == 0 then states[i] else ReadIn(displays, states, calls, rk, i, n - 1).connection
  {
    assert calls[..|calls|] == calls;
    FailuresChangeNothing(displays, states, calls, rk, i, n, |calls|);
    if n > 0 {
      HandleAllSteps(displays, states, calls, rk, n - 1);
      HandleReads(displays, HandleAll(displays, states, calls[..n - 1], rk).0, calls[n - 1], rk, i);
      hide Handle, HandleAll, Counted;
    }
  }

  lemma BootsLatePrefix(displays: seq<int>, states: seq<Connection>, calls: seq<Call>, rk: bool, t: Slot, m: nat,
      n: nat)
    requires |displays| == |states| && Sized(|states|, calls) && n < m <= |calls|
    ensures BootsLate(displays, states, calls[..m], rk, t, n) == BootsLate(displays, states, calls, rk, t, n)
  {
    assert calls[..m][..n] == calls[..n] && calls[..m][n] == calls[n];
    hide HandleAll, Boots;
  }

  lemma BootsFirstGrows(displays: seq<int>, states: seq<Connection>, calls: seq<Call>, rk: bool, t: Slot)
    requires |displays| == |states| && Sized(|states|, calls) && calls != []
    ensures var n := |calls| - 1;
            BootsFirst(displays, states, calls, rk, t)
            <==> BootsFirst(displays, states, calls[..n], rk, t) && !BootsLate(displays, states, calls, rk, t, n)
  {
    hide BootsLate;
    var n := |calls| - 1;
    forall m: nat | m < n
      ensures BootsLate(displays, states, calls[..n], rk, t, m) == BootsLate(displays, states, calls, rk, t, m)
    {
      BootsLatePrefix(displays, states, calls, rk, t, n, m);
    }
  }

  /** One more call, as far as a slot sees it: at most one event, for a change or a first boot. */
  lemma OneMore(a: seq<DrmEvent>, b: seq<DrmEvent>, first: Connection, before: Connection, after: Connection,
      boots: bool)
    requires before == (if a == [] then first else a[|a| - 1].connection) && forall e :: e in a ==> !e.stateChange
    requires boots ==> after == before
    requires if after != before || boots then |b| == 1 && b[0].connection == after && !b[0].stateChange else b == []
    ensures after == (if a + b == [] then first else (a + b)[|a + b| - 1].connection)
    ensures forall e :: e in a + b ==> !e.stateChange
    ensures Alternating(a + b) <==> Alternating(a) && !(boots && a != [])
  {
    hide Alternating;
    if b != [] {
      assert b == [b[0]];
      AlternatingSnoc(a, b[0]);
    } else {
      assert a + b == a;
    }
  }

  /**
   * Whatever the readings of however many calls on whatever device: the last event for a connector carries its
   * state, and the events for it alternate if and only if every first-boot call came before them.
   */
  lemma {:induction false} SendsAlternate(displays: seq<int>, states: seq<Connection>, calls: seq<Call>, rk: bool,
                                          i: nat)
    requires |displays| == |states| && Sized(|states|, calls) && i < |states| && Distinct(displays)
    ensures var r := HandleAll(displays, states, calls, rk);
            var t := Slot(displays[i], HOTPLUG_DRM_EVENT);
            var to := To(r.1, t);
            && r.0[i] == (if to == [] then states[i] else to[|to| - 1].connection)
            && (forall e :: e in to ==> !e.stateChange)
            && (Alternating(to) <==> BootsFirst(displays, states, calls, rk, t))
  {
    hide BootsFirst, Boots, Handle, Distinct, Alternating;
    var t := Slot(displays[i], HOTPLUG_DRM_EVENT);
    if calls == [] {
      NoCalls(displays, states, rk, t);
    } else {
      var n := |calls| - 1;
      SendsAlternate(displays, states, calls[..n], rk, i);
      BootsFirstGrows(displays, states, calls, rk, t);
      var before := HandleAll(displays, states, calls[..n], rk);
      HandleTo(displays, before.0, calls[n], rk, i);
      var last := Handle(displays, before.0, calls[n].fast, calls[n].slow, calls[n].timestamp, rk);
      ToConcat(before.1, last.1, t);
      OneMore(To(before.1, t), To(last.1, t), states[i], before.0[i], last.0[i],
        Boots(displays, before.0, calls[n], rk));
    }
  }

  lemma NoCalls(displays: seq<int>, states: seq<Connection>, rk: bool, t: Slot)
    requires |displays| == |states|
    ensures HandleAll(displays, states, [], rk) == (states, []) && Alternating([])
    ensures BootsFirst(displays, states, [], rk, t)
  {
  }

  lemma AlternatingSnoc(a: seq<DrmEvent>, e: DrmEvent)
    requires !e.stateChange
    ensures Alternating(a + [e]) <==> Alternating(a) && (a != [] ==> a[|a| - 1].connection != e.connection)
  {
    var b := a + [e];
    assert forall i :: 0 <= i < |a| ==> b[i] == a[i];
    assert b[|a|] == e;
    if a != [] {
      assert b[|b| - 2] == a[|a| - 1];
    }
  }

  // ---- The scan as a sender of the protocol ---------------------------------------------------

  /** The events sent in a run of the protocol. */
  function SendsOf(steps: seq<Step>): seq<DrmEvent> {
    if steps == [] then [] else (if steps[0].DoSend? then [steps[0].event] else []) + SendsOf(steps[1..])
  }

  lemma {:induction false} SentIs(s: Sys, steps: seq<Step>)
    requires Accounted(s) && Runs(s, steps)
    ensures Sent(After(s, steps)) == Sent(s) + SendsOf(steps)
    decreases |steps|
  {
    hide Accounted, Sent, Do;
    if steps == [] {
      assert Sent(s) + [] == Sent(s);
    } else {
      StepKeepsAccounted(s, steps[0]);
      SentIs(Do(s, steps[0]), steps[1..]);
      hide Runs, Enabled;
      assert Sent(After(s, steps)) == Sent(Do(s, steps[0])) + SendsOf(steps[1..]);
      Regroup(Sent(s), if steps[0].DoSend? then [steps[0].event] else [], SendsOf(steps[1..]));
    }
  }

  lemma Regroup(a: seq<DrmEvent>, b: seq<DrmEvent>, c: seq<DrmEvent>)
    ensures (a + b) + c == a + (b + c) && (b == [] ==> a + c == a + (b + c))
  {
  }

  lemma AlternatingPart(a: seq<DrmEvent>, b: seq<DrmEvent>)
    requires Alternating(a + b)
    ensures Alternating(a) && Alternating(b)
  {
    forall i | 0 <= i < |a| ensures !a[i].stateChange && (i > 0 ==> a[i - 1].connection != a[i].connection) {
      assert (a + b)[i] == a[i] && (i > 0 ==> (a + b)[i - 1] == a[i - 1]);
    }
    forall i | 0 <= i < |b| ensures !b[i].stateChange && (i > 0 ==> b[i - 1].connection != b[i].connection) {
      assert (a + b)[|a| + i] == b[i] && (i > 0 ==> (a + b)[|a| + i - 1] == b[i - 1]);
    }
  }

  /** If all sends to a slot alternate, a pending event is marked exactly when it merged at least two of them. */
  lemma MarkMeansMergedEdges(s: Sys, t: Slot)
    requires Accounted(s) && Alternating(To(Sent(s), t)) && t in s.pending
    ensures s.pending[t].stateChange <==> |To(s.current, t)| >= 2
  {
    ToConcat(Concat(s.batches), s.current, t);
    AlternatingPart(To(Concat(s.batches), t), To(s.current, t));
    MarkedIffMerged(s.current, t);
  }

  /**
   * The scan and the worker together: in every interleaving of the protocol in which what reached a connector's
   * slot so far is the beginning of what a series of scans sends to it, a pending event is marked exactly when it
   * merged at least two edges, provided the first-boot calls came first.
   */
  lemma ScansMarkMergedEdges(garbage: bool, steps: seq<Step>, displays: seq<int>, states: seq<Connection>,
      calls: seq<Call>, rk: bool, i: nat, later: seq<DrmEvent>)
    requires |displays| == |states| && Sized(|states|, calls) && i < |states| && Distinct(displays)
    requires Runs(Init(garbage), steps)
    requires var t := Slot(displays[i], HOTPLUG_DRM_EVENT);
             && To(SendsOf(steps), t) + later == To(HandleAll(displays, states, calls, rk).1, t)
             && BootsFirst(displays, states, calls, rk, t)
             && t in After(Init(garbage), steps).pending
    ensures var t, s := Slot(displays[i], HOTPLUG_DRM_EVENT), After(Init(garbage), steps);
            s.pending[t].stateChange <==> |To(s.current, t)| >= 2
  {
    var t, s := Slot(displays[i], HOTPLUG_DRM_EVENT), After(Init(garbage), steps);
    RunKeepsAccounted(Init(garbage), steps);
    SentIs(Init(garbage), steps);
    assert Sent(Init(garbage)) + SendsOf(steps) == SendsOf(steps);
    SendsAlternate(displays, states, calls, rk, i);
    AlternatingPart(To(SendsOf(steps), t), later);
    hide After, Runs, HandleAll, BootsFirst, Accounted;
    MarkMeansMergedEdges(s, t);
  }

  /** Two first-boot calls in a row repeat themselves. */
  lemma FirstBootRepeats()
    ensures var r := Handle([0], [Connected], [Failed], [Failed], 0, true);
            r == ([Connected], [EventFor(0, Connected, 0)]) && !Alternating(r.1 + r.1)
  {
    assert Changes([0], [Connected], [Failed], 0, 1) == [];
    assert Updated([Connected], [Failed]) == [Connected];
    assert Everything([0], [Connected], 0) == [EventFor(0, Connected, 0)];
    var es := [EventFor(0, Connected, 0), EventFor(0, Connected, 0)];
    assert es[0].connection == es[1].connection;
    assert [EventFor(0, Connected, 0)] + [EventFor(0, Connected, 0)] == es;
  }
}
