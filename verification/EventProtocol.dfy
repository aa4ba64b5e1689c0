/**
 * The worker thread, its senders and the condition variable, as interleaved steps. A critical section is one
 * step; the notification that follows it, after the lock is dropped, is another that may come arbitrarily late.
 */
module EventProtocol {
  import opened EventQueue

  /** Where the worker thread is. `first` says which of the two waits of its routine it is in. */
  datatype Pc = Top | Ready | Asleep(first: bool) | Woken(first: bool) | Handling(queue: seq<DrmEvent>) | Done

  /** `batches` and `current` record the sends: those drained together, and those since the last drain. */
  datatype Sys = Sys(
    started: bool,
    exit: bool,
    pending: Pending,
    pc: Pc,
    notifies: nat,
    batches: seq<seq<DrmEvent>>,
    current: seq<DrmEvent>,
    handled: seq<DrmEvent>)

  datatype Step = DoSend(event: DrmEvent) | DoStart | DoExit | Notify | Spurious | Work

  predicate Enabled(s: Sys, st: Step) {
    match st
    case DoSend(_) => true
    case DoStart => true
    case DoExit => true
    case Notify => s.notifies > 0
    case Spurious => s.pc.Asleep?
    case Work => !s.pc.Asleep? && !s.pc.Done?
  }

  ghost function TakeAll(s: Sys): Sys {
    s.(pc := Handling(Drain(s.pending)), pending := map[], batches := s.batches + [s.current], current := [])
  }

  /** One step of the worker thread: up to the next time it gives up the lock. */
  ghost function Turn(s: Sys): Sys
    requires Enabled(s, Work)
  {
    match s.pc
    case Top => if s.exit then s.(pc := Done) else s.(pc := Ready)
    case Ready =>
      if !s.started then
        if s.exit then s.(pc := Top) else s.(pc := Asleep(true))
      else if s.pending == map[] then
        if s.exit then s.(pc := Top) else s.(pc := Asleep(false))
      else TakeAll(s)
    case Woken(true) => s.(pc := Top)
    case Woken(false) => if s.exit then s.(pc := Top) else TakeAll(s)
    case Handling(q) => if q == [] then s.(pc := Top) else s.(pc := Handling(q[1..]), handled := s.handled + [q[0]])
  }

  function Wake(pc: Pc): Pc {
    if pc.Asleep? then Woken(pc.first) else pc
  }

  ghost function Do(s: Sys, st: Step): Sys
    requires Enabled(s, st)
  {
    match st
    case DoSend(e) => s.(pending := Send(s.pending, e), current := s.current + [e], notifies := s.notifies + 1)
    case DoStart => s.(started := true, notifies := s.notifies + 1)
    case DoExit => s.(exit := true, notifies := s.notifies + 1)
    case Notify => s.(pc := Wake(s.pc), notifies := s.notifies - 1)
    case Spurious => s.(pc := Wake(s.pc))
    case Work => Turn(s)
  }

  /** The start flag is not initialised. */
  function Init(garbage: bool): Sys {
    Sys(garbage, false, map[], Top, 0, [], [], [])
  }

  ghost predicate Runs(s: Sys, steps: seq<Step>)
    decreases |steps|
  {
    steps == [] || (Enabled(s, steps[0]) && Runs(Do(s, steps[0]), steps[1..]))
  }

  ghost function After(s: Sys, steps: seq<Step>): Sys
    requires Runs(s, steps)
    decreases |steps|
  {
    if steps == [] then s else After(Do(s, steps[0]), steps[1..])
  }

  /**
   * When the worker takes the pending events, all of them: at its look at the map, exit or not, once it was started and
   * if there are any; and when it was woken from its second wait, unless an exit was requested.
   */
  lemma TakesExactly(s: Sys)
    requires Enabled(s, Work)
    ensures var t := Turn(s);
            if (s.pc == Ready && s.started && s.pending != map[]) || (s.pc == Woken(false) && !s.exit)
            then t.pc == Handling(Drain(s.pending)) && t.pending == map[] && t.batches == s.batches + [s.current]
            else t.pending == s.pending && t.batches == s.batches
  {
  }

  // ---- No wake-up is missed -------------------------------------------------------------------

  /** A sleeper with something to do has a notification on its way. */
  ghost predicate WakeupDue(s: Sys) {
    && (s.pc == Asleep(true) && s.started ==> s.notifies > 0)
    && (s.pc == Asleep(false) && s.pending != map[] ==> s.notifies > 0)
    && (s.pc.Asleep? && s.exit ==> s.notifies > 0)
    && (s.pc == Asleep(false) || s.pc == Woken(false) || s.pc.Handling? || s.batches != [] ==> s.started)
  }

  lemma StepKeepsWakeupDue(s: Sys, st: Step)
    requires WakeupDue(s) && Enabled(s, st)
    ensures WakeupDue(Do(s, st))
  {
  }

  lemma {:induction false} RunKeepsWakeupDue(s: Sys, steps: seq<Step>)
    requires WakeupDue(s) && Runs(s, steps)
    ensures WakeupDue(After(s, steps))
    decreases |steps|
  {
    if steps != [] {
      StepKeepsWakeupDue(s, steps[0]);
      RunKeepsWakeupDue(Do(s, steps[0]), steps[1..]);
    }
  }

  // ---- No event is lost -----------------------------------------------------------------------

  function Concat(batches: seq<seq<DrmEvent>>): seq<DrmEvent> {
    if batches == [] then [] else Concat(batches[..|batches| - 1]) + batches[|batches| - 1]
  }

  /** Everything sent, in the order of the critical sections. */
  function Sent(s: Sys): seq<DrmEvent> {
    Concat(s.batches) + s.current
  }

  /** What draining those batches one after the other hands to the worker. */
  ghost function Drained(batches: seq<seq<DrmEvent>>): seq<DrmEvent> {
    if batches == [] then []
    else Drained(batches[..|batches| - 1]) + Drain(SendAll(map[], batches[|batches| - 1]))
  }

  function Queue(s: Sys): seq<DrmEvent> {
    if s.pc.Handling? then s.pc.queue else []
  }

  /** The worker's queue and past are exactly the drained batches; the pending map is the rest, merged. */
  ghost predicate Accounted(s: Sys) {
    && s.pending == SendAll(map[], s.current)
    && s.handled + Queue(s) == Drained(s.batches)
  }

  lemma SendKeepsAccounted(s: Sys, e: DrmEvent)
    requires Accounted(s)
    ensures Accounted(Do(s, DoSend(e))) && Sent(Do(s, DoSend(e))) == Sent(s) + [e]
  {
    hide Send, Drained, Concat, Queue;
    assert (s.current + [e])[..|s.current + [e]| - 1] == s.current;
    assert Queue(Do(s, DoSend(e))) == Queue(s) by {
      QueueOf(s, Do(s, DoSend(e)));
    }
  }

  lemma QueueOf(s: Sys, t: Sys)
    requires t.pc == s.pc
    ensures Queue(t) == Queue(s)
  {
  }

  lemma TakeAllKeepsAccounted(s: Sys)
    requires Accounted(s) && Queue(s) == []
    ensures Accounted(TakeAll(s)) && Sent(TakeAll(s)) == Sent(s)
  {
    hide Drain;
    var t := TakeAll(s);
    assert t.batches[..|t.batches| - 1] == s.batches;
    assert s.handled + [] == s.handled;
    assert SendAll(map[], []) == map[];
  }

  lemma HandleKeepsAccounted(s: Sys)
    requires Accounted(s) && s.pc.Handling? && s.pc.queue != []
    ensures Accounted(Turn(s)) && Sent(Turn(s)) == Sent(s)
  {
    hide SendAll, Drained, Concat;
    assert s.handled + s.pc.queue == s.handled + [s.pc.queue[0]] + s.pc.queue[1..];
  }

  /** A step sends, drains, handles one event, or leaves all of them alone. */
  lemma StepShape(s: Sys, st: Step)
    requires Enabled(s, st)
    ensures var t := Do(s, st);
            || st.DoSend?
            || (st.Work? && t == TakeAll(s) && Queue(s) == [])
            || (st.Work? && s.pc.Handling? && s.pc.queue != [])
            || (t.pending == s.pending && t.current == s.current && t.batches == s.batches && t.handled == s.handled
                && Queue(t) == Queue(s))
  {
    hide Send, Drain;
  }

  lemma StepKeepsAccounted(s: Sys, st: Step)
    requires Accounted(s) && Enabled(s, st)
    ensures Accounted(Do(s, st))
    ensures Sent(Do(s, st)) == if st.DoSend? then Sent(s) + [st.event] else Sent(s)
  {
    StepShape(s, st);
    if st.DoSend? {
      SendKeepsAccounted(s, st.event);
    } else {
      if Do(s, st) == TakeAll(s) && Queue(s) == [] {
        TakeAllKeepsAccounted(s);
      } else if st.Work? && s.pc.Handling? && s.pc.queue != [] {
        HandleKeepsAccounted(s);
      } else {
        hide SendAll, Drained, Concat, TakeAll, Do, Queue;
      }
    }
  }

  lemma {:induction false} RunKeepsAccounted(s: Sys, steps: seq<Step>)
    requires Accounted(s) && Runs(s, steps)
    ensures Accounted(After(s, steps))
    decreases |steps|
  {
    if steps != [] {
      StepKeepsAccounted(s, steps[0]);
      RunKeepsAccounted(Do(s, steps[0]), steps[1..]);
    }
  }

  /** The last event of a slot, without its mark. */
  function Latest(es: seq<DrmEvent>, t: Slot): seq<DrmEvent> {
    var to := To(es, t);
    if to == [] then [] else [to[|to| - 1].(stateChange := false)]
  }

  lemma {:induction false} ToConcat(a: seq<DrmEvent>, b: seq<DrmEvent>, t: Slot)
    ensures To(a + b, t) == To(a, t) + To(b, t)
  {
    if b == [] {
      assert a + b == a;
    } else {
      assert (a + b)[..|a + b| - 1] == a + b[..|b| - 1];
      ToConcat(a, b[..|b| - 1], t);
    }
  }

  lemma LatestConcat(a: seq<DrmEvent>, b: seq<DrmEvent>, t: Slot)
    ensures Latest(a + b, t) == if Latest(b, t) != [] then Latest(b, t) else Latest(a, t)
  {
    ToConcat(a, b, t);
  }

  /** A queue that lists a map holds, for each slot, just the map's event. */
  lemma {:induction false} ToListed(q: seq<DrmEvent>, t: Slot)
    requires forall i, j :: 0 <= i < j < |q| ==> Before(SlotOf(q[i]), SlotOf(q[j]))
    ensures (exists e :: e in q && SlotOf(e) == t) <==> To(q, t) != []
    ensures forall e :: e in q && SlotOf(e) == t ==> To(q, t) == [e]
  {
    if q != [] {
      var n := |q| - 1;
      assert q == q[..n] + [q[n]];
      ToListed(q[..n], t);
      assert forall i :: 0 <= i < n ==> Before(SlotOf(q[i]), SlotOf(q[n]));
      assert forall e :: e in q[..n] ==> SlotOf(e) != SlotOf(q[n]);
      if SlotOf(q[n]) == t {
        assert q[n] in q;
      }
    }
  }

  /** Merging and draining a batch keeps the last event of every slot. */
  lemma DrainKeepsLatest(b: seq<DrmEvent>, t: Slot)
    ensures Latest(Drain(SendAll(map[], b)), t) == Latest(b, t)
  {
    var p := SendAll(map[], b);
    SendAllMerges(b, t);
    DrainLists(p);
    ToListed(Drain(p), t);
    if t in p {
      assert p[t] in Drain(p);
    }
  }

  lemma {:induction false} DrainedKeepsLatest(batches: seq<seq<DrmEvent>>, t: Slot)
    ensures Latest(Drained(batches), t) == Latest(Concat(batches), t)
  {
    if batches != [] {
      var n := |batches| - 1;
      DrainedKeepsLatest(batches[..n], t);
      DrainKeepsLatest(batches[n], t);
      LatestConcat(Drained(batches[..n]), Drain(SendAll(map[], batches[n])), t);
      LatestConcat(Concat(batches[..n]), batches[n], t);
    }
  }

  /** The latest event sent to a slot is pending, else in the worker's queue, else handled. */
  lemma LatestIsSomewhere(s: Sys, t: Slot)
    requires Accounted(s)
    ensures Latest(Sent(s), t) ==
            if t in s.pending then [s.pending[t].(stateChange := false)]
            else if Latest(Queue(s), t) != [] then Latest(Queue(s), t)
            else Latest(s.handled, t)
  {
    SendAllMerges(s.current, t);
    DrainedKeepsLatest(s.batches, t);
    LatestConcat(Concat(s.batches), s.current, t);
    LatestConcat(s.handled, Queue(s), t);
  }

  /** Merged handling ends where handling every single event would. */
  lemma MergingRefinesReplay(s: Sys, t: Slot)
    requires Accounted(s)
    ensures Latest(s.handled + Queue(s) + Drain(s.pending), t) == Latest(Sent(s), t)
  {
    DrainKeepsLatest(s.current, t);
    DrainedKeepsLatest(s.batches, t);
    LatestConcat(Concat(s.batches), s.current, t);
    LatestConcat(s.handled + Queue(s), Drain(s.pending), t);
  }

  // ---- Everything is handled in the end -------------------------------------------------------

  function Weight(s: Sys): nat {
    match s.pc
    case Top => if s.exit then 1 else 3
    case Ready => 2
    case Asleep(_) => 0
    case Woken(true) => 4
    case Woken(false) => 5
    case Handling(q) => 4 + |q|
    case Done => 0
  }

  function Measure(s: Sys): nat {
    6 * s.notifies + 4 * |s.pending| + Weight(s)
  }

  lemma TakeAllMeasure(s: Sys)
    requires ValidPending(s.pending)
    ensures Measure(TakeAll(s)) == 6 * s.notifies + 4 + |s.pending|
    ensures s.pending != map[] ==> |s.pending| > 0
  {
    DrainLists(s.pending);
    hide Drain, ValidPending, Lists;
  }

  lemma TurnDecreases(s: Sys)
    requires ValidPending(s.pending) && Enabled(s, Work)
    ensures Measure(Turn(s)) < Measure(s)
  {
    TakeAllMeasure(s);
    hide TakeAll, ValidPending;
  }

  lemma StepDecreases(s: Sys, st: Step)
    requires Accounted(s) && Enabled(s, st) && (st.Notify? || st.Work?)
    ensures Measure(Do(s, st)) < Measure(s)
  {
    SendAllMerges(s.current, Slot(0, 0));
    if st.Work? {
      TurnDecreases(s);
    }
    hide SendAll, Drained, Turn, ValidPending;
  }

  lemma StepKeepsFlags(s: Sys, st: Step)
    requires Enabled(s, st) && (st.Notify? || st.Work?)
    ensures Do(s, st).started == s.started && Do(s, st).exit == s.exit
  {
    hide Drain;
  }

  /** However they are scheduled, the worker and the notifications can take only so many steps by themselves. */
  lemma {:induction false} WorkerSettles(s: Sys, steps: seq<Step>)
    requires Accounted(s) && Runs(s, steps)
    requires forall i :: 0 <= i < |steps| ==> steps[i].Notify? || steps[i].Work?
    ensures |steps| <= Measure(s)
    ensures After(s, steps).started == s.started && After(s, steps).exit == s.exit && Sent(After(s, steps)) == Sent(s)
    decreases |steps|
  {
    if steps != [] {
      StepDecreases(s, steps[0]);
      StepKeepsAccounted(s, steps[0]);
      StepKeepsFlags(s, steps[0]);
      WorkerSettles(Do(s, steps[0]), steps[1..]);
      hide Measure, Accounted, Sent, Do;
    }
  }

  ghost predicate Settled(s: Sys) {
    !Enabled(s, Notify) && !Enabled(s, Work)
  }

  /** A started worker that has settled sleeps on an empty map with every slot's last event handled. */
  lemma SettledMeansHandled(s: Sys, t: Slot)
    requires Accounted(s) && WakeupDue(s) && Settled(s) && s.started && !s.exit && !s.pc.Done?
    ensures s.pc == Asleep(false) && s.pending == map[]
    ensures Latest(s.handled, t) == Latest(Sent(s), t)
  {
    LatestIsSomewhere(s, t);
  }

  /**
   * Every run from the start, with any senders: once the worker was started and the sends stop, the worker and
   * the outstanding notifications settle after finitely many steps, and then the last event sent to every slot
   * is the last one handled for it.
   */
  lemma EveryEventIsHandled(garbage: bool, steps: seq<Step>, rest: seq<Step>, t: Slot)
    requires Runs(Init(garbage), steps) && Runs(After(Init(garbage), steps), rest)
    requires DoExit !in steps && forall i :: 0 <= i < |rest| ==> rest[i].Notify? || rest[i].Work?
    ensures var s := After(Init(garbage), steps);
            && |rest| <= Measure(s)
            && (s.started && Settled(After(s, rest)) ==> Latest(After(s, rest).handled, t) == Latest(Sent(s), t))
  {
    var s0 := Init(garbage);
    var s := After(s0, steps);
    RunKeepsAccounted(s0, steps);
    RunKeepsWakeupDue(s0, steps);
    NoExit(s0, steps);
    WorkerSettles(s, rest);
    var u := After(s, rest);
    RunKeepsAccounted(s, rest);
    RunKeepsWakeupDue(s, rest);
    assert DoExit !in rest;
    NoExit(s, rest);
    if s.started && Settled(u) {
      SettledMeansHandled(u, t);
    }
  }

  /** After an exit request the worker ends, whatever else goes on: the join that follows returns. */
  lemma ExitEndsTheWorker(garbage: bool, steps: seq<Step>, rest: seq<Step>)
    requires Runs(Init(garbage), steps) && Runs(After(Init(garbage), steps), rest)
    requires After(Init(garbage), steps).exit
    requires forall i :: 0 <= i < |rest| ==> rest[i].Notify? || rest[i].Work?
    ensures var s := After(Init(garbage), steps);
            && |rest| <= Measure(s)
            && (Settled(After(s, rest)) ==> After(s, rest).pc == Done)
  {
    var s := After(Init(garbage), steps);
    RunKeepsAccounted(Init(garbage), steps);
    RunKeepsWakeupDue(Init(garbage), steps);
    WorkerSettles(s, rest);
    RunKeepsWakeupDue(s, rest);
  }

  /** An exit was requested, and the worker is not about to look at the pending map. */
  ghost predicate Leaving(s: Sys) {
    s.exit && !s.pc.Ready?
  }

  lemma StepLeaves(s: Sys, st: Step)
    requires Leaving(s) && Enabled(s, st)
    ensures Leaving(Do(s, st)) && Do(s, st).handled + Queue(Do(s, st)) == s.handled + Queue(s)
  {
    hide Drain;
  }

  /**
   * What is pending when an exit is requested is dropped: whoever sends or wakes, only the events taken already are
   * still handled. The one exception is a worker just between its look at the exit flag and that at the map.
   */
  lemma {:induction false} ExitDropsTheRest(s: Sys, steps: seq<Step>)
    requires Leaving(s) && Runs(s, steps)
    ensures var t := After(s, steps);
            t.handled + Queue(t) == s.handled + Queue(s) && t.batches == s.batches
    decreases |steps|
  {
    hide Leaving, Enabled, Do, Queue;
    if steps != [] {
      StepLeaves(s, steps[0]);
      StepTakesNothing(s, steps[0]);
      ExitDropsTheRest(Do(s, steps[0]), steps[1..]);
    }
  }

  lemma StepTakesNothing(s: Sys, st: Step)
    requires Leaving(s) && Enabled(s, st)
    ensures Do(s, st).batches == s.batches
  {
    hide Drain;
  }

  lemma {:induction false} NoExit(s: Sys, steps: seq<Step>)
    requires Runs(s, steps) && DoExit !in steps && !s.exit && !s.pc.Done?
    ensures !After(s, steps).exit && !After(s, steps).pc.Done?
    decreases |steps|
  {
    if steps != [] {
      assert steps == [steps[0]] + steps[1..];
      NoExit(Do(s, steps[0]), steps[1..]);
    }
  }

  /** With the start flag really false at first, nothing is handled before the start. */
  lemma NothingBeforeStart(steps: seq<Step>)
    requires Runs(Init(false), steps)
    ensures var s := After(Init(false), steps);
            !s.started ==> s.handled == [] && s.batches == [] && Queue(s) == []
  {
    RunKeepsWakeupDue(Init(false), steps);
    RunKeepsAccounted(Init(false), steps);
  }
}
