/** Software vsync: timestamps in phase with the last one, and the runs of the two workers that sleep until them. */
module VsyncPhase {
  import opened Arithmetic

  const SECOND := 1_000_000_000

  /** The machine's division: towards zero. */
  function TruncDiv(a: int, b: int): int
    requires b > 0
  {
    if a >= 0 then a / b else -((-a) / b)
  }

  function PhasedVSync(last: int, frame: int, current: int): int
    requires frame > 0
  {
    if last < 0 then current + frame else frame * (TruncDiv(current - last, frame) + 1) + last
  }

  // ---- One timestamp --------------------------------------------------------------------------

  /** How far ahead of now the timestamp is. */
  lemma PhasedIs(last: int, frame: int, current: int)
    requires frame > 0
    ensures PhasedVSync(last, frame, current) ==
            if last < 0 then current + frame
            else if last <= current then current - (current - last) % frame + frame
            else current + (last - current) % frame + frame
  {
    if last >= 0 {
      var d := TruncDiv(current - last, frame);
      assert frame * (d + 1) == frame * d + frame;
      if last <= current {
        DivMod(current - last, frame);
      } else {
        DivMod(last - current, frame);
        assert frame * -((last - current) / frame) == -(frame * ((last - current) / frame));
      }
    }
  }

  /**
   * The timestamp is in the future and less than two frames away; it is the next one of its phase exactly when the
   * last is not a broken frame ahead.
   */
  lemma PhasedIsNext(last: int, frame: int, current: int)
    requires frame > 0
    ensures var r := PhasedVSync(last, frame, current);
            && current < r < current + 2 * frame
            && (r <= current + frame <==> last < 0 || last <= current || (last - current) % frame == 0)
  {
    PhasedIs(last, frame, current);
    DivMod(current - last, frame);
    DivMod(last - current, frame);
  }

  lemma PhasedIsInPhase(last: int, frame: int, current: int)
    requires frame > 0 && last >= 0
    ensures (PhasedVSync(last, frame, current) - last) % frame == 0
  {
    Multiple(TruncDiv(current - last, frame) + 1, frame);
  }

  /** A worker that is on time advances by one frame. */
  lemma OnTimeIsOneFrame(last: int, frame: int, current: int)
    requires frame > 0 && 0 <= last <= current < last + frame
    ensures PhasedVSync(last, frame, current) == last + frame
  {
    PhasedIs(last, frame, current);
    BelowIsItself(current - last, frame);
  }

  // ---- The vsync worker -----------------------------------------------------------------------

  class VSyncWorker {
    var enabled: bool
    var last: int

    constructor ()
      ensures !enabled && last == -1
    {
      enabled, last := false, -1;
    }

    method VSyncControl(on: bool)
      modifies this
      ensures enabled == on && last == -1
    {
      enabled, last := on, -1;
    }

    /** Sleeps, in seconds and nanoseconds, until the phased timestamp. */
    method SyntheticWaitVBlank(frame: int, current: int) returns (timestamp: int)
      requires frame > 0 && current >= 0
      ensures timestamp == PhasedVSync(last, frame, current)
    {
      var phased := PhasedVSync(last, frame, current);
      PhasedIsNext(last, frame, current);
      var sec := TruncDiv(phased, SECOND);
      var nsec := phased - sec * SECOND;
      assert 0 <= nsec < SECOND;
      timestamp := sec * SECOND + nsec;
    }

    /** The end of a pass; the phase is kept only while vsync is enabled. */
    method Deliver(timestamp: int) returns (called: bool)
      modifies `last
      ensures called == enabled
      ensures last == if enabled then timestamp else old(last)
    {
      if !enabled {
        return false;
      }
      last := timestamp;
      return true;
    }
  }

  /**
   * What may happen: a pass that computes its timestamp, sleeps until it while vsync may be switched any number of
   * times, and delivers it; the same with a timestamp from the hardware; a switch between two passes.
   */
  datatype Event =
    | Pass(frame: int, current: int, switches: seq<bool>)
    | Vblank(timestamp: int, switches: seq<bool>)
    | Control(on: bool)

  /** `delivered` are all timestamps handed out, `woken` is the last one slept until, handed out or not. */
  datatype Vsync = Vsync(enabled: bool, last: int, delivered: seq<int>, woken: int)

  predicate Sane(e: Event) {
    && (e.Pass? ==> e.frame > 0 && e.current >= 0)
    && (e.Vblank? ==> e.timestamp >= 0)
  }

  function Switched(s: Vsync, switches: seq<bool>): Vsync {
    if switches == [] then s else s.(enabled := switches[|switches| - 1], last := -1)
  }

  /** A timestamp fetched before the switches is delivered after them, and then keeps the phase it was given. */
  function Delivered(s: Vsync, t: int, switches: seq<bool>): Vsync {
    var u := Switched(s, switches).(woken := t);
    if u.enabled then u.(last := t, delivered := u.delivered + [t]) else u
  }

  function Next(s: Vsync, e: Event): Vsync
    requires Sane(e)
  {
    match e
    case Control(on) => s.(enabled := on, last := -1)
    case Pass(frame, current, switches) => Delivered(s, PhasedVSync(s.last, frame, current), switches)
    case Vblank(t, switches) => Delivered(s, t, switches)
  }

  predicate AllSane(es: seq<Event>) {
    forall i :: 0 <= i < |es| ==> Sane(es[i])
  }

  function Run(s: Vsync, es: seq<Event>): Vsync
    requires AllSane(es)
  {
    if es == [] then s else Next(Run(s, es[..|es| - 1]), es[|es| - 1])
  }

  /**
   * A pass begins no earlier than the timestamp the one before it slept until; of the hardware a new one is assumed.
   */
  predicate Clocked(s: Vsync, e: Event) {
    && (e.Pass? ==> e.current >= s.woken)
    && (e.Vblank? ==> e.timestamp > s.woken)
  }

  predicate ClockedRun(s: Vsync, es: seq<Event>)
    requires AllSane(es)
  {
    forall i :: 0 <= i < |es| ==> Clocked(Run(s, es[..i]), es[i])
  }

  predicate Increasing(ts: seq<int>) {
    forall i, j :: 0 <= i < j < |ts| ==> ts[i] < ts[j]
  }

  /** The delivered timestamps increase and the last one is no later than what was slept until. */
  predicate InOrder(s: Vsync) {
    Increasing(s.delivered) && (s.delivered != [] ==> s.delivered[|s.delivered| - 1] <= s.woken)
  }

  lemma PassInOrder(s: Vsync, e: Event)
    requires Sane(e) && Clocked(s, e) && InOrder(s)
    ensures InOrder(Next(s, e))
  {
    if e.Pass? {
      PhasedIsNext(s.last, e.frame, e.current);
    }
  }

  lemma ClockedPrefix(s: Vsync, es: seq<Event>)
    requires AllSane(es) && ClockedRun(s, es) && es != []
    ensures AllSane(es[..|es| - 1]) && ClockedRun(s, es[..|es| - 1]) && Clocked(Run(s, es[..|es| - 1]), es[|es| - 1])
  {
    var n := |es| - 1;
    forall i | 0 <= i < n ensures Clocked(Run(s, es[..n][..i]), es[..n][i]) {
      assert es[..n][..i] == es[..i];
    }
  }

  /** Whatever the rates, whenever vsync is switched, and among whatever new hardware timestamps: they only increase. */
  lemma {:induction false} TimestampsIncrease(s: Vsync, es: seq<Event>)
    requires AllSane(es) && ClockedRun(s, es) && InOrder(s)
    ensures InOrder(Run(s, es))
  {
    hide InOrder, Next;
    if es != [] {
      var n := |es| - 1;
      ClockedPrefix(s, es);
      TimestampsIncrease(s, es[..n]);
      PassInOrder(Run(s, es[..n]), es[n]);
    }
  }

  /** Software vsyncs at one rate that all end enabled, whatever the switches during their sleep. */
  predicate OneRate(es: seq<Event>, frame: int) {
    forall i :: 0 <= i < |es| ==>
      es[i].Pass? && es[i].frame == frame && (es[i].switches != [] ==> es[i].switches[|es[i].switches| - 1])
  }

  /** They all lie on the grid through the timestamp they started from: a switch during a sleep keeps the phase. */
  lemma {:induction false} TimestampsOnGrid(s: Vsync, es: seq<Event>, frame: int)
    requires frame > 0 && s.enabled && s.last >= 0 && OneRate(es, frame) && AllSane(es)
    ensures var t := Run(s, es);
            && t.enabled && t.last >= 0 && (t.last - s.last) % frame == 0
            && |t.delivered| == |s.delivered| + |es| && t.delivered[..|s.delivered|] == s.delivered
            && forall k :: |s.delivered| <= k < |t.delivered| ==> (t.delivered[k] - s.last) % frame == 0
  {
    if es != [] {
      var n := |es| - 1;
      TimestampsOnGrid(s, es[..n], frame);
      var u := Run(s, es[..n]);
      PhasedIsNext(u.last, frame, es[n].current);
      PhasedIsInPhase(u.last, frame, es[n].current);
      SumOfMultiples(PhasedVSync(u.last, frame, es[n].current) - u.last, u.last - s.last, frame);
    }
  }

  /** A pass delivers its timestamp, and keeps it as its phase, exactly when vsync is enabled at its end. */
  lemma DeliveredWhenEnabled(s: Vsync, frame: int, current: int, switches: seq<bool>)
    requires frame > 0 && current >= 0
    ensures var t := Next(s, Pass(frame, current, switches));
            var ts := PhasedVSync(s.last, frame, current);
            && t.enabled == (if switches == [] then s.enabled else switches[|switches| - 1])
            && t.delivered == s.delivered + (if t.enabled then [ts] else [])
            && t.last == (if t.enabled then ts else if switches == [] then s.last else -1)
            && t.woken == ts
  {
  }

  /** A switch between two passes gives the phase up: the next timestamp is one frame after now. */
  lemma SwitchStartsOver(s: Vsync, on: bool, frame: int, current: int)
    requires frame > 0 && current >= 0
    ensures Next(Next(s, Control(true)), Pass(frame, current, [])).delivered == s.delivered + [current + frame]
    ensures Next(s, Pass(frame, current, [on, true])).last == PhasedVSync(s.last, frame, current)
  {
  }

  // ---- The invalidate worker ------------------------------------------------------------------

  class InvalidateWorker {
    var refresh: nat
    var count: int
    var last: int

    constructor ()
      ensures refresh == 0 && count == 0 && last == -1
    {
      refresh, count, last := 0, 0, -1;
    }

    method InvalidateControl(refresh: nat, count: int)
      modifies this
      ensures this.refresh == refresh && this.count == count && last == old(last)
    {
      if this.refresh == refresh && this.count == count {
        return;
      }
      this.refresh, this.count := refresh, count;
    }

    /**
     * One pass, after a wait that any wake-up ends. It divides by the rate and, in phase, by the frame length; a
     * positive count is used up, a negative one is not.
     */
    method Pass(current: int) returns (r: Outcome)
      requires current >= 0
      modifies `count, `last
      ensures r == Fault <==> old(refresh) == 0 || (old(refresh) > SECOND && old(last) >= 0)
      ensures r == Fault ==> count == old(count) && last == old(last)
      ensures r != Fault ==>
                && r == Done(old(count) != 0) && count == Used(old(count))
                && last == if old(refresh) > SECOND then current
                  else PhasedVSync(old(last), SECOND / old(refresh), current)
    {
      if refresh == 0 {
        return Fault;
      }
      var frame := SECOND / refresh;
      if refresh > SECOND {
        assert frame == 0 by { BelowIsItself(SECOND, refresh); }
        if last >= 0 {
          return Fault;
        }
        last := current + frame;
      } else {
        assert frame > 0 by { AtLeastOne(SECOND, refresh); }
        last := PhasedVSync(last, frame, current);
      }
      r := Done(count > 0 || count < 0);
      if count > 0 {
        count := count - 1;
      }
    }
  }

  /** A pass ends with or without a callback, or in a division by zero. */
  datatype Outcome = Done(called: bool) | Fault

  lemma AtLeastOne(a: int, b: int)
    requires 0 < b <= a
    ensures a / b >= 1
  {
    DivMod(a, b);
    assert b * (a / b) > 0;
    CancelStrictly(b, 0, a / b);
  }

  function Used(count: int): int {
    if count > 0 then count - 1 else count
  }

  /** The callbacks of `passes` passes in a row. */
  function Calls(count: int, passes: nat): nat {
    if passes == 0 then 0 else (if count != 0 then 1 else 0) + Calls(Used(count), passes - 1)
  }

  /** A request for `count` refreshes gets exactly that many, a negative one a refresh in every pass. */
  lemma {:induction false} RequestedRefreshes(count: int, passes: nat)
    ensures Calls(count, passes) == if 0 <= count < passes then count else passes
  {
    if passes > 0 {
      RequestedRefreshes(Used(count), passes - 1);
    }
  }
}
