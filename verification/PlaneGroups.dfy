/** Plane groups on their way from one CRTC to another. */
module PlaneGroups {
  datatype Group = Group(
    reserved: bool,
    possibleCrtcs: bv32,
    currentCrtc: bv32,
    possibleDisplay: int,
    nextCrtc: bv32,
    nextDisplay: int)

  /** The masks have a CRTC in common. */
  predicate Meets(a: bv32, b: bv32) {
    a & b != 0
  }

  predicate Acquire(g: Group, mask: bv32) {
    !g.reserved && Meets(g.possibleCrtcs, mask) && Meets(g.currentCrtc, mask)
  }

  predicate AcquireFor(g: Group, mask: bv32, display: int) {
    Acquire(g, mask) && g.possibleDisplay == display
  }

  function SetCurrentMask(g: Group, mask: bv32): (Group, bool) {
    if !Meets(g.possibleCrtcs, mask) then (g, false) else (g.(currentCrtc := mask, nextCrtc := mask), true)
  }

  function SetCurrent(g: Group, mask: bv32, display: int): Group {
    g.(currentCrtc := mask, possibleDisplay := display, nextCrtc := mask, nextDisplay := display)
  }

  function SetNext(g: Group, mask: bv32, display: int): Group {
    var h := g.(nextCrtc := mask, nextDisplay := display);
    if h.currentCrtc == 0 || h.nextCrtc == h.currentCrtc then h.(currentCrtc := mask, possibleDisplay := display) else h
  }

  predicate WillDisable(g: Group) {
    g.nextCrtc != g.currentCrtc
  }

  function CompleteDisable(g: Group): Group {
    g.(currentCrtc := g.nextCrtc, possibleDisplay := g.nextDisplay)
  }

  function Cleared(g: Group): Group {
    g.(currentCrtc := 0, possibleDisplay := -1, nextCrtc := 0, nextDisplay := -1)
  }

  class PlaneGroup {
    const possibleCrtcs: bv32
    var reserved: bool
    var currentCrtc: bv32
    var possibleDisplay: int
    var nextCrtc: bv32
    var nextDisplay: int

    constructor (possibleCrtcs: bv32)
      ensures View() == Group(false, possibleCrtcs, 0, -1, 0, -1)
    {
      this.possibleCrtcs, reserved := possibleCrtcs, false;
      currentCrtc, possibleDisplay, nextCrtc, nextDisplay := 0, -1, 0, -1;
    }

    function View(): Group
      reads this
    {
      Group(reserved, possibleCrtcs, currentCrtc, possibleDisplay, nextCrtc, nextDisplay)
    }

    method SetCurrentCrtcMask(mask: bv32) returns (r: bool)
      modifies `currentCrtc, `nextCrtc
      ensures (View(), r) == SetCurrentMask(old(View()), mask)
    {
      hide Meets;
      if !Meets(possibleCrtcs, mask) {
        return false;
      }
      currentCrtc := mask;
      nextCrtc := mask;
      return true;
    }

    method SetCurrentCrtc(mask: bv32, display: int)
      modifies this
      ensures View() == SetCurrent(old(View()), mask, display)
    {
      currentCrtc := mask;
      possibleDisplay := display;
      nextCrtc := mask;
      nextDisplay := display;
    }

    method SetNextCrtc(mask: bv32, display: int)
      modifies this
      ensures View() == SetNext(old(View()), mask, display)
    {
      nextCrtc := mask;
      nextDisplay := display;
      if currentCrtc == 0 || nextCrtc == currentCrtc {
        currentCrtc := mask;
        possibleDisplay := nextDisplay;
      }
    }

    method Complete()
      modifies this
      ensures View() == CompleteDisable(old(View()))
    {
      currentCrtc := nextCrtc;
      possibleDisplay := nextDisplay;
    }

    method Reset()
      modifies this
      ensures View() == Cleared(old(View()))
    {
      currentCrtc := 0;
      possibleDisplay := -1;
      nextCrtc := 0;
      nextDisplay := -1;
    }
  }

  /** The mask of a CRTC's pipe; there are no more than 32. */
  function PipeMask(pipe: nat): bv32 {
    if pipe < 32 then (1 as bv32) << pipe else 0
  }

  /** Different pipes have masks with nothing in common. */
  lemma PipesAreApart(p: nat, q: nat)
    requires p < 32 && q < 32
    ensures Meets(PipeMask(p), PipeMask(q)) <==> p == q
  {
  }

  /** A mask meets that of a pipe exactly when it has the pipe's bit. */
  lemma MeetsPipe(mask: bv32, pipe: nat)
    requires pipe < 32
    ensures Meets(mask, PipeMask(pipe)) <==> (mask >> pipe) & 1 == 1
  {
  }

  lemma NothingMeetsZero(mask: bv32)
    ensures !Meets(0, mask)
  {
  }

  /** What the release of a CRTC does to a group: those on it are idle afterwards. */
  function Released(g: Group, mask: bv32): Group {
    if Acquire(g, mask) then Cleared(g) else g
  }

  lemma ClearedIsNotAcquired(g: Group, mask: bv32)
    ensures !Acquire(Cleared(g), mask)
  {
  }

  lemma ReleasedFields(g: Group, mask: bv32)
    ensures Released(g, mask)
         == if !g.reserved && Meets(g.possibleCrtcs, mask) && Meets(g.currentCrtc, mask)
            then Group(false, g.possibleCrtcs, 0, -1, 0, -1) else g
  {
    hide Meets;
  }

  /** Resets every group that is not reserved and whose possible and current masks both meet the one given. */
  method ResetGroups(groups: seq<PlaneGroup>, mask: bv32)
    modifies groups
    ensures forall g :: g in groups ==> g.View() == Released(old(g.View()), mask)
    ensures forall g :: g in groups ==>
              if !old(g.reserved) && Meets(g.possibleCrtcs, mask) && Meets(old(g.currentCrtc), mask)
              then g.View() == Group(false, g.possibleCrtcs, 0, -1, 0, -1)
              else g.View() == old(g.View())
  {
    hide Meets;
    var i := 0;
    while i < |groups|
      invariant 0 <= i <= |groups|
      invariant forall g :: g in groups[..i] ==> g.View() == Released(old(g.View()), mask)
      invariant forall g :: g in groups && g !in groups[..i] ==> g.View() == old(g.View())
    {
      var group := groups[i];
      ClearedIsNotAcquired(old(group.View()), mask);
      assert groups[..i + 1] == groups[..i] + [group];
      if Acquire(group.View(), mask) {
        group.Reset();
      }
      i := i + 1;
    }
    assert groups[..i] == groups;
    forall g | g in groups
      ensures if !old(g.reserved) && Meets(g.possibleCrtcs, mask) && Meets(old(g.currentCrtc), mask)
              then g.View() == Group(false, g.possibleCrtcs, 0, -1, 0, -1)
              else g.View() == old(g.View())
    {
      ReleasedFields(old(g.View()), mask);
    }
  }

  // ---- Offers ---------------------------------------------------------------------------------

  /** ValidatePlanes hands the group to the display on this CRTC. */
  predicate Offered(g: Group, mask: bv32, display: int) {
    AcquireFor(g, mask, display) && !WillDisable(g)
  }

  /** The groups a display gets, by position. */
  function Offers(groups: seq<Group>, mask: bv32, display: int): set<nat> {
    set i: nat | i < |groups| && Offered(groups[i], mask, display)
  }

  /** The loop that collects them. */
  method CollectOffers(groups: seq<Group>, mask: bv32, display: int) returns (chosen: seq<nat>)
    ensures forall i: nat :: i in chosen <==> i in Offers(groups, mask, display)
    ensures forall a, b :: 0 <= a < b < |chosen| ==> chosen[a] < chosen[b]
  {
    chosen := [];
    var i := 0;
    while i < |groups|
      invariant 0 <= i <= |groups|
      invariant forall k: nat :: k in chosen <==> k < i && k in Offers(groups, mask, display)
      invariant forall a, b :: 0 <= a < b < |chosen| ==> chosen[a] < chosen[b]
    {
      if AcquireFor(groups[i], mask, display) {
        if !WillDisable(groups[i]) {
          assert forall a :: 0 <= a < |chosen| ==> chosen[a] in chosen;
          chosen := chosen + [i];
        }
      }
      i := i + 1;
    }
  }

  // ---- Runs -----------------------------------------------------------------------------------

  /** `Show` is a frame that uses the group; a commit turns its planes off before `Complete` and `Reset`. */
  datatype Step = Next(mask: bv32, display: int) | Show(mask: bv32, display: int) | Complete | Reset

  /** A group, the CRTC its planes are lit on, and what was last asked for it. */
  datatype Plane = Plane(group: Group, lit: bv32, wanted: bv32, wantedDisplay: int)

  predicate Possible(p: Plane, st: Step) {
    st.Show? ==> Offered(p.group, st.mask, st.display)
  }

  function Do(p: Plane, st: Step): Plane {
    match st
    case Next(mask, display) => p.(group := SetNext(p.group, mask, display), wanted := mask, wantedDisplay := display)
    case Show(mask, _) => p.(lit := p.group.currentCrtc)
    case Complete => p.(group := CompleteDisable(p.group), lit := 0)
    case Reset => Plane(Cleared(p.group), 0, 0, -1)
  }

  function Boot(g: Group, mask: bv32, display: int): Plane {
    Plane(SetCurrent(g, mask, display), 0, mask, display)
  }

  /** What was asked for last is what comes next, the displays agree when nothing is pending, and light stays put. */
  predicate Coherent(p: Plane) {
    && p.group.nextCrtc == p.wanted && p.group.nextDisplay == p.wantedDisplay
    && (!WillDisable(p.group) ==> p.group.possibleDisplay == p.group.nextDisplay)
    && (p.lit != 0 ==> p.lit == p.group.currentCrtc)
  }

  predicate Runs(p: Plane, steps: seq<Step>)
    decreases |steps|
  {
    steps == [] || (Possible(p, steps[0]) && Runs(Do(p, steps[0]), steps[1..]))
  }

  function After(p: Plane, steps: seq<Step>): Plane
    decreases |steps|
  {
    if steps == [] then p else After(Do(p, steps[0]), steps[1..])
  }

  lemma StepStaysCoherent(p: Plane, st: Step)
    requires Coherent(p) && Possible(p, st)
    ensures Coherent(Do(p, st))
  {
    hide AcquireFor, Meets;
  }

  lemma {:induction false} RunsStayCoherent(p: Plane, steps: seq<Step>)
    requires Coherent(p) && Runs(p, steps)
    ensures Coherent(After(p, steps))
    decreases |steps|
  {
    if steps != [] {
      StepStaysCoherent(p, steps[0]);
      hide Coherent, Do, Possible;
      RunsStayCoherent(Do(p, steps[0]), steps[1..]);
    }
  }

  /** From boot: a group at rest is where it was last asked to be, and light never moves with the group. */
  lemma AtRestWhereWanted(g: Group, mask: bv32, display: int, steps: seq<Step>)
    requires Runs(Boot(g, mask, display), steps)
    ensures var p := After(Boot(g, mask, display), steps);
            && (!WillDisable(p.group) ==> p.group.currentCrtc == p.wanted && p.group.possibleDisplay == p.wantedDisplay)
            && (p.lit != 0 ==> p.lit == p.group.currentCrtc)
  {
    RunsStayCoherent(Boot(g, mask, display), steps);
  }

  /** Between two CRTCs there is always a step that turned the planes off. */
  lemma {:induction false} MovesThroughDark(p: Plane, steps: seq<Step>)
    requires Runs(p, steps) && Complete !in steps && Reset !in steps && p.group.currentCrtc != 0
    requires p.lit != 0 ==> p.lit == p.group.currentCrtc
    ensures After(p, steps).group.currentCrtc == p.group.currentCrtc
    ensures p.lit != 0 ==> After(p, steps).lit == p.lit
    decreases |steps|
  {
    if steps != [] {
      assert steps[0] in steps;
      assert forall st :: st in steps[1..] ==> st in steps;
      MovesThroughDark(Do(p, steps[0]), steps[1..]);
    }
  }

  /** No group is offered to two displays, nor to anyone while on its way. */
  lemma OffersAreDisjoint(groups: seq<Group>, mask: bv32, display: int, mask': bv32, display': int)
    requires display != display'
    ensures Offers(groups, mask, display) !! Offers(groups, mask', display')
    ensures forall i :: i in Offers(groups, mask, display) ==>
              groups[i].nextCrtc == groups[i].currentCrtc && Meets(groups[i].currentCrtc, mask)
  {
  }

  // ---- After a release ------------------------------------------------------------------------

  /** The group is elsewhere, with a move to the mask's CRTC still pending. */
  predicate Awaits(g: Group, mask: bv32) {
    !g.reserved && Meets(g.possibleCrtcs, mask) && !Meets(g.currentCrtc, mask) && Meets(g.nextCrtc, mask)
  }

  /** The mask is neither where the group is nor where it is going, or nothing for it. */
  predicate KeepsOff(g: Group, mask: bv32) {
    g.reserved || !Meets(g.possibleCrtcs, mask) || (!Meets(g.currentCrtc, mask) && !Meets(g.nextCrtc, mask))
  }

  predicate NoRequests(steps: seq<Step>) {
    forall st :: st in steps ==> !st.Next?
  }

  /** Steps without a request lead to an offer on the mask. */
  predicate OfferedBy(p: Plane, mask: bv32, steps: seq<Step>, display: int) {
    Runs(p, steps) && NoRequests(steps) && Offered(After(p, steps).group, mask, display)
  }

  lemma {:induction false} OffStaysOff(p: Plane, mask: bv32, steps: seq<Step>, display: int)
    requires KeepsOff(p.group, mask) && NoRequests(steps)
    ensures !Offered(After(p, steps).group, mask, display)
    decreases |steps|
  {
    hide Meets;
    NothingMeetsZero(mask);
    if steps != [] {
      assert steps[0] in steps;
      assert forall st :: st in steps[1..] ==> st in steps;
      assert KeepsOff(Do(p, steps[0]).group, mask);
      OffStaysOff(Do(p, steps[0]), mask, steps[1..], display);
    }
  }

  /**
   * After the release of a CRTC no group is offered on it, to any display. Without a new request one is
   * offered on it later exactly when a move to that CRTC was pending: the release forgets the groups that
   * are on the CRTC, not those on their way to it.
   */
  lemma OfferedAgainExactly(p: Plane, g: Group, mask: bv32)
    requires p.group == Released(g, mask)
    ensures forall display :: !Offered(p.group, mask, display)
    ensures (exists steps, display :: OfferedBy(p, mask, steps, display)) <==> Awaits(g, mask)
  {
    hide Meets;
    ReleasedFields(g, mask);
    NothingMeetsZero(mask);
    if Awaits(g, mask) {
      assert After(p, [Complete]) == After(Do(p, Complete), []) == Do(p, Complete);
      assert OfferedBy(p, mask, [Complete], g.nextDisplay);
    } else {
      assert KeepsOff(p.group, mask);
      forall steps, display ensures !OfferedBy(p, mask, steps, display) {
        if NoRequests(steps) {
          OffStaysOff(p, mask, steps, display);
        }
      }
    }
  }

  /**
   * The one-argument setter leaves the displays behind. After a request made to a group at rest they agree exactly
   * when the setter refuses, or the request had nothing to wait for, or it named the display already there.
   */
  lemma MaskSetterAgrees(p: Plane, asked: bv32, display: int, mask: bv32)
    requires Coherent(p) && !WillDisable(p.group)
    ensures var q := Do(p, Next(asked, display));
            var g := SetCurrentMask(q.group, mask).0;
            (!WillDisable(g) ==> g.possibleDisplay == g.nextDisplay)
            <==> || !Meets(p.group.possibleCrtcs, mask)
                 || p.group.currentCrtc == 0 || asked == p.group.currentCrtc
                 || display == p.group.possibleDisplay
  {
    hide Meets;
  }
}
