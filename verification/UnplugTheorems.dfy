/** Unplugging the members of a mirror group, in any order and with hotplug states running ahead of events. */
module UnplugTheorems {
  import opened DisplayModes
  import opened DrmResources
  import opened CrtcAllocation
  import opened AllocationTheorems
  import opened BindTheorems

  /** A member's cable is pulled (its hotplug state changes), and later its unplug event is handled. */
  datatype Event = Down(display: int) | Handled(display: int)

  function SetPlugged(s: State, k: DrmConnector, plugged: bool): State
    requires k in s.attr
  {
    SetAttributes(s, k, s.attr[k].(plugged := plugged))
  }

  function SetConnected(s: State, k: DrmConnector, connected: bool): State
    requires k in s.attr
  {
    SetAttributes(s, k, s.attr[k].(connected := connected))
  }

  /** After an external left: its primary goes too when nobody is left, its cable is out and its id is positive. */
  ghost function FollowUp(s: State, id: int): (t: State)
    requires WellFormed(s)
    ensures Keeps(s, t)
  {
    OwnerFinds(s, id);
    ReleaseShape(s, id);
    var p := Owner(s, id);
    if id > 0 && p != null && !s.attr[p].plugged && !s.mirror[p].mode then Release(s, id).0 else s
  }

  /**
   * The unplug branch of the hotplug event: a primary with members left only drops its connector; the last
   * external also releases a primary whose cable is already out, but only one with a positive id.
   */
  ghost function HandleUnplug(s: State, d: int): (t: State)
    requires WellFormed(s)
    ensures Keeps(s, t)
  {
    OwnerFinds(s, d);
    var k := Owner(s, d);
    if k == null then s
    else
      AttributesShape(s, k, s.attr[k].(connected := false));
      var s1 := SetConnected(s, k, false);
      ReleaseShape(s1, k.display);
      var s2 := Release(s1, k.display).0;
      if s.mirror[k].IsExternal() then FollowUp(s2, s.mirror[k].PrimaryId()) else s2
  }

  lemma FollowUpKeepsAttributes(s: State, id: int)
    requires WellFormed(s)
    ensures FollowUp(s, id).attr == s.attr
  {
    hide WellFormed, Release, Owner;
    OwnerFinds(s, id);
    ReleaseShape(s, id);
  }

  /** The unplugged connector is disconnected, nobody else is, and it cannot be bound. */
  lemma UnpluggedCannotBind(s: State, d: int)
    requires WellFormed(s) && Owner(s, d) != null
    ensures Owner(s, d) in s.attr
    ensures var k, t := Owner(s, d), HandleUnplug(s, d);
            && t.attr == s.attr[k := s.attr[k].(connected := false)]
            && Bind(t, d) == (t, -22)
  {
    hide WellFormed, Release, FollowUp, Bind;
    OwnerFinds(s, d);
    var k := Owner(s, d);
    Recorded(s, k);
    AttributesShape(s, k, s.attr[k].(connected := false));
    var s1 := SetConnected(s, k, false);
    ReleaseShape(s1, k.display);
    FollowUpKeepsAttributes(Release(s1, k.display).0, s.mirror[k].PrimaryId());
    BindIs(HandleUnplug(s, d), d);
  }

  ghost function Happen(s: State, ev: Event): (t: State)
    requires WellFormed(s)
    ensures Keeps(s, t)
  {
    match ev
    case Down(d) =>
      OwnerFinds(s, d);
      var k := Owner(s, d);
      if k == null then s else AttributesShape(s, k, s.attr[k].(plugged := false)); SetPlugged(s, k, false)
    case Handled(d) => HandleUnplug(s, d)
  }

  ghost function Play(s: State, evs: seq<Event>): (t: State)
    requires WellFormed(s)
    ensures Keeps(s, t)
    decreases |evs|
  {
    if evs == [] then s else Happen(Play(s, evs[..|evs| - 1]), evs[|evs| - 1])
  }

  /** Connector `e` is attached to primary `p` on CRTC `c`. */
  ghost predicate Attached(s: State, e: DrmConnector, p: DrmConnector, c: DrmCrtc) {
    && e in s.mirror && e in s.encoderOf
    && s.mirror[e].IsExternal() && s.mirror[e].primaryId == p.display
    && s.encoderOf[e] != null && s.encoderOf[e] in s.crtcOf && s.crtcOf[s.encoderOf[e]] == c
  }

  /** The group of `p` on `c` with the externals `left`; `freed` once the CRTC has been given up. */
  ghost predicate Group(s: State, p: DrmConnector, c: DrmCrtc, left: set<int>, down: bool, freed: bool) {
    && p in s.board.conns && p in s.mirror && p in s.encoderOf && p in s.attr && c in s.display
    && p.display !in left
    && (forall e :: e in s.board.conns && e.display in left ==> Attached(s, e, p, c))
    && (forall d :: d in left ==> Known(s, d))
    && s.mirror[p].displays == left
    && (if left == {} then !s.mirror[p].mode && !s.mirror[p].primary
        else s.mirror[p].mode && s.mirror[p].primary)
    && s.attr[p].plugged == !down
    && (if freed then left == {} && s.encoderOf[p] == null && s.display[c] == -1
        else
          && s.encoderOf[p] != null && s.encoderOf[p] in s.crtcOf && s.crtcOf[s.encoderOf[p]] == c
          && s.display[c] == p.display)
  }

  ghost predicate Known(s: State, d: int) {
    exists e :: e in s.board.conns && e.display == d
  }

  lemma OwnerOf(s: State, k: DrmConnector)
    requires WellFormed(s) && k in s.board.conns
    ensures Owner(s, k.display) == k && 0 <= k.display < 16
    ensures k in s.mirror && k in s.encoderOf && k in s.attr
  {
    OwnerFinds(s, k.display);
  }

  lemma ExternalRelease(s: State, e: DrmConnector, p: DrmConnector, c: DrmCrtc)
    requires WellFormed(s) && p in s.board.conns && e in s.board.conns && e != p && Attached(s, e, p, c)
    ensures Keeps(s, Release(s, e.display).0) && p in s.mirror && e in s.mirror
    ensures Release(s, e.display).0
         == s.(encoderOf := s.encoderOf[e := null],
               mirror := s.mirror[e := s.mirror[e].(mode := false)][p := DisableMirror(s.mirror[p], e.display)])
  {
    OwnerOf(s, e);
    OwnerOf(s, p);
    ReleaseShape(s, e.display);
    ReleaseMirrorShape(s, e.display, e);
    hide ValidBoard, PointersOnBoard, Release, ReleaseMirror;
  }

  /** A group survives changes that leave its members' records alone. */
  lemma GroupStays(s: State, t: State, p: DrmConnector, c: DrmCrtc, left: set<int>, down: bool, freed: bool,
      down': bool)
    requires Group(s, p, c, left, down, freed) && Keeps(s, t)
    requires t.display == s.display && t.crtcOf == s.crtcOf && t.encoderOf == s.encoderOf && t.mirror == s.mirror
    requires t.attr[p].plugged == !down'
    ensures Group(t, p, c, left, down', freed)
  {
    hide WellFormed;
    forall d | d in left ensures Known(t, d) {
      assert Known(s, d);
    }
  }

  /** Releasing the primary frees the CRTC exactly when nobody mirrors it any more. */
  lemma PrimaryRelease(s: State, p: DrmConnector, c: DrmCrtc, left: set<int>, down: bool, freed: bool)
    requires WellFormed(s) && Group(s, p, c, left, down, freed)
    ensures Keeps(s, Release(s, p.display).0) && Group(Release(s, p.display).0, p, c, left, down, freed || left == {})
  {
    hide ValidBoard, PointersOnBoard, Release, ReleaseMirror;
    OwnerOf(s, p);
    ReleaseShape(s, p.display);
    ReleaseMirrorShape(s, p.display, p);
    var t := Release(s, p.display).0;
    assert left - {p.display} == left;
    if left != {} {
      assert s.mirror[p := DisableMirror(s.mirror[p], p.display)] == s.mirror;
      GroupStays(s, t, p, c, left, down, freed, down);
    }
  }

  lemma PrimaryHandled(s: State, p: DrmConnector, c: DrmCrtc, left: set<int>, down: bool, freed: bool)
    requires WellFormed(s) && Group(s, p, c, left, down, freed)
    ensures Group(HandleUnplug(s, p.display), p, c, left, down, freed || left == {})
  {
    OwnerOf(s, p);
    var s1 := SetConnected(s, p, false);
    AttributesShape(s, p, s.attr[p].(connected := false));
    GroupStays(s, s1, p, c, left, down, freed, down);
    PrimaryRelease(s1, p, c, left, down, freed);
    assert HandleUnplug(s, p.display) == Release(s1, p.display).0;
    hide WellFormed, Release, HandleUnplug;
  }

  lemma ExternalDetached(s: State, t: State, p: DrmConnector, c: DrmCrtc, left: set<int>, down: bool, e: DrmConnector)
    requires WellFormed(s) && Group(s, p, c, left, down, false) && e in s.board.conns && e.display in left
    requires Keeps(s, t) && t.display == s.display && t.crtcOf == s.crtcOf && t.attr[p].plugged == s.attr[p].plugged
    requires t.encoderOf == s.encoderOf[e := null]
    requires e in s.mirror
    requires t.mirror == s.mirror[e := s.mirror[e].(mode := false)][p := DisableMirror(s.mirror[p], e.display)]
    ensures Group(t, p, c, left - {e.display}, down, false)
  {
    assert forall l :: l in s.board.conns && l.display == e.display ==> l == e;
    hide ValidBoard, PointersOnBoard;
    forall d | d in left - {e.display} ensures Known(t, d) {
      assert Known(s, d);
    }
    forall l | l in t.board.conns && l.display in left - {e.display} ensures Attached(t, l, p, c) {
      assert Attached(s, l, p, c);
    }
  }

  lemma FollowUpGroup(s: State, p: DrmConnector, c: DrmCrtc, left: set<int>, down: bool)
    requires WellFormed(s) && Group(s, p, c, left, down, false)
    ensures Group(FollowUp(s, p.display), p, c, left, down, left == {} && down && p.display > 0)
  {
    OwnerOf(s, p);
    PrimaryRelease(s, p, c, left, down, false);
    hide WellFormed, Release;
  }

  lemma ExternalHandled(s: State, p: DrmConnector, c: DrmCrtc, left: set<int>, down: bool, d: int)
    requires WellFormed(s) && Group(s, p, c, left, down, false) && d in left
    ensures Group(HandleUnplug(s, d), p, c, left - {d}, down, left - {d} == {} && down && p.display > 0)
  {
    assert Known(s, d);
    var e :| e in s.board.conns && e.display == d;
    assert Attached(s, e, p, c);
    OwnerOf(s, e);
    OwnerOf(s, p);
    var s1 := SetConnected(s, e, false);
    AttributesShape(s, e, s.attr[e].(connected := false));
    ExternalRelease(s1, e, p, c);
    var s2 := Release(s1, d).0;
    hide WellFormed, Release, FollowUp;
    ExternalDetached(s, s2, p, c, left, down, e);
    FollowUpGroup(s2, p, c, left - {d}, down);
    assert HandleUnplug(s, d) == FollowUp(s2, p.display);
  }

  lemma CablePulled(s: State, p: DrmConnector, c: DrmCrtc, left: set<int>, down: bool, freed: bool, d: int)
    requires WellFormed(s) && Group(s, p, c, left, down, freed)
    ensures Group(Happen(s, Down(d)), p, c, left, down || MaskSplit(d) == p.display, freed)
  {
    OwnerFinds(s, d);
    OwnerOf(s, p);
    var t := Happen(s, Down(d));
    GroupStays(s, t, p, c, left, down, freed, down || MaskSplit(d) == p.display);
    hide WellFormed, Group;
  }

  // ---- Every order ----------------------------------------------------------------------------

  function Left(externals: set<int>, evs: seq<Event>): set<int> {
    set d | d in externals && Handled(d) !in evs
  }

  /** Only members are unplugged, each event once and after its cable. */
  predicate Orderly(members: set<int>, evs: seq<Event>) {
    && (forall i :: 0 <= i < |evs| ==> evs[i].display in members)
    && (forall i, j :: 0 <= i < j < |evs| ==> evs[i] != evs[j])
    && (forall i :: 0 <= i < |evs| && evs[i].Handled? ==> Down(evs[i].display) in evs[..i])
  }

  /**
   * Event `i` frees the CRTC: no external is left after it, and it either is the primary's own unplug or
   * takes the last external while the primary, with a positive id, has its cable out already.
   */
  predicate Frees(p: int, externals: set<int>, evs: seq<Event>, i: nat)
    requires i < |evs|
  {
    && evs[i].Handled?
    && Left(externals, evs[..i + 1]) == {}
    && (evs[i].display == p || (p > 0 && Down(p) in evs[..i]))
  }

  predicate Freed(p: int, externals: set<int>, evs: seq<Event>) {
    exists i :: 0 <= i < |evs| && Frees(p, externals, evs, i)
  }

  lemma FreedGrows(p: int, externals: set<int>, evs: seq<Event>)
    requires evs != []
    ensures var n := |evs| - 1;
            Freed(p, externals, evs) <==> Freed(p, externals, evs[..n]) || Frees(p, externals, evs, n)
  {
    var n := |evs| - 1;
    forall i | 0 <= i < n ensures Frees(p, externals, evs, i) <==> Frees(p, externals, evs[..n], i) {
      assert evs[..n][..i + 1] == evs[..i + 1];
      assert evs[..n][..i] == evs[..i];
    }
  }

  lemma LeftShrinks(externals: set<int>, evs: seq<Event>)
    requires evs != []
    ensures var n := |evs| - 1;
            Left(externals, evs)
            == if evs[n].Handled? then Left(externals, evs[..n]) - {evs[n].display} else Left(externals, evs[..n])
  {
    var n := |evs| - 1;
    assert evs == evs[..n] + [evs[n]];
  }

  lemma GroupFacts(t: State, p: DrmConnector, c: DrmCrtc, left: set<int>, down: bool, freed: bool)
    requires Group(t, p, c, left, down, freed)
    ensures (freed ==> left == {}) && p.display !in left
  {
  }

  /** One event of an orderly run, given what the run did to the group so far. */
  lemma EventStep(t: State, p: DrmConnector, c: DrmCrtc, left: set<int>, down: bool, freed: bool, ev: Event)
    requires WellFormed(t) && Group(t, p, c, left, down, freed)
    requires 0 <= ev.display < 16
    requires ev.Handled? ==> ev.display == p.display || ev.display in left
    ensures var left' := if ev.Handled? then left - {ev.display} else left;
            Group(Happen(t, ev), p, c, left', down || ev == Down(p.display),
                  freed || (ev.Handled? && left' == {} && (ev.display == p.display || (p.display > 0 && down))))
  {
    hide WellFormed, Group, HandleUnplug;
    if ev.Down? {
      CablePulled(t, p, c, left, down, freed, ev.display);
    } else if ev.display == p.display {
      PrimaryHandled(t, p, c, left, down, freed);
      GroupFacts(t, p, c, left, down, freed);
      assert left - {p.display} == left;
    } else {
      GroupFacts(t, p, c, left, down, freed);
      ExternalHandled(t, p, c, left, down, ev.display);
    }
  }

  lemma OrderlyPrefix(members: set<int>, evs: seq<Event>)
    requires evs != [] && Orderly(members, evs)
    ensures var n := |evs| - 1;
            && Orderly(members, evs[..n])
            && evs[n].display in members && evs[n] !in evs[..n]
            && (evs[n].Handled? ==> Down(evs[n].display) in evs[..n])
  {
    var n := |evs| - 1;
    forall i | 0 <= i < n && evs[..n][i].Handled? ensures Down(evs[..n][i].display) in evs[..n][..i] {
      assert evs[..n][..i] == evs[..i];
    }
  }

  ghost predicate GroupAfter(s: State, p: DrmConnector, c: DrmCrtc, externals: set<int>, evs: seq<Event>)
    requires WellFormed(s)
  {
    Group(Play(s, evs), p, c, Left(externals, evs), Down(p.display) in evs, Freed(p.display, externals, evs))
  }

  lemma GroupAfterEvent(s: State, p: DrmConnector, c: DrmCrtc, externals: set<int>, rest: seq<Event>, ev: Event)
    requires WellFormed(s) && GroupAfter(s, p, c, externals, rest)
    requires 0 <= ev.display < 16
    requires ev.Handled? ==> ev.display == p.display || ev.display in Left(externals, rest)
    ensures GroupAfter(s, p, c, externals, rest + [ev])
  {
    hide WellFormed, Group, Happen;
    var evs := rest + [ev];
    assert evs[..|evs| - 1] == rest && evs[..|rest| + 1] == evs;
    FreedGrows(p.display, externals, evs);
    LeftShrinks(externals, evs);
    var left, down, freed := Left(externals, rest), Down(p.display) in rest, Freed(p.display, externals, rest);
    EventStep(Play(s, rest), p, c, left, down, freed, ev);
    assert Play(s, evs) == Happen(Play(s, rest), ev);
  }

  lemma GroupDisplay(s: State, p: DrmConnector, c: DrmCrtc, left: set<int>, down: bool, freed: bool)
    requires Group(s, p, c, left, down, freed)
    ensures c in s.display && s.display[c] == if freed then -1 else p.display
  {
  }

  /**
   * Whatever the order of a group's unplug events, and however far the hotplug states run ahead, the shared
   * CRTC keeps the primary's display until a freeing event happens and is free from then on.
   */
  lemma {:induction false} UnplugInAnyOrder(s: State, p: DrmConnector, c: DrmCrtc, externals: set<int>, evs: seq<Event>)
    requires WellFormed(s) && externals != {} && Group(s, p, c, externals, false, false)
    requires 0 <= p.display < 16 && forall d :: d in externals ==> 0 <= d < 16
    requires Orderly(externals + {p.display}, evs)
    ensures GroupAfter(s, p, c, externals, evs)
    ensures c in Play(s, evs).display
    ensures Play(s, evs).display[c] == if Freed(p.display, externals, evs) then -1 else p.display
    decreases |evs|
  {
    hide WellFormed, Group, Happen, Freed, Orderly;
    if evs == [] {
      assert Left(externals, evs) == externals;
      NothingFreed(p.display, externals);
    } else {
      var n := |evs| - 1;
      assert evs == evs[..n] + [evs[n]];
      OrderlyPrefix(externals + {p.display}, evs);
      UnplugInAnyOrder(s, p, c, externals, evs[..n]);
      GroupAfterEvent(s, p, c, externals, evs[..n], evs[n]);
    }
    GroupDisplay(Play(s, evs), p, c, Left(externals, evs), Down(p.display) in evs, Freed(p.display, externals, evs));
  }

  lemma NothingFreed(p: int, externals: set<int>)
    ensures !Freed(p, externals, [])
  {
  }

  lemma PrimaryLastFrees(p: int, externals: set<int>, evs: seq<Event>, last: nat)
    requires p !in externals && last < |evs| && evs[last] == Handled(p)
    ensures Left(externals, evs[..last + 1]) == Left(externals, evs[..last])
    ensures Left(externals, evs[..last]) == {} ==> Freed(p, externals, evs)
  {
    assert evs[..last + 1] == evs[..last] + [Handled(p)];
    if Left(externals, evs[..last]) == {} {
      assert Frees(p, externals, evs, last);
    }
  }

  lemma LastExternalFrees(p: int, externals: set<int>, evs: seq<Event>, last: nat)
    requires p > 0 && externals != {} && forall d :: d in externals ==> Handled(d) in evs
    requires last < |evs| && Down(p) in evs[..last] && Left(externals, evs[..last]) != {}
    ensures Freed(p, externals, evs)
  {
    var m := LastExternal(externals, evs);
    assert Left(externals, evs[..if m < last then last else 0]) <= Left(externals, evs[..m + 1]) || last <= m;
    assert last <= m;
    assert evs[..last] == evs[..m][..last];
    assert Frees(p, externals, evs, m);
  }

  /** Once everybody's unplug was handled, the CRTC is free unless the primary has id 0 and left too early. */
  lemma GroupFinallyFreed(p: int, externals: set<int>, evs: seq<Event>, last: nat)
    requires externals != {} && p !in externals && Orderly(externals + {p}, evs)
    requires forall d :: d in externals + {p} ==> Handled(d) in evs
    requires last < |evs| && evs[last] == Handled(p)
    ensures Freed(p, externals, evs) <==> p > 0 || Left(externals, evs[..last]) == {}
  {
    PrimaryLastFrees(p, externals, evs, last);
    if Left(externals, evs[..last]) != {} {
      if p > 0 {
        assert forall d :: d in externals ==> d in externals + {p};
        LastExternalFrees(p, externals, evs, last);
      } else {
        forall i | 0 <= i < |evs| ensures !Frees(p, externals, evs, i) {
          assert evs[i] == Handled(p) ==> i == last;
        }
      }
    }
  }

  /** A primary with id 0 that leaves before its external: everybody is gone and the CRTC still shows it. */
  lemma PrimaryZeroKeepsTheCrtc(s: State, p: DrmConnector, c: DrmCrtc)
    requires WellFormed(s) && p.display == 0 && Group(s, p, c, {1}, false, false)
    ensures var evs := [Down(0), Down(1), Handled(0), Handled(1)];
            && Orderly({1} + {0}, evs) && !Freed(0, {1}, evs)
            && c in Play(s, evs).display && Play(s, evs).display[c] == 0
  {
    var evs := [Down(0), Down(1), Handled(0), Handled(1)];
    assert evs[..2] == [Down(0), Down(1)] && evs[..3] == [Down(0), Down(1), Handled(0)];
    assert Handled(1) !in evs[..3] && 1 in Left({1}, evs[..3]);
    hide WellFormed, Group, Play;
    UnplugInAnyOrder(s, p, c, {1}, evs);
  }

  /** The position of the last external's unplug. */
  lemma {:induction false} LastExternal(externals: set<int>, evs: seq<Event>) returns (m: nat)
    requires externals != {} && forall d :: d in externals ==> Handled(d) in evs
    ensures m < |evs| && evs[m].Handled? && evs[m].display in externals && Left(externals, evs[..m + 1]) == {}
    decreases |evs|
  {
    var d :| d in externals;
    assert Handled(d) in evs;
    var n := |evs| - 1;
    assert evs == evs[..n] + [evs[n]];
    if forall x :: x in externals ==> Handled(x) in evs[..n] {
      m := LastExternal(externals, evs[..n]);
      assert evs[..n][..m + 1] == evs[..m + 1];
    } else {
      m := n;
      assert evs[..n + 1] == evs;
    }
  }
}
