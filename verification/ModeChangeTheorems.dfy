/** A mirror primary changes its mode: every external leaves the group before the new mode is set. */
module ModeChangeTheorems {
  import opened DisplayModes
  import opened DrmResources
  import opened CrtcAllocation
  import opened UnplugTheorems

  predicate Lists(members: seq<int>, ids: set<int>) {
    && (forall i :: 0 <= i < |members| ==> members[i] in ids)
    && (forall d :: d in ids ==> d in members)
    && (forall i, j :: 0 <= i < j < |members| ==> members[i] != members[j])
  }

  lemma ListsTail(members: seq<int>, ids: set<int>)
    requires Lists(members, ids)
    ensures members == [] <==> ids == {}
    ensures members != [] ==> members[0] in ids && Lists(members[1..], ids - {members[0]})
  {
    if members == [] {
      forall d | d in ids ensures false {
      }
    } else {
      var d, rest := members[0], members[1..];
      assert members == [d] + rest;
      forall i | 0 <= i < |rest| ensures rest[i] in ids - {d} {
        assert rest[i] == members[i + 1];
      }
      forall x | x in ids - {d} ensures x in rest {
        assert x in members;
      }
    }
  }

  ghost predicate Detached(t: State, e: DrmConnector) {
    e in t.mirror && e in t.encoderOf && !t.mirror[e].mode && t.encoderOf[e] == null
  }

  /** The records of every connector outside the group. */
  ghost predicate OthersKeep(s: State, t: State, p: DrmConnector, ids: set<int>) {
    forall l :: l in s.board.conns && l != p && l.display !in ids ==>
                  l in s.mirror && l in s.encoderOf && l in t.mirror && l in t.encoderOf
                  && t.mirror[l] == s.mirror[l] && t.encoderOf[l] == s.encoderOf[l]
  }

  lemma MemberSentAway(s: State, p: DrmConnector, c: DrmCrtc, left: set<int>, down: bool, e: DrmConnector)
    requires WellFormed(s) && Group(s, p, c, left, down, false) && e in s.board.conns && e.display in left
    ensures var t := SendAway(s, e.display);
            && Group(t, p, c, left - {e.display}, down, false)
            && Detached(t, e) && OthersKeep(s, t, p, {e.display})
            && t.display == s.display && t.attr == s.attr && t.crtcOf == s.crtcOf
            && p in s.encoderOf && p in t.encoderOf && t.encoderOf[p] == s.encoderOf[p]
  {
    hide WellFormed, ReleaseMirror, SendAway, Known, Owner;
    assert Attached(s, e, p, c) && e != p;
    OwnerOf(s, e);
    OwnerOf(s, p);
    ReleaseMirrorShape(s, e.display, e);
    SendAwayIs(s, e);
    var t := SendAway(s, e.display);
    forall l | l in s.board.conns && l != p && l.display != e.display
      ensures l in s.mirror && l in s.encoderOf && l in t.mirror && l in t.encoderOf
    {
      Recorded(s, l);
      Recorded(t, l);
    }
    ExternalDetached(s, t, p, c, left, down, e);
  }

  lemma SendAwayIs(s: State, e: DrmConnector)
    requires WellFormed(s) && e in s.board.conns && Driven(s, e)
    ensures SendAway(s, e.display) == ReleaseMirror(s, e.display, e)
  {
    hide WellFormed, ReleaseMirror;
    OwnerOf(s, e);
  }

  /**
   * The externals leave the group in any order: afterwards nobody mirrors the primary, it still drives the same
   * CRTC under its own display with its new mode yet to be set, every external is unbound, and no other
   * connector was touched.
   */
  lemma {:induction false} ModeChangeDissolvesTheGroup(s: State, p: DrmConnector, c: DrmCrtc, left: set<int>,
      down: bool, members: seq<int>)
    requires WellFormed(s) && Group(s, p, c, left, down, false) && Lists(members, left)
    ensures var t := Dissolve(s, members);
            && Group(t, p, c, {}, down, false)
            && (forall e :: e in s.board.conns && e.display in left ==> Detached(t, e))
            && OthersKeep(s, t, p, left)
            && t.display == s.display && t.attr == s.attr && t.crtcOf == s.crtcOf
            && p in s.encoderOf && p in t.encoderOf && t.encoderOf[p] == s.encoderOf[p]
    decreases |members|
  {
    ListsTail(members, left);
    if members == [] {
      assert left == {};
      assert p in s.encoderOf.Keys;
      assert forall l :: l in s.board.conns ==> l in s.mirror && l in s.encoderOf;
    } else {
      var d := members[0];
      assert Known(s, d);
      var e :| e in s.board.conns && e.display == d;
      MemberSentAway(s, p, c, left, down, e);
      var s1 := SendAway(s, d);
      ModeChangeDissolvesTheGroup(s1, p, c, left - {d}, down, members[1..]);
      var t := Dissolve(s, members);
      assert t == Dissolve(s1, members[1..]);
      NotPrimary(s, p, c, left, down, e);
      StillDetached(s, s1, t, p, left, e);
    }
  }

  lemma NotPrimary(s: State, p: DrmConnector, c: DrmCrtc, left: set<int>, down: bool, e: DrmConnector)
    requires Group(s, p, c, left, down, false) && e.display in left
    ensures e != p
  {
  }

  lemma OthersKeepChains(s: State, s1: State, t: State, p: DrmConnector, left: set<int>, d: int)
    requires s1.board == s.board && d in left
    requires OthersKeep(s, s1, p, {d}) && OthersKeep(s1, t, p, left - {d})
    ensures OthersKeep(s, t, p, left)
  {
    forall l | l in s.board.conns && l != p && l.display !in left
      ensures l in s.mirror && l in s.encoderOf && l in t.mirror && l in t.encoderOf
      ensures t.mirror[l] == s.mirror[l] && t.encoderOf[l] == s.encoderOf[l]
    {
      assert l.display !in {d} && l.display !in left - {d};
      assert s1.mirror[l] == s.mirror[l];
    }
  }

  lemma StaysDetached(s1: State, t: State, p: DrmConnector, ids: set<int>, e: DrmConnector)
    requires e in s1.board.conns && e != p && e.display !in ids && Detached(s1, e) && OthersKeep(s1, t, p, ids)
    ensures Detached(t, e)
  {
  }

  lemma StillDetached(s: State, s1: State, t: State, p: DrmConnector, left: set<int>, e: DrmConnector)
    requires WellFormed(s) && Keeps(s, s1) && e in s.board.conns && e != p && e.display in left
    requires Detached(s1, e) && OthersKeep(s, s1, p, {e.display}) && OthersKeep(s1, t, p, left - {e.display})
    requires forall l :: l in s1.board.conns && l.display in left - {e.display} ==> Detached(t, l)
    ensures forall l :: l in s.board.conns && l.display in left ==> Detached(t, l)
    ensures OthersKeep(s, t, p, left)
  {
    assert forall l :: l in s.board.conns && l.display == e.display ==> l == e;
    StaysDetached(s1, t, p, left - {e.display}, e);
    OthersKeepChains(s, s1, t, p, left, e.display);
    hide WellFormed, OthersKeep, Detached;
    forall l | l in s.board.conns && l.display in left ensures Detached(t, l) {
      assert l.display == e.display ==> l == e;
    }
  }
}
