/** When a bind succeeds, when it mirrors, and what a mirrored pair of displays has in common. */
module BindTheorems {
  import opened DisplayModes
  import opened DrmResources
  import opened CrtcAllocation
  import opened AllocationTheorems
  import opened SelectionTheorems

  /** The connected connector that a request is for. */
  ghost predicate Asks(s: State, req: int, k: DrmConnector)
    requires WellFormed(s) && k in s.board.conns
  {
    k.display == MaskSplit(req) && s.attr[k].connected
  }

  /** Some CRTC within reach is free, the connector's own or orphaned, can be mirrored, or may be preempted. */
  ghost predicate Obtainable(s: State, req: int, k: DrmConnector)
    requires WellFormed(s) && k in s.board.conns
  {
    exists c :: c in s.display && Reaches(k, c) && (Available(s, k, c) || Mirrorable(s, req, k, c) || Outranked(s, k,
      c))
  }

  lemma AsksIsOwner(s: State, req: int)
    requires WellFormed(s)
    ensures var k := Owner(s, req);
            && (k != null ==> k in s.board.conns && k in s.attr)
            && (Alive(s, k) <==> k != null && Asks(s, req, k))
            && forall l :: l in s.board.conns && Asks(s, req, l) ==> l == k
  {
    hide PointersOnBoard, FindConnector, MaskSplit;
    OwnerFinds(s, req);
  }

  lemma FindsWhatIsObtainable(s: State, req: int, k: DrmConnector)
    requires WellFormed(s) && k in s.board.conns
    ensures Find(s, req, k).1.Some? <==> Obtainable(s, req, k)
  {
    hide WellFormed, Find, Available, Mirrorable, Outranked, Reaches;
    SelectionComplete(s, req, k);
    if !Obtainable(s, req, k) {
      forall c | Reaches(k, c)
        ensures c in s.display && !Available(s, k, c) && !Outranked(s, k, c) && !Mirrorable(s, req, k, c)
      {
        ReachedIsKnown(s, k, c);
      }
    }
  }

  lemma ReachedIsKnown(s: State, k: DrmConnector, c: DrmCrtc)
    requires WellFormed(s) && k in s.board.conns && Reaches(k, c)
    ensures c in s.display
  {
  }

  /** What a bind does, in terms of its search. */
  lemma BindIs(s: State, req: int)
    requires WellFormed(s)
    ensures var k := Owner(s, req);
            && (k != null ==> k in s.board.conns && k in s.attr)
            && if !Alive(s, k) then Bind(s, req) == (s, -22)
               else if Find(s, req, k).1.None? then Bind(s, req).1 == -1
               else Bind(s, req).1 == if s.attr[k].current.id == 0 then -22 else 0
  {
    hide ValidBoard, PointersOnBoard, Find, FindConnector, SuitableMode, CapOk;
    OwnerFinds(s, req);
    var k := Owner(s, req);
    if Alive(s, k) {
      FindShape(s, req, k);
    }
  }

  /**
   * A bind succeeds exactly when it is for a connected connector that has a mode and can obtain a CRTC. It
   * fails with -1 when no CRTC can be obtained, and with -22 otherwise; nothing changes when nobody
   * connected is asked for.
   */
  lemma BindSucceedsExactly(s: State, req: int)
    requires WellFormed(s)
    ensures var (t, r) := Bind(s, req);
            && (r == 0 <==> exists k :: k in s.board.conns && Asks(s, req, k)
                                         && s.attr[k].current.id != 0 && Obtainable(s, req, k))
            && (r == -1 <==> exists k :: k in s.board.conns && Asks(s, req, k) && !Obtainable(s, req, k))
            && (r == 0 || r == -1 || r == -22)
            && ((forall k :: k in s.board.conns ==> !Asks(s, req, k)) ==> t == s)
  {
    hide WellFormed, Bind, Find, Obtainable, Asks;
    AsksIsOwner(s, req);
    BindIs(s, req);
    var k := Owner(s, req);
    if Alive(s, k) {
      FindsWhatIsObtainable(s, req, k);
    }
  }

  /** A CRTC within reach is available and can output the connector's mode: the passes before mirroring take it. */
  ghost predicate HasCapable(s: State, k: DrmConnector)
    requires WellFormed(s) && k in s.board.conns
  {
    exists c :: c in s.display && Reaches(k, c) && Available(s, k, c) && CapOk(c, s.attr[k].current)
  }

  ghost predicate HasMirrorable(s: State, req: int, k: DrmConnector)
    requires WellFormed(s) && k in s.board.conns
  {
    exists c :: c in s.display && Reaches(k, c) && Mirrorable(s, req, k, c)
  }

  lemma CapableComesFirst(s: State, req: int, k: DrmConnector)
    requires WellFormed(s) && k in s.board.conns && WellFormed(SetEncoder(s, k, null))
    ensures HasCapable(s, k) <==>
            var r := Select(SetEncoder(s, k, null), req, k); r.Some? && PassRank(r.value.pass) < 2
  {
    hide WellFormed, Eligible, Available, Reaches, Select, CapOk;
    Recorded(s, k);
    SelectOrder(s, req, k);
    var r := Select(SetEncoder(s, k, null), req, k);
    if r.Some? && PassRank(r.value.pass) < 2 {
      EligibleMeans(s, req, k, r.value.cand.crtc, true);
    } else if c :| c in s.display && Reaches(k, c) && Available(s, k, c) && CapOk(c, s.attr[k].current) {
      NothingEarlier(s, req, k, FirstFit(true), c);
      NothingEarlier(s, req, k, Orphan(true), c);
      EligibleMeans(s, req, k, c, true);
    }
  }

  lemma MirrorComesNext(s: State, req: int, k: DrmConnector)
    requires WellFormed(s) && k in s.board.conns && WellFormed(SetEncoder(s, k, null))
    ensures var r := Select(SetEncoder(s, k, null), req, k);
            && (r.Some? && r.value.pass.ByMirror? ==> HasMirrorable(s, req, k))
            && (HasMirrorable(s, req, k) ==> r.Some? && PassRank(r.value.pass) <= 2)
  {
    hide WellFormed, Eligible, Mirrorable, Reaches, Select;
    SelectOrder(s, req, k);
    var r := Select(SetEncoder(s, k, null), req, k);
    if r.Some? && r.value.pass.ByMirror? {
      EligibleMeans(s, req, k, r.value.cand.crtc, true);
    }
    if c :| c in s.display && Reaches(k, c) && Mirrorable(s, req, k, c) {
      if r.None? || PassRank(r.value.pass) > 2 {
        NothingEarlier(s, req, k, ByMirror, c);
        EligibleMeans(s, req, k, c, true);
      }
    }
  }

  /** A bind mirrors exactly when no available CRTC within reach can output the mode and one can be mirrored. */
  lemma BindMirrorsExactly(s: State, req: int)
    requires WellFormed(s)
    ensures BindsByMirror(s, req)
       <==> exists k :: k in s.board.conns && Asks(s, req, k) && !HasCapable(s, k) && HasMirrorable(s, req, k)
  {
    AsksIsOwner(s, req);
    var k := Owner(s, req);
    if Alive(s, k) {
      UnboundShape(s, k);
      CapableComesFirst(s, req, k);
      MirrorComesNext(s, req, k);
    }
    hide WellFormed, Select, HasCapable, HasMirrorable, Asks;
  }

  /** The search by mirroring, with what it found. */
  lemma MirrorFinds(s: State, req: int)
    requires WellFormed(s) && BindsByMirror(s, req)
    ensures var k := Owner(s, req);
            && k in s.board.conns && k in s.attr && Alive(s, k) && Keeps(s, SetEncoder(s, k, null))
            && var r := Select(SetEncoder(s, k, null), req, k);
               && r.Some? && r.value.cand.crtc in s.display
               && Mirrorable(s, req, k, r.value.cand.crtc)
               && Find(s, req, k).1 == Some(r.value.cand.crtc)
               && k in Find(s, req, k).0.encoderOf && Find(s, req, k).0.encoderOf[k] == r.value.cand.enc
               && r.value.cand.enc in Find(s, req, k).0.crtcOf
               && Find(s, req, k).0.crtcOf[r.value.cand.enc] == r.value.cand.crtc
  {
    hide WellFormed, Eligible, Mirrorable, Select, Apply;
    AsksIsOwner(s, req);
    var k := Owner(s, req);
    SelectOrder(s, req, k);
    FindShape(s, req, k);
    var s0 := SetEncoder(s, k, null);
    var ch := Select(s0, req, k).value;
    EligibleMeans(s, req, k, ch.cand.crtc, true);
    assert Mirrorable(s, req, k, ch.cand.crtc);
    MirrorHasOwner(s0, req, k, ch);
    ApplyShape(s0, req, k, ch);
  }

  /** A capable CRTC leaves the requested mode alone. */
  lemma CapableKeepsMode(s: State, k: DrmConnector, c: DrmCrtc)
    requires k in s.attr && CapOk(c, s.attr[k].current)
    ensures Activate(s, k, c) == (SetAttributes(s, k, s.attr[k].(active := s.attr[k].current)), 0)
  {
  }

  /**
   * A mirrored pair: right after the bind the new display and the connected display it mirrors show the same
   * timing, on a CRTC that carries the latter's display and can output it.
   */
  lemma MirroredDisplaysMatch(s: State, req: int)
    requires WellFormed(s) && BindsByMirror(s, req)
    ensures Bind(s, req).1 == 0 && Keeps(s, Bind(s, req).0)
    ensures var k, t := Owner(s, req), Bind(s, req).0;
            && k in s.board.conns && k.supportsRgb && k in t.encoderOf && t.encoderOf[k] in t.crtcOf
            && t.crtcOf[t.encoderOf[k]] in s.display
            && var c: DrmCrtc := t.crtcOf[t.encoderOf[k]];
               var o := Owner(s, s.display[c]);
               && o in s.board.conns && k in t.attr && o in s.attr && o in t.attr
               && s.display[c] >= 0 && s.display[c] != req && t.display[c] == s.display[c]
               && o.display == MaskSplit(s.display[c]) && s.attr[o].connected
               && var a := t.attr[k].active;
                  && a.id > 0 && t.attr[o].active.id > 0
                  && a.timing == t.attr[o].active.timing && a == s.attr[k].current
                  && (c.reportsOutputWidth ==>
                        && a.timing.hDisplay <= c.outputWidth
                        && (((a.timing.hDisplay * a.timing.vDisplay) % 0x1_0000_0000) * a.refreshHz)
                           % 0x1_0000_0000_0000_0000 <= c.outputDclk)
  {
    hide WellFormed, Bind, Select, Apply, Find, FindConnector, Activate;
    MirrorFinds(s, req);
    var k := Owner(s, req);
    var c := Find(s, req, k).1.value;
    BindIs(s, req);
    BindBinds(s, req);
    BindActivates(s, req);
    FindShape(s, req, k);
    HoldsIsOwner(s, c);
    CapableKeepsMode(Find(s, req, k).0, k, c);
  }
}
