/**
 * CRTC exclusivity with mirroring: whose display a bound connector's CRTC carries, and exactly which step spoils
 * that.
 */
module MirroredRoutes {
  import opened DisplayModes
  import opened DrmResources
  import opened CrtcAllocation
  import opened AllocationTheorems
  import opened GroupFormation

  /** An external shows its primary's display, anybody else its own. */
  ghost function Expected(s: State, k: DrmConnector): int
    requires k in s.mirror
  {
    if s.mirror[k].IsExternal() then s.mirror[k].primaryId else k.display
  }

  ghost predicate On(s: State, k: DrmConnector, c: DrmCrtc) {
    k in s.encoderOf && s.encoderOf[k] != null && s.encoderOf[k] in s.crtcOf && s.crtcOf[s.encoderOf[k]] == c
  }

  /** A bound connector has an encoder of its own and a CRTC that carries the display it should show. */
  ghost predicate Routed(s: State, k: DrmConnector) {
    && k in s.mirror && k in s.encoderOf
    && (s.encoderOf[k] != null ==>
          && s.encoderOf[k] in k.possibleEncoders
          && s.encoderOf[k] in s.crtcOf && s.crtcOf[s.encoderOf[k]] != null
          && s.crtcOf[s.encoderOf[k]] in s.display
          && s.display[s.crtcOf[s.encoderOf[k]]] == Expected(s, k))
  }

  ghost predicate AllRouted(s: State) {
    forall k :: k in s.board.conns ==> Routed(s, k)
  }

  lemma RoutedOwn(s: State)
    requires WellFormed(s) && AllRouted(s)
    ensures OwnEncoders(s)
  {
    forall k | k in s.encoderOf && s.encoderOf[k] != null ensures s.encoderOf[k] in k.possibleEncoders {
      assert Routed(s, k);
    }
  }

  // ---- What spoils a route --------------------------------------------------------------------

  ghost predicate BindSpoils(s: State, req: int, l: DrmConnector)
    requires WellFormed(s)
  {
    && ChoiceOf(s, req).Some?
    && (ChoiceIs(s, req);
        var k: DrmConnector, ch := Owner(s, req), ChoiceOf(s, req).value;
        var c := ch.cand.crtc;
        var d := s.display[c];
        l in s.mirror && l in s.encoderOf &&
        if ch.pass.ByMirror? then
          l == Owner(s, d) && l != k && s.encoderOf[l] != null && Expected(s, l) != d
        else if l == k then Expected(s, k) != k.display
        else On(s, l, c) && l != Loser(SetEncoder(s, k, null), ch) && Expected(s, l) != k.display)
  }

  ghost predicate ReleaseSpoils(s: State, req: int, l: DrmConnector)
    requires WellFormed(s)
  {
    OwnerFinds(s, req);
    var k := Owner(s, req);
    k != null && Driven(s, k) && l != k && l in s.mirror && l in s.encoderOf &&
    if s.mirror[k].mode then l == Informed(s, k) && s.encoderOf[l] != null && Expected(s, l) != l.display
    else On(s, l, s.crtcOf[s.encoderOf[k]])
  }

  /**
   * A mirror bind spoils its new primary if that one shows another display; a normal bind spoils the connector
   * itself if it is still marked external, and whoever else sits on the CRTC for another display; a release spoils
   * the informed primary if it is an external itself, or whoever else sits on the freed CRTC.
   */
  ghost predicate Spoils(s: State, op: Op, l: DrmConnector)
    requires WellFormed(s)
  {
    match op
    case BindOp(req) => BindSpoils(s, req, l)
    case ReleaseOp(req) => ReleaseSpoils(s, req, l)
    case _ => false
  }

  // ---- Binds ----------------------------------------------------------------------------------

  /** The fields after a bind with a choice, for one connector. */
  lemma BoundFields(s: State, req: int)
    requires WellFormed(s) && ChoiceOf(s, req).Some?
    ensures Owner(s, req) in s.board.conns && Keeps(s, Bind(s, req).0)
    ensures var k: DrmConnector, t, ch := Owner(s, req), Bind(s, req).0, ChoiceOf(s, req).value;
            var s0 := SetEncoder(s, k, null);
            && Keeps(s, s0) && ch.cand.crtc in s.display && ch.cand.enc in k.possibleEncoders
            && t.crtcOf == s.crtcOf[ch.cand.enc := ch.cand.crtc]
            && t.encoderOf
               == (if Loser(s0, ch) == null then s0.encoderOf
                   else s0.encoderOf[Loser(s0, ch) := null])[k := ch.cand.enc]
            && t.display == (if ch.pass.ByMirror? then s.display else s.display[ch.cand.crtc := k.display])
            && (ch.pass.ByMirror? ==>
                  var o := Owner(s, s.display[ch.cand.crtc]);
                  && o != null && o in s.mirror && k in s.mirror
                  && t.mirror == JoinedMirrors(s.mirror, req, o, s.display[ch.cand.crtc], k))
            && (!ch.pass.ByMirror? ==> t.mirror == s.mirror)
  {
    hide WellFormed, Bind, Apply, ChoiceOf, ValidChoice;
    ChoiceIs(s, req);
    var k, ch := Owner(s, req), ChoiceOf(s, req).value;
    var s0 := SetEncoder(s, k, null);
    ApplyShape(s0, req, k, ch);
  }

  lemma NewEncoder(s: State, k: DrmConnector, e: DrmEncoder, l: DrmConnector)
    requires WellFormed(s) && OwnEncoders(s) && k in s.board.conns && l in s.board.conns && l != k
             && e in k.possibleEncoders
    ensures l in s.encoderOf && l in s.mirror && (s.encoderOf[l] != null ==>
            s.encoderOf[l] in s.crtcOf && s.encoderOf[l] != e)
  {
    hide WellFormed, OwnEncoders;
    MemberEncoder(s, k, e, l);
  }

  lemma NormalBindRoutes(s: State, req: int, l: DrmConnector)
    requires WellFormed(s) && AllRouted(s) && l in s.board.conns && ChoiceOf(s, req).Some? && l != Owner(s, req)
    requires !ChoiceOf(s, req).value.pass.ByMirror?
    ensures Routed(Bind(s, req).0, l) <==> !BindSpoils(s, req, l)
  {
    hide WellFormed, Bind, Apply, ChoiceOf, OwnEncoders, FindConnector, Loser, JoinedMirrors;
    RoutedOwn(s);
    assert Routed(s, l);
    hide AllRouted;
    BoundFields(s, req);
    var k, ch := Owner(s, req), ChoiceOf(s, req).value;
    NewEncoder(s, k, ch.cand.enc, l);
    hide Owner;
    Recorded(Bind(s, req).0, l);
  }

  /** The mirror fields after a join, for anybody but the one that joins. */
  lemma JoinedExpects(m: map<DrmConnector, Mirror>, req: int, o: DrmConnector, d: int, k: DrmConnector, l: DrmConnector)
    requires o in m && k in m && l in m && l != k
    ensures var j := JoinedMirrors(m, req, o, d, k);
            && l in j
            && (l != o ==> j[l] == m[l])
            && (l == o ==> (if j[l].IsExternal() then j[l].primaryId else l.display) == d)
  {
  }

  lemma MirrorBindRoutes(s: State, req: int, l: DrmConnector)
    requires WellFormed(s) && AllRouted(s) && l in s.board.conns && ChoiceOf(s, req).Some? && l != Owner(s, req)
    requires ChoiceOf(s, req).value.pass.ByMirror?
    ensures Routed(Bind(s, req).0, l) <==> !BindSpoils(s, req, l)
  {
    hide WellFormed, Bind, Apply, ChoiceOf, OwnEncoders, FindConnector, JoinedMirrors;
    RoutedOwn(s);
    assert Routed(s, l);
    hide AllRouted;
    BoundFields(s, req);
    var k, ch := Owner(s, req), ChoiceOf(s, req).value;
    var d := s.display[ch.cand.crtc];
    NewEncoder(s, k, ch.cand.enc, l);
    JoinedExpects(s.mirror, req, Owner(s, d), d, k, l);
    hide Owner;
    Recorded(Bind(s, req).0, l);
  }

  lemma BindRoutesOther(s: State, req: int, l: DrmConnector)
    requires WellFormed(s) && AllRouted(s) && l in s.board.conns && ChoiceOf(s, req).Some? && l != Owner(s, req)
    ensures Routed(Bind(s, req).0, l) <==> !BindSpoils(s, req, l)
  {
    if ChoiceOf(s, req).value.pass.ByMirror? {
      MirrorBindRoutes(s, req, l);
    } else {
      NormalBindRoutes(s, req, l);
    }
  }

  lemma BindRoutesOwn(s: State, req: int)
    requires WellFormed(s) && AllRouted(s) && ChoiceOf(s, req).Some? && Owner(s, req) in s.board.conns
    ensures Routed(Bind(s, req).0, Owner(s, req)) <==> !BindSpoils(s, req, Owner(s, req))
  {
    hide WellFormed, AllRouted, Bind, Apply, ChoiceOf, FindConnector, Informed;
    BoundFields(s, req);
    ChoiceIs(s, req);
    Recorded(s, Owner(s, req));
  }

  lemma UnchosenRoutes(s: State, req: int, l: DrmConnector)
    requires WellFormed(s) && AllRouted(s) && l in s.board.conns && ChoiceOf(s, req).None?
    ensures Routed(Bind(s, req).0, l)
  {
    assert Routed(s, l);
    hide ValidBoard, Find, Select, AllRouted;
    OwnerFinds(s, req);
    BindShape(s, req);
    var k := Owner(s, req);
    if k != null && Alive(s, k) {
      FindShape(s, req, k);
    }
  }

  // ---- Releases -------------------------------------------------------------------------------

  lemma DisabledExpects(m: Mirror, d: int)
    ensures !DisableMirror(m, d).IsExternal()
    ensures m.IsExternal() ==> !DisableMirror(m, d).IsPrimary()
  {
  }

  lemma MirrorReleaseRoutes(s: State, req: int, l: DrmConnector)
    requires WellFormed(s) && AllRouted(s) && l in s.board.conns
    requires Owner(s, req) in s.board.conns && Driven(s, Owner(s, req))
    requires Owner(s, req) in s.mirror && s.mirror[Owner(s, req)].mode
    ensures Routed(Release(s, req).0, l) <==> !ReleaseSpoils(s, req, l)
  {
    hide WellFormed, Release, ReleaseMirror, FindConnector, Informed, DisableMirror;
    var k := Owner(s, req);
    assert Routed(s, l) && Routed(s, k);
    hide AllRouted;
    ReleaseShape(s, req);
    ReleaseMirrorShape(s, req, k);
    var t := Release(s, req).0;
    Recorded(s, l);
    Recorded(t, l);
    DisabledExpects(s.mirror[k], req);
    DisabledExpects(s.mirror[l], req);
    PrimaryInformsNobody(s, k);
    if l == k {
      assert Routed(t, l);
    } else if l == Informed(s, k) {
      assert t.mirror[l] == DisableMirror(s.mirror[l], req);
      assert t.encoderOf[l] == s.encoderOf[l];
      assert Expected(t, l) == l.display;
    } else {
      assert t.mirror[l] == s.mirror[l] && t.encoderOf[l] == s.encoderOf[l];
    }
  }

  lemma PrimaryInformsNobody(s: State, k: DrmConnector)
    requires WellFormed(s) && k in s.board.conns && k in s.mirror
    ensures s.mirror[k].IsPrimary() ==> Informed(s, k) == null
  {
  }

  lemma NormalReleaseRoutes(s: State, req: int, l: DrmConnector)
    requires WellFormed(s) && AllRouted(s) && l in s.board.conns
    requires Owner(s, req) in s.board.conns && Driven(s, Owner(s, req))
    requires Owner(s, req) in s.mirror && !s.mirror[Owner(s, req)].mode
    ensures Routed(Release(s, req).0, l) <==> !ReleaseSpoils(s, req, l)
  {
    hide WellFormed, Release, ReleaseMirror, FindConnector, Informed;
    var k := Owner(s, req);
    assert Routed(s, l) && Routed(s, k);
    hide AllRouted;
    DisplayOf(s, k);
    ReleaseShape(s, req);
    Recorded(Release(s, req).0, l);
    hide Owner, Keeps;
  }

  lemma NothingReleased(s: State, req: int, l: DrmConnector)
    requires WellFormed(s) && AllRouted(s) && l in s.board.conns
    requires Owner(s, req) != null ==> Owner(s, req) in s.board.conns && !Driven(s, Owner(s, req))
    ensures Routed(Release(s, req).0, l) && !ReleaseSpoils(s, req, l)
  {
    hide ValidBoard, PointersOnBoard, FindConnector, ReleaseMirror;
    ReleaseShape(s, req);
    assert Routed(s, l);
  }

  lemma ReleaseRoutes(s: State, req: int, l: DrmConnector)
    requires WellFormed(s) && AllRouted(s) && l in s.board.conns
    ensures Routed(Release(s, req).0, l) <==> !ReleaseSpoils(s, req, l)
  {
    ReleaseShape(s, req);
    var k := Owner(s, req);
    if k == null || !Driven(s, k) {
      NothingReleased(s, req, l);
    } else if s.mirror[k].mode {
      MirrorReleaseRoutes(s, req, l);
    } else {
      NormalReleaseRoutes(s, req, l);
    }
  }

  lemma DisplayOf(s: State, k: DrmConnector)
    requires WellFormed(s) && k in s.board.conns
    ensures 0 <= k.display < 16
  {
  }

  // ---- Steps and runs -------------------------------------------------------------------------

  /**
   * One step, for each connector: with everybody routed, a connector's CRTC carries the display it should show
   * afterwards if and only if the step does not spoil it.
   */
  lemma StepRoutes(s: State, op: Op, l: DrmConnector)
    requires WellFormed(s) && AllRouted(s) && l in s.board.conns
    ensures Routed(Step(s, op), l) <==> !Spoils(s, op, l)
  {
    if op.BindOp? {
      if ChoiceOf(s, op.req).None? {
        UnchosenRoutes(s, op.req, l);
      } else if l == Owner(s, op.req) {
        BindRoutesOwn(s, op.req);
      } else {
        BindRoutesOther(s, op.req, l);
      }
    } else if op.ReleaseOp? {
      ReleaseRoutes(s, op.req, l);
    } else {
      assert Routed(s, l);
    }
    hide WellFormed, Bind, Release, BindSpoils, ReleaseSpoils, ChoiceOf;
  }

  ghost predicate Unspoilt(s: State, ops: seq<Op>)
    requires WellFormed(s)
    decreases |ops|
  {
    ops == [] || ((forall l :: l in s.board.conns ==> !Spoils(s, ops[0], l)) && Unspoilt(Step(s, ops[0]), ops[1..]))
  }

  ghost predicate RoutedThroughout(s: State, ops: seq<Op>)
    requires WellFormed(s)
    decreases |ops|
  {
    AllRouted(s) && (ops == [] || RoutedThroughout(Step(s, ops[0]), ops[1..]))
  }

  /** Any run, mirrored or not: everybody is routed in all its states if and only if no step spoils anybody. */
  lemma {:induction false} RunsRouteExactly(s: State, ops: seq<Op>)
    requires WellFormed(s) && AllRouted(s)
    ensures RoutedThroughout(s, ops) <==> Unspoilt(s, ops)
    decreases |ops|
  {
    if ops != [] {
      var t := Step(s, ops[0]);
      forall l | l in s.board.conns ensures Routed(t, l) <==> !Spoils(s, ops[0], l) {
        StepRoutes(s, ops[0], l);
      }
      assert t.board == s.board;
      hide WellFormed, Step, Routed, Spoils;
      if AllRouted(t) {
        RunsRouteExactly(t, ops[1..]);
      } else {
        assert !RoutedThroughout(t, ops[1..]);
      }
    }
  }

  /**
   * An external that is bound again without a release, and finds a CRTC for itself, shows the wrong display by its
   * record.
   */
  lemma BoundAgainIsSpoilt(s: State, req: int)
    requires WellFormed(s) && AllRouted(s) && Bind(s, req).1 == 0 && !BindsByMirror(s, req)
    requires Owner(s, req) in s.mirror && s.mirror[Owner(s, req)].IsExternal()
    requires s.mirror[Owner(s, req)].primaryId != Owner(s, req).display
    ensures !Routed(Bind(s, req).0, Owner(s, req))
  {
    hide WellFormed, Bind, BindsByMirror, AllRouted;
    BindBinds(s, req);
  }

  /** In a routed state two connectors share a CRTC only as members of one mirror group. */
  lemma SharedOnlyByMirroring(s: State, k: DrmConnector, l: DrmConnector, c: DrmCrtc)
    requires WellFormed(s) && AllRouted(s) && k in s.board.conns && l in s.board.conns && k != l && On(s, k, c)
             && On(s, l, c)
    ensures k in s.mirror && l in s.mirror && Expected(s, k) == Expected(s, l)
    ensures s.mirror[k].IsExternal() || s.mirror[l].IsExternal()
    ensures !s.mirror[k].IsExternal() ==> s.mirror[l].primaryId == k.display
  {
    assert Routed(s, k) && Routed(s, l);
    DistinctDisplays(s, k, l);
  }
}
