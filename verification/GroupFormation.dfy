/**
 * Where mirror groups come from: the allocator's own runs build, extend and leave alone the groups that unplugging
 * takes apart.
 */
module GroupFormation {
  import opened DisplayModes
  import opened DrmResources
  import opened CrtcAllocation
  import opened AllocationTheorems
  import opened UnplugTheorems

  /** Bound connectors use encoders of their own. */
  ghost predicate OwnEncoders(s: State) {
    forall k :: k in s.encoderOf && s.encoderOf[k] != null ==> s.encoderOf[k] in k.possibleEncoders
  }

  ghost predicate Outside(p: DrmConnector, left: set<int>, k: DrmConnector) {
    k != p && k.display !in left
  }

  /** The choice a bind makes, if it gets that far. */
  ghost function ChoiceOf(s: State, req: int): Option<Choice>
    requires WellFormed(s)
  {
    OwnerFinds(s, req);
    var k := Owner(s, req);
    if k != null && Alive(s, k) then UnboundShape(s, k); Select(SetEncoder(s, k, null), req, k) else None
  }

  lemma ChoiceIs(s: State, req: int)
    requires WellFormed(s) && ChoiceOf(s, req).Some?
    ensures Owner(s, req) != null && Owner(s, req) in s.board.conns && Alive(s, Owner(s, req))
    ensures var k: DrmConnector, ch := Owner(s, req), ChoiceOf(s, req).value;
            var s0 := SetEncoder(s, k, null);
            && Keeps(s, s0) && ValidChoice(s0, req, k, ch)
            && ch.cand.crtc in s.display && ch.cand.enc in s.crtcOf && ch.cand.enc in k.possibleEncoders
            && (ch.pass.ByMirror? <==> BindsByMirror(s, req))
            && (ch.pass.ByMirror? ==> Owner(s, s.display[ch.cand.crtc]) != null)
            && Keeps(s, Bind(s, req).0)
            && Bind(s, req).0.(attr := s.attr) == Apply(s0, req, k, ch)
            && forall l :: l in s.board.conns ==> l in s.attr && Bind(s, req).0.attr[l].plugged == s.attr[l].plugged
  {
    hide ValidBoard, PointersOnBoard, Apply, Find;
    OwnerFinds(s, req);
    var k := Owner(s, req);
    BindShape(s, req);
    FindShape(s, req, k);
    var s0 := SetEncoder(s, k, null);
    SelectChooses(s0, req, k);
    OwnerFinds(s, s.display[ChoiceOf(s, req).value.cand.crtc]);
    BoundAttributes(s, req);
  }

  lemma BoundAttributes(s: State, req: int)
    requires WellFormed(s)
    ensures Keeps(s, Bind(s, req).0)
    ensures forall l :: l in s.board.conns ==> l in s.attr && Bind(s, req).0.attr[l].plugged == s.attr[l].plugged
  {
    BindShape(s, req);
    assert forall l :: l in s.board.conns ==> l in s.attr;
    hide WellFormed, Bind, Find;
  }

  // ---- The beginning of a group ---------------------------------------------------------------

  /** A connector in nobody's group that is bound without mirroring is a group without externals. */
  lemma BindStartsGroup(s: State, req: int)
    requires WellFormed(s) && Bind(s, req).1 == 0 && !BindsByMirror(s, req)
    requires Owner(s, req) in s.mirror && var m := s.mirror[Owner(s, req)]; !m.mode && !m.primary && m.displays == {}
    ensures Owner(s, req) in s.attr && Keeps(s, Bind(s, req).0)
    ensures var p: DrmConnector, t := Owner(s, req), Bind(s, req).0;
            && p in t.encoderOf && t.encoderOf[p] in t.crtcOf && t.crtcOf[t.encoderOf[p]] != null
            && Group(t, p, t.crtcOf[t.encoderOf[p]], {}, !s.attr[p].plugged, false)
  {
    BindBinds(s, req);
    BoundAttributes(s, req);
    hide ValidBoard, PointersOnBoard, Bind;
  }

  // ---- Its growth -----------------------------------------------------------------------------

  /** The bind mirrors the group's CRTC, for a connector outside the group asked for under its own id. */
  ghost predicate Joins(s: State, req: int, p: DrmConnector, c: DrmCrtc, left: set<int>)
    requires WellFormed(s)
  {
    && ChoiceOf(s, req).Some? && ChoiceOf(s, req).value.pass.ByMirror? && ChoiceOf(s, req).value.cand.crtc == c
    && Owner(s, req) != null && Owner(s, req).display == req && Outside(p, left, Owner(s, req))
  }

  lemma JoinFields(s: State, req: int, p: DrmConnector, c: DrmCrtc, left: set<int>, down: bool)
    requires WellFormed(s) && Group(s, p, c, left, down, false) && Joins(s, req, p, c, left)
    ensures Keeps(s, Bind(s, req).0) && Owner(s, req) in s.board.conns && Owner(s, req) in s.mirror && p in s.mirror
    ensures Outside(p, left, Owner(s, req)) && Owner(s, req).display == req
    ensures Joined(s, Bind(s, req).0, p, Owner(s, req), ChoiceOf(s, req).value.cand.enc, c)
  {
    hide ValidBoard, PointersOnBoard, Bind, Apply, ChoiceOf, ValidChoice;
    ChoiceIs(s, req);
    OwnerOf(s, p);
    var k, ch := Owner(s, req), ChoiceOf(s, req).value;
    var s0 := SetEncoder(s, k, null);
    ApplyShape(s0, req, k, ch);
    assert p in s.board.conns;
    assert s.encoderOf[k := null][k := ch.cand.enc] == s.encoderOf[k := ch.cand.enc];
  }

  /** What joining does, field by field, from `s` to `t`. */
  ghost predicate Joined(s: State, t: State, p: DrmConnector, k: DrmConnector, e: DrmEncoder, c: DrmCrtc) {
    && Keeps(s, t) && k in s.mirror && p in s.mirror
    && t.display == s.display && t.crtcOf == s.crtcOf[e := c] && t.encoderOf == s.encoderOf[k := e]
    && t.mirror == JoinedMirrors(s.mirror, k.display, p, p.display, k)
    && p in s.attr && p in t.attr && t.attr[p].plugged == s.attr[p].plugged
  }

  lemma JoinedAttached(s: State, t: State, p: DrmConnector, k: DrmConnector, e: DrmEncoder, c: DrmCrtc, l: DrmConnector)
    requires Joined(s, t, p, k, e, c) && k != p && k.display != p.display && l != p && (l != k ==> Attached(s, l, p, c))
    ensures Attached(t, l, p, c)
  {
    hide WellFormed;
  }

  lemma JoinedKnown(s: State, t: State, left: set<int>, k: DrmConnector)
    requires t.board == s.board && k in s.board.conns && forall d :: d in left ==> Known(s, d)
    ensures forall d :: d in left + {k.display} ==> Known(t, d)
  {
    forall d | d in left + {k.display} ensures Known(t, d) {
      assert d != k.display ==> Known(s, d);
      assert k in t.board.conns;
    }
  }

  lemma JoinedGroup(s: State, t: State, p: DrmConnector, k: DrmConnector, e: DrmEncoder, c: DrmCrtc, left: set<int>,
      down: bool)
    requires WellFormed(s) && Group(s, p, c, left, down, false) && Joined(s, t, p, k, e, c)
    requires k in s.board.conns && Outside(p, left, k)
    ensures Group(t, p, c, left + {k.display}, down, false)
  {
    assert forall l :: l in s.board.conns && l.display == k.display ==> l == k;
    assert p.display != k.display;
    JoinedKnown(s, t, left, k);
    forall l | l in t.board.conns && l.display in left + {k.display} ensures Attached(t, l, p, c) {
      assert l != k ==> Attached(s, l, p, c);
      JoinedAttached(s, t, p, k, e, c, l);
    }
    hide WellFormed, Attached, Known;
  }

  /** A mirror bind onto the group's CRTC makes its connector one more external. */
  lemma BindJoinsGroup(s: State, req: int, p: DrmConnector, c: DrmCrtc, left: set<int>, down: bool)
    requires WellFormed(s) && Group(s, p, c, left, down, false) && Joins(s, req, p, c, left)
    ensures Keeps(s, Bind(s, req).0) && Group(Bind(s, req).0, p, c, left + {req}, down, false)
  {
    JoinFields(s, req, p, c, left, down);
    var k, e := Owner(s, req), ChoiceOf(s, req).value.cand.enc;
    hide WellFormed, Bind, Group, ChoiceOf;
    JoinedGroup(s, Bind(s, req).0, p, k, e, c, left, down);
  }

  // ---- Everything else ------------------------------------------------------------------------

  /** A bind of an outsider that chooses another CRTC and takes it from an outsider or from nobody. */
  ghost predicate BindAside(s: State, req: int, p: DrmConnector, c: DrmCrtc, left: set<int>)
    requires WellFormed(s)
  {
    OwnerFinds(s, req);
    var k := Owner(s, req);
    k == null || !Alive(s, k) ||
    (Outside(p, left, k) &&
     (ChoiceOf(s, req).Some? ==>
        var x := ChoiceOf(s, req).value.cand.crtc;
        (ChoiceIs(s, req);
         x != c && (Owner(s, s.display[x]) != null ==> Outside(p, left, Owner(s, s.display[x]))))))
  }

  /** A release of an outsider on another CRTC, or from another group. */
  ghost predicate ReleaseAside(s: State, req: int, p: DrmConnector, c: DrmCrtc, left: set<int>)
    requires WellFormed(s)
  {
    OwnerFinds(s, req);
    var k := Owner(s, req);
    k == null || !Driven(s, k) ||
    (Outside(p, left, k) &&
     if s.mirror[k].mode then Informed(s, k) != null ==> Outside(p, left, Informed(s, k))
     else s.crtcOf[s.encoderOf[k]] != c)
  }

  ghost predicate Aside(s: State, op: Op, p: DrmConnector, c: DrmCrtc, left: set<int>)
    requires WellFormed(s)
  {
    match op
    case BindOp(req) => BindAside(s, req, p, c, left)
    case ReleaseOp(req) => ReleaseAside(s, req, p, c, left)
    case _ => true
  }

  /** A group does not see changes to outsiders' records, to encoders that are not its members', or to other CRTCs. */
  ghost predicate OutsideChanges(s: State, t: State, p: DrmConnector, c: DrmCrtc, left: set<int>) {
    && Keeps(s, t) && OwnEncoders(s)
    && c in s.display && c in t.display && t.display[c] == s.display[c]
    && (forall k :: k in s.board.conns && !Outside(p, left, k) ==>
          && k in s.mirror && k in s.encoderOf && k in t.mirror && k in t.encoderOf && k in s.attr && k in t.attr
          && t.mirror[k] == s.mirror[k] && t.encoderOf[k] == s.encoderOf[k] && t.attr[k].plugged == s.attr[k].plugged
          && (s.encoderOf[k] != null ==>
                && s.encoderOf[k] in s.crtcOf && s.encoderOf[k] in t.crtcOf
                && t.crtcOf[s.encoderOf[k]] == s.crtcOf[s.encoderOf[k]]))
  }

  lemma GroupStands(s: State, t: State, p: DrmConnector, c: DrmCrtc, left: set<int>, down: bool)
    requires Group(s, p, c, left, down, false) && OutsideChanges(s, t, p, c, left)
    ensures Group(t, p, c, left, down, false)
  {
    hide WellFormed, OwnEncoders;
    assert !Outside(p, left, p);
    forall d | d in left ensures Known(t, d) {
      assert Known(s, d);
    }
    forall l | l in t.board.conns && l.display in left ensures Attached(t, l, p, c) {
      assert Attached(s, l, p, c) && !Outside(p, left, l);
    }
  }

  /** A member's encoder is not the one an outsider was given. */
  lemma MemberEncoder(s: State, k: DrmConnector, e: DrmEncoder, l: DrmConnector)
    requires WellFormed(s) && OwnEncoders(s) && k in s.board.conns && l in s.board.conns && l != k
             && e in k.possibleEncoders
    ensures l in s.encoderOf && l in s.mirror && l in s.attr
    ensures s.encoderOf[l] != null ==> s.encoderOf[l] in s.crtcOf && s.encoderOf[l] != e
  {
    PrivateEncoders(s, k, l, e);
    hide ValidBoard;
  }

  /** A choice outside the group leaves each member's record alone. */
  lemma ChoiceOutside(s: State, req: int, k: DrmConnector, ch: Choice, p: DrmConnector, left: set<int>, l: DrmConnector)
    requires WellFormed(s) && k in s.board.conns && ch.cand.crtc in s.display && ch.cand.enc in s.crtcOf
    requires ch.pass.ByMirror? ==> Owner(s, s.display[ch.cand.crtc]) != null
    requires Owner(s, s.display[ch.cand.crtc]) != null ==> Outside(p, left, Owner(s, s.display[ch.cand.crtc]))
    requires Outside(p, left, k) && l in s.board.conns && !Outside(p, left, l)
    ensures var u := Apply(s, req, k, ch);
            && Keeps(s, u) && l in s.mirror && l in s.encoderOf && l in u.mirror && l in u.encoderOf
            && u.mirror[l] == s.mirror[l] && u.encoderOf[l] == s.encoderOf[l]
  {
    ApplyShape(s, req, k, ch);
    Recorded(s, l);
    hide WellFormed, Apply;
  }

  lemma ChoiceIsAside(s: State, req: int, p: DrmConnector, c: DrmCrtc, left: set<int>)
    requires WellFormed(s) && BindAside(s, req, p, c, left) && ChoiceOf(s, req).Some?
    ensures Owner(s, req) in s.board.conns && Outside(p, left, Owner(s, req))
    ensures var x := ChoiceOf(s, req).value.cand.crtc;
            && x in s.display && x != c
            && (Owner(s, s.display[x]) != null ==> Outside(p, left, Owner(s, s.display[x])))
  {
    ChoiceIs(s, req);
    assert Alive(s, Owner(s, req));
    hide WellFormed, ChoiceOf, Bind, Apply;
  }

  /** What an outsider's bind does to everybody, field by field. */
  lemma BindOutsideFields(s: State, req: int, p: DrmConnector, c: DrmCrtc, left: set<int>)
    requires WellFormed(s) && c in s.display && BindAside(s, req, p, c, left) && ChoiceOf(s, req).Some?
    ensures Keeps(s, Bind(s, req).0) && Owner(s, req) in s.board.conns
    ensures var k: DrmConnector, t, e := Owner(s, req), Bind(s, req).0, ChoiceOf(s, req).value.cand.enc;
            && Outside(p, left, k) && e in k.possibleEncoders && c in t.display && t.display[c] == s.display[c]
            && t.crtcOf == s.crtcOf[e := ChoiceOf(s, req).value.cand.crtc]
            && (forall l :: l in s.board.conns && !Outside(p, left, l) ==>
                  && l in s.mirror && l in s.encoderOf && l in t.mirror && l in t.encoderOf && l in t.attr
                    && l in s.attr
                  && t.mirror[l] == s.mirror[l] && t.encoderOf[l] == s.encoderOf[l]
                    && t.attr[l].plugged == s.attr[l].plugged)
  {
    hide WellFormed, Bind, Apply, ChoiceOf, ValidChoice, BindAside, FindConnector;
    ChoiceIs(s, req);
    ChoiceIsAside(s, req, p, c, left);
    var k, ch := Owner(s, req), ChoiceOf(s, req).value;
    var t, s0 := Bind(s, req).0, SetEncoder(s, k, null);
    ApplyShape(s0, req, k, ch);
    forall l | l in s.board.conns && !Outside(p, left, l)
      ensures l in s.mirror && l in s.encoderOf && l in t.mirror && l in t.encoderOf && l in t.attr && l in s.attr
      ensures t.mirror[l] == s.mirror[l] && t.encoderOf[l] == s.encoderOf[l] && t.attr[l].plugged == s.attr[l].plugged
    {
      Recorded(t, l);
      Recorded(s, l);
      ChoiceOutside(s0, req, k, ch, p, left, l);
    }
  }

  lemma BindOutside(s: State, req: int, p: DrmConnector, c: DrmCrtc, left: set<int>)
    requires WellFormed(s) && OwnEncoders(s) && c in s.display && BindAside(s, req, p, c, left)
    requires ChoiceOf(s, req).Some?
    ensures OutsideChanges(s, Bind(s, req).0, p, c, left)
  {
    hide WellFormed, Bind, ChoiceOf, OwnEncoders, BindAside, Keeps, Outside;
    BindOutsideFields(s, req, p, c, left);
    var k, e := Owner(s, req), ChoiceOf(s, req).value.cand.enc;
    var t := Bind(s, req).0;
    forall l | l in s.board.conns && !Outside(p, left, l)
      ensures s.encoderOf[l] != null ==>
                && s.encoderOf[l] in s.crtcOf && s.encoderOf[l] in t.crtcOf
                && t.crtcOf[s.encoderOf[l]] == s.crtcOf[s.encoderOf[l]]
    {
      MemberEncoder(s, k, e, l);
    }
  }

  lemma UnchosenBindAside(s: State, req: int, p: DrmConnector, c: DrmCrtc, left: set<int>)
    requires WellFormed(s) && OwnEncoders(s) && c in s.display && BindAside(s, req, p, c, left)
    requires ChoiceOf(s, req).None?
    ensures OutsideChanges(s, Bind(s, req).0, p, c, left)
  {
    hide ValidBoard, Find, Select;
    OwnerFinds(s, req);
    BindShape(s, req);
    var k := Owner(s, req);
    if k != null && Alive(s, k) {
      FindShape(s, req, k);
    }
    assert forall l :: l in s.board.conns ==> l in s.mirror && l in s.encoderOf && l in s.attr;
    assert forall l :: l in s.encoderOf && s.encoderOf[l] != null ==> s.encoderOf[l] in s.crtcOf;
  }

  /** A release of an outsider, as far as a member and the group's CRTC can see. */
  lemma ReleaseSeen(s: State, req: int, p: DrmConnector, c: DrmCrtc, left: set<int>, l: DrmConnector)
    requires WellFormed(s) && c in s.display && ReleaseAside(s, req, p, c, left)
    requires l in s.board.conns && !Outside(p, left, l)
    ensures var t := Release(s, req).0;
            && Keeps(s, t) && t.attr == s.attr && t.crtcOf == s.crtcOf
            && c in t.display && t.display[c] == s.display[c]
            && l in s.mirror && l in s.encoderOf && l in t.mirror && l in t.encoderOf
            && t.mirror[l] == s.mirror[l] && t.encoderOf[l] == s.encoderOf[l]
  {
    hide WellFormed, Release, ReleaseMirror, Informed, FindConnector;
    OwnerFinds(s, req);
    ReleaseShape(s, req);
    Recorded(s, l);
    var k := Owner(s, req);
    if k != null && Driven(s, k) && s.mirror[k].mode {
      ReleaseMirrorShape(s, req, k);
    }
    Recorded(Release(s, req).0, l);
  }

  lemma ReleaseOutside(s: State, req: int, p: DrmConnector, c: DrmCrtc, left: set<int>)
    requires WellFormed(s) && OwnEncoders(s) && c in s.display && ReleaseAside(s, req, p, c, left) && p in s.board.conns
    ensures OutsideChanges(s, Release(s, req).0, p, c, left)
  {
    hide WellFormed, Release, ReleaseAside, OwnEncoders, Keeps;
    ReleaseSeen(s, req, p, c, left, p);
    var t := Release(s, req).0;
    forall l | l in s.board.conns && !Outside(p, left, l)
      ensures l in s.mirror && l in s.encoderOf && l in t.mirror && l in t.encoderOf && l in s.attr && l in t.attr
      ensures t.mirror[l] == s.mirror[l] && t.encoderOf[l] == s.encoderOf[l] && t.attr[l].plugged == s.attr[l].plugged
      ensures s.encoderOf[l] != null ==> s.encoderOf[l] in s.crtcOf
    {
      ReleaseSeen(s, req, p, c, left, l);
      Recorded(s, l);
    }
  }

  lemma EditOutside(s: State, op: Op, p: DrmConnector, c: DrmCrtc, left: set<int>)
    requires WellFormed(s) && OwnEncoders(s) && c in s.display && !op.BindOp? && !op.ReleaseOp?
    ensures OutsideChanges(s, Step(s, op), p, c, left)
  {
    hide ValidBoard, PointersOnBoard, OwnEncoders, OutsideChanges;
    AttributesOutside(s, Step(s, op), p, c, left);
  }

  lemma AttributesOutside(s: State, t: State, p: DrmConnector, c: DrmCrtc, left: set<int>)
    requires WellFormed(s) && OwnEncoders(s) && c in s.display && Keeps(s, t) && t == s.(attr := t.attr)
    requires forall l :: l in s.board.conns ==> l in s.attr && l in t.attr && t.attr[l].plugged == s.attr[l].plugged
    ensures OutsideChanges(s, t, p, c, left)
  {
    hide WellFormed, OwnEncoders, Keeps;
    forall l | l in s.board.conns && !Outside(p, left, l)
      ensures l in s.mirror && l in s.encoderOf && l in s.attr
              && (s.encoderOf[l] != null ==> s.encoderOf[l] in s.crtcOf)
    {
      Recorded(s, l);
    }
  }

  /** Steps of others leave a group as it is. */
  lemma StepAside(s: State, op: Op, p: DrmConnector, c: DrmCrtc, left: set<int>, down: bool)
    requires WellFormed(s) && OwnEncoders(s) && Group(s, p, c, left, down, false) && Aside(s, op, p, c, left)
    ensures Group(Step(s, op), p, c, left, down, false)
  {
    assert c in s.display && p in s.board.conns;
    hide WellFormed, OwnEncoders, Group, Bind, Release, BindAside, ReleaseAside, OutsideChanges;
    if op.BindOp? {
      if ChoiceOf(s, op.req).Some? {
        BindOutside(s, op.req, p, c, left);
      } else {
        UnchosenBindAside(s, op.req, p, c, left);
      }
    } else if op.ReleaseOp? {
      ReleaseOutside(s, op.req, p, c, left);
    } else {
      EditOutside(s, op, p, c, left);
    }
    GroupStands(s, Step(s, op), p, c, left, down);
  }

  /** Every step gives out encoders to those they belong to. */
  lemma StepKeepsOwnEncoders(s: State, op: Op)
    requires WellFormed(s) && OwnEncoders(s)
    ensures OwnEncoders(Step(s, op))
  {
    hide WellFormed, Bind, Release, ReleaseMirror, Select, Find, Apply, ChoiceOf;
    if op.BindOp? {
      if ChoiceOf(s, op.req).Some? {
        ChoiceIs(s, op.req);
        var k, ch := Owner(s, op.req), ChoiceOf(s, op.req).value;
        ApplyShape(SetEncoder(s, k, null), op.req, k, ch);
      } else {
        UnchosenEncoders(s, op.req);
      }
    } else if op.ReleaseOp? {
      ReleaseShape(s, op.req);
      var k := Owner(s, op.req);
      if k != null {
        ReleaseMirrorShape(s, op.req, k);
      }
    }
  }

  lemma UnchosenEncoders(s: State, req: int)
    requires WellFormed(s) && ChoiceOf(s, req).None?
    ensures Keeps(s, Bind(s, req).0)
    ensures forall k :: k in Bind(s, req).0.encoderOf && Bind(s, req).0.encoderOf[k] != null ==>
              k in s.encoderOf && Bind(s, req).0.encoderOf[k] == s.encoderOf[k]
  {
    hide ValidBoard, Find, Select;
    OwnerFinds(s, req);
    BindShape(s, req);
    var k := Owner(s, req);
    if k != null && Alive(s, k) {
      FindShape(s, req, k);
    }
  }

  // ---- Runs -----------------------------------------------------------------------------------

  /** The externals after a step. */
  ghost function Grown(s: State, op: Op, p: DrmConnector, c: DrmCrtc, left: set<int>): set<int>
    requires WellFormed(s)
  {
    if op.BindOp? && Joins(s, op.req, p, c, left) then left + {op.req} else left
  }

  /** Every step joins the group or stays aside of it. */
  ghost predicate Growing(s: State, ops: seq<Op>, p: DrmConnector, c: DrmCrtc, left: set<int>)
    requires WellFormed(s)
    decreases |ops|
  {
    ops == [] ||
    (((ops[0].BindOp? && Joins(s, ops[0].req, p, c, left)) || Aside(s, ops[0], p, c, left))
     && Growing(Step(s, ops[0]), ops[1..], p, c, Grown(s, ops[0], p, c, left)))
  }

  ghost function GrownAll(s: State, ops: seq<Op>, p: DrmConnector, c: DrmCrtc, left: set<int>): set<int>
    requires WellFormed(s)
    decreases |ops|
  {
    if ops == [] then left else GrownAll(Step(s, ops[0]), ops[1..], p, c, Grown(s, ops[0], p, c, left))
  }

  /** In every run the joins make the group, and whatever else goes on leaves it. */
  lemma {:induction false} GroupsGrow(s: State, ops: seq<Op>, p: DrmConnector, c: DrmCrtc, left: set<int>, down: bool)
    requires WellFormed(s) && OwnEncoders(s) && Group(s, p, c, left, down, false) && Growing(s, ops, p, c, left)
    ensures Group(Run(s, ops), p, c, GrownAll(s, ops, p, c, left), down, false)
    decreases |ops|
  {
    hide WellFormed, OwnEncoders, Group, Aside, Joins, Bind, Release;
    if ops != [] {
      StepKeepsOwnEncoders(s, ops[0]);
      if ops[0].BindOp? && Joins(s, ops[0].req, p, c, left) {
        BindJoinsGroup(s, ops[0].req, p, c, left, down);
      } else {
        StepAside(s, ops[0], p, c, left, down);
      }
      GroupsGrow(Step(s, ops[0]), ops[1..], p, c, Grown(s, ops[0], p, c, left), down);
    }
  }

  lemma GroupIds(s: State, p: DrmConnector, c: DrmCrtc, left: set<int>, down: bool)
    requires WellFormed(s) && Group(s, p, c, left, down, false)
    ensures 0 <= p.display < 16 && forall d :: d in left ==> 0 <= d < 16
  {
    forall d | d in left ensures 0 <= d < 16 {
      assert Known(s, d);
    }
  }

  /**
   * From the allocator's start to the last cable: a connector bound, others mirroring it in a run with anybody
   * else's binds and releases in between, and then the group's unplug events in any order. The CRTC keeps the
   * primary's display until a freeing event.
   */
  lemma BoundMirroredUnplugged(s: State, req: int, ops: seq<Op>, evs: seq<Event>)
    requires WellFormed(s) && OwnEncoders(s) && Bind(s, req).1 == 0 && !BindsByMirror(s, req)
    requires Owner(s, req) in s.mirror && var m := s.mirror[Owner(s, req)]; !m.mode && !m.primary && m.displays == {}
    requires Owner(s, req) in s.attr && s.attr[Owner(s, req)].plugged
    ensures Keeps(s, Bind(s, req).0)
    ensures var p: DrmConnector, t := Owner(s, req), Bind(s, req).0;
            && p in t.encoderOf && t.encoderOf[p] in t.crtcOf && t.crtcOf[t.encoderOf[p]] != null
            && var c: DrmCrtc := t.crtcOf[t.encoderOf[p]];
               var externals := GrownAll(t, ops, p, c, {});
               Growing(t, ops, p, c, {}) && externals != {} && Orderly(externals + {p.display}, evs) ==>
                 var u := Play(Run(t, ops), evs);
                 c in u.display && u.display[c] == if Freed(p.display, externals, evs) then -1 else p.display
  {
    BindStartsGroup(s, req);
    StepKeepsOwnEncoders(s, BindOp(req));
    var p: DrmConnector, t := Owner(s, req), Bind(s, req).0;
    var c: DrmCrtc := t.crtcOf[t.encoderOf[p]];
    var externals := GrownAll(t, ops, p, c, {});
    assert Step(s, BindOp(req)) == t;
    hide ValidBoard, PointersOnBoard, OwnEncoders, Group, Bind, Growing, GrownAll, Orderly, Freed, Play;
    if Growing(t, ops, p, c, {}) && externals != {} && Orderly(externals + {p.display}, evs) {
      GroupsGrow(t, ops, p, c, {}, false);
      GroupIds(Run(t, ops), p, c, externals, false);
      UnplugInAnyOrder(Run(t, ops), p, c, externals, evs);
    }
  }
}
