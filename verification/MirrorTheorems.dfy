/** Coherence of the mirror groups over runs of the whole allocator. */
module MirrorTheorems {
  import opened DisplayModes
  import opened DrmResources
  import opened CrtcAllocation
  import opened AllocationTheorems
  import opened SelectionTheorems
  import MirrorGroups

  // ---- The groups of a board ------------------------------------------------------------------

  ghost predicate Shown(b: Board, d: nat) {
    exists k :: k in b.conns && k.display == d
  }

  ghost function ConnectorOf(b: Board, d: nat): (k: DrmConnector)
    requires Shown(b, d)
    ensures k in b.conns && k.display == d
  {
    var k :| k in b.conns && k.display == d; k
  }

  /** The mirror fields of the board, by display. */
  ghost function Groups(b: Board, m: map<DrmConnector, Mirror>): MirrorGroups.Groups
    requires m.Keys == b.conns
  {
    map d: nat | 0 <= d < 16 && Shown(b, d) :: m[ConnectorOf(b, d)]
  }

  ghost function GroupsOf(s: State): MirrorGroups.Groups
    requires WellFormed(s)
  {
    Groups(s.board, s.mirror)
  }

  lemma GroupsAt(b: Board, m: map<DrmConnector, Mirror>, k: DrmConnector)
    requires ValidBoard(b) && m.Keys == b.conns && k in b.conns
    ensures k.display in Groups(b, m) && Groups(b, m)[k.display] == m[k]
  {
    assert Shown(b, k.display);
  }

  lemma GroupsUpdate(b: Board, m: map<DrmConnector, Mirror>, k: DrmConnector, v: Mirror)
    requires ValidBoard(b) && m.Keys == b.conns && k in b.conns
    ensures m[k := v].Keys == b.conns && Groups(b, m[k := v]) == Groups(b, m)[k.display := v]
  {
    GroupsAt(b, m, k);
    var m' := m[k := v];
    forall d | d in Groups(b, m') ensures Groups(b, m')[d] == Groups(b, m)[k.display := v][d] {
      GroupsAt(b, m, ConnectorOf(b, d));
    }
  }

  lemma JoinedGroups(b: Board, m: map<DrmConnector, Mirror>, req: int, o: DrmConnector, k: DrmConnector)
    requires ValidBoard(b) && m.Keys == b.conns && o in b.conns && k in b.conns && o != k
    ensures o.display in Groups(b, m) && k.display in Groups(b, m)
            && JoinedMirrors(m, req, o, o.display, k).Keys == b.conns
    ensures Groups(b, JoinedMirrors(m, req, o, o.display, k))
            == MirrorGroups.Join(Groups(b, m), o.display, k.display, req)
  {
    var v := EnableMirror(m[o], o.display, o.display, req);
    GroupsAt(b, m, o);
    GroupsAt(b, m, k);
    GroupsUpdate(b, m, o, v);
    var m1 := m[o := v];
    GroupsAt(b, m1, k);
    GroupsUpdate(b, m1, k, EnableMirror(m1[k], k.display, o.display, req));
  }

  lemma LeftGroups(s: State, req: int, k: DrmConnector)
    requires WellFormed(s) && k in s.board.conns && (s.mirror[k].mode ==> s.mirror[k].primaryId < 16)
    ensures Keeps(s, ReleaseMirror(s, req, k))
    ensures k.display in GroupsOf(s)
    ensures GroupsOf(ReleaseMirror(s, req, k)) == MirrorGroups.Leave(GroupsOf(s), k.display, req)
  {
    hide ValidBoard, PointersOnBoard, ReleaseMirror, FindConnector;
    ReleaseMirrorShape(s, req, k);
    var b, m := s.board, s.mirror;
    var v := DisableMirror(m[k], req);
    var m1 := m[k := v];
    GroupsAt(b, m, k);
    GroupsUpdate(b, m, k, v);
    var id := m[k].PrimaryId();
    OwnerFinds(s, id);
    var p := Informed(s, k);
    if p != null {
      var q: DrmConnector := p;
      GroupsAt(b, m1, q);
      GroupsUpdate(b, m1, q, DisableMirror(m1[q], req));
    } else if id >= 0 && !m[k].IsPrimary() {
      assert !Shown(b, id);
    }
  }

  // ---- Binds ----------------------------------------------------------------------------------

  /** CRTCs carry plain display ids. */
  ghost predicate PlainDisplays(s: State) {
    forall c :: c in s.display ==> -1 <= s.display[c] < 16
  }

  /** The connector a bind would mirror: the owner of the chosen CRTC. */
  ghost function MirrorOwner(s: State, req: int): DrmConnector
    requires WellFormed(s) && BindsByMirror(s, req)
  {
    OwnerFinds(s, req);
    var k: DrmConnector := Owner(s, req);
    SelectOrder(s, req, k);
    var c := Select(SetEncoder(s, k, null), req, k).value.cand.crtc;
    OwnerFinds(s, s.display[c]);
    Owner(s, s.display[c])
  }

  /** A display is never mirrored onto itself: its own CRTC would have been taken by the first pass. */
  lemma MirrorPairIsProper(s: State, req: int)
    requires WellFormed(s) && PlainDisplays(s) && BindsByMirror(s, req)
    ensures var k, o := Owner(s, req), MirrorOwner(s, req);
            k in s.board.conns && o in s.board.conns && o != k && k.display == MaskSplit(req)
  {
    OwnerFinds(s, req);
    var k: DrmConnector := Owner(s, req);
    SelectOrder(s, req, k);
    var c := Select(SetEncoder(s, k, null), req, k).value.cand.crtc;
    OwnerFinds(s, s.display[c]);
    if Owner(s, s.display[c]) == k {
      NothingEarlier(s, req, k, FirstFit(true), c);
    }
    hide ValidBoard, PointersOnBoard, Select;
  }

  lemma MirroredBind(s: State, req: int)
    requires WellFormed(s) && PlainDisplays(s) && BindsByMirror(s, req)
    ensures Keeps(s, Bind(s, req).0)
    ensures var k, o := Owner(s, req), MirrorOwner(s, req);
            && k in s.board.conns && o in s.board.conns && o != k && k in s.mirror && o in s.mirror
            && Bind(s, req).0.mirror == JoinedMirrors(s.mirror, req, o, o.display, k)
  {
    MirrorPairIsProper(s, req);
    BindShape(s, req);
    var k: DrmConnector := Owner(s, req);
    FindShape(s, req, k);
    var s0 := SetEncoder(s, k, null);
    var ch := Select(s0, req, k).value;
    var d := s.display[ch.cand.crtc];
    OwnerFinds(s, d);
    ApplyShape(s0, req, k, ch);
    assert -1 <= d < 16;
    hide ValidBoard, PointersOnBoard, Bind, Find, Select, Apply;
  }

  /** What a bind does to the groups: a join when it mirrors, nothing otherwise. */
  lemma BindGroups(s: State, req: int)
    requires WellFormed(s) && PlainDisplays(s)
    ensures Keeps(s, Bind(s, req).0)
    ensures if BindsByMirror(s, req) then
              && MirrorOwner(s, req).display in GroupsOf(s) && Owner(s, req).display in GroupsOf(s)
              && GroupsOf(Bind(s, req).0)
                 == MirrorGroups.Join(GroupsOf(s), MirrorOwner(s, req).display, Owner(s, req).display, req)
            else GroupsOf(Bind(s, req).0) == GroupsOf(s)
  {
    hide ValidBoard, PointersOnBoard, Bind, Groups, MirrorOwner, BindsByMirror;
    BindShape(s, req);
    if BindsByMirror(s, req) {
      MirroredBind(s, req);
      JoinedGroups(s.board, s.mirror, req, MirrorOwner(s, req), Owner(s, req));
    } else {
      BindMirrors(s, req);
    }
  }

  // ---- Coherence, step by step ----------------------------------------------------------------

  ghost predicate SafeBind(s: State, req: int)
    requires WellFormed(s) && PlainDisplays(s)
  {
    BindGroups(s, req);
    BindsByMirror(s, req) ==>
      MirrorGroups.Joinable(GroupsOf(s), MirrorOwner(s, req).display, Owner(s, req).display, req)
  }

  ghost predicate SafeRelease(s: State, req: int)
    requires WellFormed(s)
  {
    ReleaseShape(s, req);
    var k := Owner(s, req);
    k != null && Driven(s, k) && s.mirror[k].IsExternal() ==> req == k.display
  }

  /** What keeps one step from breaking the groups. */
  ghost predicate SafeStep(s: State, op: Op)
    requires WellFormed(s) && PlainDisplays(s)
  {
    && (op.BindOp? ==> SafeBind(s, op.req))
    && (op.ReleaseOp? ==> SafeRelease(s, op.req))
  }

  lemma SplitIdIsNotShown(s: State, req: int)
    requires WellFormed(s)
    ensures req == MaskSplit(req) || req !in GroupsOf(s)
  {
    OwnerFinds(s, req);
  }

  lemma BindCoherence(s: State, req: int)
    requires WellFormed(s) && PlainDisplays(s) && MirrorGroups.Coherent(GroupsOf(s))
    ensures Keeps(s, Bind(s, req).0)
    ensures MirrorGroups.Coherent(GroupsOf(Bind(s, req).0)) <==> SafeBind(s, req)
  {
    BindGroups(s, req);
    SplitIdIsNotShown(s, req);
    if BindsByMirror(s, req) {
      MirrorPairIsProper(s, req);
      var k: DrmConnector := Owner(s, req);
      DistinctDisplays(s, k, MirrorOwner(s, req));
      MirrorGroups.JoinCoherence(GroupsOf(s), MirrorOwner(s, req).display, k.display, req);
    }
    hide ValidBoard, PointersOnBoard, Bind, GroupsOf, MirrorOwner, BindsByMirror, MirrorGroups.Coherent,
      MirrorGroups.Join;
  }

  lemma ReleaseCoherence(s: State, req: int)
    requires WellFormed(s) && PlainDisplays(s) && MirrorGroups.Coherent(GroupsOf(s))
    ensures Keeps(s, Release(s, req).0)
    ensures MirrorGroups.Coherent(GroupsOf(Release(s, req).0)) <==> SafeRelease(s, req)
  {
    ReleaseShape(s, req);
    SplitIdIsNotShown(s, req);
    var k := Owner(s, req);
    if k != null && Driven(s, k) && s.mirror[k].mode {
      GroupsAt(s.board, s.mirror, k);
      assert MirrorGroups.Agrees(GroupsOf(s), k.display);
      LeftGroups(s, req, k);
      MirrorGroups.LeaveCoherence(GroupsOf(s), k.display, req);
    }
    hide ValidBoard, PointersOnBoard, Release, GroupsOf, MirrorGroups.Coherent, MirrorGroups.Leave;
  }

  /**
   * Mirror coherence, exactly: on coherent groups a bind keeps them coherent if and only if it does not
   * mirror or the pair is joinable; a release if and only if an external is released under its own id;
   * everything else always does.
   */
  lemma StepCoherence(s: State, op: Op)
    requires WellFormed(s) && PlainDisplays(s) && MirrorGroups.Coherent(GroupsOf(s))
    ensures MirrorGroups.Coherent(GroupsOf(Step(s, op))) <==> SafeStep(s, op)
    ensures PlainDisplays(Step(s, op))
  {
    PlainDisplaysStay(s, op);
    if op.BindOp? {
      BindCoherence(s, op.req);
    } else if op.ReleaseOp? {
      ReleaseCoherence(s, op.req);
    }
    hide WellFormed, PlainDisplays, Bind, Release, MirrorGroups.Coherent, SafeBind, SafeRelease, Groups;
  }

  lemma PlainDisplaysStay(s: State, op: Op)
    requires WellFormed(s) && PlainDisplays(s)
    ensures PlainDisplays(Step(s, op))
  {
    if op.BindOp? {
      BindDisplays(s, op.req);
    } else if op.ReleaseOp? {
      ReleaseShape(s, op.req);
      if Owner(s, op.req) != null {
        ReleaseMirrorShape(s, op.req, Owner(s, op.req));
      }
    }
    hide WellFormed, Bind, Release;
  }

  /** A bind gives at most one CRTC the display of the connector it binds. */
  lemma BindDisplays(s: State, req: int)
    requires WellFormed(s)
    ensures var t := Bind(s, req).0;
            t.display.Keys == s.display.Keys
            && forall c :: c in s.display ==>
              t.display[c] == s.display[c] || (t.display[c] == MaskSplit(req) && 0 <= MaskSplit(req) < 16)
  {
    hide PointersOnBoard, Bind, Find, Select, Apply;
    BindShape(s, req);
    var k := Owner(s, req);
    if k != null && Alive(s, k) {
      FindShape(s, req, k);
      var s0 := SetEncoder(s, k, null);
      if Select(s0, req, k).Some? {
        ApplyShape(s0, req, k, Select(s0, req, k).value);
      }
    }
  }

  ghost predicate SafeRun(s: State, ops: seq<Op>)
    requires WellFormed(s) && PlainDisplays(s)
    decreases |ops|
  {
    ops == [] || (SafeStep(s, ops[0]) && (PlainDisplaysStay(s, ops[0]); SafeRun(Step(s, ops[0]), ops[1..])))
  }

  /** Any run whose steps pass their own check keeps the groups coherent, with all other steps in between. */
  lemma {:induction false} RunKeepsGroupsCoherent(s: State, ops: seq<Op>)
    requires WellFormed(s) && PlainDisplays(s) && MirrorGroups.Coherent(GroupsOf(s)) && SafeRun(s, ops)
    ensures MirrorGroups.Coherent(GroupsOf(Run(s, ops)))
    decreases |ops|
  {
    hide WellFormed, PlainDisplays, MirrorGroups.Coherent, GroupsOf, SafeStep;
    if ops != [] {
      StepCoherence(s, ops[0]);
      RunKeepsGroupsCoherent(Step(s, ops[0]), ops[1..]);
    }
  }
}
