/** Runs of the allocator, and CRTC exclusivity over all of them. */
module AllocationTheorems {
  import opened DisplayModes
  import opened DrmResources
  import opened CrtcAllocation

  // ---- Runs -----------------------------------------------------------------------------------

  /** Binds and releases by display id; the rest is what the kernel or the user does to a connector. */
  datatype Op =
    | BindOp(req: int)
    | ReleaseOp(req: int)
    | Hotplug(k: DrmConnector, connected: bool)
    | SwitchMode(k: DrmConnector, mode: Mode)
    | Probe(k: DrmConnector, modes: seq<Mode>, raw: seq<Mode>)

  /** A change of a connector's attributes that no bind or release makes. */
  function Edited(v: Attributes, op: Op): Attributes {
    match op
    case Hotplug(_, b) => v.(connected := b)
    case SwitchMode(_, m) => v.(current := m)
    case Probe(_, ms, raw) => v.(modes := ms, raw := raw)
    case _ => v
  }

  ghost function Step(s: State, op: Op): (t: State)
    requires WellFormed(s)
    ensures Keeps(s, t)
  {
    if op.BindOp? then BindShape(s, op.req); Bind(s, op.req).0
    else if op.ReleaseOp? then ReleaseShape(s, op.req); Release(s, op.req).0
    else if op.k in s.board.conns then
      AttributesShape(s, op.k, Edited(s.attr[op.k], op));
      SetAttributes(s, op.k, Edited(s.attr[op.k], op))
    else s
  }

  ghost function Run(s: State, ops: seq<Op>): (t: State)
    requires WellFormed(s)
    ensures Keeps(s, t)
    decreases |ops|
  {
    if ops == [] then s else Run(Step(s, ops[0]), ops[1..])
  }

  // ---- Exclusivity ----------------------------------------------------------------------------

  /** A bound connector drives a CRTC that carries its own display. */
  ghost predicate Owns(s: State, k: DrmConnector)
    requires WellFormed(s) && k in s.board.conns
  {
    var e := s.encoderOf[k];
    e != null ==> e in k.possibleEncoders && s.crtcOf[e] != null && s.display[s.crtcOf[e]] == k.display
  }

  ghost predicate Exclusive(s: State)
    requires WellFormed(s)
  {
    forall k :: k in s.board.conns ==> Owns(s, k)
  }

  ghost predicate MirrorRefused(s: State) {
    forall k :: k in s.mirror ==> !k.supportsRgb && !s.mirror[k].mode
  }

  lemma PrivateEncoders(s: State, k: DrmConnector, l: DrmConnector, e: DrmEncoder)
    requires WellFormed(s) && k in s.board.conns && l in s.board.conns && k != l
    requires e in k.possibleEncoders
    ensures e !in l.possibleEncoders
  {
  }

  /** Under exclusivity no CRTC is driven by two connectors. */
  lemma ExclusiveMeansOneDriver(s: State, k: DrmConnector, l: DrmConnector)
    requires WellFormed(s) && Exclusive(s) && k in s.board.conns && l in s.board.conns && k != l
    requires s.encoderOf[k] != null && s.encoderOf[l] != null
    ensures s.crtcOf[s.encoderOf[k]] != s.crtcOf[s.encoderOf[l]]
  {
    assert Owns(s, k) && Owns(s, l);
    DistinctDisplays(s, k, l);
  }

  lemma OwnsAfterChoice(s: State, req: int, k: DrmConnector, ch: Choice, l: DrmConnector)
    requires WellFormed(s) && k in s.board.conns && l in s.board.conns && l != k && Owns(s, l)
    requires ValidChoice(s, req, k, ch) && !ch.pass.ByMirror?
    ensures WellFormed(Apply(s, req, k, ch)) && Owns(Apply(s, req, k, ch), l)
  {
    ApplyShape(s, req, k, ch);
    DistinctDisplays(s, k, l);
    PrivateEncoders(s, k, l, ch.cand.enc);
    OwnerFinds(s, s.display[ch.cand.crtc]);
    OwnerFinds(s, l.display);
    hide ValidBoard, PointersOnBoard, Apply;
  }

  lemma ChoiceStaysExclusive(s: State, req: int, k: DrmConnector, ch: Choice)
    requires WellFormed(s) && k in s.board.conns && Exclusive(s)
    requires ValidChoice(s, req, k, ch) && !ch.pass.ByMirror?
    ensures Keeps(s, Apply(s, req, k, ch)) && Exclusive(Apply(s, req, k, ch))
  {
    ApplyShape(s, req, k, ch);
    var t := Apply(s, req, k, ch);
    forall l | l in t.board.conns ensures Owns(t, l) {
      hide WellFormed, Eligible, Apply;
      if l != k {
        OwnsAfterChoice(s, req, k, ch, l);
      }
    }
  }

  lemma UnboundStaysExclusive(s: State, k: DrmConnector)
    requires WellFormed(s) && k in s.board.conns && Exclusive(s)
    ensures Keeps(s, SetEncoder(s, k, null)) && Exclusive(SetEncoder(s, k, null))
  {
    UnboundShape(s, k);
    var t := SetEncoder(s, k, null);
    forall l | l in t.board.conns ensures Owns(t, l) {
      hide ValidBoard, PointersOnBoard;
      assert Owns(s, l);
    }
  }

  /** Only the routing fields matter. */
  lemma SameRoutesStayExclusive(s: State, t: State)
    requires WellFormed(s) && Exclusive(s) && Keeps(s, t)
    requires t.display == s.display && t.crtcOf == s.crtcOf && t.encoderOf == s.encoderOf
    ensures Exclusive(t)
  {
    forall l | l in t.board.conns ensures Owns(t, l) {
      hide ValidBoard, PointersOnBoard;
      assert Owns(s, l);
    }
  }

  lemma BindStaysExclusive(s: State, req: int)
    requires WellFormed(s) && Exclusive(s) && MirrorRefused(s)
    ensures Keeps(s, Bind(s, req).0) && Exclusive(Bind(s, req).0)
  {
    BindShape(s, req);
    var k := Owner(s, req);
    if k != null && Alive(s, k) {
      FindShape(s, req, k);
      UnboundStaysExclusive(s, k);
      var s0 := SetEncoder(s, k, null);
      assert k in s.mirror;
      hide WellFormed, Bind, Find, Select, Apply, Exclusive;
      if Select(s0, req, k).Some? {
        ChoiceStaysExclusive(s0, req, k, Select(s0, req, k).value);
      }
      SameRoutesStayExclusive(Find(s, req, k).0, Bind(s, req).0);
    }
  }

  lemma ReleaseStaysExclusive(s: State, req: int)
    requires WellFormed(s) && Exclusive(s) && MirrorRefused(s)
    ensures Keeps(s, Release(s, req).0) && Exclusive(Release(s, req).0)
  {
    ReleaseShape(s, req);
    var k, t := Owner(s, req), Release(s, req).0;
    forall l | l in t.board.conns ensures Owns(t, l) {
      assert Owns(s, l);
      if k != null && l != k && s.encoderOf[k] != null && s.encoderOf[l] != null {
        assert Owns(s, k);
        ExclusiveMeansOneDriver(s, k, l);
      }
      hide ValidBoard, PointersOnBoard, Release;
    }
  }

  /** The mirror pass is the only part of a bind that touches mirror fields. */
  ghost predicate BindsByMirror(s: State, req: int)
    requires WellFormed(s)
  {
    OwnerFinds(s, req);
    var k := Owner(s, req);
    Alive(s, k) &&
    (UnboundShape(s, k);
     var r := Select(SetEncoder(s, k, null), req, k);
     r.Some? && r.value.pass.ByMirror?)
  }

  lemma BindMirrors(s: State, req: int)
    requires WellFormed(s)
    ensures !BindsByMirror(s, req) ==> Bind(s, req).0.mirror == s.mirror
    ensures MirrorRefused(s) ==> Bind(s, req).0.mirror == s.mirror
  {
    BindShape(s, req);
    var k := Owner(s, req);
    if k != null && Alive(s, k) {
      FindShape(s, req, k);
      assert k in s.mirror;
      var s0 := SetEncoder(s, k, null);
      hide WellFormed, Bind, Find, Select, Apply;
      if Select(s0, req, k).Some? {
        ApplyShape(s0, req, k, Select(s0, req, k).value);
      }
    }
  }

  lemma StepStaysExclusive(s: State, op: Op)
    requires WellFormed(s) && Exclusive(s) && MirrorRefused(s)
    ensures Exclusive(Step(s, op)) && MirrorRefused(Step(s, op))
  {
    if op.BindOp? {
      BindStaysExclusive(s, op.req);
      BindMirrors(s, op.req);
    } else if op.ReleaseOp? {
      ReleaseStaysExclusive(s, op.req);
      ReleaseShape(s, op.req);
    } else {
      SameRoutesStayExclusive(s, Step(s, op));
    }
    hide WellFormed, Bind, Release, Exclusive;
  }

  /**
   * CRTC exclusivity: however binds, releases, hotplugs, mode switches and probes are interleaved,
   * a bound connector's CRTC carries that connector's display, so no CRTC has two drivers.
   */
  lemma {:induction false} RunStaysExclusive(s: State, ops: seq<Op>)
    requires WellFormed(s) && Exclusive(s) && MirrorRefused(s)
    ensures Exclusive(Run(s, ops)) && MirrorRefused(Run(s, ops))
    decreases |ops|
  {
    hide WellFormed, Exclusive, Step, MirrorRefused;
    if ops != [] {
      StepStaysExclusive(s, ops[0]);
      RunStaysExclusive(Step(s, ops[0]), ops[1..]);
    }
  }

  lemma RunHasOneDriverPerCrtc(s: State, ops: seq<Op>, k: DrmConnector, l: DrmConnector)
    requires WellFormed(s) && Exclusive(s) && MirrorRefused(s)
    requires k in s.board.conns && l in s.board.conns && k != l
    requires Run(s, ops).encoderOf[k] != null && Run(s, ops).encoderOf[l] != null
    ensures Run(s, ops).crtcOf[Run(s, ops).encoderOf[k]] != Run(s, ops).crtcOf[Run(s, ops).encoderOf[l]]
  {
    RunStaysExclusive(s, ops);
    ExclusiveMeansOneDriver(Run(s, ops), k, l);
  }

  // ---- What a bind gives and a release takes --------------------------------------------------

  /** A bind that succeeds leaves the connector on a CRTC within reach, its own unless it mirrors. */
  lemma BindBinds(s: State, req: int)
    requires WellFormed(s) && Bind(s, req).1 == 0
    ensures Owner(s, req) != null && Owner(s, req) in s.board.conns
    ensures var k: DrmConnector, t := Owner(s, req), Bind(s, req).0;
            && Keeps(s, t) && k in t.encoderOf && t.encoderOf[k] != null && t.encoderOf[k] in k.possibleEncoders
            && t.encoderOf[k] in t.crtcOf && t.crtcOf[t.encoderOf[k]] != null
            && t.crtcOf[t.encoderOf[k]] in t.encoderOf[k].possibleCrtcs && t.crtcOf[t.encoderOf[k]] in s.display
            && if BindsByMirror(s, req) then t.display == s.display
               else t.mirror == s.mirror && t.display == s.display[t.crtcOf[t.encoderOf[k]] := k.display]
  {
    BindShape(s, req);
    var k := Owner(s, req);
    FindShape(s, req, k);
    var s0 := SetEncoder(s, k, null);
    hide WellFormed, Find, Select, Apply, Activate;
    ApplyShape(s0, req, k, Select(s0, req, k).value);
  }

  /** Releasing a connector just bound gives every CRTC back its display exactly when the bind took a free one. */
  lemma ReleaseUndoesBind(s: State, req: int)
    requires WellFormed(s) && Bind(s, req).1 == 0 && !BindsByMirror(s, req)
    requires Owner(s, req) in s.mirror && !s.mirror[Owner(s, req)].mode
    ensures Keeps(s, Bind(s, req).0)
    ensures var k, t := Owner(s, req), Bind(s, req).0;
            var (u, r) := Release(t, req);
            && r == 0 && u.mirror == s.mirror && u.encoderOf == t.encoderOf[k := null]
            && k in t.encoderOf && t.encoderOf[k] in t.crtcOf && t.crtcOf[t.encoderOf[k]] in s.display
            && (u.display == s.display <==> s.display[t.crtcOf[t.encoderOf[k]]] == -1)
  {
    BindBinds(s, req);
    var k, t := Owner(s, req), Bind(s, req).0;
    ReleaseShape(t, req);
    var c := t.crtcOf[t.encoderOf[k]];
    hide WellFormed, Bind, ReleaseMirror;
    assert Release(t, req).0.display == s.display[c := -1];
    assert s.display[c := -1] == s.display <==> s.display[c] == -1 by { Untouched(s.display, c); }
  }

  lemma Untouched(display: map<DrmCrtc, int>, c: DrmCrtc)
    requires c in display
    ensures display[c := -1] == display <==> display[c] == -1
  {
    assert display[c := -1][c] == -1;
  }
}
