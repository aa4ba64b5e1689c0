/** Completeness, last-resort preemption, output capability and termination of the CRTC selection. */
module SelectionTheorems {
  import opened DisplayModes
  import opened DrmResources
  import opened CrtcAllocation
  import opened AllocationTheorems

  ghost predicate Reaches(k: DrmConnector, c: DrmCrtc) {
    exists e :: e in k.possibleEncoders && c in e.possibleCrtcs
  }

  /** A connected connector whose display the CRTC carries; split bits are ignored. */
  ghost predicate Holds(s: State, o: DrmConnector, c: DrmCrtc)
    requires WellFormed(s) && o in s.board.conns && c in s.display
  {
    s.attr[o].connected && o.display == MaskSplit(s.display[c])
  }

  /** Nobody usable sits on `c`: it is free, already the connector's own, or its owner is gone. */
  ghost predicate Available(s: State, k: DrmConnector, c: DrmCrtc)
    requires WellFormed(s) && c in s.display
  {
    s.display[c] < 0 || s.display[c] == k.display || forall o :: o in s.board.conns ==> !Holds(s, o, c)
  }

  ghost predicate Outranked(s: State, k: DrmConnector, c: DrmCrtc)
    requires WellFormed(s) && c in s.display
  {
    k.priority <= 0 || exists o :: o in s.board.conns && Holds(s, o, c) && k.priority < o.priority
  }

  /** `c` can output the current mode of `k`, and shows the same timing for another display that is connected. */
  ghost predicate Mirrorable(s: State, req: int, k: DrmConnector, c: DrmCrtc)
    requires WellFormed(s) && k in s.board.conns && c in s.display
  {
    && k.supportsRgb
    && s.display[c] >= 0 && s.display[c] != req
    && CapOk(c, s.attr[k].current)
    && exists o :: o in s.board.conns && Holds(s, o, c)
                   && s.attr[o].active.id > 0 && s.attr[o].active.timing == s.attr[k].current.timing
  }

  /** Whoever holds a CRTC is its owner, the one that is looked up. */
  lemma HoldsIsOwner(s: State, c: DrmCrtc)
    requires WellFormed(s) && c in s.display
    ensures var o := Owner(s, s.display[c]);
            && (o != null ==> o in s.board.conns && o in s.attr)
            && (Alive(s, o) <==> o != null && Holds(s, o, c))
            && forall l :: l in s.board.conns && Holds(s, l, c) ==> l == o
  {
    OwnerFinds(s, s.display[c]);
  }

  /** The passes that take, mirror and preempt, in those terms. */
  lemma EligibleMeans(s: State, req: int, k: DrmConnector, c: DrmCrtc, cap: bool)
    requires WellFormed(s) && k in s.board.conns && c in s.display
    ensures Eligible(FirstFit(cap), s, req, k, c) || Eligible(Orphan(cap), s, req, k, c)
            <==> Available(s, k, c) && (cap ==> CapOk(c, s.attr[k].current))
    ensures Eligible(ByMirror, s, req, k, c) <==> Mirrorable(s, req, k, c)
    ensures Eligible(Compete, s, req, k, c) ==> Available(s, k, c) || Outranked(s, k, c)
    ensures Outranked(s, k, c) ==> Eligible(Compete, s, req, k, c)
  {
    hide ValidBoard, PointersOnBoard, CapOk, FindConnector;
    HoldsIsOwner(s, c);
  }

  function PassRank(p: Pass): nat {
    match p
    case FirstFit(cap) => if cap then 0 else 3
    case Orphan(cap) => if cap then 1 else 4
    case ByMirror => 2
    case Compete => 5
  }

  lemma EligibleIgnoresEncoder(p: Pass, s: State, req: int, k: DrmConnector, c: DrmCrtc)
    requires WellFormed(s) && k in s.board.conns && c in s.display
    ensures Keeps(s, SetEncoder(s, k, null))
    ensures Eligible(p, SetEncoder(s, k, null), req, k, c) == Eligible(p, s, req, k, c)
  {
    UnboundShape(s, k);
    OwnerFinds(s, s.display[c]);
  }

  lemma PassIndex(n: nat, p: Pass)
    requires n < |PASSES|
    ensures p in PASSES && PASSES[PassRank(p)] == p
    ensures PASSES[n] == p ==> n == PassRank(p)
  {
    assert PASSES[PassRank(p)] == p;
  }

  lemma EarlierPassOffersNothing(s: State, req: int, k: DrmConnector, p: Pass, c: DrmCrtc)
    requires WellFormed(s) && k in s.board.conns && Reaches(k, c)
    requires var r := Select(s, req, k); r.Some? ==> PassRank(p) < PassRank(r.value.pass)
    ensures c in s.display && !Eligible(p, s, req, k, c)
  {
    SelectFromChooses(PASSES, s, req, k);
    var r := Select(s, req, k);
    PassIndex(0, p);
    if r.Some? {
      var n :| 0 <= n < |PASSES| && PASSES[n] == r.value.pass
               && forall i :: 0 <= i < n ==> NoneEligible(PASSES[i], s, req, k);
      PassIndex(n, r.value.pass);
    }
    assert NoneEligible(PASSES[PassRank(p)], s, req, k);
  }

  /** The pass that wins is judged in the caller's state ... */
  lemma SelectOrder(s: State, req: int, k: DrmConnector)
    requires WellFormed(s) && k in s.board.conns
    ensures Keeps(s, SetEncoder(s, k, null))
    ensures var r := Select(SetEncoder(s, k, null), req, k);
            r.Some? ==> Reaches(k, r.value.cand.crtc) && r.value.cand.crtc in s.display && r.value.cand.enc in s.crtcOf
                        && r.value.cand.enc in k.possibleEncoders
                        && Eligible(r.value.pass, s, req, k, r.value.cand.crtc)
  {
    UnboundShape(s, k);
    var s0 := SetEncoder(s, k, null);
    SelectChooses(s0, req, k);
    var r := Select(s0, req, k);
    if r.Some? {
      EligibleIgnoresEncoder(r.value.pass, s, req, k, r.value.cand.crtc);
    }
  }

  /** ... and no earlier pass had anything to offer. */
  lemma NothingEarlier(s: State, req: int, k: DrmConnector, p: Pass, c: DrmCrtc)
    requires WellFormed(s) && k in s.board.conns && Reaches(k, c) && WellFormed(SetEncoder(s, k, null))
    requires var r := Select(SetEncoder(s, k, null), req, k); r.Some? ==> PassRank(p) < PassRank(r.value.pass)
    ensures c in s.display && !Eligible(p, s, req, k, c)
  {
    EarlierPassOffersNothing(SetEncoder(s, k, null), req, k, p, c);
    EligibleIgnoresEncoder(p, s, req, k, c);
  }

  /** What the passes up to preemption left behind. */
  lemma NothingToTake(s: State, req: int, k: DrmConnector, c: DrmCrtc)
    requires WellFormed(s) && k in s.board.conns && Reaches(k, c) && WellFormed(SetEncoder(s, k, null))
    requires var r := Select(SetEncoder(s, k, null), req, k); r.Some? ==> r.value.pass == Compete
    ensures c in s.display && !Available(s, k, c) && !Mirrorable(s, req, k, c)
  {
    hide WellFormed, Eligible, Available, Mirrorable, Reaches, Select;
    NothingEarlier(s, req, k, FirstFit(false), c);
    NothingEarlier(s, req, k, Orphan(false), c);
    NothingEarlier(s, req, k, ByMirror, c);
    EligibleMeans(s, req, k, c, false);
  }

  /** What the winning pass took. */
  lemma SomethingTaken(s: State, req: int, k: DrmConnector)
    requires WellFormed(s) && k in s.board.conns && WellFormed(SetEncoder(s, k, null))
    requires Select(SetEncoder(s, k, null), req, k).Some?
    ensures var c := Select(SetEncoder(s, k, null), req, k).value.cand.crtc;
            Reaches(k, c) && c in s.display && (Available(s, k, c) || Outranked(s, k, c) || Mirrorable(s, req, k, c))
  {
    hide WellFormed, Eligible, Available, Outranked, Mirrorable, Reaches, Select;
    SelectOrder(s, req, k);
    var c := Select(SetEncoder(s, k, null), req, k).value.cand.crtc;
    EligibleMeans(s, req, k, c, false);
    EligibleMeans(s, req, k, c, true);
  }

  /**
   * The search fails exactly when there is nothing to take: every CRTC within reach has another, connected
   * owner the connector does not outrank, and none can be mirrored. Without a priority anything within
   * reach is taken, so only an unreachable board fails.
   */
  lemma SelectionComplete(s: State, req: int, k: DrmConnector)
    requires WellFormed(s) && k in s.board.conns
    ensures Find(s, req, k).1.None? <==>
            forall c :: Reaches(k, c) ==>
              c in s.display && !Available(s, k, c) && !Outranked(s, k, c) && !Mirrorable(s, req, k, c)
  {
    hide WellFormed, Eligible, Available, Outranked, Mirrorable, Reaches, Select, Apply;
    SelectOrder(s, req, k);
    if Select(SetEncoder(s, k, null), req, k).None? {
      forall c | Reaches(k, c)
        ensures c in s.display && !Available(s, k, c) && !Outranked(s, k, c) && !Mirrorable(s, req, k, c)
      {
        NothingToTake(s, req, k, c);
        NothingEarlier(s, req, k, Compete, c);
        EligibleMeans(s, req, k, c, false);
      }
    } else {
      SomethingTaken(s, req, k);
    }
  }

  /** What a bind may do to a connected connector that had a CRTC. */
  ghost predicate Unseats(s: State, req: int, k: DrmConnector, l: DrmConnector)
    requires WellFormed(s) && k in s.board.conns && l in s.board.conns
  {
    FindShape(s, req, k);
    l != k && s.attr[l].connected && s.encoderOf[l] != null && Find(s, req, k).0.encoderOf[l] == null
  }

  lemma OnlyTheOwnerIsUnseated(s: State, req: int, k: DrmConnector, l: DrmConnector)
    requires WellFormed(s) && k in s.board.conns && l in s.board.conns && Unseats(s, req, k, l)
    ensures Keeps(s, SetEncoder(s, k, null))
    ensures var r := Select(SetEncoder(s, k, null), req, k);
            r.Some? && r.value.pass == Compete && r.value.cand.crtc in s.display
              && Owner(s, s.display[r.value.cand.crtc]) == l
  {
    hide WellFormed, Find, Select, Apply;
    Recorded(s, l);
    FindShape(s, req, k);
    SelectOrder(s, req, k);
    var s0 := SetEncoder(s, k, null);
    var r := Select(s0, req, k);
    if r.Some? {
      OwnerFinds(s, s.display[r.value.cand.crtc]);
      ApplyShape(s0, req, k, r.value);
    }
  }

  /**
   * A connected owner loses its CRTC only when no CRTC within reach is free, own or orphaned and none can
   * be mirrored, and then only to a connector that outranks it or has no priority at all.
   */
  lemma PreemptionIsTheLastResort(s: State, req: int, k: DrmConnector, l: DrmConnector)
    requires WellFormed(s) && k in s.board.conns && l in s.board.conns && Unseats(s, req, k, l)
    ensures forall c :: Reaches(k, c) ==> c in s.display && !Available(s, k, c) && !Mirrorable(s, req, k, c)
    ensures k.priority <= 0 || k.priority < l.priority
  {
    hide WellFormed, Available, Mirrorable, Reaches, Select, Apply, Unseats;
    OnlyTheOwnerIsUnseated(s, req, k, l);
    SelectOrder(s, req, k);
    var r := Select(SetEncoder(s, k, null), req, k);
    HoldsIsOwner(s, r.value.cand.crtc);
    UnseatedIsConnected(s, req, k, l);
    forall c | Reaches(k, c) ensures c in s.display && !Available(s, k, c) && !Mirrorable(s, req, k, c) {
      NothingToTake(s, req, k, c);
    }
  }

  lemma UnseatedIsConnected(s: State, req: int, k: DrmConnector, l: DrmConnector)
    requires WellFormed(s) && k in s.board.conns && l in s.board.conns && Unseats(s, req, k, l)
    ensures l in s.attr && Alive(s, l)
  {
    hide ValidBoard, PointersOnBoard, Find;
  }

  /**
   * When some available CRTC can output the connector's mode, the one chosen is available, can output it
   * too, and nobody connected is disturbed.
   */
  lemma CapableCrtcIsPreferred(s: State, req: int, k: DrmConnector, c: DrmCrtc)
    requires WellFormed(s) && k in s.board.conns && Reaches(k, c) && c in s.display
    requires Available(s, k, c) && CapOk(c, s.attr[k].current)
    ensures var r := Find(s, req, k).1;
            r.Some? && Reaches(k, r.value) && r.value in s.display && Available(s, k, r.value)
              && CapOk(r.value, s.attr[k].current)
    ensures forall l :: l in s.board.conns ==> !Unseats(s, req, k, l)
  {
    SelectOrder(s, req, k);
    OwnerFinds(s, s.display[c]);
    assert Eligible(FirstFit(true), s, req, k, c) || Eligible(Orphan(true), s, req, k, c);
    var r := Select(SetEncoder(s, k, null), req, k);
    if r.None? || PassRank(r.value.pass) > 1 {
      NothingEarlier(s, req, k, FirstFit(true), c);
      NothingEarlier(s, req, k, Orphan(true), c);
      assert false;
    }
    OwnerFinds(s, s.display[r.value.cand.crtc]);
    forall l | l in s.board.conns ensures !Unseats(s, req, k, l) {
      if Unseats(s, req, k, l) {
        OnlyTheOwnerIsUnseated(s, req, k, l);
      }
    }
  }

  /** The CRTC carries no display, or the connector's. */
  ghost predicate FreeOrOwn(s: State, k: DrmConnector, c: DrmCrtc)
    requires c in s.display
  {
    s.display[c] == -1 || s.display[c] == k.display
  }

  /**
   * Free before orphaned: when a CRTC within reach is free or the connector's own, the one found is too, or else it
   * can output the mode; and if the former can output the mode, the one found is free or own and can as well.
   */
  lemma FreeBeforeOrphaned(s: State, req: int, k: DrmConnector, c: DrmCrtc)
    requires WellFormed(s) && k in s.board.conns && Reaches(k, c) && c in s.display && FreeOrOwn(s, k, c)
    ensures k in s.attr
    ensures var r := Find(s, req, k).1;
            && r.Some? && r.value in s.display
            && (FreeOrOwn(s, k, r.value) || CapOk(r.value, s.attr[k].current))
            && (CapOk(c, s.attr[k].current) ==> FreeOrOwn(s, k, r.value) && CapOk(r.value, s.attr[k].current))
  {
    hide ValidBoard, PointersOnBoard, Reaches, Select, Apply, CapOk, FindConnector;
    SelectOrder(s, req, k);
    var r := Select(SetEncoder(s, k, null), req, k);
    if r.None? || PassRank(r.value.pass) > 3 {
      NothingEarlier(s, req, k, FirstFit(false), c);
    }
    if CapOk(c, s.attr[k].current) && (r.None? || PassRank(r.value.pass) > 0) {
      NothingEarlier(s, req, k, FirstFit(true), c);
    }
  }

  /**
   * Output capability: a bind that succeeds on a CRTC reporting its limits activates a mode within them
   * exactly when the requested mode, or any listed or raw mode, is within them. The requested mode stays
   * when it is within the limits, and also when no listed or raw mode is; the best mode is reset then.
   */
  lemma BoundModeIsWithinTheCrtcLimits(s: State, req: int)
    requires WellFormed(s) && Owner(s, req) in s.board.conns && Alive(s, Owner(s, req))
    requires Bind(s, req).1 == 0
    ensures Keeps(s, Bind(s, req).0)
    ensures var k: DrmConnector := Owner(s, req);
            var c := Find(s, req, k).1;
            var v, w := s.attr[k], Bind(s, req).0.attr[k];
            var a := w.active;
            && c.Some?
            && a == w.current && a in [v.current] + v.modes + v.raw
            && (c.value.reportsOutputWidth ==>
                  (a.timing.hDisplay <= c.value.outputWidth
                   && (((a.timing.hDisplay * a.timing.vDisplay) % 0x1_0000_0000) * a.refreshHz)
                      % 0x1_0000_0000_0000_0000 <= c.value.outputDclk
                   <==> exists m :: m in [v.current] + v.modes + v.raw
                          && Fits(m, c.value.outputWidth, c.value.outputDclk)))
            && (CapOk(c.value, v.current) ==> a == v.current)
            && ((forall m :: m in v.modes + v.raw ==> !Fits(m, c.value.outputWidth, c.value.outputDclk)) ==>
                  a == v.current)
            && w.best == (if !c.value.reportsOutputWidth || CapOk(c.value, v.current) then v.best
                          else if exists m :: m in v.modes + v.raw && Fits(m, c.value.outputWidth, c.value.outputDclk)
                          then a else NO_MODE)
  {
    hide WellFormed, Bind, Find, Select, Apply, SuitableMode;
    var k: DrmConnector := Owner(s, req);
    BindShape(s, req);
    FindShape(s, req, k);
    BindActivates(s, req);
    var (s1, c) := Find(s, req, k);
    var v := s.attr[k];
    SuitableModeRanks(v.modes, v.raw, c.value.outputWidth, c.value.outputDclk);
    assert forall m :: m in [v.current] + v.modes + v.raw <==> m == v.current || m in v.modes + v.raw;
  }

  lemma BindActivates(s: State, req: int)
    requires WellFormed(s) && Owner(s, req) in s.board.conns && Bind(s, req).1 == 0
    ensures Owner(s, req) in s.attr && Alive(s, Owner(s, req))
    ensures var (s1, c) := Find(s, req, Owner(s, req));
            c.Some? && Owner(s, req) in s1.attr && Bind(s, req) == Activate(s1, Owner(s, req), c.value)
  {
    hide ValidBoard, PointersOnBoard, Find, Activate;
    var k: DrmConnector := Owner(s, req);
    FindShape(s, req, k);
    assert Alive(s, k);
    assert Find(s, req, k).1.Some?;
  }

  // ---- Preemption terminates ------------------------------------------------------------------

  /** The contest: everybody is connected and has a priority, and the owners of CRTCs are known. */
  ghost predicate Contest(s: State, top: nat) {
    && WellFormed(s)
    && (forall k :: k in s.attr ==> s.attr[k].connected && 0 < k.priority <= top)
    && (forall c :: c in s.display ==> s.display[c] == -1 || HasOwner(s, s.display[c]))
  }

  ghost predicate HasOwner(s: State, d: int) {
    exists k :: k in s.board.conns && k.display == d
  }

  /** A free CRTC costs one more than the worst priority, an owned one its owner's priority. */
  ghost function Cost(s: State, top: nat, c: DrmCrtc): nat
    requires Contest(s, top) && c in s.display
  {
    OwnerFinds(s, s.display[c]);
    var o := Owner(s, s.display[c]);
    if o == null then top + 1 else assert o in s.board.conns; o.priority
  }

  ghost function TotalCost(s: State, top: nat, crtcs: seq<DrmCrtc>): nat
    requires Contest(s, top) && forall c :: c in crtcs ==> c in s.display
  {
    if crtcs == [] then 0 else Cost(s, top, crtcs[0]) + TotalCost(s, top, crtcs[1..])
  }

  /** Every CRTC that changes hands goes to `k`, from nobody or from an owner `k` outranks. */
  ghost predicate Promotes(s: State, t: State, k: DrmConnector) {
    t.display.Keys == s.display.Keys
    && forall c :: c in s.display && t.display[c] != s.display[c] ==>
         t.display[c] == k.display
         && (s.display[c] == -1 || (Owner(s, s.display[c]) != null && k.priority < Owner(s, s.display[c]).priority))
  }

  lemma ContestStays(s: State, t: State, top: nat, k: DrmConnector)
    requires Contest(s, top) && k in s.board.conns && Keeps(s, t) && Promotes(s, t, k)
    requires forall l :: l in s.board.conns ==> t.attr[l].connected
    ensures Contest(t, top)
  {
    assert k in t.board.conns;
    forall c | c in t.display ensures t.display[c] == -1 || HasOwner(t, t.display[c]) {
      assert s.display[c] == -1 || HasOwner(s, s.display[c]);
    }
  }

  lemma CostDrops(s: State, t: State, top: nat, k: DrmConnector, c: DrmCrtc)
    requires Contest(s, top) && Contest(t, top) && k in s.board.conns && t.board == s.board && Promotes(s, t, k)
             && c in s.display
    ensures t.display[c] == s.display[c] ==> Cost(t, top, c) == Cost(s, top, c)
    ensures t.display[c] != s.display[c] ==> Cost(t, top, c) < Cost(s, top, c)
  {
    OwnerFinds(s, s.display[c]);
    OwnerFinds(t, t.display[c]);
    OwnerFinds(t, k.display);
    if t.display[c] != s.display[c] && s.display[c] == -1 {
      assert Owner(s, -1) == null;
    }
  }

  /** In a contest a bind only promotes, so each CRTC it moves becomes cheaper. */
  lemma ContestedBind(s: State, top: nat, req: int)
    requires Contest(s, top)
    ensures var t := Bind(s, req).0;
            Contest(t, top) && Keeps(s, t)
            && forall c :: c in s.display ==>
                 && (t.display[c] == s.display[c] ==> Cost(t, top, c) == Cost(s, top, c))
                 && (t.display[c] != s.display[c] ==> Cost(t, top, c) < Cost(s, top, c))
  {
    BindShape(s, req);
    OwnerFinds(s, req);
    var k := Owner(s, req);
    var t := Bind(s, req).0;
    if k != null {
      BindPromotes(s, top, req);
      ContestStays(s, t, top, k);
      forall c | c in s.display
        ensures t.display[c] == s.display[c] ==> Cost(t, top, c) == Cost(s, top, c)
        ensures t.display[c] != s.display[c] ==> Cost(t, top, c) < Cost(s, top, c)
      {
        CostDrops(s, t, top, k, c);
      }
    }
  }

  lemma BindPromotes(s: State, top: nat, req: int)
    requires Contest(s, top) && Owner(s, req) in s.board.conns
    ensures Keeps(s, Bind(s, req).0)
    ensures Promotes(s, Bind(s, req).0, Owner(s, req))
    ensures forall l :: l in s.board.conns ==> Bind(s, req).0.attr[l].connected
  {
    var k: DrmConnector := Owner(s, req);
    BindShape(s, req);
    FindPromotes(s, top, req, k);
    assert forall l :: l in s.board.conns ==> s.attr[l].connected;
    hide WellFormed, Find, Bind;
  }

  lemma ChosenIsFreeOrOutranked(s: State, top: nat, req: int, k: DrmConnector, ch: Choice)
    requires Contest(s, top) && k in s.board.conns && ValidChoice(s, req, k, ch) && !ch.pass.ByMirror?
    ensures var d := s.display[ch.cand.crtc];
            d == -1 || d == k.display || (Owner(s, d) != null && k.priority < Owner(s, d).priority)
  {
    var c := ch.cand.crtc;
    OwnerFinds(s, s.display[c]);
    if s.display[c] != -1 {
      KnownOwner(s, top, c);
    }
    assert k in s.attr;
    hide ValidBoard, PointersOnBoard;
  }

  lemma MirrorHasOwner(s: State, req: int, k: DrmConnector, ch: Choice)
    requires WellFormed(s) && k in s.board.conns && ValidChoice(s, req, k, ch) && ch.pass.ByMirror?
    ensures Owner(s, s.display[ch.cand.crtc]) != null
  {
    hide WellFormed;
  }

  lemma ChoicePromotes(s: State, top: nat, req: int, k: DrmConnector, ch: Choice)
    requires Contest(s, top) && k in s.board.conns && ValidChoice(s, req, k, ch)
    ensures Promotes(s, Apply(s, req, k, ch), k)
  {
    hide WellFormed, Apply, Eligible, HasOwner, JoinedMirrors, FindConnector;
    if ch.pass.ByMirror? {
      MirrorHasOwner(s, req, k, ch);
    } else {
      ChosenIsFreeOrOutranked(s, top, req, k, ch);
    }
    OwnerFinds(s, s.display[ch.cand.crtc]);
    ApplyShape(s, req, k, ch);
  }

  lemma FindPromotes(s: State, top: nat, req: int, k: DrmConnector)
    requires Contest(s, top) && k in s.board.conns
    ensures Promotes(s, Find(s, req, k).0, k)
  {
    FindShape(s, req, k);
    var s0 := SetEncoder(s, k, null);
    forall c | c in s0.display ensures s0.display[c] == -1 || HasOwner(s0, s0.display[c]) {
      assert s.display[c] == -1 || HasOwner(s, s.display[c]);
    }
    hide WellFormed, Find, Select, Apply, Eligible;
    if Select(s0, req, k).Some? {
      ChoicePromotes(s0, top, req, k, Select(s0, req, k).value);
    }
  }

  lemma KnownOwner(s: State, top: nat, c: DrmCrtc)
    requires Contest(s, top) && c in s.display && s.display[c] != -1
    ensures s.display[c] >= 0 && Owner(s, s.display[c]) in s.board.conns
            && Owner(s, s.display[c]).display == s.display[c]
  {
    assert HasOwner(s, s.display[c]);
    var l :| l in s.board.conns && l.display == s.display[c];
    OwnerFinds(s, l.display);
  }

  ghost function Moves(s: State, ops: seq<Op>): nat
    requires WellFormed(s)
    decreases |ops|
  {
    if ops == [] then 0
    else (if Step(s, ops[0]).display != s.display then 1 else 0) + Moves(Step(s, ops[0]), ops[1..])
  }

  /** Binds, mode switches and probes: nothing is released or unplugged. */
  predicate NoReleases(ops: seq<Op>) {
    forall op :: op in ops ==> op.BindOp? || op.SwitchMode? || op.Probe?
  }

  lemma {:induction false} CostsAddUp(s: State, t: State, top: nat, crtcs: seq<DrmCrtc>)
    requires Contest(s, top) && Contest(t, top) && t.display.Keys == s.display.Keys
    requires forall c :: c in crtcs ==> c in s.display
    requires forall c :: c in s.display ==> Cost(t, top, c) <= Cost(s, top, c)
    ensures TotalCost(t, top, crtcs) <= TotalCost(s, top, crtcs)
    ensures (exists c :: c in crtcs && Cost(t, top, c) < Cost(s, top, c)) ==>
            TotalCost(t, top, crtcs) < TotalCost(s, top, crtcs)
  {
    if crtcs != [] {
      CostsAddUp(s, t, top, crtcs[1..]);
      assert crtcs == [crtcs[0]] + crtcs[1..];
    }
  }

  lemma SameDisplaysContest(s: State, t: State, top: nat)
    requires Contest(s, top) && Keeps(s, t) && t.display == s.display
    requires forall k :: k in t.attr ==> t.attr[k].connected == s.attr[k].connected
    ensures Contest(t, top)
  {
    forall c | c in t.display ensures t.display[c] == -1 || HasOwner(t, t.display[c]) {
      hide WellFormed;
      assert t.display[c] == -1 || HasOwner(s, s.display[c]);
    }
    assert forall k :: k in t.attr ==> k in s.attr;
    hide ValidBoard, PointersOnBoard;
  }

  lemma EditedContest(s: State, top: nat, op: Op)
    requires Contest(s, top) && (op.SwitchMode? || op.Probe?)
    ensures Contest(Step(s, op), top) && Step(s, op).display == s.display && Step(s, op).board == s.board
  {
    hide WellFormed, Step, HasOwner, Bind, Release;
    ContestIsWellFormed(s, top);
    StepEdits(s, op);
    SameDisplaysContest(s, Step(s, op), top);
  }

  lemma StepEdits(s: State, op: Op)
    requires WellFormed(s) && (op.SwitchMode? || op.Probe?)
    ensures var t := Step(s, op);
            && t == s.(attr := t.attr)
            && forall k :: k in t.attr ==> k in s.attr && t.attr[k].connected == s.attr[k].connected
  {
    hide ValidBoard, PointersOnBoard, Bind, Release;
  }

  lemma SameCosts(s: State, t: State, top: nat, c: DrmCrtc)
    requires Contest(s, top) && Contest(t, top) && t.display == s.display && t.board == s.board && c in s.display
    ensures Cost(t, top, c) == Cost(s, top, c)
  {
  }

  lemma ContestIsWellFormed(s: State, top: nat)
    requires Contest(s, top)
    ensures WellFormed(s)
  {
    hide WellFormed;
  }

  lemma ContestedStep(s: State, top: nat, op: Op)
    requires Contest(s, top) && NoReleases([op])
    ensures var t := Step(s, op);
            Contest(t, top) && t.display.Keys == s.display.Keys
            && (forall c :: c in s.display ==> Cost(t, top, c) <= Cost(s, top, c))
            && (t.display != s.display ==> exists c :: c in s.display && Cost(t, top, c) < Cost(s, top, c))
  {
    hide WellFormed, Contest, Cost, Bind, Release;
    assert op in [op];
    ContestIsWellFormed(s, top);
    var t := Step(s, op);
    if op.BindOp? {
      ContestedBind(s, top, op.req);
      assert t == Bind(s, op.req).0;
      if t.display != s.display {
        var c :| c in s.display && t.display[c] != s.display[c];
        assert Cost(t, top, c) < Cost(s, top, c);
      }
    } else {
      EditedContest(s, top, op);
      forall c | c in s.display ensures Cost(t, top, c) <= Cost(s, top, c) {
        SameCosts(s, t, top, c);
      }
    }
  }

  /**
   * Preemption terminates: in a contest without releases the number of binds that move any CRTC is
   * bounded by the initial cost, whatever the order and number of requests.
   */
  lemma {:induction false} PreemptionTerminates(s: State, top: nat, crtcs: seq<DrmCrtc>, ops: seq<Op>)
    requires Contest(s, top) && NoReleases(ops)
    requires forall c :: c in s.display <==> c in crtcs
    ensures Contest(Run(s, ops), top)
    ensures Moves(s, ops) + TotalCost(Run(s, ops), top, crtcs) <= TotalCost(s, top, crtcs) <= |crtcs| * (top + 1)
    decreases |ops|
  {
    TotalCostBound(s, top, crtcs);
    if ops != [] {
      var t := Step(s, ops[0]);
      ContestedStep(s, top, ops[0]);
      CostsAddUp(s, t, top, crtcs);
      PreemptionTerminates(t, top, crtcs, ops[1..]);
    }
  }

  lemma CostBound(s: State, top: nat, c: DrmCrtc)
    requires Contest(s, top) && c in s.display
    ensures Cost(s, top, c) <= top + 1
  {
    OwnerFinds(s, s.display[c]);
  }

  lemma {:induction false} TotalCostBound(s: State, top: nat, crtcs: seq<DrmCrtc>)
    requires Contest(s, top) && forall c :: c in crtcs ==> c in s.display
    ensures TotalCost(s, top, crtcs) <= |crtcs| * (top + 1)
  {
    hide Contest, Cost;
    if crtcs != [] {
      CostBound(s, top, crtcs[0]);
      TotalCostBound(s, top, crtcs[1..]);
      Distribute(|crtcs[1..]|, top + 1);
    }
  }

  lemma Distribute(n: nat, x: nat)
    ensures (n + 1) * x == n * x + x
  {
  }
}
