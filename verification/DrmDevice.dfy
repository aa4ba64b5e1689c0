/** The allocator as the device runs it: loops over shared objects, each method tied to its function on values. */
module DrmDevice {
  import opened DisplayModes
  import opened DrmResources
  import opened CrtcAllocation
  import PlaneGroups

  /** A hit behind a prefix of misses is what the search returns. */
  lemma {:induction false} FirstEligibleAfter(p: Pass, s: State, req: int, k: DrmConnector, seen: seq<Cand>, x: Cand,
      rest: seq<Cand>)
    requires WellFormed(s) && Choices(s, k, seen + [x] + rest)
    requires forall y :: y in seen ==> y.crtc in s.display && !Eligible(p, s, req, k, y.crtc)
    requires x.crtc in s.display && Eligible(p, s, req, k, x.crtc)
    ensures FirstEligible(p, s, req, k, seen + [x] + rest) == Some(x)
  {
    hide WellFormed, Eligible;
    if seen == [] {
      assert seen + [x] + rest == [x] + rest;
    } else {
      assert (seen + [x] + rest)[1..] == seen[1..] + [x] + rest;
      FirstEligibleAfter(p, s, req, k, seen[1..], x, rest);
    }
  }

  lemma NoneAmong(p: Pass, s: State, req: int, k: DrmConnector, cands: seq<Cand>)
    requires WellFormed(s) && Choices(s, k, cands)
    requires forall y :: y in cands ==> y.crtc in s.display && !Eligible(p, s, req, k, y.crtc)
    ensures FirstEligible(p, s, req, k, cands).None?
  {
    FirstEligibleFinds(p, s, req, k, cands);
    hide WellFormed, Eligible;
  }

  ghost function Search(p: Pass, s: State, req: int, k: DrmConnector): Option<Cand>
    requires WellFormed(s) && k in s.board.conns
  {
    CandidatesAreChoices(s, k);
    FirstEligible(p, s, req, k, Candidates(k.possibleEncoders))
  }

  /** Where a scan of the nested loops stands: what was seen, and what is still to come. */
  ghost predicate Scanned(p: Pass, s: State, req: int, k: DrmConnector, seen: seq<Cand>, rest: seq<Cand>)
    requires WellFormed(s) && k in s.board.conns
  {
    && Candidates(k.possibleEncoders) == seen + rest
    && forall y :: y in seen ==> y.crtc in s.display && !Eligible(p, s, req, k, y.crtc)
  }

  lemma ScanHit(p: Pass, s: State, req: int, k: DrmConnector, seen: seq<Cand>, x: Cand, rest: seq<Cand>)
    requires WellFormed(s) && k in s.board.conns && Scanned(p, s, req, k, seen, [x] + rest)
    requires x.crtc in s.display && Eligible(p, s, req, k, x.crtc)
    ensures Search(p, s, req, k) == Some(x)
  {
    CandidatesAreChoices(s, k);
    assert seen + ([x] + rest) == seen + [x] + rest;
    hide WellFormed, Eligible;
    FirstEligibleAfter(p, s, req, k, seen, x, rest);
  }

  lemma ScanMiss(p: Pass, s: State, req: int, k: DrmConnector, seen: seq<Cand>, x: Cand, rest: seq<Cand>)
    requires WellFormed(s) && k in s.board.conns && Scanned(p, s, req, k, seen, [x] + rest)
    requires x.crtc in s.display && !Eligible(p, s, req, k, x.crtc)
    ensures Scanned(p, s, req, k, seen + [x], rest)
  {
    hide WellFormed, Eligible;
    assert seen + ([x] + rest) == seen + [x] + rest;
  }

  lemma ScanEnd(p: Pass, s: State, req: int, k: DrmConnector, seen: seq<Cand>)
    requires WellFormed(s) && k in s.board.conns && Scanned(p, s, req, k, seen, [])
    ensures Search(p, s, req, k).None?
  {
    CandidatesAreChoices(s, k);
    assert seen + [] == seen;
    NoneAmong(p, s, req, k, seen);
    hide WellFormed, Eligible;
  }

  /** What is left of the outer and inner loop. */
  ghost function Remaining(encs: seq<DrmEncoder>, i: nat, j: nat): seq<Cand>
    requires i < |encs| && j <= |encs[i].possibleCrtcs|
  {
    Pairs(encs[i], encs[i].possibleCrtcs[j..]) + Candidates(encs[i + 1..])
  }

  lemma RemainingStarts(encs: seq<DrmEncoder>, i: nat)
    requires i <= |encs|
    ensures i < |encs| ==> Candidates(encs[i..]) == Remaining(encs, i, 0)
    ensures i == |encs| ==> Candidates(encs[i..]) == []
    ensures i == 0 ==> Candidates(encs[i..]) == Candidates(encs)
  {
    assert encs[0..] == encs;
    if i < |encs| {
      assert encs[i..][0] == encs[i] && encs[i..][1..] == encs[i + 1..];
      assert encs[i].possibleCrtcs[0..] == encs[i].possibleCrtcs;
    }
  }

  lemma RemainingSteps(encs: seq<DrmEncoder>, i: nat, j: nat)
    requires i < |encs| && j <= |encs[i].possibleCrtcs|
    ensures j < |encs[i].possibleCrtcs| ==>
              Remaining(encs, i, j) == [Cand(encs[i], encs[i].possibleCrtcs[j])] + Remaining(encs, i, j + 1)
    ensures j == |encs[i].possibleCrtcs| ==> Remaining(encs, i, j) == Candidates(encs[i + 1..])
  {
    var e := encs[i];
    if j < |e.possibleCrtcs| {
      assert Pairs(e, e.possibleCrtcs[j..]) == [Cand(e, e.possibleCrtcs[j])] + Pairs(e, e.possibleCrtcs[j + 1..]);
    } else {
      assert Pairs(e, e.possibleCrtcs[j..]) == [];
    }
  }

  /** One pass on values: the state after it and the CRTC it found. */
  ghost function Attempt(p: Pass, s: State, req: int, k: DrmConnector): (State, Option<DrmCrtc>)
    requires WellFormed(s) && k in s.board.conns
  {
    CandidatesAreChoices(s, k);
    FirstEligibleFinds(p, s, req, k, Candidates(k.possibleEncoders));
    var r := Search(p, s, req, k);
    if r.None? then (s, None) else (Apply(s, req, k, Choice(p, r.value)), Some(r.value.crtc))
  }

  /** The first pass that finds a CRTC decides. */
  ghost function AttemptAll(passes: seq<Pass>, s: State, req: int, k: DrmConnector): (State, Option<DrmCrtc>)
    requires WellFormed(s) && k in s.board.conns
  {
    if passes == [] then (s, None)
    else
      var r := Attempt(passes[0], s, req, k);
      if r.1.Some? then r else AttemptAll(passes[1..], s, req, k)
  }

  lemma {:induction false} AttemptsSelect(passes: seq<Pass>, s: State, req: int, k: DrmConnector)
    requires WellFormed(s) && k in s.board.conns
    ensures var ch := SelectFrom(passes, s, req, k);
            && (ch.None? ==> AttemptAll(passes, s, req, k) == (s, None))
            && (ch.Some? ==>
                  && ch.value.cand.crtc in s.display
                  && (ch.value.pass.ByMirror? ==> Owner(s, s.display[ch.value.cand.crtc]) != null)
                  && AttemptAll(passes, s, req, k) == (Apply(s, req, k, ch.value), Some(ch.value.cand.crtc)))
  {
    hide Apply;
    SelectFromChooses(passes, s, req, k);
    if passes != [] && Attempt(passes[0], s, req, k).1.None? {
      AttemptsSelect(passes[1..], s, req, k);
    }
  }

  lemma HitIs(p: Pass, s: State, req: int, k: DrmConnector, seen: seq<Cand>, x: Cand, rest: seq<Cand>)
    requires WellFormed(s) && k in s.board.conns && Scanned(p, s, req, k, seen, [x] + rest)
    requires x.crtc in s.display && Eligible(p, s, req, k, x.crtc)
    ensures p.ByMirror? ==> Owner(s, s.display[x.crtc]) != null
    ensures Attempt(p, s, req, k) == (Apply(s, req, k, Choice(p, x)), Some(x.crtc))
  {
    ScanHit(p, s, req, k, seen, x, rest);
    hide Search, Apply, FirstEligible;
  }

  lemma MissIs(p: Pass, s: State, req: int, k: DrmConnector, seen: seq<Cand>)
    requires WellFormed(s) && k in s.board.conns && Scanned(p, s, req, k, seen, [])
    ensures Attempt(p, s, req, k) == (s, None)
  {
    ScanEnd(p, s, req, k, seen);
    hide Search, Apply, FirstEligible;
  }

  /** What a hit does, pass by pass. */
  lemma HitApplies(s: State, req: int, k: DrmConnector, p: Pass, x: Cand)
    requires WellFormed(s) && k in s.board.conns && x.crtc in s.display
    requires p.ByMirror? ==> Owner(s, s.display[x.crtc]) != null
    ensures var t, d := Apply(s, req, k, Choice(p, x)), s.display[x.crtc];
            && (Owner(s, d) != null ==> Owner(s, d) in s.mirror) && k in s.mirror
            && (p.FirstFit? ==> t == Take(s, k, x.enc, x.crtc))
            && (p.Orphan? ==> t == Take(Unseat(s, if d >= 0 then Owner(s, d) else null, x.crtc), k, x.enc, x.crtc))
            && (p.ByMirror? ==> t == JoinMirror(s, req, Owner(s, d), d, k, x.enc, x.crtc))
            && (p.Compete? ==> t == Take(Unseat(s, Owner(s, d), x.crtc), k, x.enc, x.crtc))
  {
    OwnerFinds(s, s.display[x.crtc]);
    hide ValidBoard, PointersOnBoard, Owner, Take;
  }

  lemma NoMirrorWithoutRgb(s: State, req: int, k: DrmConnector)
    requires WellFormed(s) && k in s.board.conns && !k.supportsRgb
    ensures Attempt(ByMirror, s, req, k) == (s, None)
  {
    CandidatesAreChoices(s, k);
    FirstEligibleFinds(ByMirror, s, req, k, Candidates(k.possibleEncoders));
    hide WellFormed, Candidates;
  }

  lemma {:induction false} AttemptsSplit(a: seq<Pass>, b: seq<Pass>, s: State, req: int, k: DrmConnector)
    requires WellFormed(s) && k in s.board.conns
    ensures AttemptAll(a, s, req, k).1.None? ==> AttemptAll(a, s, req, k).0 == s
    ensures AttemptAll(a + b, s, req, k)
         == if AttemptAll(a, s, req, k).1.Some? then AttemptAll(a, s, req, k) else AttemptAll(b, s, req, k)
  {
    hide WellFormed, Attempt;
    if a == [] {
      assert a + b == b;
    } else {
      assert (a + b)[1..] == a[1..] + b;
      AttemptsSplit(a[1..], b, s, req, k);
    }
  }

  /** The connector without its encoder: what every search starts from. */
  ghost function Unbound(s: State, k: DrmConnector): (t: State)
    requires WellFormed(s) && k in s.board.conns
    ensures WellFormed(t) && k in t.board.conns && t.encoderOf[k] == null
  {
    UnboundShape(s, k);
    SetEncoder(s, k, null)
  }

  lemma UnboundTwice(s: State, k: DrmConnector)
    requires WellFormed(s) && k in s.board.conns
    ensures Unbound(Unbound(s, k), k) == Unbound(s, k)
  {
    hide WellFormed;
  }

  lemma FindIsAttempts(s: State, req: int, k: DrmConnector)
    requires WellFormed(s) && k in s.board.conns
    ensures Find(s, req, k) == AttemptAll(PASSES, Unbound(s, k), req, k)
  {
    var s0 := Unbound(s, k);
    AttemptsSelect(PASSES, s0, req, k);
    hide WellFormed, AttemptAll, SelectFrom, Apply;
  }

  /** The four searches, one after the other, are the six passes. */
  lemma SearchesAreAttempts(s: State, req: int, k: DrmConnector)
    requires WellFormed(s) && k in s.board.conns
    ensures var a := AttemptAll([FirstFit(true), Orphan(true)], s, req, k);
            var b := Attempt(ByMirror, s, req, k);
            var c := AttemptAll([FirstFit(false), Orphan(false)], s, req, k);
            && (a.1.None? ==> a.0 == s) && (b.1.None? ==> b.0 == s) && (c.1.None? ==> c.0 == s)
            && AttemptAll(PASSES, s, req, k)
                == if a.1.Some? then a else if b.1.Some? then b else if c.1.Some? then c
                  else Attempt(Compete, s, req, k)
  {
    var pa, pc := [FirstFit(true), Orphan(true)], [FirstFit(false), Orphan(false)];
    assert PASSES == pa + ([ByMirror] + (pc + [Compete]));
    AttemptsSplit(pa, [ByMirror] + (pc + [Compete]), s, req, k);
    AttemptsSplit([ByMirror], pc + [Compete], s, req, k);
    AttemptsSplit(pc, [Compete], s, req, k);
    AttemptsSplit([Compete], [], s, req, k);
    AttemptAlone(ByMirror, s, req, k);
    AttemptAlone(Compete, s, req, k);
    hide WellFormed, AttemptAll, Attempt;
  }

  lemma AttemptAlone(p: Pass, s: State, req: int, k: DrmConnector)
    requires WellFormed(s) && k in s.board.conns
    ensures AttemptAll([p], s, req, k) == Attempt(p, s, req, k)
  {
    hide WellFormed, Apply, Search;
    assert AttemptAll([], s, req, k) == (s, None);
  }

  lemma AttemptPair(p: Pass, q: Pass, s: State, req: int, k: DrmConnector)
    requires WellFormed(s) && k in s.board.conns
    ensures Attempt(p, s, req, k).1.None? ==> Attempt(p, s, req, k).0 == s
    ensures AttemptAll([p, q], s, req, k)
         == if Attempt(p, s, req, k).1.Some? then Attempt(p, s, req, k) else Attempt(q, s, req, k)
  {
    assert [p, q] == [p] + [q];
    AttemptsSplit([p], [q], s, req, k);
    AttemptAlone(p, s, req, k);
    AttemptAlone(q, s, req, k);
    hide WellFormed, AttemptAll, Apply, Search;
  }

  class Device {
    const connectors: seq<DrmConnector>
    const encoders: seq<DrmEncoder>
    const crtcs: seq<DrmCrtc>
    const planeGroups: seq<PlaneGroups.PlaneGroup>

    constructor (connectors: seq<DrmConnector>, encoders: seq<DrmEncoder>, crtcs: seq<DrmCrtc>,
                 planeGroups: seq<PlaneGroups.PlaneGroup>)
      ensures this.connectors == connectors && this.encoders == encoders && this.crtcs == crtcs
      ensures this.planeGroups == planeGroups
    {
      this.connectors, this.encoders, this.crtcs, this.planeGroups := connectors, encoders, crtcs, planeGroups;
    }

    ghost function BoardOf(): Board {
      Board(connectors, set k | k in connectors, set e | e in encoders, set c | c in crtcs)
    }

    ghost function Displays(): map<DrmCrtc, int>
      reads crtcs`display
    {
      map c | c in crtcs :: c.display
    }

    ghost function CrtcsOf(): map<DrmEncoder, DrmCrtc?>
      reads encoders`crtc
    {
      map e | e in encoders :: e.crtc
    }

    ghost function EncodersOf(): map<DrmConnector, DrmEncoder?>
      reads connectors`encoder
    {
      map k | k in connectors :: k.encoder
    }

    ghost function Mirrors(): map<DrmConnector, Mirror>
      reads connectors`mirrorMode, connectors`mirrorPrimary, connectors`mirrorPrimaryId, connectors`mirrorDisplays
    {
      map k | k in connectors :: k.MirrorView()
    }

    ghost function Attrs(): map<DrmConnector, Attributes>
      reads connectors`connected, connectors`plugged, connectors`currentMode, connectors`activeMode
      reads connectors`bestMode, connectors`modes, connectors`rawModes
    {
      map k | k in connectors :: k.View()
    }

    /** Everything the allocator may change, as a value. */
    ghost function S(): State
      reads connectors, encoders, crtcs
    {
      State(BoardOf(), Displays(), CrtcsOf(), EncodersOf(), Mirrors(), Attrs())
    }

    ghost predicate Valid()
      reads connectors, encoders, crtcs
    {
      WellFormed(S())
    }

    method GetConnectorForDisplay(d: int) returns (k: DrmConnector?)
      ensures k == Owner(S(), d)
      ensures k != null ==> k in connectors
    {
      var i := 0;
      while i < |connectors|
        invariant 0 <= i <= |connectors|
        invariant FindConnector(connectors, MaskSplit(d)) == FindConnector(connectors[i..], MaskSplit(d))
      {
        assert connectors[i..][0] == connectors[i] && connectors[i..][1..] == connectors[i + 1..];
        if connectors[i].display == MaskSplit(d) {
          return connectors[i];
        }
        i := i + 1;
      }
      return null;
    }

    /** 0 when the connector exists and is connected. */
    method CheckConnectorState(k: DrmConnector?) returns (r: int)
      requires k != null ==> k in connectors
      ensures r == 0 <==> Alive(S(), k)
      ensures r == 0 <==> k != null && k.connected
      ensures r != 0 ==> r == EINVAL
    {
      if k == null {
        return EINVAL;
      }
      if !k.connected {
        return EINVAL;
      }
      return 0;
    }

    /** 0 when the CRTC can output the mode, or does not report its limits; the products wrap. */
    method CheckCrtcOutputCapability(c: DrmCrtc, m: Mode) returns (r: int)
      ensures r == 0 <==> CapOk(c, m)
      ensures r == 0 <==>
              && m.id > 0
              && (c.reportsOutputWidth ==>
                    && m.timing.hDisplay <= c.outputWidth
                    && (((m.timing.hDisplay * m.timing.vDisplay) % 0x1_0000_0000) * m.refreshHz)
                        % 0x1_0000_0000_0000_0000 <= c.outputDclk)
      ensures r != 0 ==> r == -1
    {
      if m.id <= 0 {
        return -1;
      }
      if !c.reportsOutputWidth {
        return 0;
      }
      if m.timing.hDisplay > c.outputWidth {
        return -1;
      }
      if RequiredDclk(m) > c.outputDclk {
        return -1;
      }
      return 0;
    }

    method SetCrtcDisplay(c: DrmCrtc, d: int)
      requires c in crtcs
      modifies c`display
      ensures Displays() == old(Displays())[c := d]
    {
      c.SetDisplay(d);
    }

    method SetEncoderCrtc(e: DrmEncoder, c: DrmCrtc)
      requires e in encoders
      modifies e
      ensures CrtcsOf() == old(CrtcsOf())[e := c]
    {
      e.SetCrtc(c);
    }

    method SetConnectorEncoder(k: DrmConnector, e: DrmEncoder?)
      requires k in connectors
      modifies k`encoder
      ensures EncodersOf() == old(EncodersOf())[k := e]
    {
      k.SetEncoder(e);
    }

    method TakeCrtc(k: DrmConnector, e: DrmEncoder, c: DrmCrtc)
      requires k in connectors && e in encoders && c in crtcs
      modifies k`encoder, e, c`display
      ensures S() == Take(old(S()), k, e, c)
    {
      hide Displays, CrtcsOf, EncodersOf, Mirrors, Attrs, BoardOf;
      SetCrtcDisplay(c, k.display);
      SetEncoderCrtc(e, c);
      SetConnectorEncoder(k, e);
    }

    method SetMirrorMode(o: DrmConnector, primaryId: int, mirrorId: int)
      requires o in connectors
      modifies o`mirrorMode, o`mirrorPrimary, o`mirrorPrimaryId, o`mirrorDisplays
      ensures o in old(Mirrors())
      ensures Mirrors() == old(Mirrors())[o := EnableMirror(old(Mirrors())[o], o.display, primaryId, mirrorId)]
    {
      o.EnableConnectorMirrorMode(primaryId, mirrorId);
    }

    method ClearMirrorMode(o: DrmConnector, d: int)
      requires o in connectors
      modifies o`mirrorMode, o`mirrorPrimary, o`mirrorPrimaryId, o`mirrorDisplays
      ensures o in old(Mirrors()) && Mirrors() == old(Mirrors())[o := DisableMirror(old(Mirrors())[o], d)]
    {
      o.DisableConnectorMirrorMode(d);
    }

    method JoinGroup(req: int, o: DrmConnector, primaryId: int, k: DrmConnector, e: DrmEncoder, c: DrmCrtc)
      requires k in connectors && o in connectors && e in encoders && c in crtcs
      modifies k`encoder, e
      modifies o`mirrorMode, o`mirrorPrimary, o`mirrorPrimaryId, o`mirrorDisplays
      modifies k`mirrorMode, k`mirrorPrimary, k`mirrorPrimaryId, k`mirrorDisplays
      ensures k in old(S()).mirror && o in old(S()).mirror
      ensures S() == JoinMirror(old(S()), req, o, primaryId, k, e, c)
    {
      hide Displays, CrtcsOf, EncodersOf, Mirrors, Attrs, BoardOf;
      SetMirrorMode(o, primaryId, req);
      SetMirrorMode(k, primaryId, req);
      SetEncoderCrtc(e, c);
      SetConnectorEncoder(k, e);
    }

    /** The commit that releases the pair is an abstract step that succeeds. */
    method ReleaseConnectorAndCrtc(o: DrmConnector?, c: DrmCrtc) returns (r: int)
      requires c in crtcs && (o != null ==> o in connectors)
      modifies c`display, connectors`encoder
      ensures S() == Unseat(old(S()), o, c)
      ensures r == if o == null then EINVAL else 0
    {
      hide Displays, CrtcsOf, EncodersOf, Mirrors, Attrs, BoardOf;
      if o == null {
        return EINVAL;
      }
      SetCrtcDisplay(c, -1);
      SetConnectorEncoder(o, null);
      return 0;
    }

    /** The CRTC is free or carries the connector's display already. */
    method IsFree(req: int, k: DrmConnector, c: DrmCrtc, checkCap: bool) returns (r: bool)
      requires Valid() && k in connectors && c in crtcs
      ensures c in S().display && k in S().board.conns
      ensures r <==> Eligible(FirstFit(checkCap), S(), req, k, c)
    {
      if !c.CanBind(k.display) {
        return false;
      }
      if checkCap {
        var cap := CheckCrtcOutputCapability(c, k.currentMode);
        if cap != 0 {
          return false;
        }
      }
      return true;
    }

    /** The CRTC carries no display, or that of a connector which is gone. */
    method IsOrphan(req: int, k: DrmConnector, c: DrmCrtc, checkCap: bool) returns (r: bool, o: DrmConnector?)
      requires Valid() && k in connectors && c in crtcs
      ensures c in S().display && k in S().board.conns
      ensures r <==> Eligible(Orphan(checkCap), S(), req, k, c)
      ensures o == if c.display >= 0 then Owner(S(), c.display) else null
      ensures o != null ==> o in connectors
    {
      hide ValidBoard, PointersOnBoard, FindConnector, CapOk;
      var ret := -1;
      o := null;
      if c.display >= 0 {
        o := GetConnectorForDisplay(c.display);
        ret := CheckConnectorState(o);
      }
      if ret == 0 {
        return false, o;
      }
      if checkCap {
        var cap := CheckCrtcOutputCapability(c, k.currentMode);
        if cap != 0 {
          return false, o;
        }
      }
      return true, o;
    }

    /** The CRTC shows the connector's current mode for another connected display already. */
    method IsMirrorable(req: int, k: DrmConnector, c: DrmCrtc) returns (r: bool, o: DrmConnector?)
      requires Valid() && k in connectors && c in crtcs && k.supportsRgb
      ensures c in S().display && k in S().board.conns
      ensures r <==> Eligible(ByMirror, S(), req, k, c)
      ensures r ==> o != null && o == Owner(S(), c.display) && o in connectors
      ensures r ==> c.display >= 0 && c.display != req && o.connected
      ensures r ==> o.activeMode.id > 0 && o.activeMode.timing == k.currentMode.timing
    {
      hide ValidBoard, PointersOnBoard, FindConnector, CapOk, MaskSplit;
      o := null;
      if c.display < 0 || c.display == req {
        return false, o;
      }
      var cap := CheckCrtcOutputCapability(c, k.currentMode);
      if cap != 0 {
        return false, o;
      }
      o := GetConnectorForDisplay(c.display);
      var ret := CheckConnectorState(o);
      if ret != 0 {
        return false, o;
      }
      r := o.activeMode.id > 0 && k.currentMode.id > 0 && k.currentMode.timing == o.activeMode.timing;
    }

    /** The CRTC's owner is gone or has the larger priority number. */
    method IsWeaker(req: int, k: DrmConnector, c: DrmCrtc) returns (r: bool, o: DrmConnector?)
      requires Valid() && k in connectors && c in crtcs
      ensures c in S().display && k in S().board.conns
      ensures r <==> Eligible(Compete, S(), req, k, c)
      ensures o == Owner(S(), c.display) && (o != null ==> o in connectors)
    {
      hide ValidBoard, PointersOnBoard, FindConnector, CapOk;
      o := GetConnectorForDisplay(c.display);
      if k.priority > 0 {
        var ret := CheckConnectorState(o);
        if ret != 0 {
          return true, o;
        }
        r := k.priority < o.priority;
      } else {
        r := true;
      }
    }

    lemma ScanBegins(p: Pass, s: State, req: int, k: DrmConnector)
      requires Valid() && k in connectors && s == S()
      ensures k in s.board.conns && Scanned(p, s, req, k, [], Candidates(k.possibleEncoders[0..]))
    {
      RemainingStarts(k.possibleEncoders, 0);
    }

    lemma OnBoard(k: DrmConnector, e: DrmEncoder, c: DrmCrtc)
      requires Valid() && k in connectors && e in k.possibleEncoders && c in e.possibleCrtcs
      ensures e in encoders && c in crtcs && e in S().crtcOf && k in S().board.conns
      ensures c in S().display && S().display[c] == c.display
    {
      assert e in S().board.encoders && c in S().board.crtcs;
    }

    /** First scan: a CRTC that is free or already the connector's own. */
    method TakeFree(req: int, k: DrmConnector, checkCap: bool) returns (out: DrmCrtc?)
      requires Valid() && k in connectors && k.encoder == null
      modifies connectors, encoders, crtcs
      ensures var r := Attempt(FirstFit(checkCap), old(S()), req, k);
              S() == r.0 && out == (if r.1.Some? then r.1.value else null)
    {
      hide S, WellFormed, Eligible, Attempt, Apply, Scanned, Candidates, Remaining, Take, Unseat;
      ghost var s := S();
      ghost var seen: seq<Cand> := [];
      var encs := k.possibleEncoders;
      ScanBegins(FirstFit(checkCap), s, req, k);
      var i := 0;
      while i < |encs|
        invariant 0 <= i <= |encs| && S() == s
        invariant Scanned(FirstFit(checkCap), s, req, k, seen, Candidates(encs[i..]))
      {
        RemainingStarts(encs, i);
        var j := 0;
        while j < |encs[i].possibleCrtcs|
          invariant 0 <= j <= |encs[i].possibleCrtcs| && S() == s
          invariant Scanned(FirstFit(checkCap), s, req, k, seen, Remaining(encs, i, j))
        {
          RemainingSteps(encs, i, j);
          var c := encs[i].possibleCrtcs[j];
          OnBoard(k, encs[i], c);
          ghost var x := Cand(encs[i], c);
          var r := IsFree(req, k, c, checkCap);
          if r {
            HitIs(FirstFit(checkCap), s, req, k, seen, x, Remaining(encs, i, j + 1));
            HitApplies(s, req, k, FirstFit(checkCap), x);
            TakeCrtc(k, encs[i], c);
            return c;
          }
          ScanMiss(FirstFit(checkCap), s, req, k, seen, x, Remaining(encs, i, j + 1));
          seen := seen + [x];
          j := j + 1;
        }
        RemainingSteps(encs, i, j);
        i := i + 1;
      }
      RemainingStarts(encs, i);
      MissIs(FirstFit(checkCap), s, req, k, seen);
      return null;
    }

    /** Second scan: a CRTC whose display is gone; its connector is released first. */
    method TakeOrphan(req: int, k: DrmConnector, checkCap: bool) returns (out: DrmCrtc?)
      requires Valid() && k in connectors && k.encoder == null
      modifies connectors, encoders, crtcs
      ensures var r := Attempt(Orphan(checkCap), old(S()), req, k);
              S() == r.0 && out == (if r.1.Some? then r.1.value else null)
    {
      hide S, WellFormed, Eligible, Attempt, Apply, Scanned, Candidates, Remaining, Take, Unseat;
      ghost var s := S();
      ghost var seen: seq<Cand> := [];
      var encs := k.possibleEncoders;
      ScanBegins(Orphan(checkCap), s, req, k);
      var i := 0;
      while i < |encs|
        invariant 0 <= i <= |encs| && S() == s
        invariant Scanned(Orphan(checkCap), s, req, k, seen, Candidates(encs[i..]))
      {
        RemainingStarts(encs, i);
        var j := 0;
        while j < |encs[i].possibleCrtcs|
          invariant 0 <= j <= |encs[i].possibleCrtcs| && S() == s
          invariant Scanned(Orphan(checkCap), s, req, k, seen, Remaining(encs, i, j))
        {
          RemainingSteps(encs, i, j);
          var c := encs[i].possibleCrtcs[j];
          OnBoard(k, encs[i], c);
          ghost var x := Cand(encs[i], c);
          var r, o := IsOrphan(req, k, c, checkCap);
          if r {
            HitIs(Orphan(checkCap), s, req, k, seen, x, Remaining(encs, i, j + 1));
            HitApplies(s, req, k, Orphan(checkCap), x);
            var _ := ReleaseConnectorAndCrtc(o, c);
            TakeCrtc(k, encs[i], c);
            return c;
          }
          ScanMiss(Orphan(checkCap), s, req, k, seen, x, Remaining(encs, i, j + 1));
          seen := seen + [x];
          j := j + 1;
        }
        RemainingSteps(encs, i, j);
        i := i + 1;
      }
      RemainingStarts(encs, i);
      MissIs(Orphan(checkCap), s, req, k, seen);
      return null;
    }

    /** Joins another display's CRTC when the connector can output RGB; the CRTC keeps the display it has. */
    method FindAvailableCrtcByMirror(req: int, k: DrmConnector) returns (out: DrmCrtc?)
      requires Valid() && k in connectors && k.encoder == null
      modifies connectors, encoders, crtcs
      ensures var r := Attempt(ByMirror, old(S()), req, k);
              S() == r.0 && out == (if r.1.Some? then r.1.value else null)
    {
      hide S, WellFormed, Eligible, Attempt, Apply, Scanned, Candidates, Remaining, Take, Unseat;
      ghost var s := S();
      ghost var seen: seq<Cand> := [];
      var encs := k.possibleEncoders;
      ScanBegins(ByMirror, s, req, k);
      if !k.supportsRgb {
        NoMirrorWithoutRgb(s, req, k);
        return null;
      }
      var i := 0;
      while i < |encs|
        invariant 0 <= i <= |encs| && S() == s
        invariant Scanned(ByMirror, s, req, k, seen, Candidates(encs[i..]))
      {
        RemainingStarts(encs, i);
        var j := 0;
        while j < |encs[i].possibleCrtcs|
          invariant 0 <= j <= |encs[i].possibleCrtcs| && S() == s
          invariant Scanned(ByMirror, s, req, k, seen, Remaining(encs, i, j))
        {
          RemainingSteps(encs, i, j);
          var c := encs[i].possibleCrtcs[j];
          OnBoard(k, encs[i], c);
          ghost var x := Cand(encs[i], c);
          var r, o := IsMirrorable(req, k, c);
          if r {
            HitIs(ByMirror, s, req, k, seen, x, Remaining(encs, i, j + 1));
            HitApplies(s, req, k, ByMirror, x);
            JoinGroup(req, o, c.display, k, encs[i], c);
            return c;
          }
          ScanMiss(ByMirror, s, req, k, seen, x, Remaining(encs, i, j + 1));
          seen := seen + [x];
          j := j + 1;
        }
        RemainingSteps(encs, i, j);
        i := i + 1;
      }
      RemainingStarts(encs, i);
      MissIs(ByMirror, s, req, k, seen);
      return null;
    }

    /** Takes the CRTC of a connector that is gone or of lower priority; without a priority of its own, any CRTC. */
    method FindAvailableCrtcByCompete(req: int, k: DrmConnector) returns (out: DrmCrtc?)
      requires Valid() && k in connectors && k.encoder == null
      modifies connectors, encoders, crtcs
      ensures var r := Attempt(Compete, old(S()), req, k);
              S() == r.0 && out == (if r.1.Some? then r.1.value else null)
    {
      hide S, WellFormed, Eligible, Attempt, Apply, Scanned, Candidates, Remaining, Take, Unseat;
      ghost var s := S();
      ghost var seen: seq<Cand> := [];
      var encs := k.possibleEncoders;
      ScanBegins(Compete, s, req, k);
      var i := 0;
      while i < |encs|
        invariant 0 <= i <= |encs| && S() == s
        invariant Scanned(Compete, s, req, k, seen, Candidates(encs[i..]))
      {
        RemainingStarts(encs, i);
        var j := 0;
        while j < |encs[i].possibleCrtcs|
          invariant 0 <= j <= |encs[i].possibleCrtcs| && S() == s
          invariant Scanned(Compete, s, req, k, seen, Remaining(encs, i, j))
        {
          RemainingSteps(encs, i, j);
          var c := encs[i].possibleCrtcs[j];
          OnBoard(k, encs[i], c);
          ghost var x := Cand(encs[i], c);
          var r, o := IsWeaker(req, k, c);
          if r {
            HitIs(Compete, s, req, k, seen, x, Remaining(encs, i, j + 1));
            HitApplies(s, req, k, Compete, x);
            var _ := ReleaseConnectorAndCrtc(o, c);
            TakeCrtc(k, encs[i], c);
            return c;
          }
          ScanMiss(Compete, s, req, k, seen, x, Remaining(encs, i, j + 1));
          seen := seen + [x];
          j := j + 1;
        }
        RemainingSteps(encs, i, j);
        i := i + 1;
      }
      RemainingStarts(encs, i);
      MissIs(Compete, s, req, k, seen);
      return null;
    }

    method Unbind(k: DrmConnector)
      requires Valid() && k in connectors
      modifies k`encoder
      ensures k in old(S()).board.conns && S() == Unbound(old(S()), k)
      ensures Valid() && k.encoder == null
    {
      hide Displays, CrtcsOf, EncodersOf, Mirrors, Attrs;
      assert k in S().board.conns;
      ghost var s := Unbound(S(), k);
      hide WellFormed;
      SetConnectorEncoder(k, null);
      EncoderIs(k);
    }

    /** Free CRTCs first, then those of connectors that are gone. */
    method FindAvailableCrtcByFirst(req: int, k: DrmConnector, checkCap: bool) returns (out: DrmCrtc?)
      requires Valid() && k in connectors
      modifies connectors, encoders, crtcs
      ensures k in old(S()).board.conns
      ensures var r := AttemptAll([FirstFit(checkCap), Orphan(checkCap)], Unbound(old(S()), k), req, k);
              S() == r.0 && out == (if r.1.Some? then r.1.value else null)
    {
      hide S, WellFormed, Attempt, AttemptAll, Unbound;
      Unbind(k);
      ghost var s := S();
      AttemptPair(FirstFit(checkCap), Orphan(checkCap), s, req, k);
      EncoderIs(k);
      out := TakeFree(req, k, checkCap);
      if out == null {
        EncoderIs(k);
        out := TakeOrphan(req, k, checkCap);
      }
    }

    /** The four searches in their order. */
    method FindAvailableCrtc(req: int, k: DrmConnector) returns (out: DrmCrtc?)
      requires Valid() && k in connectors
      modifies connectors, encoders, crtcs
      ensures k in old(S()).board.conns
      ensures var r := Find(old(S()), req, k);
              S() == r.0 && out == (if r.1.Some? then r.1.value else null)
    {
      hide S, WellFormed, Attempt, AttemptAll, Unbound, Find;
      ghost var s := S();
      OnTheBoard(k);
      FindIsAttempts(s, req, k);
      ghost var s0 := Unbound(s, k);
      SearchesAreAttempts(s0, req, k);
      out := FindAvailableCrtcByFirst(req, k, true);
      if out != null { return; }
      EncoderIs(k);
      out := FindAvailableCrtcByMirror(req, k);
      if out != null { return; }
      UnboundTwice(s, k);
      out := FindAvailableCrtcByFirst(req, k, false);
      if out != null { return; }
      EncoderIs(k);
      out := FindAvailableCrtcByCompete(req, k);
    }

    lemma OnTheBoard(k: DrmConnector)
      ensures k in connectors <==> k in S().board.conns
    {
    }

    lemma EncoderIs(k: DrmConnector)
      requires k in connectors
      ensures k in S().encoderOf && S().encoderOf[k] == k.encoder
    {
    }

    method PickMode(k: DrmConnector, maxWidth: u64, maxDclk: u64)
      requires k in connectors
      modifies k`currentMode, k`bestMode
      ensures k in old(Attrs())
      ensures var v := old(Attrs())[k];
              var m := SuitableMode(v.modes, v.raw, maxWidth, maxDclk);
              Attrs() == old(Attrs())[k := if m.Some? then v.(best := m.value, current := m.value)
                else v.(best := NO_MODE)]
    {
      hide SuitableMode;
      k.GetSuitableMode(maxWidth, maxDclk);
    }

    method Disconnect(k: DrmConnector)
      requires k in connectors
      modifies k`connected
      ensures k in old(Attrs()) && Attrs() == old(Attrs())[k := old(Attrs())[k].(connected := false)]
    {
      k.connected := false;
    }

    method ActivateMode(k: DrmConnector)
      requires k in connectors
      modifies k`activeMode
      ensures k in old(Attrs()) && Attrs() == old(Attrs())[k := old(Attrs())[k].(active := old(Attrs())[k].current)]
    {
      k.SetActiveMode(k.currentMode);
    }

    lemma FieldsAre(k: DrmConnector)
      requires k in connectors
      ensures k in Attrs() && Attrs()[k] == k.View()
      ensures k in Mirrors() && Mirrors()[k] == k.MirrorView()
      ensures k in S().board.conns
    {
    }

    /** The commit that lights the CRTC is an abstract step that succeeds; the active mode is then the current one. */
    method BindConnectorAndCrtc(k: DrmConnector, c: DrmCrtc) returns (r: int)
      requires k in connectors
      modifies k`currentMode, k`bestMode, k`activeMode
      ensures k in old(S()).attr && (S(), r) == Activate(old(S()), k, c)
    {
      hide Displays, CrtcsOf, EncodersOf, Mirrors, Attrs, BoardOf, CapOk, SuitableMode;
      FieldsAre(k);
      if k.currentMode.id == 0 {
        return EINVAL;
      }
      if c.reportsOutputWidth {
        var cap := CheckCrtcOutputCapability(c, k.currentMode);
        if cap != 0 {
          PickMode(k, c.outputWidth, c.outputDclk);
        }
      }
      ActivateMode(k);
      assert Attrs() == Activate(old(S()), k, c).0.attr;
      return 0;
    }

    method BindDpyRes(req: int) returns (r: int)
      requires Valid()
      modifies connectors, encoders, crtcs
      ensures Valid() && (S(), r) == Bind(old(S()), req)
    {
      hide S, WellFormed, Find, Activate;
      ghost var s := S();
      OwnerFinds(s, req);
      BindShape(s, req);
      var k := GetConnectorForDisplay(req);
      r := CheckConnectorState(k);
      if r != 0 {
        return;
      }
      OnTheBoard(k);
      FindShape(s, req, k);
      var c := FindAvailableCrtc(req, k);
      if c == null {
        return FAILED;
      }
      r := BindConnectorAndCrtc(k, c);
    }

    /** The primary that hears of the connector's leaving, unless the connector is a primary itself. */
    method PrimaryToInform(k: DrmConnector) returns (primary: DrmConnector?)
      requires Valid() && k in connectors
      ensures k in S().board.conns && primary == Informed(S(), k)
      ensures primary != null ==> primary in connectors
    {
      hide ValidBoard, PointersOnBoard, FindConnector;
      FieldsAre(k);
      primary := null;
      if !(k.mirrorMode && k.mirrorPrimary) {
        var id := if k.mirrorMode then k.mirrorPrimaryId else -1;
        if id >= 0 {
          primary := GetConnectorForDisplay(id);
        }
      }
    }

    /** Leaving a mirror group; a primary with members left keeps its encoder. */
    method ReleaseDpyResByMirror(req: int, k: DrmConnector) returns (r: int)
      requires Valid() && k in connectors
      modifies connectors
      ensures k in old(S()).board.conns && S() == ReleaseMirror(old(S()), req, k) && r == 0
    {
      hide Displays, CrtcsOf, EncodersOf, Mirrors, Attrs, WellFormed, Informed, BoardOf;
      var primary := PrimaryToInform(k);
      ClearMirrorMode(k, req);
      FieldsAre(k);
      if !(k.mirrorMode && k.mirrorPrimary) {
        SetConnectorEncoder(k, null);
        if primary != null {
          ClearMirrorMode(primary, req);
        }
      }
      return 0;
    }

    /** The CRTC is free, and the plane groups on it are idle. */
    method ReleaseDpyResByNormal(k: DrmConnector, c: DrmCrtc) returns (r: int)
      requires k in connectors && c in crtcs
      modifies c`display, k`encoder, planeGroups
      ensures S() == ReleaseNormal(old(S()), k, c) && r == 0
      ensures var mask := PlaneGroups.PipeMask(c.pipe);
              forall g :: g in planeGroups ==>
                if !old(g.reserved) && PlaneGroups.Meets(g.possibleCrtcs, mask)
                   && PlaneGroups.Meets(old(g.currentCrtc), mask)
                then g.View() == PlaneGroups.Group(false, g.possibleCrtcs, 0, -1, 0, -1)
                else g.View() == old(g.View())
    {
      hide Displays, CrtcsOf, EncodersOf, Mirrors, Attrs, BoardOf, PlaneGroups.Meets, PlaneGroups.PipeMask;
      SetCrtcDisplay(c, -1);
      SetConnectorEncoder(k, null);
      PlaneGroups.ResetGroups(planeGroups, PlaneGroups.PipeMask(c.pipe));
      return 0;
    }

    lemma DrivenIs(k: DrmConnector)
      requires Valid() && k in connectors
      ensures k in S().board.conns
      ensures Driven(S(), k) <==> k.encoder != null && k.encoder.crtc != null
      ensures Driven(S(), k) ==> k.encoder.crtc in crtcs && S().crtcOf[S().encoderOf[k]] == k.encoder.crtc
    {
      hide ValidBoard;
      if k.encoder != null {
        assert S().encoderOf[k] in S().crtcOf;
      }
    }

    /** The pipe whose planes the release gives back, if any. */
    ghost function FreedPipe(req: int): (r: Option<nat>)
      reads connectors, encoders, crtcs
      requires Valid()
      ensures r.Some? <==> exists k :: k in connectors && k.display == MaskSplit(req) && !k.mirrorMode
                                       && k.encoder != null && k.encoder.crtc != null
      ensures forall k :: k in connectors && k.display == MaskSplit(req) && r.Some? ==>
                k.encoder != null && k.encoder.crtc != null && r.value == k.encoder.crtc.pipe
    {
      OwnerFinds(S(), req);
      var k := Owner(S(), req);
      if k != null && Driven(S(), k) && !S().mirror[k].mode then Some(S().crtcOf[S().encoderOf[k]].pipe) else None
    }

    method ReleaseDpyRes(req: int) returns (r: int)
      requires Valid()
      modifies connectors, crtcs, planeGroups
      ensures Valid() && (S(), r) == Release(old(S()), req)
      ensures var freed := old(FreedPipe(req));
              forall g :: g in planeGroups ==>
                if freed.Some? && !old(g.reserved)
                   && PlaneGroups.Meets(g.possibleCrtcs, PlaneGroups.PipeMask(freed.value))
                   && PlaneGroups.Meets(old(g.currentCrtc), PlaneGroups.PipeMask(freed.value))
                then g.View() == PlaneGroups.Group(false, g.possibleCrtcs, 0, -1, 0, -1)
                else g.View() == old(g.View())
    {
      hide S, WellFormed, ReleaseMirror, ReleaseNormal, Driven, PlaneGroups.Meets, PlaneGroups.PipeMask;
      ghost var s := S();
      OwnerFinds(s, req);
      ReleaseShape(s, req);
      var k := GetConnectorForDisplay(req);
      if k == null {
        return EINVAL;
      }
      DrivenIs(k);
      MirrorIs(k);
      if k.encoder != null && k.encoder.crtc != null {
        var c := k.encoder.crtc;
        if k.mirrorMode {
          r := ReleaseDpyResByMirror(req, k);
        } else {
          r := ReleaseDpyResByNormal(k, c);
        }
      }
      return 0;
    }

    lemma MirrorIs(k: DrmConnector)
      requires k in connectors
      ensures k in S().mirror && S().mirror[k] == k.MirrorView()
    {
    }

    /** First half of a mode change on a mirror primary: every driven external leaves the group. */
    method ReleaseMirrorDisplays(members: seq<int>)
      requires Valid()
      modifies connectors
      ensures Valid() && S() == Dissolve(old(S()), members)
    {
      hide S, WellFormed, ReleaseMirror, Driven;
      var i := 0;
      assert members[0..] == members;
      while i < |members|
        invariant 0 <= i <= |members| && Valid()
        invariant Dissolve(S(), members[i..]) == Dissolve(old(S()), members)
      {
        ghost var s := S();
        assert members[i..][0] == members[i] && members[i..][1..] == members[i + 1..];
        OwnerFinds(s, members[i]);
        var k := GetConnectorForDisplay(members[i]);
        if k != null {
          DrivenIs(k);
          if k.encoder != null && k.encoder.crtc != null {
            ReleaseMirrorShape(s, members[i], k);
            var _ := ReleaseDpyResByMirror(members[i], k);
          }
        }
        assert S() == SendAway(s, members[i]);
        i := i + 1;
      }
    }
  }
}
