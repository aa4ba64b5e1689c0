/** A board on which a mirror primary loses its group: it changes its mode and is bound again, onto another display. */
module MirrorExamples {
  import opened DisplayModes
  import opened DrmResources
  import opened CrtcAllocation
  import opened AllocationTheorems
  import opened SelectionTheorems
  import opened MirrorTheorems
  import MirrorGroups

  const SMALL := Mode(1, Timing(148500, 1920, 2008, 2052, 2200, 1080, 1084, 1089, 1125), 60, true)
  const LARGE := Mode(2, Timing(594000, 3840, 4016, 4104, 4400, 2160, 2168, 2178, 2250), 60, true)

  datatype Devices = Devices(k: DrmConnector, e: DrmConnector, o: DrmConnector,
                             ke: DrmEncoder, ee: DrmEncoder, oe: DrmEncoder, c0: DrmCrtc, c1: DrmCrtc)

  /** Connectors 0 and 1 share CRTC `c0`, which is limited to a width of 1920; connector 2 has `c1`. */
  predicate Wired(d: Devices) {
    && d.k.display == 0 && d.e.display == 1 && d.o.display == 2
    && d.ke != d.ee && d.ee != d.oe && d.ke != d.oe && d.c0 != d.c1
    && d.k.possibleEncoders == [d.ke] && d.e.possibleEncoders == [d.ee] && d.o.possibleEncoders == [d.oe]
    && d.ke.possibleCrtcs == [d.c0, d.c1] && d.ee.possibleCrtcs == [d.c0] && d.oe.possibleCrtcs == [d.c1]
    && d.k.supportsRgb
    && d.c0.reportsOutputWidth && d.c0.outputWidth == 1920 && !d.c1.reportsOutputWidth
  }

  function BoardOf(d: Devices): Board {
    Board([d.k, d.e, d.o], {d.k, d.e, d.o}, {d.ke, d.ee, d.oe}, {d.c0, d.c1})
  }

  function Bound(current: Mode, active: Mode): Attributes {
    Attributes(true, true, current, active, NO_MODE, [], [])
  }

  /** 1 mirrors 0, both small; 2 is large; 0 was just switched to large. */
  function Before(d: Devices): State {
    State(
      BoardOf(d),
      map[d.c0 := 0, d.c1 := 2],
      map[d.ke := d.c0, d.ee := d.c0, d.oe := d.c1],
      map[d.k := d.ke, d.e := d.ee, d.o := d.oe],
      map[d.k := Mirror(true, true, 0, {1}), d.e := Mirror(true, false, 0, {}), d.o := NO_MIRROR],
      map[d.k := Bound(LARGE, SMALL), d.e := Bound(SMALL, SMALL), d.o := Bound(LARGE, LARGE)])
  }

  lemma BoardIsValid(d: Devices)
    requires Wired(d)
    ensures ValidBoard(BoardOf(d))
  {
  }

  lemma BeforeIsPointed(d: Devices)
    requires Wired(d)
    ensures PointersOnBoard(Before(d)) && PlainDisplays(Before(d))
  {
  }

  lemma BeforeIsWellFormed(d: Devices)
    requires Wired(d)
    ensures WellFormed(Before(d)) && PlainDisplays(Before(d))
  {
    hide ValidBoard, PointersOnBoard;
    BoardIsValid(d);
    BeforeIsPointed(d);
    hide Wired;
  }

  lemma FindInThree(a: DrmConnector, b: DrmConnector, c: DrmConnector, id: int)
    ensures FindConnector([a, b, c], id)
         == if a.display == id then a else if b.display == id then b else if c.display == id then c else null
  {
    assert [a, b, c][1..] == [b, c] && [b, c][1..] == [c] && [c][1..] == [];
    assert FindConnector([c], id) == if c.display == id then c else null;
    assert FindConnector([b, c], id) == if b.display == id then b else FindConnector([c], id);
  }

  lemma PlainIds()
    ensures MaskSplit(0) == 0 && MaskSplit(2) == 2
  {
  }

  lemma Owners(d: Devices)
    requires Wired(d)
    ensures Owner(Before(d), 0) == d.k && Owner(Before(d), 2) == d.o
  {
    hide FindConnector, MaskSplit;
    PlainIds();
    FindInThree(d.k, d.e, d.o, 0);
    FindInThree(d.k, d.e, d.o, 2);
    assert Before(d).board.connectors == [d.k, d.e, d.o];
  }

  lemma BeforeIsCoherent(d: Devices)
    requires Wired(d) && WellFormed(Before(d))
    ensures var g := GroupsOf(Before(d));
            && MirrorGroups.Coherent(g)
            && 0 in g && 2 in g && g[0] == Mirror(true, true, 0, {1}) && g[2] == NO_MIRROR
  {
    var s := Before(d);
    var g := GroupsOf(s);
    GroupsAt(s.board, s.mirror, d.k);
    GroupsAt(s.board, s.mirror, d.e);
    GroupsAt(s.board, s.mirror, d.o);
    forall p | p in g ensures MirrorGroups.Agrees(g, p) {
      assert p == 0 || p == 1 || p == 2;
      forall x ensures x in g[p].displays <==> MirrorGroups.Mirrors(g, x, p) {
      }
    }
  }

  /** The state a search for connector 0 looks at. */
  ghost function Searched(d: Devices): (s: State)
    requires Wired(d)
    ensures WellFormed(s) && d.k in s.board.conns && d.c0 in s.display && d.c1 in s.display
    ensures s == SetEncoder(Before(d), d.k, null)
  {
    BeforeIsWellFormed(d);
    UnboundShape(Before(d), d.k);
    SetEncoder(Before(d), d.k, null)
  }

  lemma SearchedFields(d: Devices)
    requires Wired(d)
    ensures var s := Searched(d);
            && s.display == map[d.c0 := 0, d.c1 := 2]
            && Owner(s, 0) == d.k && Owner(s, 2) == d.o
            && d.k in s.attr && d.o in s.attr
            && s.attr[d.k] == Bound(LARGE, SMALL) && s.attr[d.o] == Bound(LARGE, LARGE)
  {
    hide WellFormed, FindConnector, Searched, MaskSplit;
    Owners(d);
  }

  lemma Capabilities(d: Devices)
    requires Wired(d)
    ensures !CapOk(d.c0, LARGE) && CapOk(d.c1, LARGE)
  {
  }

  lemma NotFree(d: Devices)
    requires Wired(d)
    ensures !Eligible(FirstFit(true), Searched(d), 0, d.k, d.c0) && !Eligible(FirstFit(true), Searched(d), 0, d.k, d.c1)
  {
    hide WellFormed, Owner, Searched, CapOk, FindConnector;
    SearchedFields(d);
    Capabilities(d);
  }

  lemma NotOrphaned(d: Devices)
    requires Wired(d)
    ensures !Eligible(Orphan(true), Searched(d), 0, d.k, d.c0) && !Eligible(Orphan(true), Searched(d), 0, d.k, d.c1)
  {
    hide WellFormed, Owner, Searched, CapOk, FindConnector;
    SearchedFields(d);
    Capabilities(d);
  }

  lemma OnlyOneMirrorable(d: Devices)
    requires Wired(d)
    ensures Eligible(ByMirror, Searched(d), 0, d.k, d.c1) && !Eligible(ByMirror, Searched(d), 0, d.k, d.c0)
  {
    hide WellFormed, Owner, Searched, CapOk, FindConnector;
    SearchedFields(d);
    Capabilities(d);
  }

  lemma MirrorPassDecides(s: State, req: int, k: DrmConnector, e: DrmEncoder, c: DrmCrtc)
    requires WellFormed(s) && k in s.board.conns && e in k.possibleEncoders && c in e.possibleCrtcs && c in s.display
    requires NoneEligible(FirstFit(true), s, req, k) && NoneEligible(Orphan(true), s, req, k)
    requires Eligible(ByMirror, s, req, k, c)
    ensures Select(s, req, k).Some? && Select(s, req, k).value.pass.ByMirror?
  {
    hide WellFormed, Eligible, SelectFrom;
    SelectFromChooses(PASSES, s, req, k);
    assert !NoneEligible(ByMirror, s, req, k);
    assert PASSES[0] == FirstFit(true) && PASSES[1] == Orphan(true) && PASSES[2] == ByMirror;
    var r := SelectFrom(PASSES, s, req, k);
    if r.Some? {
      var n :| 0 <= n < |PASSES| && PASSES[n] == r.value.pass
               && forall i :: 0 <= i < n ==> NoneEligible(PASSES[i], s, req, k);
      assert n <= 2;
      EligiblePass(PASSES[n], s, req, k, r.value.cand);
    }
  }

  lemma EligiblePass(p: Pass, s: State, req: int, k: DrmConnector, x: Cand)
    requires WellFormed(s) && k in s.board.conns && x.enc in k.possibleEncoders && x.crtc in x.enc.possibleCrtcs
    requires x.crtc in s.display && Eligible(p, s, req, k, x.crtc)
    ensures !NoneEligible(p, s, req, k)
  {
    hide WellFormed, Eligible;
  }

  /** No CRTC will do for connector 0 but that of connector 2, and that one by mirroring. */
  lemma SearchMirrorsTwo(d: Devices)
    requires Wired(d)
    ensures var r := Select(Searched(d), 0, d.k);
            r.Some? && r.value.pass.ByMirror? && r.value.cand.crtc == d.c1
  {
    hide WellFormed, Eligible, Owner, Searched, Select;
    NotFree(d);
    NotOrphaned(d);
    OnlyOneMirrorable(d);
    assert d.ke in d.k.possibleEncoders && d.c1 in d.ke.possibleCrtcs;
    MirrorPassDecides(Searched(d), 0, d.k, d.ke, d.c1);
    SelectChooses(Searched(d), 0, d.k);
  }

  lemma AliveNow(d: Devices)
    requires Wired(d)
    ensures d.k in Before(d).attr && Alive(Before(d), d.k)
  {
  }

  lemma BindMirrorsTwo(d: Devices)
    requires Wired(d) && WellFormed(Before(d))
    ensures BindsByMirror(Before(d), 0)
  {
    hide WellFormed, Before, Searched, Select, FindConnector;
    Owners(d);
    AliveNow(d);
    SearchMirrorsTwo(d);
  }

  lemma OnlyTwo(d: Devices)
    requires Wired(d) && WellFormed(Before(d)) && BindsByMirror(Before(d), 0)
    ensures MirrorOwner(Before(d), 0) == d.o && Owner(Before(d), 0) == d.k
  {
    hide WellFormed, Searched, Select, FindConnector, BindsByMirror;
    SearchMirrorsTwo(d);
    Owners(d);
  }

  /** The groups were coherent; binding connector 0 again clears its set while connector 1 still names it. */
  lemma RebindingAPrimaryBreaksItsGroup(d: Devices)
    requires Wired(d)
    ensures var s := Before(d);
            && WellFormed(s) && PlainDisplays(s) && MirrorGroups.Coherent(GroupsOf(s))
            && !MirrorGroups.Coherent(GroupsOf(Step(s, BindOp(0))))
  {
    var s := Before(d);
    BeforeIsWellFormed(d);
    hide WellFormed, Before, GroupsOf, Step, MirrorGroups.Coherent, BindsByMirror, PlainDisplays, Bind;
    BeforeIsCoherent(d);
    BindMirrorsTwo(d);
    OnlyTwo(d);
    assert !MirrorGroups.Joinable(GroupsOf(s), 2, 0, 0) by {
      assert 1 in GroupsOf(s)[0].displays;
    }
    StepCoherence(s, BindOp(0));
  }

  /** Such devices exist. */
  method Example() returns (d: Devices)
    ensures Wired(d)
  {
    var c0 := new DrmCrtc(0, true, 1920, 200_000_000);
    var c1 := new DrmCrtc(1, false, 0, 0);
    var ke := new DrmEncoder([c0, c1], null);
    var ee := new DrmEncoder([c0], null);
    var oe := new DrmEncoder([c1], null);
    var k := new DrmConnector([ke], 0, 0, true, true);
    var e := new DrmConnector([ee], 1, 0, true, true);
    var o := new DrmConnector([oe], 2, 0, true, true);
    d := Devices(k, e, o, ke, ee, oe, c0, c1);
  }
}
