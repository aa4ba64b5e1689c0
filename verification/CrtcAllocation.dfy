/**
 * The CRTC allocator as a function on values: which (encoder, CRTC) pair a connector gets, what every
 * bind and release does to the board, and the predicates its runs are judged by.
 */
module CrtcAllocation {
  import opened Arithmetic
  import opened DisplayModes
  import opened DrmResources

  /** The objects of the device; they never change. */
  datatype Board = Board(connectors: seq<DrmConnector>, conns: set<DrmConnector>, encoders: set<DrmEncoder>,
      crtcs: set<DrmCrtc>)

  /** The maps hold the mutable fields of the objects they are keyed by. */
  datatype State = State(
    board: Board,
    display: map<DrmCrtc, int>,
    crtcOf: map<DrmEncoder, DrmCrtc?>,
    encoderOf: map<DrmConnector, DrmEncoder?>,
    mirror: map<DrmConnector, Mirror>,
    attr: map<DrmConnector, Attributes>)

  const EINVAL := -22
  const FAILED := -1

  /** `d & ~0xf0` in two's complement. */
  function MaskSplit(d: int): int {
    d - 16 * ((d / 16) % 16)
  }

  function FindConnector(connectors: seq<DrmConnector>, d: int): DrmConnector? {
    if connectors == [] then null
    else if connectors[0].display == d then connectors[0]
    else FindConnector(connectors[1..], d)
  }

  function Owner(s: State, d: int): DrmConnector? {
    FindConnector(s.board.connectors, MaskSplit(d))
  }

  /** Displays are distinct and below the split bits, and every encoder serves one connector. */
  ghost predicate ValidBoard(b: Board) {
    && (forall k :: k in b.connectors ==> k in b.conns)
    && (forall k :: k in b.conns ==> k in b.connectors)
    && (forall k, l :: k in b.conns && l in b.conns && k.display == l.display ==> k == l)
    && (forall k :: k in b.conns ==> 0 <= k.display < 16)
    && (forall k, e :: k in b.conns && e in k.possibleEncoders ==> e in b.encoders)
    && (forall e, c :: e in b.encoders && c in e.possibleCrtcs ==> c in b.crtcs)
    && (forall k, l, e :: k in b.conns && l in b.conns && e in k.possibleEncoders && e in l.possibleEncoders ==> k == l)
  }

  ghost predicate PointersOnBoard(s: State) {
    && (forall k :: k in s.encoderOf && s.encoderOf[k] != null ==> s.encoderOf[k] in s.crtcOf)
    && (forall e :: e in s.crtcOf && s.crtcOf[e] != null ==> s.crtcOf[e] in s.display)
  }

  ghost predicate WellFormed(s: State) {
    && ValidBoard(s.board)
    && s.encoderOf.Keys == s.board.conns
    && s.mirror.Keys == s.board.conns
    && s.attr.Keys == s.board.conns
    && s.crtcOf.Keys == s.board.encoders
    && s.display.Keys == s.board.crtcs
    && PointersOnBoard(s)
  }

  /** Connectors that can be looked up are on the board, and looking up a connector's own display finds it. */
  lemma {:induction false} FindConnectorFinds(connectors: seq<DrmConnector>, d: int)
    ensures var k := FindConnector(connectors, d);
            && (k != null ==> k in connectors && k.display == d)
            && (k == null ==> forall l :: l in connectors ==> l.display != d)
  {
    if connectors != [] && connectors[0].display != d {
      FindConnectorFinds(connectors[1..], d);
      assert connectors == [connectors[0]] + connectors[1..];
    }
  }

  lemma OwnerFinds(s: State, d: int)
    requires WellFormed(s)
    ensures var k := Owner(s, d);
            && (k != null ==> k in s.board.conns && k in s.board.conns && k.display == MaskSplit(d))
            && (k == null ==> forall l :: l in s.board.conns ==> l.display != MaskSplit(d))
    ensures 0 <= d < 16 ==> MaskSplit(d) == d
    ensures forall k :: k in s.board.conns && k.display == MaskSplit(d) ==> Owner(s, d) == k
  {
    FindConnectorFinds(s.board.connectors, MaskSplit(d));
    var o := Owner(s, d);
    forall k | k in s.board.conns && k.display == MaskSplit(d) ensures o == k {
      assert o != null;
    }
  }

  /** The four split bits are ignored, whatever they and the bits above and below them are. */
  lemma SplitBitsAreIgnored(low: int, split: int, high: int)
    requires 0 <= low < 16 && 0 <= split < 16
    ensures MaskSplit(256 * high + 16 * split + low) == 256 * high + low
  {
    UniqueQuotient(256 * high + 16 * split + low, 16, 16 * high + split);
    UniqueQuotient(16 * high + split, 16, high);
  }

  /** A connector is found under its display id with any split bits. */
  lemma FoundUnderSplitIds(s: State, k: DrmConnector, split: int)
    requires WellFormed(s) && k in s.board.conns && 0 <= split < 16
    ensures Owner(s, k.display + 16 * split) == k
  {
    hide PointersOnBoard, MaskSplit, Owner;
    SplitBitsAreIgnored(k.display, split, 0);
    OwnerFinds(s, k.display + 16 * split);
  }

  lemma Recorded(s: State, k: DrmConnector)
    requires WellFormed(s) && k in s.board.conns
    ensures k in s.mirror && k in s.encoderOf && k in s.attr
    ensures s.encoderOf[k] != null ==> s.encoderOf[k] in s.crtcOf
  {
    hide ValidBoard;
  }

  lemma DistinctDisplays(s: State, k: DrmConnector, l: DrmConnector)
    requires WellFormed(s) && k in s.board.conns && l in s.board.conns && k != l
    ensures k.display != l.display && 0 <= k.display < 16 && 0 <= l.display < 16
  {
  }

  // ---- Eligibility ----------------------------------------------------------------------------

  datatype Pass =
    | FirstFit(checkCap: bool)
    | Orphan(checkCap: bool)
    | ByMirror
    | Compete

  const PASSES: seq<Pass> := [FirstFit(true), Orphan(true), ByMirror, FirstFit(false), Orphan(false), Compete]

  /** CheckCrtcOutputCapability returns 0. */
  predicate CapOk(c: DrmCrtc, m: Mode) {
    m.id > 0 && (c.reportsOutputWidth ==> Fits(m, c.outputWidth, c.outputDclk))
  }

  /** CheckConnectorState returns 0. */
  predicate Alive(s: State, k: DrmConnector?)
    requires k != null ==> k in s.attr
  {
    k != null && s.attr[k].connected
  }

  /** Whether pass `p` stops at CRTC `c` for connector `k`, asked for under display id `req`. */
  ghost predicate Eligible(p: Pass, s: State, req: int, k: DrmConnector, c: DrmCrtc)
    requires WellFormed(s) && k in s.board.conns && c in s.display
  {
    OwnerFinds(s, s.display[c]);
    var d := s.display[c];
    var o := Owner(s, d);
    match p
    case FirstFit(cap) => (d == -1 || d == k.display) && (cap ==> CapOk(c, s.attr[k].current))
    case Orphan(cap) => (d < 0 || !Alive(s, o)) && (cap ==> CapOk(c, s.attr[k].current))
    case ByMirror =>
      && k.supportsRgb
      && d >= 0 && d != req
      && CapOk(c, s.attr[k].current)
      && Alive(s, o)
      && s.attr[o].active.id > 0
      && s.attr[o].active.timing == s.attr[k].current.timing
    case Compete => k.priority > 0 ==> !Alive(s, o) || k.priority < o.priority
  }

  /** The order in which the nested loops visit the pairs. */
  datatype Cand = Cand(enc: DrmEncoder, crtc: DrmCrtc)

  function Pairs(e: DrmEncoder, crtcs: seq<DrmCrtc>): (r: seq<Cand>)
    ensures |r| == |crtcs| && forall j :: 0 <= j < |crtcs| ==> r[j] == Cand(e, crtcs[j])
  {
    seq(|crtcs|, j requires 0 <= j < |crtcs| => Cand(e, crtcs[j]))
  }

  function Candidates(encs: seq<DrmEncoder>): seq<Cand> {
    if encs == [] then [] else Pairs(encs[0], encs[0].possibleCrtcs) + Candidates(encs[1..])
  }

  /** A pair is a candidate exactly when the encoder may drive the connector and the CRTC the encoder. */
  lemma {:induction false} CandidateMember(encs: seq<DrmEncoder>, e: DrmEncoder, c: DrmCrtc)
    ensures Cand(e, c) in Candidates(encs) <==> e in encs && c in e.possibleCrtcs
  {
    if encs != [] {
      CandidateMember(encs[1..], e, c);
      assert encs == [encs[0]] + encs[1..];
      var ps := Pairs(encs[0], encs[0].possibleCrtcs);
      if e == encs[0] && c in e.possibleCrtcs {
        var j :| 0 <= j < |e.possibleCrtcs| && e.possibleCrtcs[j] == c;
        assert ps[j] == Cand(e, c);
      }
    }
  }

  function PairsBefore(encs: seq<DrmEncoder>, i: nat): nat
    requires i <= |encs|
  {
    if i == 0 then 0 else PairsBefore(encs, i - 1) + |encs[i - 1].possibleCrtcs|
  }

  /** Encoder by encoder, and in each its CRTCs one after the other. */
  lemma {:induction false} CandidateOrder(encs: seq<DrmEncoder>, i: nat, j: nat)
    requires i < |encs| && j < |encs[i].possibleCrtcs|
    ensures PairsBefore(encs, i) + j < |Candidates(encs)|
    ensures Candidates(encs)[PairsBefore(encs, i) + j] == Cand(encs[i], encs[i].possibleCrtcs[j])
  {
    if i > 0 {
      CandidateOrder(encs[1..], i - 1, j);
      PairsBeforeTail(encs, i);
    }
  }

  lemma {:induction false} PairsBeforeTail(encs: seq<DrmEncoder>, i: nat)
    requires 0 < i <= |encs|
    ensures PairsBefore(encs, i) == |encs[0].possibleCrtcs| + PairsBefore(encs[1..], i - 1)
  {
    if i > 1 {
      PairsBeforeTail(encs, i - 1);
    }
  }

  ghost predicate Choices(s: State, k: DrmConnector, cands: seq<Cand>) {
    k in s.board.conns && forall x :: x in cands ==>
      x.enc in k.possibleEncoders && x.enc in s.crtcOf && x.crtc in x.enc.possibleCrtcs && x.crtc in s.display
  }

  lemma CandidatesAreChoices(s: State, k: DrmConnector)
    requires WellFormed(s) && k in s.board.conns
    ensures Choices(s, k, Candidates(k.possibleEncoders))
  {
    forall x | x in Candidates(k.possibleEncoders)
      ensures x.enc in k.possibleEncoders && x.enc in s.crtcOf && x.crtc in x.enc.possibleCrtcs && x.crtc in s.display
    {
      CandidateMember(k.possibleEncoders, x.enc, x.crtc);
    }
  }

  ghost function FirstEligible(p: Pass, s: State, req: int, k: DrmConnector, cands: seq<Cand>): Option<Cand>
    requires WellFormed(s) && Choices(s, k, cands)
  {
    if cands == [] then None
    else if Eligible(p, s, req, k, cands[0].crtc) then Some(cands[0])
    else FirstEligible(p, s, req, k, cands[1..])
  }

  lemma {:induction false} FirstEligibleFinds(p: Pass, s: State, req: int, k: DrmConnector, cands: seq<Cand>)
    requires WellFormed(s) && Choices(s, k, cands)
    ensures var r := FirstEligible(p, s, req, k, cands);
            && (r.Some? ==> r.value in cands && Eligible(p, s, req, k, r.value.crtc))
            && (r.None? ==> forall x :: x in cands ==> !Eligible(p, s, req, k, x.crtc))
  {
    hide WellFormed, Eligible;
    if cands != [] && !Eligible(p, s, req, k, cands[0].crtc) {
      FirstEligibleFinds(p, s, req, k, cands[1..]);
      assert cands == [cands[0]] + cands[1..];
    }
  }

  /** The pass takes the first candidate it accepts. */
  lemma {:induction false} FirstEligibleIsFirst(p: Pass, s: State, req: int, k: DrmConnector, cands: seq<Cand>)
    requires WellFormed(s) && Choices(s, k, cands) && FirstEligible(p, s, req, k, cands).Some?
    ensures exists i :: 0 <= i < |cands| && cands[i] == FirstEligible(p, s, req, k, cands).value
                        && Eligible(p, s, req, k, cands[i].crtc)
                        && forall j :: 0 <= j < i ==> !Eligible(p, s, req, k, cands[j].crtc)
  {
    hide WellFormed, Eligible;
    if !Eligible(p, s, req, k, cands[0].crtc) {
      FirstEligibleIsFirst(p, s, req, k, cands[1..]);
      var i :| 0 <= i < |cands[1..]| && cands[1..][i] == FirstEligible(p, s, req, k, cands[1..]).value
               && Eligible(p, s, req, k, cands[1..][i].crtc)
               && forall j :: 0 <= j < i ==> !Eligible(p, s, req, k, cands[1..][j].crtc);
      forall j | 0 <= j < i + 1 ensures !Eligible(p, s, req, k, cands[j].crtc) {
        assert j > 0 ==> cands[j] == cands[1..][j - 1];
      }
      assert cands[i + 1] == cands[1..][i];
    }
  }

  // ---- The selection --------------------------------------------------------------------------

  datatype Choice = Choice(pass: Pass, cand: Cand)

  ghost function SelectFrom(passes: seq<Pass>, s: State, req: int, k: DrmConnector): Option<Choice>
    requires WellFormed(s) && k in s.board.conns
  {
    CandidatesAreChoices(s, k);
    if passes == [] then None
    else
      var r := FirstEligible(passes[0], s, req, k, Candidates(k.possibleEncoders));
      if r.Some? then Some(Choice(passes[0], r.value)) else SelectFrom(passes[1..], s, req, k)
  }

  ghost function Select(s: State, req: int, k: DrmConnector): Option<Choice>
    requires WellFormed(s) && k in s.board.conns
  {
    SelectFrom(PASSES, s, req, k)
  }

  // ---- Effects --------------------------------------------------------------------------------

  function SetEncoder(s: State, k: DrmConnector, e: DrmEncoder?): State {
    s.(encoderOf := s.encoderOf[k := e])
  }

  function SetMirror(s: State, k: DrmConnector, m: Mirror): State {
    s.(mirror := s.mirror[k := m])
  }

  function SetAttributes(s: State, k: DrmConnector, v: Attributes): State {
    s.(attr := s.attr[k := v])
  }

  /** ReleaseConnectorAndCrtc with a commit that succeeds. */
  function Unseat(s: State, o: DrmConnector?, c: DrmCrtc): State {
    if o == null then s else SetEncoder(s.(display := s.display[c := -1]), o, null)
  }

  function Take(s: State, k: DrmConnector, e: DrmEncoder, c: DrmCrtc): State {
    SetEncoder(s.(display := s.display[c := k.display], crtcOf := s.crtcOf[e := c]), k, e)
  }

  /** A mirror leaves the CRTC's display alone and marks both connectors. */
  function JoinMirror(s: State, req: int, o: DrmConnector, primaryId: int, k: DrmConnector, e: DrmEncoder,
      c: DrmCrtc): State
    requires k in s.mirror && o in s.mirror
  {
    var s1 := SetMirror(s, o, EnableMirror(s.mirror[o], o.display, primaryId, req));
    var s2 := SetMirror(s1, k, EnableMirror(s1.mirror[k], k.display, primaryId, req));
    SetEncoder(s2.(crtcOf := s2.crtcOf[e := c]), k, e)
  }

  ghost function Apply(s: State, req: int, k: DrmConnector, ch: Choice): State
    requires WellFormed(s) && k in s.board.conns && ch.cand.crtc in s.display
    requires ch.pass.ByMirror? ==> Owner(s, s.display[ch.cand.crtc]) != null
  {
    var c := ch.cand.crtc;
    var d := s.display[c];
    OwnerFinds(s, d);
    match ch.pass
    case FirstFit(_) => Take(s, k, ch.cand.enc, c)
    case Orphan(_) => Take(if d >= 0 then Unseat(s, Owner(s, d), c) else s, k, ch.cand.enc, c)
    case ByMirror => JoinMirror(s, req, Owner(s, d), d, k, ch.cand.enc, c)
    case Compete => Take(Unseat(s, Owner(s, d), c), k, ch.cand.enc, c)
  }

  lemma SelectChooses(s: State, req: int, k: DrmConnector)
    requires WellFormed(s) && k in s.board.conns
    ensures var r := Select(s, req, k);
            && (r.Some? ==>
                  && r.value.cand.enc in k.possibleEncoders && r.value.cand.crtc in r.value.cand.enc.possibleCrtcs
                  && r.value.cand.enc in s.crtcOf && r.value.cand.crtc in s.display
                  && Eligible(r.value.pass, s, req, k, r.value.cand.crtc))
  {
    SelectFromChooses(PASSES, s, req, k);
  }

  ghost predicate NoneEligible(p: Pass, s: State, req: int, k: DrmConnector)
    requires WellFormed(s) && k in s.board.conns
  {
    forall e, c :: e in k.possibleEncoders && c in e.possibleCrtcs ==> c in s.display && !Eligible(p, s, req, k, c)
  }

  lemma FirstEligibleNone(p: Pass, s: State, req: int, k: DrmConnector)
    requires WellFormed(s) && k in s.board.conns
    ensures Choices(s, k, Candidates(k.possibleEncoders))
    ensures FirstEligible(p, s, req, k, Candidates(k.possibleEncoders)).None? ==> NoneEligible(p, s, req, k)
  {
    hide WellFormed, Eligible;
    CandidatesAreChoices(s, k);
    var cands := Candidates(k.possibleEncoders);
    FirstEligibleFinds(p, s, req, k, cands);
    if FirstEligible(p, s, req, k, cands).None? {
      forall e, c | e in k.possibleEncoders && c in e.possibleCrtcs
        ensures c in s.display && !Eligible(p, s, req, k, c)
      {
        CandidateMember(k.possibleEncoders, e, c);
        assert Cand(e, c) in cands;
      }
    }
  }

  /** The pass that decided, by position, with nothing for the passes before it. */
  ghost predicate Decides(passes: seq<Pass>, s: State, req: int, k: DrmConnector, p: Pass, n: nat)
    requires WellFormed(s) && k in s.board.conns
  {
    n < |passes| && passes[n] == p && forall i :: 0 <= i < n ==> NoneEligible(passes[i], s, req, k)
  }

  lemma DecidesLater(passes: seq<Pass>, s: State, req: int, k: DrmConnector, p: Pass, n: nat)
    requires WellFormed(s) && k in s.board.conns && passes != [] && NoneEligible(passes[0], s, req, k)
    requires Decides(passes[1..], s, req, k, p, n)
    ensures Decides(passes, s, req, k, p, n + 1)
  {
    hide WellFormed, NoneEligible;
    forall i | 0 <= i < n + 1 ensures NoneEligible(passes[i], s, req, k) {
      assert i > 0 ==> passes[i] == passes[1..][i - 1];
    }
  }

  lemma {:induction false} SelectFromChooses(passes: seq<Pass>, s: State, req: int, k: DrmConnector)
    requires WellFormed(s) && k in s.board.conns
    ensures var r := SelectFrom(passes, s, req, k);
            && (r.Some? ==>
                  && r.value.cand.enc in k.possibleEncoders && r.value.cand.crtc in r.value.cand.enc.possibleCrtcs
                  && r.value.cand.enc in s.crtcOf && r.value.cand.crtc in s.display
                  && Eligible(r.value.pass, s, req, k, r.value.cand.crtc)
                  && exists n :: Decides(passes, s, req, k, r.value.pass, n))
            && (r.None? ==> forall i :: 0 <= i < |passes| ==> NoneEligible(passes[i], s, req, k))
  {
    hide WellFormed, Eligible, NoneEligible, FirstEligible;
    if passes != [] {
      var cands := Candidates(k.possibleEncoders);
      FirstEligibleNone(passes[0], s, req, k);
      FirstEligibleFinds(passes[0], s, req, k, cands);
      if FirstEligible(passes[0], s, req, k, cands).None? {
        SelectFromChooses(passes[1..], s, req, k);
        var r := SelectFrom(passes[1..], s, req, k);
        if r.Some? {
          var n :| Decides(passes[1..], s, req, k, r.value.pass, n);
          DecidesLater(passes, s, req, k, r.value.pass, n);
        } else {
          forall i | 0 <= i < |passes| ensures NoneEligible(passes[i], s, req, k) {
            assert i > 0 ==> passes[i] == passes[1..][i - 1];
          }
        }
      } else {
        assert Decides(passes, s, req, k, passes[0], 0);
      }
    }
  }

  // ---- Operations -----------------------------------------------------------------------------

  ghost function Find(s: State, req: int, k: DrmConnector): (r: (State, Option<DrmCrtc>))
    requires WellFormed(s) && k in s.board.conns
  {
    var s0 := SetEncoder(s, k, null);
    var ch := Select(s0, req, k);
    SelectChooses(s0, req, k);
    if ch.None? then (s0, None) else (Apply(s0, req, k, ch.value), Some(ch.value.cand.crtc))
  }

  /** BindConnectorAndCrtc with a commit that succeeds. */
  function Activate(s: State, k: DrmConnector, c: DrmCrtc): (r: (State, int))
    requires k in s.attr
  {
    var v := s.attr[k];
    if v.current.id == 0 then (s, EINVAL)
    else
      var v1 :=
        if c.reportsOutputWidth && !CapOk(c, v.current) then
          var m := SuitableMode(v.modes, v.raw, c.outputWidth, c.outputDclk);
          if m.Some? then v.(best := m.value, current := m.value) else v.(best := NO_MODE)
        else v;
      (SetAttributes(s, k, v1.(active := v1.current)), 0)
  }

  ghost function Bind(s: State, req: int): (r: (State, int))
    requires WellFormed(s)
  {
    OwnerFinds(s, req);
    var k := Owner(s, req);
    if !Alive(s, k) then (s, EINVAL)
    else
      var (s1, c) := Find(s, req, k);
      if c.None? then (s1, FAILED) else
      FindShape(s, req, k);
      Activate(s1, k, c.value)
  }

  function ReleaseNormal(s: State, k: DrmConnector, c: DrmCrtc): State {
    SetEncoder(s.(display := s.display[c := -1]), k, null)
  }

  /** Whom a leaving connector informs: the primary it mirrors, if it is known. */
  ghost function Informed(s: State, k: DrmConnector): (p: DrmConnector?)
    requires WellFormed(s) && k in s.board.conns
    ensures p != null ==> p in s.board.conns
  {
    var m := s.mirror[k];
    OwnerFinds(s, m.PrimaryId());
    if !m.IsPrimary() && m.PrimaryId() >= 0 then Owner(s, m.PrimaryId()) else null
  }

  ghost function ReleaseMirror(s: State, req: int, k: DrmConnector): State
    requires WellFormed(s) && k in s.board.conns
  {
    var p := Informed(s, k);
    var s1 := SetMirror(s, k, DisableMirror(s.mirror[k], req));
    if s1.mirror[k].IsPrimary() then s1
    else
      var s2 := SetEncoder(s1, k, null);
      if p == null then s2 else SetMirror(s2, p, DisableMirror(s2.mirror[p], req))
  }

  ghost predicate Driven(s: State, k: DrmConnector)
    requires WellFormed(s) && k in s.board.conns
  {
    s.encoderOf[k] != null && s.crtcOf[s.encoderOf[k]] != null
  }

  ghost function Release(s: State, req: int): (r: (State, int))
    requires WellFormed(s)
  {
    OwnerFinds(s, req);
    var k := Owner(s, req);
    if k == null then (s, EINVAL)
    else if !Driven(s, k) then (s, 0)
    else if s.mirror[k].mode then (ReleaseMirror(s, req, k), 0)
    else (ReleaseNormal(s, k, s.crtcOf[s.encoderOf[k]]), 0)
  }

  // ---- The shape of every step ----------------------------------------------------------------

  /** `t` is another state of the same board. */
  ghost predicate Keeps(s: State, t: State) {
    && t.board == s.board
    && t.display.Keys == s.display.Keys && t.crtcOf.Keys == s.crtcOf.Keys
    && t.encoderOf.Keys == s.encoderOf.Keys && t.mirror.Keys == s.mirror.Keys && t.attr.Keys == s.attr.Keys
    && WellFormed(t)
  }

  lemma PointersKeep(s: State, t: State)
    requires WellFormed(s) && t.board == s.board
    requires t.display.Keys == s.display.Keys && t.crtcOf.Keys == s.crtcOf.Keys
    requires t.encoderOf.Keys == s.encoderOf.Keys && t.mirror.Keys == s.mirror.Keys && t.attr.Keys == s.attr.Keys
    requires forall k :: k in t.encoderOf && t.encoderOf[k] != null && t.encoderOf[k] != s.encoderOf[k] ==>
             t.encoderOf[k] in s.crtcOf
    requires forall e :: e in t.crtcOf && t.crtcOf[e] != null && t.crtcOf[e] != s.crtcOf[e] ==> t.crtcOf[e] in s.display
    ensures Keeps(s, t)
  {
    hide ValidBoard;
    forall k | k in t.encoderOf && t.encoderOf[k] != null ensures t.encoderOf[k] in t.crtcOf {
      assert k in s.encoderOf;
      assert t.encoderOf[k] in s.crtcOf.Keys;
    }
    forall e | e in t.crtcOf && t.crtcOf[e] != null ensures t.crtcOf[e] in t.display {
      assert e in s.crtcOf;
      assert t.crtcOf[e] in s.display.Keys;
    }
  }

  /** Binding nobody: the first thing every search does. */
  lemma UnboundShape(s: State, k: DrmConnector)
    requires WellFormed(s) && k in s.board.conns
    ensures Keeps(s, SetEncoder(s, k, null))
  {
    hide ValidBoard;
    PointersKeep(s, SetEncoder(s, k, null));
  }

  lemma AttributesShape(s: State, k: DrmConnector, v: Attributes)
    requires WellFormed(s) && k in s.board.conns
    ensures Keeps(s, SetAttributes(s, k, v))
  {
    hide ValidBoard;
    PointersKeep(s, SetAttributes(s, k, v));
  }

  /** The connector that loses its CRTC to the choice, if any. */
  ghost function Loser(s: State, ch: Choice): (o: DrmConnector?)
    requires WellFormed(s) && ch.cand.crtc in s.display
    ensures o != null ==> o in s.board.conns
  {
    var d := s.display[ch.cand.crtc];
    OwnerFinds(s, d);
    if ch.pass.Compete? || (ch.pass.Orphan? && d >= 0) then Owner(s, d) else null
  }

  function JoinedMirrors(m: map<DrmConnector, Mirror>, req: int, o: DrmConnector, primaryId: int,
      k: DrmConnector): map<DrmConnector, Mirror>
    requires k in m && o in m
  {
    var m1 := m[o := EnableMirror(m[o], o.display, primaryId, req)];
    m1[k := EnableMirror(m1[k], k.display, primaryId, req)]
  }

  lemma ApplyFields(s: State, req: int, k: DrmConnector, ch: Choice)
    requires WellFormed(s) && k in s.board.conns
    requires ch.cand.crtc in s.display && ch.cand.enc in s.crtcOf
    requires ch.pass.ByMirror? ==> Owner(s, s.display[ch.cand.crtc]) != null
    ensures var t := Apply(s, req, k, ch);
            var c, e := ch.cand.crtc, ch.cand.enc;
            var o := Owner(s, s.display[c]);
            && t.board == s.board && t.attr == s.attr
            && t.crtcOf == s.crtcOf[e := c]
            && t.encoderOf == (if Loser(s, ch) == null then s.encoderOf else s.encoderOf[Loser(s, ch) := null])[k := e]
            && t.display == (if ch.pass.ByMirror? then s.display else s.display[c := k.display])
            && (o != null ==> o in s.mirror) && k in s.mirror
            && t.mirror == (if ch.pass.ByMirror? then JoinedMirrors(s.mirror, req, o, s.display[c], k) else s.mirror)
  {
    hide ValidBoard, PointersOnBoard;
    OwnerFinds(s, s.display[ch.cand.crtc]);
    match ch.pass
    case FirstFit(_) =>
    case Orphan(_) =>
    case ByMirror =>
    case Compete =>
  }

  /** Every field after a choice is applied. */
  lemma ApplyShape(s: State, req: int, k: DrmConnector, ch: Choice)
    requires WellFormed(s) && k in s.board.conns
    requires ch.cand.crtc in s.display && ch.cand.enc in s.crtcOf
    requires ch.pass.ByMirror? ==> Owner(s, s.display[ch.cand.crtc]) != null
    ensures var t := Apply(s, req, k, ch);
            var c, e := ch.cand.crtc, ch.cand.enc;
            var o := Owner(s, s.display[c]);
            && Keeps(s, t)
            && t.attr == s.attr
            && t.crtcOf == s.crtcOf[e := c]
            && t.encoderOf == (if Loser(s, ch) == null then s.encoderOf else s.encoderOf[Loser(s, ch) := null])[k := e]
            && t.display == (if ch.pass.ByMirror? then s.display else s.display[c := k.display])
            && (o != null ==> o in s.mirror) && k in s.mirror
            && t.mirror == (if ch.pass.ByMirror? then JoinedMirrors(s.mirror, req, o, s.display[c], k) else s.mirror)
  {
    hide ValidBoard, PointersOnBoard, Apply;
    ApplyFields(s, req, k, ch);
    OwnerFinds(s, s.display[ch.cand.crtc]);
    PointersKeep(s, Apply(s, req, k, ch));
  }

  /** A search either leaves its connector unbound or applies the selection. */
  lemma FindShape(s: State, req: int, k: DrmConnector)
    requires WellFormed(s) && k in s.board.conns
    ensures var s0 := SetEncoder(s, k, null);
            var (t, c) := Find(s, req, k);
            && Keeps(s, s0) && Keeps(s, t)
            && t.attr == s.attr
            && c.Some? == Select(s0, req, k).Some?
            && if c.None? then t == s0
               else ValidChoice(s0, req, k, Select(s0, req, k).value)
                    && c.value == Select(s0, req, k).value.cand.crtc
                    && t == Apply(s0, req, k, Select(s0, req, k).value)
  {
    UnboundShape(s, k);
    var s0 := SetEncoder(s, k, null);
    SelectChooses(s0, req, k);
    hide WellFormed, Select, Apply;
    if Select(s0, req, k).Some? {
      assert ValidChoice(s0, req, k, Select(s0, req, k).value);
      ApplyShape(s0, req, k, Select(s0, req, k).value);
    }
  }

  /** A pair within reach that the pass accepts. */
  ghost predicate ValidChoice(s: State, req: int, k: DrmConnector, ch: Choice)
    requires WellFormed(s) && k in s.board.conns
  {
    && ch.cand.enc in k.possibleEncoders && ch.cand.crtc in ch.cand.enc.possibleCrtcs
    && ch.cand.enc in s.crtcOf && ch.cand.crtc in s.display
    && Eligible(ch.pass, s, req, k, ch.cand.crtc)
  }

  lemma ActivateShape(s: State, k: DrmConnector, c: DrmCrtc)
    requires WellFormed(s) && k in s.board.conns
    ensures Keeps(s, Activate(s, k, c).0)
    ensures var t := Activate(s, k, c).0;
            && t == s.(attr := t.attr)
            && t.attr[k].connected == s.attr[k].connected && t.attr[k].plugged == s.attr[k].plugged
            && forall l :: l in s.board.conns && l != k ==> t.attr[l] == s.attr[l]
  {
    var t := Activate(s, k, c).0;
    hide ValidBoard, PointersOnBoard;
    AttributesShape(s, k, t.attr[k]);
    assert t == s || t == SetAttributes(s, k, t.attr[k]);
  }

  /** A bind is a search and, on success, a change of the connector's modes. */
  lemma BindShape(s: State, req: int)
    requires WellFormed(s)
    ensures var k, t := Owner(s, req), Bind(s, req).0;
            && Keeps(s, t)
            && (k != null ==> k in s.board.conns && k in s.attr && k.display == MaskSplit(req))
            && (k != null && Alive(s, k) ==>
                  && t == Find(s, req, k).0.(attr := t.attr)
                  && forall l :: l in s.board.conns ==>
                       t.attr[l].connected == s.attr[l].connected && t.attr[l].plugged == s.attr[l].plugged)
            && (k == null || !Alive(s, k) ==> t == s)
  {
    hide ValidBoard, PointersOnBoard, Find, FindConnector, CapOk, SuitableMode;
    OwnerFinds(s, req);
    var k := Owner(s, req);
    if Alive(s, k) {
      FindShape(s, req, k);
      var (s1, c) := Find(s, req, k);
      if c.Some? {
        ActivateShape(s1, k, c.value);
      }
    }
  }

  /** Every field after a mirror release. */
  lemma ReleaseMirrorShape(s: State, req: int, k: DrmConnector)
    requires WellFormed(s) && k in s.board.conns
    ensures var t := ReleaseMirror(s, req, k);
            && Keeps(s, t)
            && t.attr == s.attr && t.crtcOf == s.crtcOf && t.display == s.display
            && k in s.mirror
            && var m1 := s.mirror[k := DisableMirror(s.mirror[k], req)];
               if m1[k].IsPrimary() then t.encoderOf == s.encoderOf && t.mirror == m1
               else
                 var p := Informed(s, k);
                 && t.encoderOf == s.encoderOf[k := null]
                 && (p != null ==> p in m1)
                 && t.mirror == if p == null then m1 else m1[p := DisableMirror(m1[p], req)]
  {
    hide ValidBoard, PointersOnBoard;
    PointersKeep(s, ReleaseMirror(s, req, k));
  }

  /** A release does nothing to an undriven connector, and otherwise leaves its mirror group or frees its CRTC. */
  lemma ReleaseShape(s: State, req: int)
    requires WellFormed(s)
    ensures var k, t := Owner(s, req), Release(s, req).0;
            && Keeps(s, t)
            && t.attr == s.attr && t.crtcOf == s.crtcOf
            && Release(s, req).1 == (if k == null then -22 else 0)
            && (k != null ==> k in s.board.conns && k in s.mirror && k in s.encoderOf && k.display == MaskSplit(req))
            && (k == null || !Driven(s, k) ==> t == s)
            && (k != null && Driven(s, k) ==>
                  && s.encoderOf[k] in s.crtcOf
                  && (s.mirror[k].mode ==> t == ReleaseMirror(s, req, k))
                  && (!s.mirror[k].mode ==>
                        t == s.(display := s.display[s.crtcOf[s.encoderOf[k]] := -1],
                          encoderOf := s.encoderOf[k := null])))
  {
    OwnerFinds(s, req);
    hide ValidBoard;
    var k := Owner(s, req);
    if k != null && Driven(s, k) {
      var c := s.crtcOf[s.encoderOf[k]];
      ReleaseMirrorShape(s, req, k);
      PointersKeep(s, ReleaseNormal(s, k, c));
    }
  }

  // ---- Dissolving a group ---------------------------------------------------------------------

  /** One turn of the loop over the primary's externals; an external that is not driven is skipped. */
  ghost function SendAway(s: State, d: int): (t: State)
    requires WellFormed(s)
    ensures Keeps(s, t)
  {
    OwnerFinds(s, d);
    var k := Owner(s, d);
    if k != null && Driven(s, k) then ReleaseMirrorShape(s, d, k); ReleaseMirror(s, d, k) else s
  }

  ghost function Dissolve(s: State, members: seq<int>): (t: State)
    requires WellFormed(s)
    ensures Keeps(s, t)
    decreases |members|
  {
    if members == [] then s else Dissolve(SendAway(s, members[0]), members[1..])
  }
}
