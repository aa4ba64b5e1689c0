/**
 * When the display engine may draw into a buffer that a reader can still take. A buffer comes out of the queue
 * again after as many dequeues as the queue is deep; swaps alone leave that enough, changes of resolution may not.
 */
module WriteBackAliasing {
  import opened BufferQueue
  import opened WriteBack

  function Buffers(fs: seq<Frame>): (r: seq<Buffer>)
    ensures |r| == |fs| && forall i :: 0 <= i < |fs| ==> r[i] == fs[i].buffer
  {
    seq(|fs|, i requires 0 <= i < |fs| => fs[i].buffer)
  }

  function Optional(b: Option<Buffer>): seq<Buffer> {
    if b.Some? then [b.value] else []
  }

  /** What a reader may take, oldest first, and the buffer being drawn. */
  function InUse(s: State): seq<Buffer> {
    Buffers(s.finished) + Optional(s.drawing)
  }

  function Chain(s: State): seq<Buffer> {
    InUse(s) + Optional(s.next)
  }

  function Last<T>(n: nat, s: seq<T>): seq<T> {
    if |s| <= n then s else s[|s| - n..]
  }

  ghost predicate Has(bs: seq<Buffer>, id: nat) {
    exists i :: 0 <= i < |bs| && bs[i].id == id
  }

  /** What every operation keeps, aliased or not. */
  ghost predicate Sane(s: State) {
    && (s.ring.Some? ==> ValidRing(s.ring.value))
    && (s.refs > 0 ==> s.ring.Some? && s.next.Some?)
    && (s.refs <= 0 ==> s.drawing.None?)
    && (s.drawing.None? ==> s.finished == [])
    && (s.drawing.Some? ==> s.next.Some?)
    && (s.next.Some? ==> s.ring.Some?)
    && |s.finished| <= 3
    && forall i :: 0 <= i < |Chain(s)| ==> s.ring.Some? && Chain(s)[i].id < s.ring.value.made
  }

  /** No two of the buffers in use are the same. */
  ghost predicate Apart(s: State) {
    Distinct(InUse(s))
  }

  /** The next buffer is one that will still be in use when it is drawn into. */
  ghost predicate NextTaken(s: State) {
    s.next.Some? && Has(Last(3, InUse(s)), s.next.value.id)
  }

  // ---- The guard ------------------------------------------------------------------------------

  /** The dequeue for this geometry gives the front buffer out again. */
  predicate Recycles(r: Ring, g: Geometry) {
    r.max > 0 && |r.queue| == r.max && r.queue[0].geometry == g
  }

  predicate Swaps(s: State, op: Op) {
    op.DoSwap? && s.refs > 0
  }

  predicate ResizesBy(s: State, op: Op) {
    op.DoResize? && Resizes(s, op.display, op.target)
  }

  predicate Begins(s: State, op: Op) {
    op.DoEnable? && s.refs <= 0 && !op.mode.Disable?
  }

  predicate Clears(s: State, op: Op) {
    op.DoDisable? && op.display == s.display && s.refs <= 1
  }

  /** The operation recycles a buffer that is in use and that the next swap would not drop. */
  ghost predicate Reuses(s: State, op: Op) {
    s.ring.Some? && s.ring.value.queue != []
    && if Swaps(s, op) then
         Recycles(s.ring.value, s.geometry) && Has(Last(3, Chain(s)), s.ring.value.queue[0].id)
       else if ResizesBy(s, op) then
         Recycles(s.ring.value, op.target.value) && Has(Last(3, InUse(s)), s.ring.value.queue[0].id)
       else false
  }

  // ---- One step -------------------------------------------------------------------------------

  lemma CycleGives(r: Ring, g: Geometry)
    requires ValidRing(r)
    ensures var t := Cycle(r, g);
            && ValidRing(t) && t.max == r.max && t.made >= r.made && t.current.Some?
            && t.current.value.geometry == g && t.current.value.id < t.made
            && (if Recycles(r, g) then t.current.value == r.queue[0] else t.current.value.id == r.made)
            && t.queue == (if |r.queue| == r.max then r.queue[1..] else r.queue) + [t.current.value]
  {
    CycleKeepsRing(r, g);
  }

  /** Swapping makes the last four of the chain the buffers in use. */
  lemma SwapInUse(s: State, frame: nat)
    requires Sane(s) && s.refs > 0
    ensures InUse(Swap(s, frame).0) == Last(4, Chain(s))
    ensures |Swap(s, frame).0.finished| <= 3 && Swap(s, frame).0.drawing == s.next
  {
    var t := Swap(s, frame).0;
    hide Cycle, ValidRing;
    if s.drawing.Some? {
      assert Buffers(s.finished + [Frame(frame, s.drawing.value)]) == InUse(s);
    }
    assert Buffers(t.finished) == Last(3, InUse(s));
  }

  lemma LastOfLast(s: seq<Buffer>)
    ensures Last(3, Last(4, s)) == Last(3, s)
  {
  }

  lemma NotMadeYet(s: State, bs: seq<Buffer>)
    requires Sane(s) && s.ring.Some? && forall i :: 0 <= i < |bs| ==> bs[i] in Chain(s)
    ensures !Has(bs, s.ring.value.made)
  {
  }

  lemma SwapNext(s: State, frame: nat)
    requires Sane(s) && s.refs > 0
    ensures Sane(Swap(s, frame).0)
    ensures NextTaken(Swap(s, frame).0) <==> Reuses(s, DoSwap(frame))
  {
    SwapInUse(s, frame);
    CycleGives(s.ring.value, s.geometry);
    var t := Swap(s, frame).0;
    LastOfLast(Chain(s));
    NotMadeYet(s, Last(3, Chain(s)));
    hide Cycle, ValidRing;
    ChainAfter(s, t, Last(4, Chain(s)));
  }

  /** The identities in a chain are those of buffers made. */
  lemma ChainAfter(s: State, t: State, used: seq<Buffer>)
    requires Sane(s) && s.ring.Some? && t.ring.Some? && t.ring.value.made >= s.ring.value.made
    requires InUse(t) == used && t.next.Some? && t.next.value.id < t.ring.value.made
    requires forall i :: 0 <= i < |used| ==> used[i] in Chain(s)
    ensures forall i :: 0 <= i < |Chain(t)| ==> Chain(t)[i].id < t.ring.value.made
  {
    forall i | 0 <= i < |Chain(t)| ensures Chain(t)[i].id < t.ring.value.made {
      if i < |used| {
        assert Chain(t)[i] == used[i];
      }
    }
  }

  /** A swap draws into the next buffer, so it aliases exactly when that one is taken. */
  lemma SwapApart(s: State, frame: nat)
    requires Sane(s) && s.refs > 0 && Apart(s)
    ensures Apart(Swap(s, frame).0) <==> !NextTaken(s)
  {
    SwapInUse(s, frame);
    var kept, n := Last(3, InUse(s)), s.next.value;
    assert Last(4, Chain(s)) == kept + [n];
    DistinctSnoc(kept, n);
    assert Distinct(kept);
    hide Swap, Sane;
  }

  lemma DistinctSnoc(a: seq<Buffer>, b: Buffer)
    requires Distinct(a)
    ensures Distinct(a + [b]) <==> !Has(a, b.id)
  {
    if i :| 0 <= i < |a| && a[i].id == b.id {
      assert (a + [b])[i].id == (a + [b])[|a|].id;
    }
  }

  lemma ResizeNext(s: State, d: int, target: Option<Geometry>)
    requires Sane(s) && Resizes(s, d, target)
    ensures var t := Resize(s, d, target).0;
            && Sane(t) && InUse(t) == InUse(s) && t.next.Some?
            && (NextTaken(t) <==> Reuses(s, DoResize(d, target)))
  {
    var ring := if s.ring.Some? then s.ring.value else NewRing(4, 0);
    CycleGives(ring, target.value);
    var t := Resize(s, d, target).0;
    if s.ring.Some? {
      NotMadeYet(s, Last(3, InUse(s)));
      ChainAfter(s, t, InUse(s));
    }
    hide Cycle, ValidRing;
  }

  lemma BeginNext(s: State, op: Op)
    requires Sane(s) && Begins(s, op)
    ensures Sane(Do(s, op)) && InUse(Do(s, op)) == [] && !NextTaken(Do(s, op))
  {
    var g := op.mode.geometry;
    var depth := if op.mode.UseVop? then WB_BUFFERQUEUE_MAX_SIZE else DRM_BUFFERQUEUE_MAX_SIZE;
    CycleGives(if s.ring.Some? then s.ring.value else NewRing(depth, 0), g);
    hide Cycle, ValidRing;
    assert Buffers([]) == [];
  }

  lemma ClearNext(s: State, op: Op)
    requires Sane(s) && Clears(s, op)
    ensures Sane(Do(s, op)) && InUse(Do(s, op)) == [] && !NextTaken(Do(s, op))
  {
    assert Buffers([]) == [];
    hide ValidRing;
    assert Chain(Do(s, op)) == [];
  }

  lemma OtherStep(s: State, op: Op)
    requires Sane(s) && !Swaps(s, op) && !ResizesBy(s, op) && !Begins(s, op) && !Clears(s, op)
    ensures Sane(Do(s, op)) && InUse(Do(s, op)) == InUse(s) && Chain(Do(s, op)) == Chain(s)
    ensures Do(s, op).next == s.next && Do(s, op).ring == s.ring && Do(s, op).geometry == s.geometry
  {
    var t := Do(s, op);
    hide ValidRing, Cycle;
    assert t.finished == s.finished && t.drawing == s.drawing && t.next == s.next && t.ring == s.ring;
    assert InUse(t) == InUse(s) && Chain(t) == Chain(s);
  }

  /** Whether the next buffer is taken after the operation, from what it was before and the guard. */
  ghost function TakenAfter(s: State, taken: bool, op: Op): bool {
    if Swaps(s, op) || ResizesBy(s, op) then Reuses(s, op)
    else if Begins(s, op) || Clears(s, op) then false
    else taken
  }

  lemma StepKeepsSane(s: State, op: Op)
    requires Sane(s)
    ensures Sane(Do(s, op))
    ensures NextTaken(Do(s, op)) == TakenAfter(s, NextTaken(s), op)
  {
    hide Sane, InUse;
    if Swaps(s, op) {
      SwapNext(s, op.frame);
    } else if ResizesBy(s, op) {
      ResizeNext(s, op.display, op.target);
    } else if Begins(s, op) {
      BeginNext(s, op);
    } else if Clears(s, op) {
      ClearNext(s, op);
    } else {
      OtherStep(s, op);
    }
  }

  lemma StepApart(s: State, op: Op)
    requires Sane(s) && Apart(s)
    ensures Apart(Do(s, op)) <==> !(Swaps(s, op) && NextTaken(s))
  {
    hide Sane, InUse;
    if Swaps(s, op) {
      SwapApart(s, op.frame);
    } else if ResizesBy(s, op) {
      ResizeNext(s, op.display, op.target);
    } else if Begins(s, op) {
      BeginNext(s, op);
    } else if Clears(s, op) {
      ClearNext(s, op);
    } else {
      OtherStep(s, op);
    }
  }

  /**
   * One operation, exactly: buffers in use that are apart, with a next one that is not taken, stay so if and
   * only if the operation does not recycle a buffer still in use.
   */
  lemma StepIsSafe(s: State, op: Op)
    requires Sane(s) && Apart(s) && !NextTaken(s)
    ensures Sane(Do(s, op)) && Apart(Do(s, op))
    ensures !NextTaken(Do(s, op)) <==> !Reuses(s, op)
  {
    StepKeepsSane(s, op);
    StepApart(s, op);
    hide Sane, InUse, Do, NextTaken;
  }

  // ---- All runs -------------------------------------------------------------------------------

  /** No state of the run has two of its buffers in use the same. */
  ghost predicate NeverAliases(s: State, ops: seq<Op>)
    requires Usable(s)
    decreases |ops|
  {
    Apart(s) && (ops == [] || NeverAliases(Do(s, ops[0]), ops[1..]))
  }

  /** No swap finds its next buffer taken, as the guard of the operations before it says. */
  ghost predicate NoTakenSwap(s: State, taken: bool, ops: seq<Op>)
    requires Usable(s)
    decreases |ops|
  {
    ops == [] ||
    (!(taken && Swaps(s, ops[0])) && NoTakenSwap(Do(s, ops[0]), TakenAfter(s, taken, ops[0]), ops[1..]))
  }

  lemma SaneIsUsable(s: State)
    requires Sane(s)
    ensures Usable(s)
  {
  }

  /**
   * A run with any operations is free of aliases if and only if no swap follows a reuse with nothing in between to
   * undo it.
   */
  lemma {:induction false} AliasesExactlyByReuse(s: State, ops: seq<Op>)
    requires Sane(s) && Usable(s) && Apart(s)
    ensures NeverAliases(s, ops) <==> NoTakenSwap(s, NextTaken(s), ops)
    decreases |ops|
  {
    hide Sane, Apart, NextTaken, Do, TakenAfter;
    if ops != [] {
      StepKeepsSane(s, ops[0]);
      StepApart(s, ops[0]);
      if Apart(Do(s, ops[0])) {
        AliasesExactlyByReuse(Do(s, ops[0]), ops[1..]);
      } else {
        assert !NeverAliases(Do(s, ops[0]), ops[1..]);
      }
    }
  }

  lemma InitialIsSane(garbage: Kind)
    ensures Sane(Initial(garbage)) && Usable(Initial(garbage)) && Apart(Initial(garbage))
            && !NextTaken(Initial(garbage))
  {
    assert Buffers([]) == [];
  }

  /** The same from the start, whatever the remembered kind is at first. */
  lemma RunsAliasExactlyByReuse(garbage: Kind, ops: seq<Op>)
    ensures NeverAliases(Initial(garbage), ops) <==> NoTakenSwap(Initial(garbage), false, ops)
  {
    InitialIsSane(garbage);
    AliasesExactlyByReuse(Initial(garbage), ops);
    hide NeverAliases, NoTakenSwap;
  }
}
