/** Changes of resolution two swaps apart, and swaps alone, never alias; closer ones can. */
module WriteBackSpacing {
  import opened BufferQueue
  import opened WriteBack
  import opened WriteBackAliasing

  /** The element `d` places before the last. */
  function Back<T>(s: seq<T>, d: nat): T
    requires d < |s|
  {
    s[|s| - 1 - d]
  }

  /** Swaps since the last change of resolution, counted to three; three also stands for none in the session. */
  function Since(s: State, k: nat, op: Op): nat {
    if Swaps(s, op) then if k < 3 then k + 1 else 3
    else if ResizesBy(s, op) then if s.next.None? then 3 else 0
    else if Begins(s, op) then 3
    else k
  }

  /** A change of resolution comes only two swaps after the one before it. */
  predicate Spaced(s: State, k: nat, ops: seq<Op>)
    requires Usable(s)
    decreases |ops|
  {
    ops == [] || ((ResizesBy(s, ops[0]) ==> k >= 2) && Spaced(Do(s, ops[0]), Since(s, k, ops[0]), ops[1..]))
  }

  // ---- Where the chain lies in the queue ------------------------------------------------------

  /**
   * The buffer that a change of resolution displaced sits `k + 1` places before the end; those before it moved one
   * back.
   */
  function Place(k: nat, d: nat): nat {
    if k < 3 && d > k then d + 1 else d
  }

  function Reach(max: nat, k: nat): nat {
    if k == 2 && max >= 6 then 5 else 4
  }

  predicate Depth(max: nat) {
    max == 4 || max >= 6
  }

  ghost predicate Placed(c: seq<Buffer>, q: seq<Buffer>, max: nat, k: nat) {
    forall d: nat :: d < |c| && Place(k, d) < Reach(max, k) ==> Place(k, d) < |q| && Back(q, Place(k, d)) == Back(c, d)
  }

  /** `x` is the displaced buffer: it lies behind `k + 1` newer ones and is none of the next readers' or drawn ones. */
  ghost predicate Displaced(c: seq<Buffer>, q: seq<Buffer>, k: nat, x: Buffer) {
    k < 3 ==>
      && k < |c| && k + 1 < |q| && Back(q, k + 1) == x
      && forall d: nat :: 1 <= d <= 3 && d < |c| ==> Back(c, d).id != x.id
  }

  /** Buffers since the change have the present geometry; in a queue of four those before it have another size. */
  ghost predicate Sized(c: seq<Buffer>, g: Geometry, max: nat, k: nat) {
    && (forall d: nat :: d < |c| && d <= k ==> Back(c, d).geometry == g)
    && (max == 4 && k < 3 ==> forall d: nat :: k < d <= 2 && d < |c| ==> !SameSize(Back(c, d).geometry, g))
  }

  ghost predicate Spread(s: State, k: nat, x: Buffer) {
    && Sane(s) && Apart(s) && !NextTaken(s) && k <= 3
    && (s.ring.Some? ==> Depth(s.ring.value.max))
    && (s.next.Some? ==>
          && Placed(Chain(s), s.ring.value.queue, s.ring.value.max, k)
          && Displaced(Chain(s), s.ring.value.queue, k, x)
          && Sized(Chain(s), s.geometry, s.ring.value.max, k))
  }

  // ---- Nothing in use is recycled -------------------------------------------------------------

  lemma HasBack(c: seq<Buffer>, id: nat)
    ensures Has(Last(3, c), id) <==> exists d: nat :: d <= 2 && d < |c| && Back(c, d).id == id
  {
    var l := Last(3, c);
    if i :| 0 <= i < |l| && l[i].id == id {
      assert Back(c, |l| - 1 - i) == l[i];
    }
    if d: nat :| d <= 2 && d < |c| && Back(c, d).id == id {
      assert l[|l| - 1 - d] == Back(c, d);
    }
  }

  /** Different places in a queue hold different buffers. */
  lemma PlacesDiffer(q: seq<Buffer>, a: nat, b: nat)
    requires Distinct(q) && a < |q| && b < |q| && a != b
    ensures Back(q, a).id != Back(q, b).id
  {
    var i, j := |q| - 1 - a, |q| - 1 - b;
    assert i < j || j < i;
  }

  /** The front of a full queue is neither the next buffer nor one of the two before it, or has another size. */
  lemma SwapRecyclesNone(c: seq<Buffer>, r: Ring, g: Geometry, k: nat, x: Buffer)
    requires ValidRing(r) && Depth(r.max) && k <= 3
    requires Placed(c, r.queue, r.max, k) && Displaced(c, r.queue, k, x) && Sized(c, g, r.max, k)
    requires Recycles(r, g)
    ensures !Has(Last(3, c), r.queue[0].id)
  {
    var q := r.queue;
    var front := r.max - 1;
    assert Back(q, front) == q[0];
    HasBack(c, q[0].id);
    forall d: nat | d <= 2 && d < |c| ensures Back(c, d).id != q[0].id {
      assert Place(k, d) < Reach(r.max, k);
      assert Back(q, Place(k, d)) == Back(c, d);
      assert Place(k, d) == front ==> r.max == 4 && k < d <= 2;
      assert r.max == 4 && k < d <= 2 && k < 3 ==> !SameSize(Back(c, d).geometry, g);
      assert Place(k, d) != front;
      PlacesDiffer(q, Place(k, d), front);
    }
  }

  lemma ResizeRecyclesNone(u: seq<Buffer>, n: Buffer, r: Ring, g: Geometry, g': Geometry, k: nat, x: Buffer)
    requires ValidRing(r) && Depth(r.max) && 2 <= k <= 3
    requires Placed(u + [n], r.queue, r.max, k) && Displaced(u + [n], r.queue, k, x) && Sized(u + [n], g, r.max, k)
    requires Recycles(r, g') && !SameSize(g', g)
    ensures !Has(Last(3, u), r.queue[0].id)
  {
    var q, c := r.queue, u + [n];
    var front := r.max - 1;
    assert Back(q, front) == q[0];
    HasBack(u, q[0].id);
    forall e: nat | e <= 2 && e < |u| ensures Back(u, e).id != q[0].id {
      var d := e + 1;
      assert Back(c, d) == Back(u, e);
      if k == 2 && d == 3 && r.max == 4 {
        assert Back(q, 3) == x;
      } else {
        assert Back(q, Place(k, d)) == Back(c, d);
        assert Place(k, d) == front ==> d <= k;
        assert d <= k ==> Back(c, d).geometry == g;
        assert Place(k, d) != front;
        PlacesDiffer(q, Place(k, d), front);
      }
    }
  }

  // ---- Steps ----------------------------------------------------------------------------------

  lemma BackSnoc(a: seq<Buffer>, b: Buffer, d: nat)
    requires d <= |a|
    ensures Back(a + [b], d) == if d == 0 then b else Back(a, d - 1)
  {
  }

  lemma BackLast(c: seq<Buffer>, d: nat)
    requires d < |Last(4, c)|
    ensures d < |c| && Back(Last(4, c), d) == Back(c, d)
  {
  }

  /** The queue after a cycle: one more at the end, at most one less at the front. */
  lemma QueueBack(r: Ring, g: Geometry, p: nat)
    requires ValidRing(r) && Depth(r.max) && p < |r.queue| && p < r.max - 1
    ensures var q := Cycle(r, g).queue;
            p + 1 < |q| && Back(q, p + 1) == Back(r.queue, p)
  {
    CycleGives(r, g);
    var rest := if |r.queue| == r.max then r.queue[1..] else r.queue;
    hide Cycle, ValidRing;
    BackSnoc(rest, Cycle(r, g).current.value, p + 1);
  }

  lemma QueueEnd(r: Ring, g: Geometry)
    requires ValidRing(r)
    ensures Cycle(r, g).current.Some? && Cycle(r, g).queue != []
            && Back(Cycle(r, g).queue, 0) == Cycle(r, g).current.value
  {
    CycleGives(r, g);
  }

  function Up(k: nat): nat {
    if k < 3 then k + 1 else 3
  }

  lemma SwapPlacedAt(c: seq<Buffer>, r: Ring, g: Geometry, k: nat, d: nat)
    requires ValidRing(r) && Depth(r.max) && k <= 3 && Placed(c, r.queue, r.max, k)
    requires d < |Last(4, c)| && Place(Up(k), d + 1) < Reach(r.max, Up(k))
    ensures var q := Cycle(r, g).queue;
            Place(Up(k), d + 1) < |q| && Back(q, Place(Up(k), d + 1)) == Back(Last(4, c), d)
  {
    BackLast(c, d);
    assert Place(Up(k), d + 1) == Place(k, d) + 1 && Place(k, d) < Reach(r.max, k);
    QueueBack(r, g, Place(k, d));
    hide Cycle, ValidRing;
  }

  lemma SwapPlaced(c: seq<Buffer>, r: Ring, g: Geometry, k: nat)
    requires ValidRing(r) && Depth(r.max) && k <= 3 && Placed(c, r.queue, r.max, k)
    ensures var t := Cycle(r, g);
            t.current.Some? && Placed(Last(4, c) + [t.current.value], t.queue, r.max, Up(k))
  {
    QueueEnd(r, g);
    var t := Cycle(r, g);
    var c' := Last(4, c) + [t.current.value];
    forall d: nat | d < |c'| && Place(Up(k), d) < Reach(r.max, Up(k))
      ensures Place(Up(k), d) < |t.queue| && Back(t.queue, Place(Up(k), d)) == Back(c', d)
    {
      hide Cycle, Placed, Last;
      BackSnoc(Last(4, c), t.current.value, d);
      if d > 0 {
        SwapPlacedAt(c, r, g, k, d - 1);
      }
    }
  }

  lemma SwapDisplaced(c: seq<Buffer>, r: Ring, g: Geometry, k: nat, x: Buffer)
    requires ValidRing(r) && Depth(r.max) && k <= 3 && c != []
    requires Placed(c, r.queue, r.max, k) && Displaced(c, r.queue, k, x)
    ensures var t := Cycle(r, g);
            t.current.Some? && Displaced(Last(4, c) + [t.current.value], t.queue, Up(k), x)
  {
    QueueEnd(r, g);
    if k < 2 {
      var t := Cycle(r, g);
      var c' := Last(4, c) + [t.current.value];
      QueueBack(r, g, k + 1);
      forall d: nat | 1 <= d <= 3 && d < |c'| ensures Back(c', d).id != x.id {
        BackSnoc(Last(4, c), t.current.value, d);
        BackLast(c, d - 1);
        if d == 1 {
          assert Place(k, 0) == 0 && Back(r.queue, 0) == Back(c, 0);
          PlacesDiffer(r.queue, 0, k + 1);
        }
      }
    }
  }

  lemma SwapSized(c: seq<Buffer>, b: Buffer, g: Geometry, max: nat, k: nat)
    requires k <= 3 && Sized(c, g, max, k) && b.geometry == g
    ensures Sized(Last(4, c) + [b], g, max, Up(k))
  {
    var c' := Last(4, c) + [b];
    forall d: nat | d < |c'|
      ensures d <= Up(k) ==> Back(c', d).geometry == g
      ensures max == 4 && Up(k) < 3 && Up(k) < d <= 2 ==> !SameSize(Back(c', d).geometry, g)
    {
      BackSnoc(Last(4, c), b, d);
      if d > 0 {
        BackLast(c, d - 1);
      }
    }
  }

  lemma SwapSpread(s: State, k: nat, x: Buffer, frame: nat)
    requires Spread(s, k, x) && s.refs > 0
    ensures Spread(Swap(s, frame).0, Up(k), x)
  {
    var op, r, c := DoSwap(frame), s.ring.value, Chain(s);
    if Recycles(r, s.geometry) {
      SwapRecyclesNone(c, r, s.geometry, k, x);
    }
    assert !Reuses(s, op);
    StepIsSafe(s, op);
    SwapInUse(s, frame);
    CycleGives(r, s.geometry);
    SwapPlaced(c, r, s.geometry, k);
    SwapDisplaced(c, r, s.geometry, k, x);
    SwapSized(c, Cycle(r, s.geometry).current.value, s.geometry, r.max, k);
    hide Cycle, Sane, Apart, NextTaken, Placed, Displaced, Sized, InUse, Last;
  }

  lemma ResizePlaced(u: seq<Buffer>, n: Buffer, r: Ring, g: Geometry, k: nat)
    requires ValidRing(r) && Depth(r.max) && 2 <= k <= 3 && Placed(u + [n], r.queue, r.max, k)
    ensures var t := Cycle(r, g);
            t.current.Some? && Placed(u + [t.current.value], t.queue, r.max, 0)
  {
    QueueEnd(r, g);
    var t, c := Cycle(r, g), u + [n];
    var c' := u + [t.current.value];
    forall d: nat | d < |c'| && Place(0, d) < 4
      ensures Place(0, d) < |t.queue| && Back(t.queue, Place(0, d)) == Back(c', d)
    {
      BackSnoc(u, t.current.value, d);
      BackSnoc(u, n, d);
      if d > 0 {
        assert Place(k, d) == d;
        QueueBack(r, g, d);
      }
    }
  }

  lemma ResizeDisplaced(u: seq<Buffer>, n: Buffer, r: Ring, g: Geometry, k: nat)
    requires ValidRing(r) && Depth(r.max) && 2 <= k <= 3 && Placed(u + [n], r.queue, r.max, k)
    requires !Has(Last(3, u), n.id)
    ensures var t := Cycle(r, g);
            t.current.Some? && Displaced(u + [t.current.value], t.queue, 0, n)
  {
    QueueEnd(r, g);
    var t, c := Cycle(r, g), u + [n];
    var c' := u + [t.current.value];
    BackSnoc(u, n, 0);
    assert Place(k, 0) == 0 && Back(r.queue, 0) == Back(c, 0);
    QueueBack(r, g, 0);
    HasBack(u, n.id);
    forall d: nat | 1 <= d <= 3 && d < |c'| ensures Back(c', d).id != n.id {
      BackSnoc(u, t.current.value, d);
      assert Back(u, d - 1).id != n.id;
    }
  }

  lemma ResizeSized(u: seq<Buffer>, n: Buffer, b: Buffer, g: Geometry, g': Geometry, max: nat, k: nat)
    requires 2 <= k <= 3 && Sized(u + [n], g, max, k) && b.geometry == g' && !SameSize(g', g)
    ensures Sized(u + [b], g', max, 0)
  {
    forall d: nat | d < |u + [b]|
      ensures d == 0 ==> Back(u + [b], d).geometry == g'
      ensures max == 4 && 0 < d <= 2 ==> !SameSize(Back(u + [b], d).geometry, g')
    {
      BackSnoc(u, b, d);
      BackSnoc(u, n, d);
    }
  }

  lemma ResizeSpread(s: State, k: nat, x: Buffer, d: int, target: Option<Geometry>)
    requires Spread(s, k, x) && k >= 2 && Resizes(s, d, target) && s.next.Some?
    ensures Spread(Resize(s, d, target).0, 0, s.next.value)
  {
    var op, r, u, n, g := DoResize(d, target), s.ring.value, InUse(s), s.next.value, target.value;
    if Recycles(r, g) {
      ResizeRecyclesNone(u, n, r, s.geometry, g, k, x);
    }
    assert !Reuses(s, op);
    StepIsSafe(s, op);
    ResizeNext(s, d, target);
    CycleGives(r, g);
    ResizePlaced(u, n, r, g, k);
    ResizeDisplaced(u, n, r, g, k);
    ResizeSized(u, n, Cycle(r, g).current.value, s.geometry, g, r.max, k);
    hide Cycle, Sane, Apart, Placed, Displaced, Sized, InUse, Has;
  }

  /** A chain of one buffer just dequeued. */
  lemma StartSpread(t: State, x: Buffer)
    requires Sane(t) && InUse(t) == [] && !NextTaken(t) && t.next.Some?
    requires Depth(t.ring.value.max) && t.ring.value.queue != [] && Back(t.ring.value.queue, 0) == t.next.value
    requires t.next.value.geometry == t.geometry
    ensures Spread(t, 3, x)
  {
    assert Chain(t) == [t.next.value];
  }

  lemma BeginSpread(s: State, k: nat, x: Buffer, op: Op)
    requires Spread(s, k, x) && Begins(s, op)
    ensures Usable(s) && Spread(Do(s, op), 3, x)
  {
    BeginNext(s, op);
    var depth := if op.mode.UseVop? then WB_BUFFERQUEUE_MAX_SIZE else DRM_BUFFERQUEUE_MAX_SIZE;
    var r := if s.ring.Some? then s.ring.value else NewRing(depth, 0);
    CycleGives(r, op.mode.geometry);
    QueueEnd(r, op.mode.geometry);
    var t := Do(s, op);
    hide Cycle, Sane, InUse, NextTaken;
    StartSpread(t, x);
  }

  lemma FirstResizeSpread(s: State, k: nat, x: Buffer, d: int, target: Option<Geometry>)
    requires Spread(s, k, x) && Resizes(s, d, target) && s.next.None?
    ensures Spread(Resize(s, d, target).0, 3, x)
  {
    ResizeNext(s, d, target);
    var r := if s.ring.Some? then s.ring.value else NewRing(WB_BUFFERQUEUE_MAX_SIZE, 0);
    CycleGives(r, target.value);
    QueueEnd(r, target.value);
    var t := Resize(s, d, target).0;
    assert s.drawing.None? && s.finished == [];
    assert Chain(s) == InUse(s) + [];
    assert InUse(s) == [];
    NothingTaken(t);
    hide Cycle, Sane, InUse, NextTaken;
    StartSpread(t, x);
  }

  lemma NothingTaken(t: State)
    requires InUse(t) == []
    ensures !NextTaken(t)
  {
  }

  /** One operation, with the displaced buffer after it. */
  lemma StepSpread(s: State, k: nat, x: Buffer, op: Op) returns (y: Buffer)
    requires Spread(s, k, x) && (ResizesBy(s, op) ==> k >= 2)
    ensures Usable(s) && Spread(Do(s, op), Since(s, k, op), y)
  {
    y := x;
    SaneIsUsable(s);
    if Swaps(s, op) {
      SwapSpread(s, k, x, op.frame);
    } else if ResizesBy(s, op) {
      if s.next.Some? {
        y := s.next.value;
        ResizeSpread(s, k, x, op.display, op.target);
      } else {
        FirstResizeSpread(s, k, x, op.display, op.target);
      }
    } else if Begins(s, op) {
      BeginSpread(s, k, x, op);
    } else {
      StepKeepsSane(s, op);
      StepApart(s, op);
      RestSpread(s, k, x, op);
    }
  }

  lemma RestSpread(s: State, k: nat, x: Buffer, op: Op)
    requires Spread(s, k, x) && Usable(s) && Sane(Do(s, op)) && Apart(Do(s, op)) && !NextTaken(Do(s, op))
    requires !Swaps(s, op) && !ResizesBy(s, op) && !Begins(s, op)
    ensures Spread(Do(s, op), k, x)
  {
    if Clears(s, op) {
      ClearNext(s, op);
    } else {
      OtherStep(s, op);
    }
    hide Sane, Apart, NextTaken, Placed, Displaced, Sized, InUse;
  }

  lemma {:induction false} SpacedRunStaysSpread(s: State, k: nat, x: Buffer, ops: seq<Op>)
    requires Spread(s, k, x) && Usable(s) && Spaced(s, k, ops)
    ensures Apart(Run(s, ops)) && !NextTaken(Run(s, ops)) && Sane(Run(s, ops))
    decreases |ops|
  {
    if ops != [] {
      var y := StepSpread(s, k, x, ops[0]);
      hide Spread, Sane, Apart, NextTaken, Do, Since;
      SpacedRunStaysSpread(Do(s, ops[0]), Since(s, k, ops[0]), y, ops[1..]);
    }
  }

  /** From the start, with changes of resolution two swaps apart or none, to however many sizes. */
  lemma SpacedRunsAreSafe(garbage: Kind, ops: seq<Op>)
    requires Spaced(Initial(garbage), 3, ops)
    ensures var t := Run(Initial(garbage), ops);
            Sane(t) && Apart(t) && !NextTaken(t)
  {
    InitialIsSane(garbage);
    var x := Buffer(0, NO_GEOMETRY);
    assert Spread(Initial(garbage), 3, x);
    SpacedRunStaysSpread(Initial(garbage), 3, x, ops);
  }

  lemma ApartMeans(t: State)
    requires Apart(t)
    ensures forall i, j :: 0 <= i < j < |t.finished| ==> t.finished[i].buffer.id != t.finished[j].buffer.id
    ensures t.drawing.Some? ==> forall i :: 0 <= i < |t.finished| ==> t.finished[i].buffer.id != t.drawing.value.id
  {
    var u := InUse(t);
    forall i, j | 0 <= i < j < |t.finished| ensures t.finished[i].buffer.id != t.finished[j].buffer.id {
      assert u[i] == t.finished[i].buffer && u[j] == t.finished[j].buffer;
    }
    if t.drawing.Some? {
      forall i | 0 <= i < |t.finished| ensures t.finished[i].buffer.id != t.drawing.value.id {
        assert u[i] == t.finished[i].buffer && u[|t.finished|] == t.drawing.value;
      }
    }
  }

  lemma NotTakenMeans(t: State)
    requires Sane(t) && !NextTaken(t) && t.drawing.Some?
    ensures t.next.Some? && t.drawing.value.id != t.next.value.id
    ensures forall i :: 0 <= i < |t.finished| && !(i == 0 && |t.finished| == 3) ==>
            t.finished[i].buffer.id != t.next.value.id
  {
    var u, l := InUse(t), Last(3, InUse(t));
    hide ValidRing;
    assert u[|u| - 1] == t.drawing.value && l[|l| - 1] == t.drawing.value;
    forall i | 0 <= i < |t.finished| && !(i == 0 && |t.finished| == 3)
      ensures t.finished[i].buffer.id != t.next.value.id
    {
      assert u[i] == t.finished[i].buffer;
      assert l[|l| - |u| + i] == u[i];
    }
  }

  /**
   * In every state of such a run the drawing buffer and the at most three finished ones are pairwise different,
   * and the next one can only be the oldest of three finished.
   */
  lemma BuffersNeverAlias(garbage: Kind, ops: seq<Op>)
    requires Spaced(Initial(garbage), 3, ops)
    ensures var t := Run(Initial(garbage), ops);
            && |t.finished| <= 3
            && (forall i, j :: 0 <= i < j < |t.finished| ==> t.finished[i].buffer.id != t.finished[j].buffer.id)
            && (t.drawing.Some? ==>
                  && t.next.Some? && t.drawing.value.id != t.next.value.id
                  && forall i :: 0 <= i < |t.finished| ==>
                       && t.finished[i].buffer.id != t.drawing.value.id
                       && (t.finished[i].buffer.id == t.next.value.id ==> i == 0 && |t.finished| == 3))
  {
    SpacedRunsAreSafe(garbage, ops);
    var t := Run(Initial(garbage), ops);
    ApartMeans(t);
    if t.drawing.Some? {
      NotTakenMeans(t);
    }
    hide Run, Spaced, Apart, NextTaken;
  }

  /** Runs without a change of resolution are spaced. */
  lemma {:induction false} SwapsAloneAreSpaced(s: State, ops: seq<Op>)
    requires Usable(s) && forall i :: 0 <= i < |ops| ==> !ops[i].DoResize?
    ensures Spaced(s, 3, ops)
    decreases |ops|
  {
    if ops != [] {
      SwapsAloneAreSpaced(Do(s, ops[0]), ops[1..]);
    }
  }

  // ---- Closer changes -------------------------------------------------------------------------

  /** A session of display 0 with drawing buffer `d` and next buffer `n`. */
  function Session(max: nat, q: seq<Buffer>, made: nat, g: Geometry, fs: seq<Frame>, d: Buffer, n: Buffer): State {
    State(Vop, Some(Ring(max, q, Some(n), made)), 1, 0, g, fs, Some(d), Some(n))
  }

  /** Sequences compared element by element. */
  lemma SameSession(s: State, t: State)
    requires s.ring.Some? && t.ring.Some?
    requires s.ring.value.queue == t.ring.value.queue && s.ring.value.(queue := []) == t.ring.value.(queue := [])
    requires s.finished == t.finished && s.(ring := None, finished := []) == t.(ring := None, finished := [])
    ensures s == t
  {
  }

  /** The first three buffers of a session in a new queue, next and two swaps. */
  lemma TwoSwaps(a: Geometry)
    ensures var s0 := Do(Initial(Off), DoEnable(0, UseVop(a)));
            var b0, b1, b2 := Buffer(0, a), Buffer(1, a), Buffer(2, a);
            && Do(s0, DoSwap(1)) == Session(4, [b0, b1], 2, a, [], b0, b1)
            && Do(Do(s0, DoSwap(1)), DoSwap(2)) == Session(4, [b0, b1, b2], 3, a, [Frame(2, b0)], b1, b2)
  {
    var s0 := Do(Initial(Off), DoEnable(0, UseVop(a)));
    var b0, b1, b2 := Buffer(0, a), Buffer(1, a), Buffer(2, a);
    assert s0.ring.value.queue == [b0];
    var s1 := Session(4, [b0, b1], 2, a, [], b0, b1);
    SameSession(Do(s0, DoSwap(1)), s1);
    var s2 := Session(4, [b0, b1, b2], 3, a, [Frame(2, b0)], b1, b2);
    SameSession(Do(s1, DoSwap(2)), s2);
  }

  lemma AliasAt(t: State, i: nat)
    requires i < |t.finished| && t.drawing == Some(t.finished[i].buffer)
    ensures !Apart(t)
  {
    var u := InUse(t);
    assert u[i] == u[|t.finished|];
  }

  /** A size changed there and back between two swaps: the display draws into a finished buffer. */
  lemma ThereAndBackAliases(a: Geometry, b: Geometry)
    requires !SameSize(a, b)
    ensures var s1 := Do(Do(Initial(Off), DoEnable(0, UseVop(a))), DoSwap(1));
            var s3 := Do(Do(s1, DoSwap(2)), DoSwap(3));
            var s5 := Do(Do(s3, DoResize(0, Some(b))), DoResize(0, Some(a)));
            !Apart(Do(s5, DoSwap(4)))
  {
    TwoSwaps(a);
    var b0, b1, b2, b3, b4 := Buffer(0, a), Buffer(1, a), Buffer(2, a), Buffer(3, a), Buffer(4, b);
    var s2 := Session(4, [b0, b1, b2], 3, a, [Frame(2, b0)], b1, b2);
    var s3 := Session(4, [b0, b1, b2, b3], 4, a, [Frame(2, b0), Frame(3, b1)], b2, b3);
    SameSession(Do(s2, DoSwap(3)), s3);
    var s4 := Session(4, [b1, b2, b3, b4], 5, b, [Frame(2, b0), Frame(3, b1)], b2, b4);
    SameSession(Do(s3, DoResize(0, Some(b))), s4);
    var s5 := Session(4, [b2, b3, b4, b1], 5, a, [Frame(2, b0), Frame(3, b1)], b2, b1);
    SameSession(Do(s4, DoResize(0, Some(a))), s5);
    var t := Do(s5, DoSwap(4));
    assert t.finished == [Frame(2, b0), Frame(3, b1), Frame(4, b2)];
    AliasAt(t, 1);
  }

  /** One change in every frame, there and back: the same. */
  lemma EveryFrameAliases(a: Geometry, b: Geometry)
    requires !SameSize(a, b)
    ensures var s1 := Do(Do(Initial(Off), DoEnable(0, UseVop(a))), DoSwap(1));
            var s3 := Do(Do(s1, DoResize(0, Some(b))), DoSwap(2));
            !Apart(Do(Do(s3, DoResize(0, Some(a))), DoSwap(3)))
  {
    TwoSwaps(a);
    var b0, b1, b2, b3 := Buffer(0, a), Buffer(1, a), Buffer(2, b), Buffer(3, b);
    var s1 := Session(4, [b0, b1], 2, a, [], b0, b1);
    var s2 := Session(4, [b0, b1, b2], 3, b, [], b0, b2);
    SameSession(Do(s1, DoResize(0, Some(b))), s2);
    var s3 := Session(4, [b0, b1, b2, b3], 4, b, [Frame(2, b0)], b2, b3);
    SameSession(Do(s2, DoSwap(2)), s3);
    var s4 := Session(4, [b1, b2, b3, b0], 4, a, [Frame(2, b0)], b2, b0);
    SameSession(Do(s3, DoResize(0, Some(a))), s4);
    var t := Do(s4, DoSwap(3));
    assert t.finished == [Frame(2, b0), Frame(3, b2)];
    AliasAt(t, 0);
  }

  /** In a queue of six, one swap between changes is not enough either once there are three sizes. */
  lemma ThreeSizesAlias(a: Geometry, b: Geometry, c: Geometry)
    requires !SameSize(a, b) && !SameSize(b, c) && !SameSize(c, a)
    ensures var q := [Buffer(1, a), Buffer(2, a), Buffer(3, a), Buffer(4, a), Buffer(5, a), Buffer(6, a)];
            var fs := [Frame(1, q[1]), Frame(2, q[2]), Frame(3, q[3])];
            var s := Session(6, q, 7, a, fs, q[4], q[5]);
            var s2 := Do(Do(s, DoResize(0, Some(b))), DoSwap(4));
            var s4 := Do(Do(s2, DoResize(0, Some(c))), DoSwap(5));
            !Apart(Do(Do(s4, DoResize(0, Some(a))), DoSwap(6)))
  {
    var b1, b2, b3, b4, b5, b6 := Buffer(1, a), Buffer(2, a), Buffer(3, a), Buffer(4, a), Buffer(5, a), Buffer(6, a);
    var b7, b8, b9, b10 := Buffer(7, b), Buffer(8, b), Buffer(9, c), Buffer(10, c);
    var s := Session(6, [b1, b2, b3, b4, b5, b6], 7, a, [Frame(1, b2), Frame(2, b3), Frame(3, b4)], b5, b6);
    var s1 := Session(6, [b2, b3, b4, b5, b6, b7], 8, b, [Frame(1, b2), Frame(2, b3), Frame(3, b4)], b5, b7);
    SameSession(Do(s, DoResize(0, Some(b))), s1);
    var s2 := Session(6, [b3, b4, b5, b6, b7, b8], 9, b, [Frame(2, b3), Frame(3, b4), Frame(4, b5)], b7, b8);
    SameSession(Do(s1, DoSwap(4)), s2);
    ThreeSizesGoOn(a, b, c);
  }

  lemma ThreeSizesGoOn(a: Geometry, b: Geometry, c: Geometry)
    requires !SameSize(a, b) && !SameSize(b, c) && !SameSize(c, a)
    ensures var q := [Buffer(3, a), Buffer(4, a), Buffer(5, a), Buffer(6, a), Buffer(7, b), Buffer(8, b)];
            var fs := [Frame(2, q[0]), Frame(3, q[1]), Frame(4, q[2])];
            var s := Session(6, q, 9, b, fs, q[4], q[5]);
            var s2 := Do(Do(s, DoResize(0, Some(c))), DoSwap(5));
            !Apart(Do(Do(s2, DoResize(0, Some(a))), DoSwap(6)))
  {
    var b3, b4, b5, b6, b7, b8 := Buffer(3, a), Buffer(4, a), Buffer(5, a), Buffer(6, a), Buffer(7, b), Buffer(8, b);
    var b9, b10 := Buffer(9, c), Buffer(10, c);
    var s2 := Session(6, [b3, b4, b5, b6, b7, b8], 9, b, [Frame(2, b3), Frame(3, b4), Frame(4, b5)], b7, b8);
    var s3 := Session(6, [b4, b5, b6, b7, b8, b9], 10, c, [Frame(2, b3), Frame(3, b4), Frame(4, b5)], b7, b9);
    SameSession(Do(s2, DoResize(0, Some(c))), s3);
    var s4 := Session(6, [b5, b6, b7, b8, b9, b10], 11, c, [Frame(3, b4), Frame(4, b5), Frame(5, b7)], b9, b10);
    SameSession(Do(s3, DoSwap(5)), s4);
    ThreeSizesEnd(a, b, c);
  }

  lemma ThreeSizesEnd(a: Geometry, b: Geometry, c: Geometry)
    requires !SameSize(c, a)
    ensures var q := [Buffer(5, a), Buffer(6, a), Buffer(7, b), Buffer(8, b), Buffer(9, c), Buffer(10, c)];
            var s := Session(6, q, 11, c, [Frame(3, Buffer(4, a)), Frame(4, q[0]), Frame(5, q[2])], q[4], q[5]);
            !Apart(Do(Do(s, DoResize(0, Some(a))), DoSwap(6)))
  {
    var b4, b5, b6, b7, b8 := Buffer(4, a), Buffer(5, a), Buffer(6, a), Buffer(7, b), Buffer(8, b);
    var b9, b10 := Buffer(9, c), Buffer(10, c);
    var s4 := Session(6, [b5, b6, b7, b8, b9, b10], 11, c, [Frame(3, b4), Frame(4, b5), Frame(5, b7)], b9, b10);
    var s5 := Session(6, [b6, b7, b8, b9, b10, b5], 11, a, [Frame(3, b4), Frame(4, b5), Frame(5, b7)], b9, b5);
    SameSession(Do(s4, DoResize(0, Some(a))), s5);
    var t := Do(s5, DoSwap(6));
    assert t.finished == [Frame(4, b5), Frame(5, b7), Frame(6, b9)];
    AliasAt(t, 0);
  }
}
