/** Runs of write-back: who has it, and what its readers see. */
module WriteBackTheorems {
  import opened BufferQueue
  import opened WriteBack

  // ---- Who has write-back ---------------------------------------------------------------------

  /** What an operation does to the number of users of display `d`, if `d` is the one bound. */
  function Change(op: Op, d: int): int {
    match op
    case DoEnable(e, _) => if e == d then 1 else 0
    case DoDisable(e) => if e == d then -1 else 0
    case DoSwap(_) => 0
    case DoResize(_, _) => 0
  }

  function Balance(ops: seq<Op>, d: int): int {
    if ops == [] then 0 else Change(ops[0], d) + Balance(ops[1..], d)
  }

  /** There is always a user left. */
  predicate InUseThroughout(refs: int, ops: seq<Op>, d: int)
    decreases |ops|
  {
    refs > 0 && (ops == [] || InUseThroughout(refs + Change(ops[0], d), ops[1..], d))
  }

  /**
   * A bound display keeps write-back, and the user count is exact, as long as its own users last: what other
   * displays ask for changes neither.
   */
  lemma {:induction false} BoundUntilTheLastUser(s: State, ops: seq<Op>)
    requires Usable(s) && InUseThroughout(s.refs, ops, s.display)
    ensures Run(s, ops).display == s.display && Run(s, ops).refs == s.refs + Balance(ops, s.display) > 0
    decreases |ops|
  {
    if ops != [] {
      BoundUntilTheLastUser(Do(s, ops[0]), ops[1..]);
    }
  }

  /** With its last user everything a reader could still see is gone, and changes of resolution do nothing. */
  lemma LastUserClears(s: State, ops: seq<Op>)
    requires Usable(s) && InUseThroughout(s.refs, ops, s.display) && s.refs + Balance(ops, s.display) == 1
    ensures var t := Do(Run(s, ops), DoDisable(s.display));
            && t.refs == 0 && t.display == -1 && t.next.None?
            && (forall last: nat :: Chosen(t, last).None?)
            && forall d, target :: Resize(t, d, target) == (t, -1)
  {
    BoundUntilTheLastUser(s, ops);
  }

  // ---- Readers --------------------------------------------------------------------------------

  /** The write-back session a reader sees, and the frame it was last given. */
  datatype Session = Session(wb: State, last: nat)

  datatype Event = Swapped(frame: nat) | WasRead(copied: bool)

  function Next(s: Session, e: Event): Session
    requires Usable(s.wb)
  {
    match e
    case Swapped(f) => s.(wb := Swap(s.wb, f).0)
    case WasRead(copied) => s.(last := Read(s.wb, s.last, copied))
  }

  predicate Ascending(fs: seq<Frame>) {
    forall i, j :: 0 <= i < j < |fs| ==> fs[i].number < fs[j].number
  }

  /** Frames are in order, and the reader is not ahead of the newest. */
  predicate InStep(s: Session) {
    && Usable(s.wb)
    && Ascending(s.wb.finished)
    && (if s.wb.finished == [] then s.last == 0 else s.last <= s.wb.finished[|s.wb.finished| - 1].number)
  }

  /**
   * There is a frame as soon as one is finished or being drawn. It is the oldest finished frame newer than the
   * reader's, otherwise the newest finished one, and before the first is finished the one being drawn, as frame 0.
   */
  lemma ChosenIs(s: State, last: nat)
    requires Ascending(s.finished)
    ensures Chosen(s, last).Some? <==> s.finished != [] || s.drawing.Some?
    ensures s.finished == [] && s.drawing.Some? ==> Chosen(s, last) == Some(Frame(0, s.drawing.value))
    ensures s.finished != [] ==>
            var c := Chosen(s, last);
            && c.value in s.finished
            && (c.value.number > last ==> forall f :: f in s.finished && f.number > last ==> c.value.number <= f.number)
            && (c.value.number <= last ==> forall f :: f in s.finished ==> f.number <= c.value.number)
  {
    FirstNewerSplits(s.finished, last);
  }

  lemma {:induction false} FirstNewerSplits(fs: seq<Frame>, last: nat)
    ensures var i := FirstNewer(fs, last);
            && (forall j :: 0 <= j < i ==> fs[j].number <= last)
            && (i < |fs| ==> fs[i].number > last)
  {
    if fs != [] && fs[0].number <= last {
      FirstNewerSplits(fs[1..], last);
      var i := FirstNewer(fs, last);
      forall j | 0 <= j < i ensures fs[j].number <= last {
        assert j > 0 ==> fs[j] == fs[1..][j - 1];
      }
    }
  }

  /** Frames are numbered upwards within a session. */
  predicate Numbered(s: Session, e: Event) {
    e.Swapped? ==> forall f :: f in s.wb.finished ==> f.number < e.frame
  }

  lemma PushedAscending(fs: seq<Frame>, drawing: Option<Buffer>, frame: nat)
    requires Ascending(fs) && forall f :: f in fs ==> f.number < frame
    ensures var r := Pushed(fs, drawing, frame);
            && Ascending(r)
            && (drawing.None? ==> r == fs)
            && (drawing.Some? ==> r != [] && r[|r| - 1].number == frame)
  {
    assert forall i :: 0 <= i < |fs| ==> fs[i] in fs;
    if drawing.Some? {
      var all := fs + [Frame(frame, drawing.value)];
      assert Ascending(all);
    }
  }

  lemma SwapKeepsStep(s: Session, frame: nat)
    requires InStep(s) && Numbered(s, Swapped(frame))
    ensures InStep(Next(s, Swapped(frame)))
  {
    PushedAscending(s.wb.finished, s.wb.drawing, frame);
    var n := |s.wb.finished|;
    assert n > 0 ==> s.wb.finished[n - 1] in s.wb.finished;
    hide Pushed, Ascending, Cycle;
  }

  lemma ReadNeverGoesBack(s: Session, copied: bool)
    requires InStep(s)
    ensures InStep(Next(s, WasRead(copied))) && Next(s, WasRead(copied)).last >= s.last
  {
    if s.wb.finished != [] {
      ChosenIs(s.wb, s.last);
      var c := Chosen(s.wb, s.last).value;
      var i :| 0 <= i < |s.wb.finished| && s.wb.finished[i] == c;
      assert s.wb.finished[|s.wb.finished| - 1] in s.wb.finished;
    }
  }

  predicate NumberedAll(s: Session, es: seq<Event>)
    requires Usable(s.wb)
    decreases |es|
  {
    es == [] || (Numbered(s, es[0]) && NumberedAll(Next(s, es[0]), es[1..]))
  }

  function Play(s: Session, es: seq<Event>): Session
    requires Usable(s.wb)
    decreases |es|
  {
    if es == [] then s else Play(Next(s, es[0]), es[1..])
  }

  /** Over any interleaving of swaps and reads in a session the reader's frame number never decreases. */
  lemma {:induction false} ReadersAreMonotone(s: Session, es: seq<Event>)
    requires InStep(s) && NumberedAll(s, es)
    ensures InStep(Play(s, es)) && Play(s, es).last >= s.last
    decreases |es|
  {
    if es != [] {
      if es[0].WasRead? {
        ReadNeverGoesBack(s, es[0].copied);
      } else {
        SwapKeepsStep(s, es[0].frame);
      }
      ReadersAreMonotone(Next(s, es[0]), es[1..]);
    }
  }
}
