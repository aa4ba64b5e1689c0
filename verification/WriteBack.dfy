/** Write-back: a display's frames go next -> drawing -> finished through buffers of one recycling queue. */
module WriteBack {
  import opened BufferQueue

  const WB_BUFFERQUEUE_MAX_SIZE := 4

  datatype Frame = Frame(number: nat, buffer: Buffer)

  /** How the display's content is to be captured: the display engine, the blitter, or not at all. */
  datatype Mode = UseVop(geometry: Geometry) | UseRga(geometry: Geometry) | Disable

  /** What the chosen mode is remembered as. */
  datatype Kind = Vop | Rga | Off

  datatype State = State(
    kind: Kind,
    ring: Option<Ring>,
    refs: int,
    display: int,
    geometry: Geometry,
    finished: seq<Frame>,
    drawing: Option<Buffer>,
    next: Option<Buffer>)

  const NO_GEOMETRY := Geometry(0, 0, 0)

  /** The remembered kind is not initialised. */
  function Initial(garbage: Kind): State {
    State(garbage, None, 0, -1, NO_GEOMETRY, [], None, None)
  }

  // ---- Operations on values -------------------------------------------------------------------

  /** WriteBackUseVop and WriteBackUseRga: the queue is made once, with the first user's depth. */
  function Begin(s: State, d: int, g: Geometry, depth: nat): State
    requires depth > 0 && (s.ring.Some? ==> s.ring.value.max > 0)
  {
    var ring := Cycle(if s.ring.Some? then s.ring.value else NewRing(depth, 0), g);
    s.(ring := Some(ring), geometry := g, next := ring.current, refs := s.refs + 1, display := d)
  }

  function Enable(s: State, d: int, m: Mode): (State, int)
    requires s.ring.Some? ==> s.ring.value.max > 0
  {
    if s.refs > 0 then if s.display != d then (s, -1) else (s.(refs := s.refs + 1), 0)
    else match m
      case UseVop(g) => (Begin(s.(kind := Vop), d, g, WB_BUFFERQUEUE_MAX_SIZE), 0)
      case UseRga(g) => (Begin(s.(kind := Rga), d, g, DRM_BUFFERQUEUE_MAX_SIZE), 0)
      case Disable => (s.(kind := Off), -1)
  }

  function DisableMode(s: State, d: int): State {
    if d != s.display then s
    else if s.refs - 1 > 0 then s.(refs := s.refs - 1)
    else s.(kind := Off, refs := s.refs - 1, display := -1, finished := [], drawing := None, next := None)
  }

  /** The finished list after the drawn buffer joins it; the oldest is dropped beyond three. */
  function Pushed(finished: seq<Frame>, drawing: Option<Buffer>, frame: nat): seq<Frame> {
    if drawing.None? then finished
    else
      var all := finished + [Frame(frame, drawing.value)];
      if |all| > WB_BUFFERQUEUE_MAX_SIZE - 1 then all[1..] else all
  }

  function Swap(s: State, frame: nat): (State, int)
    requires s.ring.Some? ==> s.ring.value.max > 0
    requires s.refs > 0 ==> s.ring.Some?
  {
    if s.refs <= 0 then (s, -1)
    else
      var ring := Cycle(s.ring.value, s.geometry);
      (s.(finished := Pushed(s.finished, s.drawing, frame), drawing := s.next, ring := Some(ring),
        next := ring.current), 0)
  }

  predicate SameSize(a: Geometry, b: Geometry) {
    a.width == b.width && a.height == b.height
  }

  /** A request for another size than the present one reaches the queue. */
  predicate Resizes(s: State, d: int, target: Option<Geometry>) {
    && !(s.refs > 0 && s.display != d)
    && s.kind == Vop
    && target.Some?
    && !SameSize(target.value, s.geometry)
  }

  /** A change of resolution replaces the next buffer at once; `target` is absent for a connector that is gone. */
  function Resize(s: State, d: int, target: Option<Geometry>): (State, int)
    requires s.ring.Some? ==> s.ring.value.max > 0
  {
    if Resizes(s, d, target) then
      var before := if s.ring.Some? then s.ring.value else NewRing(WB_BUFFERQUEUE_MAX_SIZE, 0);
      var ring := Cycle(before, target.value);
      (s.(ring := Some(ring), geometry := target.value, next := ring.current), 0)
    else if s.refs > 0 && s.display != d then (s, -1)
    else if s.kind == Rga || (s.kind == Vop && target.Some?) then (s, 0)
    else (s, -1)
  }

  // ---- The same in place ----------------------------------------------------------------------

  class WriteBackManager {
    var kind: Kind
    var ring: DrmBufferQueue?
    var refs: int
    var display: int
    var geometry: Geometry
    var finished: seq<Frame>
    var drawing: Option<Buffer>
    var next: Option<Buffer>

    constructor (garbage: Kind)
      ensures View() == Initial(garbage) && ring == null
    {
      kind := garbage;
      ring, refs, display, geometry, finished, drawing, next := null, 0, -1, NO_GEOMETRY, [], None, None;
    }

    function View(): State
      reads this, ring
    {
      State(kind, if ring == null then None else Some(ring.View()), refs, display, geometry, finished, drawing, next)
    }

    /** Makes the queue if need be, and takes the next buffer from it. */
    method TakeNext(g: Geometry, depth: nat) returns (b: Buffer)
      requires depth > 0 && (ring != null ==> ring.max > 0)
      modifies `ring, ring
      ensures ring != null && (old(ring) == null ==> fresh(ring)) && (old(ring) != null ==> ring == old(ring))
      ensures var before := if old(ring) == null then NewRing(depth, 0) else old(ring.View());
              ring.View() == Cycle(before, g) && ring.current == Some(b)
    {
      if ring == null {
        ring := new DrmBufferQueue(depth, 0);
      }
      b := ring.DequeueDrmBuffer(g);
      var _ := ring.QueueBuffer(b);
    }

    method WriteBackUse(d: int, g: Geometry, depth: nat)
      requires depth > 0 && (ring != null ==> ring.max > 0)
      modifies this, ring
      ensures View() == Begin(old(View()), d, g, depth)
      ensures ring != null && (old(ring) == null ==> fresh(ring)) && (old(ring) != null ==> ring == old(ring))
    {
      geometry := g;
      var b := TakeNext(g, depth);
      next := Some(b);
      refs := refs + 1;
      display := d;
    }

    method EnableWriteBackMode(d: int, m: Mode) returns (r: int)
      requires ring != null ==> ring.max > 0
      modifies this, ring
      ensures (View(), r) == Enable(old(View()), d, m)
    {
      if refs > 0 {
        if display != d {
          return -1;
        }
        refs := refs + 1;
        return 0;
      }
      match m {
        case UseVop(g) =>
          kind := Vop;
          WriteBackUse(d, g, WB_BUFFERQUEUE_MAX_SIZE);
          return 0;
        case UseRga(g) =>
          kind := Rga;
          WriteBackUse(d, g, DRM_BUFFERQUEUE_MAX_SIZE);
          return 0;
        case Disable =>
          kind := Off;
          return -1;
      }
    }

    /** Called for every frame; only another size than the present one does anything. */
    method UpdateWriteBackResolution(d: int, target: Option<Geometry>) returns (r: int)
      requires ring != null ==> ring.max > 0
      modifies this, ring
      ensures (View(), r) == Resize(old(View()), d, target)
    {
      if refs > 0 && display != d {
        return -1;
      }
      match kind {
        case Vop =>
          if target.None? {
            return -1;
          }
          if SameSize(target.value, geometry) {
            return 0;
          }
          geometry := target.value;
          var b := TakeNext(target.value, WB_BUFFERQUEUE_MAX_SIZE);
          next := Some(b);
          return 0;
        case Rga => return 0;
        case Off => return -1;
      }
    }

    method DisableWriteBackMode(d: int)
      modifies this
      ensures View() == DisableMode(old(View()), d)
    {
      if d != display {
        return;
      }
      refs := refs - 1;
      if refs <= 0 {
        kind := Off;
        display := -1;
        finished := [];
        drawing, next := None, None;
      }
    }

    method SwapWBBuffer(frame: nat) returns (r: int)
      requires ring != null ==> ring.max > 0
      requires refs > 0 ==> ring != null
      modifies this, ring
      ensures (View(), r) == Swap(old(View()), frame)
    {
      if refs <= 0 {
        return -1;
      }
      if drawing.Some? {
        finished := finished + [Frame(frame, drawing.value)];
        if |finished| > WB_BUFFERQUEUE_MAX_SIZE - 1 {
          finished := finished[1..];
        }
      }
      drawing := next;
      var b := TakeNext(geometry, WB_BUFFERQUEUE_MAX_SIZE);
      next := Some(b);
      return 0;
    }

    /**
     * Gives a reader that was last given frame `last` its frame; the buffer being drawn counts as frame 0. `copied`
     * is whether the blitter's copy succeeds; the reader's number moves on only then.
     */
    method OutputWBBuffer(last: nat, copied: bool) returns (ret: int, frame: Option<Frame>, now: nat)
      ensures frame == Chosen(View(), last)
      ensures ret == 0 <==> copied && (finished != [] || drawing.Some?)
      ensures finished == [] && drawing.Some? ==> frame == Some(Frame(0, drawing.value))
      ensures ret == if frame.Some? && copied then 0 else -1
      ensures now == Read(View(), last, copied)
      ensures ret == 0 ==> frame.Some? && now == frame.value.number
      ensures ret != 0 ==> ret == -1 && now == last
    {
      frame := None;
      if |finished| == 0 && drawing.None? {
        return -1, None, last;
      }
      var i := 0;
      while i < |finished|
        invariant 0 <= i <= |finished| && frame == None
        invariant forall j :: 0 <= j < i ==> finished[j].number <= last
      {
        if finished[i].number > last {
          frame := Some(finished[i]);
          break;
        }
        i := i + 1;
      }
      FirstNewerIs(finished, last, i);
      if frame == None && |finished| > 0 {
        frame := Some(finished[|finished| - 1]);
      }
      if frame == None && drawing.Some? {
        frame := Some(Frame(0, drawing.value));
      }
      if frame == None || !copied {
        return -1, frame, last;
      }
      return 0, frame, frame.value.number;
    }
  }

  /** The position of the first frame newer than `last`, or the length. */
  function FirstNewer(finished: seq<Frame>, last: nat): (i: nat)
    ensures i <= |finished|
  {
    if finished == [] || finished[0].number > last then 0 else 1 + FirstNewer(finished[1..], last)
  }

  lemma {:induction false} FirstNewerIs(finished: seq<Frame>, last: nat, i: nat)
    requires i <= |finished| && forall j :: 0 <= j < i ==> finished[j].number <= last
    requires i < |finished| ==> finished[i].number > last
    ensures FirstNewer(finished, last) == i
  {
    if i > 0 {
      FirstNewerIs(finished[1..], last, i - 1);
    }
  }

  function Chosen(s: State, last: nat): Option<Frame> {
    var i := FirstNewer(s.finished, last);
    if i < |s.finished| then Some(s.finished[i])
    else if s.finished != [] then Some(s.finished[|s.finished| - 1])
    else if s.drawing.Some? then Some(Frame(0, s.drawing.value))
    else None
  }

  /** The reader's frame number after a read. */
  function Read(s: State, last: nat, copied: bool): nat {
    var c := Chosen(s, last);
    if c.Some? && copied then c.value.number else last
  }

  // ---- What the operations answer -------------------------------------------------------------

  /** Who may enable write-back, and what the first user gets: a queue of four or six, a buffer, and its mode. */
  lemma EnableOutcome(s: State, d: int, m: Mode)
    requires s.ring.Some? ==> s.ring.value.max > 0
    ensures var (t, r) := Enable(s, d, m);
            && (r == 0 <==> if s.refs > 0 then s.display == d else !m.Disable?)
            && (r != 0 ==> r == -1 && t == if s.refs > 0 then s else s.(kind := Off))
            && (r == 0 ==> t.refs == s.refs + 1 && t.display == d && t.finished == s.finished && t.drawing == s.drawing)
            && (r == 0 && s.refs > 0 ==> t == s.(refs := s.refs + 1))
            && (r == 0 && s.refs <= 0 ==>
                  && t.next.Some? && t.next.value.geometry == m.geometry && t.geometry == m.geometry
                  && t.kind == (if m.UseVop? then Vop else Rga)
                  && t.ring.Some?
                  && t.ring.value.max == if s.ring.Some? then s.ring.value.max else if m.UseVop? then 4 else 6)
  {
  }

  /** A change of resolution reaches the queue only for the display that may, in the engine's mode, and a new size. */
  lemma ResizeOutcome(s: State, d: int, target: Option<Geometry>)
    requires s.ring.Some? ==> s.ring.value.max > 0
    ensures var (t, r) := Resize(s, d, target);
            var other := s.refs > 0 && s.display != d;
            && (r == 0 <==> !other && (s.kind == Rga || (s.kind == Vop && target.Some?)))
            && (r != 0 ==> r == -1)
            && if !other && s.kind == Vop && target.Some?
                  && (target.value.width != s.geometry.width || target.value.height != s.geometry.height)
               then t.next.Some? && t.next.value.geometry == target.value && t.geometry == target.value
                    && t == s.(ring := t.ring, geometry := t.geometry, next := t.next)
               else t == s
  {
  }

  // ---- Runs -----------------------------------------------------------------------------------

  datatype Op =
    | DoEnable(display: int, mode: Mode)
    | DoDisable(display: int)
    | DoSwap(frame: nat)
    | DoResize(display: int, target: Option<Geometry>)

  /** A queue can hold something, and write-back is on only with a queue. */
  predicate Usable(s: State) {
    && (s.ring.Some? ==> s.ring.value.max > 0)
    && (s.refs > 0 ==> s.ring.Some?)
  }

  function Do(s: State, op: Op): (t: State)
    requires Usable(s)
    ensures Usable(t)
  {
    match op
    case DoEnable(d, m) => Enable(s, d, m).0
    case DoDisable(d) => DisableMode(s, d)
    case DoSwap(f) => Swap(s, f).0
    case DoResize(d, target) => Resize(s, d, target).0
  }

  function Run(s: State, ops: seq<Op>): (t: State)
    requires Usable(s)
    ensures Usable(t)
    decreases |ops|
  {
    if ops == [] then s else Run(Do(s, ops[0]), ops[1..])
  }
}
