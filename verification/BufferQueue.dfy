/** The recycling buffer queue: a buffer comes out of a full queue again, or is made afresh. */
module BufferQueue {
  import opened Arithmetic

  datatype Option<T> = None | Some(value: T)

  datatype Geometry = Geometry(width: int, height: int, format: int)

  /** `id` stands for the object: no two buffers made share one. */
  datatype Buffer = Buffer(id: nat, geometry: Geometry)

  const DRM_BUFFERQUEUE_MAX_SIZE := 6

  datatype Ring = Ring(max: nat, queue: seq<Buffer>, current: Option<Buffer>, made: nat)

  function NewRing(max: nat, made: nat): Ring {
    Ring(max, [], None, made)
  }

  function Make(r: Ring, g: Geometry): Ring {
    r.(current := Some(Buffer(r.made, g)), made := r.made + 1)
  }

  function Dequeue(r: Ring, g: Geometry): (t: Ring)
    requires r.max > 0
    ensures t.current.Some?
  {
    if |r.queue| == r.max then
      var popped := r.(queue := r.queue[1..], current := Some(r.queue[0]));
      if r.queue[0].geometry != g then Make(popped, g) else popped
    else Make(r, g)
  }

  function Enqueue(r: Ring, b: Buffer): (Ring, int) {
    if r.current == Some(b) then (r.(queue := r.queue + [b]), 0) else (r, -1)
  }

  /** A dequeue and the queueing of what it gave. */
  function Cycle(r: Ring, g: Geometry): Ring
    requires r.max > 0
  {
    var d := Dequeue(r, g);
    Enqueue(d, d.current.value).0
  }

  class DrmBufferQueue {
    const max: nat
    var queue: seq<Buffer>
    var current: Option<Buffer>
    var made: nat

    constructor (max: nat, made: nat)
      ensures View() == NewRing(max, made)
    {
      this.max, queue, current, this.made := max, [], None, made;
    }

    function View(): Ring
      reads this
    {
      Ring(max, queue, current, made)
    }

    method NeedsReallocation(b: Buffer, g: Geometry) returns (r: bool)
      ensures r <==> b.geometry != g
    {
      r := b.geometry.width != g.width || b.geometry.height != g.height || b.geometry.format != g.format;
    }

    method Allocate(g: Geometry) returns (b: Buffer)
      modifies `made, `current
      ensures View() == Make(old(View()), g) && current == Some(b)
    {
      b := Buffer(made, g);
      made := made + 1;
      current := Some(b);
    }

    method DequeueDrmBuffer(g: Geometry) returns (b: Buffer)
      requires max > 0
      modifies this
      ensures View() == Dequeue(old(View()), g) && current == Some(b)
    {
      if |queue| == max {
        b := queue[0];
        current := Some(b);
        queue := queue[1..];
        var again := NeedsReallocation(b, g);
        if again {
          b := Allocate(g);
        }
      } else {
        b := Allocate(g);
      }
    }

    method QueueBuffer(b: Buffer) returns (r: int)
      modifies `queue
      ensures (View(), r) == Enqueue(old(View()), b)
      ensures r == 0 <==> old(current) == Some(b)
      ensures queue == if r == 0 then old(queue) + [b] else old(queue)
    {
      if current.Some? && b == current.value {
        queue := queue + [b];
        return 0;
      }
      return -1;
    }
  }

  // ---- Any geometries -------------------------------------------------------------------------

  predicate Distinct(bs: seq<Buffer>) {
    forall i, j :: 0 <= i < j < |bs| ==> bs[i].id != bs[j].id
  }

  predicate ValidRing(r: Ring) {
    && 0 < r.max && |r.queue| <= r.max
    && Distinct(r.queue)
    && forall b :: b in r.queue ==> b.id < r.made
  }

  lemma CycleKeepsRing(r: Ring, g: Geometry)
    requires ValidRing(r)
    ensures ValidRing(Cycle(r, g)) && Cycle(r, g).max == r.max && Cycle(r, g).made >= r.made
  {
  }

  // ---- One geometry: a cycle ------------------------------------------------------------------

  function Cycles(max: nat, g: Geometry, k: nat): (r: Ring)
    requires max > 0
    ensures r.max == max
  {
    if k == 0 then NewRing(max, 0) else Cycle(Cycles(max, g, k - 1), g)
  }

  /** What the `k`th dequeue returns. */
  function Dequeued(max: nat, g: Geometry, k: nat): Buffer
    requires max > 0
  {
    Dequeue(Cycles(max, g, k), g).current.value
  }

  function Oldest(max: nat, k: nat): nat {
    if k <= max then 0 else k - max
  }

  /** After `k` cycles the queue holds the last `max` positions of an endless walk around `max` buffers. */
  lemma {:induction false} CyclesWalkRound(max: nat, g: Geometry, k: nat)
    requires max > 0
    ensures var r := Cycles(max, g, k);
            && r.made == (if k <= max then k else max)
            && |r.queue| == r.made
            && forall i :: 0 <= i < |r.queue| ==> r.queue[i] == Buffer((Oldest(max, k) + i) % max, g)
  {
    if k > 0 {
      CyclesWalkRound(max, g, k - 1);
      var r, t := Cycles(max, g, k - 1), Cycles(max, g, k);
      if k <= max {
        BelowIsItself(k - 1, max);
        assert t.queue == r.queue + [Buffer(k - 1, g)];
      } else {
        OneTurnBack(k - 1, max);
        assert r.queue[0] == Buffer(Oldest(max, k - 1) % max, g);
        assert t.queue == r.queue[1..] + [r.queue[0]];
        forall i | 0 <= i < max - 1 ensures t.queue[i] == Buffer((Oldest(max, k) + i) % max, g) {
          assert t.queue[i] == r.queue[i + 1];
        }
      }
    }
  }

  /** Dequeue `k` gives back what dequeue `k - max` gave, and the first `max` are all different. */
  lemma DequeuesAreACycle(max: nat, g: Geometry, k: nat)
    requires max > 0
    ensures Dequeued(max, g, k) == Buffer(k % max, g)
    ensures k >= max ==> Dequeued(max, g, k) == Dequeued(max, g, k - max)
    ensures |Cycles(max, g, k).queue| <= max && Distinct(Cycles(max, g, k).queue)
  {
    DequeuedIs(max, g, k);
    if k >= max {
      DequeuedIs(max, g, k - max);
      OneTurnBack(k, max);
    }
    QueueDistinct(max, g, k);
  }

  lemma DequeuedIs(max: nat, g: Geometry, k: nat)
    requires max > 0
    ensures Dequeued(max, g, k) == Buffer(k % max, g)
  {
    CyclesWalkRound(max, g, k);
    if k < max {
      BelowIsItself(k, max);
    } else {
      OneTurnBack(k, max);
    }
  }

  lemma {:induction false} QueueDistinct(max: nat, g: Geometry, k: nat)
    requires max > 0
    ensures ValidRing(Cycles(max, g, k))
  {
    if k > 0 {
      QueueDistinct(max, g, k - 1);
      CycleKeepsRing(Cycles(max, g, k - 1), g);
    }
  }
}
