/** Hotplug events on values: one pending event for each (display, type), merged as they arrive and drained in order. */
module EventQueue {
  datatype Connection = Connected | Disconnected | Unknown

  datatype DrmEvent = DrmEvent(display: int, kind: int, connection: Connection, timestamp: nat, stateChange: bool)

  datatype Slot = Slot(display: int, kind: int)

  type Pending = map<Slot, DrmEvent>

  function SlotOf(e: DrmEvent): Slot {
    Slot(e.display, e.kind)
  }

  /** The order in which the nested maps are walked. */
  predicate Before(a: Slot, b: Slot) {
    a.display < b.display || (a.display == b.display && a.kind < b.kind)
  }

  /** What is stored for an event: it is marked when it contradicts the event it replaces. */
  function Stored(p: Pending, e: DrmEvent): DrmEvent {
    var t := SlotOf(e);
    if t in p && p[t].connection != e.connection then e.(stateChange := true) else e
  }

  function Send(p: Pending, e: DrmEvent): Pending {
    p[SlotOf(e) := Stored(p, e)]
  }

  function SendAll(p: Pending, sends: seq<DrmEvent>): Pending {
    if sends == [] then p else Send(SendAll(p, sends[..|sends| - 1]), sends[|sends| - 1])
  }

  ghost predicate ValidPending(p: Pending) {
    forall t :: t in p ==> SlotOf(p[t]) == t
  }

  // ---- What merging keeps ---------------------------------------------------------------------

  /** The sends to one slot, in their order. */
  function To(sends: seq<DrmEvent>, t: Slot): seq<DrmEvent> {
    if sends == [] then []
    else
      var n := |sends| - 1;
      if SlotOf(sends[n]) == t then To(sends[..n], t) + [sends[n]] else To(sends[..n], t)
  }

  /** What a slot holds after its sends: the last of them, marked when the one before it differs. */
  predicate IsMerge(sends: seq<DrmEvent>, e: DrmEvent)
    requires sends != []
  {
    var n := |sends| - 1;
    e == sends[n].(stateChange := sends[n].stateChange || (n > 0 && sends[n - 1].connection != sends[n].connection))
  }

  lemma {:induction false} SendAllMerges(sends: seq<DrmEvent>, t: Slot)
    ensures var p := SendAll(map[], sends);
            && ValidPending(p)
            && (t in p <==> To(sends, t) != [])
            && (t in p ==> IsMerge(To(sends, t), p[t]))
  {
    if sends != [] {
      var n := |sends| - 1;
      SendAllMerges(sends[..n], t);
    }
  }

  /** Consecutive sends to a slot never repeat its connection, and nobody else marks events. */
  predicate Alternating(sends: seq<DrmEvent>) {
    && (forall i :: 0 <= i < |sends| ==> !sends[i].stateChange)
    && (forall i :: 0 < i < |sends| ==> sends[i - 1].connection != sends[i].connection)
  }

  /** Under alternating sends the mark says exactly that edges were merged. */
  lemma MarkedIffMerged(sends: seq<DrmEvent>, t: Slot)
    requires Alternating(To(sends, t))
    ensures var p := SendAll(map[], sends);
            t in p ==> (p[t].stateChange <==> |To(sends, t)| >= 2)
  {
    SendAllMerges(sends, t);
  }

  // ---- Draining -------------------------------------------------------------------------------

  ghost predicate Least(p: Pending, t: Slot) {
    t in p && forall u :: u in p && u != t ==> Before(t, u)
  }

  lemma {:induction false} LeastExists(p: Pending) returns (t: Slot)
    requires p != map[]
    ensures Least(p, t)
    decreases |p|
  {
    t :| t in p;
    var rest := p - {t};
    assert rest.Keys == p.Keys - {t};
    assert forall x :: x in p && x != t ==> x in rest;
    if rest != map[] {
      var u := LeastExists(rest);
      var first := if Before(u, t) then u else t;
      forall x | x in p && x != first ensures Before(first, x) {
        if x != t {
          assert x in rest;
          assert x == u || Before(u, x);
        }
      }
      t := first;
    }
  }

  ghost function LeastOf(p: Pending): (t: Slot)
    requires p != map[]
    ensures Least(p, t)
  {
    assert exists t :: Least(p, t) by {
      var t := LeastExists(p);
    }
    var t :| Least(p, t);
    t
  }

  /** The order in which the pending events are handled. */
  ghost function Drain(p: Pending): seq<DrmEvent>
    decreases |p|
  {
    if p == map[] then []
    else
      var t := LeastOf(p);
      assert (p - {t}).Keys == p.Keys - {t};
      [p[t]] + Drain(p - {t})
  }

  /** A queue holds the pending events, each once and in order. */
  ghost predicate Lists(p: Pending, q: seq<DrmEvent>) {
    && (forall e :: e in q ==> SlotOf(e) in p && p[SlotOf(e)] == e)
    && (forall i, j :: 0 <= i < j < |q| ==> Before(SlotOf(q[i]), SlotOf(q[j])))
    && (forall t :: t in p ==> p[t] in q)
  }

  lemma ListsCons(p: Pending, t: Slot, q: seq<DrmEvent>)
    requires ValidPending(p) && Least(p, t) && Lists(p - {t}, q)
    ensures Lists(p, [p[t]] + q)
  {
    var r := [p[t]] + q;
    forall i, j | 0 <= i < j < |r| ensures Before(SlotOf(r[i]), SlotOf(r[j])) {
      assert r[j] == q[j - 1] && q[j - 1] in q;
      assert i > 0 ==> r[i] == q[i - 1];
    }
    forall u | u in p ensures p[u] in r {
      assert u != t ==> (p - {t})[u] in q;
    }
  }

  lemma ListsHead(p: Pending, t: Slot, q: seq<DrmEvent>)
    requires ValidPending(p) && Least(p, t) && Lists(p, q)
    ensures q != [] && q[0] == p[t]
  {
    assert p[t] in q;
    var i :| 0 <= i < |q| && q[i] == p[t];
    assert q[0] in q;
    assert SlotOf(q[0]) == t || Before(t, SlotOf(q[0]));
    assert i > 0 ==> Before(SlotOf(q[0]), t);
  }

  lemma ListsTail(p: Pending, t: Slot, q: seq<DrmEvent>)
    requires ValidPending(p) && Least(p, t) && Lists(p, q)
    ensures q != [] && q[0] == p[t] && Lists(p - {t}, q[1..])
  {
    ListsHead(p, t, q);
    var r := q[1..];
    forall e | e in r ensures SlotOf(e) in p - {t} && p[SlotOf(e)] == e {
      var i :| 0 <= i < |r| && r[i] == e;
      assert e == q[i + 1] && e in q && Before(SlotOf(q[0]), SlotOf(q[i + 1]));
    }
    forall i, j | 0 <= i < j < |r| ensures Before(SlotOf(r[i]), SlotOf(r[j])) {
      assert r[i] == q[i + 1] && r[j] == q[j + 1];
    }
    forall u | u in p - {t} ensures p[u] in r {
      assert p[u] in q && SlotOf(p[u]) == u;
      assert q == [q[0]] + r;
    }
  }

  lemma {:induction false} DrainLists(p: Pending)
    requires ValidPending(p)
    ensures Lists(p, Drain(p)) && |Drain(p)| == |p|
    ensures var q := Drain(p);
            forall i, j :: 0 <= i < j < |q| ==>
              q[i].display < q[j].display || (q[i].display == q[j].display && q[i].kind < q[j].kind)
    decreases |p|
  {
    if p != map[] {
      var t := LeastOf(p);
      assert (p - {t}).Keys == p.Keys - {t};
      DrainLists(p - {t});
      ListsCons(p, t, Drain(p - {t}));
    }
  }

  lemma HeadIsIn(q: seq<DrmEvent>)
    requires q != []
    ensures q[0] in q
  {
  }

  /** There is only one such queue. */
  lemma {:induction false} ListsUnique(p: Pending, q: seq<DrmEvent>)
    requires ValidPending(p) && Lists(p, q)
    ensures q == Drain(p)
    decreases |p|
  {
    if p == map[] {
      if q != [] {
        HeadIsIn(q);
        assert false;
      }
    } else {
      var t := LeastOf(p);
      assert (p - {t}).Keys == p.Keys - {t};
      ListsTail(p, t, q);
      ListsUnique(p - {t}, q[1..]);
    }
  }
}
