/** The event worker's own state: the start flag and the nested map of pending events. */
module EventWorker {
  import opened EventQueue

  type Table = map<int, map<int, DrmEvent>>

  function Flatten(p: Table): Pending {
    map d, k | d in p && k in p[d] :: Slot(d, k) := p[d][k]
  }

  /** The slots of some of the displays, and of some kinds of one more. */
  ghost function Still(p: Table, displays: set<int>, d: int, kinds: set<int>): set<Slot> {
    set t | t in Flatten(p) && (t.display in displays || (t.display == d && t.kind in kinds))
  }

  lemma ListsSnoc(p: Pending, q: seq<DrmEvent>, left: set<Slot>, t: Slot)
    requires ValidPending(p) && t in left && left <= p.Keys && Lists(p - left, q)
    requires forall u :: u in p && u !in left ==> Before(u, t)
    ensures Lists(p - (left - {t}), q + [p[t]])
  {
    var r := q + [p[t]];
    forall i, j | 0 <= i < j < |r| ensures Before(SlotOf(r[i]), SlotOf(r[j])) {
      assert r[i] == q[i] && q[i] in q;
      assert j < |q| ==> r[j] == q[j];
    }
    forall u | u in p && u !in left - {t} ensures p[u] in r {
      assert u != t ==> (p - left)[u] in q;
    }
  }

  lemma FlattenAt(p: Table, t: Slot)
    ensures t in Flatten(p) <==> t.display in p && t.kind in p[t.display]
    ensures t in Flatten(p) ==> Flatten(p)[t] == p[t.display][t.kind]
  {
  }

  function Put(p: Table, e: DrmEvent): Table {
    var row := if e.display in p then p[e.display] else map[];
    p[e.display := row[e.kind := e]]
  }

  lemma PutAt(p: Table, e: DrmEvent, t: Slot)
    ensures t in Flatten(Put(p, e)) <==> t == SlotOf(e) || t in Flatten(p)
    ensures t in Flatten(Put(p, e)) ==> Flatten(Put(p, e))[t] == if t == SlotOf(e) then e else Flatten(p)[t]
  {
    hide Flatten;
    FlattenAt(Put(p, e), t);
    FlattenAt(p, t);
  }

  lemma FlattenPut(p: Table, e: DrmEvent)
    ensures Flatten(Put(p, e)) == Flatten(p)[SlotOf(e) := e]
  {
    hide Flatten, Put;
    forall t ensures t in Flatten(Put(p, e)) <==> t in Flatten(p)[SlotOf(e) := e] {
      PutAt(p, e, t);
    }
    forall t | t in Flatten(Put(p, e)) ensures Flatten(Put(p, e))[t] == Flatten(p)[SlotOf(e) := e][t] {
      PutAt(p, e, t);
    }
  }

  lemma StillAll(p: Table)
    ensures Flatten(p) - Still(p, p.Keys, 0, {}) == map[]
    ensures Flatten(p) - Still(p, {}, 0, {}) == Flatten(p)
  {
  }

  lemma EmptyLists()
    ensures Lists(map[], [])
  {
  }

  lemma FlattenEmpty()
    ensures Flatten(map[]) == map[]
  {
  }

  lemma StillRow(p: Table, displays: set<int>, d: int)
    requires d in displays && displays <= p.Keys
    ensures Still(p, displays, 0, {}) == Still(p, displays - {d}, d, p[d].Keys)
  {
  }

  lemma RowEnds(p: Table, displays: set<int>, d: int)
    ensures Still(p, displays, d, {}) == Still(p, displays, 0, {})
  {
  }

  /** Taking the smallest kind of the smallest display moves one event to the end of the queue. */
  lemma StillStep(p: Table, q: seq<DrmEvent>, displays: set<int>, d: int, kinds: set<int>, k: int)
    requires ValidPending(Flatten(p)) && d in p && d !in displays && kinds <= p[d].Keys && k in kinds
    requires forall c, x :: c in p && c !in displays && x in displays ==> c < x
    requires forall c :: c in p && c !in displays ==> c <= d
    requires forall x :: x in kinds ==> k <= x
    requires forall c, x :: c in p[d] && c !in kinds && x in kinds ==> c < x
    requires Lists(Flatten(p) - Still(p, displays, d, kinds), q)
    ensures Lists(Flatten(p) - Still(p, displays, d, kinds - {k}), q + [p[d][k]])
  {
    var v, left, t := Flatten(p), Still(p, displays, d, kinds), Slot(d, k);
    assert v[t] == p[d][k];
    forall u | u in v && u !in left ensures Before(u, t) {
      assert u.display in p && u.display <= d;
    }
    assert Still(p, displays, d, kinds - {k}) == left - {t};
    ListsSnoc(v, q, left, t);
  }

  lemma SmallestExists(s: set<int>) returns (m: int)
    requires s != {}
    ensures m in s && forall x :: x in s ==> m <= x
  {
    assert (forall x :: x !in s) ==> s == {};
    m :| m in s;
    var rest := s - {m};
    if rest != {} {
      var n := SmallestExists(rest);
      var least := if n < m then n else m;
      forall x | x in s ensures least <= x {
        assert x != m ==> x in rest;
      }
      m := least;
    } else {
      assert s == {m};
    }
  }

  method Smallest(s: set<int>) returns (m: int)
    requires s != {}
    ensures m in s && forall x :: x in s ==> m <= x
  {
    ghost var least := SmallestExists(s);
    m :| m in s && forall x :: x in s ==> m <= x;
  }

  class Worker {
    var canCallBack: bool
    var pending: Table

    /** The start flag is not initialised. */
    constructor (garbage: bool)
      ensures canCallBack == garbage && View() == map[] && Valid()
    {
      canCallBack, pending := garbage, map[];
    }

    ghost function View(): Pending
      reads `pending
    {
      Flatten(pending)
    }

    ghost predicate Valid()
      reads `pending
    {
      ValidPending(View())
    }

    method Start()
      modifies `canCallBack
      ensures canCallBack
    {
      canCallBack := true;
    }

    method SendDrmEvent(event: DrmEvent) returns (r: int)
      requires Valid()
      modifies `pending
      ensures Valid() && View() == Send(old(View()), event) && r == 0
    {
      var e := event;
      if e.display in pending {
        if e.kind in pending[e.display] {
          if pending[e.display][e.kind].connection != e.connection {
            e := e.(stateChange := true);
          }
        }
      }
      FlattenPut(pending, e);
      var row := if e.display in pending then pending[e.display] else map[];
      pending := pending[e.display := row[e.kind := e]];
      return 0;
    }

    /** Empties the pending map into a queue, display by display and type by type. */
    method TakePending() returns (queue: seq<DrmEvent>)
      requires Valid()
      modifies `pending
      ensures Valid() && View() == map[] && queue == Drain(old(View()))
    {
      hide Flatten, Still, Lists;
      ghost var v := View();
      StillAll(pending);
      EmptyLists();
      var displays := pending.Keys;
      queue := [];
      while displays != {}
        invariant displays <= pending.Keys && pending == old(pending)
        invariant forall d, x :: d in pending && d !in displays && x in displays ==> d < x
        invariant Lists(v - Still(pending, displays, 0, {}), queue)
      {
        var d := Smallest(displays);
        var kinds := pending[d].Keys;
        StillRow(pending, displays, d);
        displays := displays - {d};
        while kinds != {}
          invariant pending == old(pending) && kinds <= pending[d].Keys
          invariant forall k, x :: k in pending[d] && k !in kinds && x in kinds ==> k < x
          invariant Lists(v - Still(pending, displays, d, kinds), queue)
        {
          var k := Smallest(kinds);
          StillStep(pending, queue, displays, d, kinds, k);
          queue := queue + [pending[d][k]];
          kinds := kinds - {k};
        }
        RowEnds(pending, displays, d);
      }
      StillAll(pending);
      ListsUnique(v, queue);
      pending := map[];
      FlattenEmpty();
    }
  }
}
