/**
 * Which buffer a layer's current record is for. Records are found by key, and keys are buffer ids in one kind of
 * call and slots in the other, in the same table.
 */
module LayerAgreement {
  import opened FbCache
  import opened LayerCache
  import opened LayerCacheTheorems

  /** Records keep what they are for; only new ones appear. */
  ghost predicate Evolves(s: Store, t: Store) {
    && t.made >= s.made
    && forall r :: r in t.infos && r < s.made ==> r in s.infos && SameIdentity(s.infos[r], t.infos[r])
  }

  lemma EvolvesChains(s: Store, t: Store, u: Store)
    requires Evolves(s, t) && Evolves(t, u)
    ensures Evolves(s, u)
  {
  }

  lemma {:induction false} ReleaseAllEvolves(s: Store, table: map<nat, nat>)
    ensures Evolves(s, ReleaseAll(s, table))
    decreases |table|
  {
    if table != map[] {
      var k := Least(table.Keys);
      assert (table - {k}).Keys == table.Keys - {k};
      var s1 := Release(s, table[k]);
      assert Evolves(s, s1);
      ReleaseAllEvolves(s1, table - {k});
      EvolvesChains(s, s1, ReleaseAll(s1, table - {k}));
    }
  }

  lemma PutNewEvolves(s: Store, l: Layer, k: nat)
    ensures var (t, m) := PutNew(s, l, k);
            Evolves(s, t) && t.made == s.made + 1 && m == l.(table := l.table[k := s.made])
  {
  }

  lemma IdentifyEvolves(s: Store, u: Store, r: nat, id: nat, flag: bool)
    requires Evolves(s, u) && r >= s.made
    ensures var t := Identify(u, r, id, flag);
            && Evolves(s, t) && t.made == u.made
            && (r in t.infos ==> t.infos[r].bufferId == id && t.infos[r].flagged == flag)
  {
  }

  lemma InsertEvolves(s: Store, l: Layer, k: nat, id: nat)
    ensures var (t, m) := Insert(s, l, k, id);
            && Evolves(s, t) && m.current == Some(s.made) && m.table == l.table[k := s.made] && t.made == s.made + 1
            && (s.made in t.infos ==> t.infos[s.made].bufferId == id && t.infos[s.made].flagged)
  {
    hide PutNew, Identify, Evolves, Retain, Release;
    var (s1, l1) := PutNew(s, l, k);
    PutNewEvolves(s, l, k);
    SetCurrentEvolves(s1, l1, s.made);
    var (s2, l2) := SetCurrent(s1, l1, s.made);
    EvolvesChains(s, s1, s2);
    IdentifyEvolves(s, s2, s.made, id, true);
  }

  lemma SetCurrentEvolves(s: Store, l: Layer, r: nat)
    ensures Evolves(s, SetCurrent(s, l, r).0) && SetCurrent(s, l, r).0.made == s.made
  {
  }

  lemma SetCurrentNewEvolves(s: Store, l: Layer, id: nat, flag: bool)
    ensures Evolves(s, Identify(SetCurrentNew(s, l).0, s.made, id, flag))
  {
  }

  lemma LayerStepEvolves(s: Store, l: Layer, st: Step)
    requires TouchesLayer(st)
    ensures Evolves(s, LayerStep(s, l, st).0)
  {
    hide Evolves, Insert, MakeRoom, SetCurrent, SetCurrentNew, Identify, ReleaseAll, Release;
    match st
    case ById(_, id) =>
      if id in l.table {
        SetCurrentEvolves(s, l.(hasCache := true), l.table[id]);
      } else {
        MakeRoomEvolves(s, l);
        var (s1, l1) := MakeRoom(s, l);
        InsertEvolves(s1, l1, id, id);
        EvolvesChains(s, s1, Insert(s1, l1, id, id).0);
      }
    case BySlot(_, id, useCache, slot) =>
      if useCache && slot in l.table {
        SetCurrentEvolves(s, l, l.table[slot]);
      } else {
        InsertEvolves(s, l, slot, id);
      }
    case NoCache(_, id) =>
      ReleaseAllEvolves(s, l.table);
      var (s1, l1) := Clear(s, l.(hasCache := false));
      SetCurrentNewEvolves(s1, l1, id, true);
      EvolvesChains(s, s1, NoCacheBufferInfo(s, l, id).0);
    case Output(_, id) => SetCurrentNewEvolves(s, l, id, false);
    case Destroy(_) =>
      ReleaseAllEvolves(s, l.table);
      var s1 := ReleaseAll(s, l.table);
      if l.current.Some? {
        ReleaseEvolves(s1, l.current.value);
        EvolvesChains(s, s1, Release(s1, l.current.value));
      }
  }

  lemma ReleaseEvolves(s: Store, r: nat)
    ensures Evolves(s, Release(s, r))
  {
  }

  lemma MakeRoomEvolves(s: Store, l: Layer)
    ensures var (t, m) := MakeRoom(s, l);
            && Evolves(s, t)
            && (m.table == l.table || m.table == map[])
            && |m.table| <= MAX_NUM_BUFFER_SLOTS
  {
    ReleaseAllEvolves(s, l.table);
    var (s1, l1) := if l.hasCache then Clear(s, l.(hasCache := false)) else (s, l);
    ReleaseAllEvolves(s1, l1.table);
    EvolvesChains(s, s1, ReleaseAll(s1, l1.table));
    hide ReleaseAll;
  }

  // ---- What a caller can know -----------------------------------------------------------------

  /** The buffer id behind every key, from the layer's own calls, and whether one of them hit since the last reset. */
  datatype Known = Known(ids: map<nat, nat>, hit: bool)

  const NOTHING := Known(map[], false)

  function Roomed(k: Known): Known {
    var k1 := if k.hit then NOTHING else k;
    if |k1.ids| > MAX_NUM_BUFFER_SLOTS then k1.(ids := map[]) else k1
  }

  function Hits(k: Known, st: Step): bool {
    match st
    case ById(_, id) => id in k.ids
    case BySlot(_, _, useCache, slot) => useCache && slot in k.ids
    case _ => false
  }

  function Learn(k: Known, st: Step): Known
    requires TouchesLayer(st)
  {
    match st
    case ById(_, id) =>
      if id in k.ids then k.(hit := true) else var r := Roomed(k); r.(ids := r.ids[id := id])
    case BySlot(_, id, useCache, slot) =>
      if useCache && slot in k.ids then k else k.(ids := k.ids[slot := id])
    case NoCache(_, _) => NOTHING
    case Output(_, _) => k
    case Destroy(_) => NOTHING
  }

  /** The buffer id of the record that is current after the call. */
  function Shows(k: Known, st: Step): nat
    requires TouchesLayer(st) && !st.Destroy?
  {
    match st
    case ById(_, id) => if id in k.ids then k.ids[id] else id
    case BySlot(_, id, useCache, slot) => if useCache && slot in k.ids then k.ids[slot] else id
    case NoCache(_, id) => id
    case Output(_, id) => id
  }

  function Track(k: Known, steps: seq<Step>, i: nat): Known
    decreases |steps|
  {
    if steps == [] then k
    else Track(if TouchesLayer(steps[0]) && steps[0].i == i then Learn(k, steps[0]) else k, steps[1..], i)
  }

  // ---- It is what the layer has ---------------------------------------------------------------

  ghost predicate KnownRecord(s: Store, r: nat, id: nat) {
    r in s.infos && s.infos[r].bufferId == id && s.infos[r].flagged
  }

  ghost predicate Knows(s: Store, l: Layer, k: Known) {
    && l.table.Keys == k.ids.Keys && l.hasCache == k.hit
    && forall x :: x in l.table ==> KnownRecord(s, l.table[x], k.ids[x])
  }

  /** A record that a layer still holds stays what it was. */
  lemma RecordStays(s: Store, t: Store, m: Layer, x: nat, id: nat, rest: multiset<nat>, users: multiset<nat>)
    requires x in m.table && KnownRecord(s, m.table[x], id) && m.table[x] < s.made
    requires Evolves(s, t) && Balanced(t, Refs(m) + rest, users)
    ensures KnownRecord(t, m.table[x], id)
  {
    Entries(m.table, x);
    hide Balanced, TableRefs;
    assert m.table[x] in Refs(m) + rest;
    HeldIsAlive(t, Refs(m) + rest, users, m.table[x]);
  }

  lemma RecordsAreMade(s: Store, l: Layer, k: Known, held: multiset<nat>, users: multiset<nat>)
    requires Balanced(s, held, users) && Knows(s, l, k)
    ensures forall x :: x in l.table ==> l.table[x] < s.made
  {
  }

  lemma KnowsStays(s: Store, t: Store, l: Layer, m: Layer, k: Known, held: multiset<nat>, rest: multiset<nat>,
                   users: multiset<nat>, users': multiset<nat>)
    requires Knows(s, l, k) && Evolves(s, t) && Balanced(s, held, users) && Balanced(t, Refs(m) + rest, users')
    requires m.table == l.table && m.hasCache == l.hasCache
    ensures Knows(t, m, k)
  {
    RecordsAreMade(s, l, k, held, users);
    hide Balanced, Evolves, Refs;
    forall x | x in m.table ensures KnownRecord(t, m.table[x], k.ids[x]) {
      RecordStays(s, t, m, x, k.ids[x], rest, users');
    }
  }

  ghost predicate CurrentIs(s: Store, l: Layer, id: nat) {
    l.current.Some? && l.current.value in s.infos && s.infos[l.current.value].bufferId == id
  }

  lemma HitLearns(s: Store, l: Layer, k: Known, key: nat, hit: bool, rest: multiset<nat>, users: multiset<nat>)
    requires Balanced(s, Refs(l) + rest, users) && Knows(s, l, k) && key in l.table
    ensures var (t, m) := SetCurrent(s, l.(hasCache := hit), l.table[key]);
            Knows(t, m, k.(hit := hit)) && CurrentIs(t, m, k.ids[key])
  {
    Entries(l.table, key);
    var l1 := l.(hasCache := hit);
    assert Refs(l1) == Refs(l);
    SetCurrentBalanced(s, l1, l.table[key], rest, users);
    SetCurrentEvolves(s, l1, l.table[key]);
    var (t, m) := SetCurrent(s, l1, l.table[key]);
    KnowsStays(s, t, l1, m, k.(hit := hit), Refs(l) + rest, rest, users, users);
  }

  /** The new record under `key`, and the old ones under the other keys. */
  lemma InsertedRecords(s: Store, l: Layer, k: Known, key: nat, id: nat, rest: multiset<nat>, users: multiset<nat>)
    requires Balanced(s, Refs(l) + rest, users) && Knows(s, l, k)
    ensures var (t, m) := Insert(s, l, key, id);
            && KnownRecord(t, s.made, id)
            && forall x :: x in m.table && x != key ==> x in k.ids && KnownRecord(t, m.table[x], k.ids[x])
  {
    InsertBalanced(s, l, key, id, rest, users);
    InsertEvolves(s, l, key, id);
    RecordsAreMade(s, l, k, Refs(l) + rest, users);
    var (t, m) := Insert(s, l, key, id);
    Entries(m.table, key);
    assert forall x :: x in l.table ==> KnownRecord(s, l.table[x], k.ids[x]);
    hide Insert, Balanced, TableRefs, Evolves, Knows;
    assert s.made in Refs(m) + rest;
    HeldIsAlive(t, Refs(m) + rest, users, s.made);
    forall x | x in m.table && x != key ensures x in k.ids && KnownRecord(t, m.table[x], k.ids[x]) {
      hide Refs;
      RecordStays(s, t, m, x, k.ids[x], rest, users);
    }
  }

  lemma InsertLearns(s: Store, l: Layer, k: Known, key: nat, id: nat, rest: multiset<nat>, users: multiset<nat>)
    requires Balanced(s, Refs(l) + rest, users) && Knows(s, l, k)
    ensures var (t, m) := Insert(s, l, key, id);
            Knows(t, m, k.(ids := k.ids[key := id])) && CurrentIs(t, m, id)
  {
    InsertedRecords(s, l, k, key, id, rest, users);
    InsertEvolves(s, l, key, id);
    InsertKeepsFlag(s, l, key, id);
    var (t, m) := Insert(s, l, key, id);
    SameKeys(s, l, k);
    hide Insert, Balanced, Evolves, Refs, Knows;
    PutKnows(t, l, m, k, key, id, s.made);
  }

  lemma SameKeys(s: Store, l: Layer, k: Known)
    requires Knows(s, l, k)
    ensures l.table.Keys == k.ids.Keys && l.hasCache == k.hit
  {
  }

  lemma PutKnows(t: Store, l: Layer, m: Layer, k: Known, key: nat, id: nat, r: nat)
    requires l.table.Keys == k.ids.Keys && m.table == l.table[key := r] && m.hasCache == k.hit
    requires KnownRecord(t, r, id)
    requires forall x :: x in m.table && x != key ==> x in k.ids && KnownRecord(t, m.table[x], k.ids[x])
    ensures Knows(t, m, k.(ids := k.ids[key := id]))
  {
    assert m.table.Keys == l.table.Keys + {key} && k.ids[key := id].Keys == k.ids.Keys + {key};
  }

  lemma InsertKeepsFlag(s: Store, l: Layer, key: nat, id: nat)
    ensures Insert(s, l, key, id).1.hasCache == l.hasCache
  {
  }

  lemma RoomLearns(s: Store, l: Layer, k: Known, rest: multiset<nat>, users: multiset<nat>)
    requires Balanced(s, Refs(l) + rest, users) && Knows(s, l, k)
    ensures var (t, m) := MakeRoom(s, l);
            Knows(t, m, Roomed(k))
  {
    hide Balanced, MakeRoom, Refs, Evolves, KnownRecord;
    MakeRoomEvolves(s, l);
    MakeRoomBalanced(s, l, rest, users);
    var (t, m) := MakeRoom(s, l);
    SameKeys(s, l, k);
    assert |l.table| == |l.table.Keys| && |k.ids| == |k.ids.Keys|;
    MakeRoomTable(s, l);
    if m.table == l.table && m.hasCache == l.hasCache {
      KnowsStays(s, t, l, m, k, Refs(l) + rest, rest, users, users);
    }
  }

  lemma MakeRoomTable(s: Store, l: Layer)
    ensures var m := MakeRoom(s, l).1;
            !m.hasCache && m.table == if l.hasCache || |l.table| > MAX_NUM_BUFFER_SLOTS then map[] else l.table
  {
    hide ReleaseAll;
  }

  /**
   * Ids stay cached under their records, hit or miss, until 33 are held or a hit was followed by a miss: only
   * then a miss starts over with the new id alone.
   */
  lemma IdsStayCached(s: Store, l: Layer, id: nat)
    ensures var m := CacheBufferInfo(s, l, id).1;
            if id in l.table then m.table == l.table && m.hasCache
            else if l.hasCache || |l.table| >= 33 then m.table.Keys == {id} && !m.hasCache
            else m.table.Keys == l.table.Keys + {id} && !m.hasCache
                 && forall x :: x in l.table ==> m.table[x] == l.table[x]
  {
    hide MakeRoom, Insert, Evolves;
    if id !in l.table {
      MakeRoomTable(s, l);
      var (s1, l1) := MakeRoom(s, l);
      InsertEvolves(s1, l1, id, id);
      InsertKeepsFlag(s1, l1, id, id);
    }
  }

  lemma FreshLearns(s: Store, l: Layer, k: Known, id: nat, flag: bool, rest: multiset<nat>, users: multiset<nat>)
    requires Balanced(s, Refs(l) + rest, users) && Knows(s, l, k)
    ensures var (s1, m) := SetCurrentNew(s, l);
            var t := Identify(s1, s.made, id, flag);
            Knows(t, m, k) && CurrentIs(t, m, id)
  {
    SetCurrentNewBalanced(s, l, rest, users);
    SetCurrentNewEvolves(s, l, id, flag);
    var (s1, m) := SetCurrentNew(s, l);
    IdentifyBalanced(s1, Refs(m) + rest, users, s.made, id, flag);
    KnowsStays(s, Identify(s1, s.made, id, flag), l, m, k, Refs(l) + rest, rest, users, users);
    hide Balanced, Evolves, Knows, Refs;
  }

  lemma ClearLearns(s: Store, l: Layer, rest: multiset<nat>, users: multiset<nat>)
    requires Balanced(s, Refs(l) + rest, users)
    ensures var (t, m) := Clear(s, l.(hasCache := false));
            Balanced(t, Refs(m) + rest, users) && Knows(t, m, NOTHING)
  {
    assert Refs(l.(hasCache := false)) == Refs(l);
    ClearBalanced(s, l.(hasCache := false), rest, users);
    hide ReleaseAll, Balanced;
  }

  /** One call of a layer teaches its caller exactly what it did. */
  lemma LayerLearns(s: Store, l: Layer, k: Known, st: Step, rest: multiset<nat>, users: multiset<nat>)
    requires TouchesLayer(st) && Balanced(s, Refs(l) + rest, users) && Knows(s, l, k)
    ensures var (t, m) := LayerStep(s, l, st);
            Knows(t, m, Learn(k, st)) && (!st.Destroy? ==> CurrentIs(t, m, Shows(k, st)))
  {
    match st
    case ById(_, id) =>
      if id in l.table {
        HitLearns(s, l, k, id, true, rest, users);
      } else {
        RoomLearns(s, l, k, rest, users);
        MakeRoomBalanced(s, l, rest, users);
        var (s1, l1) := MakeRoom(s, l);
        hide Knows, Balanced, MakeRoom, Insert;
        InsertLearns(s1, l1, Roomed(k), id, id, rest, users);
      }
    case BySlot(_, id, useCache, slot) =>
      if useCache && slot in l.table {
        HitLearns(s, l, k, slot, l.hasCache, rest, users);
      } else {
        InsertLearns(s, l, k, slot, id, rest, users);
      }
    case NoCache(_, id) =>
      ClearLearns(s, l, rest, users);
      var (s1, l1) := Clear(s, l.(hasCache := false));
      FreshLearns(s1, l1, NOTHING, id, true, rest, users);
    case Output(_, id) => FreshLearns(s, l, k, id, false, rest, users);
    case Destroy(_) =>
  }

  lemma OtherStepEvolves(y: System, st: Step)
    requires Allowed(y, st) && !TouchesLayer(st)
    ensures Evolves(y.store, Next(y, st).store)
  {
    hide Get, Remove, DecLayer;
  }

  lemma StepLearns(y: System, st: Step, i: nat, k: Known)
    requires Conserved(y) && Allowed(y, st) && i < |y.layers| && Knows(y.store, y.layers[i], k)
    ensures var z := Next(y, st);
            && Conserved(z)
            && Knows(z.store, z.layers[i], if TouchesLayer(st) && st.i == i then Learn(k, st) else k)
            && (TouchesLayer(st) && st.i == i && !st.Destroy? ==> CurrentIs(z.store, z.layers[i], Shows(k, st)))
  {
    var z := Next(y, st);
    if TouchesLayer(st) && st.i == i {
      LayerStepConserves(y, st);
      OthersOf(y, i, z.layers[i]);
      hide Balanced, LayerStep, Knows, AllRefs, Refs;
      LayerLearns(y.store, y.layers[i], k, st, AllRefs(y.layers[..i]) + AllRefs(y.layers[i + 1..]) + y.copies, y.users);
    } else {
      AsideLearns(y, st, i, k);
    }
  }

  /** What others do leaves the layer's records as they are. */
  lemma AsideLearns(y: System, st: Step, i: nat, k: Known)
    requires Conserved(y) && Allowed(y, st) && i < |y.layers| && Knows(y.store, y.layers[i], k)
    requires !(TouchesLayer(st) && st.i == i)
    ensures Conserved(Next(y, st)) && Knows(Next(y, st).store, Next(y, st).layers[i], k)
  {
    var z := Next(y, st);
    if TouchesLayer(st) {
      LayerStepConserves(y, st);
      LayerStepEvolves(y.store, y.layers[st.i], st);
    } else {
      OtherStepConserves(y, st);
      OtherStepEvolves(y, st);
    }
    assert z.layers[i] == y.layers[i];
    OthersOf(z, i, z.layers[i]);
    var rest := AllRefs(z.layers[..i]) + AllRefs(z.layers[i + 1..]) + z.copies;
    hide Balanced, LayerStep, Knows, AllRefs, Refs, Evolves;
    KnowsStays(y.store, z.store, y.layers[i], z.layers[i], k, AllRefs(y.layers) + y.copies, rest, y.users, z.users);
  }

  lemma {:induction false} RunLearns(y: System, steps: seq<Step>, i: nat, k: Known)
    requires Conserved(y) && Runs(y, steps) && i < |y.layers| && Knows(y.store, y.layers[i], k)
    ensures Conserved(After(y, steps)) && Knows(After(y, steps).store, After(y, steps).layers[i], Track(k, steps, i))
    decreases |steps|
  {
    hide Conserved, Knows, Next, Allowed;
    if steps != [] {
      StepLearns(y, steps[0], i, k);
      var k1 := if TouchesLayer(steps[0]) && steps[0].i == i then Learn(k, steps[0]) else k;
      RunLearns(Next(y, steps[0]), steps[1..], i, k1);
    }
  }

  /**
   * Any mix of calls on any layers: after a call by id or by slot the current record is that of the buffer set
   * exactly when the key was not found, or was last set for the same buffer. What is behind a key is known from
   * the layer's own calls.
   */
  lemma CurrentAgreesExactly(n: nat, steps: seq<Step>, i: nat, st: Step)
    requires i < n && Runs(Fresh(n), steps) && TouchesLayer(st) && st.i == i && !st.Destroy?
    ensures var y, k := After(Fresh(n), steps), Track(NOTHING, steps, i);
            && Allowed(y, st)
            && var z := Next(y, st);
               && CurrentIs(z.store, z.layers[i], Shows(k, st))
               && (CurrentIs(z.store, z.layers[i], st.id)
                   <==> !Hits(k, st) || k.ids[if st.ById? then st.id else st.slot] == st.id)
  {
    FreshConserved(n);
    RunLearns(Fresh(n), steps, i, NOTHING);
    hide Conserved, Knows, Next, Runs, After;
    StepLearns(After(Fresh(n), steps), st, i, Track(NOTHING, steps, i));
  }

  // ---- Layers that are cached by buffer id only -----------------------------------------------

  predicate OnlyById(st: Step, i: nat) {
    TouchesLayer(st) && st.i == i ==> st.ById?
  }

  predicate KeyedById(k: Known) {
    |k.ids| <= MAX_NUM_BUFFER_SLOTS + 1 && forall x :: x in k.ids ==> k.ids[x] == x
  }

  lemma LearnsItsId(k: Known, i: nat, id: nat)
    requires KeyedById(k)
    ensures KeyedById(Learn(k, ById(i, id)))
  {
    var r := Roomed(k);
    assert |r.ids| <= MAX_NUM_BUFFER_SLOTS;
    CountPut(r.ids, id, id);
  }

  lemma CountPut(m: map<nat, nat>, k: nat, v: nat)
    ensures |m[k := v]| <= |m| + 1
  {
    assert m[k := v].Keys == m.Keys + {k};
    assert |m[k := v]| == |m[k := v].Keys| && |m| == |m.Keys|;
  }

  lemma {:induction false} IdOnlyKnown(k: Known, steps: seq<Step>, i: nat)
    requires KeyedById(k) && forall j :: 0 <= j < |steps| ==> OnlyById(steps[j], i)
    ensures KeyedById(Track(k, steps, i))
    decreases |steps|
  {
    hide KeyedById, Learn;
    if steps != [] {
      if TouchesLayer(steps[0]) && steps[0].i == i {
        LearnsItsId(k, i, steps[0].id);
        IdOnlyKnown(Learn(k, steps[0]), steps[1..], i);
      } else {
        IdOnlyKnown(k, steps[1..], i);
      }
    }
  }

  lemma KeyedTable(s: Store, l: Layer, k: Known)
    requires Knows(s, l, k) && KeyedById(k)
    ensures |l.table| <= 33 && forall x :: x in l.table ==> KnownRecord(s, l.table[x], x)
  {
    assert |l.table| == |l.table.Keys| && |k.ids| == |k.ids.Keys|;
  }

  lemma AllowedById(y: System, i: nat, id: nat)
    ensures Allowed(y, ById(i, id)) <==> i < |y.layers|
  {
  }

  /**
   * A layer cached by buffer id alone, whatever the others do: each of its at most 33 keys is the id its record
   * was made for, and right after caching a buffer the current record is that buffer's.
   */
  lemma CurrentIsTheBufferSet(n: nat, steps: seq<Step>, i: nat, id: nat)
    requires i < n && Runs(Fresh(n), steps)
    requires forall j :: 0 <= j < |steps| ==> OnlyById(steps[j], i)
    ensures Allowed(After(Fresh(n), steps), ById(i, id))
    ensures var z := Next(After(Fresh(n), steps), ById(i, id));
            && |z.layers[i].table| <= 33
            && (forall k :: k in z.layers[i].table ==> KnownRecord(z.store, z.layers[i].table[k], k))
            && CurrentIs(z.store, z.layers[i], id)
  {
    var y, k, st := After(Fresh(n), steps), Track(NOTHING, steps, i), ById(i, id);
    AllowedById(y, i, id);
    FreshConserved(n);
    RunLearns(Fresh(n), steps, i, NOTHING);
    IdOnlyKnown(NOTHING, steps, i);
    LearnsItsId(k, i, id);
    hide Next, Runs, After, Conserved, Knows, Allowed, Track, Learn;
    StepLearns(y, st, i, k);
    var z := Next(y, st);
    KeyedTable(z.store, z.layers[i], Learn(k, st));
  }

  /** Slots and ids share one table: a slot entry can be found under a buffer id, and then is the wrong record. */
  lemma SlotsCanBeMistakenForIds()
    ensures var (s, l) := CacheBufferInfoBySlot(Store(map[], 0, EMPTY), NEW_LAYER, 9, false, 5);
            var (t, m) := CacheBufferInfo(s, l, 5);
            CurrentIs(t, m, 9)
  {
    var s0 := Store(map[], 0, EMPTY);
    assert s0.infos[0 := Info(0, false, 1)][0 := Info(0, false, 2)] == map[0 := Info(0, false, 2)];
  }
}
