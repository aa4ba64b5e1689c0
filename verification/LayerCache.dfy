/**
 * What a layer remembers of its buffers: shared records that are destroyed, and their layer count dropped, with the
 * last holder.
 */
module LayerCache {
  import opened FbCache

  datatype Option<T> = None | Some(value: T)

  const MAX_NUM_BUFFER_SLOTS := 32

  /** A LayerInfoCache and its shared-pointer count. */
  datatype Info = Info(bufferId: nat, flagged: bool, uses: nat)

  /** All records alive, by identity. */
  datatype Store = Store(infos: map<nat, Info>, made: nat, fb: Cache)

  datatype Layer = Layer(table: map<nat, nat>, current: Option<nat>, hasCache: bool)

  const NEW_LAYER := Layer(map[], None, false)

  // ---- Shared pointers ------------------------------------------------------------------------

  /** A new record with one holder; its identity is the old `made`. */
  function New(s: Store): Store {
    s.(infos := s.infos[s.made := Info(0, false, 1)], made := s.made + 1)
  }

  function Retain(s: Store, r: nat): Store {
    if r !in s.infos then s else s.(infos := s.infos[r := s.infos[r].(uses := s.infos[r].uses + 1)])
  }

  /** The last release destroys the record, and a flagged one stops counting for its buffer. */
  function Release(s: Store, r: nat): Store {
    if r !in s.infos then s
    else
      var o := s.infos[r];
      if o.uses > 1 then s.(infos := s.infos[r := o.(uses := o.uses - 1)])
      else s.(infos := s.infos - {r}, fb := if o.flagged then DecLayer(s.fb, o.bufferId).0 else s.fb)
  }

  /** The record is for this buffer; flagging it counts it for the buffer. */
  function Identify(s: Store, r: nat, id: nat, flag: bool): Store {
    if r !in s.infos then s
    else
      s.(infos := s.infos[r := s.infos[r].(bufferId := id, flagged := flag)],
         fb := if flag then AddLayer(s.fb, id) else s.fb)
  }

  // ---- Balance --------------------------------------------------------------------------------

  function Flagged(infos: map<nat, Info>, b: nat): set<nat> {
    set r | r in infos && infos[r].flagged && infos[r].bufferId == b
  }

  /**
   * Every record alive is held as often as its pointer count says, and a buffer's layer count is the number of
   * flagged records alive for it.
   */
  ghost predicate Balanced(s: Store, held: multiset<nat>, users: multiset<nat>) {
    && Sound(s.fb, users)
    && (forall r :: r in s.infos ==> r < s.made && s.infos[r].uses == held[r] > 0)
    && (forall r :: r in held ==> r in s.infos)
    && (forall b :: LayersOf(s.fb, b) == |Flagged(s.infos, b)|)
  }

  lemma NewBalanced(s: Store, held: multiset<nat>, users: multiset<nat>)
    requires Balanced(s, held, users)
    ensures Balanced(New(s), held + multiset{s.made}, users)
  {
    forall b ensures Flagged(New(s).infos, b) == Flagged(s.infos, b) {
    }
  }

  lemma RetainBalanced(s: Store, held: multiset<nat>, users: multiset<nat>, r: nat)
    requires Balanced(s, held, users) && r in s.infos
    ensures Balanced(Retain(s, r), held + multiset{r}, users)
  {
    forall b ensures Flagged(Retain(s, r).infos, b) == Flagged(s.infos, b) {
    }
  }

  lemma DestroyCounts(s: Store, r: nat, users: multiset<nat>)
    requires r in s.infos && Sound(s.fb, users)
    requires forall b :: LayersOf(s.fb, b) == |Flagged(s.infos, b)|
    ensures var o := s.infos[r];
            var fb := if o.flagged then DecLayer(s.fb, o.bufferId).0 else s.fb;
            && Sound(fb, users)
            && (o.flagged ==> DecLayer(s.fb, o.bufferId).1 == 0)
            && forall b :: LayersOf(fb, b) == |Flagged(s.infos - {r}, b)|
  {
    var o := s.infos[r];
    forall b ensures Flagged(s.infos - {r}, b) == Flagged(s.infos, b) - {r} {
    }
    if o.flagged {
      assert r in Flagged(s.infos, o.bufferId);
      DecLayerSound(s.fb, users, o.bufferId);
    }
    hide Sound, LayersOf;
    forall b
      ensures |Flagged(s.infos - {r}, b)| == |Flagged(s.infos, b)| - if o.flagged && o.bufferId == b then 1 else 0
    {
      assert Flagged(s.infos - {r}, b) == Flagged(s.infos, b) - {r};
      assert r in Flagged(s.infos, b) <==> o.flagged && o.bufferId == b;
    }
  }

  lemma ReleaseBalanced(s: Store, held: multiset<nat>, users: multiset<nat>, r: nat)
    requires Balanced(s, held, users) && r in held
    ensures r in s.infos && s.infos[r].uses > 0 && Balanced(Release(s, r), held - multiset{r}, users)
  {
    var t := Release(s, r);
    if s.infos[r].uses > 1 {
      forall b ensures Flagged(t.infos, b) == Flagged(s.infos, b) {
      }
    } else {
      DestroyCounts(s, r, users);
    }
    hide Sound, LayersOf, Flagged;
  }

  lemma IdentifyBalanced(s: Store, held: multiset<nat>, users: multiset<nat>, r: nat, id: nat, flag: bool)
    requires Balanced(s, held, users) && r in s.infos && !s.infos[r].flagged
    ensures Balanced(Identify(s, r, id, flag), held, users)
  {
    hide Sound, LayersOf;
    var t := Identify(s, r, id, flag);
    if flag {
      AddLayerSound(s.fb, users, id);
    }
    forall b ensures |Flagged(t.infos, b)| == |Flagged(s.infos, b)| + if flag && b == id then 1 else 0 {
      assert r !in Flagged(s.infos, b);
      assert Flagged(t.infos, b) == Flagged(s.infos, b) + if flag && b == id then {r} else {};
    }
  }

  // ---- Tables ---------------------------------------------------------------------------------

  ghost predicate IsLeast(keys: set<nat>, k: nat) {
    k in keys && forall x :: x in keys ==> k <= x
  }

  lemma {:induction false} LeastExists(keys: set<nat>) returns (k: nat)
    requires keys != {}
    ensures IsLeast(keys, k)
    decreases |keys|
  {
    assert (forall x :: x !in keys) ==> keys == {};
    k :| k in keys;
    var rest := keys - {k};
    assert forall x :: x in keys && x != k ==> x in rest;
    if rest != {} {
      var j := LeastExists(rest);
      k := if j < k then j else k;
    }
  }

  ghost function Least(keys: set<nat>): (k: nat)
    requires keys != {}
    ensures IsLeast(keys, k)
  {
    assert exists k :: IsLeast(keys, k) by {
      var k := LeastExists(keys);
    }
    var k :| IsLeast(keys, k);
    k
  }

  lemma LeastUnique(keys: set<nat>, k: nat)
    requires IsLeast(keys, k)
    ensures k == Least(keys)
  {
  }

  ghost function ReleaseAll(s: Store, table: map<nat, nat>): Store
    decreases |table|
  {
    if table == map[] then s
    else
      var k := Least(table.Keys);
      assert (table - {k}).Keys == table.Keys - {k};
      ReleaseAll(Release(s, table[k]), table - {k})
  }

  /** The references a table holds. */
  ghost function TableRefs(table: map<nat, nat>): multiset<nat>
    decreases |table|
  {
    if table == map[] then multiset{}
    else
      var k := Least(table.Keys);
      assert (table - {k}).Keys == table.Keys - {k};
      TableRefs(table - {k}) + multiset{table[k]}
  }

  lemma TableRefsUnfold(table: map<nat, nat>)
    requires table != map[]
    ensures var k := Least(table.Keys);
            && k in table && |table - {k}| < |table|
            && TableRefs(table) == TableRefs(table - {k}) + multiset{table[k]}
  {
    var k := Least(table.Keys);
    assert (table - {k}).Keys == table.Keys - {k};
  }

  lemma WithoutBoth(table: map<nat, nat>, j: nat, k: nat)
    requires j in table && k in table && j != k
    ensures table - {j} - {k} == table - {k} - {j}
    ensures (table - {k}).Keys == table.Keys - {k} && (table - {j})[k] == table[k] && (table - {k})[j] == table[j]
  {
  }

  lemma {:induction false} TableRefsWithout(table: map<nat, nat>, k: nat)
    requires k in table
    ensures TableRefs(table) == TableRefs(table - {k}) + multiset{table[k]}
    decreases |table|
  {
    TableRefsUnfold(table);
    hide TableRefs, Least;
    var j := Least(table.Keys);
    if j != k {
      WithoutBoth(table, j, k);
      assert |table - {k}| < |table|;
      TableRefsWithout(table - {j}, k);
      TableRefsWithout(table - {k}, j);
      var both := TableRefs(table - {j} - {k});
      assert TableRefs(table) == both + multiset{table[k]} + multiset{table[j]};
    }
  }

  lemma TableRefsWith(table: map<nat, nat>, k: nat, r: nat)
    requires k !in table
    ensures TableRefs(table[k := r]) == TableRefs(table) + multiset{r}
  {
    TableRefsWithout(table[k := r], k);
    assert table[k := r] - {k} == table;
  }

  lemma WithoutReplaced(table: map<nat, nat>, k: nat, r: nat)
    ensures table[k := r] - {k} == table - {k}
  {
  }

  lemma TableRefsReplaced(table: map<nat, nat>, k: nat, r: nat)
    requires k in table
    ensures TableRefs(table[k := r]) == TableRefs(table) - multiset{table[k]} + multiset{r}
    ensures table[k] in TableRefs(table)
  {
    var replaced := table[k := r];
    TableRefsWithout(replaced, k);
    TableRefsWithout(table, k);
    WithoutReplaced(table, k, r);
    hide TableRefs;
    var rest := TableRefs(table - {k});
    assert TableRefs(replaced) == rest + multiset{r};
    assert TableRefs(table) == rest + multiset{table[k]};
  }

  lemma Entries(table: map<nat, nat>, k: nat)
    requires k in table
    ensures table[k] in TableRefs(table)
  {
    TableRefsWithout(table, k);
  }

  lemma {:induction false} ReleaseAllBalanced(s: Store, table: map<nat, nat>, rest: multiset<nat>, users: multiset<nat>)
    requires Balanced(s, TableRefs(table) + rest, users)
    ensures Balanced(ReleaseAll(s, table), rest, users)
    ensures forall r :: r in rest ==>
            r in ReleaseAll(s, table).infos && r in s.infos && SameIdentity(s.infos[r], ReleaseAll(s, table).infos[r])
    ensures ReleaseAll(s, table).made == s.made
    decreases |table|
  {
    hide Balanced, Release;
    if table == map[] {
      assert TableRefs(table) + rest == rest;
      forall r | r in rest ensures r in s.infos {
        HeldIsAlive(s, rest, users, r);
      }
    } else {
      var k := Least(table.Keys);
      TableRefsUnfold(table);
      var held := TableRefs(table) + rest;
      assert held - multiset{table[k]} == TableRefs(table - {k}) + rest;
      assert table[k] in held;
      ReleaseBalanced(s, held, users, table[k]);
      ReleaseKeeps(s, table[k]);
      ReleaseAllBalanced(Release(s, table[k]), table - {k}, rest, users);
    }
  }

  lemma HeldIsAlive(s: Store, held: multiset<nat>, users: multiset<nat>, r: nat)
    requires Balanced(s, held, users) && r in held
    ensures r in s.infos
  {
  }

  lemma ReleaseKeeps(s: Store, r: nat)
    ensures Release(s, r).made == s.made
    ensures forall x :: x in Release(s, r).infos ==> x in s.infos && SameIdentity(s.infos[x], Release(s, r).infos[x])
  {
  }

  predicate SameIdentity(a: Info, b: Info) {
    a.bufferId == b.bufferId && a.flagged == b.flagged
  }

  // ---- Operations of a layer ------------------------------------------------------------------

  /** `pBufferInfo_ = r`, for a record that somebody holds already. */
  function SetCurrent(s: Store, l: Layer, r: nat): (Store, Layer) {
    var s1 := Retain(s, r);
    (if l.current.Some? then Release(s1, l.current.value) else s1, l.(current := Some(r)))
  }

  /** `pBufferInfo_ = make_shared<LayerInfoCache>()`. */
  function SetCurrentNew(s: Store, l: Layer): (Store, Layer) {
    var s1 := New(s);
    (if l.current.Some? then Release(s1, l.current.value) else s1, l.(current := Some(s.made)))
  }

  ghost function Clear(s: Store, l: Layer): (Store, Layer) {
    (ReleaseAll(s, l.table), l.(table := map[]))
  }

  /** A new record under key `k`; what was there is released. */
  function PutNew(s: Store, l: Layer, k: nat): (Store, Layer) {
    var s1 := New(s);
    (if k in l.table then Release(s1, l.table[k]) else s1, l.(table := l.table[k := s.made]))
  }

  /** A miss: make room, then a new record for the buffer. */
  ghost function Insert(s: Store, l: Layer, k: nat, id: nat): (Store, Layer) {
    var (s1, l1) := PutNew(s, l, k);
    var (s2, l2) := SetCurrent(s1, l1, s.made);
    (Identify(s2, s.made, id, true), l2)
  }

  ghost function MakeRoom(s: Store, l: Layer): (Store, Layer) {
    var (s1, l1) := if l.hasCache then Clear(s, l.(hasCache := false)) else (s, l);
    if |l1.table| > MAX_NUM_BUFFER_SLOTS then Clear(s1, l1) else (s1, l1)
  }

  ghost function CacheBufferInfo(s: Store, l: Layer, id: nat): (Store, Layer) {
    if id in l.table then SetCurrent(s, l.(hasCache := true), l.table[id])
    else
      var (s1, l1) := MakeRoom(s, l);
      Insert(s1, l1, id, id)
  }

  ghost function CacheBufferInfoBySlot(s: Store, l: Layer, id: nat, useCache: bool, slot: nat): (Store, Layer) {
    if useCache && slot in l.table then SetCurrent(s, l, l.table[slot]) else Insert(s, l, slot, id)
  }

  ghost function NoCacheBufferInfo(s: Store, l: Layer, id: nat): (Store, Layer) {
    var (s1, l1) := Clear(s, l.(hasCache := false));
    var (s2, l2) := SetCurrentNew(s1, l1);
    (Identify(s2, s1.made, id, true), l2)
  }

  /** The output buffer of a virtual display: its record is never flagged. */
  function SetOutputBuffer(s: Store, l: Layer, id: nat): (Store, Layer) {
    var (s1, l1) := SetCurrentNew(s, l);
    (Identify(s1, s.made, id, false), l1)
  }

  // ---- Each keeps the balance -----------------------------------------------------------------

  function CurrentRef(l: Layer): multiset<nat> {
    if l.current.Some? then multiset{l.current.value} else multiset{}
  }

  ghost function Refs(l: Layer): multiset<nat> {
    TableRefs(l.table) + CurrentRef(l)
  }

  /** Dropping the reference the layer's current pointer held before. */
  lemma DropOld(s: Store, l: Layer, held: multiset<nat>, users: multiset<nat>, r: nat)
    requires Balanced(s, held + multiset{r}, users) && CurrentRef(l) <= held
    ensures var t := if l.current.Some? then Release(s, l.current.value) else s;
            && Balanced(t, held - CurrentRef(l) + multiset{r}, users) && t.made == s.made
            && r in s.infos && r in t.infos && SameIdentity(s.infos[r], t.infos[r])
  {
    HeldIsAlive(s, held + multiset{r}, users, r);
    if l.current.Some? {
      var c := l.current.value;
      assert c in CurrentRef(l) && c in held;
      ReleaseBalanced(s, held + multiset{r}, users, c);
      assert held + multiset{r} - multiset{c} == held - CurrentRef(l) + multiset{r};
      HeldIsAlive(Release(s, c), held - CurrentRef(l) + multiset{r}, users, r);
    } else {
      assert held - CurrentRef(l) == held;
    }
    hide Balanced;
  }

  lemma RefsWithCurrent(l: Layer, r: nat, rest: multiset<nat>)
    ensures Refs(l) + rest - CurrentRef(l) + multiset{r} == Refs(l.(current := Some(r))) + rest
    ensures CurrentRef(l) <= Refs(l) + rest
  {
    hide TableRefs;
  }

  lemma SetCurrentBalanced(s: Store, l: Layer, r: nat, rest: multiset<nat>, users: multiset<nat>)
    requires Balanced(s, Refs(l) + rest, users) && r in TableRefs(l.table)
    ensures var (t, m) := SetCurrent(s, l, r);
            && Balanced(t, Refs(m) + rest, users) && t.made == s.made
            && r in s.infos && r in t.infos && SameIdentity(s.infos[r], t.infos[r])
  {
    var held := Refs(l) + rest;
    HeldIsAlive(s, held, users, r);
    RetainBalanced(s, held, users, r);
    RefsWithCurrent(l, r, rest);
    DropOld(Retain(s, r), l, held, users, r);
    hide Balanced, TableRefs;
  }

  lemma SetCurrentNewBalanced(s: Store, l: Layer, rest: multiset<nat>, users: multiset<nat>)
    requires Balanced(s, Refs(l) + rest, users)
    ensures var (t, m) := SetCurrentNew(s, l);
            && Balanced(t, Refs(m) + rest, users)
            && s.made in t.infos && !t.infos[s.made].flagged
  {
    var held := Refs(l) + rest;
    NewBalanced(s, held, users);
    RefsWithCurrent(l, s.made, rest);
    DropOld(New(s), l, held, users, s.made);
    hide Balanced, TableRefs;
  }

  lemma ClearBalanced(s: Store, l: Layer, rest: multiset<nat>, users: multiset<nat>)
    requires Balanced(s, Refs(l) + rest, users)
    ensures var (t, m) := Clear(s, l);
            Balanced(t, Refs(m) + rest, users) && t.made == s.made
  {
    assert Refs(l) + rest == TableRefs(l.table) + (CurrentRef(l) + rest);
    ReleaseAllBalanced(s, l.table, CurrentRef(l) + rest, users);
    assert TableRefs(map[]) + CurrentRef(l) + rest == CurrentRef(l) + rest;
  }

  /** The reference that goes when an entry is put under `k`. */
  function Gone(table: map<nat, nat>, k: nat): multiset<nat> {
    if k in table then multiset{table[k]} else multiset{}
  }

  lemma TableRefsPut(table: map<nat, nat>, k: nat, r: nat)
    ensures TableRefs(table[k := r]) == TableRefs(table) - Gone(table, k) + multiset{r}
    ensures Gone(table, k) <= TableRefs(table)
  {
    hide TableRefs;
    if k in table {
      TableRefsReplaced(table, k, r);
    } else {
      TableRefsWith(table, k, r);
    }
  }

  lemma RefsWithEntry(l: Layer, k: nat, r: nat, rest: multiset<nat>)
    ensures var m := l.(table := l.table[k := r]);
            && Refs(m) + rest == Refs(l) + rest - Gone(l.table, k) + multiset{r}
            && Gone(l.table, k) <= Refs(l) + rest
            && r in TableRefs(m.table)
  {
    TableRefsPut(l.table, k, r);
    MoveRef(TableRefs(l.table), CurrentRef(l), rest, Gone(l.table, k), r);
    var m := l.(table := l.table[k := r]);
    assert CurrentRef(m) == CurrentRef(l);
    hide TableRefs, CurrentRef, Gone;
  }

  lemma MoveRef(a: multiset<nat>, b: multiset<nat>, c: multiset<nat>, gone: multiset<nat>, r: nat)
    requires gone <= a
    ensures (a - gone + multiset{r}) + b + c == a + b + c - gone + multiset{r}
    ensures gone <= a + b + c
    ensures r in a - gone + multiset{r}
  {
  }

  lemma PutNewBalanced(s: Store, l: Layer, k: nat, rest: multiset<nat>, users: multiset<nat>)
    requires Balanced(s, Refs(l) + rest, users)
    ensures var (t, m) := PutNew(s, l, k);
            && Balanced(t, Refs(m) + rest, users)
            && s.made in TableRefs(m.table) && s.made in t.infos && !t.infos[s.made].flagged
  {
    var held := Refs(l) + rest;
    NewBalanced(s, held, users);
    RefsWithEntry(l, k, s.made, rest);
    var (t, m) := PutNew(s, l, k);
    var dropped := Layer(map[], if k in l.table then Some(l.table[k]) else None, false);
    DropOld(New(s), dropped, held, users, s.made);
    hide Balanced, TableRefs, Refs;
  }

  lemma InsertBalanced(s: Store, l: Layer, k: nat, id: nat, rest: multiset<nat>, users: multiset<nat>)
    requires Balanced(s, Refs(l) + rest, users)
    ensures var (t, m) := Insert(s, l, k, id);
            Balanced(t, Refs(m) + rest, users)
  {
    PutNewBalanced(s, l, k, rest, users);
    var (s1, l1) := PutNew(s, l, k);
    SetCurrentBalanced(s1, l1, s.made, rest, users);
    var (s2, l2) := SetCurrent(s1, l1, s.made);
    IdentifyBalanced(s2, Refs(l2) + rest, users, s.made, id, true);
  }

  lemma CacheBufferInfoBalanced(s: Store, l: Layer, id: nat, rest: multiset<nat>, users: multiset<nat>)
    requires Balanced(s, Refs(l) + rest, users)
    ensures var (t, m) := CacheBufferInfo(s, l, id);
            Balanced(t, Refs(m) + rest, users)
  {
    if id in l.table {
      Entries(l.table, id);
      SetCurrentBalanced(s, l.(hasCache := true), l.table[id], rest, users);
    } else {
      MakeRoomBalanced(s, l, rest, users);
      var (s1, l1) := MakeRoom(s, l);
      InsertBalanced(s1, l1, id, id, rest, users);
    }
  }

  lemma MakeRoomBalanced(s: Store, l: Layer, rest: multiset<nat>, users: multiset<nat>)
    requires Balanced(s, Refs(l) + rest, users)
    ensures var (t, m) := MakeRoom(s, l);
            Balanced(t, Refs(m) + rest, users)
  {
    assert Refs(l.(hasCache := false)) == Refs(l);
    hide Balanced, Refs, Clear;
    var (s1, l1) := if l.hasCache then Clear(s, l.(hasCache := false)) else (s, l);
    if l.hasCache {
      ClearBalanced(s, l.(hasCache := false), rest, users);
    }
    if |l1.table| > MAX_NUM_BUFFER_SLOTS {
      ClearBalanced(s1, l1, rest, users);
    }
  }

  lemma CacheBufferInfoBySlotBalanced(s: Store, l: Layer, id: nat, useCache: bool, slot: nat, rest: multiset<nat>,
      users: multiset<nat>)
    requires Balanced(s, Refs(l) + rest, users)
    ensures var (t, m) := CacheBufferInfoBySlot(s, l, id, useCache, slot);
            Balanced(t, Refs(m) + rest, users)
  {
    if useCache && slot in l.table {
      Entries(l.table, slot);
      SetCurrentBalanced(s, l, l.table[slot], rest, users);
    } else {
      InsertBalanced(s, l, slot, id, rest, users);
    }
  }

  lemma NoCacheBufferInfoBalanced(s: Store, l: Layer, id: nat, rest: multiset<nat>, users: multiset<nat>)
    requires Balanced(s, Refs(l) + rest, users)
    ensures var (t, m) := NoCacheBufferInfo(s, l, id);
            Balanced(t, Refs(m) + rest, users)
  {
    ClearBalanced(s, l.(hasCache := false), rest, users);
    var (s1, l1) := Clear(s, l.(hasCache := false));
    SetCurrentNewBalanced(s1, l1, rest, users);
    var (s2, l2) := SetCurrentNew(s1, l1);
    IdentifyBalanced(s2, Refs(l2) + rest, users, s1.made, id, true);
  }

  lemma SetOutputBufferBalanced(s: Store, l: Layer, id: nat, rest: multiset<nat>, users: multiset<nat>)
    requires Balanced(s, Refs(l) + rest, users)
    ensures var (t, m) := SetOutputBuffer(s, l, id);
            Balanced(t, Refs(m) + rest, users)
  {
    SetCurrentNewBalanced(s, l, rest, users);
    var (s1, l1) := SetCurrentNew(s, l);
    IdentifyBalanced(s1, Refs(l1) + rest, users, s.made, id, false);
  }
}
