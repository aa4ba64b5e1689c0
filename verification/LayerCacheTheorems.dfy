/** Runs over any number of layers, composition copies and frame buffer users. */
module LayerCacheTheorems {
  import opened FbCache
  import opened LayerCache

  /** `copies` are the references that composition holds; `users` those holding frame buffers. */
  datatype System = System(store: Store, layers: seq<Layer>, copies: multiset<nat>, users: multiset<nat>)

  datatype Step =
    | ById(i: nat, id: nat)
    | BySlot(i: nat, id: nat, useCache: bool, slot: nat)
    | NoCache(i: nat, id: nat)
    | Output(i: nat, id: nat)
    | Destroy(i: nat)
    | Copy(i: nat)
    | DropCopy(r: nat)
    | GetFb(buffer: nat, info: int, imported: Import)
    | RemoveFb(fb: nat)

  predicate TouchesLayer(st: Step) {
    st.ById? || st.BySlot? || st.NoCache? || st.Output? || st.Destroy?
  }

  ghost predicate Allowed(y: System, st: Step) {
    && (TouchesLayer(st) || st.Copy? ==> st.i < |y.layers|)
    && (st.Copy? ==> y.layers[st.i].current.Some?)
    && (st.DropCopy? ==> st.r in y.copies)
    && (st.GetFb? ==> if st.imported.Imported? then st.imported.fb !in y.store.fb.kernel else st.imported.error != 0)
    && (st.RemoveFb? ==> st.fb in y.users)
  }

  ghost function DestroyLayer(s: Store, l: Layer): (Store, Layer) {
    var (s1, l1) := Clear(s, l);
    (if l.current.Some? then Release(s1, l.current.value) else s1, NEW_LAYER)
  }

  ghost function LayerStep(s: Store, l: Layer, st: Step): (Store, Layer)
    requires TouchesLayer(st)
  {
    match st
    case ById(_, id) => CacheBufferInfo(s, l, id)
    case BySlot(_, id, useCache, slot) => CacheBufferInfoBySlot(s, l, id, useCache, slot)
    case NoCache(_, id) => NoCacheBufferInfo(s, l, id)
    case Output(_, id) => SetOutputBuffer(s, l, id)
    case Destroy(_) => DestroyLayer(s, l)
  }

  ghost function Next(y: System, st: Step): (z: System)
    requires Allowed(y, st)
    ensures |z.layers| == |y.layers|
  {
    if TouchesLayer(st) then
      var (s, l) := LayerStep(y.store, y.layers[st.i], st);
      y.(store := s, layers := y.layers[st.i := l])
    else match st
      case Copy(i) =>
        var r := y.layers[i].current.value;
        y.(store := Retain(y.store, r), copies := y.copies + multiset{r})
      case DropCopy(r) => y.(store := Release(y.store, r), copies := y.copies - multiset{r})
      case GetFb(b, info, imported) =>
        var (fb, ret, got) := Get(y.store.fb, b, info, imported);
        y.(store := y.store.(fb := fb), users := if ret == 0 then y.users + multiset{got} else y.users)
      case RemoveFb(fb) => y.(store := y.store.(fb := Remove(y.store.fb, fb).0), users := y.users - multiset{fb})
  }

  ghost function AllRefs(layers: seq<Layer>): multiset<nat> {
    if layers == [] then multiset{} else Refs(layers[0]) + AllRefs(layers[1..])
  }

  lemma {:induction false} AllRefsSplit(layers: seq<Layer>, i: nat)
    requires i < |layers|
    ensures AllRefs(layers) == Refs(layers[i]) + (AllRefs(layers[..i]) + AllRefs(layers[i + 1..]))
  {
    hide Refs;
    if i == 0 {
      assert layers[..0] == [];
    } else {
      AllRefsSplit(layers[1..], i - 1);
      assert layers[..i][0] == layers[0] && layers[1..][..i - 1] == layers[..i][1..];
      assert layers[1..][i..] == layers[i + 1..];
    }
  }

  ghost predicate Conserved(y: System) {
    Balanced(y.store, AllRefs(y.layers) + y.copies, y.users)
  }

  lemma CurrentDropped(s: Store, l: Layer, rest: multiset<nat>, users: multiset<nat>)
    requires Balanced(s, CurrentRef(l) + rest, users)
    ensures Balanced(if l.current.Some? then Release(s, l.current.value) else s, rest, users)
  {
    hide Balanced, Release;
    if l.current.Some? {
      var c := l.current.value;
      assert c in CurrentRef(l) + rest;
      ReleaseBalanced(s, CurrentRef(l) + rest, users, c);
      assert CurrentRef(l) + rest - multiset{c} == rest;
    } else {
      assert CurrentRef(l) + rest == rest;
    }
  }

  lemma BareRefs(l: Layer, rest: multiset<nat>)
    requires l.table == map[]
    ensures Refs(l) + rest == CurrentRef(l) + rest
    ensures l.current.None? ==> Refs(l) + rest == rest
  {
  }

  lemma DestroyLayerBalanced(s: Store, l: Layer, rest: multiset<nat>, users: multiset<nat>)
    requires Balanced(s, Refs(l) + rest, users)
    ensures Balanced(DestroyLayer(s, l).0, Refs(NEW_LAYER) + rest, users)
  {
    ClearBalanced(s, l, rest, users);
    var (s1, l1) := Clear(s, l);
    BareRefs(l1, rest);
    BareRefs(NEW_LAYER, rest);
    hide Balanced, Refs, Release;
    CurrentDropped(s1, l1, rest, users);
  }

  lemma LayerStepBalanced(s: Store, l: Layer, st: Step, rest: multiset<nat>, users: multiset<nat>)
    requires TouchesLayer(st) && Balanced(s, Refs(l) + rest, users)
    ensures var (t, m) := LayerStep(s, l, st);
            Balanced(t, Refs(m) + rest, users)
  {
    match st
    case ById(_, id) => CacheBufferInfoBalanced(s, l, id, rest, users);
    case BySlot(_, id, useCache, slot) => CacheBufferInfoBySlotBalanced(s, l, id, useCache, slot, rest, users);
    case NoCache(_, id) => NoCacheBufferInfoBalanced(s, l, id, rest, users);
    case Output(_, id) => SetOutputBufferBalanced(s, l, id, rest, users);
    case Destroy(_) => DestroyLayerBalanced(s, l, rest, users);
  }

  lemma OthersOf(y: System, i: nat, l: Layer)
    requires i < |y.layers|
    ensures var rest := AllRefs(y.layers[..i]) + AllRefs(y.layers[i + 1..]) + y.copies;
            && AllRefs(y.layers) + y.copies == Refs(y.layers[i]) + rest
            && AllRefs(y.layers[i := l]) + y.copies == Refs(l) + rest
  {
    AllRefsSplit(y.layers, i);
    AllRefsSplit(y.layers[i := l], i);
    assert y.layers[i := l][..i] == y.layers[..i];
    assert y.layers[i := l][i + 1..] == y.layers[i + 1..];
    hide AllRefs, Refs;
  }

  lemma LayerStepConserves(y: System, st: Step)
    requires Conserved(y) && TouchesLayer(st) && Allowed(y, st)
    ensures Conserved(Next(y, st))
  {
    var i := st.i;
    var rest := AllRefs(y.layers[..i]) + AllRefs(y.layers[i + 1..]) + y.copies;
    var (s, l) := LayerStep(y.store, y.layers[i], st);
    OthersOf(y, i, l);
    LayerStepBalanced(y.store, y.layers[i], st, rest, y.users);
    hide Balanced, LayerStep, AllRefs, Refs;
  }

  lemma FbBalanced(s: Store, held: multiset<nat>, users: multiset<nat>, fb: Cache, users': multiset<nat>)
    requires Balanced(s, held, users) && Sound(fb, users') && forall b :: LayersOf(fb, b) == LayersOf(s.fb, b)
    ensures Balanced(s.(fb := fb), held, users')
  {
    hide Sound, LayersOf;
  }

  lemma FbIsSound(s: Store, held: multiset<nat>, users: multiset<nat>)
    requires Balanced(s, held, users)
    ensures Sound(s.fb, users)
  {
  }

  lemma OtherStepConserves(y: System, st: Step)
    requires Conserved(y) && !TouchesLayer(st) && Allowed(y, st)
    ensures Conserved(Next(y, st))
  {
    hide Balanced, Sound, AllRefs, TableRefs, Get, Remove, Retain, Release;
    var held := AllRefs(y.layers) + y.copies;
    FbIsSound(y.store, held, y.users);
    match st
    case Copy(i) =>
      var r := y.layers[i].current.value;
      AllRefsSplit(y.layers, i);
      assert r in CurrentRef(y.layers[i]) && r in held;
      HeldIsAlive(y.store, held, y.users, r);
      RetainBalanced(y.store, held, y.users, r);
      assert held + multiset{r} == AllRefs(y.layers) + (y.copies + multiset{r});
    case DropCopy(r) =>
      ReleaseBalanced(y.store, held, y.users, r);
      assert held - multiset{r} == AllRefs(y.layers) + (y.copies - multiset{r});
    case GetFb(b, info, imported) =>
      GetSound(y.store.fb, y.users, b, info, imported);
      var (fb, ret, got) := Get(y.store.fb, b, info, imported);
      FbBalanced(y.store, held, y.users, fb, if ret == 0 then y.users + multiset{got} else y.users);
    case RemoveFb(fb) =>
      RemoveSound(y.store.fb, y.users, fb);
      FbBalanced(y.store, held, y.users, Remove(y.store.fb, fb).0, y.users - multiset{fb});
  }

  ghost predicate Runs(y: System, steps: seq<Step>)
    decreases |steps|
  {
    steps == [] || (Allowed(y, steps[0]) && Runs(Next(y, steps[0]), steps[1..]))
  }

  ghost function After(y: System, steps: seq<Step>): (z: System)
    requires Runs(y, steps)
    ensures |z.layers| == |y.layers|
    decreases |steps|
  {
    if steps == [] then y else After(Next(y, steps[0]), steps[1..])
  }

  lemma {:induction false} RunConserves(y: System, steps: seq<Step>)
    requires Conserved(y) && Runs(y, steps)
    ensures Conserved(After(y, steps))
    decreases |steps|
  {
    hide Conserved;
    if steps != [] {
      if TouchesLayer(steps[0]) {
        LayerStepConserves(y, steps[0]);
      } else {
        OtherStepConserves(y, steps[0]);
      }
      RunConserves(Next(y, steps[0]), steps[1..]);
    }
  }

  function Fresh(n: nat): System {
    System(Store(map[], 0, EMPTY), seq(n, _ => NEW_LAYER), multiset{}, multiset{})
  }

  lemma {:induction false} NoRefs(layers: seq<Layer>)
    requires forall i :: 0 <= i < |layers| ==> layers[i] == NEW_LAYER
    ensures AllRefs(layers) == multiset{}
  {
    if layers != [] {
      NoRefs(layers[1..]);
    }
  }

  lemma FreshConserved(n: nat)
    ensures Conserved(Fresh(n))
  {
    NoRefs(Fresh(n).layers);
    forall b ensures Flagged(map[], b) == {} {
    }
  }

  /**
   * Over any run on any number of layers: a buffer's layer count is the number of flagged records alive for it,
   * every record alive is held, and a frame buffer lives exactly while it has a user or its buffer such a record.
   */
  lemma LayerCountsAreExact(n: nat, steps: seq<Step>, b: nat, fb: nat)
    requires Runs(Fresh(n), steps)
    ensures var y := After(Fresh(n), steps);
            && LayersOf(y.store.fb, b) == |Flagged(y.store.infos, b)|
            && (forall r :: r in y.store.infos <==> r in AllRefs(y.layers) + y.copies)
            && (fb in y.store.fb.kernel <==>
                  fb in y.store.fb.owner && (fb in y.users || Flagged(y.store.infos, y.store.fb.owner[fb]) != {}))
  {
    FreshConserved(n);
    RunConserves(Fresh(n), steps);
    var y := After(Fresh(n), steps);
    AliveWhileNeeded(y.store.fb, y.users, fb);
    hide Sound, Flagged, LayersOf;
  }
}
