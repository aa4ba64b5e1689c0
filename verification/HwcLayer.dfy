/** The layer cache and the frame buffer cache as the code runs them, in place. */
module HwcLayer {
  import opened FbCache
  import opened LayerCache

  method LeastKey(keys: set<nat>) returns (k: nat)
    requires keys != {}
    ensures k == Least(keys)
  {
    ghost var least := LeastExists(keys);
    k :| k in keys && forall x :: x in keys ==> k <= x;
    LeastUnique(keys, k);
  }

  class DrmGralloc {
    var entries: map<nat, Entry>
    var owner: map<nat, nat>
    var kernel: set<nat>

    constructor ()
      ensures View() == EMPTY
    {
      entries, owner, kernel := map[], map[], {};
    }

    function View(): Cache
      reads this
    {
      Cache(entries, owner, kernel)
    }

    method AddLayerRefCount(b: nat)
      modifies this
      ensures View() == AddLayer(old(View()), b)
    {
      if b !in entries {
        entries := entries[b := Entry(0, map[])];
      }
      entries := entries[b := entries[b].(layers := entries[b].layers + 1)];
    }

    /** With the last layer go the frame buffers nobody uses, and the entry if none is left. */
    method DecLayerRefCount(b: nat) returns (r: int)
      modifies this
      ensures (View(), r) == DecLayer(old(View()), b)
    {
      if b !in entries {
        return -1;
      }
      var e := entries[b].(layers := entries[b].layers - 1);
      entries := entries[b := e];
      if e.layers == 0 {
        var gone := Unused(e.fbs);
        var todo := gone;
        assert e.fbs - (gone - todo) == e.fbs;
        assert entries == old(entries)[b := e.(fbs := e.fbs - (gone - todo))];
        while todo != {}
          invariant todo <= gone <= e.fbs.Keys && b in entries
          invariant entries == old(entries)[b := e.(fbs := e.fbs - (gone - todo))]
          invariant owner == old(owner) - (gone - todo) && kernel == old(kernel) - (gone - todo)
        {
          var fb := LeastKey(todo);
          assert gone - (todo - {fb}) == gone - todo + {fb};
          assert e.fbs - (gone - todo) - {fb} == e.fbs - (gone - (todo - {fb}));
          assert old(owner) - (gone - todo) - {fb} == old(owner) - (gone - (todo - {fb}));
          kernel := kernel - {fb};
          entries := entries[b := entries[b].(fbs := entries[b].fbs - {fb})];
          owner := owner - {fb};
          todo := todo - {fb};
        }
        assert gone - {} == gone;
        if entries[b].fbs == map[] {
          entries := entries - {b};
          assert entries == old(entries) - {b};
        }
      }
      return 0;
    }

    /** Looks for a frame buffer with the same parameters, and asks the kernel for one when there is none. */
    method FbIdGetAndCached(b: nat, info: int, imported: Import) returns (r: int, fb: nat)
      requires forall c :: c in entries ==> OneMatch(entries[c].fbs)
      modifies this
      ensures (View(), r, fb) == Get(old(View()), b, info, imported)
    {
      if b == 0 {
        return -1, 0;
      }
      if b !in entries {
        entries := entries[b := Entry(0, map[])];
      }
      var e := entries[b];
      assert e.fbs == FbsOf(old(View()), b) && e.layers == LayersOf(old(View()), b);
      var todo := e.fbs.Keys;
      while todo != {}
        invariant todo <= e.fbs.Keys && entries == old(entries)[b := e] && owner == old(owner) && kernel == old(kernel)
        invariant forall f :: f in e.fbs && f !in todo ==> e.fbs[f].info != info
      {
        var f := LeastKey(todo);
        if e.fbs[f].info == info {
          assert Matches(e.fbs, info, f);
          assert OneMatch(e.fbs);
          assert HasMatch(FbsOf(old(View()), b), info);
          assert f == Match(e.fbs, info);
          entries := entries[b := e.(fbs := e.fbs[f := e.fbs[f].(refs := e.fbs[f].refs + 1)])];
          assert entries == old(entries)[b := Entry(e.layers, e.fbs[f := e.fbs[f].(refs := e.fbs[f].refs + 1)])];
          return 0, f;
        }
        todo := todo - {f};
      }
      assert !HasMatch(e.fbs, info);
      match imported {
        case Refused(error) => return error, 0;
        case Imported(f) =>
          kernel := kernel + {f};
          entries := entries[b := e.(fbs := e.fbs[f := Fb(info, 1)])];
          owner := owner[f := b];
          assert entries == old(entries)[b := Entry(e.layers, e.fbs[f := Fb(info, 1)])];
          return 0, f;
      }
    }

    method FbIdRmCache(fb: nat) returns (r: int)
      modifies this
      ensures (View(), r) == Remove(old(View()), fb)
    {
      if fb !in owner {
        return -1;
      }
      var b := owner[fb];
      if b !in entries {
        return -1;
      }
      if fb !in entries[b].fbs {
        return -1;
      }
      var e := entries[b];
      var f := e.fbs[fb].(refs := e.fbs[fb].refs - 1);
      if f.refs == 0 && e.layers == 0 {
        kernel := kernel - {fb};
        entries := entries[b := e.(fbs := e.fbs - {fb})];
        owner := owner - {fb};
        if entries[b].fbs == map[] {
          entries := entries - {b};
          assert entries == old(entries) - {b};
        }
      } else {
        entries := entries[b := e.(fbs := e.fbs[fb := f])];
      }
      return 0;
    }
  }

  /** The shared records and their pointer counts. */
  class LayerInfos {
    const gralloc: DrmGralloc
    var infos: map<nat, Info>
    var made: nat

    constructor (gralloc: DrmGralloc)
      ensures this.gralloc == gralloc && infos == map[] && made == 0
    {
      this.gralloc, infos, made := gralloc, map[], 0;
    }

    function View(): Store
      reads this, gralloc
    {
      Store(infos, made, gralloc.View())
    }

    method MakeShared() returns (r: nat)
      modifies this
      ensures View() == New(old(View())) && r == old(made)
    {
      r := made;
      infos := infos[r := Info(0, false, 1)];
      made := made + 1;
    }

    method AddRef(r: nat)
      modifies this
      ensures View() == Retain(old(View()), r)
    {
      if r in infos {
        infos := infos[r := infos[r].(uses := infos[r].uses + 1)];
      }
    }

    /** The last release runs the destructor. */
    method Drop(r: nat)
      modifies this, gralloc
      ensures View() == Release(old(View()), r)
    {
      if r in infos {
        var o := infos[r];
        if o.uses > 1 {
          infos := infos[r := o.(uses := o.uses - 1)];
        } else {
          infos := infos - {r};
          if o.flagged {
            var _ := gralloc.DecLayerRefCount(o.bufferId);
          }
        }
      }
    }

    method Describe(r: nat, id: nat, flag: bool)
      modifies this, gralloc
      ensures View() == Identify(old(View()), r, id, flag)
    {
      if r in infos {
        infos := infos[r := infos[r].(bufferId := id, flagged := flag)];
        if flag {
          gralloc.AddLayerRefCount(id);
        }
      }
    }
  }

  class Hwc2Layer {
    const store: LayerInfos
    var table: map<nat, nat>
    var current: Option<nat>
    var hasCache: bool

    constructor (store: LayerInfos)
      ensures this.store == store && View() == NEW_LAYER
    {
      this.store, table, current, hasCache := store, map[], None, false;
    }

    function View(): Layer
      reads this
    {
      Layer(table, current, hasCache)
    }

    method SetCurrentInfo(r: nat)
      modifies `current, store, store.gralloc
      ensures (store.View(), View()) == SetCurrent(old(store.View()), old(View()), r)
    {
      store.AddRef(r);
      if current.Some? {
        store.Drop(current.value);
      }
      current := Some(r);
    }

    method SetNewInfo() returns (r: nat)
      modifies `current, store, store.gralloc
      ensures (store.View(), View()) == SetCurrentNew(old(store.View()), old(View())) && r == old(store.made)
    {
      r := store.MakeShared();
      if current.Some? {
        store.Drop(current.value);
      }
      current := Some(r);
    }

    /** The entries are released in the order of their keys. */
    method ClearTable()
      modifies `table, store, store.gralloc
      ensures (store.View(), View()) == Clear(old(store.View()), old(View()))
    {
      while table != map[]
        invariant current == old(current) && hasCache == old(hasCache)
        invariant ReleaseAll(store.View(), table) == ReleaseAll(old(store.View()), old(table))
        decreases |table|
      {
        var k := LeastKey(table.Keys);
        assert (table - {k}).Keys == table.Keys - {k};
        store.Drop(table[k]);
        table := table - {k};
      }
    }

    method InsertInfo(k: nat, id: nat)
      modifies `table, `current, store, store.gralloc
      ensures (store.View(), View()) == Insert(old(store.View()), old(View()), k, id)
    {
      hide Release, Identify;
      var r := store.MakeShared();
      if k in table {
        store.Drop(table[k]);
      }
      table := table[k := r];
      SetCurrentInfo(r);
      store.Describe(r, id, true);
    }

    method CacheBufferInfo(id: nat)
      modifies this, store, store.gralloc
      ensures (store.View(), View()) == LayerCache.CacheBufferInfo(old(store.View()), old(View()), id)
    {
      hide ReleaseAll, SetCurrent, Insert;
      if id !in table {
        if hasCache {
          ClearTable();
          hasCache := false;
        }
        if |table| > MAX_NUM_BUFFER_SLOTS {
          ClearTable();
        }
        InsertInfo(id, id);
      } else {
        hasCache := true;
        SetCurrentInfo(table[id]);
      }
    }

    method CacheBufferInfoBySlot(id: nat, useCache: bool, slot: nat)
      modifies this, store, store.gralloc
      ensures (store.View(), View()) == LayerCache.CacheBufferInfoBySlot(old(store.View()), old(View()), id,
              useCache, slot)
    {
      if useCache && slot in table {
        SetCurrentInfo(table[slot]);
        return;
      }
      InsertInfo(slot, id);
    }

    method NoCacheBufferInfo(id: nat)
      modifies this, store, store.gralloc
      ensures (store.View(), View()) == LayerCache.NoCacheBufferInfo(old(store.View()), old(View()), id)
    {
      hide ReleaseAll, SetCurrentNew;
      ClearTable();
      hasCache := false;
      var r := SetNewInfo();
      store.Describe(r, id, true);
    }

    method SetOutputBuffer(id: nat)
      modifies this, store, store.gralloc
      ensures (store.View(), View()) == LayerCache.SetOutputBuffer(old(store.View()), old(View()), id)
    {
      hide SetCurrentNew;
      var r := SetNewInfo();
      store.Describe(r, id, false);
    }
  }
}
