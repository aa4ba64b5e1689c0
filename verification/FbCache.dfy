/** Kernel frame buffers shared by their users, and kept alive by the layers that cache their buffer. */
module FbCache {
  datatype Fb = Fb(info: int, refs: int)

  datatype Entry = Entry(layers: int, fbs: map<nat, Fb>)

  /** `kernel` is the set of frame buffers the kernel has for this process. */
  datatype Cache = Cache(entries: map<nat, Entry>, owner: map<nat, nat>, kernel: set<nat>)

  datatype Import = Imported(fb: nat) | Refused(error: int)

  const EMPTY := Cache(map[], map[], {})

  function LayersOf(s: Cache, b: nat): int {
    if b in s.entries then s.entries[b].layers else 0
  }

  function FbsOf(s: Cache, b: nat): map<nat, Fb> {
    if b in s.entries then s.entries[b].fbs else map[]
  }

  // ---- Operations on values -------------------------------------------------------------------

  function AddLayer(s: Cache, b: nat): Cache {
    s.(entries := s.entries[b := Entry(LayersOf(s, b) + 1, FbsOf(s, b))])
  }

  function Unused(fbs: map<nat, Fb>): set<nat> {
    set fb | fb in fbs && fbs[fb].refs == 0
  }

  /** Frame buffers without users go with the last layer; an entry without frame buffers goes too. */
  function DecLayer(s: Cache, b: nat): (Cache, int) {
    if b !in s.entries then (s, -1)
    else
      var e := s.entries[b].(layers := s.entries[b].layers - 1);
      if e.layers != 0 then (s.(entries := s.entries[b := e]), 0)
      else
        var gone := Unused(e.fbs);
        var left := e.fbs - gone;
        (Cache(if left == map[] then s.entries - {b} else s.entries[b := e.(fbs := left)],
               s.owner - gone, s.kernel - gone), 0)
  }

  predicate Matches(fbs: map<nat, Fb>, info: int, fb: nat) {
    fb in fbs && fbs[fb].info == info
  }

  ghost predicate HasMatch(fbs: map<nat, Fb>, info: int) {
    exists fb :: Matches(fbs, info, fb)
  }

  /** The matching frame buffer is unique in a sound cache. */
  ghost function Match(fbs: map<nat, Fb>, info: int): (fb: nat)
    requires HasMatch(fbs, info)
    ensures Matches(fbs, info, fb)
  {
    var fb :| Matches(fbs, info, fb);
    fb
  }

  /** `imported` is the kernel's answer, should it be asked. */
  ghost function Get(s: Cache, b: nat, info: int, imported: Import): (Cache, int, nat) {
    if b == 0 then (s, -1, 0)
    else
      var fbs := FbsOf(s, b);
      if HasMatch(fbs, info) then
        var fb := Match(fbs, info);
        (s.(entries := s.entries[b := Entry(LayersOf(s, b), fbs[fb := fbs[fb].(refs := fbs[fb].refs + 1)])]), 0, fb)
      else match imported
        case Refused(error) => (s.(entries := s.entries[b := Entry(LayersOf(s, b), fbs)]), error, 0)
        case Imported(fb) =>
          (Cache(s.entries[b := Entry(LayersOf(s, b), fbs[fb := Fb(info, 1)])], s.owner[fb := b], s.kernel + {fb}),
            0, fb)
  }

  function Remove(s: Cache, fb: nat): (Cache, int) {
    if fb !in s.owner then (s, -1)
    else
      var b := s.owner[fb];
      if b !in s.entries || fb !in s.entries[b].fbs then (s, -1)
      else
        var e := s.entries[b];
        var f := e.fbs[fb].(refs := e.fbs[fb].refs - 1);
        if f.refs == 0 && e.layers == 0 then
          var left := e.fbs - {fb};
          (Cache(if left == map[] then s.entries - {b} else s.entries[b := e.(fbs := left)],
                 s.owner - {fb}, s.kernel - {fb}), 0)
        else (s.(entries := s.entries[b := e.(fbs := e.fbs[fb := f])]), 0)
  }

  // ---- Soundness ------------------------------------------------------------------------------

  /** The two tables agree with each other and with the kernel. */
  ghost predicate TablesAgree(s: Cache) {
    && s.owner.Keys == s.kernel
    && (forall fb :: fb in s.owner ==> fb in FbsOf(s, s.owner[fb]))
    && (forall b, fb :: b in s.entries && fb in s.entries[b].fbs ==> fb in s.owner && s.owner[fb] == b)
  }

  ghost predicate OneMatch(fbs: map<nat, Fb>) {
    forall f, g :: f in fbs && g in fbs && fbs[f].info == fbs[g].info ==> f == g
  }

  /** Counts are the users', nothing unused and unreferenced is kept. */
  ghost predicate CountsAgree(s: Cache, users: multiset<nat>) {
    && (forall fb :: fb in users ==> fb in s.owner)
    && (forall b :: b in s.entries ==> s.entries[b].layers >= 0 && OneMatch(s.entries[b].fbs))
    && (forall b, fb :: b in s.entries && fb in s.entries[b].fbs ==>
          && s.entries[b].fbs[fb].refs == users[fb]
          && (s.entries[b].layers > 0 || users[fb] > 0))
  }

  ghost predicate Sound(s: Cache, users: multiset<nat>) {
    TablesAgree(s) && CountsAgree(s, users)
  }

  /** `t` differs from `s` in buffer `b` alone, where it has entry `e`, or none when `e` is bare. */
  ghost predicate Changed(s: Cache, t: Cache, b: nat, e: Entry) {
    && (t.entries == s.entries[b := e] || (e.fbs == map[] && e.layers == 0 && t.entries == s.entries - {b}))
    && t.owner.Keys == t.kernel
    && (forall fb :: fb in e.fbs ==> fb in FbsOf(s, b) || fb !in s.owner)
    && (forall fb :: fb in t.owner ==>
      if fb in e.fbs then t.owner[fb] == b else fb in s.owner && t.owner[fb] == s.owner[fb] && s.owner[fb] != b)
    && (forall fb :: fb in e.fbs ==> fb in t.owner)
    && (forall fb :: fb in s.owner && s.owner[fb] != b ==> fb in t.owner)
  }

  ghost predicate EntryAgrees(e: Entry, users: multiset<nat>) {
    && e.layers >= 0 && OneMatch(e.fbs)
    && forall fb :: fb in e.fbs ==> e.fbs[fb].refs == users[fb] && (e.layers > 0 || users[fb] > 0)
  }

  lemma ChangedTables(s: Cache, t: Cache, b: nat, e: Entry)
    requires TablesAgree(s) && Changed(s, t, b, e)
    ensures TablesAgree(t)
    ensures forall c :: LayersOf(t, c) == if c == b then e.layers else LayersOf(s, c)
  {
    forall fb | fb in t.owner ensures fb in FbsOf(t, t.owner[fb]) {
      assert fb !in e.fbs ==> fb in FbsOf(s, s.owner[fb]);
    }
    forall c, fb | c in t.entries && fb in t.entries[c].fbs ensures fb in t.owner && t.owner[fb] == c {
      if c != b {
        assert c in s.entries && t.entries[c] == s.entries[c];
        assert s.owner[fb] == c;
        assert fb in e.fbs ==> fb in FbsOf(s, b);
      }
    }
  }

  lemma ChangedCounts(s: Cache, t: Cache, b: nat, e: Entry, users: multiset<nat>, users': multiset<nat>)
    requires Sound(s, users) && Changed(s, t, b, e) && EntryAgrees(e, users')
    requires forall fb :: fb in s.owner && s.owner[fb] != b ==> users'[fb] == users[fb]
    requires forall fb :: fb in users' ==> fb in t.owner
    ensures CountsAgree(t, users')
  {
    forall c, fb | c in t.entries && fb in t.entries[c].fbs
      ensures t.entries[c].fbs[fb].refs == users'[fb] && (t.entries[c].layers > 0 || users'[fb] > 0)
    {
      if c != b {
        assert c in s.entries && t.entries[c] == s.entries[c];
        assert fb in s.owner && s.owner[fb] == c;
      }
    }
    forall c | c in t.entries ensures t.entries[c].layers >= 0 && OneMatch(t.entries[c].fbs) {
      if c != b {
        assert c in s.entries && t.entries[c] == s.entries[c];
      }
    }
  }

  lemma ChangedSound(s: Cache, t: Cache, b: nat, e: Entry, users: multiset<nat>, users': multiset<nat>)
    requires Sound(s, users) && Changed(s, t, b, e) && EntryAgrees(e, users')
    requires forall fb :: fb in s.owner && s.owner[fb] != b ==> users'[fb] == users[fb]
    requires forall fb :: fb in users' ==> fb in t.owner
    ensures Sound(t, users')
    ensures forall c :: LayersOf(t, c) == if c == b then e.layers else LayersOf(s, c)
  {
    ChangedTables(s, t, b, e);
    ChangedCounts(s, t, b, e, users, users');
  }

  /** The entry of a buffer, present or not. */
  function EntryOf(s: Cache, b: nat): Entry {
    Entry(LayersOf(s, b), FbsOf(s, b))
  }

  lemma EntryOfAgrees(s: Cache, users: multiset<nat>, b: nat)
    requires Sound(s, users)
    ensures EntryAgrees(EntryOf(s, b), users)
    ensures forall fb :: fb in FbsOf(s, b) <==> fb in s.owner && s.owner[fb] == b
  {
  }

  /** Giving one frame buffer of an entry a new user, or taking one away. */
  lemma EntryAgreesPut(e: Entry, users: multiset<nat>, fb: nat, f: Fb, users': multiset<nat>)
    requires EntryAgrees(e, users) && f.refs == users'[fb]
    requires forall x :: x != fb ==> users'[x] == users[x]
    requires e.layers > 0 || f.refs > 0
    requires if fb in e.fbs then e.fbs[fb].info == f.info else !HasMatch(e.fbs, f.info)
    ensures EntryAgrees(e.(fbs := e.fbs[fb := f]), users')
  {
    assert forall x :: x in e.fbs ==> (e.fbs[x].info == f.info <==> Matches(e.fbs, f.info, x));
  }

  lemma EntryAgreesDrop(e: Entry, users: multiset<nat>, fb: nat, users': multiset<nat>)
    requires EntryAgrees(e, users)
    requires forall x :: x != fb ==> users'[x] == users[x]
    ensures EntryAgrees(e.(fbs := e.fbs - {fb}), users')
  {
  }

  lemma AddLayerSound(s: Cache, users: multiset<nat>, b: nat)
    requires Sound(s, users)
    ensures Sound(AddLayer(s, b), users)
    ensures forall c :: LayersOf(AddLayer(s, b), c) == LayersOf(s, c) + if c == b then 1 else 0
  {
    EntryOfAgrees(s, users, b);
    ChangedSound(s, AddLayer(s, b), b, Entry(LayersOf(s, b) + 1, FbsOf(s, b)), users, users);
  }

  function Demoted(e: Entry): Entry {
    if e.layers - 1 != 0 then e.(layers := e.layers - 1) else Entry(0, e.fbs - Unused(e.fbs))
  }

  lemma DecLayerChanges(s: Cache, b: nat)
    requires TablesAgree(s) && b in s.entries
    ensures Changed(s, DecLayer(s, b).0, b, Demoted(s.entries[b]))
    ensures DecLayer(s, b).1 == 0
    ensures forall x :: x in s.owner && (s.owner[x] != b || x in Demoted(s.entries[b]).fbs) ==>
            x in DecLayer(s, b).0.owner
  {
    assert forall x :: x in s.entries[b].fbs <==> x in s.owner && s.owner[x] == b;
  }

  lemma DecLayerSound(s: Cache, users: multiset<nat>, b: nat)
    requires Sound(s, users) && LayersOf(s, b) > 0
    ensures Sound(DecLayer(s, b).0, users) && DecLayer(s, b).1 == 0
    ensures forall c :: LayersOf(DecLayer(s, b).0, c) == LayersOf(s, c) - if c == b then 1 else 0
  {
    EntryOfAgrees(s, users, b);
    var e := s.entries[b];
    assert forall x :: x in users ==> x in s.owner && (s.owner[x] == b ==> x in e.fbs && e.fbs[x].refs > 0);
    DecLayerChanges(s, b);
    hide TablesAgree, CountsAgree, Changed, DecLayer;
    assert EntryAgrees(Demoted(e), users);
    ChangedSound(s, DecLayer(s, b).0, b, Demoted(e), users, users);
  }

  /** A buffer without layers and frame buffers has no entry after a decrease or a removal; after a `Get` it has one. */
  lemma EntriesComeAndGo(s: Cache, b: nat, fb: nat, info: int, imported: Import)
    ensures var t := DecLayer(s, b).0;
            b in t.entries ==> t.entries[b].layers != 0 || t.entries[b].fbs != map[]
    ensures var u := Remove(s, fb).0;
            u != s && s.owner[fb] in u.entries ==>
              u.entries[s.owner[fb]].layers != 0 || u.entries[s.owner[fb]].fbs != map[]
    ensures b != 0 ==> b in Get(s, b, info, imported).0.entries
  {
    var u := Remove(s, fb).0;
    if u != s && s.owner[fb] in u.entries && u.entries[s.owner[fb]].layers == 0 {
      assert u.entries[s.owner[fb]].fbs == s.entries[s.owner[fb]].fbs - {fb} || fb in u.entries[s.owner[fb]].fbs;
    }
  }

  lemma GetHitSound(s: Cache, users: multiset<nat>, b: nat, info: int, imported: Import)
    requires Sound(s, users) && b != 0 && HasMatch(FbsOf(s, b), info)
    ensures var (t, ret, fb) := Get(s, b, info, imported);
            && ret == 0 && Sound(t, users + multiset{fb}) && fb in t.kernel && fb in t.owner && t.owner[fb] == b
            && Matches(FbsOf(t, b), info, fb)
            && forall c :: LayersOf(t, c) == LayersOf(s, c)
  {
    EntryOfAgrees(s, users, b);
    var (t, ret, fb) := Get(s, b, info, imported);
    var fbs := FbsOf(s, b);
    var e := Entry(LayersOf(s, b), fbs[fb := fbs[fb].(refs := fbs[fb].refs + 1)]);
    assert s.owner.Keys == s.kernel;
    assert forall x :: x in users ==> x in s.owner;
    hide TablesAgree, CountsAgree;
    EntryAgreesPut(EntryOf(s, b), users, fb, e.fbs[fb], users + multiset{fb});
    hide EntryAgrees, OneMatch, HasMatch;
    assert forall x :: x in users + multiset{fb} ==> x in users || x == fb;
    ChangedSound(s, t, b, e, users, users + multiset{fb});
  }

  lemma GetMissChanges(s: Cache, b: nat, info: int, fb: nat)
    requires TablesAgree(s) && b != 0 && !HasMatch(FbsOf(s, b), info) && fb !in s.owner
    ensures var t := Get(s, b, info, Imported(fb)).0;
            var e := Entry(LayersOf(s, b), FbsOf(s, b)[fb := Fb(info, 1)]);
            && t == Cache(s.entries[b := e], s.owner[fb := b], s.kernel + {fb})
            && Changed(s, t, b, e)
            && fb !in FbsOf(s, b)
  {
    hide HasMatch;
  }

  lemma GetMissSound(s: Cache, users: multiset<nat>, b: nat, info: int, fb: nat)
    requires Sound(s, users) && b != 0 && !HasMatch(FbsOf(s, b), info) && fb !in s.kernel
    ensures var t := Get(s, b, info, Imported(fb)).0;
            && Sound(t, users + multiset{fb}) && fb in t.kernel && fb in t.owner && t.owner[fb] == b
            && Matches(FbsOf(t, b), info, fb)
            && forall c :: LayersOf(t, c) == LayersOf(s, c)
  {
    EntryOfAgrees(s, users, b);
    assert s.owner.Keys == s.kernel;
    assert forall x :: x in users ==> x in s.owner;
    GetMissChanges(s, b, info, fb);
    var t := Get(s, b, info, Imported(fb)).0;
    var e := Entry(LayersOf(s, b), FbsOf(s, b)[fb := Fb(info, 1)]);
    hide TablesAgree, CountsAgree, Changed, Get;
    assert fb !in users;
    EntryAgreesPut(EntryOf(s, b), users, fb, Fb(info, 1), users + multiset{fb});
    hide EntryAgrees, OneMatch, HasMatch;
    assert forall x :: x in users + multiset{fb} ==> x in users || x == fb;
    ChangedSound(s, t, b, e, users, users + multiset{fb});
  }

  lemma GetRefusedSound(s: Cache, users: multiset<nat>, b: nat, info: int, error: int)
    requires Sound(s, users) && b != 0 && !HasMatch(FbsOf(s, b), info)
    ensures var t := Get(s, b, info, Refused(error)).0;
            && Sound(t, users) && t.kernel == s.kernel && forall c :: LayersOf(t, c) == LayersOf(s, c)
  {
    EntryOfAgrees(s, users, b);
    var t := Get(s, b, info, Refused(error)).0;
    assert s.owner.Keys == s.kernel;
    assert forall x :: x in users ==> x in s.owner;
    hide TablesAgree, CountsAgree;
    ChangedSound(s, t, b, EntryOf(s, b), users, users);
  }

  /** A caller gets a frame buffer of its buffer with its parameters, or an error and no change of any count. */
  lemma GetSound(s: Cache, users: multiset<nat>, b: nat, info: int, imported: Import)
    requires Sound(s, users) && (imported.Imported? ==> imported.fb !in s.kernel)
    requires imported.Refused? ==> imported.error != 0
    ensures var (t, ret, fb) := Get(s, b, info, imported);
            && (ret == 0 ==>
                  && Sound(t, users + multiset{fb}) && fb in t.kernel && fb in t.owner && t.owner[fb] == b
                  && Matches(FbsOf(t, b), info, fb))
            && (ret != 0 ==> Sound(t, users) && t.kernel == s.kernel)
            && ret == (if b == 0 then -1
                       else if HasMatch(FbsOf(s, b), info) || imported.Imported? then 0 else imported.error)
            && forall c :: LayersOf(t, c) == LayersOf(s, c)
  {
    if b != 0 {
      if HasMatch(FbsOf(s, b), info) {
        GetHitSound(s, users, b, info, imported);
      } else if imported.Imported? {
        GetMissSound(s, users, b, info, imported.fb);
      } else {
        GetRefusedSound(s, users, b, info, imported.error);
      }
      hide Sound, LayersOf;
    }
  }

  lemma RemoveChanges(s: Cache, fb: nat)
    requires TablesAgree(s) && fb in s.owner
    ensures var b := s.owner[fb];
            && b in s.entries && fb in s.entries[b].fbs
            && var e := s.entries[b];
               var f := e.fbs[fb].(refs := e.fbs[fb].refs - 1);
               var e' := if f.refs == 0 && e.layers == 0 then e.(fbs := e.fbs - {fb}) else e.(fbs := e.fbs[fb := f]);
               && Remove(s, fb).1 == 0 && Changed(s, Remove(s, fb).0, b, e')
               && forall x :: x in s.owner && (x != fb || fb in e'.fbs) ==> x in Remove(s, fb).0.owner
  {
    assert fb in FbsOf(s, s.owner[fb]);
  }

  lemma UsersAreOwned(s: Cache, users: multiset<nat>)
    requires Sound(s, users)
    ensures forall x :: x in users ==> x in s.owner
  {
  }

  lemma EntryCounts(e: Entry, users: multiset<nat>, fb: nat)
    requires EntryAgrees(e, users) && fb in e.fbs
    ensures e.fbs[fb].refs == users[fb]
  {
  }

  lemma RemoveSound(s: Cache, users: multiset<nat>, fb: nat)
    requires Sound(s, users) && fb in users
    ensures var (t, ret) := Remove(s, fb);
            ret == 0 && Sound(t, users - multiset{fb}) && forall c :: LayersOf(t, c) == LayersOf(s, c)
  {
    hide TablesAgree, CountsAgree, Changed, Remove, EntryAgrees;
    UsersAreOwned(s, users);
    var b := s.owner[fb];
    EntryOfAgrees(s, users, b);
    RemoveChanges(s, fb);
    var e := s.entries[b];
    var f := e.fbs[fb].(refs := e.fbs[fb].refs - 1);
    var t := Remove(s, fb).0;
    var users' := users - multiset{fb};
    var e' := if f.refs == 0 && e.layers == 0 then e.(fbs := e.fbs - {fb}) else e.(fbs := e.fbs[fb := f]);
    assert e == EntryOf(s, b);
    if f.refs == 0 && e.layers == 0 {
      EntryAgreesDrop(e, users, fb, users');
    } else {
      EntryAgreesPut(e, users, fb, f, users');
    }
    assert e.fbs[fb].refs == users[fb] by { EntryCounts(e, users, fb); }
    assert forall x :: x in users' ==> x in users && (x != fb || f.refs > 0);
    ChangedSound(s, t, b, e', users, users');
  }

  /** A frame buffer lives exactly as long as it has a user or its buffer a caching layer. */
  lemma AliveWhileNeeded(s: Cache, users: multiset<nat>, fb: nat)
    requires Sound(s, users)
    ensures fb in s.kernel <==> fb in s.owner && (fb in users || LayersOf(s, s.owner[fb]) > 0)
    ensures fb in users ==> fb in s.kernel
  {
    if fb in s.kernel {
      assert fb in s.owner;
      var b := s.owner[fb];
      assert fb in s.entries[b].fbs;
    }
  }
}
