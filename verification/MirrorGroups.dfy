/** Mirror groups seen from the displays: who is primary, who mirrors whom, and when the two sides agree. */
module MirrorGroups {
  import opened DrmResources

  type Groups = map<nat, Mirror>

  ghost predicate Mirrors(g: Groups, e: int, p: int) {
    e in g && g[e].IsExternal() && g[e].primaryId == p
  }

  /** A display's own record agrees with everybody else's. */
  ghost predicate Agrees(g: Groups, p: nat)
    requires p in g
  {
    && (forall e :: e in g[p].displays <==> Mirrors(g, e, p))
    && (g[p].primary ==> g[p].mode)
    && (g[p].IsPrimary() <==> g[p].displays != {})
    && (g[p].IsExternal() ==> g[p].primaryId in g)
    && (g[p].IsPrimary() ==> g[p].primaryId == p)
  }

  /** Display e is in p's set exactly when e mirrors p, and p is a primary exactly when its set is not empty. */
  ghost predicate Coherent(g: Groups) {
    forall p :: p in g ==> Agrees(g, p)
  }

  /** The mirror pass: `o` and then `k` are told that `k`, asked for as `req`, mirrors `o`. */
  function Join(g: Groups, o: nat, k: nat, req: int): Groups
    requires o in g && k in g
  {
    var g1 := g[o := EnableMirror(g[o], o, o, req)];
    g1[k := EnableMirror(g1[k], k, o, req)]
  }

  /** The primary a connector must tell when it leaves, if any. */
  function Informs(m: Mirror): int {
    if m.IsPrimary() then -1 else m.PrimaryId()
  }

  /** A mirror release of `k`, asked for as `req`. */
  function Leave(g: Groups, k: nat, req: int): Groups
    requires k in g
  {
    var g1 := g[k := DisableMirror(g[k], req)];
    var p := Informs(g[k]);
    if g1[k].IsPrimary() || p < 0 || p !in g then g1 else g1[p := DisableMirror(g1[p], req)]
  }

  /**
   * What a caller must check before mirroring `k` onto `o`: the id carries no split bits, `o` mirrors
   * nobody else, nobody else mirrors `k`, and `k` mirrors nobody else.
   */
  ghost predicate Joinable(g: Groups, o: nat, k: nat, req: int)
    requires o in g && k in g
  {
    && req == k
    && (g[o].IsExternal() ==> g[o].primaryId == k)
    && (forall e :: e in g[k].displays ==> e == o)
    && (g[k].IsExternal() ==> g[k].primaryId == o)
  }

  lemma JoinableKeepsCoherence(g: Groups, o: nat, k: nat)
    requires o in g && k in g && o != k && Coherent(g) && Joinable(g, o, k, k)
    ensures Coherent(Join(g, o, k, k))
  {
    var t := Join(g, o, k, k);
    assert Agrees(g, o) && Agrees(g, k);
    forall p | p in t ensures Agrees(t, p) {
      assert Agrees(g, p);
      forall e ensures e in t[p].displays <==> Mirrors(t, e, p) {
        assert e in g[p].displays <==> Mirrors(g, e, p);
        if p == o && e != k {
          assert e == o ==> !Mirrors(g, o, o);
        }
      }
      assert p == o ==> k in t[o].displays;
    }
  }

  lemma UnjoinableBreaksCoherence(g: Groups, o: nat, k: nat, req: int)
    requires o in g && k in g && o != k && Coherent(g) && !Joinable(g, o, k, req)
    requires req == k || req !in g
    ensures !Coherent(Join(g, o, k, req))
  {
    var t := Join(g, o, k, req);
    assert Agrees(g, o) && Agrees(g, k);
    if req != k {
      assert req in t[o].displays && !Mirrors(t, req, o);
      assert !Agrees(t, o);
    } else if g[o].IsExternal() && g[o].primaryId != k {
      var q := g[o].primaryId;
      assert o in g[o].displays <==> Mirrors(g, o, o);
      assert Agrees(g, q);
      assert o in t[q].displays && !Mirrors(t, o, q);
      assert !Agrees(t, q);
    } else if e :| e in g[k].displays && e != o {
      assert k in g[k].displays <==> Mirrors(g, k, k);
      assert e !in t[k].displays && Mirrors(t, e, k);
      assert !Agrees(t, k);
    } else {
      var q := g[k].primaryId;
      assert k in g[k].displays <==> Mirrors(g, k, k);
      assert Agrees(g, q);
      assert k in t[q].displays && !Mirrors(t, k, q);
      assert !Agrees(t, q);
    }
  }

  /**
   * Mirroring keeps the groups coherent exactly when the two displays are joinable. The request names `k`
   * itself or a split id, which no display has.
   */
  lemma JoinCoherence(g: Groups, o: nat, k: nat, req: int)
    requires o in g && k in g && o != k && Coherent(g)
    requires req == k || req !in g
    ensures Coherent(Join(g, o, k, req)) <==> Joinable(g, o, k, req)
  {
    if Joinable(g, o, k, req) {
      JoinableKeepsCoherence(g, o, k);
    } else {
      UnjoinableBreaksCoherence(g, o, k, req);
    }
  }

  lemma ProperLeaveKeepsCoherence(g: Groups, k: nat)
    requires k in g && Coherent(g)
    ensures Coherent(Leave(g, k, k))
    ensures !Leave(g, k, k)[k].IsExternal()
  {
    var t := Leave(g, k, k);
    assert Agrees(g, k);
    assert k in g[k].displays <==> Mirrors(g, k, k);
    var q := Informs(g[k]);
    if q in g {
      assert Agrees(g, q);
      assert k in g[q].displays <==> Mirrors(g, k, q);
    }
    forall p | p in t ensures Agrees(t, p) {
      assert Agrees(g, p);
      assert k in g[p].displays <==> Mirrors(g, k, p);
      forall e ensures e in t[p].displays <==> Mirrors(t, e, p) {
        assert e in g[p].displays <==> Mirrors(g, e, p);
      }
    }
  }

  /** A mirror release keeps the groups coherent exactly when it is asked for under the display's own id. */
  lemma LeaveCoherence(g: Groups, k: nat, req: int)
    requires k in g && Coherent(g)
    requires req == k || req !in g
    ensures Coherent(Leave(g, k, req)) <==> (g[k].IsExternal() ==> req == k)
  {
    var t := Leave(g, k, req);
    assert Agrees(g, k);
    if req == k {
      ProperLeaveKeepsCoherence(g, k);
    } else {
      var p := Informs(g[k]);
      assert req in g[k].displays <==> Mirrors(g, req, k);
      if g[k].IsExternal() {
        assert Agrees(g, p);
        assert k in g[p].displays <==> Mirrors(g, k, p);
        assert k in t[p].displays && !Mirrors(t, k, p);
        assert !Agrees(t, p);
      } else {
        assert t[k].displays == g[k].displays;
        forall q | q in t ensures Agrees(t, q) {
          assert Agrees(g, q);
          forall e ensures e in t[q].displays <==> Mirrors(t, e, q) {
            assert e in g[q].displays <==> Mirrors(g, e, q);
          }
        }
      }
    }
  }
}
