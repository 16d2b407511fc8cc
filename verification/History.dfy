/** Whole histories: registering headers, flushing and rebasing keep the invariant, and no operation ever
    re-points an id or changes a field list once it has been written. */
module History {
  import opened Types
  import opened Worlds
  import opened Invariant
  import opened Steps

  // ---------------------------------------------------------------- one id, one declaration, for ever

  /** Every key keeps its position and its id, every field list that was due stays what it was, and a later
      id never falls on a declaration that was already live. */
  predicate SideEvolves(a: Side, b: Side, e: bool)
    requires Lockstep(a, e) && Lockstep(b, e)
  {
    && a.keys <= b.keys && a.resolved <= b.resolved && a.live <= b.live
    && (forall i :: |a.keys| <= i < |b.keys| ==> |a.live| <= b.resolved[i].id)
    && (forall i :: 0 <= i < |a.keys| && a.keys[i].idx !in a.pending ==> DeclAt(b, i, e) == DeclAt(a, i, e))
  }

  predicate Evolves(a: World, b: World)
    requires Lockstep(a.structs, false) && Lockstep(a.enums, true) && Lockstep(b.structs, false)
    requires Lockstep(b.enums, true)
  {
    SideEvolves(a.structs, b.structs, false) && SideEvolves(a.enums, b.enums, true)
  }

  lemma SideEvolvesTrans(a: Side, b: Side, c: Side, e: bool)
    requires Lockstep(a, e) && Lockstep(b, e) && Lockstep(c, e) && SideEvolves(a, b, e) && SideEvolves(b, c, e)
    requires forall i :: 0 <= i < |a.keys| && a.keys[i].idx !in a.pending ==> a.keys[i].idx !in b.pending
    ensures SideEvolves(a, c, e)
  {
    forall i | |a.keys| <= i < |c.keys| ensures |a.live| <= c.resolved[i].id {
      if i < |b.keys| {
        assert c.resolved[i] == b.resolved[i];
      }
    }
  }

  lemma EvolvesTrans(a: World, b: World, c: World)
    requires Inv(a, {}) && Inv(b, {}) && Inv(c, {}) && Evolves(a, b) && Evolves(b, c)
    requires forall e: bool, h :: 0 <= h < |a.Of(e).headers| && h !in a.Of(e).pending ==> h !in b.Of(e).pending
    ensures Evolves(a, c)
  {
    hide SideEvolves;
    forall e: bool
      ensures Lockstep(a.Of(e), e) && Lockstep(c.Of(e), e) && SideEvolves(a.Of(e), c.Of(e), e)
    {
      KeysInRange(a, e);
      SideLockstep(b, e);
      SideLockstep(c, e);
      SideEvolvesTrans(a.Of(e), b.Of(e), c.Of(e), e);
    }
  }

  lemma KeysInRange(w: World, e: bool)
    requires SideOk(w, e, {})
    ensures Lockstep(w.Of(e), e) && forall i :: 0 <= i < |w.Of(e).keys| ==> w.Of(e).keys[i].idx < |w.Of(e).headers|
  {
    forall i | 0 <= i < |w.Of(e).keys| ensures w.Of(e).keys[i].idx < |w.Of(e).headers| {
      assert KeySettled(w, e, i, {});
    }
  }

  lemma DenotesBodyUnique(w: World, p: seq<seq<PolyType<Type>>>, args: seq<Type>, lens: seq<nat>, c: seq<seq<Type>>,
        d: seq<seq<Type>>)
    requires DenotesBody(w, p, args, lens, c) && DenotesBody(w, p, args, lens, d)
    ensures c == d
  {
    forall v | 0 <= v < |p| ensures c[v] == d[v] {
      forall f | 0 <= f < |p[v]| ensures c[v][f] == d[v][f] {
        assert Denote(w, p[v][f], args, lens) == Some(c[v][f]);
        assert Denote(w, p[v][f], args, lens) == Some(d[v][f]);
      }
    }
  }

  /** Two settled worlds whose tables only grew agree on every field list that was due in the first. */
  lemma SettledEvolves(a: World, b: World)
    requires Inv(a, {}) && Inv(b, {}) && TablesGrow(a, b)
    requires forall e: bool, h :: 0 <= h < |a.Of(e).headers| && h !in a.Of(e).pending ==>
               h < |b.Of(e).headers| && h !in b.Of(e).pending && b.Of(e).headers[h].body == a.Of(e).headers[h].body
    requires forall e: bool :: a.Of(e).live == b.Of(e).live && Split(a.Of(e)) == Split(b.Of(e))
    ensures Evolves(a, b)
  {
    hide KeySettled, DeferredOk, HeadersOk, ShapesOk;
    forall e: bool ensures SideEvolves(a.Of(e), b.Of(e), e) {
      var s, t := a.Of(e), b.Of(e);
      forall i | 0 <= i < |s.keys| && s.keys[i].idx !in s.pending ensures DeclAt(t, i, e) == DeclAt(s, i, e) {
        assert KeySettled(a, e, i, {}) && KeySettled(b, e, i, {});
        SettledSame(a, b, e, i);
      }
    }
  }

  lemma SettledSame(a: World, b: World, e: bool, i: nat)
    requires Lockstep(a.Of(e), e) && Lockstep(b.Of(e), e) && i < |a.Of(e).keys| <= |b.Of(e).keys|
    requires KeySettled(a, e, i, {}) && KeySettled(b, e, i, {}) && TablesGrow(a, b)
    requires b.Of(e).keys[i] == a.Of(e).keys[i] && a.Of(e).keys[i].idx !in a.Of(e).pending
    requires a.Of(e).keys[i].idx < |a.Of(e).headers| ==>
               var h := a.Of(e).keys[i].idx;
               && h < |b.Of(e).headers| && h !in b.Of(e).pending
               && b.Of(e).headers[h].body == a.Of(e).headers[h].body
    ensures DeclAt(b.Of(e), i, e) == DeclAt(a.Of(e), i, e)
  {
    var s, t, k := a.Of(e), b.Of(e), a.Of(e).keys[i];
    hide Lockstep, DenotesBody, DeclAt;
    DenotesBodyGrows(a, b, s.headers[k.idx].body, k.args, k.lens, DeclAt(s, i, e).body);
    DenotesBodyUnique(b, s.headers[k.idx].body, k.args, k.lens, DeclAt(s, i, e).body, DeclAt(t, i, e).body);
  }

  lemma GrowEvolves(a: World, b: World)
    requires Inv(a, {}) && Inv(b, {}) && Grow(a, b)
    ensures Evolves(a, b)
  {
    SettledEvolves(a, b);
  }

  // ---------------------------------------------------------------- registering headers

  function PushSide(s: Side, h: Header, placeholder: bool): Side {
    s.(headers := s.headers + [h], pending := if placeholder then s.pending + [|s.headers|] else s.pending)
  }

  lemma PushSettles(w: World, e: bool, h: Header, placeholder: bool, i: nat)
    requires SideOk(w, e, {}) && i < |w.Of(e).keys|
    ensures KeySettled(w.With(e, PushSide(w.Of(e), h, placeholder)), e, i, {})
  {
    var s, w2 := w.Of(e), w.With(e, PushSide(w.Of(e), h, placeholder));
    var k := s.keys[i];
    assert KeySettled(w, e, i, {});
    KeyFitsExtends(w, w2, App(e, k));
    if k.idx !in s.pending {
      DenotesBodyGrows(w, w2, s.headers[k.idx].body, k.args, k.lens, DeclAt(s, i, e).body);
    }
  }

  lemma PushTable(w: World, e: bool, h: Header, placeholder: bool)
    requires SideOk(w, e, {}) && (placeholder ==> h.body == [])
    requires BodyOk(w.With(e, PushSide(w.Of(e), h, placeholder)), h.body, h.kinds, h.lenVars)
    ensures SideOk(w.With(e, PushSide(w.Of(e), h, placeholder)), e, {})
  {
    hide KeySettled, BodyOk;
    var s := w.Of(e);
    PushHeaders(w, e, h, placeholder);
    assert DeferredOk(PushSide(s, h, placeholder), e);
    forall i | 0 <= i < |s.keys| ensures KeySettled(w.With(e, PushSide(s, h, placeholder)), e, i, {}) {
      PushSettles(w, e, h, placeholder, i);
    }
  }

  lemma PushKeeps(w: World, e: bool, h: Header, placeholder: bool)
    requires Inv(w, {}) && (placeholder ==> h.body == [])
    requires BodyOk(w.With(e, PushSide(w.Of(e), h, placeholder)), h.body, h.kinds, h.lenVars)
    ensures Inv(w.With(e, PushSide(w.Of(e), h, placeholder)), {})
    ensures Evolves(w, w.With(e, PushSide(w.Of(e), h, placeholder)))
  {
    var w2 := w.With(e, PushSide(w.Of(e), h, placeholder));
    assert Inv(w2, {}) by {
      hide SideOk, BodyOk;
      assert HeadersOk(w, w.Of(e)) by { SideHeaders(w, e); }
      PushHeaders(w, e, h, placeholder);
      PushTable(w, e, h, placeholder);
      SideTransfers(w, w2, !e, {}, {});
    }
    PushEvolves(w, e, h, placeholder);
  }

  lemma SideHeaders(w: World, e: bool)
    requires SideOk(w, e, {})
    ensures HeadersOk(w, w.Of(e))
  {
  }

  lemma PushEvolves(w: World, e: bool, h: Header, placeholder: bool)
    requires Inv(w, {}) && Inv(w.With(e, PushSide(w.Of(e), h, placeholder)), {})
    ensures Evolves(w, w.With(e, PushSide(w.Of(e), h, placeholder)))
  {
    hide SideOk, KeySettled;
    assert Lockstep(w.Of(e), e) && Lockstep(w.Of(!e), !e) by { SideLockstep(w, e); SideLockstep(w, !e); }
    var w2 := w.With(e, PushSide(w.Of(e), h, placeholder));
    SideLockstep(w2, e);
    SideLockstep(w2, !e);
    assert SideEvolves(w.Of(e), w2.Of(e), e) && SideEvolves(w.Of(!e), w2.Of(!e), !e);
  }

  lemma SideLockstep(w: World, e: bool)
    requires SideOk(w, e, {})
    ensures Lockstep(w.Of(e), e) && DeferredOk(w.Of(e), e)
  {
  }

  lemma PushHeaders(w: World, e: bool, h: Header, placeholder: bool)
    requires HeadersOk(w, w.Of(e)) && (placeholder ==> h.body == [])
    requires BodyOk(w.With(e, PushSide(w.Of(e), h, placeholder)), h.body, h.kinds, h.lenVars)
    ensures var w2 := w.With(e, PushSide(w.Of(e), h, placeholder));
            HeadersOk(w2, w2.Of(e)) && SigsExtend(w, w2) && TablesGrow(w, w2)
  {
    var s, w2 := w.Of(e), w.With(e, PushSide(w.Of(e), h, placeholder));
    var s2 := w2.Of(e);
    assert SigsExtend(w, w2);
    forall j | 0 <= j < |s2.headers|
      ensures BodyOk(w2, s2.headers[j].body, s2.headers[j].kinds, s2.headers[j].lenVars)
    {
      if j < |s.headers| {
        BodyOkExtends(w, w2, s.headers[j].body, s.headers[j].kinds, s.headers[j].lenVars);
      }
    }
  }

  // ---------------------------------------------------------------- flushing, rebasing, live growth

  function FlushSide(s: Side): Side { s.(live := s.live + s.insts, insts := []) }

  /** Key `i` has the field list its header denotes. */
  predicate Filled(w: World, e: bool, i: nat)
    requires Lockstep(w.Of(e), e) && i < |w.Of(e).keys|
  {
    var k := w.Of(e).keys[i];
    k.idx < |w.Of(e).headers| && DenotesBody(w, w.Of(e).headers[k.idx].body, k.args, k.lens, DeclAt(w.Of(e), i, e).body)
  }

  /** Every application of header `idx` has the fields `body` declares, grounded at its own arguments. */
  predicate FieldsOf(w: World, e: bool, idx: nat, body: seq<seq<PolyType<Type>>>) {
    && Lockstep(w.Of(e), e)
    && forall i :: 0 <= i < |w.Of(e).keys| && w.Of(e).keys[i].idx == idx ==>
         DenotesBody(w, body, w.Of(e).keys[i].args, w.Of(e).keys[i].lens, DeclAt(w.Of(e), i, e).body)
  }

  lemma CompleteFields(w: World, e: bool, idx: nat)
    requires Inv(w, {}) && idx < |w.Of(e).headers| && idx !in w.Of(e).pending
    ensures FieldsOf(w, e, idx, w.Of(e).headers[idx].body)
  {
    hide Lockstep, DeferredOk, HeadersOk, ShapesOk, DenotesBody;
    assert SideOk(w, e, {});
    forall i | 0 <= i < |w.Of(e).keys| && w.Of(e).keys[i].idx == idx
      ensures DenotesBody(w, w.Of(e).headers[idx].body, w.Of(e).keys[i].args, w.Of(e).keys[i].lens,
                          DeclAt(w.Of(e), i, e).body)
    {
      assert KeySettled(w, e, i, {});
    }
  }

  lemma DeferredOnPending(s: Side, e: bool)
    requires Lockstep(s, e) && DeferredOk(s, e)
    ensures s.deferred != [] ==> s.pending != []
  {
    if s.deferred != [] {
      assert s.deferred[0].header in s.pending;
    }
  }

  /** With no placeholder left, nothing is owed: the deferred list is empty and every declaration has
      exactly the fields its header denotes. */
  lemma NothingOwed(w: World, e: bool)
    requires Inv(w, {}) && w.Of(e).pending == []
    ensures w.Of(e).deferred == []
    ensures forall i :: 0 <= i < |w.Of(e).keys| ==> Filled(w, e, i)
  {
    var s := w.Of(e);
    DeferredOnPending(s, e);
    forall i | 0 <= i < |s.keys| ensures Filled(w, e, i) {
      assert KeySettled(w, e, i, {});
    }
  }

  lemma FlushLockstep(s: Side, e: bool)
    requires Lockstep(s, e)
    ensures Lockstep(FlushSide(s), e)
    ensures forall i :: 0 <= i < |s.keys| ==> DeclAt(FlushSide(s), i, e) == DeclAt(s, i, e)
  {
    var t := FlushSide(s);
    if s.insts == [] {
      assert t.live == s.live;
    }
  }

  lemma FlushTable(w: World, e: bool)
    requires Inv(w, {}) && w.Of(e).pending == []
    ensures SideOk(w.With(e, FlushSide(w.Of(e))), e, {})
  {
    var s, w2 := w.Of(e), w.With(e, FlushSide(w.Of(e)));
    NothingOwed(w, e);
    FlushLockstep(s, e);
    HeadersTransfer(w, w2, s);
    forall i | 0 <= i < |s.keys| ensures KeySettled(w2, e, i, {}) {
      assert KeySettled(w, e, i, {}) && Filled(w, e, i);
      KeyFitsExtends(w, w2, App(e, s.keys[i]));
      DenotesBodyGrows(w, w2, s.headers[s.keys[i].idx].body, s.keys[i].args, s.keys[i].lens, DeclAt(s, i, e).body);
    }
  }

  lemma FlushKeeps(w: World, e: bool)
    requires Inv(w, {}) && w.Of(e).pending == []
    ensures Inv(w.With(e, FlushSide(w.Of(e))), {}) && Evolves(w, w.With(e, FlushSide(w.Of(e))))
  {
    hide KeySettled, HeadersOk, DeferredOk;
    var s, w2 := w.Of(e), w.With(e, FlushSide(w.Of(e)));
    FlushLockstep(s, e);
    FlushTable(w, e);
    SideTransfers(w, w2, !e, {}, {});
    assert SideEvolves(s, w2.Of(e), e) && SideEvolves(w.Of(!e), w2.Of(!e), !e);
  }

  /** Rebasing, or growing the live registry by other declarations, while nothing is staged. */
  lemma LiveKeeps(w: World, e: bool, live: seq<Decl>, base: nat)
    requires Inv(w, {}) && w.Of(e).insts == [] && w.Of(e).live <= live && base <= |live|
    ensures Inv(w.With(e, w.Of(e).(live := live, base := base)), {})
    ensures Evolves(w, w.With(e, w.Of(e).(live := live, base := base)))
  {
    hide KeySettled, HeadersOk, DeferredOk;
    var s, w2 := w.Of(e), w.With(e, w.Of(e).(live := live, base := base));
    LiveTable(w, e, live, base);
    SideTransfers(w, w2, !e, {}, {});
    SideSame(w.Of(!e), !e);
    hide Lockstep, DeclAt;
    assert SideEvolves(s, w2.Of(e), e);
  }

  lemma SideSame(s: Side, e: bool)
    requires Lockstep(s, e)
    ensures SideEvolves(s, s, e)
  {}

  lemma LiveTable(w: World, e: bool, live: seq<Decl>, base: nat)
    requires SideOk(w, e, {}) && w.Of(e).insts == [] && w.Of(e).live <= live && base <= |live|
    ensures SideOk(w.With(e, w.Of(e).(live := live, base := base)), e, {})
    ensures forall i :: 0 <= i < |w.Of(e).keys| ==>
              DeclAt(w.Of(e).(live := live, base := base), i, e) == DeclAt(w.Of(e), i, e)
  {
    var s, w2 := w.Of(e), w.With(e, w.Of(e).(live := live, base := base));
    var s2 := w2.Of(e);
    HeadersTransfer(w, w2, s);
    assert Lockstep(s2, e);
    forall i | 0 <= i < |s.keys|
      ensures DeclAt(s2, i, e) == DeclAt(s, i, e) && KeySettled(w2, e, i, {})
    {
      SettledTransfers(w, w2, e, i, {}, {});
    }
  }

  /** A fresh instantiator based at the live registries' lengths is legal. */
  lemma FreshIsLegal(w: World)
    requires forall e: bool :: var s := w.Of(e);
               s.headers == [] && s.keys == [] && s.resolved == [] && s.insts == [] && s.pending == [] &&
                 s.deferred == [] && s.base == |s.live|
    requires ShapesOk(w.shapes)
    ensures Inv(w, {}) && Based(w)
  {
    forall e: bool ensures SideOk(w, e, {}) {
      assert w.Of(e).keys == [];
    }
  }

  // ---------------------------------------------------------------- the two lookups

  /** The reverse lookup: the key an id was minted from, if it names an instantiation at all. */
  function InstantiationOf(w: World, isEnum: bool, id: nat): Option<Key> {
    var s := w.Of(isEnum);
    var i := IndexOf(s.resolved, Nominal(isEnum, id));
    if i < |s.resolved| && i < |s.keys| then Some(s.keys[i]) else None
  }

  /** Lookup by key and lookup by id are inverse to each other on every legal history. */
  lemma LookupsInverse(w: World, open: set<App>, a: App, id: nat)
    requires Inv(w, open)
    ensures Lookup(w, a) == Some(Nominal(a.isEnum, id)) <==> InstantiationOf(w, a.isEnum, id) == Some(a.key)
    ensures Lookup(w, a).Some? ==> Lookup(w, a).value.Nominal? && Lookup(w, a).value.isEnum == a.isEnum
  {
    hide KeySettled, DeferredOk, HeadersOk, ShapesOk, IndexOf;
    var s := w.Of(a.isEnum);
    assert SideOk(w, a.isEnum, open);
    DistinctIds(s, a.isEnum);
    IndexInverse(s.keys, s.resolved, a.key, Nominal(a.isEnum, id));
    assert Lookup(w, a).Some? ==> Lookup(w, a).value in s.resolved;
    hide Lockstep, Distinct;
  }

  lemma DistinctIds(s: Side, e: bool)
    requires Lockstep(s, e)
    ensures Distinct(s.keys) && Distinct(s.resolved) && |s.keys| == |s.resolved|
  {
    forall i, j | 0 <= i < j < |s.resolved| ensures s.resolved[i] != s.resolved[j] {
      assert s.resolved[i].id < s.resolved[j].id;
    }
  }

  /** Positions in two parallel lists without repetition invert each other. */
  lemma IndexInverse<K, V>(keys: seq<K>, values: seq<V>, k: K, v: V)
    requires |keys| == |values| && Distinct(keys) && Distinct(values)
    ensures (IndexOf(keys, k) < |keys| && values[IndexOf(keys, k)] == v) <==>
              (IndexOf(values, v) < |values| && keys[IndexOf(values, v)] == k)
  {
    var i, j := IndexOf(keys, k), IndexOf(values, v);
    if i < |keys| && values[i] == v { IndexOfUnique(values, v, i); }
    if j < |values| && keys[j] == k { IndexOfUnique(keys, k, j); }
  }

  /** Two applications share an id only if they are the same application. */
  lemma IdsAreInjective(w: World, open: set<App>, a: App, b: App)
    requires Inv(w, open) && Lookup(w, a).Some? && Lookup(w, a) == Lookup(w, b)
    ensures a == b
  {
    var t := Lookup(w, a).value;
    LookupsInverse(w, open, a, 0);
    LookupsInverse(w, open, b, 0);
    LookupsInverse(w, open, a, t.id);
    LookupsInverse(w, open, b, t.id);
  }
}
