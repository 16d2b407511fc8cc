/** Placeholders: filling a header pays off every instantiation minted while it had no fields. */
module Filling {
  import opened Types
  import opened Worlds
  import opened Invariant
  import opened Steps

  function Without(s: seq<nat>, x: nat): (r: seq<nat>)
    ensures forall y :: y in r <==> y in s && y != x
  {
    if s == [] then [] else (if s[0] == x then [] else [s[0]]) + Without(s[1..], x)
  }

  /** The deferred entries of header `h` (or of every other header), in order. */
  function Owing(ds: seq<Owed>, h: nat, equal: bool): (r: seq<Owed>)
    ensures forall d :: d in r <==> d in ds && ((d.header == h) == equal)
  {
    if ds == [] then [] else (if (ds[0].header == h) == equal then [ds[0]] else []) + Owing(ds[1..], h, equal)
  }

  predicate InstsDistinct(ds: seq<Owed>) {
    forall i, j :: 0 <= i < j < |ds| ==> ds[i].inst != ds[j].inst
  }

  lemma OwingDistinct(ds: seq<Owed>, h: nat, equal: bool)
    requires InstsDistinct(ds)
    ensures InstsDistinct(Owing(ds, h, equal))
  {
    if ds != [] {
      OwingDistinct(ds[1..], h, equal);
      var rest := Owing(ds[1..], h, equal);
      forall i | 0 <= i < |rest| ensures rest[i].inst != ds[0].inst {
        assert rest[i] in rest;
        var j :| 0 <= j < |ds[1..]| && ds[1..][j] == rest[i];
        assert ds[j + 1] == rest[i];
      }
    }
  }

  function FillSide(s: Side, idx: nat, body: seq<seq<PolyType<Type>>>): Side
    requires idx < |s.headers|
  {
    s.(headers := s.headers[idx := s.headers[idx].(body := body)],
       pending := Without(s.pending, idx),
       deferred := Owing(s.deferred, idx, false))
  }

  function OwedApp(w: World, e: bool, o: Owed): App {
    var s := w.Of(e);
    if 0 <= Split(s) && Split(s) + o.inst < |s.keys| then App(e, s.keys[Split(s) + o.inst])
    else App(e, Key(o.header, 0, [], []))
  }

  function OwedApps(w: World, e: bool, owed: seq<Owed>): set<App> {
    set o | o in owed :: OwedApp(w, e, o)
  }

  lemma FillSettlesOwn(w: World, w2: World, e: bool, idx: nat, i: nat, open: set<App>)
    requires Lockstep(w.Of(e), e) && i < |w.Of(e).keys| && KeySettled(w, e, i, {}) && w.Of(e).keys[i].idx == idx
    requires idx in w.Of(e).pending
    requires Lockstep(w2.Of(e), e) && w2.Of(e).keys == w.Of(e).keys && w2.Of(e).resolved == w.Of(e).resolved
    requires w2.Of(e).insts == w.Of(e).insts
    requires w2.Of(e).live == w.Of(e).live && w2.Of(e).base == w.Of(e).base
    requires SigsExtend(w, w2) && idx !in w2.Of(e).pending && App(e, w.Of(e).keys[i]) in open
    ensures KeySettled(w2, e, i, open)
  {
    KeyFitsExtends(w, w2, App(e, w.Of(e).keys[i]));
  }

  lemma FillSettlesOther(w: World, w2: World, e: bool, i: nat, open: set<App>)
    requires Lockstep(w.Of(e), e) && i < |w.Of(e).keys| && KeySettled(w, e, i, {})
    requires Lockstep(w2.Of(e), e) && w2.Of(e).keys == w.Of(e).keys && w2.Of(e).resolved == w.Of(e).resolved
    requires w2.Of(e).insts == w.Of(e).insts
    requires w2.Of(e).live == w.Of(e).live && w2.Of(e).base == w.Of(e).base
    requires SigsExtend(w, w2) && TablesGrow(w, w2) && App(e, w.Of(e).keys[i]) !in open
    requires w.Of(e).keys[i].idx in w2.Of(e).pending <==> w.Of(e).keys[i].idx in w.Of(e).pending
    requires w2.Of(e).headers[w.Of(e).keys[i].idx].body == w.Of(e).headers[w.Of(e).keys[i].idx].body
    requires forall d :: d in w.Of(e).deferred && d.inst == i - Split(w.Of(e)) ==> d in w2.Of(e).deferred
    ensures KeySettled(w2, e, i, open)
  {
    var s := w.Of(e);
    var k := s.keys[i];
    KeyFitsExtends(w, w2, App(e, k));
    if k.idx in s.pending {
      var d :| 0 <= d < |s.deferred| && s.deferred[d].inst == i - Split(s);
      assert s.deferred[d] in w2.Of(e).deferred;
    } else {
      DenotesBodyGrows(w, w2, s.headers[k.idx].body, k.args, k.lens, DeclAt(s, i, e).body);
    }
  }

  lemma FillSettles(w: World, e: bool, idx: nat, body: seq<seq<PolyType<Type>>>, i: nat)
    requires SideOk(w, e, {}) && idx in w.Of(e).pending && i < |w.Of(e).keys| && idx < |w.Of(e).headers|
    requires Lockstep(FillSide(w.Of(e), idx, body), e)
    ensures KeySettled(w.With(e, FillSide(w.Of(e), idx, body)), e, i,
                       OwedApps(w, e, Owing(w.Of(e).deferred, idx, true)))
  {
    var w2, open := w.With(e, FillSide(w.Of(e), idx, body)), OwedApps(w, e, Owing(w.Of(e).deferred, idx, true));
    hide OwedApps, Owing, DeferredOk, HeadersOk, TablesGrow, SigsExtend;
    FillGrows(w, e, idx, body);
    if w.Of(e).keys[i].idx == idx {
      OwedIsOwn(w, e, idx, i);
      FillSettlesOwn(w, w2, e, idx, i, open);
    } else {
      OwedIsOther(w, e, idx, w.Of(e).keys[i]);
      DeferredElsewhere(w.Of(e), e, idx, i);
      FillSettlesOther(w, w2, e, i, open);
    }
  }

  lemma FillGrows(w: World, e: bool, idx: nat, body: seq<seq<PolyType<Type>>>)
    requires idx < |w.Of(e).headers|
    ensures TablesGrow(w, w.With(e, FillSide(w.Of(e), idx, body)))
    ensures SigsExtend(w, w.With(e, FillSide(w.Of(e), idx, body)))
  {
  }

  lemma DeferredElsewhere(s: Side, e: bool, idx: nat, i: nat)
    requires Lockstep(s, e) && DeferredOk(s, e) && i < |s.keys| && s.keys[i].idx != idx
    ensures forall d :: d in s.deferred && d.inst == i - Split(s) ==> d in Owing(s.deferred, idx, false)
  {
  }

  lemma OwedIs(w: World, e: bool, d: nat, i: nat)
    requires SideOk(w, e, {}) && d < |w.Of(e).deferred| && i < |w.Of(e).keys|
    requires w.Of(e).deferred[d].inst == i - Split(w.Of(e))
    ensures w.Of(e).deferred[d].header == w.Of(e).keys[i].idx
    ensures OwedApp(w, e, w.Of(e).deferred[d]) == App(e, w.Of(e).keys[i])
  {
    hide KeySettled, HeadersOk, KeyFits, DenotesBody;
  }

  lemma OwedIsOwn(w: World, e: bool, idx: nat, i: nat)
    requires SideOk(w, e, {}) && i < |w.Of(e).keys| && w.Of(e).keys[i].idx == idx && idx in w.Of(e).pending
    ensures App(e, w.Of(e).keys[i]) in OwedApps(w, e, Owing(w.Of(e).deferred, idx, true))
  {
    var s := w.Of(e);
    assert KeySettled(w, e, i, {});
    var d :| 0 <= d < |s.deferred| && s.deferred[d].inst == i - Split(s);
    hide KeySettled, HeadersOk, Lockstep, KeyFits, DenotesBody;
    var o := s.deferred[d];
    assert o.header == idx && OwedApp(w, e, o) == App(e, s.keys[i]) by { OwedIs(w, e, d, i); }
    assert o in Owing(s.deferred, idx, true);
  }

  lemma OwedIsOther(w: World, e: bool, idx: nat, k: Key)
    requires Lockstep(w.Of(e), e) && DeferredOk(w.Of(e), e) && k.idx != idx
    ensures App(e, k) !in OwedApps(w, e, Owing(w.Of(e).deferred, idx, true))
  {
  }

  lemma FillDeferred(s: Side, e: bool, idx: nat, body: seq<seq<PolyType<Type>>>)
    requires Lockstep(s, e) && DeferredOk(s, e) && idx < |s.headers|
    ensures Lockstep(FillSide(s, idx, body), e) && DeferredOk(FillSide(s, idx, body), e)
  {
    hide Owing;
    var s2 := FillSide(s, idx, body);
    OwingDistinct(s.deferred, idx, false);
    forall d | 0 <= d < |s2.deferred| ensures s2.deferred[d] in s.deferred && s2.deferred[d].header != idx {
      assert s2.deferred[d] in s2.deferred;
    }
  }

  lemma FillHeaders(w: World, e: bool, idx: nat, body: seq<seq<PolyType<Type>>>)
    requires HeadersOk(w, w.Of(e)) && idx < |w.Of(e).headers|
    requires BodyOk(w, body, w.Of(e).headers[idx].kinds, w.Of(e).headers[idx].lenVars)
    ensures var w2 := w.With(e, FillSide(w.Of(e), idx, body));
            HeadersOk(w2, w2.Of(e)) && SigsExtend(w, w2) && TablesGrow(w, w2)
  {
    var w2 := w.With(e, FillSide(w.Of(e), idx, body));
    var s2 := w2.Of(e);
    assert SigsExtend(w, w2);
    forall h | 0 <= h < |s2.headers|
      ensures BodyOk(w2, s2.headers[h].body, s2.headers[h].kinds, s2.headers[h].lenVars)
    {
      BodyOkExtends(w, w2, s2.headers[h].body, s2.headers[h].kinds, s2.headers[h].lenVars);
    }
    forall p | 0 <= p < |s2.pending|
      ensures s2.pending[p] < |s2.headers| && s2.headers[s2.pending[p]].body == []
    {
      assert s2.pending[p] in s2.pending;
    }
  }

  lemma FillTable(w: World, e: bool, idx: nat, body: seq<seq<PolyType<Type>>>)
    requires SideOk(w, e, {}) && idx in w.Of(e).pending && idx < |w.Of(e).headers|
    requires BodyOk(w, body, w.Of(e).headers[idx].kinds, w.Of(e).headers[idx].lenVars)
    ensures SideOk(w.With(e, FillSide(w.Of(e), idx, body)), e, OwedApps(w, e, Owing(w.Of(e).deferred, idx, true)))
  {
    hide BodyOk, KeySettled, TablesGrow, SigsExtend, OwedApps, Owing, Without;
    var s := w.Of(e);
    FillDeferred(s, e, idx, body);
    FillHeaders(w, e, idx, body);
    forall i | 0 <= i < |s.keys|
      ensures KeySettled(w.With(e, FillSide(s, idx, body)), e, i, OwedApps(w, e, Owing(s.deferred, idx, true)))
    {
      FillSettles(w, e, idx, body, i);
    }
  }

  /** Giving a placeholder its fields: what was deferred on it becomes the open stack, nothing else moves. */
  lemma FillStart(w: World, e: bool, idx: nat, body: seq<seq<PolyType<Type>>>)
    requires Inv(w, {}) && idx in w.Of(e).pending && idx < |w.Of(e).headers|
    requires BodyOk(w, body, w.Of(e).headers[idx].kinds, w.Of(e).headers[idx].lenVars)
    ensures Inv(w.With(e, FillSide(w.Of(e), idx, body)), OwedApps(w, e, Owing(w.Of(e).deferred, idx, true)))
    ensures TablesGrow(w, w.With(e, FillSide(w.Of(e), idx, body)))
    ensures SigsExtend(w, w.With(e, FillSide(w.Of(e), idx, body)))
  {
    hide SideOk, TablesGrow, SigsExtend, BodyOk;
    var s := w.Of(e);
    var w2 := w.With(e, FillSide(s, idx, body));
    var open := OwedApps(w, e, Owing(s.deferred, idx, true));
    FillGrows(w, e, idx, body);
    FillTable(w, e, idx, body);
    OwedMinted(w, e, idx);
    SideTransfers(w, w2, !e, {}, open);
  }

  lemma OwedMinted(w: World, e: bool, idx: nat)
    requires SideOk(w, e, {})
    ensures forall a :: a in OwedApps(w, e, Owing(w.Of(e).deferred, idx, true)) ==>
              a.isEnum == e && a.key in w.Of(e).keys
  {
    forall a | a in OwedApps(w, e, Owing(w.Of(e).deferred, idx, true)) ensures a.isEnum == e && a.key in w.Of(e).keys {
      var o :| o in Owing(w.Of(e).deferred, idx, true) && a == OwedApp(w, e, o);
      assert o in w.Of(e).deferred;
    }
  }
}
