/** The value-level steps of the instantiator, and that each keeps the invariant. */
module Steps {
  import opened Types
  import opened Worlds
  import opened Invariant

  /** Headers may be appended and their bodies filled in, but never re-shaped. */
  predicate SigsExtend(a: World, b: World) {
    forall e: bool :: |a.Of(e).headers| <= |b.Of(e).headers| &&
      forall h :: 0 <= h < |a.Of(e).headers| ==>
        a.Of(e).headers[h].kinds == b.Of(e).headers[h].kinds && a.Of(e).headers[h].lenVars == b.Of(e).headers[h].lenVars
  }

  lemma {:induction false} FieldOkExtends(a: World, b: World, p: PolyType<Type>, kinds: seq<nat>, lenVars: nat)
    requires SigsExtend(a, b) && FieldOk(a, p, kinds, lenVars)
    ensures FieldOk(b, p, kinds, lenVars)
    decreases p
  {
    match p
    case Concrete(_) =>
    case Var(_) =>
    case PArray(elem, _) => FieldOkExtends(a, b, elem, kinds, lenVars);
    case PRef(referent, _) => FieldOkExtends(a, b, referent, kinds, lenVars);
    case PCell(payload) => FieldOkExtends(a, b, payload, kinds, lenVars);
    case PGeneric(isEnum, idx, _, args, lens) =>
      assert a.Of(isEnum).headers[idx].kinds == b.Of(isEnum).headers[idx].kinds;
    case PApp(head, args) =>
    case PQuot(ins, outs, _) =>
      forall j | 0 <= j < |ins| ensures FieldOk(b, ins[j], kinds, lenVars) {
        FieldOkExtends(a, b, ins[j], kinds, lenVars);
      }
      forall j | 0 <= j < |outs| ensures FieldOk(b, outs[j], kinds, lenVars) {
        FieldOkExtends(a, b, outs[j], kinds, lenVars);
      }
  }

  lemma BodyOkExtends(a: World, b: World, body: seq<seq<PolyType<Type>>>, kinds: seq<nat>, lenVars: nat)
    requires SigsExtend(a, b) && BodyOk(a, body, kinds, lenVars)
    ensures BodyOk(b, body, kinds, lenVars)
  {
    forall v, f | 0 <= v < |body| && 0 <= f < |body[v]|
      ensures FieldOk(b, body[v][f], kinds, lenVars)
    {
      FieldOkExtends(a, b, body[v][f], kinds, lenVars);
    }
  }

  lemma KeyFitsExtends(a: World, b: World, k: App)
    requires SigsExtend(a, b) && KeyFits(a, k)
    ensures KeyFits(b, k)
  {
  }

  // ---------------------------------------------------------------- interning

  lemma ShapesKeep(w: World, sh: Shapes, open: set<App>)
    requires Inv(w, open) && ShapesGrow(w.shapes, sh) && ShapesOk(sh)
    ensures Inv(w.(shapes := sh), open) && Grow(w, w.(shapes := sh))
  {
    var w2 := w.(shapes := sh);
    forall e: bool ensures SideOk(w2, e, open) {
      SideTransfers(w, w2, e, open, open);
    }
  }

  /** A whole table is still settled when it is untouched and everything it reads only grew. */
  lemma SideTransfers(w: World, w2: World, e: bool, open: set<App>, open2: set<App>)
    requires SideOk(w, e, open) && w2.Of(e) == w.Of(e)
    requires TablesGrow(w, w2) && SigsExtend(w, w2)
    requires forall k :: App(e, k) in open2 <==> App(e, k) in open
    ensures SideOk(w2, e, open2)
  {
    var s := w.Of(e);
    HeadersTransfer(w, w2, s);
    forall i | 0 <= i < |s.keys| ensures KeySettled(w2, e, i, open2) {
      SettledTransfers(w, w2, e, i, open, open2);
    }
  }

  /** A key whose declaration, header and owed status did not change is still settled. */
  lemma SettledTransfers(w: World, w2: World, e: bool, i: nat, open: set<App>, open2: set<App>)
    requires Lockstep(w.Of(e), e) && i < |w.Of(e).keys| && KeySettled(w, e, i, open)
    requires Lockstep(w2.Of(e), e) && i < |w2.Of(e).keys| && w2.Of(e).keys[i] == w.Of(e).keys[i]
    requires TablesGrow(w, w2) && SigsExtend(w, w2)
    requires DeclAt(w2.Of(e), i, e) == DeclAt(w.Of(e), i, e)
    requires w2.Of(e).headers[w.Of(e).keys[i].idx].body == w.Of(e).headers[w.Of(e).keys[i].idx].body
    requires w2.Of(e).pending == w.Of(e).pending && w.Of(e).deferred <= w2.Of(e).deferred
    requires Split(w2.Of(e)) == Split(w.Of(e))
    requires App(e, w.Of(e).keys[i]) in open2 <==> App(e, w.Of(e).keys[i]) in open
    ensures KeySettled(w2, e, i, open2)
  {
    var s, s2 := w.Of(e), w2.Of(e);
    var k := s.keys[i];
    KeyFitsExtends(w, w2, App(e, k));
    if App(e, k) !in open {
      if k.idx in s.pending {
        var d :| 0 <= d < |s.deferred| && s.deferred[d].inst == i - Split(s);
        assert s2.deferred[d] == s.deferred[d];
      } else {
        DenotesBodyGrows(w, w2, s.headers[k.idx].body, k.args, k.lens, DeclAt(s, i, e).body);
      }
    }
  }

  lemma HeadersTransfer(w: World, w2: World, s: Side)
    requires HeadersOk(w, s) && SigsExtend(w, w2)
    ensures HeadersOk(w2, s)
  {
    forall h | 0 <= h < |s.headers|
      ensures BodyOk(w2, s.headers[h].body, s.headers[h].kinds, s.headers[h].lenVars)
    {
      BodyOkExtends(w, w2, s.headers[h].body, s.headers[h].kinds, s.headers[h].lenVars);
    }
  }

  lemma HeadersSame(w: World, s: Side, s2: Side)
    requires HeadersOk(w, s) && s2.headers == s.headers && s2.pending == s.pending
    ensures HeadersOk(w, s2)
  {
  }

  // ---------------------------------------------------------------- minting

  function MintSide(s: Side, isEnum: bool, key: Key): Side {
    s.(keys := s.keys + [key],
       resolved := s.resolved + [Nominal(isEnum, s.base + |s.insts|)],
       insts := s.insts + [Decl([], key.modId)],
       deferred := if key.idx in s.pending then s.deferred + [Owed(|s.insts|, key.idx, key.args, key.lens)]
         else s.deferred)
  }

  function Mint(w: World, a: App): World {
    w.With(a.isEnum, MintSide(w.Of(a.isEnum), a.isEnum, a.key))
  }

  /** The keys on the recursion stack once `a` has been minted: a key whose header is still a placeholder
      is owed by the deferred list instead. */
  function OpenAfter(w: World, a: App, open: set<App>): set<App> {
    if a.key.idx in w.Of(a.isEnum).pending then open else open + {a}
  }

  lemma MintLockstep(s: Side, isEnum: bool, key: Key)
    requires Lockstep(s, isEnum) && s.base == |s.live| && key !in s.keys
    ensures Lockstep(MintSide(s, isEnum, key), isEnum)
    ensures SideGrow(s, MintSide(s, isEnum, key))
    ensures forall i :: 0 <= i < |s.keys| ==> DeclAt(MintSide(s, isEnum, key), i, isEnum) == DeclAt(s, i, isEnum)
    ensures DeclAt(MintSide(s, isEnum, key), |s.keys|, isEnum) == Decl([], key.modId)
  {
  }

  lemma MintDeferred(s: Side, isEnum: bool, key: Key)
    requires Lockstep(s, isEnum) && DeferredOk(s, isEnum) && s.base == |s.live| && key !in s.keys
    ensures Lockstep(MintSide(s, isEnum, key), isEnum) && DeferredOk(MintSide(s, isEnum, key), isEnum)
  {
    MintLockstep(s, isEnum, key);
    var s2 := MintSide(s, isEnum, key);
    assert |s.insts| <= |s.keys| && Split(s2) == Split(s);
    hide Lockstep, Split;
    forall d | 0 <= d < |s2.deferred|
      ensures s2.deferred[d].inst < |s2.insts| && s2.deferred[d].header in s2.pending
      ensures var k := s2.keys[Split(s) + s2.deferred[d].inst];
              k.idx == s2.deferred[d].header && k.args == s2.deferred[d].args && k.lens == s2.deferred[d].lens
    {
      if d < |s.deferred| {
        assert s2.deferred[d] == s.deferred[d];
        assert s2.keys[Split(s) + s.deferred[d].inst] == s.keys[Split(s) + s.deferred[d].inst];
      }
    }
  }

  /** The freshly minted key is owed, by the recursion stack or by the deferred list. */
  lemma MintSettlesNew(w: World, e: bool, key: Key, open2: set<App>)
    requires Lockstep(w.Of(e), e) && Based(w) && KeyFits(w, App(e, key)) && key !in w.Of(e).keys
    requires key.idx in w.Of(e).pending <==> App(e, key) !in open2
    ensures Lockstep(Mint(w, App(e, key)).Of(e), e)
    ensures KeySettled(Mint(w, App(e, key)), e, |w.Of(e).keys|, open2)
  {
    var s, w2 := w.Of(e), Mint(w, App(e, key));
    MintLockstep(s, e, key);
    KeyFitsExtends(w, w2, App(e, key));
    if key.idx in s.pending {
      assert w2.Of(e).deferred[|s.deferred|].inst == |s.keys| - Split(w2.Of(e));
    }
  }

  lemma MintSettlesOld(w: World, e: bool, key: Key, open: set<App>, open2: set<App>, i: nat)
    requires SideOk(w, e, open) && Based(w) && key !in w.Of(e).keys && i < |w.Of(e).keys|
    requires App(e, w.Of(e).keys[i]) in open2 <==> App(e, w.Of(e).keys[i]) in open
    ensures Lockstep(Mint(w, App(e, key)).Of(e), e)
    ensures KeySettled(Mint(w, App(e, key)), e, i, open2)
  {
    MintLockstep(w.Of(e), e, key);
    SettledTransfers(w, Mint(w, App(e, key)), e, i, open, open2);
  }

  lemma MintSideOk(w: World, e: bool, key: Key, open: set<App>, open2: set<App>)
    requires SideOk(w, e, open) && Based(w) && KeyFits(w, App(e, key)) && key !in w.Of(e).keys
    requires key.idx in w.Of(e).pending <==> App(e, key) !in open2
    requires forall k :: k != key ==> (App(e, k) in open2 <==> App(e, k) in open)
    ensures SideOk(Mint(w, App(e, key)), e, open2)
  {
    var w2 := Mint(w, App(e, key));
    var s, s2 := w.Of(e), w2.Of(e);
    hide KeySettled, KeyFits, DeferredOk, HeadersOk;
    MintDeferred(s, e, key);
    MintLockstep(s, e, key);
    HeadersTransfer(w, w2, s);
    HeadersSame(w2, s, s2);
    MintSettlesNew(w, e, key, open2);
    forall i | 0 <= i < |s2.keys| ensures KeySettled(w2, e, i, open2) {
      if i < |s.keys| {
        MintSettlesOld(w, e, key, open, open2, i);
      }
    }
  }

  lemma MintKeeps(w: World, a: App, open: set<App>)
    requires Inv(w, open) && Based(w) && KeyFits(w, a) && a.key !in w.Of(a.isEnum).keys
    ensures Inv(Mint(w, a), OpenAfter(w, a, open)) && Grow(w, Mint(w, a)) && Based(Mint(w, a))
  {
    var w2, open2 := Mint(w, a), OpenAfter(w, a, open);
    MintLockstep(w.Of(a.isEnum), a.isEnum, a.key);
    MintSideOk(w, a.isEnum, a.key, open, open2);
    SideTransfers(w, w2, !a.isEnum, open, open2);
    forall b | b in open2 ensures b.key in w2.Of(b.isEnum).keys {
      assert b in open || b == a;
    }
  }

  // ---------------------------------------------------------------- writing an owed field list

  function SetBodySide(s: Side, inst: nat, body: seq<seq<Type>>): Side
    requires inst < |s.insts|
  {
    s.(insts := s.insts[inst := s.insts[inst].(body := body)])
  }

  lemma SetBodyLockstep(s: Side, e: bool, inst: nat, body: seq<seq<Type>>)
    requires Lockstep(s, e) && inst < |s.insts|
    ensures Lockstep(SetBodySide(s, inst, body), e)
    ensures forall i :: 0 <= i < |s.keys| && i != Split(s) + inst ==>
              DeclAt(SetBodySide(s, inst, body), i, e) == DeclAt(s, i, e)
    ensures DeclAt(SetBodySide(s, inst, body), Split(s) + inst, e) == DeclAt(s, Split(s) + inst, e).(body := body)
  {
  }

  lemma SetBodySideOk(w: World, e: bool, key: Key, inst: nat, body: seq<seq<Type>>, open: set<App>, open2: set<App>)
    requires SideOk(w, e, open) && App(e, key) in open && App(e, key) !in open2
    requires forall k :: k != key ==> (App(e, k) in open2 <==> App(e, k) in open)
    requires inst < |w.Of(e).insts| && w.Of(e).keys[Split(w.Of(e)) + inst] == key && key.idx < |w.Of(e).headers|
    requires DenotesBody(w, w.Of(e).headers[key.idx].body, key.args, key.lens, body)
    ensures SideOk(w.With(e, SetBodySide(w.Of(e), inst, body)), e, open2)
  {
    var s := w.Of(e);
    var s2 := SetBodySide(s, inst, body);
    var w2 := w.With(e, s2);
    SetBodyLockstep(s, e, inst, body);
    HeadersTransfer(w, w2, s);
    HeadersSame(w2, s, s2);
    SetBodySettles(w, e, key, inst, body, open, open2);
    hide KeySettled, HeadersOk, DenotesBody;
    forall i | 0 <= i < |s.keys| ensures KeySettled(w2, e, i, open2) {
      if i != Split(s) + inst {
        assert s.keys[i] != key;
        SettledTransfers(w, w2, e, i, open, open2);
      }
    }
  }

  /** The key whose field list was written. */
  lemma SetBodySettles(w: World, e: bool, key: Key, inst: nat, body: seq<seq<Type>>, open: set<App>, open2: set<App>)
    requires SideOk(w, e, open) && App(e, key) in open && App(e, key) !in open2
    requires inst < |w.Of(e).insts| && w.Of(e).keys[Split(w.Of(e)) + inst] == key && key.idx < |w.Of(e).headers|
    requires DenotesBody(w, w.Of(e).headers[key.idx].body, key.args, key.lens, body)
    ensures Lockstep(w.With(e, SetBodySide(w.Of(e), inst, body)).Of(e), e)
    ensures KeySettled(w.With(e, SetBodySide(w.Of(e), inst, body)), e, Split(w.Of(e)) + inst, open2)
  {
    var s, w2, j := w.Of(e), w.With(e, SetBodySide(w.Of(e), inst, body)), Split(w.Of(e)) + inst;
    SetBodyLockstep(s, e, inst, body);
    assert KeySettled(w, e, j, open);
    hide SideOk, Lockstep;
    KeyFitsExtends(w, w2, App(e, key));
    DenotesBodyGrows(w, w2, s.headers[key.idx].body, key.args, key.lens, body);
  }

  lemma SetBodyKeeps(w: World, a: App, inst: nat, body: seq<seq<Type>>, open: set<App>)
    requires Inv(w, open + {a}) && a !in open
    requires inst < |w.Of(a.isEnum).insts| && w.Of(a.isEnum).keys[Split(w.Of(a.isEnum)) + inst] == a.key
    requires a.key.idx < |w.Of(a.isEnum).headers|
    requires DenotesBody(w, w.Of(a.isEnum).headers[a.key.idx].body, a.key.args, a.key.lens, body)
    ensures Inv(w.With(a.isEnum, SetBodySide(w.Of(a.isEnum), inst, body)), open)
    ensures Grow(w, w.With(a.isEnum, SetBodySide(w.Of(a.isEnum), inst, body)))
  {
    var w2 := w.With(a.isEnum, SetBodySide(w.Of(a.isEnum), inst, body));
    SetBodySideOk(w, a.isEnum, a.key, inst, body, open + {a}, open);
    SideTransfers(w, w2, !a.isEnum, open + {a}, open);
  }
}
