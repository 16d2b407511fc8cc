/** What a ground type stands for once every handle is expanded away, and why the order in which a history
    minted, deferred, flushed and interned things cannot be observed. */
module Expansion {
  import opened Types
  import opened Worlds
  import opened Invariant
  import opened History

  /** A type with every registry handle expanded down to primitives, constructors and declared nominals. */
  datatype Sym =
    | SPrim(tag: nat)
    | SUser(isEnum: bool, id: nat)
    | SInst(isEnum: bool, idx: nat, modId: nat, args: seq<Sym>, lens: seq<nat>)
    | SArray(elem: Sym, count: nat)
    | SCell(payload: Sym)
    | SRef(referent: Sym, mutable: bool)
    | SSlice(elem: Sym, mutable: bool)
    | SQuot(ins: seq<Sym>, outs: seq<Sym>, flavour: Flavour)
    | SCtor(isEnum: bool, idx: nat, modId: nat)

  /** `t` expands to `s` in world `w`. */
  ghost predicate Means(w: World, t: Type, s: Sym)
    decreases s
  {
    match s
    case SPrim(tag) => t == Prim(tag)
    case SUser(isEnum, id) =>
      t == Nominal(isEnum, id) && id < |w.Of(isEnum).live| && InstantiationOf(w, isEnum, id).None?
    case SInst(isEnum, idx, modId, sargs, lens) =>
      && t.Nominal? && t.isEnum == isEnum && InstantiationOf(w, isEnum, t.id).Some?
      && var k := InstantiationOf(w, isEnum, t.id).value;
         k.idx == idx && k.modId == modId && k.lens == lens && MeansAll(w, k.args, sargs)
    case SArray(elem, count) =>
      t.Array? && t.id < |w.shapes.arrays| && w.shapes.arrays[t.id].count == count &&
        Means(w, w.shapes.arrays[t.id].elem, elem)
    case SCell(payload) =>
      t.Cell? && t.id < |w.shapes.cells| && Means(w, w.shapes.cells[t.id], payload)
    case SRef(referent, mutable) =>
      t.Ref? && t.mutable == mutable && t.id < |w.shapes.refs| && w.shapes.refs[t.id].mutable == mutable &&
        Means(w, w.shapes.refs[t.id].target, referent)
    case SSlice(elem, mutable) =>
      t.Slice? && t.mutable == mutable && t.id < |w.shapes.slices| && w.shapes.slices[t.id].mutable == mutable &&
        Means(w, w.shapes.slices[t.id].target, elem)
    case SQuot(ins, outs, flavour) =>
      t.Quot? && t.flavour == flavour && MeansAll(w, t.ins, ins) && MeansAll(w, t.outs, outs)
    case SCtor(isEnum, idx, modId) => t == Ctor(isEnum, idx, modId)
  }

  ghost predicate MeansAll(w: World, ts: seq<Type>, ss: seq<Sym>)
    decreases ss
  {
    |ts| == |ss| && forall i :: 0 <= i < |ss| ==> Means(w, ts[i], ss[i])
  }

  // ---------------------------------------------------------------- equality is expansion equality

  lemma {:induction false} MeansUnique(w: World, t: Type, s1: Sym, s2: Sym)
    requires Means(w, t, s1) && Means(w, t, s2)
    ensures s1 == s2
    decreases s1
  {
    match s1
    case SPrim(_) =>
    case SUser(_, _) =>
    case SInst(_, _, _, sargs, _) => MeansAllUnique(w, InstantiationOf(w, t.isEnum, t.id).value.args, sargs, s2.args);
    case SArray(elem, _) => MeansUnique(w, w.shapes.arrays[t.id].elem, elem, s2.elem);
    case SCell(payload) => MeansUnique(w, w.shapes.cells[t.id], payload, s2.payload);
    case SRef(referent, _) => MeansUnique(w, w.shapes.refs[t.id].target, referent, s2.referent);
    case SSlice(elem, _) => MeansUnique(w, w.shapes.slices[t.id].target, elem, s2.elem);
    case SQuot(ins, outs, _) =>
      MeansAllUnique(w, t.ins, ins, s2.ins);
      MeansAllUnique(w, t.outs, outs, s2.outs);
    case SCtor(_, _, _) =>
  }

  lemma {:induction false} MeansAllUnique(w: World, ts: seq<Type>, ss1: seq<Sym>, ss2: seq<Sym>)
    requires MeansAll(w, ts, ss1) && MeansAll(w, ts, ss2)
    ensures ss1 == ss2
    decreases ss1
  {
    forall i | 0 <= i < |ss1| ensures ss1[i] == ss2[i] {
      MeansUnique(w, ts[i], ss1[i], ss2[i]);
    }
  }

  lemma {:induction false} MeansInjective(w: World, open: set<App>, t1: Type, t2: Type, s: Sym)
    requires Inv(w, open) && Means(w, t1, s) && Means(w, t2, s)
    ensures t1 == t2
    decreases s
  {
    hide SideOk;
    match s
    case SPrim(_) =>
    case SUser(_, _) =>
    case SInst(e, _, _, sargs, _) =>
      var k1, k2 := InstantiationOf(w, e, t1.id).value, InstantiationOf(w, e, t2.id).value;
      MeansAllInjective(w, open, k1.args, k2.args, sargs);
      LookupsInverse(w, open, App(e, k1), t1.id);
      LookupsInverse(w, open, App(e, k1), t2.id);
    case SArray(elem, _) => MeansInjective(w, open, w.shapes.arrays[t1.id].elem, w.shapes.arrays[t2.id].elem, elem);
    case SCell(payload) => MeansInjective(w, open, w.shapes.cells[t1.id], w.shapes.cells[t2.id], payload);
    case SRef(referent, _) =>
      MeansInjective(w, open, w.shapes.refs[t1.id].target, w.shapes.refs[t2.id].target, referent);
    case SSlice(elem, _) => MeansInjective(w, open, w.shapes.slices[t1.id].target, w.shapes.slices[t2.id].target, elem);
    case SQuot(ins, outs, _) =>
      MeansAllInjective(w, open, t1.ins, t2.ins, ins);
      MeansAllInjective(w, open, t1.outs, t2.outs, outs);
    case SCtor(_, _, _) =>
  }

  lemma {:induction false} MeansAllInjective(w: World, open: set<App>, ts1: seq<Type>, ts2: seq<Type>, ss: seq<Sym>)
    requires Inv(w, open) && MeansAll(w, ts1, ss) && MeansAll(w, ts2, ss)
    ensures ts1 == ts2
    decreases ss
  {
    forall i | 0 <= i < |ss| ensures ts1[i] == ts2[i] {
      MeansInjective(w, open, ts1[i], ts2[i], ss[i]);
    }
  }

  /** Comparing two handles decides whether the types they stand for are the same. */
  lemma EqualityIsExpansionEquality(w: World, open: set<App>, t1: Type, t2: Type, s1: Sym, s2: Sym)
    requires Inv(w, open) && Means(w, t1, s1) && Means(w, t2, s2)
    ensures t1 == t2 <==> s1 == s2
  {
    if t1 == t2 {
      MeansUnique(w, t1, s1, s2);
    }
    if s1 == s2 {
      MeansInjective(w, open, t1, t2, s1);
    }
  }

  // ---------------------------------------------------------------- meanings survive every operation

  lemma InstantiationStays(a: World, b: World, e: bool, id: nat)
    requires Inv(a, {}) && Inv(b, {}) && Evolves(a, b)
    ensures InstantiationOf(a, e, id).Some? ==> InstantiationOf(b, e, id) == InstantiationOf(a, e, id)
    ensures InstantiationOf(a, e, id).None? && id < |a.Of(e).live| ==> InstantiationOf(b, e, id).None?
  {
    hide KeySettled, DeferredOk, HeadersOk, ShapesOk;
    var s, t := a.Of(e), b.Of(e);
    SideLockstep(a, e);
    SideLockstep(b, e);
    assert SideEvolves(s, t, e);
    InstantiationStaysIn(s, t, e, id);
  }

  lemma LiveStays(a: World, b: World, e: bool)
    requires Inv(a, {}) && Inv(b, {}) && Evolves(a, b)
    ensures |a.Of(e).live| <= |b.Of(e).live|
  {
    SideLockstep(a, e);
    SideLockstep(b, e);
    assert SideEvolves(a.Of(e), b.Of(e), e);
  }

  lemma InstantiationStaysIn(s: Side, t: Side, e: bool, id: nat)
    requires Lockstep(s, e) && Lockstep(t, e) && SideEvolves(s, t, e)
    ensures Nominal(e, id) in s.resolved ==>
              IndexOf(t.resolved, Nominal(e, id)) == IndexOf(s.resolved, Nominal(e, id)) &&
                t.keys[IndexOf(s.resolved, Nominal(e, id))] == s.keys[IndexOf(s.resolved, Nominal(e, id))]
    ensures Nominal(e, id) !in s.resolved && id < |s.live| ==> Nominal(e, id) !in t.resolved
  {
    if Nominal(e, id) in s.resolved {
      IndexOfGrows(s.resolved, t.resolved, Nominal(e, id));
    }
  }

  lemma {:induction false} MeansStays(a: World, b: World, t: Type, s: Sym)
    requires Inv(a, {}) && Inv(b, {}) && Evolves(a, b) && ShapesGrow(a.shapes, b.shapes) && Means(a, t, s)
    ensures Means(b, t, s)
    decreases s
  {
    hide Inv;
    match s
    case SPrim(_) =>
    case SUser(e, id) => InstantiationStays(a, b, e, id); LiveStays(a, b, e);
    case SInst(e, _, _, sargs, _) =>
      InstantiationStays(a, b, e, t.id);
      MeansAllStays(a, b, InstantiationOf(a, e, t.id).value.args, sargs);
    case SArray(elem, _) => MeansStays(a, b, a.shapes.arrays[t.id].elem, elem);
    case SCell(payload) => MeansStays(a, b, a.shapes.cells[t.id], payload);
    case SRef(referent, _) => MeansStays(a, b, a.shapes.refs[t.id].target, referent);
    case SSlice(elem, _) => MeansStays(a, b, a.shapes.slices[t.id].target, elem);
    case SQuot(ins, outs, _) => MeansAllStays(a, b, t.ins, ins); MeansAllStays(a, b, t.outs, outs);
    case SCtor(_, _, _) =>
  }

  lemma {:induction false} MeansAllStays(a: World, b: World, ts: seq<Type>, ss: seq<Sym>)
    requires Inv(a, {}) && Inv(b, {}) && Evolves(a, b) && ShapesGrow(a.shapes, b.shapes) && MeansAll(a, ts, ss)
    ensures MeansAll(b, ts, ss)
    decreases ss
  {
    hide Inv;
    forall i | 0 <= i < |ss| ensures Means(b, ts[i], ss[i]) {
      MeansStays(a, b, ts[i], ss[i]);
    }
  }

  // ---------------------------------------------------------------- the registry-free meaning of a field

  /** A field's meaning at symbolic arguments: plain substitution, with no registry at all. */
  function SymSubst(q: PolyType<Sym>, args: seq<Sym>, lens: seq<nat>): Option<Sym>
    decreases q
  {
    match q
    case Concrete(s) => Some(s)
    case Var(v) => if v < |args| then Some(args[v]) else None
    case PArray(elem, len) =>
      (match (SymSubst(elem, args, lens), LenValue(len, lens))
       case (Some(s), Some(n)) => Some(SArray(s, n))
       case _ => None)
    case PRef(referent, mutable) =>
      (match SymSubst(referent, args, lens) case Some(s) => Some(SRef(s, mutable)) case None => None)
    case PCell(payload) =>
      (match SymSubst(payload, args, lens) case Some(s) => Some(SCell(s)) case None => None)
    case PGeneric(isEnum, idx, modId, gargs, glens) =>
      (match (SymSubstAll(gargs, args, lens), LenValues(glens, lens))
       case (Some(ss), Some(ns)) => Some(SInst(isEnum, idx, modId, ss, ns))
       case _ => None)
    case PApp(head, fargs) =>
      (match SymSubstAll(fargs, args, lens)
       case Some(ss) =>
         if head < |args| then
           match args[head]
           case SCtor(isEnum, idx, modId) => Some(SInst(isEnum, idx, modId, ss, []))
           case other => Some(other)
         else None
       case None => None)
    case PQuot(ins, outs, inline) =>
      (match (SymSubstAll(ins, args, lens), SymSubstAll(outs, args, lens))
       case (Some(i), Some(o)) => Some(SQuot(i, o, if inline then Inline else Plain))
       case _ => None)
    case PQuotLit => None
    case PVariant(_, _, _, _, _) => None
  }

  function SymSubstAll(qs: seq<PolyType<Sym>>, args: seq<Sym>, lens: seq<nat>): (r: Option<seq<Sym>>)
    ensures r.Some? ==> |r.value| == |qs|
    decreases qs
  {
    if qs == [] then Some([])
    else
      match (SymSubst(qs[0], args, lens), SymSubstAll(qs[1..], args, lens))
      case (Some(s), Some(ss)) => Some([s] + ss)
      case _ => None
  }

  /** Two spellings of one field: `q` is `p` with each concrete leaf expanded. */
  ghost predicate Spells(w: World, p: PolyType<Type>, q: PolyType<Sym>)
    decreases p
  {
    match p
    case Concrete(t) => q.Concrete? && Means(w, t, q.ty)
    case Var(v) => q == Var(v)
    case PArray(elem, len) => q.PArray? && q.len == len && Spells(w, elem, q.elem)
    case PRef(referent, mutable) => q.PRef? && q.mutable == mutable && Spells(w, referent, q.referent)
    case PCell(payload) => q.PCell? && Spells(w, payload, q.payload)
    case PGeneric(isEnum, idx, modId, args, lens) =>
      q.PGeneric? && q.isEnum == isEnum && q.idx == idx && q.modId == modId && q.lens == lens &&
        SpellsAll(w, args, q.args)
    case PApp(head, args) => q.PApp? && q.head == head && SpellsAll(w, args, q.args)
    case PQuot(ins, outs, inline) =>
      q.PQuot? && q.inline == inline && SpellsAll(w, ins, q.ins) && SpellsAll(w, outs, q.outs)
    case PQuotLit => false
    case PVariant(_, _, _, _, _) => false
  }

  ghost predicate SpellsAll(w: World, ps: seq<PolyType<Type>>, qs: seq<PolyType<Sym>>)
    decreases ps
  {
    |ps| == |qs| && (ps != [] ==> Spells(w, ps[0], qs[0]) && SpellsAll(w, ps[1..], qs[1..]))
  }

  /** Reading a field off the registries and expanding the result is the same as substituting symbolically:
      the monomorphiser's handles carry no more and no less than the field says. */
  lemma {:induction false} DenoteMeans(w: World, open: set<App>, p: PolyType<Type>, q: PolyType<Sym>, args: seq<Type>,
        sargs: seq<Sym>, lens: seq<nat>)
    requires Inv(w, open) && Spells(w, p, q) && MeansAll(w, args, sargs) && Denote(w, p, args, lens).Some?
    ensures SymSubst(q, sargs, lens).Some? && Means(w, Denote(w, p, args, lens).value, SymSubst(q, sargs, lens).value)
    decreases p
  {
    DenoteUnder(w, p, args, lens);
    SpellsUnder(w, p, q);
    hide Inv, Lookup, MeansAll, Means, Spells, SpellsAll, Denote, DenoteAll, SymSubst, SymSubstAll;
    match p
    case Concrete(_) => DenoteLeafMeans(w, p, q, args, sargs, lens);
    case Var(_) => DenoteLeafMeans(w, p, q, args, sargs, lens);
    case PArray(_, _) =>
      DenoteMeans(w, open, Under(p), Under(q), args, sargs, lens);
      DenoteUnderMeans(w, p, q, args, sargs, lens);
    case PRef(_, _) =>
      DenoteMeans(w, open, Under(p), Under(q), args, sargs, lens);
      DenoteUnderMeans(w, p, q, args, sargs, lens);
    case PCell(_) =>
      DenoteMeans(w, open, Under(p), Under(q), args, sargs, lens);
      DenoteUnderMeans(w, p, q, args, sargs, lens);
    case PGeneric(_, _, _, gargs, _) =>
      DenoteAllMeans(w, open, gargs, q.args, args, sargs, lens);
      DenoteGenericMeans(w, open, p, q, args, sargs, lens);
    case PApp(_, fargs) =>
      DenoteAllMeans(w, open, fargs, q.args, args, sargs, lens);
      DenoteAppMeans(w, open, p, q, args, sargs, lens);
    case PQuot(ins, outs, _) =>
      DenoteAllMeans(w, open, ins, q.ins, args, sargs, lens);
      DenoteAllMeans(w, open, outs, q.outs, args, sargs, lens);
      DenoteQuotMeans(w, p, q, args, sargs, lens);
  }

  lemma SpellsUnder(w: World, p: PolyType<Type>, q: PolyType<Sym>)
    requires Spells(w, p, q)
    ensures !p.PQuotLit? && !p.PVariant?
    ensures p.PArray? || p.PRef? || p.PCell? ==> (q.PArray? || q.PRef? || q.PCell?) && Spells(w, Under(p), Under(q))
    ensures p.PGeneric? ==> q.PGeneric? && SpellsAll(w, p.args, q.args)
    ensures p.PApp? ==> q.PApp? && SpellsAll(w, p.args, q.args)
    ensures p.PQuot? ==> q.PQuot? && SpellsAll(w, p.ins, q.ins) && SpellsAll(w, p.outs, q.outs)
  {
    hide SpellsAll;
  }

  lemma DenoteUnder(w: World, p: PolyType<Type>, args: seq<Type>, lens: seq<nat>)
    requires Denote(w, p, args, lens).Some?
    ensures p.PArray? || p.PRef? || p.PCell? ==> Denote(w, Under(p), args, lens).Some?
    ensures p.PGeneric? || p.PApp? ==> DenoteAll(w, p.args, args, lens).Some?
    ensures p.PQuot? ==> DenoteAll(w, p.ins, args, lens).Some? && DenoteAll(w, p.outs, args, lens).Some?
  {
    hide DenoteAll;
  }

  lemma DenoteLeafMeans(w: World, p: PolyType<Type>, q: PolyType<Sym>, args: seq<Type>, sargs: seq<Sym>, lens: seq<nat>)
    requires p.Concrete? || p.Var?
    requires Spells(w, p, q) && MeansAll(w, args, sargs) && Denote(w, p, args, lens).Some?
    ensures SymSubst(q, sargs, lens).Some? && Means(w, Denote(w, p, args, lens).value, SymSubst(q, sargs, lens).value)
  {
    hide Means, MeansAll;
    if p.Var? { MeansAllAt(w, args, sargs, p.v); }
  }

  lemma DenoteUnderMeans(w: World, p: PolyType<Type>, q: PolyType<Sym>, args: seq<Type>, sargs: seq<Sym>,
        lens: seq<nat>)
    requires (p.PArray? || p.PRef? || p.PCell?) && (q.PArray? || q.PRef? || q.PCell?)
    requires Spells(w, p, q) && Denote(w, p, args, lens).Some? && Denote(w, Under(p), args, lens).Some?
    requires SymSubst(Under(q), sargs, lens).Some?
    requires Means(w, Denote(w, Under(p), args, lens).value, SymSubst(Under(q), sargs, lens).value)
    ensures SymSubst(q, sargs, lens).Some? && Means(w, Denote(w, p, args, lens).value, SymSubst(q, sargs, lens).value)
  {
  }

  lemma DenoteQuotMeans(w: World, p: PolyType<Type>, q: PolyType<Sym>, args: seq<Type>, sargs: seq<Sym>, lens: seq<nat>)
    requires p.PQuot? && q.PQuot? && Spells(w, p, q) && Denote(w, p, args, lens).Some?
    requires DenoteAll(w, p.ins, args, lens).Some? && DenoteAll(w, p.outs, args, lens).Some?
    requires SymSubstAll(q.ins, sargs, lens).Some? && SymSubstAll(q.outs, sargs, lens).Some?
    requires MeansAll(w, DenoteAll(w, p.ins, args, lens).value, SymSubstAll(q.ins, sargs, lens).value)
    requires MeansAll(w, DenoteAll(w, p.outs, args, lens).value, SymSubstAll(q.outs, sargs, lens).value)
    ensures SymSubst(q, sargs, lens).Some? && Means(w, Denote(w, p, args, lens).value, SymSubst(q, sargs, lens).value)
  {
    hide MeansAll, DenoteAll, SymSubstAll;
  }

  lemma DenoteGenericMeans(w: World, open: set<App>, p: PolyType<Type>, q: PolyType<Sym>, args: seq<Type>,
        sargs: seq<Sym>, lens: seq<nat>)
    requires p.PGeneric? && Inv(w, open) && Spells(w, p, q) && Denote(w, p, args, lens).Some?
    requires SymSubstAll(q.args, sargs, lens).Some?
    requires MeansAll(w, DenoteAll(w, p.args, args, lens).value, SymSubstAll(q.args, sargs, lens).value)
    ensures SymSubst(q, sargs, lens).Some? && Means(w, Denote(w, p, args, lens).value, SymSubst(q, sargs, lens).value)
  {
    hide Inv, Lookup, MeansAll;
    LookupMeans(w, open,
                App(p.isEnum,
                    Key(p.idx, p.modId, DenoteAll(w, p.args, args, lens).value, LenValues(p.lens, lens).value)),
                SymSubstAll(q.args, sargs, lens).value);
  }

  lemma DenoteAppMeans(w: World, open: set<App>, p: PolyType<Type>, q: PolyType<Sym>, args: seq<Type>, sargs: seq<Sym>,
        lens: seq<nat>)
    requires p.PApp? && Inv(w, open) && Spells(w, p, q) && MeansAll(w, args, sargs) && Denote(w, p, args, lens).Some?
    requires SymSubstAll(q.args, sargs, lens).Some?
    requires MeansAll(w, DenoteAll(w, p.args, args, lens).value, SymSubstAll(q.args, sargs, lens).value)
    ensures SymSubst(q, sargs, lens).Some? && Means(w, Denote(w, p, args, lens).value, SymSubst(q, sargs, lens).value)
  {
    hide Inv, Lookup, MeansAll;
    MeansAllAt(w, args, sargs, p.head);
    AppMeans(w, open, args, sargs, p.head, DenoteAll(w, p.args, args, lens).value,
             SymSubstAll(q.args, sargs, lens).value);
  }

  lemma MeansAllAt(w: World, ts: seq<Type>, ss: seq<Sym>, i: nat)
    requires MeansAll(w, ts, ss) && i < |ts|
    ensures |ss| == |ts| && Means(w, ts[i], ss[i])
  {
  }

  lemma LookupMeans(w: World, open: set<App>, a: App, ss: seq<Sym>)
    requires Inv(w, open) && Lookup(w, a).Some? && MeansAll(w, a.key.args, ss)
    ensures Means(w, Lookup(w, a).value, SInst(a.isEnum, a.key.idx, a.key.modId, ss, a.key.lens))
  {
    hide Inv, Lookup, InstantiationOf;
    LookupsInverse(w, open, a, 0);
    LookupsInverse(w, open, a, Lookup(w, a).value.id);
  }

  lemma AppMeans(w: World, open: set<App>, args: seq<Type>, sargs: seq<Sym>, head: nat, ts: seq<Type>, ss: seq<Sym>)
    requires Inv(w, open) && MeansAll(w, args, sargs) && head < |args| && MeansAll(w, ts, ss)
    requires args[head].Ctor? ==> Lookup(w, App(args[head].isEnum, Key(args[head].idx, args[head].modId, ts, []))).Some?
    ensures args[head].Ctor? <==> sargs[head].SCtor?
    ensures args[head].Ctor? ==>
              var t := args[head];
              sargs[head] == SCtor(t.isEnum, t.idx, t.modId) &&
              Means(w, Lookup(w, App(t.isEnum, Key(t.idx, t.modId, ts, []))).value,
                    SInst(t.isEnum, t.idx, t.modId, ss, []))
    ensures Means(w, args[head], sargs[head])
  {
    hide Inv;
    assert Means(w, args[head], sargs[head]);
    if args[head].Ctor? {
      var t := args[head];
      LookupMeans(w, open, App(t.isEnum, Key(t.idx, t.modId, ts, [])), ss);
    }
  }

  lemma {:induction false} DenoteAllMeans(w: World, open: set<App>, ps: seq<PolyType<Type>>, qs: seq<PolyType<Sym>>,
        args: seq<Type>, sargs: seq<Sym>, lens: seq<nat>)
    requires Inv(w, open) && SpellsAll(w, ps, qs) && MeansAll(w, args, sargs) && DenoteAll(w, ps, args, lens).Some?
    ensures SymSubstAll(qs, sargs, lens).Some?
    ensures MeansAll(w, DenoteAll(w, ps, args, lens).value, SymSubstAll(qs, sargs, lens).value)
    decreases ps
  {
    hide Inv;
    if ps != [] {
      DenoteMeans(w, open, ps[0], qs[0], args, sargs, lens);
      DenoteAllMeans(w, open, ps[1..], qs[1..], args, sargs, lens);
      var ts, ss := DenoteAll(w, ps, args, lens).value, SymSubstAll(qs, sargs, lens).value;
      forall i | 0 <= i < |ss| ensures Means(w, ts[i], ss[i]) {
        if i > 0 {
          assert ts[i] == DenoteAll(w, ps[1..], args, lens).value[i - 1];
        }
      }
    }
  }

  // ---------------------------------------------------------------- histories cannot be told apart

  ghost predicate SpellsBody(w: World, body: seq<seq<PolyType<Type>>>, spec: seq<seq<PolyType<Sym>>>) {
    |body| == |spec| && forall v :: 0 <= v < |body| ==> SpellsAll(w, body[v], spec[v])
  }

  lemma SpellsAllAt(w: World, ps: seq<PolyType<Type>>, qs: seq<PolyType<Sym>>, f: nat)
    requires SpellsAll(w, ps, qs) && f < |ps|
    ensures Spells(w, ps[f], qs[f])
  {
    if f > 0 {
      SpellsAllAt(w, ps[1..], qs[1..], f - 1);
    }
  }

  /** The fields of a minted declaration expand to its header's fields substituted symbolically. */
  lemma FieldsMean(w: World, e: bool, i: nat, spec: seq<seq<PolyType<Sym>>>, sargs: seq<Sym>, v: nat, f: nat)
    requires Inv(w, {}) && i < |w.Of(e).keys| && w.Of(e).keys[i].idx !in w.Of(e).pending
    requires w.Of(e).keys[i].idx < |w.Of(e).headers|
    requires SpellsBody(w, w.Of(e).headers[w.Of(e).keys[i].idx].body, spec) && MeansAll(w, w.Of(e).keys[i].args, sargs)
    requires v < |spec| && f < |spec[v]|
    ensures var d := DeclAt(w.Of(e), i, e).body;
            |d| == |spec| && |d[v]| == |spec[v]| && SymSubst(spec[v][f], sargs, w.Of(e).keys[i].lens).Some? &&
            Means(w, d[v][f], SymSubst(spec[v][f], sargs, w.Of(e).keys[i].lens).value)
  {
    var k := w.Of(e).keys[i];
    var body := w.Of(e).headers[k.idx].body;
    assert KeySettled(w, e, i, {});
    assert SpellsAll(w, body[v], spec[v]);
    SpellsAllAt(w, body[v], spec[v], f);
    DenoteMeans(w, {}, body[v][f], spec[v][f], k.args, sargs, k.lens);
  }

  /** Deferral, minting order, flushing and interning order are invisible: two legal histories that hold the
      same header, and mint it at the same arguments, give every field the same expansion, whether
      either minted it before or after the header was filled. */
  lemma HistoriesAgree(w1: World, w2: World, e: bool, i1: nat, i2: nat, spec: seq<seq<PolyType<Sym>>>, sargs: seq<Sym>,
        v: nat, f: nat)
    requires Inv(w1, {}) && i1 < |w1.Of(e).keys| && w1.Of(e).keys[i1].idx !in w1.Of(e).pending
    requires w1.Of(e).keys[i1].idx < |w1.Of(e).headers|
    requires Inv(w2, {}) && i2 < |w2.Of(e).keys| && w2.Of(e).keys[i2].idx !in w2.Of(e).pending
    requires w2.Of(e).keys[i2].idx < |w2.Of(e).headers|
    requires SpellsBody(w1, w1.Of(e).headers[w1.Of(e).keys[i1].idx].body, spec)
    requires MeansAll(w1, w1.Of(e).keys[i1].args, sargs)
    requires SpellsBody(w2, w2.Of(e).headers[w2.Of(e).keys[i2].idx].body, spec)
    requires MeansAll(w2, w2.Of(e).keys[i2].args, sargs)
    requires w1.Of(e).keys[i1].lens == w2.Of(e).keys[i2].lens
    requires v < |spec| && f < |spec[v]|
    ensures var d1, d2 := DeclAt(w1.Of(e), i1, e).body, DeclAt(w2.Of(e), i2, e).body;
            |d1| == |d2| == |spec| && |d1[v]| == |d2[v]| == |spec[v]| &&
            forall s :: Means(w1, d1[v][f], s) <==> Means(w2, d2[v][f], s)
  {
    FieldsMean(w1, e, i1, spec, sargs, v, f);
    FieldsMean(w2, e, i2, spec, sargs, v, f);
    var d1, d2 := DeclAt(w1.Of(e), i1, e).body, DeclAt(w2.Of(e), i2, e).body;
    var r := SymSubst(spec[v][f], sargs, w1.Of(e).keys[i1].lens).value;
    forall s ensures Means(w1, d1[v][f], s) <==> Means(w2, d2[v][f], s) {
      if Means(w1, d1[v][f], s) { MeansUnique(w1, d1[v][f], s, r); }
      if Means(w2, d2[v][f], s) { MeansUnique(w2, d2[v][f], s, r); }
    }
  }
}
