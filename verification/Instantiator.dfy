/** The imperative monomorphiser: `GenericTypes` over the registries it mints into. Each method is proved
    against the read-only denotation of `World` on every legal history. */
module Instantiator {
  import opened Types
  import opened Worlds
  import opened Invariant
  import opened Steps
  import opened Universe
  import opened Filling
  import opened History
  import opened Readback

  /** The live declaration registries and the interned shape registries. */
  class Registries {
    var structs: seq<Decl>
    var enums: seq<Decl>
    var arrays: seq<ArrayDecl>
    var cells: seq<Type>
    var refs: seq<BorrowDecl>
    var slices: seq<BorrowDecl>

    constructor ()
      ensures structs == [] && enums == [] && arrays == [] && cells == [] && refs == [] && slices == []
    {
      structs, enums, arrays, cells, refs, slices := [], [], [], [], [], [];
    }

    function AllShapes(): Shapes reads this { Shapes(arrays, cells, refs, slices) }

    method InternArray(elem: Type, count: nat) returns (t: Type)
      modifies this`arrays
      ensures arrays == Added(old(arrays), ArrayDecl(elem, count))
      ensures t == Array(IndexOf(arrays, ArrayDecl(elem, count)))
    {
      IndexOfAdded(arrays, ArrayDecl(elem, count));
      var idx := IndexOf(arrays, ArrayDecl(elem, count));
      if idx == |arrays| {
        arrays := arrays + [ArrayDecl(elem, count)];
      }
      return Array(idx);
    }

    method InternCell(payload: Type) returns (t: Type)
      modifies this`cells
      ensures cells == Added(old(cells), payload)
      ensures t == Cell(IndexOf(cells, payload))
    {
      IndexOfAdded(cells, payload);
      var idx := IndexOf(cells, payload);
      if idx == |cells| {
        cells := cells + [payload];
      }
      return Cell(idx);
    }

    method InternRef(referent: Type, mutable: bool) returns (t: Type)
      modifies this`refs
      ensures refs == Added(old(refs), BorrowDecl(referent, mutable))
      ensures t == Ref(IndexOf(refs, BorrowDecl(referent, mutable)), mutable)
    {
      IndexOfAdded(refs, BorrowDecl(referent, mutable));
      var idx := IndexOf(refs, BorrowDecl(referent, mutable));
      if idx == |refs| {
        refs := refs + [BorrowDecl(referent, mutable)];
      }
      return Ref(idx, mutable);
    }

    method InternSlice(elem: Type, mutable: bool) returns (t: Type)
      modifies this`slices
      ensures slices == Added(old(slices), BorrowDecl(elem, mutable))
      ensures t == Slice(IndexOf(slices, BorrowDecl(elem, mutable)), mutable)
    {
      IndexOfAdded(slices, BorrowDecl(elem, mutable));
      var idx := IndexOf(slices, BorrowDecl(elem, mutable));
      if idx == |slices| {
        slices := slices + [BorrowDecl(elem, mutable)];
      }
      return Slice(idx, mutable);
    }
  }

  // ---------------------------------------------------------------- the termination budget

  ghost function Minted(w: World): (r: set<App>)
    ensures forall a: App :: a in r <==> a.key in w.Of(a.isEnum).keys
  {
    (set i | 0 <= i < |w.structs.keys| :: App(false, w.structs.keys[i])) +
    (set i | 0 <= i < |w.enums.keys| :: App(true, w.enums.keys[i]))
  }

  /** How many applications of the finite universe are not memoised yet. */
  ghost function Budget(w: World, u: set<App>): nat { |u - Minted(w)| }

  lemma MintedGrows(w: World, w2: World)
    requires w.structs.keys <= w2.structs.keys && w.enums.keys <= w2.enums.keys
    ensures Minted(w) <= Minted(w2)
  {
    hide Minted;
    forall a | a in Minted(w) ensures a in Minted(w2) {
      var i :| 0 <= i < |w.Of(a.isEnum).keys| && w.Of(a.isEnum).keys[i] == a.key;
      assert w2.Of(a.isEnum).keys[i] == a.key;
    }
  }

  lemma BudgetGrow(w: World, w2: World, u: set<App>)
    requires Grow(w, w2)
    ensures Budget(w2, u) <= Budget(w, u)
  {
    MintedGrows(w, w2);
    hide Grow, Minted;
    SubsetSize(u - Minted(w2), u - Minted(w));
  }

  lemma BudgetMint(w: World, a: App, u: set<App>)
    requires a in u && a.key !in w.Of(a.isEnum).keys
    ensures Budget(Mint(w, a), u) < Budget(w, u)
  {
    MintAdds(w, a);
    hide Minted, Mint;
    SetShrinks(u, Minted(w), Minted(Mint(w, a)), a);
  }

  lemma MintAdds(w: World, a: App)
    requires a.key !in w.Of(a.isEnum).keys
    ensures Minted(w) <= Minted(Mint(w, a)) && a !in Minted(w) && a in Minted(Mint(w, a))
  {
    hide Minted;
    assert Mint(w, a).Of(a.isEnum).keys == w.Of(a.isEnum).keys + [a.key];
    MintedGrows(w, Mint(w, a));
  }

  lemma GrowTrans(a: World, b: World, c: World)
    requires Grow(a, b) && Grow(b, c)
    ensures Grow(a, c)
  {
  }

  /** What a caller of the instantiator needs to know about growth. */
  lemma GrowKeeps(w: World, w2: World, u: set<App>)
    requires Grow(w, w2)
    ensures TablesGrow(w, w2) && SigsExtend(w, w2)
    ensures w2.structs.headers == w.structs.headers && w2.enums.headers == w.enums.headers
    ensures w2.structs.pending == w.structs.pending && w2.enums.pending == w.enums.pending
    ensures Based(w) ==> Based(w2)
    ensures Closed(w, u) ==> Closed(w2, u)
    ensures Budget(w2, u) <= Budget(w, u)
  {
    BudgetGrow(w, w2, u);
    if Closed(w, u) {
      forall a | a in u ensures KeyFits(w2, a) { KeyFitsExtends(w, w2, a); }
    }
  }

  // Interning one more wrapped shape keeps everything, and makes the wrapping type denote its entry.

  lemma DenotesNothing(w: World, args: seq<Type>, lens: seq<nat>)
    ensures DenotesBody(w, [], args, lens, [])
  {
  }

  lemma DenotesBodySnoc(w: World, body: seq<seq<PolyType<Type>>>, v: nat, args: seq<Type>, lens: seq<nat>,
        out: seq<seq<Type>>, fields: seq<Type>)
    requires v < |body| && DenotesBody(w, body[..v], args, lens, out)
    requires DenoteAll(w, body[v], args, lens) == Some(fields)
    ensures DenotesBody(w, body[..v + 1], args, lens, out + [fields])
  {
    hide Denote;
    assert forall f :: 0 <= f < |body[v]| ==> Denote(w, body[v][f], args, lens) == Some(fields[f]);
  }

  lemma ArrayStep(w: World, w1: World, p: PolyType<Type>, args: seq<Type>, lens: seq<nat>, t: Type, n: nat,
        open: set<App>)
    requires Inv(w1, open) && Grow(w, w1) && p.PArray? && Denote(w1, p.elem, args, lens) == Some(t)
    requires LenValue(p.len, lens) == Some(n)
    ensures var w2 := w1.(shapes := w1.shapes.(arrays := Added(w1.shapes.arrays, ArrayDecl(t, n))));
            Inv(w2, open) && Grow(w, w2) &&
              Denote(w2, p, args, lens) == Some(Array(IndexOf(w2.shapes.arrays, ArrayDecl(t, n))))
  {
    var w2 := w1.(shapes := w1.shapes.(arrays := Added(w1.shapes.arrays, ArrayDecl(t, n))));
    ShapesKeep(w1, w2.shapes, open);
    GrowTrans(w, w1, w2);
    DenoteGrows(w1, w2, p.elem, args, lens);
  }

  lemma RefStep(w: World, w1: World, p: PolyType<Type>, args: seq<Type>, lens: seq<nat>, t: Type, open: set<App>)
    requires Inv(w1, open) && Grow(w, w1) && p.PRef? && Denote(w1, p.referent, args, lens) == Some(t)
    ensures var w2 := w1.(shapes := w1.shapes.(refs := Added(w1.shapes.refs, BorrowDecl(t, p.mutable))));
            Inv(w2, open) && Grow(w, w2) &&
              Denote(w2, p, args, lens) == Some(Ref(IndexOf(w2.shapes.refs, BorrowDecl(t, p.mutable)), p.mutable))
  {
    var w2 := w1.(shapes := w1.shapes.(refs := Added(w1.shapes.refs, BorrowDecl(t, p.mutable))));
    ShapesKeep(w1, w2.shapes, open);
    GrowTrans(w, w1, w2);
    DenoteGrows(w1, w2, p.referent, args, lens);
  }

  lemma CellStep(w: World, w1: World, p: PolyType<Type>, args: seq<Type>, lens: seq<nat>, t: Type, open: set<App>)
    requires Inv(w1, open) && Grow(w, w1) && p.PCell? && Denote(w1, p.payload, args, lens) == Some(t)
    ensures var w2 := w1.(shapes := w1.shapes.(cells := Added(w1.shapes.cells, t)));
            Inv(w2, open) && Grow(w, w2) && Denote(w2, p, args, lens) == Some(Cell(IndexOf(w2.shapes.cells, t)))
  {
    var w2 := w1.(shapes := w1.shapes.(cells := Added(w1.shapes.cells, t)));
    ShapesKeep(w1, w2.shapes, open);
    GrowTrans(w, w1, w2);
    DenoteGrows(w1, w2, p.payload, args, lens);
  }

  lemma DenoteLeaf(w: World, p: PolyType<Type>, args: seq<Type>, lens: seq<nat>)
    ensures p.Concrete? ==> Denote(w, p, args, lens) == Some(p.ty)
    ensures p.Var? && p.v < |args| ==> Denote(w, p, args, lens) == Some(args[p.v])
  {
  }

  lemma GrowRefl(w: World)
    ensures Grow(w, w)
  {
  }

  // ---------------------------------------------------------------- variable-free shapes

  /** A well-formed variable-free type: what `ground_var_free` may be handed. Unlike a header field it may
      nest applications to any depth. */
  predicate VarFree(w: World, p: PolyType<Type>)
    decreases p
  {
    match p
    case Concrete(_) => true
    case Var(_) => false
    case PArray(elem, len) => VarFree(w, elem) && len.Known?
    case PRef(referent, _) => VarFree(w, referent)
    case PCell(payload) => VarFree(w, payload)
    case PGeneric(isEnum, idx, _, args, lens) =>
      var hs := w.Of(isEnum).headers;
      && idx < |hs| && |args| == |hs[idx].kinds| && |lens| == hs[idx].lenVars
      && (forall j :: 0 <= j < |lens| ==> lens[j].Known?)
      && (forall j :: 0 <= j < |args| ==>
            VarFree(w, args[j]) && (args[j].Concrete? ==> ArgFits(w, args[j].ty, hs[idx].kinds[j])))
    case PApp(_, _) => false
    case PQuot(ins, outs, _) =>
      && (forall j :: 0 <= j < |ins| ==> VarFree(w, ins[j]))
      && (forall j :: 0 <= j < |outs| ==> VarFree(w, outs[j]))
    case PQuotLit => false
    case PVariant(_, _, _, _, _) => false
  }

  lemma VarFreeExtends(a: World, b: World, p: PolyType<Type>)
    requires SigsExtend(a, b) && VarFree(a, p)
    ensures VarFree(b, p)
    decreases p
  {
  }

  lemma VarFreeResult(w: World, p: PolyType<Type>, t: Type, kind: nat)
    requires Lockstep(w.structs, false) && Lockstep(w.enums, true)
    requires VarFree(w, p) && (p.Concrete? ==> ArgFits(w, p.ty, kind)) && Denote(w, p, [], []) == Some(t)
    ensures ArgFits(w, t, kind)
  {
  }

  /** What one substitution may be handed: a header field at a key of the closed universe `u`, or (at the
      top of `ground_var_free`) a variable-free shape. */
  ghost predicate Substitutable(w: World, p: PolyType<Type>, args: seq<Type>, lens: seq<nat>, u: set<App>, top: bool) {
    if top then VarFree(w, p) && args == [] && lens == [] else Within(p, args, lens, u)
  }

  /** `body` is the field list the header of `a` denotes at `a`'s arguments. */
  ghost predicate BodyDenoted(w: World, a: App, body: seq<seq<Type>>) {
    var hs := w.Of(a.isEnum).headers;
    a.key.idx < |hs| && DenotesBody(w, hs[a.key.idx].body, a.key.args, a.key.lens, body)
  }

  class GenericTypes {
    var structs: seq<Header>
    var enums: seq<Header>
    var instStructs: seq<Decl>
    var instEnums: seq<Decl>
    var structKeys: seq<Key>
    var enumKeys: seq<Key>
    var structResolved: seq<Type>
    var enumResolved: seq<Type>
    var structPending: seq<nat>
    var enumPending: seq<nat>
    var deferredStructs: seq<Owed>
    var deferredEnums: seq<Owed>
    var structBase: nat
    var enumBase: nat

    /** The whole state the instantiator works on, as a value. */
    function Snap(regs: Registries): World
      reads this, regs
    {
      World(Side(structs, structKeys, structResolved, instStructs, structPending, deferredStructs, structBase,
                 regs.structs),
            Side(enums, enumKeys, enumResolved, instEnums, enumPending, deferredEnums, enumBase, regs.enums),
            regs.AllShapes())
    }

    constructor WithBases(structLen: nat, enumLen: nat)
      ensures structs == [] && enums == [] && instStructs == [] && instEnums == []
      ensures structKeys == [] && enumKeys == [] && structResolved == [] && enumResolved == []
      ensures structPending == [] && enumPending == [] && deferredStructs == [] && deferredEnums == []
      ensures structBase == structLen && enumBase == enumLen
    {
      structs, enums, instStructs, instEnums := [], [], [], [];
      structKeys, enumKeys, structResolved, enumResolved := [], [], [], [];
      structPending, enumPending, deferredStructs, deferredEnums := [], [], [], [];
      structBase, enumBase := structLen, enumLen;
    }

    method LookupKey(isEnum: bool, key: Key, regs: Registries) returns (r: Option<Type>)
      requires |structResolved| == |structKeys| && |enumResolved| == |enumKeys|
      ensures r == Lookup(Snap(regs), App(isEnum, key))
    {
      if isEnum {
        var i := IndexOf(enumKeys, key);
        if i < |enumKeys| { return Some(enumResolved[i]); }
      } else {
        var i := IndexOf(structKeys, key);
        if i < |structKeys| { return Some(structResolved[i]); }
      }
      return None;
    }

    /** Push the memo key, the resolved type and a fieldless placeholder declaration, in lockstep. */
    method MintKey(isEnum: bool, key: Key, regs: Registries) returns (ty: Type, inst: nat)
      modifies this
      ensures Snap(regs) == Mint(old(Snap(regs)), App(isEnum, key))
      ensures var s, was := Snap(regs).Of(isEnum), old(Snap(regs)).Of(isEnum);
              && s.keys == was.keys + [key] && s.resolved == was.resolved + [ty]
              && s.insts == was.insts + [Decl([], key.modId)]
              && s.deferred == was.deferred +
                   if key.idx in was.pending then [Owed(inst, key.idx, key.args, key.lens)] else []
      ensures ty == Nominal(isEnum, old(Snap(regs)).Of(isEnum).base + |old(Snap(regs)).Of(isEnum).insts|)
      ensures inst == |old(Snap(regs)).Of(isEnum).insts|
    {
      if isEnum { ty, inst := MintEnumKey(key, regs); } else { ty, inst := MintStructKey(key, regs); }
    }

    method MintStructKey(key: Key, regs: Registries) returns (ty: Type, inst: nat)
      modifies this
      ensures Snap(regs) == old(Snap(regs)).(structs := MintSide(old(Snap(regs)).structs, false, key))
      ensures ty == Nominal(false, old(structBase) + |old(instStructs)|) && inst == |old(instStructs)|
    {
      ty := Nominal(false, structBase + |instStructs|);
      structKeys := structKeys + [key];
      structResolved := structResolved + [ty];
      inst := |instStructs|;
      instStructs := instStructs + [Decl([], key.modId)];
      if key.idx in structPending {
        deferredStructs := deferredStructs + [Owed(inst, key.idx, key.args, key.lens)];
      }
    }

    method MintEnumKey(key: Key, regs: Registries) returns (ty: Type, inst: nat)
      modifies this
      ensures Snap(regs) == old(Snap(regs)).(enums := MintSide(old(Snap(regs)).enums, true, key))
      ensures ty == Nominal(true, old(enumBase) + |old(instEnums)|) && inst == |old(instEnums)|
    {
      ty := Nominal(true, enumBase + |instEnums|);
      enumKeys := enumKeys + [key];
      enumResolved := enumResolved + [ty];
      inst := |instEnums|;
      instEnums := instEnums + [Decl([], key.modId)];
      if key.idx in enumPending {
        deferredEnums := deferredEnums + [Owed(inst, key.idx, key.args, key.lens)];
      }
    }

    method SetBody(isEnum: bool, inst: nat, body: seq<seq<Type>>, regs: Registries)
      requires inst < |Snap(regs).Of(isEnum).insts|
      modifies this
      ensures Snap(regs) == old(Snap(regs)).With(isEnum, SetBodySide(old(Snap(regs)).Of(isEnum), inst, body))
    {
      if isEnum {
        instEnums := instEnums[inst := instEnums[inst].(body := body)];
      } else {
        instStructs := instStructs[inst := instStructs[inst].(body := body)];
      }
    }

    method SubstituteField(p: PolyType<Type>, args: seq<Type>, lens: seq<nat>, regs: Registries,
                           ghost u: set<App>, ghost open: set<App>, ghost top: bool) returns (r: Type)
      requires Inv(Snap(regs), open) && Based(Snap(regs))
      requires top || Closed(Snap(regs), u)
      requires Substitutable(Snap(regs), p, args, lens, u, top)
      modifies this, regs`arrays, regs`cells, regs`refs
      ensures Inv(Snap(regs), open) && Grow(old(Snap(regs)), Snap(regs))
      ensures Denote(Snap(regs), p, args, lens) == Some(r) && ReadsAs(Snap(regs), r, p, args, lens)
      decreases if top then 1 else 0, if top then 0 else Budget(Snap(regs), u), 1, p, 1
    {
      hide Inv, Grow, Closed, Budget, TablesGrow, SigsExtend, Based, Denote, Added, IndexOf, ReadsAs;
      ghost var w := Snap(regs);
      GrowRefl(w);
      DenoteLeaf(w, p, args, lens);
      match p {
        case Concrete(t) =>
          r := t;
        case Var(v) =>
          r := args[v];
        case PArray(elem, len) =>
          var t := SubstituteField(elem, args, lens, regs, u, open, top);
          var count := if len.Known? then len.n else lens[len.v];
          ArrayStep(w, Snap(regs), p, args, lens, t, count, open);
          r := regs.InternArray(t, count);
        case PRef(referent, mutable) =>
          var t := SubstituteField(referent, args, lens, regs, u, open, top);
          RefStep(w, Snap(regs), p, args, lens, t, open);
          r := regs.InternRef(t, mutable);
        case PCell(payload) =>
          var t := SubstituteField(payload, args, lens, regs, u, open, top);
          CellStep(w, Snap(regs), p, args, lens, t, open);
          r := regs.InternCell(t);
        case PGeneric(_, _, _, _, _) =>
          r := SubstituteGeneric(p, args, lens, regs, u, open, top);
        case PApp(_, _) =>
          r := SubstituteApp(p, args, lens, regs, u, open);
        case PQuot(_, _, _) =>
          r := SubstituteQuot(p, args, lens, regs, u, open, top);
      }
      DenotesWhatReads(Snap(regs), open, r, p, args, lens);
    }

    /** Ground every argument first, then mint (or find) the monomorph of the header this field names. */
    method SubstituteGeneric(p: PolyType<Type>, args: seq<Type>, lens: seq<nat>, regs: Registries,
                             ghost u: set<App>, ghost open: set<App>, ghost top: bool) returns (r: Type)
      requires p.PGeneric?
      requires top || Closed(Snap(regs), u)
      requires Inv(Snap(regs), open) && Based(Snap(regs))
      requires Substitutable(Snap(regs), p, args, lens, u, top)
      modifies this, regs`arrays, regs`cells, regs`refs
      ensures Inv(Snap(regs), open) && Grow(old(Snap(regs)), Snap(regs))
      ensures Denote(Snap(regs), p, args, lens) == Some(r)
      decreases if top then 1 else 0, if top then 0 else Budget(Snap(regs), u), 1, p, 0
    {
      hide Inv, Grow, Closed, Budget, TablesGrow, SigsExtend, Based;
      ghost var w := Snap(regs);
      if top { LenValuesIs(p.lens, lens, seq(|p.lens|, j requires 0 <= j < |p.lens| => p.lens[j].n)); }
      var concrete := SubstituteAll(p.args, args, lens, regs, u, open, top);
      var key := Key(p.idx, p.modId, concrete, LenValues(p.lens, lens).value);
      ghost var w1 := Snap(regs);
      ghost var u1 := u;
      GrowKeeps(w, w1, u);
      if top {
        VarFreeKey(w, w1, p, concrete, open);
        u1 := UniverseOf(w1, App(p.isEnum, key));
        RootCovered(w1, App(p.isEnum, key), open);
      } else {
        assert concrete == FlatValues(p.args, args);
      }
      r := InstantiateIn(p.isEnum, key, regs, u1, open);
      GrowKeeps(w1, Snap(regs), u);
      GrowTrans(w, w1, Snap(regs));
      DenoteAllGrows(w1, Snap(regs), p.args, args, lens);
    }

    /** A header variable applied to arguments: instantiate the constructor it is bound to. A binding that
        is no constructor is returned unapplied. */
    method SubstituteApp(p: PolyType<Type>, args: seq<Type>, lens: seq<nat>, regs: Registries,
                         ghost u: set<App>, ghost open: set<App>) returns (r: Type)
      requires p.PApp? && Closed(Snap(regs), u)
      requires Inv(Snap(regs), open) && Based(Snap(regs))
      requires Within(p, args, lens, u)
      modifies this, regs`arrays, regs`cells, regs`refs
      ensures Inv(Snap(regs), open) && Grow(old(Snap(regs)), Snap(regs))
      ensures Denote(Snap(regs), p, args, lens) == Some(r)
      decreases 0, Budget(Snap(regs), u), 1, p, 0
    {
      hide Inv, Grow, Closed, Budget, TablesGrow, SigsExtend, Based;
      ghost var w := Snap(regs);
      var concrete := SubstituteAll(p.args, args, lens, regs, u, open, false);
      match args[p.head]
      case Ctor(isEnum, idx, modId) =>
        ghost var w1 := Snap(regs);
        assert concrete == FlatValues(p.args, args);
        GrowKeeps(w, w1, u);
        r := InstantiateIn(isEnum, Key(idx, modId, concrete, []), regs, u, open);
        GrowKeeps(w1, Snap(regs), u);
        GrowTrans(w, w1, Snap(regs));
        DenoteAllGrows(w1, Snap(regs), p.args, args, lens);
      case other =>
        r := other;
    }

    method SubstituteQuot(p: PolyType<Type>, args: seq<Type>, lens: seq<nat>, regs: Registries,
                          ghost u: set<App>, ghost open: set<App>, ghost top: bool) returns (r: Type)
      requires p.PQuot?
      requires top || Closed(Snap(regs), u)
      requires Inv(Snap(regs), open) && Based(Snap(regs))
      requires Substitutable(Snap(regs), p, args, lens, u, top)
      modifies this, regs`arrays, regs`cells, regs`refs
      ensures Inv(Snap(regs), open) && Grow(old(Snap(regs)), Snap(regs))
      ensures Denote(Snap(regs), p, args, lens) == Some(r)
      decreases if top then 1 else 0, if top then 0 else Budget(Snap(regs), u), 1, p, 0
    {
      hide Inv, Grow, Closed, Budget, TablesGrow, SigsExtend, Based;
      ghost var w := Snap(regs);
      var gins := SubstituteAll(p.ins, args, lens, regs, u, open, top);
      ghost var w1 := Snap(regs);
      GrowKeeps(w, w1, u);
      if top {
        forall j | 0 <= j < |p.outs| ensures VarFree(w1, p.outs[j]) { VarFreeExtends(w, w1, p.outs[j]); }
      }
      var gouts := SubstituteAll(p.outs, args, lens, regs, u, open, top);
      GrowKeeps(w1, Snap(regs), u);
      GrowTrans(w, w1, Snap(regs));
      DenoteAllGrows(w1, Snap(regs), p.ins, args, lens);
      r := Quot(gins, gouts, if p.inline then Inline else Plain);
    }

    method SubstituteAll(ps: seq<PolyType<Type>>, args: seq<Type>, lens: seq<nat>, regs: Registries,
                         ghost u: set<App>, ghost open: set<App>, ghost top: bool) returns (rs: seq<Type>)
      requires Inv(Snap(regs), open) && Based(Snap(regs))
      requires top || Closed(Snap(regs), u)
      requires forall j :: 0 <= j < |ps| ==> Substitutable(Snap(regs), ps[j], args, lens, u, top)
      modifies this, regs`arrays, regs`cells, regs`refs
      ensures Inv(Snap(regs), open) && Grow(old(Snap(regs)), Snap(regs))
      ensures DenoteAll(Snap(regs), ps, args, lens) == Some(rs)
      decreases if top then 1 else 0, if top then 0 else Budget(Snap(regs), u), 1, ps
    {
      hide Inv, Grow, Closed, Budget, TablesGrow, SigsExtend, Based;
      ghost var w := Snap(regs);
      GrowRefl(w);
      rs := [];
      for j := 0 to |ps|
        invariant Inv(Snap(regs), open) && Grow(w, Snap(regs))
        invariant |rs| == j && forall i :: 0 <= i < j ==> Denote(Snap(regs), ps[i], args, lens) == Some(rs[i])
      {
        ghost var w1 := Snap(regs);
        GrowKeeps(w, w1, u);
        if top { VarFreeExtends(w, w1, ps[j]); }
        var t := SubstituteField(ps[j], args, lens, regs, u, open, top);
        GrowKeeps(w1, Snap(regs), u);
        forall i | 0 <= i < j ensures Denote(Snap(regs), ps[i], args, lens) == Some(rs[i]) {
          DenoteGrows(w1, Snap(regs), ps[i], args, lens);
        }
        GrowTrans(w, w1, Snap(regs));
        rs := rs + [t];
      }
      DenoteAllIs(Snap(regs), ps, args, lens, rs);
    }

    /** One instantiation's field lists: header `idx`'s declared bodies with `args` substituted in. */
    method SubstitutedBody(isEnum: bool, idx: nat, args: seq<Type>, lens: seq<nat>, regs: Registries,
                           ghost modId: nat, ghost u: set<App>, ghost open: set<App>)
      returns (out: seq<seq<Type>>)
      requires Inv(Snap(regs), open) && Based(Snap(regs)) && Closed(Snap(regs), u)
      requires App(isEnum, Key(idx, modId, args, lens)) in u
      modifies this, regs`arrays, regs`cells, regs`refs
      ensures Inv(Snap(regs), open) && Grow(old(Snap(regs)), Snap(regs))
      ensures BodyDenoted(Snap(regs), App(isEnum, Key(idx, modId, args, lens)), out)
      decreases 0, Budget(Snap(regs), u), 2
    {
      hide Inv, Grow, Budget, TablesGrow, SigsExtend, Based, DenotesBody, Denote;
      ghost var w := Snap(regs);
      GrowRefl(w);
      assert DenotesBody(w, [], args, lens, []) by { DenotesNothing(w, args, lens); }
      var body := (if isEnum then enums else structs)[idx].body;
      out := [];
      for v := 0 to |body|
        invariant Inv(Snap(regs), open) && Grow(w, Snap(regs))
        invariant |out| == v && DenotesBody(Snap(regs), body[..v], args, lens, out)
      {
        ghost var w1 := Snap(regs);
        GrowKeeps(w, w1, u);
        assert forall f :: 0 <= f < |body[v]| ==> Within(body[v][f], args, lens, u);
        var fields := SubstituteAll(body[v], args, lens, regs, u, open, false);
        GrowKeeps(w1, Snap(regs), u);
        DenotesBodyGrows(w1, Snap(regs), body[..v], args, lens, out);
        GrowTrans(w, w1, Snap(regs));
        DenotesBodySnoc(Snap(regs), body, v, args, lens, out, fields);
        out := out + [fields];
      }
      GrowKeeps(w, Snap(regs), u);
      assert body[..|body|] == body;
    }

    method InstantiateIn(isEnum: bool, key: Key, regs: Registries, ghost u: set<App>, ghost open: set<App>)
      returns (ty: Type)
      requires Inv(Snap(regs), open) && Based(Snap(regs)) && Closed(Snap(regs), u) && App(isEnum, key) in u
      modifies this, regs`arrays, regs`cells, regs`refs
      ensures Inv(Snap(regs), open) && Grow(old(Snap(regs)), Snap(regs))
      ensures Lookup(Snap(regs), App(isEnum, key)) == Some(ty)
      ensures Lookup(old(Snap(regs)), App(isEnum, key)).Some? ==> Snap(regs) == old(Snap(regs))
      decreases 0, Budget(Snap(regs), u), 0
    {
      hide Inv, Grow, Closed, Budget, TablesGrow, SigsExtend, Based, Mint, SetBodySide, KeyFits, BodyDenoted, IndexOf;
      ghost var w, a := Snap(regs), App(isEnum, key);
      TablesParallel(w, open);

      var hit := LookupKey(isEnum, key, regs);
      if hit.Some? {
        GrowRefl(w);
        return hit.value;
      }
      MintStep(w, a, u, open);
      var inst;
      ty, inst := MintKey(isEnum, key, regs);
      ghost var w1 := Snap(regs);
      if key.idx !in (if isEnum then enumPending else structPending) {
        var body := SubstitutedBody(isEnum, key.idx, key.args, key.lens, regs, key.modId, u, open + {a});
        ghost var w2 := Snap(regs);
        FillStep(w, w2, a, inst, body, open);
        SetBody(isEnum, inst, body, regs);
      }
    }

    // ---------------------------------------------------------------- the public operations

    /** One application of a header: find its monomorph, or mint it together with everything it reaches.
        Terminates on every set of non-growing headers; a memo hit changes nothing. */
    method Instantiate(isEnum: bool, idx: nat, args: seq<Type>, lens: seq<nat>, modId: nat, regs: Registries)
      returns (ty: Type)
      requires Inv(Snap(regs), {}) && Based(Snap(regs)) && KeyFits(Snap(regs), App(isEnum, Key(idx, modId, args, lens)))
      modifies this, regs`arrays, regs`cells, regs`refs
      ensures Inv(Snap(regs), {}) && Based(Snap(regs)) && Grow(old(Snap(regs)), Snap(regs))
      ensures Evolves(old(Snap(regs)), Snap(regs))
      ensures Lookup(Snap(regs), App(isEnum, Key(idx, modId, args, lens))) == Some(ty)
      ensures exists i :: 0 <= i < |Snap(regs).Of(isEnum).keys| && i < |Snap(regs).Of(isEnum).resolved| &&
                Snap(regs).Of(isEnum).keys[i] == Key(idx, modId, args, lens) && Snap(regs).Of(isEnum).resolved[i] == ty
      ensures Lookup(old(Snap(regs)), App(isEnum, Key(idx, modId, args, lens))).Some? ==> Snap(regs) == old(Snap(regs))
    {
      ghost var w, a := Snap(regs), App(isEnum, Key(idx, modId, args, lens));
      RootCovered(w, a, {});
      ty := InstantiateIn(isEnum, Key(idx, modId, args, lens), regs, UniverseOf(w, a), {});
      GrowEvolves(w, Snap(regs));
      LookupFinds(Snap(regs), {}, isEnum, Key(idx, modId, args, lens), ty);
    }

    /** Ground a variable-free shape, nested to any depth, minting every monomorph it names. */
    method GroundVarFree(p: PolyType<Type>, regs: Registries) returns (ty: Type)
      requires Inv(Snap(regs), {}) && Based(Snap(regs)) && VarFree(Snap(regs), p)
      modifies this, regs`arrays, regs`cells, regs`refs
      ensures Inv(Snap(regs), {}) && Based(Snap(regs)) && Grow(old(Snap(regs)), Snap(regs))
      ensures Evolves(old(Snap(regs)), Snap(regs))
      ensures Denote(Snap(regs), p, [], []) == Some(ty) && ReadsAs(Snap(regs), ty, p, [], [])
    {
      ghost var w := Snap(regs);
      ty := SubstituteField(p, [], [], regs, {}, {}, true);
      GrowEvolves(w, Snap(regs));
    }

    /** Register a complete header. */
    method PushHeader(isEnum: bool, h: Header, regs: Registries) returns (idx: nat)
      requires Inv(Snap(regs), {})
      requires BodyOk(Snap(regs).With(isEnum, PushSide(Snap(regs).Of(isEnum), h, false)), h.body, h.kinds, h.lenVars)
      modifies this
      ensures Snap(regs) == old(Snap(regs)).With(isEnum, PushSide(old(Snap(regs)).Of(isEnum), h, false))
      ensures Snap(regs).Of(isEnum).headers == old(Snap(regs)).Of(isEnum).headers + [h]
      ensures Snap(regs).Of(isEnum).pending == old(Snap(regs)).Of(isEnum).pending
      ensures idx == |old(Snap(regs)).Of(isEnum).headers|
      ensures Inv(Snap(regs), {}) && Evolves(old(Snap(regs)), Snap(regs))
    {
      hide Inv, Evolves, SideOk, Lockstep, BodyOk;
      PushKeeps(Snap(regs), isEnum, h, false);
      if isEnum {
        idx := |enums|;
        enums := enums + [h];
      } else {
        idx := |structs|;
        structs := structs + [h];
      }
    }

    /** Register a header with an empty field list and mark it pending. */
    method PushPlaceholder(isEnum: bool, kinds: seq<nat>, lenVars: nat, regs: Registries) returns (idx: nat)
      requires Inv(Snap(regs), {})
      modifies this
      ensures Snap(regs) ==
                old(Snap(regs)).With(isEnum, PushSide(old(Snap(regs)).Of(isEnum), Header(kinds, lenVars, []), true))
      ensures Snap(regs).Of(isEnum).headers == old(Snap(regs)).Of(isEnum).headers + [Header(kinds, lenVars, [])]
      ensures Snap(regs).Of(isEnum).pending == old(Snap(regs)).Of(isEnum).pending + [idx]
      ensures idx == |old(Snap(regs)).Of(isEnum).headers|
      ensures Inv(Snap(regs), {}) && Evolves(old(Snap(regs)), Snap(regs))
    {
      hide Inv, Evolves;
      PushKeeps(Snap(regs), isEnum, Header(kinds, lenVars, []), true);
      if isEnum {
        enums := enums + [Header(kinds, lenVars, [])];
        idx := |enums| - 1;
        enumPending := enumPending + [idx];
      } else {
        structs := structs + [Header(kinds, lenVars, [])];
        idx := |structs| - 1;
        structPending := structPending + [idx];
      }
    }

    /** The state update of `fill_*`: the header's real fields, its pending flag and its deferred entries. */
    method TakeOwed(isEnum: bool, idx: nat, body: seq<seq<PolyType<Type>>>, regs: Registries) returns (owed: seq<Owed>)
      requires idx < |Snap(regs).Of(isEnum).headers|
      modifies this
      ensures Snap(regs) == old(Snap(regs)).With(isEnum, FillSide(old(Snap(regs)).Of(isEnum), idx, body))
      ensures owed == Owing(old(Snap(regs)).Of(isEnum).deferred, idx, true)
    {
      if isEnum {
        enums := enums[idx := enums[idx].(body := body)];
        enumPending := Without(enumPending, idx);
        owed := Owing(deferredEnums, idx, true);
        deferredEnums := Owing(deferredEnums, idx, false);
      } else {
        structs := structs[idx := structs[idx].(body := body)];
        structPending := Without(structPending, idx);
        owed := Owing(deferredStructs, idx, true);
        deferredStructs := Owing(deferredStructs, idx, false);
      }
    }

    /** Fill placeholder `idx` and pay off every instantiation minted against it: their ids were handed out
        already, only their field lists are recomputed, in place. */
    method Fill(isEnum: bool, idx: nat, body: seq<seq<PolyType<Type>>>, regs: Registries)
      requires Inv(Snap(regs), {}) && Based(Snap(regs)) && idx in Snap(regs).Of(isEnum).pending
      requires idx < |Snap(regs).Of(isEnum).headers|
      requires BodyOk(Snap(regs), body, Snap(regs).Of(isEnum).headers[idx].kinds,
                      Snap(regs).Of(isEnum).headers[idx].lenVars)
      modifies this, regs`arrays, regs`cells, regs`refs
      ensures Inv(Snap(regs), {}) && Based(Snap(regs)) && Evolves(old(Snap(regs)), Snap(regs))
      ensures Grow(old(Snap(regs)).With(isEnum, FillSide(old(Snap(regs)).Of(isEnum), idx, body)), Snap(regs))
      ensures var hs := old(Snap(regs)).Of(isEnum).headers;
              && Snap(regs).Of(isEnum).headers == hs[idx := Header(hs[idx].kinds, hs[idx].lenVars, body)]
              && Snap(regs).Of(!isEnum).headers == old(Snap(regs)).Of(!isEnum).headers
      ensures forall h :: h in Snap(regs).Of(isEnum).pending <==> h in old(Snap(regs)).Of(isEnum).pending && h != idx
      ensures Snap(regs).Of(!isEnum).pending == old(Snap(regs)).Of(!isEnum).pending
      ensures FieldsOf(Snap(regs), isEnum, idx, body)
    {
      hide FieldsOf, Without;
      hide Inv, Based, Grow, KeyFits, BodyDenoted, OwedApps, OwedOk, FillSide, Owing, SetBodySide, TablesGrow,
        SigsExtend, Closed;
      ghost var w := Snap(regs);
      FillStart(w, isEnum, idx, body);
      var owed := TakeOwed(isEnum, idx, body, regs);
      ghost var w1 := Snap(regs);
      OwedReady(w, isEnum, idx, body);
      GrowRefl(w1);
      for j := 0 to |owed|
        invariant Inv(Snap(regs), OwedApps(w1, isEnum, owed[j..])) && Based(Snap(regs)) && Grow(w1, Snap(regs))
      {
        ghost var w2 := Snap(regs);
        var o := owed[j];
        ghost var a := OwedApp(w1, isEnum, o);
        OwedNext(w1, w2, isEnum, idx, owed, j);
        ghost var open := OwedApps(w1, isEnum, owed[j + 1..]);
        var fields := SubstitutedBody(isEnum, idx, o.args, o.lens, regs, a.key.modId, UniverseOf(w2, a),
                                      OwedApps(w1, isEnum, owed[j..]));
        OwedPaid(w1, w2, Snap(regs), isEnum, idx, owed, j, fields);
        SetBody(isEnum, o.inst, fields, regs);
      }
      assert OwedApps(w1, isEnum, owed[|owed|..]) == {} by { NoneOwed(w1, isEnum, owed[|owed|..]); }
      FillEvolves(w, isEnum, idx, body, Snap(regs));
      FilledHeader(w, isEnum, idx, body, Snap(regs));
      CompleteFields(Snap(regs), isEnum, idx);
    }

    /** Move one staged batch onto the live registry. */
    method Flush(isEnum: bool, regs: Registries)
      requires Inv(Snap(regs), {}) && Snap(regs).Of(isEnum).pending == []
      modifies this, regs`structs, regs`enums
      ensures Snap(regs) == old(Snap(regs)).With(isEnum, FlushSide(old(Snap(regs)).Of(isEnum)))
      ensures var s, was := Snap(regs).Of(isEnum), old(Snap(regs)).Of(isEnum);
              s == was.(live := was.live + was.insts, insts := [])
      ensures Inv(Snap(regs), {}) && Evolves(old(Snap(regs)), Snap(regs))
    {
      hide Inv, Evolves, SideOk, Lockstep;
      FlushKeeps(Snap(regs), isEnum);
      if isEnum {
        regs.enums := regs.enums + instEnums;
        instEnums := [];
      } else {
        regs.structs := regs.structs + instStructs;
        instStructs := [];
      }
    }

    /** Re-point the bases a fresh mint counts from. Legal once every staged batch has been flushed. */
    method Rebase(structLen: nat, enumLen: nat, regs: Registries)
      requires Inv(Snap(regs), {}) && instStructs == [] && instEnums == []
      requires structLen == |regs.structs| && enumLen == |regs.enums|
      modifies this
      ensures structBase == structLen && enumBase == enumLen
      ensures Inv(Snap(regs), {}) && Based(Snap(regs)) && Evolves(old(Snap(regs)), Snap(regs))
      ensures Snap(regs).structs == old(Snap(regs)).structs.(base := structLen)
      ensures Snap(regs).enums == old(Snap(regs)).enums.(base := enumLen)
    {
      ghost var w := Snap(regs);
      LiveKeeps(w, false, w.structs.live, structLen);
      LiveKeeps(w.(structs := w.structs.(base := structLen)), true, w.enums.live, enumLen);
      structBase := structLen;
      enumBase := enumLen;
    }

    /** The declaration of an id this batch minted but has not flushed yet; between a flush and its rebase
        there is none. */
    method StagedDecl(isEnum: bool, id: nat, regs: Registries) returns (d: Option<Decl>)
      requires Inv(Snap(regs), {})
      ensures var s := Snap(regs).Of(isEnum);
              && (d.Some? <==> exists i :: Split(s) <= i < |s.keys| && s.resolved[i].id == id)
              && forall i :: Split(s) <= i < |s.keys| && s.resolved[i].id == id ==> d == Some(DeclAt(s, i, isEnum))
    {
      hide KeySettled, HeadersOk, DeferredOk, ShapesOk;
      var base, insts := (if isEnum then enumBase else structBase), (if isEnum then instEnums else instStructs);
      ghost var s := Snap(regs).Of(isEnum);
      assert SideOk(Snap(regs), isEnum, {});
      if base <= id && id - base < |insts| {
        assert s.resolved[Split(s) + (id - base)].id == id;
        return Some(insts[id - base]);
      }
      return None;
    }

    method KeyOf(isEnum: bool, id: nat, regs: Registries) returns (k: Option<Key>)
      requires |structResolved| == |structKeys| && |enumResolved| == |enumKeys|
      ensures k == InstantiationOf(Snap(regs), isEnum, id)
    {
      var resolved, keys := (if isEnum then enumResolved else structResolved),
        (if isEnum then enumKeys else structKeys);
      var i := IndexOf(resolved, Nominal(isEnum, id));
      if i < |resolved| { return Some(keys[i]); }
      return None;
    }
  }

  // ---------------------------------------------------------------- paying off a filled header

  /** The world right after a header is filled: each owed entry names its own staged declaration. */
  ghost predicate OwedOk(w: World, e: bool, idx: nat, owed: seq<Owed>) {
    var s := w.Of(e);
    && 0 <= Split(s) && idx < |s.headers|
    && InstsDistinct(owed)
    && Distinct(s.keys)
    && forall j :: 0 <= j < |owed| ==>
         owed[j].inst < |s.insts| && s.keys[Split(s) + owed[j].inst].idx == idx &&
         s.keys[Split(s) + owed[j].inst].args == owed[j].args && s.keys[Split(s) + owed[j].inst].lens == owed[j].lens
  }

  lemma NoneOwed(w: World, e: bool, owed: seq<Owed>)
    requires owed == []
    ensures OwedApps(w, e, owed) == {}
  {
  }

  lemma OwedReady(w: World, e: bool, idx: nat, body: seq<seq<PolyType<Type>>>)
    requires Inv(w, {}) && Based(w) && idx < |w.Of(e).headers|
    ensures var w1 := w.With(e, FillSide(w.Of(e), idx, body));
            var owed := Owing(w.Of(e).deferred, idx, true);
            OwedOk(w1, e, idx, owed) && Based(w1) && OwedApps(w, e, owed) == OwedApps(w1, e, owed[0..])
  {
    hide SideOk, DeferredOk, Owing, OwedApps, OwedApp, ShapesOk;
    var s := w.Of(e);
    var owed := Owing(s.deferred, idx, true);
    assert owed[0..] == owed;
    SideLockstep(w, e);
    OwedEntries(s, e, idx);
    var w1 := w.With(e, FillSide(s, idx, body));
    OwedSame(w, w1, e, owed);
  }

  lemma OwedEntries(s: Side, e: bool, idx: nat)
    requires Lockstep(s, e) && DeferredOk(s, e)
    ensures var owed := Owing(s.deferred, idx, true);
            InstsDistinct(owed) && forall j :: 0 <= j < |owed| ==>
              owed[j].inst < |s.insts| && s.keys[Split(s) + owed[j].inst].idx == idx &&
              s.keys[Split(s) + owed[j].inst].args == owed[j].args &&
                s.keys[Split(s) + owed[j].inst].lens == owed[j].lens
  {
    var owed := Owing(s.deferred, idx, true);
    OwingDistinct(s.deferred, idx, true);
    forall j | 0 <= j < |owed| ensures owed[j] in s.deferred && owed[j].header == idx {
      assert owed[j] in owed;
    }
  }

  lemma OwedSame(w: World, w1: World, e: bool, owed: seq<Owed>)
    requires w1.Of(e).keys == w.Of(e).keys && w1.Of(e).insts == w.Of(e).insts
    ensures OwedApps(w, e, owed) == OwedApps(w1, e, owed)
  {
    assert forall o :: OwedApp(w1, e, o) == OwedApp(w, e, o);
  }

  lemma OwedSplit(w: World, e: bool, idx: nat, owed: seq<Owed>, j: nat)
    requires OwedOk(w, e, idx, owed) && j < |owed|
    ensures OwedApps(w, e, owed[j..]) == OwedApps(w, e, owed[j + 1..]) + {OwedApp(w, e, owed[j])}
    ensures OwedApp(w, e, owed[j]) !in OwedApps(w, e, owed[j + 1..])
    ensures OwedApp(w, e, owed[j]) == App(e, w.Of(e).keys[Split(w.Of(e)) + owed[j].inst])
  {
    OwedAppIs(w, e, idx, owed, j);
    OwedRest(w, e, idx, owed, j);
    hide OwedOk, OwedApps, OwedApp;
    assert owed[j..] == [owed[j]] + owed[j + 1..];
    OwedAppsCons(w, e, owed[j], owed[j + 1..]);
    OwedNotIn(w, e, owed[j], owed[j + 1..]);
  }

  lemma OwedRest(w: World, e: bool, idx: nat, owed: seq<Owed>, j: nat)
    requires OwedOk(w, e, idx, owed) && j < |owed|
    ensures forall r :: r in owed[j + 1..] ==> OwedApp(w, e, r) != OwedApp(w, e, owed[j])
  {
    hide OwedApp;
    forall r | r in owed[j + 1..] ensures OwedApp(w, e, r) != OwedApp(w, e, owed[j]) {
      var k :| 0 <= k < |owed[j + 1..]| && owed[j + 1..][k] == r;
      OwedAppIs(w, e, idx, owed, j);
      OwedAppIs(w, e, idx, owed, j + 1 + k);
      OwedApart(w, e, idx, owed, j, j + 1 + k);
    }
  }

  lemma OwedNotIn(w: World, e: bool, o: Owed, rest: seq<Owed>)
    requires forall r :: r in rest ==> OwedApp(w, e, r) != OwedApp(w, e, o)
    ensures OwedApp(w, e, o) !in OwedApps(w, e, rest)
  {
  }

  lemma OwedAppsCons(w: World, e: bool, o: Owed, rest: seq<Owed>)
    ensures OwedApps(w, e, [o] + rest) == OwedApps(w, e, rest) + {OwedApp(w, e, o)}
  {
    hide OwedApp;
    assert forall r :: r in [o] + rest <==> r == o || r in rest;
  }

  lemma OwedAppIs(w: World, e: bool, idx: nat, owed: seq<Owed>, j: nat)
    requires OwedOk(w, e, idx, owed) && j < |owed|
    ensures OwedApp(w, e, owed[j]) == App(e, w.Of(e).keys[Split(w.Of(e)) + owed[j].inst])
  {
  }

  lemma OwedApart(w: World, e: bool, idx: nat, owed: seq<Owed>, i: nat, j: nat)
    requires OwedOk(w, e, idx, owed) && i < j < |owed|
    ensures w.Of(e).keys[Split(w.Of(e)) + owed[i].inst] != w.Of(e).keys[Split(w.Of(e)) + owed[j].inst]
  {
    assert owed[i].inst != owed[j].inst;
  }

  lemma OwedNext(w1: World, w2: World, e: bool, idx: nat, owed: seq<Owed>, j: nat)
    requires OwedOk(w1, e, idx, owed) && j < |owed| && Grow(w1, w2) && Inv(w2, OwedApps(w1, e, owed[j..]))
    ensures var a := OwedApp(w1, e, owed[j]);
            a == App(e, Key(idx, a.key.modId, owed[j].args, owed[j].lens)) && a in UniverseOf(w2, a) &&
              Closed(w2, UniverseOf(w2, a))
  {
    var a := OwedApp(w1, e, owed[j]);
    var i := Split(w1.Of(e)) + owed[j].inst;
    OwedSplit(w1, e, idx, owed, j);
    assert w2.Of(e).keys[i] == a.key;
    assert KeySettled(w2, e, i, OwedApps(w1, e, owed[j..]));
    RootCovered(w2, a, OwedApps(w1, e, owed[j..]));
  }

  lemma OwedPaid(w1: World, w2: World, w3: World, e: bool, idx: nat, owed: seq<Owed>, j: nat, fields: seq<seq<Type>>)
    requires OwedOk(w1, e, idx, owed) && j < |owed| && Grow(w1, w2) && Grow(w2, w3) && Based(w2)
    requires Inv(w3, OwedApps(w1, e, owed[j..]))
    requires BodyDenoted(w3, OwedApp(w1, e, owed[j]), fields)
    ensures owed[j].inst < |w3.Of(e).insts|
    ensures var w4 := w3.With(e, SetBodySide(w3.Of(e), owed[j].inst, fields));
            Inv(w4, OwedApps(w1, e, owed[j + 1..])) && Grow(w1, w4) && Based(w4)
  {
    var a := OwedApp(w1, e, owed[j]);
    OwedSplit(w1, e, idx, owed, j);
    GrowTrans(w1, w2, w3);
    assert w3.Of(e).keys[Split(w3.Of(e)) + owed[j].inst] == a.key;
    SetBodyKeeps(w3, a, owed[j].inst, fields, OwedApps(w1, e, owed[j + 1..]));
    GrowTrans(w1, w3, w3.With(e, SetBodySide(w3.Of(e), owed[j].inst, fields)));
  }

  /** Filling gives the header its fields and takes it off the pending list, and touches no other header. */
  lemma FilledHeader(w: World, e: bool, idx: nat, body: seq<seq<PolyType<Type>>>, w2: World)
    requires idx < |w.Of(e).headers| && Grow(w.With(e, FillSide(w.Of(e), idx, body)), w2)
    ensures var hs := w.Of(e).headers;
            && w2.Of(e).headers == hs[idx := Header(hs[idx].kinds, hs[idx].lenVars, body)]
            && w2.Of(!e).headers == w.Of(!e).headers
    ensures forall h :: h in w2.Of(e).pending <==> h in w.Of(e).pending && h != idx
    ensures w2.Of(!e).pending == w.Of(!e).pending
  {
    hide ShapesGrow, Owing, Split;
  }

  lemma FillEvolves(w: World, e: bool, idx: nat, body: seq<seq<PolyType<Type>>>, w2: World)
    requires Inv(w, {}) && Inv(w2, {}) && idx in w.Of(e).pending && idx < |w.Of(e).headers|
    requires Grow(w.With(e, FillSide(w.Of(e), idx, body)), w2)
    ensures Evolves(w, w2)
  {
    hide Inv, Evolves;
    SettledEvolves(w, w2);
  }

  lemma TablesParallel(w: World, open: set<App>)
    requires Inv(w, open)
    ensures |w.structs.resolved| == |w.structs.keys| && |w.enums.resolved| == |w.enums.keys|
    ensures forall a: App :: Lookup(w, a).None? <==> a.key !in w.Of(a.isEnum).keys
  {
  }

  /** Everything a first mint of `a` establishes before its fields are substituted. */
  lemma MintStep(w: World, a: App, u: set<App>, open: set<App>)
    requires Inv(w, open) && Based(w) && Closed(w, u) && a in u && Lookup(w, a).None?
    ensures var w2 := Mint(w, a);
            && Inv(w2, OpenAfter(w, a, open)) && Grow(w, w2) && Based(w2) && Closed(w2, u)
            && Budget(w2, u) < Budget(w, u)
            && Lookup(w2, a) == Some(Nominal(a.isEnum, w.Of(a.isEnum).base + |w.Of(a.isEnum).insts|))
            && w2.Of(a.isEnum).pending == w.Of(a.isEnum).pending && KeyFits(w, a)
  {
    MintKeeps(w, a, open);
    BudgetMint(w, a, u);
    GrowKeeps(w, Mint(w, a), u);
    MintedLookup(w, a);
  }

  /** Writing the substituted fields into the declaration minted for `a` takes it off the stack. */
  lemma FillStep(w: World, w2: World, a: App, inst: nat, body: seq<seq<Type>>, open: set<App>)
    requires Inv(w, open) && Based(w) && KeyFits(w, a) && Lookup(w, a).None? && inst == |w.Of(a.isEnum).insts|
    requires a.key.idx !in w.Of(a.isEnum).pending
    requires Grow(Mint(w, a), w2) && Inv(w2, open + {a})
    requires BodyDenoted(w2, a, body)
    ensures inst < |w2.Of(a.isEnum).insts|
    ensures var w3 := w2.With(a.isEnum, SetBodySide(w2.Of(a.isEnum), inst, body));
            Inv(w3, open) && Grow(w, w3) && Lookup(w3, a) == Lookup(Mint(w, a), a)
  {
    var w1 := Mint(w, a);
    var s, s2 := w.Of(a.isEnum), w2.Of(a.isEnum);
    MintKeeps(w, a, open);
    MintedLookup(w, a);
    hide Inv, KeyFits, DenotesBody, Lookup;
    assert Split(s2) + inst == |s.keys| && w1.Of(a.isEnum).keys[|s.keys|] == a.key;
    SetBodyKeeps(w2, a, inst, body, open);
    var w3 := w2.With(a.isEnum, SetBodySide(s2, inst, body));
    LookupGrows(w1, w3, a);
    GrowTrans(w, w1, w2);
    GrowTrans(w, w2, w3);
  }

  lemma MintedLookup(w: World, a: App)
    requires Lockstep(w.Of(a.isEnum), a.isEnum) && a.key !in w.Of(a.isEnum).keys
    ensures Lookup(Mint(w, a), a) == Some(Nominal(a.isEnum, w.Of(a.isEnum).base + |w.Of(a.isEnum).insts|))
  {
    var s := w.Of(a.isEnum);
    assert Distinct(s.keys + [a.key]);
    IndexOfUnique(s.keys + [a.key], a.key, |s.keys|);
  }

  lemma RootCovered(w: World, root: App, open: set<App>)
    requires Inv(w, open) && KeyFits(w, root)
    ensures Closed(w, UniverseOf(w, root)) && root in UniverseOf(w, root)
  {
    UniverseClosed(w, root);
    RootInUniverse(w, root);
  }

  lemma VarFreeKey(w: World, w1: World, p: PolyType<Type>, ts: seq<Type>, open: set<App>)
    requires p.PGeneric? && VarFree(w, p) && Grow(w, w1) && Inv(w1, open)
    requires LenValues(p.lens, []).Some? && DenoteAll(w1, p.args, [], []) == Some(ts)
    ensures KeyFits(w1, App(p.isEnum, Key(p.idx, p.modId, ts, LenValues(p.lens, []).value)))
  {
    forall j | 0 <= j < |ts| ensures ArgFits(w1, ts[j], w1.Of(p.isEnum).headers[p.idx].kinds[j]) {
      VarFreeExtends(w, w1, p.args[j]);
      VarFreeResult(w1, p.args[j], ts[j], w1.Of(p.isEnum).headers[p.idx].kinds[j]);
    }
  }
}
