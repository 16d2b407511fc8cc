/** The four shape registries refer to each other; any interleaving of interning keeps handle equality the
    same thing as equality of the full expansions. */
module Interning {
  import opened Types
  import opened Worlds
  import opened Invariant
  import opened Steps
  import opened History
  import opened Instantiator
  import opened Expansion

  datatype Form = FArray(count: nat) | FCell | FRef(mutable: bool) | FSlice(mutable: bool)

  /** What an interning call wraps: a primitive or declared nominal, or the result of an earlier call. */
  datatype Operand = Leaf(t: Type) | Handle(i: nat)

  datatype InternOp = InternOp(form: Form, operand: Operand)

  ghost predicate LeafOk(w: World, t: Type) {
    t.Prim? || (t.Nominal? && t.id < |w.Of(t.isEnum).live| && InstantiationOf(w, t.isEnum, t.id).None?)
  }

  ghost predicate OpsOk(w: World, ops: seq<InternOp>) {
    forall j :: 0 <= j < |ops| ==> if ops[j].operand.Leaf? then LeafOk(w, ops[j].operand.t) else ops[j].operand.i < j
  }

  ghost function LeafSym(t: Type): Sym
    requires t.Prim? || t.Nominal?
  {
    if t.Prim? then SPrim(t.tag) else SUser(t.isEnum, t.id)
  }

  ghost function Wrap(form: Form, s: Sym): Sym {
    match form
    case FArray(count) => SArray(s, count)
    case FCell => SCell(s)
    case FRef(mutable) => SRef(s, mutable)
    case FSlice(mutable) => SSlice(s, mutable)
  }

  /** The full expansion of every result, computed from the calls alone. */
  ghost function Expansions(w: World, ops: seq<InternOp>): (r: seq<Sym>)
    requires OpsOk(w, ops)
    ensures |r| == |ops|
  {
    if ops == [] then []
    else
      var n := |ops| - 1;
      var before := Expansions(w, ops[..n]);
      before + [Wrap(ops[n].form, if ops[n].operand.Leaf? then LeafSym(ops[n].operand.t) else before[ops[n].operand.i])]
  }

  /** `r` is the handle of the entry that wraps `t`. */
  ghost predicate IsEntry(sh: Shapes, form: Form, t: Type, r: Type) {
    match form
    case FArray(count) => ArrayDecl(t, count) in sh.arrays && r == Array(IndexOf(sh.arrays, ArrayDecl(t, count)))
    case FCell => t in sh.cells && r == Cell(IndexOf(sh.cells, t))
    case FRef(mutable) =>
      BorrowDecl(t, mutable) in sh.refs && r == Ref(IndexOf(sh.refs, BorrowDecl(t, mutable)), mutable)
    case FSlice(mutable) =>
      BorrowDecl(t, mutable) in sh.slices && r == Slice(IndexOf(sh.slices, BorrowDecl(t, mutable)), mutable)
  }

  lemma WrapMeans(w: World, sh: Shapes, t: Type, s: Sym, r: Type, form: Form)
    requires Inv(w, {}) && ShapesOk(sh) && ShapesGrow(w.shapes, sh) && Means(w, t, s)
    requires IsEntry(sh, form, t, r)
    ensures Inv(w.(shapes := sh), {}) && Means(w.(shapes := sh), r, Wrap(form, s))
    ensures forall u, v :: Means(w, u, v) ==> Means(w.(shapes := sh), u, v)
  {
    hide Inv, Evolves, InstantiationOf, Means, IsEntry, ShapesOk, ShapesGrow;
    var w2 := w.(shapes := sh);
    ShapesKeep(w, sh, {});
    GrowEvolves(w, w2);
    forall u, v | Means(w, u, v) ensures Means(w2, u, v) {
      MeansStays(w, w2, u, v);
    }
    EntryMeans(w2, t, s, r, form);
  }

  lemma EntryMeans(w: World, t: Type, s: Sym, r: Type, form: Form)
    requires IsEntry(w.shapes, form, t, r) && Means(w, t, s)
    ensures Means(w, r, Wrap(form, s))
  {
    hide InstantiationOf;
  }

  method InternForm(form: Form, t: Type, regs: Registries) returns (r: Type)
    requires ShapesOk(regs.AllShapes())
    modifies regs
    ensures IsEntry(regs.AllShapes(), form, t, r)
    ensures ShapesGrow(old(regs.AllShapes()), regs.AllShapes()) && ShapesOk(regs.AllShapes())
    ensures regs.structs == old(regs.structs) && regs.enums == old(regs.enums)
  {
    hide Added, IndexOf;
    match form
    case FArray(count) => r := regs.InternArray(t, count);
    case FCell => r := regs.InternCell(t);
    case FRef(mutable) => r := regs.InternRef(t, mutable);
    case FSlice(mutable) => r := regs.InternSlice(t, mutable);
  }

  /** Run any list of interning calls: the registries only grow, stay duplicate-free, and two results are
      the same handle exactly when their expansions are the same. */
  method InternAll(ops: seq<InternOp>, regs: Registries, ghost w: World) returns (ts: seq<Type>)
    requires Inv(w, {}) && w.shapes == regs.AllShapes() && OpsOk(w, ops)
    modifies regs
    ensures ShapesGrow(w.shapes, regs.AllShapes()) && ShapesOk(regs.AllShapes())
    ensures |ts| == |ops|
    ensures forall i :: 0 <= i < |ops| ==> Means(w.(shapes := regs.AllShapes()), ts[i], Expansions(w, ops)[i])
    ensures forall i, j :: 0 <= i < |ops| && 0 <= j < |ops| ==>
              (ts[i] == ts[j] <==> Expansions(w, ops)[i] == Expansions(w, ops)[j])
  {
    ts := [];
    for n := 0 to |ops|
      invariant Inv(w.(shapes := regs.AllShapes()), {}) && ShapesGrow(w.shapes, regs.AllShapes())
      invariant |ts| == n && OpsOk(w, ops[..n])
      invariant MeansAll(w.(shapes := regs.AllShapes()), ts, Expansions(w, ops[..n]))
    {
      hide Inv, Means, InstantiationOf, IsEntry, LeafOk, Expansions;
      var op := ops[n];
      ghost var w1 := w.(shapes := regs.AllShapes());
      var t := if op.operand.Leaf? then op.operand.t else ts[op.operand.i];
      ShapesOfInv(w1, {});
      var r := InternForm(op.form, t, regs);
      assert w1.(shapes := regs.AllShapes()) == w.(shapes := regs.AllShapes());
      OneMore(w, w1, regs.AllShapes(), ops, n, ts, r);
      ts := ts + [r];
    }
    assert ops[..|ops|] == ops;
    ShapesOfInv(w.(shapes := regs.AllShapes()), {});
    ResultsDecide(w.(shapes := regs.AllShapes()), ts, Expansions(w, ops));
  }

  lemma OneMore(w: World, w1: World, sh: Shapes, ops: seq<InternOp>, n: nat, ts: seq<Type>, r: Type)
    requires OpsOk(w, ops) && n < |ops| && OpsOk(w, ops[..n]) && |ts| == n
    requires w1 == w.(shapes := w1.shapes) && Inv(w1, {}) && MeansAll(w1, ts, Expansions(w, ops[..n]))
    requires ShapesOk(sh) && ShapesGrow(w1.shapes, sh)
    requires IsEntry(sh, ops[n].form, if ops[n].operand.Leaf? then ops[n].operand.t else ts[ops[n].operand.i], r)
    ensures OpsOk(w, ops[..n + 1])
    ensures Inv(w1.(shapes := sh), {}) && MeansAll(w1.(shapes := sh), ts + [r], Expansions(w, ops[..n + 1]))
  {
    hide Inv, InstantiationOf, IsEntry;
    var op, before := ops[n], Expansions(w, ops[..n]);
    var t := if op.operand.Leaf? then op.operand.t else ts[op.operand.i];
    var s := if op.operand.Leaf? then LeafSym(t) else before[op.operand.i];
    if op.operand.Leaf? {
      LeafMeans(w, w1, t);
    } else {
      MeansAllAt(w1, ts, before, op.operand.i);
    }
    WrapMeans(w1, sh, t, s, r, op.form);
    assert ops[..n + 1][..n] == ops[..n];
    assert Expansions(w, ops[..n + 1]) == before + [Wrap(op.form, s)];
  }

  lemma ResultsDecide(w: World, ts: seq<Type>, ss: seq<Sym>)
    requires Inv(w, {}) && MeansAll(w, ts, ss)
    ensures forall i, j :: 0 <= i < |ts| && 0 <= j < |ts| ==> (ts[i] == ts[j] <==> ss[i] == ss[j])
  {
    forall i, j | 0 <= i < |ts| && 0 <= j < |ts|
      ensures ts[i] == ts[j] <==> ss[i] == ss[j]
    {
      MeansAllAt(w, ts, ss, i);
      MeansAllAt(w, ts, ss, j);
      EqualityIsExpansionEquality(w, {}, ts[i], ts[j], ss[i], ss[j]);
    }
  }

  lemma ShapesOfInv(w: World, open: set<App>)
    requires Inv(w, open)
    ensures ShapesOk(w.shapes)
  {
  }

  lemma LeafMeans(w: World, w1: World, t: Type)
    requires LeafOk(w, t) && w1.structs == w.structs && w1.enums == w.enums
    ensures Means(w1, t, LeafSym(t))
  {
  }
}
