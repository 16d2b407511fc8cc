/** What every legal history of the monomorphiser keeps, and the value-level steps it is made of. */
module Invariant {
  import opened Types
  import opened Worlds

  // ---------------------------------------------------------------- well-formed headers and keys

  /** A constructor image can stand for a header variable taking `kind` arguments. */
  predicate CtorFits(w: World, t: Type, kind: nat)
    requires t.Ctor?
  {
    var hs := w.Of(t.isEnum).headers;
    t.idx < |hs| && hs[t.idx].lenVars == 0 && |hs[t.idx].kinds| == kind &&
    forall j :: 0 <= j < kind ==> hs[t.idx].kinds[j] == 0
  }

  predicate ArgFits(w: World, t: Type, kind: nat) {
    kind > 0 && t.Ctor? ==> CtorFits(w, t, kind)
  }

  predicate KeyFits(w: World, a: App) {
    var hs := w.Of(a.isEnum).headers;
    && a.key.idx < |hs|
    && |a.key.args| == |hs[a.key.idx].kinds|
    && |a.key.lens| == hs[a.key.idx].lenVars
    && forall j :: 0 <= j < |a.key.args| ==> ArgFits(w, a.key.args[j], hs[a.key.idx].kinds[j])
  }

  predicate LenOk(l: Len, lenVars: nat) { l.LenVar? ==> l.v < lenVars }

  /** An argument of a nested application is a variable or a concrete type: a field never grows the
      type it is instantiated at. `kind` is what the applied header expects in that place. */
  predicate FlatArg(w: World, p: PolyType<Type>, kinds: seq<nat>, kind: nat) {
    match p
    case Concrete(t) => ArgFits(w, t, kind)
    case Var(v) => v < |kinds| && (kind > 0 ==> kinds[v] == kind)
    case _ => false
  }

  predicate FieldOk(w: World, p: PolyType<Type>, kinds: seq<nat>, lenVars: nat)
    decreases p
  {
    match p
    case Concrete(_) => true
    case Var(v) => v < |kinds|
    case PArray(elem, len) => FieldOk(w, elem, kinds, lenVars) && LenOk(len, lenVars)
    case PRef(referent, _) => FieldOk(w, referent, kinds, lenVars)
    case PCell(payload) => FieldOk(w, payload, kinds, lenVars)
    case PGeneric(isEnum, idx, _, args, lens) =>
      var hs := w.Of(isEnum).headers;
      && idx < |hs| && |args| == |hs[idx].kinds| && |lens| == hs[idx].lenVars
      && (forall j :: 0 <= j < |lens| ==> LenOk(lens[j], lenVars))
      && (forall j :: 0 <= j < |args| ==> FlatArg(w, args[j], kinds, hs[idx].kinds[j]))
    case PApp(head, args) =>
      && head < |kinds| && 0 < kinds[head] == |args|
      && forall j :: 0 <= j < |args| ==> FlatArg(w, args[j], kinds, 0)
    case PQuot(ins, outs, _) =>
      && (forall j :: 0 <= j < |ins| ==> FieldOk(w, ins[j], kinds, lenVars))
      && (forall j :: 0 <= j < |outs| ==> FieldOk(w, outs[j], kinds, lenVars))
    case PQuotLit => false
    case PVariant(_, _, _, _, _) => false
  }

  predicate BodyOk(w: World, body: seq<seq<PolyType<Type>>>, kinds: seq<nat>, lenVars: nat) {
    forall v, f :: 0 <= v < |body| && 0 <= f < |body[v]| ==> FieldOk(w, body[v][f], kinds, lenVars)
  }

  // ---------------------------------------------------------------- the invariant

  predicate ShapesOk(sh: Shapes) {
    Distinct(sh.arrays) && Distinct(sh.cells) && Distinct(sh.refs) && Distinct(sh.slices)
  }

  /** Keys minted before the current batch: `Split(s)` of them are already in the live registry. */
  function Split(s: Side): int { |s.keys| - |s.insts| }

  /** The parallel vectors of one table, its ids and its deferred list. */
  predicate Lockstep(s: Side, isEnum: bool) {
    && |s.resolved| == |s.keys|
    && |s.insts| <= |s.keys|
    && Distinct(s.keys)
    && (forall i :: 0 <= i < |s.keys| ==> s.resolved[i].Nominal? && s.resolved[i].isEnum == isEnum)
    && (forall i, j :: 0 <= i < j < |s.keys| ==> s.resolved[i].id < s.resolved[j].id)
    && (forall i :: 0 <= i < Split(s) ==> s.resolved[i].id < |s.live|)
    && (forall i :: Split(s) <= i < |s.keys| ==> s.resolved[i].id == s.base + (i - Split(s)))
    && (s.insts != [] ==> s.base == |s.live|)
    && s.base <= |s.live|
  }

  /** The declaration an instantiation's id indexes, in the live registry or the staged batch. */
  function DeclAt(s: Side, i: nat, isEnum: bool): Decl
    requires Lockstep(s, isEnum) && i < |s.keys|
  {
    if s.resolved[i].id < |s.live| then s.live[s.resolved[i].id] else s.insts[s.resolved[i].id - s.base]
  }

  /** A ground body is the denotation of a header body. */
  predicate DenotesBody(w: World, p: seq<seq<PolyType<Type>>>, args: seq<Type>, lens: seq<nat>, d: seq<seq<Type>>) {
    && |d| == |p|
    && (forall v :: 0 <= v < |p| ==> |d[v]| == |p[v]|)
    && (forall v, f :: 0 <= v < |p| && 0 <= f < |p[v]| ==> Denote(w, p[v][f], args, lens) == Some(d[v][f]))
  }

  predicate DeferredOk(s: Side, isEnum: bool)
    requires Lockstep(s, isEnum)
  {
    && (forall d :: 0 <= d < |s.deferred| ==>
          && s.deferred[d].inst < |s.insts|
          && s.deferred[d].header in s.pending
          && s.keys[Split(s) + s.deferred[d].inst].idx == s.deferred[d].header
          && s.keys[Split(s) + s.deferred[d].inst].args == s.deferred[d].args
          && s.keys[Split(s) + s.deferred[d].inst].lens == s.deferred[d].lens)
    && (forall d, e :: 0 <= d < e < |s.deferred| ==> s.deferred[d].inst != s.deferred[e].inst)
  }

  predicate HeadersOk(w: World, s: Side) {
    && (forall h :: 0 <= h < |s.headers| ==> BodyOk(w, s.headers[h].body, s.headers[h].kinds, s.headers[h].lenVars))
    && (forall h :: 0 <= h < |s.pending| ==> s.pending[h] < |s.headers| && s.headers[s.pending[h]].body == [])
  }

  /** What is true of key `i`: it has the field list its header denotes, unless its header is a placeholder
      (then the list is on the deferred list) or it is on the active recursion stack `open`. */
  predicate KeySettled(w: World, isEnum: bool, i: nat, open: set<App>)
    requires Lockstep(w.Of(isEnum), isEnum) && i < |w.Of(isEnum).keys|
  {
    var s := w.Of(isEnum);
    var k := s.keys[i];
    && KeyFits(w, App(isEnum, k))
    && DeclAt(s, i, isEnum).modId == k.modId
    && (if App(isEnum, k) in open then
          DeclAt(s, i, isEnum).body == [] && Split(s) <= i && k.idx !in s.pending
        else if k.idx in s.pending then
          DeclAt(s, i, isEnum).body == [] && Split(s) <= i &&
          exists d :: 0 <= d < |s.deferred| && s.deferred[d].inst == i - Split(s)
        else DenotesBody(w, s.headers[k.idx].body, k.args, k.lens, DeclAt(s, i, isEnum).body))
  }

  predicate SideOk(w: World, isEnum: bool, open: set<App>) {
    var s := w.Of(isEnum);
    && Lockstep(s, isEnum)
    && DeferredOk(s, isEnum)
    && HeadersOk(w, s)
    && forall i :: 0 <= i < |s.keys| ==> KeySettled(w, isEnum, i, open)
  }

  predicate Inv(w: World, open: set<App>) {
    && ShapesOk(w.shapes)
    && SideOk(w, false, open)
    && SideOk(w, true, open)
    && forall a :: a in open ==> a.key in w.Of(a.isEnum).keys
  }

  /** A mint is legal: both bases count from the live registries' current lengths. */
  predicate Based(w: World) {
    w.structs.base == |w.structs.live| && w.enums.base == |w.enums.live|
  }

  // ---------------------------------------------------------------- growth

  predicate ShapesGrow(a: Shapes, b: Shapes) {
    a.arrays <= b.arrays && a.cells <= b.cells && a.refs <= b.refs && a.slices <= b.slices
  }

  predicate SideGrow(a: Side, b: Side) {
    && a.headers == b.headers && a.pending == b.pending && a.base == b.base && a.live == b.live
    && a.keys <= b.keys && a.resolved <= b.resolved && a.deferred <= b.deferred
    && |a.insts| <= |b.insts| && Split(a) == Split(b)
  }

  /** What an instantiation does to a world: it only appends. */
  predicate Grow(a: World, b: World) {
    SideGrow(a.structs, b.structs) && SideGrow(a.enums, b.enums) && ShapesGrow(a.shapes, b.shapes)
  }

  predicate TablesGrow(a: World, b: World) {
    && a.structs.keys <= b.structs.keys && a.structs.resolved <= b.structs.resolved
    && a.enums.keys <= b.enums.keys && a.enums.resolved <= b.enums.resolved
    && ShapesGrow(a.shapes, b.shapes)
  }

  lemma LookupGrows(a: World, b: World, k: App)
    requires TablesGrow(a, b) && Lookup(a, k).Some?
    ensures Lookup(b, k) == Lookup(a, k)
  {
    IndexOfGrows(a.Of(k.isEnum).keys, b.Of(k.isEnum).keys, k.key);
  }

  /** Reading is stable: what a field denotes never changes as the tables grow. */
  lemma {:induction false} DenoteGrows(a: World, b: World, p: PolyType<Type>, args: seq<Type>, lens: seq<nat>)
    requires TablesGrow(a, b) && Denote(a, p, args, lens).Some?
    ensures Denote(b, p, args, lens) == Denote(a, p, args, lens)
    decreases p
  {
    match p
    case Concrete(_) =>
    case Var(_) =>
    case PArray(elem, len) =>
      DenoteGrows(a, b, elem, args, lens);
      IndexOfGrows(a.shapes.arrays, b.shapes.arrays,
                   ArrayDecl(Denote(a, elem, args, lens).value, LenValue(len, lens).value));
    case PRef(referent, mutable) =>
      DenoteGrows(a, b, referent, args, lens);
      IndexOfGrows(a.shapes.refs, b.shapes.refs, BorrowDecl(Denote(a, referent, args, lens).value, mutable));
    case PCell(payload) =>
      DenoteGrows(a, b, payload, args, lens);
      IndexOfGrows(a.shapes.cells, b.shapes.cells, Denote(a, payload, args, lens).value);
    case PGeneric(isEnum, idx, modId, gargs, glens) =>
      DenoteAllGrows(a, b, gargs, args, lens);
      var ts := DenoteAll(a, gargs, args, lens).value;
      LookupGrows(a, b, App(isEnum, Key(idx, modId, ts, LenValues(glens, lens).value)));
    case PApp(head, fargs) =>
      DenoteAllGrows(a, b, fargs, args, lens);
      if args[head].Ctor? {
        var t := args[head];
        LookupGrows(a, b, App(t.isEnum, Key(t.idx, t.modId, DenoteAll(a, fargs, args, lens).value, [])));
      }
    case PQuot(ins, outs, _) =>
      DenoteAllGrows(a, b, ins, args, lens);
      DenoteAllGrows(a, b, outs, args, lens);
    case PQuotLit =>
    case PVariant(_, _, _, _, _) =>
  }

  lemma {:induction false} DenoteAllGrows(a: World, b: World, ps: seq<PolyType<Type>>, args: seq<Type>, lens: seq<nat>)
    requires TablesGrow(a, b) && DenoteAll(a, ps, args, lens).Some?
    ensures DenoteAll(b, ps, args, lens) == DenoteAll(a, ps, args, lens)
    decreases ps
  {
    if ps != [] {
      DenoteGrows(a, b, ps[0], args, lens);
      DenoteAllGrows(a, b, ps[1..], args, lens);
    }
  }

  lemma DenotesBodyGrows(a: World, b: World, p: seq<seq<PolyType<Type>>>, args: seq<Type>, lens: seq<nat>,
        d: seq<seq<Type>>)
    requires TablesGrow(a, b) && DenotesBody(a, p, args, lens, d)
    ensures DenotesBody(b, p, args, lens, d)
  {
    forall v, f | 0 <= v < |p| && 0 <= f < |p[v]|
      ensures Denote(b, p[v][f], args, lens) == Some(d[v][f])
    {
      DenoteGrows(a, b, p[v][f], args, lens);
    }
  }
}
