/** The value-level state of the monomorphiser: both generic tables, the live declaration registries they
    are flushed into, and the shape registries. The read-only denotation of a field lives here too. */
module Worlds {
  import opened Types

  /** One application of a header, as the memo tables key it. */
  datatype Key = Key(idx: nat, modId: nat, args: seq<Type>, lens: seq<nat>)

  /** A generic header. `kinds[v]` is the number of arguments variable `v` takes (0 for a plain type
      variable). A struct is a header with one variant; a placeholder has none. */
  datatype Header = Header(kinds: seq<nat>, lenVars: nat, body: seq<seq<PolyType<Type>>>)

  /** A monomorphic declaration: the field types of each variant. */
  datatype Decl = Decl(body: seq<seq<Type>>, modId: nat)

  /** A field list owed to a declaration minted while its header was still a placeholder. */
  datatype Owed = Owed(inst: nat, header: nat, args: seq<Type>, lens: seq<nat>)

  /** The struct half or the enum half of the instantiator. */
  datatype Side = Side(
    headers: seq<Header>, keys: seq<Key>, resolved: seq<Type>, insts: seq<Decl>,
    pending: seq<nat>, deferred: seq<Owed>, base: nat, live: seq<Decl>)

  datatype ArrayDecl = ArrayDecl(elem: Type, count: nat)
  datatype BorrowDecl = BorrowDecl(target: Type, mutable: bool)

  datatype Shapes = Shapes(arrays: seq<ArrayDecl>, cells: seq<Type>, refs: seq<BorrowDecl>, slices: seq<BorrowDecl>)

  datatype World = World(structs: Side, enums: Side, shapes: Shapes) {
    function Of(isEnum: bool): Side { if isEnum then enums else structs }

    function With(isEnum: bool, s: Side): (w: World)
      ensures w.Of(isEnum) == s && w.Of(!isEnum) == Of(!isEnum) && w.shapes == shapes
    {
      if isEnum then this.(enums := s) else this.(structs := s)
    }
  }

  /** A key together with the table it belongs to. */
  datatype App = App(isEnum: bool, key: Key)

  // ---------------------------------------------------------------- reading

  function Lookup(w: World, a: App): Option<Type> {
    var s := w.Of(a.isEnum);
    var i := IndexOf(s.keys, a.key);
    if i < |s.keys| && i < |s.resolved| then Some(s.resolved[i]) else None
  }

  function LenValue(l: Len, lens: seq<nat>): Option<nat> {
    match l
    case Known(n) => Some(n)
    case LenVar(v) => if v < |lens| then Some(lens[v]) else None
  }

  function LenValues(ls: seq<Len>, lens: seq<nat>): (r: Option<seq<nat>>)
    ensures r.Some? ==> |r.value| == |ls| && forall i :: 0 <= i < |ls| ==> LenValue(ls[i], lens) == Some(r.value[i])
    ensures r.None? ==> exists i :: 0 <= i < |ls| && LenValue(ls[i], lens) == None
  {
    if ls == [] then Some([])
    else
      match (LenValue(ls[0], lens), LenValues(ls[1..], lens))
      case (Some(n), Some(ns)) => Some([n] + ns)
      case (None, _) => None
      case (_, None) =>
        assert exists i :: 0 <= i < |ls[1..]| && LenValue(ls[1..][i], lens) == None;
        assert forall i :: 0 <= i < |ls[1..]| ==> ls[1..][i] == ls[i + 1];
        None
  }

  /** What a polymorphic type means at `args`/`lens` in a world that is only read: every application is
      looked up by key, every wrapped shape by its registry entry, and nothing is minted. */
  function Denote(w: World, p: PolyType<Type>, args: seq<Type>, lens: seq<nat>): Option<Type>
    decreases p
  {
    match p
    case Concrete(t) => Some(t)
    case Var(v) => if v < |args| then Some(args[v]) else None
    case PArray(elem, len) =>
      (match (Denote(w, elem, args, lens), LenValue(len, lens))
       case (Some(t), Some(n)) =>
         var i := IndexOf(w.shapes.arrays, ArrayDecl(t, n));
         if i < |w.shapes.arrays| then Some(Array(i)) else None
       case _ => None)
    case PRef(referent, mutable) =>
      (match Denote(w, referent, args, lens)
       case Some(t) =>
         var i := IndexOf(w.shapes.refs, BorrowDecl(t, mutable));
         if i < |w.shapes.refs| then Some(Ref(i, mutable)) else None
       case None => None)
    case PCell(payload) =>
      (match Denote(w, payload, args, lens)
       case Some(t) =>
         var i := IndexOf(w.shapes.cells, t);
         if i < |w.shapes.cells| then Some(Cell(i)) else None
       case None => None)
    case PGeneric(isEnum, idx, modId, gargs, glens) =>
      (match (DenoteAll(w, gargs, args, lens), LenValues(glens, lens))
       case (Some(ts), Some(ns)) => Lookup(w, App(isEnum, Key(idx, modId, ts, ns)))
       case _ => None)
    case PApp(head, fargs) =>
      (match DenoteAll(w, fargs, args, lens)
       case Some(ts) =>
         if head < |args| then
           match args[head]
           case Ctor(isEnum, idx, modId) => Lookup(w, App(isEnum, Key(idx, modId, ts, [])))
           case other => Some(other)
         else None
       case None => None)
    case PQuot(ins, outs, inline) =>
      (match (DenoteAll(w, ins, args, lens), DenoteAll(w, outs, args, lens))
       case (Some(i), Some(o)) => Some(Quot(i, o, if inline then Inline else Plain))
       case _ => None)
    case PQuotLit => None
    case PVariant(_, _, _, _, _) => None
  }

  function DenoteAll(w: World, ps: seq<PolyType<Type>>, args: seq<Type>, lens: seq<nat>): (r: Option<seq<Type>>)
    ensures r.Some? ==>
              |r.value| == |ps| && forall i :: 0 <= i < |ps| ==> Denote(w, ps[i], args, lens) == Some(r.value[i])
    ensures r.None? ==> exists i :: 0 <= i < |ps| && Denote(w, ps[i], args, lens) == None
    decreases ps
  {
    if ps == [] then Some([])
    else
      match (Denote(w, ps[0], args, lens), DenoteAll(w, ps[1..], args, lens))
      case (Some(t), Some(ts)) => Some([t] + ts)
      case (None, _) => None
      case (_, None) =>
        assert exists i :: 0 <= i < |ps[1..]| && Denote(w, ps[1..][i], args, lens) == None;
        assert forall i :: 0 <= i < |ps[1..]| ==> ps[1..][i] == ps[i + 1];
        None
  }

  /** `DenoteAll` is determined element by element. */
  lemma DenoteAllIs(w: World, ps: seq<PolyType<Type>>, args: seq<Type>, lens: seq<nat>, ts: seq<Type>)
    requires |ts| == |ps|
    requires forall i :: 0 <= i < |ps| ==> Denote(w, ps[i], args, lens) == Some(ts[i])
    ensures DenoteAll(w, ps, args, lens) == Some(ts)
  {
    assert DenoteAll(w, ps, args, lens).value == ts;
  }

  lemma LenValuesIs(ls: seq<Len>, lens: seq<nat>, ns: seq<nat>)
    requires |ns| == |ls|
    requires forall i :: 0 <= i < |ls| ==> LenValue(ls[i], lens) == Some(ns[i])
    ensures LenValues(ls, lens) == Some(ns)
  {
    assert LenValues(ls, lens).value == ns;
  }
}
