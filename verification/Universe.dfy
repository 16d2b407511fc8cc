/** Why instantiation terminates: every application reachable from a root key lies in one finite set. */
module Universe {
  import opened Types
  import opened Worlds
  import opened Invariant

  /** The ground type of a non-growing argument, which needs no registry to compute. */
  function FlatValue(p: PolyType<Type>, args: seq<Type>): Type
    requires p.Concrete? || (p.Var? && p.v < |args|)
  {
    if p.Concrete? then p.ty else args[p.v]
  }

  predicate IsFlat(p: PolyType<Type>, args: seq<Type>) {
    p.Concrete? || (p.Var? && p.v < |args|)
  }

  predicate AllFlat(ps: seq<PolyType<Type>>, args: seq<Type>) {
    forall j :: 0 <= j < |ps| ==> IsFlat(ps[j], args)
  }

  function FlatValues(ps: seq<PolyType<Type>>, args: seq<Type>): (r: seq<Type>)
    requires AllFlat(ps, args)
    ensures |r| == |ps| && forall j :: 0 <= j < |ps| ==> r[j] == FlatValue(ps[j], args)
  {
    seq(|ps|, j requires 0 <= j < |ps| => FlatValue(ps[j], args))
  }

  /** Substituting `p` at `args`/`lens` never indexes out of range and only names applications in `u`. */
  predicate Within(p: PolyType<Type>, args: seq<Type>, lens: seq<nat>, u: set<App>)
    decreases p
  {
    match p
    case Concrete(_) => true
    case Var(v) => v < |args|
    case PArray(elem, len) => Within(elem, args, lens, u) && LenValue(len, lens).Some?
    case PRef(referent, _) => Within(referent, args, lens, u)
    case PCell(payload) => Within(payload, args, lens, u)
    case PGeneric(isEnum, idx, modId, gargs, glens) =>
      && AllFlat(gargs, args) && LenValues(glens, lens).Some?
      && App(isEnum, Key(idx, modId, FlatValues(gargs, args), LenValues(glens, lens).value)) in u
    case PApp(head, fargs) =>
      && head < |args| && AllFlat(fargs, args)
      && (args[head].Ctor? ==>
            App(args[head].isEnum, Key(args[head].idx, args[head].modId, FlatValues(fargs, args), [])) in u)
    case PQuot(ins, outs, _) =>
      && (forall j :: 0 <= j < |ins| ==> Within(ins[j], args, lens, u))
      && (forall j :: 0 <= j < |outs| ==> Within(outs[j], args, lens, u))
    case PQuotLit => false
    case PVariant(_, _, _, _, _) => false
  }

  predicate BodyWithin(body: seq<seq<PolyType<Type>>>, args: seq<Type>, lens: seq<nat>, u: set<App>) {
    forall v, f :: 0 <= v < |body| && 0 <= f < |body[v]| ==> Within(body[v][f], args, lens, u)
  }

  /** `u` holds well-formed keys only, and every application their header bodies name. */
  predicate Closed(w: World, u: set<App>) {
    forall a :: a in u ==> (KeyFits(w, a) &&
      BodyWithin(w.Of(a.isEnum).headers[a.key.idx].body, a.key.args, a.key.lens, u))
  }

  // ---------------------------------------------------------------- applications occurring in a body

  function Occs(p: PolyType<Type>): set<PolyType<Type>>
    decreases p
  {
    match p
    case Concrete(_) => {}
    case Var(_) => {}
    case PArray(elem, _) => Occs(elem)
    case PRef(referent, _) => Occs(referent)
    case PCell(payload) => Occs(payload)
    case PGeneric(_, _, _, _, _) => {p}
    case PApp(_, _) => {p}
    case PQuot(ins, outs, _) =>
      (set j, q | 0 <= j < |ins| && q in Occs(ins[j]) :: q) + (set j, q | 0 <= j < |outs| && q in Occs(outs[j]) :: q)
    case PQuotLit => {}
    case PVariant(_, _, _, _, _) => {}
  }

  /** The array lengths a field spells out are never part of a key, so only applications are collected. */
  function BodyOccs(body: seq<seq<PolyType<Type>>>): set<PolyType<Type>> {
    set v, f, q | 0 <= v < |body| && 0 <= f < |body[v]| && q in Occs(body[v][f]) :: q
  }

  function HeaderOccs(hs: seq<Header>): set<PolyType<Type>> {
    set h, q | 0 <= h < |hs| && q in BodyOccs(hs[h].body) :: q
  }

  function AllOccs(w: World): set<PolyType<Type>> { HeaderOccs(w.structs.headers) + HeaderOccs(w.enums.headers) }

  function ArgsOf(q: PolyType<Type>): seq<PolyType<Type>> {
    match q
    case PGeneric(_, _, _, args, _) => args
    case PApp(_, args) => args
    case _ => []
  }

  function LensOf(q: PolyType<Type>): seq<Len> { if q.PGeneric? then q.lens else [] }

  // ---------------------------------------------------------------- the finite alphabet and the universe

  function Tuples<T(==,!new)>(c: set<T>, n: nat): (r: set<seq<T>>)
    ensures forall s :: s in r <==> |s| == n && forall i :: 0 <= i < n ==> s[i] in c
  {
    if n == 0 then {[]}
    else
      var rest := Tuples(c, n - 1);
      var r := set t, s | t in c && s in rest :: [t] + s;
      assert forall s :: |s| == n && (forall i :: 0 <= i < n ==> s[i] in c) ==> s == [s[0]] + s[1..] && s[1..] in rest;
      r
  }

  /** Every ground type a reachable key can carry: the root's own arguments and the fields' literals. */
  function TypeAlphabet(occs: set<PolyType<Type>>, root: Key): set<Type> {
    (set i | 0 <= i < |root.args| :: root.args[i]) +
    (set q, i | q in occs && 0 <= i < |ArgsOf(q)| && ArgsOf(q)[i].Concrete? :: ArgsOf(q)[i].ty)
  }

  function LenAlphabet(occs: set<PolyType<Type>>, root: Key): set<nat> {
    (set i | 0 <= i < |root.lens| :: root.lens[i]) +
    (set q, i | q in occs && 0 <= i < |LensOf(q)| && LensOf(q)[i].Known? :: LensOf(q)[i].n)
  }

  function ModAlphabet(occs: set<PolyType<Type>>, types: set<Type>, root: Key): set<nat> {
    {root.modId} + (set q | q in occs && q.PGeneric? :: q.modId) + (set t | t in types && t.Ctor? :: t.modId)
  }

  function HeaderKeys(h: Header, idx: nat, types: set<Type>, lens: set<nat>, mods: set<nat>): set<Key> {
    set m, ts, ns | m in mods && ts in Tuples(types, |h.kinds|) && ns in Tuples(lens, h.lenVars) :: Key(idx, m, ts, ns)
  }

  function SideKeys(hs: seq<Header>, types: set<Type>, lens: set<nat>, mods: set<nat>): set<Key> {
    set h, k | 0 <= h < |hs| && k in HeaderKeys(hs[h], h, types, lens, mods) :: k
  }

  function UniverseOf(w: World, root: App): set<App> {
    var occs := AllOccs(w);
    var types := TypeAlphabet(occs, root.key);
    var lens := LenAlphabet(occs, root.key);
    var mods := ModAlphabet(occs, types, root.key);
    (set k | k in SideKeys(w.structs.headers, types, lens, mods) && KeyFits(w, App(false, k)) :: App(false, k)) +
    (set k | k in SideKeys(w.enums.headers, types, lens, mods) && KeyFits(w, App(true, k)) :: App(true, k))
  }

  lemma InUniverse(w: World, root: App, a: App)
    requires KeyFits(w, a)
    requires var occs := AllOccs(w);
             var types := TypeAlphabet(occs, root.key);
             && a.key.modId in ModAlphabet(occs, types, root.key)
             && (forall i :: 0 <= i < |a.key.args| ==> a.key.args[i] in types)
             && (forall i :: 0 <= i < |a.key.lens| ==> a.key.lens[i] in LenAlphabet(occs, root.key))
    ensures a in UniverseOf(w, root)
  {
    var occs := AllOccs(w);
    var types := TypeAlphabet(occs, root.key);
    var lens := LenAlphabet(occs, root.key);
    var mods := ModAlphabet(occs, types, root.key);
    var h := w.Of(a.isEnum).headers[a.key.idx];
    assert a.key.args in Tuples(types, |h.kinds|);
    assert a.key.lens in Tuples(lens, h.lenVars);
    assert a.key in HeaderKeys(h, a.key.idx, types, lens, mods);
    assert a.key in SideKeys(w.Of(a.isEnum).headers, types, lens, mods);
  }

  lemma UniverseMembers(w: World, root: App, a: App)
    requires a in UniverseOf(w, root)
    ensures var occs := AllOccs(w);
            var types := TypeAlphabet(occs, root.key);
            && KeyFits(w, a)
            && (forall i :: 0 <= i < |a.key.args| ==> a.key.args[i] in types)
            && (forall i :: 0 <= i < |a.key.lens| ==> a.key.lens[i] in LenAlphabet(occs, root.key))
  {
    var occs := AllOccs(w);
    var types := TypeAlphabet(occs, root.key);
    var lens := LenAlphabet(occs, root.key);
    var mods := ModAlphabet(occs, types, root.key);
    assert a.key in SideKeys(w.Of(a.isEnum).headers, types, lens, mods);
    assert a.key in HeaderKeys(w.Of(a.isEnum).headers[a.key.idx], a.key.idx, types, lens, mods);
  }

  lemma RootInUniverse(w: World, root: App)
    requires KeyFits(w, root)
    ensures root in UniverseOf(w, root)
  {
    InUniverse(w, root, root);
  }

  /** A well-formed field at a well-formed key of the universe stays inside it. */
  lemma {:induction false} FieldWithin(w: World, root: App, a: App, p: PolyType<Type>)
    requires a in UniverseOf(w, root) && KeyFits(w, a)
    requires Occs(p) <= AllOccs(w)
    requires FieldOk(w, p, w.Of(a.isEnum).headers[a.key.idx].kinds, w.Of(a.isEnum).headers[a.key.idx].lenVars)
    ensures Within(p, a.key.args, a.key.lens, UniverseOf(w, root))
    decreases p
  {
    var k := a.key;
    match p
    case Concrete(_) =>
    case Var(_) =>
    case PArray(elem, _) => FieldWithin(w, root, a, elem);
    case PRef(referent, _) => FieldWithin(w, root, a, referent);
    case PCell(payload) => FieldWithin(w, root, a, payload);
    case PGeneric(isEnum, idx, modId, gargs, glens) => GenericWithin(w, root, a, p);
    case PApp(head, fargs) => AppWithin(w, root, a, p);
    case PQuot(ins, outs, _) =>
      forall j | 0 <= j < |ins| ensures Within(ins[j], k.args, k.lens, UniverseOf(w, root)) {
        FieldWithin(w, root, a, ins[j]);
      }
      forall j | 0 <= j < |outs| ensures Within(outs[j], k.args, k.lens, UniverseOf(w, root)) {
        FieldWithin(w, root, a, outs[j]);
      }
  }

  /** A flat argument takes its value from the alphabet, and fits where the header asked it to. */
  lemma FlatInAlphabet(w: World, root: App, a: App, q: PolyType<Type>, j: nat, kind: nat)
    requires a in UniverseOf(w, root) && KeyFits(w, a) && q in AllOccs(w) && j < |ArgsOf(q)|
    requires FlatArg(w, ArgsOf(q)[j], w.Of(a.isEnum).headers[a.key.idx].kinds, kind)
    ensures IsFlat(ArgsOf(q)[j], a.key.args)
    ensures FlatValue(ArgsOf(q)[j], a.key.args) in TypeAlphabet(AllOccs(w), root.key)
    ensures ArgFits(w, FlatValue(ArgsOf(q)[j], a.key.args), kind)
  {
    UniverseMembers(w, root, a);
  }

  lemma GenericWithin(w: World, root: App, a: App, p: PolyType<Type>)
    requires a in UniverseOf(w, root) && KeyFits(w, a)
    requires p.PGeneric? && p in AllOccs(w)
    requires FieldOk(w, p, w.Of(a.isEnum).headers[a.key.idx].kinds, w.Of(a.isEnum).headers[a.key.idx].lenVars)
    ensures Within(p, a.key.args, a.key.lens, UniverseOf(w, root))
  {
    var k := a.key;
    var types := TypeAlphabet(AllOccs(w), root.key);
    forall j | 0 <= j < |p.args|
      ensures IsFlat(p.args[j], k.args) && FlatValue(p.args[j], k.args) in types
      ensures ArgFits(w, FlatValue(p.args[j], k.args), w.Of(p.isEnum).headers[p.idx].kinds[j])
    {
      FlatInAlphabet(w, root, a, p, j, w.Of(p.isEnum).headers[p.idx].kinds[j]);
    }
    UniverseMembers(w, root, a);
    GenericLens(AllOccs(w), root.key, p, k.lens);
    InUniverse(w, root,
               App(p.isEnum, Key(p.idx, p.modId, FlatValues(p.args, k.args), LenValues(p.lens, k.lens).value)));
  }

  lemma GenericLens(occs: set<PolyType<Type>>, root: Key, p: PolyType<Type>, lens: seq<nat>)
    requires p.PGeneric? && p in occs
    requires forall j :: 0 <= j < |lens| ==> lens[j] in LenAlphabet(occs, root)
    requires forall j :: 0 <= j < |p.lens| ==> LenOk(p.lens[j], |lens|)
    ensures LenValues(p.lens, lens).Some?
    ensures forall i :: 0 <= i < |p.lens| ==> LenValues(p.lens, lens).value[i] in LenAlphabet(occs, root)
  {
    forall i | 0 <= i < |p.lens|
      ensures LenValues(p.lens, lens).value[i] in LenAlphabet(occs, root)
    {
      assert LensOf(p)[i] == p.lens[i];
    }
  }

  lemma AppWithin(w: World, root: App, a: App, p: PolyType<Type>)
    requires a in UniverseOf(w, root) && KeyFits(w, a)
    requires p.PApp? && p in AllOccs(w)
    requires FieldOk(w, p, w.Of(a.isEnum).headers[a.key.idx].kinds, w.Of(a.isEnum).headers[a.key.idx].lenVars)
    ensures Within(p, a.key.args, a.key.lens, UniverseOf(w, root))
  {
    var k := a.key;
    var t := k.args[p.head];
    var types := TypeAlphabet(AllOccs(w), root.key);
    forall j | 0 <= j < |p.args|
      ensures IsFlat(p.args[j], k.args) && FlatValue(p.args[j], k.args) in types
    {
      FlatInAlphabet(w, root, a, p, j, 0);
    }
    if t.Ctor? {
      UniverseMembers(w, root, a);
      assert ArgFits(w, t, w.Of(a.isEnum).headers[k.idx].kinds[p.head]);
      InUniverse(w, root, App(t.isEnum, Key(t.idx, t.modId, FlatValues(p.args, k.args), [])));
    }
  }

  /** The universe of a well-formed root is finite by construction and closed under every header body. */
  lemma UniverseClosed(w: World, root: App)
    requires HeadersOk(w, w.structs) && HeadersOk(w, w.enums)
    ensures Closed(w, UniverseOf(w, root))
  {
    var u := UniverseOf(w, root);
    forall a | a in u
      ensures KeyFits(w, a) && BodyWithin(w.Of(a.isEnum).headers[a.key.idx].body, a.key.args, a.key.lens, u)
    {
      UniverseMembers(w, root, a);
      var h := w.Of(a.isEnum).headers[a.key.idx];
      assert BodyOk(w, h.body, h.kinds, h.lenVars);
      forall v, f | 0 <= v < |h.body| && 0 <= f < |h.body[v]|
        ensures Within(h.body[v][f], a.key.args, a.key.lens, u)
      {
        forall q | q in Occs(h.body[v][f]) ensures q in AllOccs(w) {
          assert q in BodyOccs(h.body);
          assert q in HeaderOccs(w.Of(a.isEnum).headers);
        }
        FieldWithin(w, root, a, h.body[v][f]);
      }
    }
  }
}
