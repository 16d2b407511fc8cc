/** Symbolic substitution into a generic enum variant's field, and when it commutes with grounding. */
module Substitution {
  import opened Types
  import opened Worlds
  import opened Invariant
  import opened History

  /** The shapes a variant field can have, with every variable bound by one of `n` arguments. */
  predicate VariantField<C>(p: PolyType<C>, n: nat)
    decreases p
  {
    match p
    case Concrete(_) => true
    case Var(v) => v < n
    case PCell(payload) => VariantField(payload, n)
    case PGeneric(_, _, _, args, _) => forall i :: 0 <= i < |args| ==> VariantField(args[i], n)
    case PApp(_, args) => forall i :: 0 <= i < |args| ==> VariantField(args[i], n)
    case _ => false
  }

  function SubstVariant<C>(p: PolyType<C>, args: seq<PolyType<C>>): PolyType<C>
    requires VariantField(p, |args|)
    decreases p
  {
    match p
    case Concrete(_) => p
    case Var(v) => args[v]
    case PCell(payload) => PCell(SubstVariant(payload, args))
    case PGeneric(isEnum, idx, modId, gargs, lens) => PGeneric(isEnum, idx, modId, SubstVariants(gargs, args), lens)
    case PApp(head, fargs) => PApp(head, SubstVariants(fargs, args))
  }

  function SubstVariants<C>(ps: seq<PolyType<C>>, args: seq<PolyType<C>>): (r: seq<PolyType<C>>)
    requires forall i :: 0 <= i < |ps| ==> VariantField(ps[i], |args|)
    ensures |r| == |ps| && forall i :: 0 <= i < |ps| ==> r[i] == SubstVariant(ps[i], args)
    decreases ps
  {
    if ps == [] then [] else [SubstVariant(ps[0], args)] + SubstVariants(ps[1..], args)
  }

  /** Substitution keeps the shape, and two substitutions compose into one. */
  lemma {:induction false} SubstComposes<C>(p: PolyType<C>, a: seq<PolyType<C>>, b: seq<PolyType<C>>)
    requires VariantField(p, |a|) && forall i :: 0 <= i < |a| ==> VariantField(a[i], |b|)
    ensures VariantField(SubstVariant(p, a), |b|)
    ensures SubstVariant(SubstVariant(p, a), b) == SubstVariant(p, SubstVariants(a, b))
    decreases p
  {
    match p
    case Concrete(_) =>
    case Var(_) =>
    case PCell(payload) => SubstComposes(payload, a, b);
    case PGeneric(_, _, _, gargs, _) => SubstsCompose(gargs, a, b);
    case PApp(_, fargs) => SubstsCompose(fargs, a, b);
  }

  lemma {:induction false} SubstsCompose<C>(ps: seq<PolyType<C>>, a: seq<PolyType<C>>, b: seq<PolyType<C>>)
    requires forall i :: 0 <= i < |ps| ==> VariantField(ps[i], |a|)
    requires forall i :: 0 <= i < |a| ==> VariantField(a[i], |b|)
    ensures forall i :: 0 <= i < |ps| ==> VariantField(SubstVariants(ps, a)[i], |b|)
    ensures SubstVariants(SubstVariants(ps, a), b) == SubstVariants(ps, SubstVariants(a, b))
    decreases ps
  {
    forall i | 0 <= i < |ps|
      ensures VariantField(SubstVariant(ps[i], a), |b|)
      ensures SubstVariant(SubstVariant(ps[i], a), b) == SubstVariant(ps[i], SubstVariants(a, b))
    {
      SubstComposes(ps[i], a, b);
    }
  }

  // ---------------------------------------------------------------- commuting with grounding

  function HeadType(args: seq<Type>, head: nat): Option<Type> { if head < |args| then Some(args[head]) else None }

  /** The guard the symbolic walk leaves out: it carries an application's head and every length argument
      through unchanged, so these must read the same from the scrutinee's bindings (`ts`, `ns`) and from
      the enclosing signature's (`theta`, `lens`). */
  predicate Aligned(p: PolyType<Type>, theta: seq<Type>, lens: seq<nat>, ts: seq<Type>, ns: seq<nat>)
    decreases p
  {
    match p
    case PCell(payload) => Aligned(payload, theta, lens, ts, ns)
    case PGeneric(_, _, _, args, ls) =>
      && (forall i :: 0 <= i < |ls| ==> LenValue(ls[i], lens) == LenValue(ls[i], ns))
      && forall i :: 0 <= i < |args| ==> Aligned(args[i], theta, lens, ts, ns)
    case PApp(head, args) =>
      && HeadType(theta, head) == HeadType(ts, head)
      && forall i :: 0 <= i < |args| ==> Aligned(args[i], theta, lens, ts, ns)
    case _ => true
  }

  /** A field without applications and without length variables is always aligned. */
  predicate Plain(p: PolyType<Type>)
    decreases p
  {
    match p
    case PCell(payload) => Plain(payload)
    case PGeneric(_, _, _, args, ls) =>
      (forall i :: 0 <= i < |ls| ==> ls[i].Known?) && forall i :: 0 <= i < |args| ==> Plain(args[i])
    case PApp(_, _) => false
    case _ => true
  }

  lemma {:induction false} PlainAligned(p: PolyType<Type>, theta: seq<Type>, lens: seq<nat>, ts: seq<Type>,
        ns: seq<nat>)
    requires Plain(p)
    ensures Aligned(p, theta, lens, ts, ns)
    decreases p
  {
    match p
    case PCell(payload) => PlainAligned(payload, theta, lens, ts, ns);
    case PGeneric(_, _, _, args, _) =>
      forall i | 0 <= i < |args| ensures Aligned(args[i], theta, lens, ts, ns) {
        PlainAligned(args[i], theta, lens, ts, ns);
      }
    case _ =>
  }

  /** The scrutinee's arguments ground to `ts` under the enclosing bindings. */
  predicate GroundsTo(w: World, args: seq<PolyType<Type>>, theta: seq<Type>, lens: seq<nat>, ts: seq<Type>) {
    |args| == |ts| && forall i :: 0 <= i < |args| ==> Denote(w, args[i], theta, lens) == Some(ts[i])
  }

  /** Destructuring symbolically and grounding afterwards is grounding first and reading the field. */
  lemma {:induction false} SubstCommutes(w: World, p: PolyType<Type>, args: seq<PolyType<Type>>, theta: seq<Type>,
        lens: seq<nat>, ts: seq<Type>, ns: seq<nat>)
    requires VariantField(p, |args|) && GroundsTo(w, args, theta, lens, ts) && Aligned(p, theta, lens, ts, ns)
    ensures Denote(w, SubstVariant(p, args), theta, lens) == Denote(w, p, ts, ns)
    decreases p
  {
    match p
    case Concrete(_) =>
    case Var(_) =>
    case PCell(payload) => SubstCommutes(w, payload, args, theta, lens, ts, ns);
    case PGeneric(_, _, _, gargs, ls) =>
      SubstsCommute(w, gargs, args, theta, lens, ts, ns);
      LensAgree(ls, lens, ns);
    case PApp(_, fargs) => SubstsCommute(w, fargs, args, theta, lens, ts, ns);
  }

  lemma {:induction false} SubstsCommute(w: World, ps: seq<PolyType<Type>>, args: seq<PolyType<Type>>,
        theta: seq<Type>, lens: seq<nat>, ts: seq<Type>, ns: seq<nat>)
    requires forall i :: 0 <= i < |ps| ==> VariantField(ps[i], |args|) && Aligned(ps[i], theta, lens, ts, ns)
    requires GroundsTo(w, args, theta, lens, ts)
    ensures DenoteAll(w, SubstVariants(ps, args), theta, lens) == DenoteAll(w, ps, ts, ns)
    decreases ps
  {
    if ps != [] {
      SubstCommutes(w, ps[0], args, theta, lens, ts, ns);
      SubstsCommute(w, ps[1..], args, theta, lens, ts, ns);
      assert SubstVariants(ps, args)[1..] == SubstVariants(ps[1..], args);
    }
  }

  lemma LensAgree(ls: seq<Len>, lens: seq<nat>, ns: seq<nat>)
    requires forall i :: 0 <= i < |ls| ==> LenValue(ls[i], lens) == LenValue(ls[i], ns)
    ensures LenValues(ls, lens) == LenValues(ls, ns)
  {
    if ls != [] {
      LensAgree(ls[1..], lens, ns);
    }
  }

  /** Every application head of the field is bound to a constructor. */
  predicate HeadsAreCtors(p: PolyType<Type>, args: seq<Type>)
    decreases p
  {
    match p
    case PCell(payload) => HeadsAreCtors(payload, args)
    case PGeneric(_, _, _, gargs, _) => forall i :: 0 <= i < |gargs| ==> HeadsAreCtors(gargs[i], args)
    case PApp(head, fargs) =>
      head < |args| && args[head].Ctor? && forall i :: 0 <= i < |fargs| ==> HeadsAreCtors(fargs[i], args)
    case _ => true
  }

  /** The guard is exact: whenever both routes succeed they agree if and only if the field is aligned. */
  lemma {:induction false} AgreementIsAlignment(w: World, open: set<App>, p: PolyType<Type>, args: seq<PolyType<Type>>,
        theta: seq<Type>, lens: seq<nat>, ts: seq<Type>, ns: seq<nat>)
    requires Inv(w, open) && VariantField(p, |args|) && GroundsTo(w, args, theta, lens, ts)
    requires HeadsAreCtors(p, theta) && HeadsAreCtors(p, ts)
    requires Denote(w, SubstVariant(p, args), theta, lens).Some? && Denote(w, p, ts, ns).Some?
    ensures Denote(w, SubstVariant(p, args), theta, lens) == Denote(w, p, ts, ns) <==> Aligned(p, theta, lens, ts, ns)
  {
    if Aligned(p, theta, lens, ts, ns) {
      SubstCommutes(w, p, args, theta, lens, ts, ns);
    }
    if Denote(w, SubstVariant(p, args), theta, lens) == Denote(w, p, ts, ns) {
      AgreedIsAligned(w, open, p, args, theta, lens, ts, ns);
    }
  }

  lemma {:induction false} AgreedIsAligned(w: World, open: set<App>, p: PolyType<Type>, args: seq<PolyType<Type>>,
        theta: seq<Type>, lens: seq<nat>, ts: seq<Type>, ns: seq<nat>)
    requires Inv(w, open) && VariantField(p, |args|) && GroundsTo(w, args, theta, lens, ts)
    requires HeadsAreCtors(p, theta) && HeadsAreCtors(p, ts)
    requires Denote(w, SubstVariant(p, args), theta, lens).Some?
    requires Denote(w, SubstVariant(p, args), theta, lens) == Denote(w, p, ts, ns)
    ensures Aligned(p, theta, lens, ts, ns)
    decreases p, 1
  {
    match p
    case Concrete(_) =>
    case Var(_) =>
    case PCell(payload) =>
      SameCell(w, payload, args, theta, lens, ts, ns);
      AgreedIsAligned(w, open, payload, args, theta, lens, ts, ns);
    case PGeneric(_, _, _, _, _) =>
      hide *;
      AgreedGeneric(w, open, p, args, theta, lens, ts, ns);
    case PApp(_, _) =>
      hide *;
      AgreedApp(w, open, p, args, theta, lens, ts, ns);
  }

  /** Two cells of one handle hold one payload. */
  lemma SameCell(w: World, payload: PolyType<Type>, args: seq<PolyType<Type>>, theta: seq<Type>, lens: seq<nat>,
        ts: seq<Type>, ns: seq<nat>)
    requires VariantField(payload, |args|)
    requires Denote(w, PCell(SubstVariant(payload, args)), theta, lens).Some?
    requires Denote(w, PCell(SubstVariant(payload, args)), theta, lens) == Denote(w, PCell(payload), ts, ns)
    ensures Denote(w, SubstVariant(payload, args), theta, lens).Some?
    ensures Denote(w, SubstVariant(payload, args), theta, lens) == Denote(w, payload, ts, ns)
  {
    hide VariantField, SubstVariant;
  }

  lemma {:induction false} AgreedGeneric(w: World, open: set<App>, p: PolyType<Type>, args: seq<PolyType<Type>>,
        theta: seq<Type>, lens: seq<nat>, ts: seq<Type>, ns: seq<nat>)
    requires Inv(w, open) && VariantField(p, |args|) && GroundsTo(w, args, theta, lens, ts)
    requires HeadsAreCtors(p, theta) && HeadsAreCtors(p, ts)
    requires Denote(w, SubstVariant(p, args), theta, lens).Some?
    requires Denote(w, SubstVariant(p, args), theta, lens) == Denote(w, p, ts, ns)
    requires p.PGeneric?
    ensures Aligned(p, theta, lens, ts, ns)
    decreases p, 0
  {
    hide Inv;
    var k1 := Key(p.idx, p.modId, DenoteAll(w, SubstVariants(p.args, args), theta, lens).value,
                  LenValues(p.lens, lens).value);
    var k2 := Key(p.idx, p.modId, DenoteAll(w, p.args, ts, ns).value, LenValues(p.lens, ns).value);
    IdsAreInjective(w, open, App(p.isEnum, k1), App(p.isEnum, k2));
    hide Lookup;
    AgreementAll(w, open, p.args, args, theta, lens, ts, ns);
    forall i | 0 <= i < |p.lens| ensures LenValue(p.lens[i], lens) == LenValue(p.lens[i], ns) {
      assert k1.lens[i] == k2.lens[i];
    }
  }

  lemma {:induction false} AgreedApp(w: World, open: set<App>, p: PolyType<Type>, args: seq<PolyType<Type>>,
        theta: seq<Type>, lens: seq<nat>, ts: seq<Type>, ns: seq<nat>)
    requires Inv(w, open) && VariantField(p, |args|) && GroundsTo(w, args, theta, lens, ts)
    requires HeadsAreCtors(p, theta) && HeadsAreCtors(p, ts)
    requires Denote(w, SubstVariant(p, args), theta, lens).Some?
    requires Denote(w, SubstVariant(p, args), theta, lens) == Denote(w, p, ts, ns)
    requires p.PApp?
    ensures Aligned(p, theta, lens, ts, ns)
    decreases p, 0
  {
    hide Inv;
    var c1, c2 := theta[p.head], ts[p.head];
    var k1 := Key(c1.idx, c1.modId, DenoteAll(w, SubstVariants(p.args, args), theta, lens).value, []);
    var k2 := Key(c2.idx, c2.modId, DenoteAll(w, p.args, ts, ns).value, []);
    NominalLookup(w, open, App(c1.isEnum, k1));
    NominalLookup(w, open, App(c2.isEnum, k2));
    IdsAreInjective(w, open, App(c1.isEnum, k1), App(c2.isEnum, k2));
    hide Lookup;
    AgreementAll(w, open, p.args, args, theta, lens, ts, ns);
  }

  lemma NominalLookup(w: World, open: set<App>, a: App)
    requires Inv(w, open) && Lookup(w, a).Some?
    ensures Lookup(w, a).value.Nominal? && Lookup(w, a).value.isEnum == a.isEnum
  {
    LookupsInverse(w, open, a, 0);
  }

  lemma {:induction false} AgreementAll(w: World, open: set<App>, ps: seq<PolyType<Type>>, args: seq<PolyType<Type>>,
        theta: seq<Type>, lens: seq<nat>, ts: seq<Type>, ns: seq<nat>)
    requires Inv(w, open) && GroundsTo(w, args, theta, lens, ts)
    requires forall i :: 0 <= i < |ps| ==>
               VariantField(ps[i], |args|) && HeadsAreCtors(ps[i], theta) && HeadsAreCtors(ps[i], ts)
    requires DenoteAll(w, SubstVariants(ps, args), theta, lens).Some?
    requires DenoteAll(w, SubstVariants(ps, args), theta, lens) == DenoteAll(w, ps, ts, ns)
    ensures forall i :: 0 <= i < |ps| ==> Aligned(ps[i], theta, lens, ts, ns)
    decreases ps
  {
    var q := SubstVariants(ps, args);
    forall i | 0 <= i < |ps| ensures Aligned(ps[i], theta, lens, ts, ns) {
      assert Denote(w, q[i], theta, lens) == Some(DenoteAll(w, q, theta, lens).value[i]);
      assert Denote(w, ps[i], ts, ns) == Some(DenoteAll(w, ps, ts, ns).value[i]);
      AgreedIsAligned(w, open, ps[i], args, theta, lens, ts, ns);
    }
  }

  /** An eliminator arm's symbolic field grounds to the very field the minted enum declares. */
  lemma ArmFieldIsDeclField(w: World, i: nat, v: nat, f: nat, args: seq<PolyType<Type>>, theta: seq<Type>,
        lens: seq<nat>)
    requires Inv(w, {}) && i < |w.enums.keys| && w.enums.keys[i].idx !in w.enums.pending
    requires w.enums.keys[i].idx < |w.enums.headers|
    requires v < |w.enums.headers[w.enums.keys[i].idx].body| && f < |w.enums.headers[w.enums.keys[i].idx].body[v]|
    requires GroundsTo(w, args, theta, lens, w.enums.keys[i].args)
    requires var p := w.enums.headers[w.enums.keys[i].idx].body[v][f];
             VariantField(p, |args|) && Aligned(p, theta, lens, w.enums.keys[i].args, w.enums.keys[i].lens)
    ensures var p, d := w.enums.headers[w.enums.keys[i].idx].body[v][f], DeclAt(w.enums, i, true).body;
            v < |d| && f < |d[v]| && Denote(w, SubstVariant(p, args), theta, lens) == Some(d[v][f])
  {
    assert KeySettled(w, true, i, {});
    var k := w.enums.keys[i];
    SubstCommutes(w, w.enums.headers[k.idx].body[v][f], args, theta, lens, k.args, k.lens);
  }

  // ---------------------------------------------------------------- where it does not commute

  predicate UsesVar(p: PolyType<Type>, v: nat)
    decreases p
  {
    match p
    case Var(x) => x == v
    case PArray(elem, _) => UsesVar(elem, v)
    case PRef(referent, _) => UsesVar(referent, v)
    case PCell(payload) => UsesVar(payload, v)
    case PGeneric(_, _, _, args, _) => exists i :: 0 <= i < |args| && UsesVar(args[i], v)
    case PApp(head, args) => head == v || exists i :: 0 <= i < |args| && UsesVar(args[i], v)
    case _ => false
  }

  predicate UsesLen(p: PolyType<Type>, v: nat)
    decreases p
  {
    match p
    case PArray(elem, len) => len == LenVar(v) || UsesLen(elem, v)
    case PRef(referent, _) => UsesLen(referent, v)
    case PCell(payload) => UsesLen(payload, v)
    case PGeneric(_, _, _, args, lens) => LenVar(v) in lens || exists i :: 0 <= i < |args| && UsesLen(args[i], v)
    case _ => false
  }

  /** Every variable of a header is used by one of its fields: the others are rejected when it is parsed. */
  predicate NoPhantom(h: Header) {
    (forall v :: 0 <= v < |h.kinds| ==> VarUsed(h, v)) && (forall v :: 0 <= v < h.lenVars ==> LenUsed(h, v))
  }

  predicate VarUsed(h: Header, v: nat) {
    exists i, f :: 0 <= i < |h.body| && 0 <= f < |h.body[i]| && UsesVar(h.body[i][f], v)
  }

  predicate LenUsed(h: Header, v: nat) {
    exists i, f :: 0 <= i < |h.body| && 0 <= f < |h.body[i]| && UsesLen(h.body[i][f], v)
  }

  predicate NoPhantoms(w: World) {
    (forall h :: 0 <= h < |w.structs.headers| ==> NoPhantom(w.structs.headers[h])) &&
    (forall h :: 0 <= h < |w.enums.headers| ==> NoPhantom(w.enums.headers[h]))
  }

  /** A table of declarations that have all been flushed. */
  function Flushed(e: bool, headers: seq<Header>, keys: seq<Key>, live: seq<Decl>): Side {
    Side(headers, keys, seq(|keys|, i requires 0 <= i < |keys| => Nominal(e, i)), [], [], [], |live|, live)
  }

  /** Such a world is legal when its headers are, its keys fit them and its declarations denote them. */
  lemma FlushedLegal(w: World, e: bool)
    requires w.Of(e) == Flushed(e, w.Of(e).headers, w.Of(e).keys, w.Of(e).live) && |w.Of(e).keys| == |w.Of(e).live|
    requires Distinct(w.Of(e).keys)
    requires forall h :: 0 <= h < |w.Of(e).headers| ==>
               BodyOk(w, w.Of(e).headers[h].body, w.Of(e).headers[h].kinds, w.Of(e).headers[h].lenVars)
    requires forall i :: 0 <= i < |w.Of(e).keys| ==> FlushedDecl(w, e, i)
    ensures SideOk(w, e, {})
  {
    hide BodyOk, KeyFits, DenotesBody;
    var s := w.Of(e);
    forall i | 0 <= i < |s.keys| ensures KeySettled(w, e, i, {}) {
      assert FlushedDecl(w, e, i);
      assert DeclAt(s, i, e) == s.live[i];
    }
  }

  predicate FlushedDecl(w: World, e: bool, i: nat)
    requires i < |w.Of(e).keys| == |w.Of(e).live|
  {
    var k, d := w.Of(e).keys[i], w.Of(e).live[i];
    KeyFits(w, App(e, k)) && d.modId == k.modId && DenotesBody(w, w.Of(e).headers[k.idx].body, k.args, k.lens, d.body)
  }

  /** In a flushed table the key at `i` resolves to the id `i`. */
  lemma FlushedLookup(w: World, e: bool, i: nat)
    requires w.Of(e) == Flushed(e, w.Of(e).headers, w.Of(e).keys, w.Of(e).live) && Distinct(w.Of(e).keys)
    requires i < |w.Of(e).keys|
    ensures Lookup(w, App(e, w.Of(e).keys[i])) == Some(Nominal(e, i))
  {
    IndexOfUnique(w.Of(e).keys, w.Of(e).keys[i], i);
  }

  /** Two structs with one field `'T`, both minted at one type, and an enum over a constructor `'F` whose
      variant has a field applying `'F` to that type, minted at the second struct. */
  function HeadWorld(): World {
    var h := Header([0], 0, [[Var(0)]]);
    World(Flushed(false, [h, h], [Key(0, 0, [Prim(0)], []), Key(1, 0, [Prim(0)], [])],
                  [Decl([[Prim(0)]], 0), Decl([[Prim(0)]], 0)]),
          Flushed(true, [Header([1], 0, [[PApp(0, [Concrete(Prim(0))])]])], [Key(0, 0, [Ctor(false, 1, 0)], [])],
                  [Decl([[Nominal(false, 1)]], 0)]),
          Shapes([], [], [], []))
  }

  lemma AppOfPrim(w: World, head: nat, args: seq<Type>)
    requires head < |args| && args[head].Ctor?
    ensures Denote(w, PApp(head, [Concrete(Prim(0))]), args, []) ==
            Lookup(w, App(args[head].isEnum, Key(args[head].idx, args[head].modId, [Prim(0)], [])))
  {
    DenoteAllIs(w, [Concrete(Prim(0))], args, [], [Prim(0)]);
  }

  lemma HeadWorldLegal()
    ensures Inv(HeadWorld(), {}) && NoPhantoms(HeadWorld())
  {
    var w := HeadWorld();
    assert w.Of(false) == w.structs && w.Of(true) == w.enums;
    HeadStructs();
    HeadEnum();
    NoPhantomHead();
    hide SideOk, NoPhantoms, Flushed;
    assert ShapesOk(w.shapes);
  }

  lemma NoPhantomHead()
    ensures NoPhantoms(HeadWorld())
  {
    var h, e := Header([0], 0, [[Var(0)]]), Header([1], 0, [[PApp(0, [Concrete(Prim(0))])]]);
    assert UsesVar(h.body[0][0], 0) && UsesVar(e.body[0][0], 0);
    hide UsesVar;
    assert VarUsed(h, 0) && VarUsed(e, 0);
    hide VarUsed;
    assert NoPhantom(h) && NoPhantom(e);
  }

  lemma HeadStructs()
    ensures SideOk(HeadWorld(), false, {})
  {
    var w := HeadWorld();
    assert w.Of(false) == w.structs;
    assert w.structs.keys[0].idx != w.structs.keys[1].idx;
    forall i | 0 <= i < 2 ensures FlushedDecl(w, false, i) {}
    FlushedLegal(w, false);
  }

  lemma HeadEnum()
    ensures SideOk(HeadWorld(), true, {})
  {
    var w := HeadWorld();
    assert w.Of(false) == w.structs && w.Of(true) == w.enums;
    HeadDecl();
    HeadEnumBody();
    hide FlushedDecl, BodyOk, SideOk;
    FlushedLegal(w, true);
  }

  lemma HeadEnumBody()
    ensures BodyOk(HeadWorld(), [[PApp(0, [Concrete(Prim(0))])]], [1], 0)
  {
  }

  lemma HeadDecl()
    ensures FlushedDecl(HeadWorld(), true, 0)
  {
    var w := HeadWorld();
    assert w.Of(false) == w.structs && w.Of(true) == w.enums;
    HeadOfSecond(w);
    hide Denote, DenoteAll;
  }

  /** At the second struct's constructor the applied variable makes the second struct. */
  lemma HeadOfSecond(w: World)
    requires w == HeadWorld()
    ensures Denote(w, PApp(0, [Concrete(Prim(0))]), [Ctor(false, 1, 0)], []) == Some(Nominal(false, 1))
  {
    hide Denote, Lookup;
    assert w.Of(false) == w.structs && w.structs.keys[0].idx != w.structs.keys[1].idx;
    AppOfPrim(w, 0, [Ctor(false, 1, 0)]);
    FlushedLookup(w, false, 1);
  }

  /** The symbolic walk keeps the enum's own head variable. In a signature over `'G 'F` a scrutinee `E['F]` has
      its variable 0 bound to the signature's variable 1, and the arm's field `'F[i64]` grounds to the struct
      the signature's variable 0 makes, not to the field the minted enum declares. */
  lemma HeadIsNotSubstituted() returns (w: World, p: PolyType<Type>, args: seq<PolyType<Type>>, theta: seq<Type>)
    ensures Inv(w, {}) && NoPhantoms(w) && |w.enums.keys| == 1 && w.enums.keys[0].idx == 0 && |w.enums.headers| == 1
    ensures w.enums.headers[0].body == [[p]]
    ensures p.PApp? && VariantField(p, |args|) && args == [Var(1)]
    ensures GroundsTo(w, args, theta, [], w.enums.keys[0].args)
            && HeadsAreCtors(p, theta) && HeadsAreCtors(p, w.enums.keys[0].args)
            && Denote(w, SubstVariant(p, args), theta, []) == Some(Nominal(false, 0))
            && DeclAt(w.enums, 0, true).body == [[Nominal(false, 1)]]
  {
    hide *;
    w, args, theta := HeadWorld(), [Var(1)], [Ctor(false, 0, 0), Ctor(false, 1, 0)];
    p := PApp(0, [Concrete(Prim(0))]);
    HeadWorldLegal();
    HeadParts(w, p, args, theta);
    HeadGrounds(w, theta);
  }

  lemma HeadParts(w: World, p: PolyType<Type>, args: seq<PolyType<Type>>, theta: seq<Type>)
    requires w == HeadWorld() && p == PApp(0, [Concrete(Prim(0))]) && args == [Var(1)]
    requires theta == [Ctor(false, 0, 0), Ctor(false, 1, 0)]
    ensures |w.enums.keys| == 1 && w.enums.keys[0].idx == 0 && |w.enums.headers| == 1
    ensures w.enums.headers[0].body == [[p]]
    ensures VariantField(p, |args|) && SubstVariant(p, args) == p && GroundsTo(w, args, theta, [], w.enums.keys[0].args)
    ensures HeadsAreCtors(p, theta) && HeadsAreCtors(p, w.enums.keys[0].args)
    ensures Lockstep(w.enums, true) && DeclAt(w.enums, 0, true).body == [[Nominal(false, 1)]]
  {
    HeadTable(w);
    VarDenotes(w, theta, [], 1);
    hide Denote, HeadWorld, Lockstep;
    assert SubstVariants(p.args, args) == p.args;
  }

  lemma HeadTable(w: World)
    requires w == HeadWorld()
    ensures |w.enums.keys| == 1 && w.enums.keys[0].idx == 0 && |w.enums.headers| == 1
    ensures w.enums.headers[0].body == [[PApp(0, [Concrete(Prim(0))])]]
    ensures w.enums.keys[0].args == [Ctor(false, 1, 0)]
    ensures Lockstep(w.enums, true) && DeclAt(w.enums, 0, true).body == [[Nominal(false, 1)]]
  {
  }

  lemma VarDenotes(w: World, theta: seq<Type>, lens: seq<nat>, v: nat)
    requires v < |theta|
    ensures Denote(w, Var(v), theta, lens) == Some(theta[v])
  {
  }

  lemma HeadGrounds(w: World, theta: seq<Type>)
    requires w == HeadWorld() && theta == [Ctor(false, 0, 0), Ctor(false, 1, 0)]
    ensures Denote(w, PApp(0, [Concrete(Prim(0))]), theta, []) == Some(Nominal(false, 0))
  {
    hide Denote, Lookup;
    assert w.Of(false) == w.structs && w.structs.keys[0].idx != w.structs.keys[1].idx;
    AppOfPrim(w, 0, theta);
    FlushedLookup(w, false, 0);
  }

  /** A struct with one field `array['T 'N]`, minted at lengths 3 and 7, and an enum whose variant has that
      struct as its field, minted at length 3. */
  function LengthWorld(): World {
    World(Flushed(false, [Header([0], 1, [[PArray(Var(0), LenVar(0))]])],
                  [Key(0, 0, [Prim(0)], [3]), Key(0, 0, [Prim(0)], [7])],
                  [Decl([[Array(0)]], 0), Decl([[Array(1)]], 0)]),
          Flushed(true, [Header([0], 1, [[PGeneric(false, 0, 0, [Var(0)], [LenVar(0)])]])], [Key(0, 0, [Prim(0)], [3])],
                  [Decl([[Nominal(false, 0)]], 0)]),
          Shapes([ArrayDecl(Prim(0), 3), ArrayDecl(Prim(0), 7)], [], [], []))
  }

  lemma BufferOf(w: World, theta: seq<Type>, lens: seq<nat>)
    requires |theta| == 1 && |lens| == 1
    ensures Denote(w, PGeneric(false, 0, 0, [Var(0)], [LenVar(0)]), theta, lens) ==
              Lookup(w, App(false, Key(0, 0, theta, lens)))
  {
    DenoteAllIs(w, [Var(0)], theta, lens, theta);
    LenValuesIs([LenVar(0)], lens, lens);
  }

  lemma LengthStructs()
    ensures SideOk(LengthWorld(), false, {})
  {
    var w := LengthWorld();
    assert w.Of(false) == w.structs;
    assert w.structs.keys[0].lens[0] != w.structs.keys[1].lens[0];
    BufferDecl(0);
    BufferDecl(1);
    hide FlushedDecl;
    FlushedLegal(w, false);
  }

  lemma BufferDecl(i: nat)
    requires i < 2
    ensures FlushedDecl(LengthWorld(), false, i)
  {
    var w, n := LengthWorld(), if i == 0 then 3 else 7;
    assert w.Of(false) == w.structs;
    assert w.structs.live[i].body == [[Array(i)]] && w.structs.keys[i] == Key(0, 0, [Prim(0)], [n]);
    ArrayOf(w, i, n);
    hide Denote, Flushed;
  }

  lemma ArrayOf(w: World, i: nat, n: nat)
    requires w.shapes.arrays == [ArrayDecl(Prim(0), 3), ArrayDecl(Prim(0), 7)]
    requires ((i == 0 && n == 3) || (i == 1 && n == 7))
    ensures Denote(w, PArray(Var(0), LenVar(0)), [Prim(0)], [n]) == Some(Array(i))
  {
    assert w.shapes.arrays[0].count != w.shapes.arrays[1].count && w.shapes.arrays[i] == ArrayDecl(Prim(0), n);
    IndexOfUnique(w.shapes.arrays, ArrayDecl(Prim(0), n), i);
  }

  lemma LengthEnum()
    ensures SideOk(LengthWorld(), true, {})
  {
    var w := LengthWorld();
    assert w.Of(false) == w.structs && w.Of(true) == w.enums;
    LengthDecl();
    LengthBody();
    hide FlushedDecl, BodyOk;
    FlushedLegal(w, true);
  }

  lemma LengthBody()
    ensures var h := LengthWorld().enums.headers[0]; BodyOk(LengthWorld(), h.body, h.kinds, h.lenVars)
  {
    var w := LengthWorld();
    assert w.Of(false) == w.structs;
  }

  lemma LengthDecl()
    ensures FlushedDecl(LengthWorld(), true, 0)
  {
    var w := LengthWorld();
    assert w.Of(false) == w.structs && w.Of(true) == w.enums;
    BufferAt(w, 0);
    hide Denote, DenoteAll;
  }

  /** At the `i`-th length the buffer is the `i`-th one minted. */
  lemma BufferAt(w: World, i: nat)
    requires w == LengthWorld() && i < 2
    ensures Denote(w, PGeneric(false, 0, 0, [Var(0)], [LenVar(0)]), [Prim(0)], [if i == 0 then 3 else 7]) ==
              Some(Nominal(false, i))
  {
    hide Denote, Lookup;
    assert w.Of(false) == w.structs && w.structs.keys[0].lens[0] != w.structs.keys[1].lens[0];
    BufferOf(w, [Prim(0)], [if i == 0 then 3 else 7]);
    FlushedLookup(w, false, i);
  }

  lemma LengthWorldLegal()
    ensures Inv(LengthWorld(), {}) && NoPhantoms(LengthWorld())
  {
    var w := LengthWorld();
    assert w.Of(false) == w.structs && w.Of(true) == w.enums;
    LengthStructs();
    LengthEnum();
    NoPhantomLength();
    hide SideOk, NoPhantoms, Flushed;
    assert ShapesOk(w.shapes) by { assert w.shapes.arrays[0].count != w.shapes.arrays[1].count; }
  }

  lemma NoPhantomLength()
    ensures NoPhantoms(LengthWorld())
  {
    StructUses();
    EnumUses();
    hide UsesVar, UsesLen, NoPhantom;
  }

  lemma StructUses()
    ensures NoPhantom(Header([0], 1, [[PArray(Var(0), LenVar(0))]]))
  {
    var h := Header([0], 1, [[PArray(Var(0), LenVar(0))]]);
    assert UsesVar(h.body[0][0], 0) && UsesLen(h.body[0][0], 0);
    hide UsesVar, UsesLen;
    assert VarUsed(h, 0) && LenUsed(h, 0);
  }

  lemma EnumUses()
    ensures NoPhantom(Header([0], 1, [[PGeneric(false, 0, 0, [Var(0)], [LenVar(0)])]]))
  {
    var h := Header([0], 1, [[PGeneric(false, 0, 0, [Var(0)], [LenVar(0)])]]);
    var p := h.body[0][0];
    assert p.args[0] == Var(0) && UsesVar(p.args[0], 0) && p.lens[0] == LenVar(0);
    assert UsesVar(p, 0) && UsesLen(p, 0);
    hide UsesVar, UsesLen;
    assert VarUsed(h, 0) && LenUsed(h, 0);
  }

  /** Nested length arguments are carried through unchanged too. In a signature whose `'N` is 7 a scrutinee
      `E['A 3]` has an arm field that grounds to the buffer of 7, not to the declared one of 3. */
  lemma LengthIsNotSubstituted()
    returns (w: World, p: PolyType<Type>, args: seq<PolyType<Type>>, theta: seq<Type>, lens: seq<nat>)
    ensures Inv(w, {}) && NoPhantoms(w) && |w.enums.keys| == 1 && w.enums.keys[0].idx == 0 && |w.enums.headers| == 1
    ensures w.enums.headers[0].body == [[p]]
    ensures p.PGeneric? && VariantField(p, |args|) && args == [Var(0)]
    ensures GroundsTo(w, args, theta, lens, w.enums.keys[0].args)
            && Denote(w, SubstVariant(p, args), theta, lens) == Some(Nominal(false, 1))
            && DeclAt(w.enums, 0, true).body == [[Nominal(false, 0)]]
  {
    hide *;
    w, args, theta, lens := LengthWorld(), [Var(0)], [Prim(0)], [7];
    p := PGeneric(false, 0, 0, [Var(0)], [LenVar(0)]);
    LengthWorldLegal();
    LengthParts(w, p, args, theta, lens);
    BufferAt(w, 1);
  }

  lemma LengthParts(w: World, p: PolyType<Type>, args: seq<PolyType<Type>>, theta: seq<Type>, lens: seq<nat>)
    requires w == LengthWorld() && p == PGeneric(false, 0, 0, [Var(0)], [LenVar(0)]) && args == [Var(0)]
    requires theta == [Prim(0)] && lens == [7]
    ensures |w.enums.keys| == 1 && w.enums.keys[0].idx == 0 && |w.enums.headers| == 1
    ensures w.enums.headers[0].body == [[p]]
    ensures VariantField(p, |args|) && SubstVariant(p, args) == p
    ensures GroundsTo(w, args, theta, lens, w.enums.keys[0].args)
    ensures Lockstep(w.enums, true) && DeclAt(w.enums, 0, true).body == [[Nominal(false, 0)]]
  {
    LengthTable(w);
    VarDenotes(w, theta, lens, 0);
    hide Denote, LengthWorld, Lockstep;
    assert SubstVariants(p.args, args) == p.args;
  }

  lemma LengthTable(w: World)
    requires w == LengthWorld()
    ensures |w.enums.keys| == 1 && w.enums.keys[0].idx == 0 && |w.enums.headers| == 1
    ensures w.enums.headers[0].body == [[PGeneric(false, 0, 0, [Var(0)], [LenVar(0)])]]
    ensures w.enums.keys[0].args == [Prim(0)]
    ensures Lockstep(w.enums, true) && DeclAt(w.enums, 0, true).body == [[Nominal(false, 0)]]
  {
  }
}
