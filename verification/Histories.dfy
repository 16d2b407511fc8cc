/** Every legal run of the monomorphiser: any sequence of registering, reserving, instantiating, grounding,
    filling, flushing, rebasing, declaring by hand and interning. */
module Histories {
  import opened Types
  import opened Worlds
  import opened Invariant
  import opened Steps
  import opened Filling
  import opened History
  import opened Instantiator
  import opened Interning
  import opened Expansion
  import opened Readback

  datatype Op =
    | Register(isEnum: bool, h: Header)
    | Reserve(isEnum: bool, kinds: seq<nat>, lenVars: nat)
    | Instance(a: App)
    | Ground(p: PolyType<Type>)
    | FillIn(isEnum: bool, idx: nat, body: seq<seq<PolyType<Type>>>)
    | FlushBatch(isEnum: bool)
    | RebaseBoth
    | Declare(isEnum: bool, d: Decl)
    | InternShape(form: Form, t: Type)

  /** What an operation asks of the state it is called in: a mint needs bases at the live lengths, a fill a
      pending header, a flush none, a rebase or a hand-written declaration an empty batch. */
  predicate Legal(w: World, op: Op) {
    match op
    case Register(e, h) => BodyOk(w.With(e, PushSide(w.Of(e), h, false)), h.body, h.kinds, h.lenVars)
    case Reserve(_, _, _) => true
    case Instance(a) => Based(w) && KeyFits(w, a)
    case Ground(p) => Based(w) && VarFree(w, p)
    case FillIn(e, idx, body) =>
      Based(w) && idx in w.Of(e).pending && idx < |w.Of(e).headers| &&
        BodyOk(w, body, w.Of(e).headers[idx].kinds, w.Of(e).headers[idx].lenVars)
    case FlushBatch(e) => w.Of(e).pending == []
    case RebaseBoth => w.structs.insts == [] && w.enums.insts == []
    case Declare(e, _) => w.Of(e).insts == []
    case InternShape(_, _) => true
  }

  /** One state of a run and a later one: no id moved, no field list changed, and a complete header stays as it
      is. */
  ghost predicate Onward(a: World, b: World) {
    && Inv(a, {}) && Inv(b, {}) && Evolves(a, b) && TablesGrow(a, b)
    && HeadersStay(a.structs, b.structs) && HeadersStay(a.enums, b.enums)
  }

  predicate HeadersStay(s: Side, t: Side) {
    |s.headers| <= |t.headers| &&
    forall h :: 0 <= h < |s.headers| ==> HeaderStays(s.headers[h], t.headers[h], h in s.pending, h in t.pending)
  }

  predicate HeaderStays(h: Header, k: Header, wasPending: bool, isPending: bool) {
    k.kinds == h.kinds && k.lenVars == h.lenVars && (!wasPending ==> !isPending && k.body == h.body)
  }

  lemma OnwardTrans(a: World, b: World, c: World)
    requires Onward(a, b) && Onward(b, c)
    ensures Onward(a, c)
  {
    hide Inv, Evolves;
    EvolvesTrans(a, b, c);
  }

  lemma OnwardSelf(w: World)
    requires Inv(w, {})
    ensures Onward(w, w)
  {
    SettledEvolves(w, w);
  }

  /** What one operation answers: the type it was asked for, or the place it put a header or declaration in. */
  datatype Answer = Found(ty: Type) | Placed(at: nat) | Nothing

  /** What the answer to an operation says about a state: every application of a header the run registered or
      filled has the fields this very operation gave it. */
  ghost predicate Holds(w: World, op: Op, answer: Answer) {
    match op
    case Register(e, h) => answer.Placed? && GivenBody(w, e, answer.at, h.body) && w.Of(e).headers[answer.at] == h
    case Reserve(e, kinds, lenVars) =>
      answer.Placed? && answer.at < |w.Of(e).headers| && w.Of(e).headers[answer.at].kinds == kinds &&
        w.Of(e).headers[answer.at].lenVars == lenVars
    case Instance(a) =>
      answer.Found? && Lookup(w, a) == Some(answer.ty) && answer.ty.Nominal? &&
        InstantiationOf(w, a.isEnum, answer.ty.id) == Some(a.key)
    case Ground(p) =>
      answer.Found? && Denote(w, p, [], []) == Some(answer.ty) && ReadsAs(w, answer.ty, p, [], [])
    case FillIn(e, idx, body) => GivenBody(w, e, idx, body)
    case Declare(e, d) =>
      answer.Placed? && answer.at < |w.Of(e).live| && w.Of(e).live[answer.at] == d &&
        InstantiationOf(w, e, answer.at).None?
    case InternShape(form, t) => answer.Found? && IsEntry(w.shapes, form, t, answer.ty)
    case FlushBatch(_) => true
    case RebaseBoth => true
  }

  /** Header `idx` is complete with these fields, and so is every application of it. */
  ghost predicate GivenBody(w: World, e: bool, idx: nat, body: seq<seq<PolyType<Type>>>) {
    && idx < |w.Of(e).headers| && idx !in w.Of(e).pending && w.Of(e).headers[idx].body == body
    && FieldsOf(w, e, idx, body)
  }

  lemma GivenOn(a: World, b: World, e: bool, idx: nat, body: seq<seq<PolyType<Type>>>)
    requires Onward(a, b) && GivenBody(a, e, idx, body)
    ensures GivenBody(b, e, idx, body) && idx < |a.Of(e).headers|
    ensures b.Of(e).headers[idx] == a.Of(e).headers[idx]
  {
    hide Inv, Evolves, FieldsOf, TablesGrow;
    assert HeadersStay(a.Of(e), b.Of(e));
    CompleteFields(b, e, idx);
  }

  lemma EntryOn(a: Shapes, b: Shapes, form: Form, t: Type, r: Type)
    requires ShapesGrow(a, b) && IsEntry(a, form, t, r)
    ensures IsEntry(b, form, t, r)
  {
    match form
    case FArray(count) => IndexOfGrows(a.arrays, b.arrays, ArrayDecl(t, count));
    case FCell => IndexOfGrows(a.cells, b.cells, t);
    case FRef(mutable) => IndexOfGrows(a.refs, b.refs, BorrowDecl(t, mutable));
    case FSlice(mutable) => IndexOfGrows(a.slices, b.slices, BorrowDecl(t, mutable));
  }

  lemma DeclaredOn(a: World, b: World, e: bool, at: nat)
    requires Inv(a, {}) && Inv(b, {}) && Evolves(a, b)
    requires at < |a.Of(e).live| && InstantiationOf(a, e, at).None?
    ensures at < |b.Of(e).live| && b.Of(e).live[at] == a.Of(e).live[at] && InstantiationOf(b, e, at).None?
  {
    hide KeySettled, DeferredOk, HeadersOk, ShapesOk, InstantiationOf;
    InstantiationStays(a, b, e, at);
    SideLockstep(a, e);
    SideLockstep(b, e);
    assert SideEvolves(a.Of(e), b.Of(e), e);
  }

  lemma HoldsOn(a: World, b: World, op: Op, answer: Answer)
    requires Onward(a, b) && Holds(a, op, answer)
    ensures Holds(b, op, answer)
  {
    hide Inv, Evolves, ReadsAs, Denote, Lookup, InstantiationOf, IsEntry, GivenBody;
    match op
    case Register(e, h) => GivenOn(a, b, e, answer.at, h.body);
    case Reserve(e, _, _) => assert HeadersStay(a.Of(e), b.Of(e));
    case Instance(app) =>
      LookupGrows(a, b, app);
      LookupsInverse(b, {}, app, answer.ty.id);
    case Ground(p) =>
      DenoteGrows(a, b, p, [], []);
      DenotesWhatReads(b, {}, answer.ty, p, [], []);
    case FillIn(e, idx, body) => GivenOn(a, b, e, idx, body);
    case Declare(e, _) => DeclaredOn(a, b, e, answer.at);
    case InternShape(form, t) => EntryOn(a.shapes, b.shapes, form, t, answer.ty);
    case FlushBatch(_) =>
    case RebaseBoth =>
  }

  lemma GrowIsOnward(a: World, b: World)
    requires Inv(a, {}) && Inv(b, {}) && Grow(a, b)
    ensures Onward(a, b)
    ensures forall e: bool :: b.Of(e).headers == a.Of(e).headers && b.Of(e).pending == a.Of(e).pending
  {
    hide Inv;
    GrowEvolves(a, b);
  }

  lemma FillIsOnward(w: World, e: bool, idx: nat, body: seq<seq<PolyType<Type>>>, w2: World)
    requires Inv(w, {}) && Inv(w2, {}) && Evolves(w, w2) && idx < |w.Of(e).headers| && idx in w.Of(e).pending
    requires Grow(w.With(e, FillSide(w.Of(e), idx, body)), w2)
    ensures Onward(w, w2)
  {
    hide Inv, Evolves, Without, Owing;
    FilledHeader(w, e, idx, body, w2);
    FillGrows(w, e, idx, body);
  }

  lemma PushIsOnward(w: World, e: bool, h: Header, placeholder: bool)
    requires var w2 := w.With(e, PushSide(w.Of(e), h, placeholder)); Inv(w, {}) && Inv(w2, {}) && Evolves(w, w2)
    ensures Onward(w, w.With(e, PushSide(w.Of(e), h, placeholder)))
  {
    hide Inv, Evolves;
  }

  lemma FlushIsOnward(w: World, e: bool)
    requires var w2 := w.With(e, FlushSide(w.Of(e))); Inv(w, {}) && Inv(w2, {}) && Evolves(w, w2)
    ensures Onward(w, w.With(e, FlushSide(w.Of(e))))
  {
    hide Inv, Evolves;
  }

  /** Neither rebasing nor a declaration by hand touches a table. */
  lemma SameTablesOnward(w: World, w2: World)
    requires Inv(w, {}) && Inv(w2, {}) && Evolves(w, w2) && w2.shapes == w.shapes
    requires forall e: bool :: w2.Of(e) == w.Of(e).(live := w2.Of(e).live, base := w2.Of(e).base)
    ensures Onward(w, w2)
  {
    hide Inv, Evolves;
    assert w2.Of(true) == w2.enums && w2.Of(false) == w2.structs;
  }

  /** A hand-written declaration joins the live registry between batches. */
  method DeclareByHand(g: GenericTypes, regs: Registries, isEnum: bool, d: Decl)
    requires Inv(g.Snap(regs), {}) && g.Snap(regs).Of(isEnum).insts == []
    modifies regs
    ensures Onward(old(g.Snap(regs)), g.Snap(regs))
    ensures g.Snap(regs) ==
              old(g.Snap(regs)).With(isEnum,
                                     old(g.Snap(regs)).Of(isEnum).(live := old(g.Snap(regs)).Of(isEnum).live + [d]))
  {
    hide Inv, Evolves, Onward;
    ghost var w := g.Snap(regs);
    LiveBounded(w, isEnum);
    LiveKeeps(w, isEnum, w.Of(isEnum).live + [d], w.Of(isEnum).base);
    if isEnum { regs.enums := regs.enums + [d]; } else { regs.structs := regs.structs + [d]; }
    SameTablesOnward(w, g.Snap(regs));
  }

  lemma LiveBounded(w: World, e: bool)
    requires Inv(w, {})
    ensures w.Of(e).base <= |w.Of(e).live|
  {
    hide KeySettled, HeadersOk, DeferredOk;
    assert SideOk(w, e, {});
  }

  lemma ShapesOnward(w: World, sh: Shapes)
    requires Inv(w, {}) && ShapesGrow(w.shapes, sh) && ShapesOk(sh)
    ensures Onward(w, w.(shapes := sh))
  {
    ShapesKeep(w, sh, {});
    GrowIsOnward(w, w.(shapes := sh));
  }

  method Perform(g: GenericTypes, regs: Registries, op: Op) returns (answer: Answer)
    requires Inv(g.Snap(regs), {}) && Legal(g.Snap(regs), op)
    modifies g, regs
    ensures Onward(old(g.Snap(regs)), g.Snap(regs)) && Holds(g.Snap(regs), op, answer)
    ensures MovesHeaders(old(g.Snap(regs)), op, answer, g.Snap(regs))
  {
    hide Inv, Evolves, Based, BodyOk, KeyFits, VarFree, Grow, TablesGrow, Onward, PushSide, FlushSide, FillSide,
      ShapesGrow, ShapesOk, FieldsOf, ReadsAs, Denote, IsEntry, Lookup, MovesHeaders, Holds;
    ghost var w := g.Snap(regs);
    answer := Nothing;
    match op {
      case Register(e, h) =>
        var at := g.PushHeader(e, h, regs);
        PushIsOnward(w, e, h, false);
        RegisteredHolds(w, op, g.Snap(regs));
        answer := Placed(at);
      case Reserve(e, kinds, lenVars) =>
        var at := g.PushPlaceholder(e, kinds, lenVars, regs);
        PushIsOnward(w, e, Header(kinds, lenVars, []), true);
        PushedHeaders(w, op, g.Snap(regs));
        ReservedHolds(w, op, g.Snap(regs));
        answer := Placed(at);
      case Instance(a) =>
        var ty := g.Instantiate(a.isEnum, a.key.idx, a.key.args, a.key.lens, a.key.modId, regs);
        GrowIsOnward(w, g.Snap(regs));
        answer := Found(ty);
        SameHeaders(w, op, answer, g.Snap(regs));
        FoundHolds(g.Snap(regs), a, ty);
      case Ground(p) =>
        var ty := g.GroundVarFree(p, regs);
        GrowIsOnward(w, g.Snap(regs));
        answer := Found(ty);
        SameHeaders(w, op, answer, g.Snap(regs));
        GroundedHolds(g.Snap(regs), p, ty);
      case FillIn(e, idx, body) =>
        g.Fill(e, idx, body, regs);
        FillIsOnward(w, e, idx, body, g.Snap(regs));
        FilledHeaders(w, op, answer, g.Snap(regs));
        FilledHolds(g.Snap(regs), op, answer);
      case FlushBatch(e) =>
        g.Flush(e, regs);
        FlushIsOnward(w, e);
        SameHeaders(w, op, answer, g.Snap(regs));
        QuietHolds(g.Snap(regs), op, answer);
      case RebaseBoth =>
        g.Rebase(|regs.structs|, |regs.enums|, regs);
        SameTablesOnward(w, g.Snap(regs));
        SameHeaders(w, op, answer, g.Snap(regs));
        QuietHolds(g.Snap(regs), op, answer);
      case Declare(e, d) =>
        answer := Placed(if e then |regs.enums| else |regs.structs|);
        DeclareByHand(g, regs, e, d);
        DeclaredHolds(w, g.Snap(regs), e, d);
        SameHeaders(w, op, answer, g.Snap(regs));
      case InternShape(form, t) =>
        ShapesOfInv(w, {});
        var ty := InternForm(form, t, regs);
        assert g.Snap(regs) == w.(shapes := regs.AllShapes());
        ShapesOnward(w, regs.AllShapes());
        answer := Found(ty);
        SameHeaders(w, op, answer, g.Snap(regs));
        ShapeHolds(g.Snap(regs), form, t, ty);
    }
  }

  // ---------------------------------------------------------------- what an operation does to the headers

  /** Registering and reserving append one header, a fill completes one, and nothing else touches any. */
  ghost predicate MovesHeaders(a: World, op: Op, answer: Answer, b: World) {
    forall e: bool ::
      var hs, ps := a.Of(e).headers, a.Of(e).pending;
      if op.Register? && op.isEnum == e then
        answer == Placed(|hs|) && b.Of(e).headers == hs + [op.h] && b.Of(e).pending == ps
      else if op.Reserve? && op.isEnum == e then
        && answer == Placed(|hs|) && b.Of(e).headers == hs + [Header(op.kinds, op.lenVars, [])]
        && b.Of(e).pending == ps + [|hs|]
      else if op.FillIn? && op.isEnum == e then
        && op.idx < |hs| && b.Of(e).headers == hs[op.idx := Header(hs[op.idx].kinds, hs[op.idx].lenVars, op.body)]
        && (forall h :: h in b.Of(e).pending <==> h in ps && h != op.idx)
      else b.Of(e).headers == hs && b.Of(e).pending == ps
  }

  lemma PushedHeaders(w: World, op: Op, w2: World)
    requires op.Register? || op.Reserve?
    requires var h := if op.Register? then op.h else Header(op.kinds, op.lenVars, []);
             w2 == w.With(op.isEnum, PushSide(w.Of(op.isEnum), h, op.Reserve?))
    ensures MovesHeaders(w, op, Placed(|w.Of(op.isEnum).headers|), w2)
  {
  }

  lemma RegisteredHolds(w: World, op: Op, w2: World)
    requires op.Register? && Inv(w, {}) && Inv(w2, {})
    requires w2 == w.With(op.isEnum, PushSide(w.Of(op.isEnum), op.h, false))
    ensures MovesHeaders(w, op, Placed(|w.Of(op.isEnum).headers|), w2)
    ensures Holds(w2, op, Placed(|w.Of(op.isEnum).headers|))
  {
    PushedHeaders(w, op, w2);
    assert |w.Of(op.isEnum).headers| !in w2.Of(op.isEnum).pending by { PendingInRange(w, op.isEnum); }
    hide Inv, FieldsOf;
    CompleteFields(w2, op.isEnum, |w.Of(op.isEnum).headers|);
  }

  lemma PendingInRange(w: World, e: bool)
    requires Inv(w, {})
    ensures forall h :: h in w.Of(e).pending ==> h < |w.Of(e).headers|
  {
    hide Lockstep, DeferredOk, KeySettled, ShapesOk, BodyOk;
    assert SideOk(w, e, {});
  }

  lemma FilledHeaders(w: World, op: Op, answer: Answer, w2: World)
    requires op.FillIn? && op.idx < |w.Of(op.isEnum).headers|
    requires var hs := w.Of(op.isEnum).headers;
             w2.Of(op.isEnum).headers == hs[op.idx := Header(hs[op.idx].kinds, hs[op.idx].lenVars, op.body)]
    requires w2.Of(!op.isEnum).headers == w.Of(!op.isEnum).headers
    requires forall h :: h in w2.Of(op.isEnum).pending <==> h in w.Of(op.isEnum).pending && h != op.idx
    requires w2.Of(!op.isEnum).pending == w.Of(!op.isEnum).pending
    ensures MovesHeaders(w, op, answer, w2)
  {
  }

  lemma SameHeaders(w: World, op: Op, answer: Answer, w2: World)
    requires !op.Register? && !op.Reserve? && !op.FillIn?
    requires forall e: bool :: w2.Of(e).headers == w.Of(e).headers && w2.Of(e).pending == w.Of(e).pending
    ensures MovesHeaders(w, op, answer, w2)
  {
  }

  lemma DeclaredHolds(w: World, w2: World, e: bool, d: Decl)
    requires Inv(w, {}) && w.Of(e).insts == [] && w2 == w.With(e, w.Of(e).(live := w.Of(e).live + [d]))
    ensures Holds(w2, Declare(e, d), Placed(|w.Of(e).live|))
  {
    hide KeySettled, HeadersOk, DeferredOk, ShapesOk;
    assert SideOk(w, e, {});
    assert forall i :: 0 <= i < |w.Of(e).resolved| ==> w.Of(e).resolved[i].id < |w.Of(e).live|;
  }

  lemma ReservedHolds(w: World, op: Op, w2: World)
    requires op.Reserve? && w2 == w.With(op.isEnum, PushSide(w.Of(op.isEnum), Header(op.kinds, op.lenVars, []), true))
    ensures Holds(w2, op, Placed(|w.Of(op.isEnum).headers|))
  {
  }

  lemma GroundedHolds(w: World, p: PolyType<Type>, ty: Type)
    requires Denote(w, p, [], []) == Some(ty) && ReadsAs(w, ty, p, [], [])
    ensures Holds(w, Ground(p), Found(ty))
  {
  }

  lemma FilledHolds(w: World, op: Op, answer: Answer)
    requires op.FillIn? && op.idx < |w.Of(op.isEnum).headers| && op.idx !in w.Of(op.isEnum).pending
    requires w.Of(op.isEnum).headers[op.idx].body == op.body && FieldsOf(w, op.isEnum, op.idx, op.body)
    ensures Holds(w, op, answer)
  {
    hide FieldsOf;
  }

  lemma QuietHolds(w: World, op: Op, answer: Answer)
    requires op.FlushBatch? || op.RebaseBoth?
    ensures Holds(w, op, answer)
  {
  }

  lemma ShapeHolds(w: World, form: Form, t: Type, ty: Type)
    requires IsEntry(w.shapes, form, t, ty)
    ensures Holds(w, InternShape(form, t), Found(ty))
  {
  }

  lemma FoundHolds(w: World, a: App, ty: Type)
    requires Inv(w, {}) && Lookup(w, a) == Some(ty)
    ensures Holds(w, Instance(a), Found(ty))
  {
    hide Inv;
    LookupsInverse(w, {}, a, 0);
    LookupsInverse(w, {}, a, ty.id);
  }

  /** Header `idx` was registered, or filled, with these fields by one of the operations. */
  ghost predicate Gave(ops: seq<Op>, answers: seq<Answer>, e: bool, idx: nat, body: seq<seq<PolyType<Type>>>) {
    exists i :: 0 <= i < |ops| && i < |answers| && Gives(ops[i], answers[i], e, idx, body)
  }

  predicate Gives(op: Op, answer: Answer, e: bool, idx: nat, body: seq<seq<PolyType<Type>>>) {
    || (op.Register? && op.isEnum == e && answer == Placed(idx) && op.h.body == body)
    || op == FillIn(e, idx, body)
  }

  /** Every complete header that `a` did not hold got its fields from an operation of the run. */
  ghost predicate Accounted(a: World, b: World, ops: seq<Op>, answers: seq<Answer>) {
    forall e: bool, h: nat :: |a.Of(e).headers| <= h < |b.Of(e).headers| && h !in b.Of(e).pending ==>
      Gave(ops, answers, e, h, b.Of(e).headers[h].body)
  }

  lemma AccountedOn(w: World, a: World, b: World, ops: seq<Op>, answers: seq<Answer>, op: Op, answer: Answer)
    requires |ops| == |answers| && Accounted(w, a, ops, answers) && MovesHeaders(a, op, answer, b)
    requires forall e: bool, h :: h in a.Of(e).pending ==> h < |a.Of(e).headers|
    ensures Accounted(w, b, ops + [op], answers + [answer])
  {
    hide Gives;
    forall e: bool, h: nat | |w.Of(e).headers| <= h < |b.Of(e).headers| && h !in b.Of(e).pending
      ensures Gave(ops + [op], answers + [answer], e, h, b.Of(e).headers[h].body)
    {
      if h < |a.Of(e).headers| && h !in a.Of(e).pending && b.Of(e).headers[h] == a.Of(e).headers[h] {
        GaveMore(ops, answers, e, h, b.Of(e).headers[h].body, op, answer);
      } else {
        GaveLast(a, b, ops, answers, e, h, op, answer);
      }
    }
  }

  lemma GaveMore(ops: seq<Op>, answers: seq<Answer>, e: bool, idx: nat, body: seq<seq<PolyType<Type>>>, op: Op,
        answer: Answer)
    requires |ops| == |answers| && Gave(ops, answers, e, idx, body)
    ensures Gave(ops + [op], answers + [answer], e, idx, body)
  {
    hide Gives;
    var i :| 0 <= i < |ops| && i < |answers| && Gives(ops[i], answers[i], e, idx, body);
    assert (ops + [op])[i] == ops[i] && (answers + [answer])[i] == answers[i];
  }

  lemma GaveLast(a: World, b: World, ops: seq<Op>, answers: seq<Answer>, e: bool, h: nat, op: Op, answer: Answer)
    requires |ops| == |answers| && MovesHeaders(a, op, answer, b) && h < |b.Of(e).headers| && h !in b.Of(e).pending
    requires h in a.Of(e).pending ==> h < |a.Of(e).headers|
    requires !(h < |a.Of(e).headers| && h !in a.Of(e).pending && b.Of(e).headers[h] == a.Of(e).headers[h])
    ensures Gave(ops + [op], answers + [answer], e, h, b.Of(e).headers[h].body)
  {
    assert (ops + [op])[|ops|] == op && (answers + [answer])[|ops|] == answer;
    assert Gives(op, answer, e, h, b.Of(e).headers[h].body);
  }

  // ---------------------------------------------------------------- whole runs

  /** Run the operations in order, up to the first that is not legal where it stands. Whatever was answered on
      the way still holds at the end: each application has its one type, whose id leads back to it, each grounded
      shape reads as it was spelled, and the applications of each header have the fields which the run registered
      it or filled it with. No id moved and no field list changed, from any state on. */
  method Play(g: GenericTypes, regs: Registries, ops: seq<Op>) returns (n: nat, answers: seq<Answer>)
    requires Inv(g.Snap(regs), {})
    modifies g, regs
    ensures n <= |ops| && (n < |ops| ==> !Legal(g.Snap(regs), ops[n]))
    ensures Onward(old(g.Snap(regs)), g.Snap(regs))
    ensures |answers| == n && forall i :: 0 <= i < n ==> Holds(g.Snap(regs), ops[i], answers[i])
    ensures Accounted(old(g.Snap(regs)), g.Snap(regs), ops[..n], answers)
    ensures forall e: bool :: g.Snap(regs).Of(e).pending == [] ==> AllPaid(g.Snap(regs), e)
  {
    hide Inv, Evolves, Legal, Holds, Onward, Accounted, MovesHeaders;
    ghost var w := g.Snap(regs);
    OnwardSelf(w);
    n, answers := 0, [];
    AccountedSelf(w);
    while n < |ops| && Legal(g.Snap(regs), ops[n])
      invariant n <= |ops| && Inv(g.Snap(regs), {}) && Onward(w, g.Snap(regs))
      invariant |answers| == n && forall i :: 0 <= i < n ==> Holds(g.Snap(regs), ops[i], answers[i])
      invariant Accounted(w, g.Snap(regs), ops[..n], answers)
    {
      ghost var before := g.Snap(regs);
      var answer := Perform(g, regs, ops[n]);
      OnwardTrans(w, before, g.Snap(regs));
      OnwardInv(before, g.Snap(regs));
      forall i | 0 <= i < n ensures Holds(g.Snap(regs), ops[i], answers[i]) {
        HoldsOn(before, g.Snap(regs), ops[i], answers[i]);
      }
      PendingInRange(before, true);
      PendingInRange(before, false);
      assert ops[..n + 1] == ops[..n] + [ops[n]];
      AccountedOn(w, before, g.Snap(regs), ops[..n], answers, ops[n], answer);
      answers := answers + [answer];
      n := n + 1;
    }
    forall e: bool | g.Snap(regs).Of(e).pending == [] ensures AllPaid(g.Snap(regs), e) { NothingLeft(g.Snap(regs), e); }
  }

  lemma AccountedSelf(w: World)
    ensures Accounted(w, w, [], [])
  {
  }

  lemma OnwardInv(a: World, b: World)
    requires Onward(a, b)
    ensures Inv(b, {})
  {
  }

  lemma NothingLeft(w: World, e: bool)
    requires Inv(w, {}) && w.Of(e).pending == []
    ensures AllPaid(w, e)
  {
    NothingOwed(w, e);
  }

  /** Nothing is owed and every monomorph has the field lists its header denotes. */
  ghost predicate AllPaid(w: World, e: bool) {
    Lockstep(w.Of(e), e) && w.Of(e).deferred == [] && forall i :: 0 <= i < |w.Of(e).keys| ==> Filled(w, e, i)
  }

  // ---------------------------------------------------------------- a type used before it is defined

  const BOX_FIELDS: seq<seq<PolyType<Type>>> := [[Var(0)]]

  /** A header of one variable is reserved, applied at a type, and only then given its one field of that variable: the
      declaration flushed under the id that was handed out holds that type. */
  method UsedBeforeDefined(t: Type) returns (regs: Registries, ty: Type)
    ensures fresh(regs) && ty.Nominal? && !ty.isEnum
    ensures ty.id < |regs.structs| && regs.structs[ty.id].body == [[t]]
  {
    hide Inv, Evolves, Grow, Lookup, FieldsOf, Onward, TablesGrow, FillSide, FlushSide, BodyOk, ArgFits,
      Lockstep;
    regs := new Registries();
    var g := new GenericTypes.WithBases(0, 0);
    FreshIsLegal(g.Snap(regs));
    var _ := g.PushPlaceholder(false, [0], 0, regs);
    ghost var w1 := g.Snap(regs);
    BoxFits(w1, t);
    assert Legal(w1, Instance(App(false, Key(0, 0, [t], []))));
    ty := g.Instantiate(false, 0, [t], [], 0, regs);
    ghost var w2 := g.Snap(regs);
    GrowIsOnward(w1, w2);
    BoxFits(w2, t);
    assert Legal(w2, FillIn(false, 0, BOX_FIELDS));
    g.Fill(false, 0, BOX_FIELDS, regs);
    ghost var w3 := g.Snap(regs);
    SomeMember(w3.structs.pending);
    assert Legal(w3, FlushBatch(false));
    FillIsOnward(w2, false, 0, BOX_FIELDS, w3);
    g.Flush(false, regs);
    FlushIsOnward(w3, false);
    OnwardTrans(w2, w3, g.Snap(regs));
    Boxed(w2, g.Snap(regs), t, ty);
  }

  lemma BoxFits(w: World, t: Type)
    ensures ArgFits(w, t, 0) && BodyOk(w, BOX_FIELDS, [0], 0)
  {
  }

  lemma SomeMember(s: seq<nat>)
    ensures s != [] ==> exists h :: h in s
  {
    if s != [] { assert s[0] in s; }
  }

  lemma Boxed(w: World, w2: World, t: Type, ty: Type)
    requires Onward(w, w2) && Lookup(w, App(false, Key(0, 0, [t], []))) == Some(ty)
    requires w2.structs.headers != [] && w2.structs.headers[0].body == BOX_FIELDS && w2.structs.pending == []
    requires w2.structs.insts == []
    ensures ty.Nominal? && !ty.isEnum && ty.id < |w2.structs.live| && w2.structs.live[ty.id].body == [[t]]
  {
    var s := w2.structs;
    LookupGrows(w, w2, App(false, Key(0, 0, [t], [])));
    LookupFinds(w2, {}, false, Key(0, 0, [t], []), ty);
    var i :| 0 <= i < |s.keys| && i < |s.resolved| && s.keys[i] == Key(0, 0, [t], []) && s.resolved[i] == ty;
    CompleteFields(w2, false, 0);
    assert FieldsOf(w2, false, 0, BOX_FIELDS);
    hide Inv, Evolves, Lookup, HeadersStay, DenotesBody, Lockstep, DeclAt;
    assert w2.Of(false) == s;
    MintedLive(s, i);
    BoxDenotes(w2, t, DeclAt(s, i, false).body);
  }

  lemma BoxDenotes(w: World, t: Type, d: seq<seq<Type>>)
    requires DenotesBody(w, BOX_FIELDS, [t], [], d)
    ensures d == [[t]]
  {
    assert BOX_FIELDS[0] == [Var(0)] && BOX_FIELDS[0][0] == Var(0);
    assert Denote(w, BOX_FIELDS[0][0], [t], []) == Some(d[0][0]);
    assert d[0] == [t];
  }

  lemma MintedLive(s: Side, i: nat)
    requires Lockstep(s, false) && s.insts == [] && i < |s.keys|
    ensures s.resolved[i].Nominal? && !s.resolved[i].isEnum && s.resolved[i].id < |s.live|
    ensures DeclAt(s, i, false) == s.live[s.resolved[i].id]
  {
  }
}
