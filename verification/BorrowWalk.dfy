/** The imperative walk over the checker's stack and scope, each method against the step it takes. */
module BorrowWalk {
  import opened Types
  import opened Borrow
  import opened BorrowJoin
  import opened BorrowSteps
  import opened BorrowRuns
  import opened MoveStates
  import opened Linearity

  class Walker {
    var stack: seq<Slot>
    var bound: seq<Binding>
    var moves: States
    var derivs: seq<Deriv>
    var regions: nat
    var aliasSets: seq<set<nat>>
    var survivors: seq<Survivors>
    var dropped: seq<Ty>
    /** The frame places each value on the stack, and each value in scope, may in truth reach. */
    ghost var views: seq<set<string>>
    ghost var boundViews: seq<set<string>>
    /** The places, of those followed, that have stayed the owned root of everything that reaches them. */
    ghost var kept: iset<string>
    /** What has become of the locals so far. */
    ghost var trail: Trail

    ghost predicate SlotIds(s: Slot) reads this { Tables(aliasSets, survivors).Fit(s) }

    ghost predicate IdsOk() reads this { IdsFit(Tables(aliasSets, survivors), stack, bound) && Distinct(aliasSets) }

    ghost predicate Valid(ctx: Ctx) reads this {
      Recorded(ctx, Here(), Roots(kept)) && IdsOk() && Tracked(moves, trail, bound)
    }

    ghost function Here(): State reads this { State(stack, views, bound, boundViews, derivs) }

    constructor (ghost followed: iset<string>)
      ensures Here() == State([], [], [], [], []) && moves == map[] && aliasSets == [] && survivors == []
      ensures dropped == [] && regions == 0
      ensures kept == followed && trail == Nowhere
    {
      stack, bound, moves, derivs, regions, aliasSets, survivors, dropped := [], [], map[], [], 0, [], [], [];
      views, boundViews, kept, trail := [], [], followed, Nowhere;
    }

    method InternAliasSet(regs: set<nat>) returns (id: nat)
      modifies this`aliasSets
      ensures id < |aliasSets| && aliasSets[id] == regs && old(aliasSets) <= aliasSets
      ensures old(Distinct(aliasSets)) ==> Distinct(aliasSets)
    {
      id := IndexOf(aliasSets, regs);
      if id == |aliasSets| {
        aliasSets := aliasSets + [regs];
      }
    }

    method AliasUnion(a: nat, b: nat) returns (id: nat)
      requires a < |aliasSets| && b < |aliasSets|
      modifies this`aliasSets
      ensures id < |aliasSets| && aliasSets[id] == old(aliasSets[a] + aliasSets[b]) && old(aliasSets) <= aliasSets
      ensures old(Distinct(aliasSets)) ==> Distinct(aliasSets)
    {
      id := InternAliasSet(aliasSets[a] + aliasSets[b]);
    }

    /** The union of two surviving sets; nothing at all has no id. */
    method UnionSurviving(a: Option<nat>, b: Option<nat>) returns (id: Option<nat>)
      modifies this`survivors
      ensures old(survivors) <= survivors && (id.Some? ==> id.value < |survivors|)
      ensures SurvivorsOf(survivors, id) == SurvivorsOf(old(survivors), a) + SurvivorsOf(old(survivors), b)
      ensures id.None? <==> SurvivorsOf(survivors, id) == {}
    {
      var members := SurvivorsOf(survivors, a) + SurvivorsOf(survivors, b);
      if members == {} { return None; }
      survivors := survivors + [members];
      return Some(|survivors| - 1);
    }

    method AddDeriv(d: Deriv) returns (id: nat)
      modifies this`derivs
      ensures id == |old(derivs)| && derivs == old(derivs) + [d]
    {
      id := |derivs|;
      derivs := derivs + [d];
    }

    // ---------------------------------------------------------------- taking borrows

    /** The scan for a place over the live records: on the stack, and held by locals that are still live. */
    method Scan(live: set<string>, p: string, mutableOnly: bool) returns (found: bool)
      ensures found <==> Lent(Here(), live, p, mutableOnly)
    {
      ScanMeans(Here(), live, p, mutableOnly);
      hide Hit, Lent;
      for i := 0 to |stack|
        invariant forall j :: 0 <= j < i ==> !Hit(derivs, stack[j].deriv, p, mutableOnly)
      {
        if Hit(derivs, stack[i].deriv, p, mutableOnly) { return true; }
      }
      for i := 0 to |bound|
        invariant forall j :: 0 <= j < i && bound[j].name in live ==> !Hit(derivs, bound[j].deriv, p, mutableOnly)
      {
        if bound[i].name in live && Hit(derivs, bound[i].deriv, p, mutableOnly) { return true; }
      }
      return false;
    }

    /** A new chain through `place`, keeping the held chain's root; a reference parameter's has none. */
    method Reborrow(place: string, held: Option<nat>, mutable: bool) returns (id: nat)
      requires DerivOk(derivs, held)
      modifies this`derivs
      ensures id == |old(derivs)| && derivs == old(derivs) + [ReborrowRecord(old(derivs), place, held, mutable)]
    {
      var root, static_ := None, false;
      if held.Some? { root, static_ := derivs[held.value].root, derivs[held.value].staticRoot; }
      id := AddDeriv(Deriv(place, root, static_, true, mutable, false));
    }

    /** A fresh chain rooted at `place`, or a reborrow when the local already holds one. */
    method Borrow(place: string, held: Option<nat>, mutable: bool, static_: bool) returns (id: nat)
      requires DerivOk(derivs, held)
      modifies this`derivs
      ensures id == |old(derivs)| && derivs == old(derivs) + [BorrowRecord(old(derivs), place, held, static_, mutable)]
    {
      if held.Some? {
        id := Reborrow(place, held, mutable);
      } else {
        id := AddDeriv(Deriv(place, Some(place), static_, false, mutable, false));
      }
    }

    /** `&place` or `&!place`, of a local or of a static. Refused when the local was consumed, and when the
        scan finds a record it conflicts with: any live one for an exclusive borrow, a live exclusive one for
        a shared borrow. */
    method BorrowPlace(ctx: Ctx, live: set<string>, place: string, mutable: bool, refTy: Ty)
      returns (r: Result<bool, BorrowError>)
      requires Valid(ctx) && ctx.bears(refTy)
      modifies this`stack, this`views, this`derivs, this`kept
      ensures Valid(ctx)
      ensures kept == if r.Ok? then KeptBy(ctx, old(Here()), BorrowOf(place, mutable, refTy), old(kept)) else old(kept)
      ensures var gone := Local(bound, place) < |bound| && place in moves && !moves[place].Live?;
              if gone then r == Err(UseAfterMove(place, moves[place].site))
              else if Lent(old(Here()), live, place, !mutable) then r == Err(Conflict(place))
              else r == Ok(true)
      ensures if r.Ok? then Moves(ctx, old(Here()), BorrowOf(place, mutable, refTy), Here()) else Here() == old(Here())
      ensures r.Ok? ==> stack == old(stack) + [Derived(refTy, Some(|old(derivs)|))]
    {
      hide Recorded, RowRecorded, Lent, Moves, IdsFit, Distinct, KeptBy, Tracked, Viewed, BorrowRecord;
      r := BorrowAllowed(live, place, mutable);
      if r.Ok? { TakeBorrow(ctx, place, mutable, refTy); }
    }

    /** The checks of a borrow, in their order. */
    method BorrowAllowed(live: set<string>, place: string, mutable: bool) returns (r: Result<bool, BorrowError>)
      ensures var gone := Local(bound, place) < |bound| && place in moves && !moves[place].Live?;
              if gone then r == Err(UseAfterMove(place, moves[place].site))
              else if Lent(Here(), live, place, !mutable) then r == Err(Conflict(place))
              else r == Ok(true)
    {
      hide Lent;
      if Local(bound, place) < |bound| && place in moves && !moves[place].Live? {
        return Err(UseAfterMove(place, moves[place].site));
      }
      var found := Scan(live, place, !mutable);
      return if found then Err(Conflict(place)) else Ok(true);
    }

    method TakeBorrow(ctx: Ctx, place: string, mutable: bool, refTy: Ty)
      requires Valid(ctx) && ctx.bears(refTy)
      modifies this`stack, this`views, this`derivs, this`kept
      ensures Valid(ctx) && kept == KeptBy(ctx, old(Here()), BorrowOf(place, mutable, refTy), old(kept))
      ensures Moves(ctx, old(Here()), BorrowOf(place, mutable, refTy), Here())
      ensures stack == old(stack) + [Derived(refTy, Some(|old(derivs)|))]
    {
      hide Recorded, RowRecorded, Moves, IdsFit, Distinct, KeptBy, Tracked, Viewed;
      ghost var was := Here();
      var i := Local(bound, place);
      var held := if i < |bound| then bound[i].deriv else None;
      HeldOk(ctx, was, place, kept);
      var id := Borrow(place, held, mutable, i == |bound|);
      stack := stack + [Derived(refTy, Some(id))];
      views := views + [{place} + Viewed(was, place)];
      BorrowsAre(ctx, was, Here(), place, mutable, refTy);
      IdsPushed(Tables(aliasSets, survivors), was.stack, bound, Derived(refTy, Some(id)));
      StepRecorded(ctx, was, BorrowOf(place, mutable, refTy), Here(), kept);
      kept := KeptBy(ctx, was, BorrowOf(place, mutable, refTy), kept);
    }

    /** A local named as a term. A reference or a view is reborrowed, unless it is exclusive and suspended by a
        live reborrow through it. Any other value is read: refused when it is linear and borrowed or consumed,
        or when the name would alias storage that a live exclusive borrow reaches. */
    method NameLocal(ctx: Ctx, live: set<string>, name: string, span: nat) returns (r: Result<bool, BorrowError>)
      requires Valid(ctx) && Local(bound, name) < |bound|
      modifies this`stack, this`views, this`derivs, this`moves, this`trail
      ensures Valid(ctx)
      ensures var b, s := bound[Local(bound, name)], old(Here());
              match ctx.borrowMutability(b.ty)
              case Some(mutable) =>
                if mutable && ReborrowedThrough(s, live, name) then r == Err(Suspended(name)) else r == Ok(true)
              case None =>
                if ctx.isLinear(b.ty) && Lent(s, live, name, false) then r == Err(ConsumesBorrowed)
                else if name in old(moves) && !old(moves)[name].Live? then
                  r == Err(UseAfterMove(name, old(moves)[name].site))
                else if b.aliases.Some? && Lent(s, live, name, true) then r == Err(Conflict(name))
                else r == Ok(true)
      ensures if r.Ok? then Moves(ctx, old(Here()), NameOf(name), Here()) else Here() == old(Here())
      ensures moves == if r.Ok? && ctx.borrowMutability(bound[Local(bound, name)].ty).None? && name in old(moves)
                       then old(moves)[name := Moved(span)] else old(moves)
      ensures trail == if r.Ok? && ctx.borrowMutability(bound[Local(bound, name)].ty).None?
                       then On(old(trail), old(moves), Read(name, span)) else old(trail)
    {
      hide Recorded, RowRecorded, Lent, ReborrowedThrough, Moves, IdsFit, Distinct, Tracked;
      match ctx.borrowMutability(bound[Local(bound, name)].ty) {
        case Some(mutable) => r := NameReference(ctx, live, name, mutable);
        case None => r := ReadValue(ctx, live, name, span);
      }
    }

    method NameReference(ctx: Ctx, live: set<string>, name: string, mutable: bool)
      returns (r: Result<bool, BorrowError>)
      requires Valid(ctx) && Local(bound, name) < |bound|
      requires ctx.borrowMutability(bound[Local(bound, name)].ty) == Some(mutable)
      modifies this`stack, this`views, this`derivs
      ensures Valid(ctx)
      ensures r == if mutable && ReborrowedThrough(old(Here()), live, name) then Err(Suspended(name)) else Ok(true)
      ensures if r.Ok? then Moves(ctx, old(Here()), NameOf(name), Here()) else Here() == old(Here())
    {
      hide Recorded, RowRecorded, ReborrowedThrough, Moves, IdsFit, Distinct, Tracked;
      ghost var was := Here();
      var b := bound[Local(bound, name)];
      HeldOk(ctx, was, name, kept);
      if mutable {
        var suspended := FindSuspended(live, name);
        if suspended { return Err(Suspended(name)); }
      }
      var id := Reborrow(name, b.deriv, mutable);
      stack := stack + [Derived(b.ty, Some(id))];
      views := views + [Viewed(was, name)];
      ReferenceNames(ctx, was, Here(), name, mutable);
      IdsPushed(Tables(aliasSets, survivors), was.stack, bound, Derived(b.ty, Some(id)));
      StepRecorded(ctx, was, NameOf(name), Here(), kept);
      return Ok(true);
    }

    method ReadValue(ctx: Ctx, live: set<string>, name: string, span: nat) returns (r: Result<bool, BorrowError>)
      requires Valid(ctx) && Local(bound, name) < |bound| && ctx.borrowMutability(bound[Local(bound, name)].ty).None?
      modifies this`stack, this`views, this`moves, this`trail
      ensures Valid(ctx) && ReadVerdict(ctx, old(Here()), old(moves), live, name, r)
      ensures if r.Ok? then Moves(ctx, old(Here()), NameOf(name), Here()) else Here() == old(Here())
      ensures moves == if r.Ok? && name in old(moves) then old(moves)[name := Moved(span)] else old(moves)
      ensures trail == if r.Ok? then On(old(trail), old(moves), Read(name, span)) else old(trail)
    {
      hide Recorded, RowRecorded, Moves, IdsFit, Distinct, Lent, Tracked, ReadVerdict;
      ghost var was := Here();
      r := ReadAllowed(ctx, live, name);
      if r.Err? { return; }
      StackSizes(ctx, was, kept);
      ReadTracked(ctx, was, moves, live, name, r, span, trail);
      trail := On(trail, moves, Read(name, span));
      var b := bound[Local(bound, name)];
      if name in moves { moves := moves[name := Moved(span)]; }
      var alias := if b.aliases.Some? then Some(Alias(b.aliases.value, span)) else None;
      ghost var slot := Computed(b.ty).(deriv := b.deriv, quot := b.quot, surviving := b.surviving, alias := alias);
      stack := stack + [Computed(b.ty).(deriv := b.deriv, quot := b.quot, surviving := b.surviving, alias := alias)];
      views := views + [Viewed(was, name)];
      ValueNames(ctx, was, Here(), name, alias);
      LocalFits(Tables(aliasSets, survivors), was.stack, bound, Local(bound, name), slot);
      IdsPushed(Tables(aliasSets, survivors), was.stack, bound, slot);
      StepRecorded(ctx, was, NameOf(name), Here(), kept);
    }

    /** The checks of a name that is read, in their order. */
    method ReadAllowed(ctx: Ctx, live: set<string>, name: string) returns (r: Result<bool, BorrowError>)
      requires Local(bound, name) < |bound|
      ensures ReadVerdict(ctx, Here(), moves, live, name, r)
    {
      hide Lent;
      var b := bound[Local(bound, name)];
      if ctx.isLinear(b.ty) {
        var borrowed := Scan(live, name, false);
        if borrowed { return Err(ConsumesBorrowed); }
      }
      if name in moves && !moves[name].Live? { return Err(UseAfterMove(name, moves[name].site)); }
      if b.aliases.Some? {
        var exclusive := Scan(live, name, true);
        if exclusive { return Err(Conflict(name)); }
      }
      return Ok(true);
    }

    /** A live reborrow taken through `name` itself. */
    method FindSuspended(live: set<string>, name: string) returns (found: bool)
      ensures found <==> ReborrowedThrough(Here(), live, name)
    {
      hide ReborrowedThrough;
      SuspendMeans(Here(), live, name);
      for i := 0 to |stack|
        invariant forall j :: 0 <= j < i ==> !Suspends(derivs, stack[j].deriv, name)
      {
        if Suspends(derivs, stack[i].deriv, name) { return true; }
      }
      for i := 0 to |bound|
        invariant forall j :: 0 <= j < i && bound[j].name in live ==> !Suspends(derivs, bound[j].deriv, name)
      {
        if bound[i].name in live && Suspends(derivs, bound[i].deriv, name) { return true; }
      }
      return false;
    }

    // ---------------------------------------------------------------- scope

    /** `| names |`: one value per name, the leftmost the deepest; each keeps its provenance, an aggregate
        without a region gets one, a linear value becomes live. */
    method BindLocals(ctx: Ctx, names: seq<string>) returns (r: Result<bool, BorrowError>)
      requires Valid(ctx)
      modifies this`stack, this`views, this`bound, this`boundViews, this`moves, this`regions, this`aliasSets,
               this`trail
      ensures Valid(ctx) && old(aliasSets) <= aliasSets
      ensures r.Ok? <==>
                Distinct(names) &&
                  (forall i :: 0 <= i < |names| ==> Local(old(bound), names[i]) == |old(bound)|) &&
                    |names| <= |old(stack)|
      ensures if r.Ok? then Moves(ctx, old(Here()), BindAs(names), Here()) else Here() == old(Here())
      ensures r.Err? ==> moves == old(moves) && trail == old(trail)
      ensures r.Ok? ==>
                var linear := Linear(ctx, old(stack)[|old(stack)| - |names|..]);
                && (forall n :: n in moves <==>
                      n in old(moves) || exists i :: 0 <= i < |names| && names[i] == n && linear[i])
                && (forall n :: n in moves ==> moves[n] == if n in old(moves) then old(moves)[n] else Live)
                && trail == EnterAll(old(trail), old(moves), names, linear).0
    {
      hide Recorded, RowRecorded, IdsFit, Binds, Distinct, Local, Tracked, EnterAll, Linear;
      ghost var was := Here();
      StackSizes(ctx, was, kept);
      var clash := NameClash(names);
      if clash.Some? { return Err(clash.value); }
      if |stack| < |names| { return Err(Underflow(|names|, |stack|)); }
      EntersFresh(ctx, moves, trail, bound, names, stack[|stack| - |names|..]);
      BindTop(ctx, names);
      return Ok(true);
    }

    method BindTop(ctx: Ctx, names: seq<string>)
      requires Valid(ctx) && |names| <= |stack| && Distinct(names)
      requires forall i :: 0 <= i < |names| ==> Local(bound, names[i]) == |bound|
      modifies this`stack, this`views, this`bound, this`boundViews, this`moves, this`regions, this`aliasSets,
               this`trail
      ensures Valid(ctx) && old(aliasSets) <= aliasSets && Moves(ctx, old(Here()), BindAs(names), Here())
      ensures (trail, moves) ==
                EnterAll(old(trail), old(moves), names, Linear(ctx, old(stack)[|old(stack)| - |names|..]))
    {
      hide Recorded, RowRecorded, BindsSlot, BindingFits, Moves, Distinct, IdsFit, Tracked, EnterAll, Linear, Local;
      ghost var was, before := Here(), Tables(aliasSets, survivors);
      StackSizes(ctx, was, kept);
      var base := |stack| - |names|;
      var values := stack[base..];
      OperandIds(before, stack, bound, base);
      ghost var entered := EnterAll(trail, moves, names, Linear(ctx, values));
      var added := BindValues(ctx, names, values);
      EntersTracked(ctx, old(moves), old(trail), bound, names, values, added);
      IdsReplaced(before, Tables(aliasSets, survivors), stack, bound, base, [], added);
      assert stack[..base] + [] == stack[..base];
      bound := bound + added;
      boundViews := boundViews + views[base..];
      stack := stack[..base];
      views := views[..base];
      trail := entered.0;
      BindsAre(ctx, was, Here(), names, added);
      StepRecorded(ctx, was, BindAs(names), Here(), kept);
    }

    /** The first name bound twice by one binder, or already in scope. */
    method NameClash(names: seq<string>) returns (r: Option<BorrowError>)
      ensures r.None? <==> Distinct(names) && forall i :: 0 <= i < |names| ==> Local(bound, names[i]) == |bound|
    {
      for i := 0 to |names|
        invariant Distinct(names[..i]) && forall j :: 0 <= j < i ==> Local(bound, names[j]) == |bound|
      {
        assert names[..i + 1] == names[..i] + [names[i]];
        if names[i] in names[..i] {
          assert !Distinct(names);
          return Some(DuplicateLocal(names[i]));
        }
        if Local(bound, names[i]) < |bound| { return Some(ReboundLocal(names[i])); }
      }
      assert names[..|names|] == names;
      return None;
    }

    method BindValues(ctx: Ctx, names: seq<string>, values: seq<Slot>) returns (added: seq<Binding>)
      requires |names| == |values| && Distinct(aliasSets) && forall i :: 0 <= i < |values| ==> SlotIds(values[i])
      modifies this`regions, this`aliasSets, this`moves
      ensures old(aliasSets) <= aliasSets && Distinct(aliasSets) && |added| == |names|
      ensures moves == EnterAll(trail, old(moves), names, Linear(ctx, values)).1
      ensures forall i :: 0 <= i < |names| ==>
                && BindsSlot(added[i], names[i], values[i]) && added[i].name == names[i]
                && (added[i].aliases.Some? <==> values[i].alias.Some? || ctx.isAggregate(values[i].ty))
                && BindingFits(Tables(aliasSets, survivors), added[i])
    {
      hide EnterAll, Distinct;
      added := [];
      EnterNone(trail, moves);
      for i := 0 to |names|
        invariant old(aliasSets) <= aliasSets && Distinct(aliasSets) && |added| == i
        invariant moves == EnterAll(trail, old(moves), names[..i], Linear(ctx, values)[..i]).1
        invariant forall j :: 0 <= j < i ==>
                    && BindsSlot(added[j], names[j], values[j])
                    && (added[j].aliases.Some? <==> values[j].alias.Some? || ctx.isAggregate(values[j].ty))
                    && BindingFits(Tables(aliasSets, survivors), added[j])
      {
        var s := values[i];
        EnterSnoc(trail, old(moves), names, Linear(ctx, values), i);
        if ctx.isLinear(s.ty) { moves := moves[names[i] := Live]; }
        var aliases := None;
        if s.alias.Some? {
          aliases := Some(s.alias.value.set_);
        } else if ctx.isAggregate(s.ty) {
          var region := regions;
          regions := regions + 1;
          var set_ := InternAliasSet({region});
          aliases := Some(set_);
        }
        added := added + [Binding(names[i], s.ty, aliases, s.deriv, s.quot, s.surviving)];
      }
      assert names[..|names|] == names && Linear(ctx, values)[..|names|] == Linear(ctx, values);
    }

    /** The end of a block: names past `depth` leave. The answer is one still holding a linear value, if any. */
    method LeaveScope(ctx: Ctx, depth: nat) returns (leaked: Option<string>)
      requires Valid(ctx) && depth <= |bound|
      modifies this`bound, this`boundViews, this`moves, this`trail
      ensures Valid(ctx) && Moves(ctx, old(Here()), LeaveTo(depth), Here())
      ensures leaked.Some? ==>
                (exists i :: depth <= i < |old(bound)| && old(bound)[i].name == leaked.value) &&
                  leaked.value in old(moves) && !old(moves)[leaked.value].Moved?
      ensures leaked.None? ==> forall i :: depth <= i < |old(bound)| && old(bound)[i].name in old(moves) ==>
                old(moves)[old(bound)[i].name].Moved?
      ensures leaked.None? ==> forall i, es :: depth <= i < |old(bound)| && Executes(old(trail), es) ==>
                Reads(es, old(bound)[i].name) in {None, Some(1)}
      ensures moves == map n | n in old(moves) && n !in NamesOf(old(bound)[depth..]) :: old(moves)[n]
      ensures trail == ExitAll(old(trail), old(moves), NamesOf(old(bound)[depth..])).0
    {
      hide Recorded, RowRecorded, Moves, Distinct, Tracked, ExitAll, Executes, Reads;
      ghost var was := Here();
      leaked := Leak(depth);
      if leaked.None? { LeavesConsumed(moves, trail, bound, depth); }
      var left := NamesOf(bound[depth..]);
      LeavesTracked(moves, trail, bound, depth);
      trail := ExitAll(trail, moves, left).0;
      moves := map n | n in moves && n !in left :: moves[n];
      ScopeSizes(ctx, was, kept);
      bound := bound[..depth];
      boundViews := boundViews[..depth];
      LeavesAre(ctx, was, Here(), depth);
      StepRecorded(ctx, was, LeaveTo(depth), Here(), kept);
    }

    /** The first name from `depth` on that still holds a linear value. */
    method Leak(depth: nat) returns (leaked: Option<string>)
      requires depth <= |bound|
      ensures leaked.Some? ==>
                (exists i :: depth <= i < |bound| && bound[i].name == leaked.value) &&
                  leaked.value in moves && !moves[leaked.value].Moved?
      ensures leaked.None? ==>
                forall i :: depth <= i < |bound| && bound[i].name in moves ==> moves[bound[i].name].Moved?
    {
      for i := depth to |bound|
        invariant forall j :: depth <= j < i && bound[j].name in moves ==> moves[bound[j].name].Moved?
      {
        var name := bound[i].name;
        if name in moves && !moves[name].Moved? { return Some(name); }
      }
      return None;
    }

    // ---------------------------------------------------------------- projections

    /** A projection through a reference `popped` values down (a field or a cell payload, or an element under
        its index): the receiver and what is above it leave, its derivation is taken one step further, its
        region is forwarded. */
    method Project(ctx: Ctx, popped: nat, refTy: Ty, ghost vs: set<string>)
      requires Valid(ctx) && ctx.bears(refTy) && 1 <= popped <= |stack|
      requires vs <= views[|stack| - popped]
      modifies this`stack, this`views, this`derivs
      ensures Valid(ctx) && old(derivs) <= derivs
      ensures |stack| == |old(stack)| - popped + 1 && stack[..|stack| - 1] == old(stack)[..|old(stack)| - popped]
      ensures stack[|stack| - 1].ty == refTy && stack[|stack| - 1].alias == old(stack)[|old(stack)| - popped].alias
      ensures RootOf(derivs, stack[|stack| - 1].deriv) == RootOf(old(derivs), old(stack)[|old(stack)| - popped].deriv)
      ensures Moves(ctx, old(Here()), ProjectTo(popped, refTy, vs), Here())
    {
      hide Recorded, RowRecorded, Moves, IdsFit, Distinct, Tracked;
      ghost var was := Here();
      StackSizes(ctx, was, kept);
      var r := |stack| - popped;
      var receiver := stack[r];
      var deriv := None;
      if receiver.deriv.Some? {
        var id := AddDeriv(derivs[receiver.deriv.value].(projected := true));
        deriv := Some(id);
      }
      stack := stack[..r] + [Derived(refTy, deriv).(alias := receiver.alias)];
      views := views[..r] + [vs];
      ProjectsAre(ctx, was, Here(), popped, refTy, vs);
      SlotFits(Tables(aliasSets, survivors), was.stack, bound, r);
      IdsReplaced(Tables(aliasSets, survivors), Tables(aliasSets, survivors), was.stack, bound, r,
                  [Derived(refTy, deriv).(alias := receiver.alias)], []);
      assert bound + [] == bound;
      StepRecorded(ctx, was, ProjectTo(popped, refTy, vs), Here(), kept);
    }

    // ---------------------------------------------------------------- stores

    /** The value on top is stored through the reference below it: refused when it bears references and the
        receiver is not rooted at a local, or when it views another place than the container does; otherwise its
        record and its regions are booked to the container. `isRef` and `fits` are the answers of the type checks;
        `target` is the frame place written at run time, if it is one. */
    method Store(ctx: Ctx, isRef: bool, fits: bool, ghost target: Option<string>) returns (r: Result<bool, BorrowError>)
      requires Valid(ctx) && CanWrite(ctx, Here(), target)
      modifies this`stack, this`views, this`bound, this`boundViews, this`aliasSets, this`kept
      ensures Valid(ctx) && old(aliasSets) <= aliasSets
      ensures r == StoreOutcome(ctx, old(Here()), isRef, fits)
      ensures if r.Ok? then Moves(ctx, old(Here()), StoreTo(target), Here()) else Here() == old(Here())
      ensures kept == if r.Ok? then KeptBy(ctx, old(Here()), StoreTo(target), old(kept)) else old(kept)
      ensures r.Ok? ==> RegionsBooked(ctx, old(Here()), old(aliasSets), bound, aliasSets)
    {
      hide Recorded, RowRecorded, KeptBy, Moves, RegionsBooked, IdsFit, Distinct, Tracked, InFrame, StoreClash, RootOf;
      r := StoreAllowed(ctx, isRef, fits);
      if r.Err? { return; }
      if ctx.bears(stack[|stack| - 1].ty) {
        var deriv := stack[|stack| - 2].deriv;
        var c := if deriv.Some? && deriv.value < |derivs| then Local(bound, derivs[deriv.value].place) else |bound|;
        BookTop(ctx, c, target);
      } else {
        PopStored(ctx, target);
      }
    }

    /** The checks of a store, in their order. */
    method StoreAllowed(ctx: Ctx, isRef: bool, fits: bool) returns (r: Result<bool, BorrowError>)
      requires Valid(ctx)
      ensures r == StoreOutcome(ctx, Here(), isRef, fits)
    {
      hide Recorded, RowRecorded, IdsFit, Distinct, Tracked;
      var n := |stack|;
      if n < 2 { return Err(Underflow(2, n)); }
      StackSizes(ctx, Here(), kept);
      var receiver, value := stack[n - 2], stack[n - 1];
      if isRef && ctx.bears(value.ty) {
        var root := if receiver.deriv.Some? then derivs[receiver.deriv.value].root else None;
        if root.None? || Local(bound, root.value) == |bound| { return Err(StoredViewEscapes(value.ty)); }
        var c := Local(bound, derivs[receiver.deriv.value].place);
        if c < |bound| {
          HeldOk(ctx, Here(), derivs[receiver.deriv.value].place, kept);
          var held := if bound[c].deriv.Some? then derivs[bound[c].deriv.value].root else None;
          var stored := if value.deriv.Some? then derivs[value.deriv.value].root else None;
          if held.Some? && stored.Some? && held != stored { return Err(DistinctRoots(held.value, stored.value)); }
        }
      }
      if !isRef || !fits { return Err(NotStorable(receiver.ty, value.ty)); }
      return Ok(true);
    }

    method PopStored(ctx: Ctx, ghost target: Option<string>)
      requires Valid(ctx) && CanWrite(ctx, Here(), target) && 2 <= |stack| && !ctx.bears(stack[|stack| - 1].ty)
      modifies this`stack, this`views, this`boundViews, this`kept
      ensures Valid(ctx) && Moves(ctx, old(Here()), StoreTo(target), Here())
      ensures kept == KeptBy(ctx, old(Here()), StoreTo(target), old(kept))
      ensures RegionsBooked(ctx, old(Here()), old(aliasSets), bound, aliasSets)
    {
      hide Recorded, RowRecorded, KeptBy, Moves, Tracked;
      ghost var was := Here();
      StackSizes(ctx, was, kept);
      stack := stack[..|stack| - 2];
      views, boundViews := ViewsAfter(was, target), LocalViewsAfter(was, target);
      StoresAre(ctx, was, Here(), target);
      StepRecorded(ctx, was, StoreTo(target), Here(), kept);
      kept := KeptBy(ctx, was, StoreTo(target), kept);
    }

    method BookTop(ctx: Ctx, c: nat, ghost target: Option<string>)
      requires Valid(ctx) && CanWrite(ctx, Here(), target) && 2 <= |stack| && ctx.bears(stack[|stack| - 1].ty)
      requires c == Container(Here(), stack[|stack| - 2]) && InFrame(Here(), stack[|stack| - 2])
      requires !StoreClash(Here(), stack[|stack| - 2], stack[|stack| - 1])
      modifies this`stack, this`views, this`bound, this`boundViews, this`aliasSets, this`kept
      ensures Valid(ctx) && Moves(ctx, old(Here()), StoreTo(target), Here())
      ensures kept == KeptBy(ctx, old(Here()), StoreTo(target), old(kept))
      ensures old(aliasSets) <= aliasSets && RegionsBooked(ctx, old(Here()), old(aliasSets), bound, aliasSets)
    {
      hide Recorded, RowRecorded, KeptBy, Local, InFrame, StoreClash, Regions, LocalRegions, Moves, Container, CanWrite;
      hide Tracked, IdsFit, Distinct, RegionsBooked, ViewsAfter, LocalViewsAfter, DerivOk;
      ghost var was := Here();
      StackSizes(ctx, was, kept);
      ghost var receiver, value := stack[|stack| - 2], stack[|stack| - 1];
      Book(c, stack[|stack| - 1]);
      SameNamesTracked(moves, trail, was.bound, bound);
      BookedIs(was, receiver, value, bound);
      RegionsAre(ctx, was, old(aliasSets), bound, aliasSets);
      hide SameHeld, Booked;
      IdsReplaced(Tables(aliasSets, survivors), Tables(aliasSets, survivors), stack, bound, |stack| - 2, [], []);
      assert stack[..|stack| - 2] + [] == stack[..|stack| - 2] && bound + [] == bound;
      stack := stack[..|stack| - 2];
      views, boundViews := ViewsAfter(was, target), LocalViewsAfter(was, target);
      StoresAre(ctx, was, Here(), target);
      StepRecorded(ctx, was, StoreTo(target), Here(), kept);
      kept := KeptBy(ctx, was, StoreTo(target), kept);
    }

    /** The container takes the stored record, if there is one, and the stored regions. */
    method Book(c: nat, value: Slot)
      requires IdsOk() && value in stack && c <= |bound|
      modifies this`bound, this`aliasSets
      ensures IdsOk() && old(aliasSets) <= aliasSets
      ensures c == |old(bound)| ==> bound == old(bound)
      ensures c < |old(bound)| ==>
                && |bound| == |old(bound)| && (forall i :: 0 <= i < |bound| && i != c ==> bound[i] == old(bound)[i])
                && bound[c] == Holding(old(bound)[c], value).(aliases := bound[c].aliases)
                && LocalRegions(aliasSets, bound[c]) ==
                  LocalRegions(old(aliasSets), old(bound)[c]) + Regions(old(aliasSets), value.alias)
    {
      if c == |bound| { return; }
      var b := bound[c];
      var aliases := b.aliases;
      if b.aliases.Some? && value.alias.Some? {
        var set_ := AliasUnion(b.aliases.value, value.alias.value.set_);
        aliases := Some(set_);
      } else if value.alias.Some? {
        aliases := Some(value.alias.value.set_);
      }
      var deriv := if value.deriv.Some? then value.deriv else b.deriv;
      bound := bound[c := b.(deriv := deriv, aliases := aliases)];
    }

    // ---------------------------------------------------------------- shuffles

    method Dup(ctx: Ctx) returns (r: Result<bool, BorrowError>)
      requires Valid(ctx)
      modifies this`stack, this`views
      ensures Valid(ctx) && ShuffleOutcome(ctx, Shuffle.Dup, old(stack), old(views), stack, views, r, false)
    {
      hide Recorded, RowRecorded, IdsFit, Distinct, Shuffled, Tracked;
      var n := |stack|;
      ghost var was := Here();
      StackSizes(ctx, was, kept);
      if n < 1 { return Err(Underflow(1, n)); }
      var top := stack[n - 1];
      if !ctx.isCopy(top.ty) { return Err(CannotCopy(top.ty)); }
      stack := stack + [if ctx.bears(top.ty) then top else top.(alias := None)];
      views := Gather(views, ShuffleMap(Shuffle.Dup, n));
      DupIs(ctx, was.stack, was.views, stack, views);
      Reordered(ctx, was, Here(), Tables(aliasSets, survivors), Tables(aliasSets, survivors), Shuffle.Dup, kept);
      return Ok(true);
    }

    /** `conflict` and `visible` are the answers of the hazard scan and of the drop-visibility check. */
    method Drop(ctx: Ctx, conflict: bool, visible: bool) returns (r: Result<bool, BorrowError>)
      requires Valid(ctx)
      modifies this`stack, this`views, this`dropped
      ensures Valid(ctx)
      ensures ShuffleOutcome(ctx, Shuffle.Drop, old(stack), old(views), stack, views, r,
                             DropRefused(old(stack), conflict, visible))
      ensures r.Ok? ==> !conflict && old(stack) != [] && (old(stack)[|old(stack)| - 1].quot.Some? || visible)
      ensures dropped == old(dropped) +
                if r.Ok? && old(stack)[|old(stack)| - 1].quot.None? then [old(stack)[|old(stack)| - 1].ty] else []
    {
      hide Recorded, RowRecorded, IdsFit, Distinct, Shuffled, Tracked;
      var n := |stack|;
      ghost var was := Here();
      StackSizes(ctx, was, kept);
      if n < 1 { return Err(Underflow(1, 0)); }
      var top := stack[n - 1];
      stack := stack[..n - 1];
      views := Gather(views, ShuffleMap(Shuffle.Drop, n));
      DropIs(ctx, was.stack, was.views, stack, views);
      Reordered(ctx, was, Here(), Tables(aliasSets, survivors), Tables(aliasSets, survivors), Shuffle.Drop, kept);
      if conflict { return Err(ConsumesBorrowed); }
      if top.quot.None? {
        if !visible { return Err(DropNotVisible); }
        dropped := dropped + [top.ty];
      }
      return Ok(true);
    }

    method Swap(ctx: Ctx) returns (r: Result<bool, BorrowError>)
      requires Valid(ctx)
      modifies this`stack, this`views
      ensures Valid(ctx) && ShuffleOutcome(ctx, Shuffle.Swap, old(stack), old(views), stack, views, r, false)
    {
      hide Recorded, RowRecorded, IdsFit, Distinct, Shuffled, Tracked;
      var n := |stack|;
      ghost var was := Here();
      StackSizes(ctx, was, kept);
      if n < 2 { return Err(Underflow(2, n)); }
      stack := stack[n - 1 := stack[n - 2]][n - 2 := stack[n - 1]];
      views := Gather(views, ShuffleMap(Shuffle.Swap, n));
      SwapIs(ctx, was.stack, was.views, stack, views);
      Reordered(ctx, was, Here(), Tables(aliasSets, survivors), Tables(aliasSets, survivors), Shuffle.Swap, kept);
      return Ok(true);
    }

    /** The slot at `k` with a region of its own, if it is an anonymous aggregate. */
    method Located(ctx: Ctx, k: nat, span: nat) returns (s: Slot)
      requires k < |stack| && IdsOk()
      modifies this`aliasSets, this`regions
      ensures IdsOk() && SlotIds(s) && SameValue(s, stack[k]) && old(aliasSets) <= aliasSets
      ensures s.alias == stack[k].alias || (stack[k].alias.None? && ctx.isAggregate(s.ty))
      ensures ctx.isAggregate(s.ty) ==> s.alias.Some?
    {
      s := stack[k];
      if s.alias.None? && ctx.isAggregate(s.ty) {
        var region := regions;
        regions := regions + 1;
        var set_ := InternAliasSet({region});
        s := s.(alias := Some(Alias(set_, span)));
      }
    }

    /** `over` reuses the value, so an anonymous aggregate gets one region that both slots name. */
    method Over(ctx: Ctx, span: nat) returns (r: Result<bool, BorrowError>)
      requires Valid(ctx)
      modifies this`stack, this`views, this`aliasSets, this`regions
      ensures Valid(ctx) && ShuffleOutcome(ctx, Shuffle.Over, old(stack), old(views), stack, views, r, false)
      ensures old(aliasSets) <= aliasSets
    {
      hide Recorded, RowRecorded, IdsFit, Distinct, Shuffled, Tracked, Gather, ShuffleMap, SameValue;
      var n := |stack|;
      ghost var was, before := Here(), Tables(aliasSets, survivors);
      StackSizes(ctx, was, kept);
      if n < 2 { return Err(Underflow(2, n)); }
      if !ctx.isCopy(stack[n - 2].ty) { return Err(CannotCopy(stack[n - 2].ty)); }
      var below := Located(ctx, n - 2, span);
      stack := stack[n - 2 := below] + [below];
      views := Gather(views, ShuffleMap(Shuffle.Over, n));
      OverKeeps(ctx, was, Here(), below, before, Tables(aliasSets, survivors), kept);
      return Ok(true);
    }

    method Rot(ctx: Ctx) returns (r: Result<bool, BorrowError>)
      requires Valid(ctx)
      modifies this`stack, this`views
      ensures Valid(ctx) && ShuffleOutcome(ctx, Shuffle.Rot, old(stack), old(views), stack, views, r, false)
    {
      hide Recorded, RowRecorded, IdsFit, Distinct, Shuffled, Tracked;
      var n := |stack|;
      ghost var was := Here();
      StackSizes(ctx, was, kept);
      if n < 3 { return Err(Underflow(3, n)); }
      var a := stack[n - 3];
      stack := stack[n - 3 := stack[n - 2]];
      stack := stack[n - 2 := stack[n - 1]];
      stack := stack[n - 1 := a];
      views := Gather(views, ShuffleMap(Shuffle.Rot, n));
      RotIs(ctx, was.stack, was.views, stack, views);
      Reordered(ctx, was, Here(), Tables(aliasSets, survivors), Tables(aliasSets, survivors), Shuffle.Rot, kept);
      return Ok(true);
    }

    method CheckShuffle(ctx: Ctx, name: string, conflict: bool, visible: bool, span: nat)
      returns (r: Result<bool, BorrowError>)
      requires Valid(ctx)
      modifies this`stack, this`views, this`dropped, this`aliasSets, this`regions
      ensures Valid(ctx) && old(aliasSets) <= aliasSets
      ensures match ShuffleOf(name)
              case Some(word) =>
                ShuffleOutcome(ctx, word, old(stack), old(views), stack, views, r,
                               word == Shuffle.Drop && DropRefused(old(stack), conflict, visible))
              case None => r == Ok(false) && stack == old(stack) && views == old(views)
      ensures r == Ok(true) ==>
                ShuffleOf(name).Some? && Moves(ctx, old(Here()), ShuffleBy(ShuffleOf(name).value), Here())
    {
      hide Recorded, RowRecorded, IdsFit, Distinct, Shuffled, Tracked;
      match name {
        case "dup" => r := Dup(ctx);
        case "drop" => r := Drop(ctx, conflict, visible);
        case "swap" => r := Swap(ctx);
        case "over" => r := Over(ctx, span);
        case "rot" => r := Rot(ctx);
        case _ => r := Ok(false);
      }
    }

    // ---------------------------------------------------------------- calls

    /** The provenance a call's outputs inherit. An error exactly when two bearing operands are rooted apart
        and something is handed out; otherwise the first rooted derivation, and every region of every
        bearing operand. */
    method CarriedBorrow(ctx: Ctx, operands: seq<Slot>, outputs: seq<Ty>)
      returns (r: Result<(Option<nat>, Option<Alias>), BorrowError>)
      requires forall i :: 0 <= i < |operands| ==>
                 DerivOk(derivs, operands[i].deriv) &&
                   (operands[i].alias.Some? ==> operands[i].alias.value.set_ < |aliasSets|)
      modifies this`aliasSets
      ensures old(aliasSets) <= aliasSets && (old(Distinct(aliasSets)) ==> Distinct(aliasSets))
      ensures r.Err? <==> AnyBears(ctx, outputs) && RootsClash(ctx, derivs, operands)
      ensures r.Err? ==> r.error.DistinctRoots? && r.error.first != r.error.second
      ensures r.Ok? && !AnyBears(ctx, outputs) ==> r.value == (None, None)
      ensures r.Ok? && AnyBears(ctx, outputs) ==> r.value.0 == CarriedDeriv(ctx, derivs, operands)
      ensures r.Ok? && r.value.1.Some? ==> r.value.1.value.set_ < |aliasSets|
      ensures r.Ok? && AnyBears(ctx, outputs) ==> CarriesRegions(ctx, old(aliasSets), operands, aliasSets, r.value.1)
    {
      if !exists i :: 0 <= i < |outputs| && ctx.bears(outputs[i]) {
        return Ok((None, None));
      }
      var chosen: Option<nat>, root: Option<string> := None, None;
      ghost var at := 0;
      for i := 0 to |operands|
        invariant root.None? ==>
                    forall j :: 0 <= j < i && ctx.bears(operands[j].ty) ==> RootOf(derivs, operands[j].deriv).None?
        invariant chosen.None? ==> forall j :: 0 <= j < i && ctx.bears(operands[j].ty) ==> operands[j].deriv == None
        invariant chosen.Some? ==>
                    at < i && ctx.bears(operands[at].ty) && operands[at].deriv == chosen &&
                      RootOf(derivs, chosen) == root
        invariant chosen.Some? && root.Some? ==>
                    forall j :: 0 <= j < at && ctx.bears(operands[j].ty) ==> RootOf(derivs, operands[j].deriv).None?
        invariant chosen.Some? && root.None? ==>
                    forall j :: 0 <= j < at && ctx.bears(operands[j].ty) ==> operands[j].deriv == None
        invariant root.Some? ==> chosen.Some?
        invariant root.Some? ==>
                    forall j :: 0 <= j < i && ctx.bears(operands[j].ty) && RootOf(derivs, operands[j].deriv).Some? ==>
                      RootOf(derivs, operands[j].deriv) == root
      {
        var slot := operands[i];
        if ctx.bears(slot.ty) && slot.deriv.Some? {
          var next := derivs[slot.deriv.value].root;
          if next.None? {
            if chosen.None? { chosen := slot.deriv; at := i; }
          } else if root.None? {
            chosen := slot.deriv;
            root := next;
            at := i;
          } else if root != next {
            assert RootOf(derivs, operands[at].deriv) == root && RootOf(derivs, operands[i].deriv) == next;
            return Err(DistinctRoots(root.value, next.value));
          }
        }
      }
      if chosen.Some? { assert CarriedAt(ctx, derivs, operands, at); }
      CarriedIs(ctx, derivs, operands, chosen);
      var alias := UnionAliases(ctx, operands);
      return Ok((chosen, alias));
    }

    method UnionAliases(ctx: Ctx, operands: seq<Slot>) returns (alias: Option<Alias>)
      requires forall i :: 0 <= i < |operands| ==> operands[i].alias.Some? ==>
                 operands[i].alias.value.set_ < |aliasSets|
      modifies this`aliasSets
      ensures old(aliasSets) <= aliasSets && (old(Distinct(aliasSets)) ==> Distinct(aliasSets))
      ensures alias.Some? ==> alias.value.set_ < |aliasSets|
      ensures CarriesRegions(ctx, old(aliasSets), operands, aliasSets, alias)
    {
      alias := None;
      for i := 0 to |operands|
        invariant old(aliasSets) <= aliasSets && (old(Distinct(aliasSets)) ==> Distinct(aliasSets))
        invariant alias.Some? ==> alias.value.set_ < |aliasSets|
        invariant CarriesRegions(ctx, old(aliasSets), operands[..i], aliasSets, alias)
      {
        hide CarriesRegions;
        ghost var was, before := aliasSets, alias;
        if ctx.bears(operands[i].ty) && operands[i].alias.Some? {
          if alias.None? {
            alias := operands[i].alias;
          } else {
            var set_ := AliasUnion(alias.value.set_, operands[i].alias.value.set_);
            alias := Some(Alias(set_, alias.value.span));
          }
          CarriesAdded(ctx, old(aliasSets), operands, i, was, before, aliasSets, alias.value);
        } else {
          CarriesSkipped(ctx, old(aliasSets), operands, i, aliasSets, alias);
        }
      }
      assert operands[..|operands|] == operands;
    }

    method UnionSurvivors(operands: seq<Slot>) returns (id: Option<nat>)
      requires forall i :: 0 <= i < |operands| ==> operands[i].surviving.Some? ==>
                 operands[i].surviving.value < |survivors|
      modifies this`survivors
      ensures old(survivors) <= survivors && (id.Some? ==> id.value < |survivors|)
      ensures CarriesSurvivors(old(survivors), operands, survivors, id)
    {
      id := None;
      for i := 0 to |operands|
        invariant old(survivors) <= survivors && (id.Some? ==> id.value < |survivors|)
        invariant CarriesSurvivors(old(survivors), operands[..i], survivors, id)
      {
        ghost var was, before := survivors, id;
        id := UnionSurviving(id, operands[i].surviving);
        CarriesOneSurvivor(old(survivors), operands, i, was, before, survivors, id);
      }
      assert operands[..|operands|] == operands;
    }

    /** A word call: the operands leave, every output that bears references inherits the carried provenance.
        `conflict` is the answer of the hazard scan over the operands, `mark` the constructor mark of a nullary
        variant. */
    method CallWord(ctx: Ctx, arity: nat, outputs: seq<Ty>, conflict: bool, mark: Option<nat>,
          ghost outViews: seq<set<string>>)
      returns (r: Result<bool, BorrowError>, ghost alias: Option<Alias>, ghost surviving: Option<nat>)
      requires Valid(ctx) && arity <= |stack| && OutputViews(ctx, outputs, views[|stack| - arity..], outViews)
      modifies this`stack, this`views, this`aliasSets, this`survivors
      ensures Valid(ctx) && old(aliasSets) <= aliasSets && old(survivors) <= survivors
      ensures r.Err? <==>
                conflict || (AnyBears(ctx, outputs) && RootsClash(ctx, derivs, old(stack)[|old(stack)| - arity..]))
      ensures r.Err? ==> Here() == old(Here())
      ensures r.Ok? ==>
                Moves(ctx, old(Here()), CallTo(arity, outputs), Here()) &&
                  views == old(views)[..|old(stack)| - arity] + outViews
      ensures r.Ok? ==>
                Tables(old(aliasSets), old(survivors)).Leaves(ctx, derivs, old(stack)[|old(stack)| - arity..], outputs,
                                                              Tables(aliasSets, survivors), alias, surviving,
                                                              mark, stack[|old(stack)| - arity..])
    {
      hide Recorded, RootsClash, CarriedDeriv, CarriedFrom, CarriesRegions, CarriesSurvivors, OutputViews, RowRecorded,
        AnyBears, Moves, Outputs, CallOutputs, Keeps, IdsFit, Distinct, SameCarried, Tracked;
      alias, surviving := None, None;
      if conflict { return Err(ConsumesBorrowed), alias, surviving; }
      ghost var was := Here();
      StackSizes(ctx, was, kept);
      var base := |stack| - arity;
      var operands := stack[base..];
      OperandIds(Tables(aliasSets, survivors), stack, bound, base);
      var captured := UnionSurvivors(operands);
      var carried := CarriedBorrow(ctx, operands, outputs);
      if carried.Err? {
        IdsGrow(Tables(old(aliasSets), old(survivors)), Tables(aliasSets, survivors), stack, bound);
        return Err(carried.error), alias, surviving;
      }
      var outs := Outputs(ctx, outputs, carried.value.0, carried.value.1, captured, mark);
      alias, surviving := carried.value.1, captured;
      ghost var before := Tables(old(aliasSets), old(survivors));
      SameOutputs(ctx, derivs, operands, outputs, carried.value.0, alias, surviving, mark);
      OutputIds(ctx, outputs, carried.value.0, alias, surviving, mark);
      assert before.Leaves(ctx, derivs, operands, outputs, Tables(aliasSets, survivors), alias, surviving, mark, outs);
      hide Tables.Leaves;
      PlaceOutputs(ctx, arity, outputs, outs, alias, surviving, mark, outViews, before);
      assert stack[base..] == outs;
      return Ok(true), alias, surviving;
    }

    /** The operands leave and the outputs take their place. */
    method PlaceOutputs(ctx: Ctx, arity: nat, outputs: seq<Ty>, outs: seq<Slot>, ghost alias: Option<Alias>,
          ghost surviving: Option<nat>, ghost mark: Option<nat>, ghost outViews: seq<set<string>>, ghost before: Tables)
      requires Recorded(ctx, Here(), Roots(kept)) && Tracked(moves, trail, bound) && Distinct(aliasSets)
      requires IdsFit(before, stack, bound) && before.Upto(Tables(aliasSets, survivors)) && arity <= |stack| == |views|
      requires forall i :: 0 <= i < |outs| ==> SlotIds(outs[i])
      requires OutputViews(ctx, outputs, views[|stack| - arity..], outViews)
      requires AnyBears(ctx, outputs) ==> !RootsClash(ctx, derivs, stack[|stack| - arity..])
      requires outs ==
                 Outputs(ctx, outputs, CarriedDeriv(ctx, derivs, stack[|stack| - arity..]), alias, surviving, mark)
      modifies this`stack, this`views
      ensures Valid(ctx) && Moves(ctx, old(Here()), CallTo(arity, outputs), Here())
      ensures stack == old(stack)[..|old(stack)| - arity] + outs
      ensures views == old(views)[..|old(stack)| - arity] + outViews
    {
      hide Recorded, RootsClash, CarriedDeriv, OutputViews, AnyBears, Moves, Outputs, IdsFit, Distinct, Tracked;
      ghost var was := Here();
      var base := |stack| - arity;
      IdsReplaced(before, Tables(aliasSets, survivors), stack, bound, base, outs, []);
      assert bound + [] == bound;
      stack := stack[..base] + outs;
      views := views[..base] + outViews;
      CallsAre(ctx, was, Here(), arity, outputs, alias, surviving, mark, outViews);
      StepRecorded(ctx, was, CallTo(arity, outputs), Here(), kept);
    }

    // ---------------------------------------------------------------- joining arms

    /** One exit position of two arms that agree on its type. */
    method MergeArmOutputSlot(a: Slot, b: Slot, position: nat) returns (r: Result<Slot, BorrowError>)
      requires DerivOk(derivs, a.deriv) && DerivOk(derivs, b.deriv)
      requires SlotIds(a) && SlotIds(b)
      modifies this`aliasSets, this`survivors
      ensures old(aliasSets) <= aliasSets && old(survivors) <= survivors
      ensures (old(Distinct(aliasSets)) ==> Distinct(aliasSets))
      ensures r.Ok? <==> Joinable(derivs, [a.deriv, b.deriv])
      ensures r.Err? ==> r.error == JoinDisagrees(position)
      ensures r.Ok? ==> Tables(old(aliasSets), old(survivors)).Merges(a, b, Tables(aliasSets, survivors), r.value)
      ensures r.Ok? ==>
                !r.value.literal && r.value.intVal.None? && r.value.variantIdx.None? &&
                  (r.value.alias.Some? <==> a.alias.Some? || b.alias.Some?)
    {
      JoinedPair(a.deriv, b.deriv);
      JoinablePair(derivs, a.deriv, b.deriv);
      var deriv;
      match (a.deriv, b.deriv) {
        case (None, None) =>
          deriv := None;
        case (Some(x), Some(y)) =>
          if derivs[x].Suspension() != derivs[y].Suspension() { return Err(JoinDisagrees(position)); }
          deriv := Some(x);
        case (Some(x), None) =>
          if derivs[x].root.Some? { return Err(JoinDisagrees(position)); }
          deriv := Some(x);
        case (None, Some(y)) =>
          if derivs[y].root.Some? { return Err(JoinDisagrees(position)); }
          deriv := Some(y);
      }
      var alias := a.alias;
      if a.alias.None? {
        alias := b.alias;
      } else if b.alias.Some? {
        var set_ := AliasUnion(a.alias.value.set_, b.alias.value.set_);
        alias := Some(Alias(set_, a.alias.value.span));
      }
      var quot := if a.quot.Some? && a.quot == b.quot then a.quot else None;
      var surviving := UnionSurviving(a.surviving, b.surviving);
      return Ok(Computed(a.ty).(alias := alias, deriv := deriv, quot := quot, surviving := surviving));
    }

    ghost predicate RowOk(row: seq<Slot>) reads this {
      forall i :: 0 <= i < |row| ==> DerivOk(derivs, row[i].deriv) && SlotIds(row[i])
    }

    /** Reconcile a whole exit row with one more arm's, position by position. */
    method MergeRow(a: seq<Slot>, b: seq<Slot>) returns (r: Result<seq<Slot>, BorrowError>)
      requires |a| == |b| && RowOk(a) && RowOk(b)
      modifies this`aliasSets, this`survivors
      ensures old(aliasSets) <= aliasSets && old(survivors) <= survivors
      ensures (old(Distinct(aliasSets)) ==> Distinct(aliasSets))
      ensures r.Ok? <==> forall i :: 0 <= i < |a| ==> Joinable(derivs, [a[i].deriv, b[i].deriv])
      ensures r.Ok? ==> |r.value| == |a| && RowOk(r.value)
      ensures r.Ok? ==>
                forall i :: 0 <= i < |a| ==>
                  Tables(old(aliasSets), old(survivors)).Merges(a[i], b[i], Tables(aliasSets, survivors), r.value[i])
    {
      ghost var before := Tables(aliasSets, survivors);
      var merged: seq<Slot> := [];
      for i := 0 to |a|
        invariant old(aliasSets) <= aliasSets && old(survivors) <= survivors
        invariant (old(Distinct(aliasSets)) ==> Distinct(aliasSets))
        invariant |merged| == i
        invariant forall j :: 0 <= j < i ==> Joinable(derivs, [a[j].deriv, b[j].deriv])
        invariant forall j :: 0 <= j < i ==> before.Merges(a[j], b[j], Tables(aliasSets, survivors), merged[j])
      {
        ghost var now := Tables(aliasSets, survivors);
        var slot := MergeArmOutputSlot(a[i], b[i], i);
        if slot.Err? { return Err(slot.error); }
        ghost var next := Tables(aliasSets, survivors);
        MergesFrom(before, now, next, a[i], b[i], slot.value);
        forall j | 0 <= j < i ensures before.Merges(a[j], b[j], next, merged[j]) {
          MergesGrow(before, now, next, a[j], b[j], merged[j]);
        }
        merged := merged + [slot.value];
      }
      forall i | 0 <= i < |a| ensures DerivOk(derivs, merged[i].deriv) && SlotIds(merged[i]) {
        MergesOk(derivs, before, Tables(aliasSets, survivors), a[i], b[i], merged[i]);
      }
      return Ok(merged);
    }

    /** The arm loop of an eliminator call: each arm's exit row (its body is checked elsewhere) in written
        order, the first one setting the baseline. Accepted exactly when no arm lets a variant out, all arms
        leave the same types, and every position can be joined. */
    method JoinArms(ctx: Ctx, row: seq<Slot>, arms: seq<seq<Slot>>) returns (r: Result<seq<Slot>, BorrowError>)
      requires forall k :: 0 <= k < |arms| ==> RowOk(arms[k])
      modifies this`aliasSets, this`survivors
      ensures old(aliasSets) <= aliasSets && old(survivors) <= survivors
      ensures (old(Distinct(aliasSets)) ==> Distinct(aliasSets))
      ensures r.Ok? <==> ArmsAgree(ctx, derivs, arms)
      ensures r.Ok? && arms == [] ==> r.value == row
      ensures r.Ok? && arms != [] ==>
                RowOk(r.value) && IsJoined(r.value, arms) &&
                  JoinedTables(Tables(old(aliasSets), old(survivors)), arms, Tables(aliasSets, survivors), r.value)
    {
      hide ArmsAgree, IsJoined, Joinable, Column, NoEscape, TypesOf, JoinedTables, Tables.Merges;
      ghost var start := Tables(aliasSets, survivors);
      var baseline: Option<seq<Slot>> := None;
      for k := 0 to |arms|
        invariant old(aliasSets) <= aliasSets && old(survivors) <= survivors
        invariant (old(Distinct(aliasSets)) ==> Distinct(aliasSets))
        invariant forall i :: 0 <= i < |arms| ==> RowOk(arms[i])
        invariant k == 0 <==> baseline.None?
        invariant baseline.Some? ==>
                    ArmsAgree(ctx, derivs, arms[..k]) && RowOk(baseline.value) && IsJoined(baseline.value, arms[..k])
        invariant baseline.Some? ==> JoinedTables(start, arms[..k], Tables(aliasSets, survivors), baseline.value)
      {
        var arm := arms[k];
        assert arms[..k + 1] == arms[..k] + [arm];
        AgreePrefix(ctx, derivs, arms, k + 1);
        var escaping := FirstVariant(ctx, arm);
        if escaping.Some? {
          ArmEscapes(ctx, derivs, arms[..k], arm);
          return Err(VariantEscapes(escaping.value));
        }
        if baseline.None? {
          OneArm(ctx, derivs, arm);
          assert arms[..k + 1] == [arm];
          OneArmTables(start, Tables(aliasSets, survivors), arm);
          baseline := Some(arm);
        } else {
          var expected := baseline.value;
          var mismatch := ArmExitRowMismatch(expected, arm);
          if mismatch.Some? {
            TypesDisagree(ctx, derivs, arms[..k], arm, expected);
            return Err(ArmTypesDiffer(mismatch.value.0, mismatch.value.1));
          }
          OneMoreArm(ctx, derivs, arms[..k], arm, expected);
          ghost var before := Tables(aliasSets, survivors);
          var merged := MergeRow(expected, arm);
          if merged.Err? { return Err(merged.error); }
          MergedRow(before, Tables(aliasSets, survivors), expected, arm, merged.value);
          MergedIsJoined(ctx, derivs, arms[..k], arm, expected, merged.value);
          MergedTables(start, arms[..k], before, expected, arm, Tables(aliasSets, survivors), merged.value);
          baseline := Some(merged.value);
        }
      }
      assert arms[..|arms|] == arms;
      if baseline.None? { NoArms(ctx, derivs); }
      return Ok(if baseline.Some? then baseline.value else row);
    }

    /** The type of the first slot of an exit row that would let a variant out. */
    method FirstVariant(ctx: Ctx, arm: seq<Slot>) returns (r: Option<Ty>)
      ensures r.None? <==> NoEscape(ctx, arm)
      ensures r.Some? ==> ctx.isVariant(r.value) && r.value in TypesOf(arm)
    {
      for i := 0 to |arm|
        invariant forall j :: 0 <= j < i ==> !ctx.isVariant(arm[j].ty)
      {
        if ctx.isVariant(arm[i].ty) {
          assert TypesOf(arm)[i] == arm[i].ty;
          return Some(arm[i].ty);
        }
      }
      return None;
    }

    /** An eliminator call: the scrutinee leaves and the joined row replaces the stack, in the caller's scope and
        with the joined move-state. The arms are runs, walked one after the other from the caller's state `at` over
        the records that have grown to this walker's. At run time one arm ran, whichever it was. A place stays
        followed when every arm keeps its root and the one that ran moved it for no local. */
    method EliminatorCall(ctx: Ctx, arms: seq<seq<Slot>>, armMoves: seq<States>, ghost at: State, ghost runs: seq<Run>,
          ghost ends: seq<State>, ghost taken: nat, ghost trails: seq<Trail>)
      returns (r: Result<bool, BorrowError>)
      requires Valid(ctx) && |stack| > 0 && Recorded(ctx, at, Roots(kept)) && at.(derivs := derivs) == Here()
      requires |runs| == |ends| == |armMoves| == |trails| && arms == Rows(ends)
      requires forall k :: 0 <= k < |trails| ==>
                 Accepted(moves, trails[k], armMoves[k]) && armMoves[k].Keys == moves.Keys
      requires derivs == RecordsBefore(at, ends, |ends|)
      requires forall k :: 0 <= k < |runs| ==>
                 && ArmRan(ctx, at, RecordsBefore(at, ends, k), runs[k], ends[k]) && SameNames(at.bound, ends[k].bound)
      requires forall k :: 0 <= k < |arms| ==> forall i :: 0 <= i < |arms[k]| ==> SlotIds(arms[k][i])
      requires arms != [] ==> taken < |arms|
      modifies this`stack, this`views, this`boundViews, this`aliasSets, this`survivors, this`moves, this`kept,
               this`trail
      ensures Valid(ctx)
      ensures r.Ok? <==> ArmsAgree(ctx, derivs, arms)
      ensures r.Ok? ==> forall k, i :: 0 <= k < |arms| && 0 <= i < |arms[k]| ==> !ctx.isVariant(arms[k][i].ty)
      ensures r.Err? ==> Here() == old(Here()) && moves == old(moves) && kept == old(kept) && trail == old(trail)
      ensures r.Ok? && arms == [] ==>
                && moves == old(moves) && kept == old(kept) && trail == old(trail)
                && Here() ==
                  old(Here()).(stack := old(stack)[..|old(stack)| - 1], views := old(views)[..|old(stack)| - 1])
      ensures r.Ok? && arms != [] ==>
                && Eliminates(ctx, Eliminate(Start, at, runs, ends, taken), Here())
                && JoinedTables(Tables(old(aliasSets), old(survivors)), arms, Tables(aliasSets, survivors), stack)
                && JoinOf(armMoves, moves) && trail == On(old(trail), old(moves), Branch(trails, armMoves))
                && kept == iset p | p in KeptByAll(ctx, runs, old(kept)) && ScopeKeepsRoot(at, ends[taken], p)
    {
      hide ArmsAgree, IsJoined, RowRecorded, JoinedTables, Recorded, JoinOf, ArmRan, RunKeeps, Eliminates,
        RecordsBefore, Rows, ScopeKeepsRoot, KeptByAll, Tracked, Accepted;
      ghost var was := Here();
      StackSizes(ctx, was, kept);
      var base := |stack| - 1;
      ghost var call := Eliminate(Start, at, runs, ends, taken);
      ArmsFit(ctx, call, derivs, kept);
      var joined := JoinArms(ctx, stack[..base], arms);
      if joined.Err? { return Err(joined.error); }
      NoVariantLeaves(ctx, derivs, arms);
      if arms == [] {
        stack := joined.value;
        views := views[..base];
        CutRecorded(ctx, was, base, kept);
      } else {
        LandArms(ctx, joined.value, armMoves, call, trails);
      }
      return Ok(true);
    }

    /** The joined row and the joined move-state take the place of what was there. */
    method LandArms(ctx: Ctx, row: seq<Slot>, armMoves: seq<States>, ghost call: Run, ghost trails: seq<Trail>)
      requires Valid(ctx) && call.Eliminate? && call.before == Start && Recorded(ctx, call.at, Roots(kept))
      requires call.at.(derivs := derivs) == Here() && derivs == RecordsBefore(call.at, call.ends, |call.ends|)
      requires call.taken < |call.ends| == |call.arms| == |armMoves| == |trails|
      requires forall k :: 0 <= k < |trails| ==>
                 Accepted(moves, trails[k], armMoves[k]) && armMoves[k].Keys == moves.Keys
      requires forall k :: 0 <= k < |call.arms| ==>
                 && ArmRan(ctx, call.at, RecordsBefore(call.at, call.ends, k), call.arms[k], call.ends[k])
                 && SameNames(call.at.bound, call.ends[k].bound)
      requires ArmsAgree(ctx, derivs, Rows(call.ends)) && IsJoined(row, Rows(call.ends)) && RowOk(row)
      modifies this`stack, this`views, this`boundViews, this`moves, this`kept, this`trail
      ensures Valid(ctx) && stack == row && Eliminates(ctx, call, Here())
      ensures JoinOf(armMoves, moves) && trail == On(old(trail), old(moves), Branch(trails, armMoves))
      ensures kept == iset p | p in KeptByAll(ctx, call.arms, old(kept)) &&
                               ScopeKeepsRoot(call.at, call.ends[call.taken], p)
    {
      hide ArmsAgree, IsJoined, RowRecorded, Recorded, JoinOf, ArmRan, RunKeeps, Eliminates, RecordsBefore, Rows,
        ScopeKeepsRoot, KeptByAll, Tracked, Accepted;
      ghost var inner := KeptByAll(ctx, call.arms, kept);
      KeptByAllIsKept(ctx, call.arms, kept);
      FewerRoots(ctx, call.at, kept, inner);
      var joinedMoves := JoinAll(armMoves);
      BranchTracked(moves, trail, bound, trails, armMoves, joinedMoves.value);
      trail := On(trail, moves, Branch(trails, armMoves));
      moves := joinedMoves.value;
      stack := row;
      views, boundViews := call.ends[call.taken].views, call.ends[call.taken].boundViews;
      kept := iset p | p in inner && ScopeKeepsRoot(call.at, call.ends[call.taken], p);
      ArmsJoined(ctx, call, Here(), inner);
    }
  }

  /** Every id on the stack and in scope is in the tables. */
  ghost predicate IdsFit(t: Tables, stack: seq<Slot>, bound: seq<Binding>) {
    (forall i :: 0 <= i < |stack| ==> t.Fit(stack[i])) && (forall i :: 0 <= i < |bound| ==> BindingFits(t, bound[i]))
  }

  lemma IdsPushed(t: Tables, stack: seq<Slot>, bound: seq<Binding>, slot: Slot)
    requires IdsFit(t, stack, bound) && t.Fit(slot)
    ensures IdsFit(t, stack + [slot], bound)
  {
  }

  /** The value of a local. */
  lemma LocalFits(t: Tables, stack: seq<Slot>, bound: seq<Binding>, i: nat, slot: Slot)
    requires IdsFit(t, stack, bound) && i < |bound| && slot.surviving == bound[i].surviving
    requires slot.alias.Some? ==> bound[i].aliases == Some(slot.alias.value.set_)
    ensures t.Fit(slot)
  {
    assert BindingFits(t, bound[i]);
  }

  ghost predicate BindingFits(t: Tables, b: Binding) {
    (b.aliases.Some? ==> b.aliases.value < |t.regions|) && (b.surviving.Some? ==> b.surviving.value < |t.survivors|)
  }

  lemma SlotFits(t: Tables, stack: seq<Slot>, bound: seq<Binding>, i: nat)
    requires IdsFit(t, stack, bound) && i < |stack|
    ensures t.Fit(stack[i])
  {
  }

  lemma IdsGrow(t: Tables, t2: Tables, stack: seq<Slot>, bound: seq<Binding>)
    requires IdsFit(t, stack, bound) && t.Upto(t2)
    ensures IdsFit(t2, stack, bound)
  {
  }

  lemma OperandIds(t: Tables, stack: seq<Slot>, bound: seq<Binding>, base: nat)
    requires IdsFit(t, stack, bound) && base <= |stack|
    ensures forall i :: 0 <= i < |stack[base..]| ==> t.Fit(stack[base..][i])
  {
  }

  lemma IdsReplaced(t: Tables, t2: Tables, stack: seq<Slot>, bound: seq<Binding>, k: nat, outs: seq<Slot>,
        added: seq<Binding>)
    requires IdsFit(t, stack, bound) && t.Upto(t2) && k <= |stack|
    requires forall i :: 0 <= i < |outs| ==> t2.Fit(outs[i])
    requires forall i :: 0 <= i < |added| ==> BindingFits(t2, added[i])
    ensures IdsFit(t2, stack[..k] + outs, bound + added)
  {
  }

  /** The container with the record it keeps: the stored one, or its own if that is none. */
  function Holding(b: Binding, value: Slot): Binding { if value.deriv.Some? then b.(deriv := value.deriv) else b }

  /** The hazard scan found a borrow, or the value has a drop that is not visible here. */
  predicate DropRefused(stack: seq<Slot>, conflict: bool, visible: bool) {
    conflict || (stack != [] && stack[|stack| - 1].quot.None? && !visible)
  }

  ghost function LocalRegions(sets: seq<set<nat>>, b: Binding): set<nat> {
    if b.aliases.Some? && b.aliases.value < |sets| then sets[b.aliases.value] else {}
  }

  /** Whether a value may be stored, in the order the checks are made. */
  function StoreOutcome(ctx: Ctx, s: State, isRef: bool, fits: bool): Result<bool, BorrowError> {
    var n := |s.stack|;
    if n < 2 then Err(Underflow(2, n))
    else
      var receiver, value := s.stack[n - 2], s.stack[n - 1];
      var c := Container(s, receiver);
      if isRef && ctx.bears(value.ty) && !InFrame(s, receiver) then Err(StoredViewEscapes(value.ty))
      else if isRef && ctx.bears(value.ty) && StoreClash(s, receiver, value) then
        Err(DistinctRoots(RootOf(s.derivs, s.bound[c].deriv).value, RootOf(s.derivs, value.deriv).value))
      else if !isRef || !fits then Err(NotStorable(receiver.ty, value.ty))
      else Ok(true)
  }

  /** The record is rooted at a local that is in scope. */
  ghost predicate OwnedHere(s: State, d: Option<nat>) {
    d.Some? && d.value < |s.derivs| && exists i :: 0 <= i < |s.bound| && s.derivs[d.value].root == Some(s.bound[i].name)
  }

  /** Two records that view one place each view the same one. */
  predicate OneRoot(derivs: seq<Deriv>, a: Option<nat>, b: Option<nat>) {
    a.Some? && a.value < |derivs| && b.Some? && b.value < |derivs| ==>
      derivs[a.value].root.None? || derivs[b.value].root.None? || derivs[a.value].root == derivs[b.value].root
  }

  /** The first local of this name holds no view of another place than `d` does. */
  ghost predicate FitsLocal(s: State, place: string, d: Option<nat>) {
    forall i :: 0 <= i < |s.bound| && s.bound[i].name == place ==>
      (forall j :: 0 <= j < i ==> s.bound[j].name != place) ==> OneRoot(s.derivs, s.bound[i].deriv, d)
  }

  /** A store is accepted exactly when the types fit and, if the value bears references, the receiver is rooted at a
      local and the local it was taken from holds no view of another place. */
  lemma StoreAcceptedExactly(ctx: Ctx, s: State, isRef: bool, fits: bool)
    ensures StoreOutcome(ctx, s, isRef, fits).Ok? <==>
              && |s.stack| >= 2 && isRef && fits
              && var receiver, value := s.stack[|s.stack| - 2].deriv, s.stack[|s.stack| - 1];
                 ctx.bears(value.ty) ==>
                   OwnedHere(s, receiver) && FitsLocal(s, s.derivs[receiver.value].place, value.deriv)
  {
    if |s.stack| >= 2 {
      var receiver, value := s.stack[|s.stack| - 2], s.stack[|s.stack| - 1];
      FrameIs(s, receiver);
      if OwnedHere(s, receiver.deriv) { ClashIs(s, receiver, value); }
      hide InFrame, StoreClash, OwnedHere, FitsLocal;
    }
  }

  lemma FrameIs(s: State, receiver: Slot)
    ensures InFrame(s, receiver) <==> OwnedHere(s, receiver.deriv)
  {
    if InFrame(s, receiver) {
      assert s.bound[Local(s.bound, s.derivs[receiver.deriv.value].root.value)].name ==
             s.derivs[receiver.deriv.value].root.value;
    }
  }

  lemma ClashIs(s: State, receiver: Slot, value: Slot)
    requires receiver.deriv.Some? && receiver.deriv.value < |s.derivs|
    ensures StoreClash(s, receiver, value) <==> !FitsLocal(s, s.derivs[receiver.deriv.value].place, value.deriv)
  {
    var place := s.derivs[receiver.deriv.value].place;
    var c := Local(s.bound, place);
    if c < |s.bound| { assert s.bound[c].name == place && forall j :: 0 <= j < c ==> s.bound[j].name != place; }
  }

  /** A stored value that bears references brings its regions to the container, and only there. */
  ghost predicate RegionsBooked(ctx: Ctx, s: State, before: seq<set<nat>>, bound: seq<Binding>, after: seq<set<nat>>) {
    |bound| == |s.bound| && 2 <= |s.stack| &&
    var value, c := s.stack[|s.stack| - 1], Container(s, s.stack[|s.stack| - 2]);
    forall i :: 0 <= i < |bound| ==>
      if i == c && ctx.bears(value.ty) then
        LocalRegions(after, bound[i]) == LocalRegions(before, s.bound[i]) + Regions(before, value.alias)
      else bound[i] == s.bound[i]
  }

  predicate Suspends(derivs: seq<Deriv>, d: Option<nat>, name: string) {
    d.Some? && d.value < |derivs| && derivs[d.value].reborrow && derivs[d.value].place == name
  }

  /** A live reborrow was taken through `name`. */
  ghost predicate ReborrowedThrough(s: State, live: set<string>, name: string) {
    exists id: nat :: LiveRecord(s, live, id) && s.derivs[id].reborrow && s.derivs[id].place == name
  }

  lemma SuspendMeans(s: State, live: set<string>, name: string)
    ensures ReborrowedThrough(s, live, name) <==>
              (exists i :: 0 <= i < |s.stack| && Suspends(s.derivs, s.stack[i].deriv, name)) ||
                exists i :: 0 <= i < |s.bound| && s.bound[i].name in live && Suspends(s.derivs, s.bound[i].deriv, name)
  {
    if i :| 0 <= i < |s.stack| && Suspends(s.derivs, s.stack[i].deriv, name) {
      assert LiveRecord(s, live, s.stack[i].deriv.value);
    }
    if i :| 0 <= i < |s.bound| && s.bound[i].name in live && Suspends(s.derivs, s.bound[i].deriv, name) {
      assert LiveRecord(s, live, s.bound[i].deriv.value);
    }
  }

  /** Whether a value may be read, in the order the checks are made. */
  ghost predicate ReadVerdict(ctx: Ctx, s: State, moves: States, live: set<string>, name: string,
        r: Result<bool, BorrowError>)
  {
    Local(s.bound, name) < |s.bound| &&
    var b := s.bound[Local(s.bound, name)];
    if ctx.isLinear(b.ty) && Lent(s, live, name, false) then r == Err(ConsumesBorrowed)
    else if name in moves && !moves[name].Live? then r == Err(UseAfterMove(name, moves[name].site))
    else if b.aliases.Some? && Lent(s, live, name, true) then r == Err(Conflict(name))
    else r == Ok(true)
  }

  // ---------------------------------------------------------------- the move-states

  /** The move-states are those of linear locals in scope, and an accepted trail leads to them. */
  ghost predicate Tracked(moves: States, trail: Trail, bound: seq<Binding>) {
    Accepted(map[], trail, moves) && forall n :: n in moves ==> Local(bound, n) < |bound|
  }

  function NamesOf(bound: seq<Binding>): (r: seq<string>)
    ensures |r| == |bound| && forall i :: 0 <= i < |bound| ==> r[i] == bound[i].name
  {
    seq(|bound|, i requires 0 <= i < |bound| => bound[i].name)
  }

  function Linear(ctx: Ctx, values: seq<Slot>): (r: seq<bool>)
    ensures |r| == |values| && forall i :: 0 <= i < |values| ==> r[i] == ctx.isLinear(values[i].ty)
  {
    seq(|values|, i requires 0 <= i < |values| => ctx.isLinear(values[i].ty))
  }

  lemma ReadTracked(ctx: Ctx, s: State, moves: States, live: set<string>, name: string, r: Result<bool, BorrowError>,
        span: nat, trail: Trail)
    requires ReadVerdict(ctx, s, moves, live, name, r) && r.Ok? && Tracked(moves, trail, s.bound)
    ensures r == Ok(true)
    ensures Tracked(if name in moves then moves[name := Moved(span)] else moves, On(trail, moves, Read(name, span)),
                    s.bound)
  {
    hide Local, Lent;
    var after := if name in moves then moves[name := Moved(span)] else moves;
    assert name in moves ==> moves[name].Live?;
    assert Steps(moves, Read(name, span), after);
  }

  lemma EntersTracked(ctx: Ctx, moves: States, trail: Trail, bound: seq<Binding>, names: seq<string>,
        values: seq<Slot>, added: seq<Binding>)
    requires Tracked(moves, trail, bound) && Distinct(names) && |added| == |names| == |values|
    requires forall i :: 0 <= i < |names| ==> Local(bound, names[i]) == |bound| && added[i].name == names[i]
    ensures var r := EnterAll(trail, moves, names, Linear(ctx, values)); Tracked(r.1, r.0, bound + added)
  {
    hide Accepted, Distinct, EnterAll;
    EnterAllAccepted(map[], trail, moves, names, Linear(ctx, values));
    var r := EnterAll(trail, moves, names, Linear(ctx, values));
    forall n | n in r.1 ensures Local(bound + added, n) < |bound + added| {
      if n in moves {
        assert (bound + added)[Local(bound, n)].name == n;
      } else {
        var i :| 0 <= i < |names| && names[i] == n;
        assert (bound + added)[|bound| + i].name == n;
      }
    }
  }

  /** What binding does to the move-states. */
  lemma EntersFresh(ctx: Ctx, moves: States, trail: Trail, bound: seq<Binding>, names: seq<string>, values: seq<Slot>)
    requires Tracked(moves, trail, bound) && |names| == |values|
    requires forall i :: 0 <= i < |names| ==> Local(bound, names[i]) == |bound|
    ensures var linear, after := Linear(ctx, values), EnterAll(trail, moves, names, Linear(ctx, values)).1;
            && (forall n :: n in after <==> n in moves || exists i :: 0 <= i < |names| && names[i] == n && linear[i])
            && (forall n :: n in after ==> after[n] == if n in moves then moves[n] else Live)
  {
    hide Accepted, Local;
    EntersAre(trail, moves, names, Linear(ctx, values));
  }

  lemma {:induction false} EntersAre(trail: Trail, moves: States, names: seq<string>, linear: seq<bool>)
    requires |names| == |linear| && forall i :: 0 <= i < |names| ==> names[i] !in moves
    ensures var after := EnterAll(trail, moves, names, linear).1;
            && (forall n :: n in after <==> n in moves || exists i :: 0 <= i < |names| && names[i] == n && linear[i])
            && (forall n :: n in after ==> after[n] == if n in moves then moves[n] else Live)
    decreases |names|
  {
    if names != [] {
      var k := |names| - 1;
      EntersAre(trail, moves, names[..k], linear[..k]);
    }
  }

  lemma EnterNone(t: Trail, m: States)
    ensures EnterAll(t, m, [], []) == (t, m)
  {
  }

  lemma EnterSnoc(t: Trail, m: States, names: seq<string>, linear: seq<bool>, i: nat)
    requires |names| == |linear| && i < |names|
    ensures var before := EnterAll(t, m, names[..i], linear[..i]).1;
            EnterAll(t, m, names[..i + 1], linear[..i + 1]).1 == if linear[i] then before[names[i] := Live] else before
  {
    assert names[..i + 1][..i] == names[..i] && linear[..i + 1][..i] == linear[..i];
  }

  lemma NotLeft(bound: seq<Binding>, depth: nat, n: string)
    requires depth <= |bound| && n !in NamesOf(bound[depth..]) && Local(bound, n) < |bound|
    ensures Local(bound, n) < depth
  {
    var left := NamesOf(bound[depth..]);
    assert forall j :: depth <= j < |bound| ==> bound[j].name == left[j - depth];
  }

  lemma LeavesTracked(moves: States, trail: Trail, bound: seq<Binding>, depth: nat)
    requires Tracked(moves, trail, bound) && depth <= |bound|
    ensures var left := NamesOf(bound[depth..]);
            Tracked(map n | n in moves && n !in left :: moves[n], ExitAll(trail, moves, left).0, bound[..depth])
  {
    hide Accepted, ExitAll;
    var left := NamesOf(bound[depth..]);
    ExitAllAccepted(map[], trail, moves, left);
    forall n | n in moves && n !in left ensures Local(bound[..depth], n) < |bound[..depth]| {
      NotLeft(bound, depth, n);
      assert bound[..depth][Local(bound, n)].name == n;
    }
  }

  /** Wherever a walk has led: on no path through what was walked is a linear local read twice without leaving its
      scope in between. */
  lemma LocalsAreReadOnce(w: Walker, ctx: Ctx, es: seq<Event>, x: string, i: nat, j: nat)
    requires w.Valid(ctx) && Executes(w.trail, es) && i < j < |es|
    requires es[i].Read? && es[j].Read? && es[i].name == es[j].name == x && Reads(es[..i], x).Some?
    ensures exists k :: i < k < j && (es[k] == Exit(x) || (es[k].Enter? && es[k].name == x))
  {
    hide Accepted, Executes, Reads, Recorded, IdsFit;
    ReadAtMostOnce(w.trail, w.moves, es, x, i, j);
  }

  /** A local that leaves without a leak was read exactly once on every path, if it is linear. */
  lemma LeavesConsumed(moves: States, trail: Trail, bound: seq<Binding>, depth: nat)
    requires Tracked(moves, trail, bound)
    requires forall i :: depth <= i < |bound| && bound[i].name in moves ==> moves[bound[i].name].Moved?
    ensures forall i, es :: depth <= i < |bound| && Executes(trail, es) ==> Reads(es, bound[i].name) in {None, Some(1)}
  {
    hide Accepted, Executes, Reads;
    forall i, es | depth <= i < |bound| && Executes(trail, es)
      ensures Reads(es, bound[i].name) in {None, Some(1)}
    {
      ConsumedIsReadOnce(trail, moves, es, bound[i].name);
    }
  }

  lemma BranchTracked(moves: States, trail: Trail, bound: seq<Binding>, trails: seq<Trail>, ends: seq<States>,
        joined: States)
    requires Tracked(moves, trail, bound) && |trails| == |ends| && JoinOf(ends, joined)
    requires forall k :: 0 <= k < |trails| ==> Accepted(moves, trails[k], ends[k]) && ends[k].Keys == moves.Keys
    ensures Tracked(joined, On(trail, moves, Branch(trails, ends)), bound)
  {
    hide Local, NameJoin;
    assert Steps(moves, Branch(trails, ends), joined);
  }

  lemma SameNamesTracked(moves: States, trail: Trail, bound: seq<Binding>, bound2: seq<Binding>)
    requires Tracked(moves, trail, bound) && |bound2| == |bound|
    requires forall i :: 0 <= i < |bound| ==> bound2[i].name == bound[i].name
    ensures Tracked(moves, trail, bound2)
  {
    hide Accepted;
    forall n | n in moves ensures Local(bound2, n) < |bound2| {
      assert bound2[Local(bound, n)].name == n;
    }
  }

  // ---------------------------------------------------------------- what a valid state gives

  lemma StackSizes(ctx: Ctx, s: State, kept: iset<string>)
    requires Recorded(ctx, s, Roots(kept))
    ensures |s.stack| == |s.views| && |s.bound| == |s.boundViews|
    ensures RowRecorded(ctx, s.derivs, s.stack, s.views, Roots(kept))
    ensures forall i :: 0 <= i < |s.stack| ==> DerivOk(s.derivs, s.stack[i].deriv)
  {
    RowSizes(ctx, s.derivs, s.stack, s.views, Roots(kept));
    RowSizes(ctx, s.derivs, Held(s.bound), s.boundViews, Roots(kept));
  }

  lemma ScopeSizes(ctx: Ctx, s: State, kept: iset<string>)
    requires Recorded(ctx, s, Roots(kept))
    ensures |s.bound| == |s.boundViews|
  {
  }

  lemma HeldOk(ctx: Ctx, s: State, name: string, kept: iset<string>)
    requires Recorded(ctx, s, Roots(kept))
    ensures DerivOk(s.derivs, HeldDeriv(s.bound, name)) && |s.stack| == |s.views|
  {
    RowSizes(ctx, s.derivs, Held(s.bound), s.boundViews, Roots(kept));
    var i := Local(s.bound, name);
    if i < |s.bound| { assert Held(s.bound)[i].deriv == s.bound[i].deriv; }
  }

  lemma OutputIds(ctx: Ctx, outputs: seq<Ty>, chosen: Option<nat>, alias: Option<Alias>, surviving: Option<nat>,
        mark: Option<nat>)
    ensures |Outputs(ctx, outputs, chosen, alias, surviving, mark)| == |outputs|
    ensures forall i :: 0 <= i < |outputs| ==>
              var o := Outputs(ctx, outputs, chosen, alias, surviving, mark)[i];
              (o.alias.Some? ==> o.alias == alias) && (o.surviving.Some? ==> o.surviving == surviving)
  {
  }

  /** With no bearing output the carried derivation does not matter. */
  lemma SameOutputs(ctx: Ctx, derivs: seq<Deriv>, operands: seq<Slot>, outputs: seq<Ty>, chosen: Option<nat>,
        alias: Option<Alias>, surviving: Option<nat>, mark: Option<nat>)
    requires if AnyBears(ctx, outputs) then chosen == CarriedDeriv(ctx, derivs, operands) else chosen == None
    ensures Outputs(ctx, outputs, chosen, alias, surviving, mark) ==
              Outputs(ctx, outputs, CarriedDeriv(ctx, derivs, operands), alias, surviving, mark)
  {
    if !AnyBears(ctx, outputs) {
      assert forall i :: 0 <= i < |outputs| ==> !ctx.bears(outputs[i]);
    }
  }

  lemma CallsAre(ctx: Ctx, s: State, t: State, arity: nat, outputs: seq<Ty>, alias: Option<Alias>,
        surviving: Option<nat>, mark: Option<nat>, outViews: seq<set<string>>)
    requires arity <= |s.stack| == |s.views|
    requires var base := |s.stack| - arity;
             && OutputViews(ctx, outputs, s.views[base..], outViews)
             && (AnyBears(ctx, outputs) ==> !RootsClash(ctx, s.derivs, s.stack[base..]))
             && t == s.(stack := s.stack[..base] +
                        Outputs(ctx, outputs, CarriedDeriv(ctx, s.derivs, s.stack[base..]), alias, surviving, mark),
                          views := s.views[..base] + outViews)
    ensures Moves(ctx, s, CallTo(arity, outputs), t)
  {
    hide RootsClash, CarriedDeriv, AnyBears, SameCarried;
    var base := |s.stack| - arity;
    var outs := Outputs(ctx, outputs, CarriedDeriv(ctx, s.derivs, s.stack[base..]), alias, surviving, mark);
    assert t.stack[base..] == outs && t.views[base..] == outViews;
    assert t.stack[..base] == s.stack[..base] && t.views[..base] == s.views[..base];
  }

  /** Every arm leaves slots with records. */
  lemma ArmsOk(ctx: Ctx, run: Run, derivs: seq<Deriv>, kept: iset<string>)
    requires run.Eliminate? && |run.arms| == |run.ends| && derivs == RecordsBefore(run.at, run.ends, |run.ends|)
    requires Recorded(ctx, run.at, Roots(kept))
    requires forall k :: 0 <= k < |run.arms| ==>
               && ArmRan(ctx, run.at, RecordsBefore(run.at, run.ends, k), run.arms[k], run.ends[k])
               && RunKeeps(ctx, run.arms[k], Roots(kept))
    ensures forall k, i :: 0 <= k < |run.ends| && 0 <= i < |Rows(run.ends)[k]| ==>
              DerivOk(derivs, Rows(run.ends)[k][i].deriv)
  {
    hide Recorded, RowRecorded, ArmRan, RunKeeps, RecordsBefore;
    ArmsRecorded(ctx, run, |run.arms|, Roots(kept));
    forall k | 0 <= k < |run.ends|
      ensures forall i :: 0 <= i < |run.ends[k].stack| ==> DerivOk(derivs, run.ends[k].stack[i].deriv)
    {
      StackSizes(ctx, run.ends[k], kept);
    }
  }

  lemma ArmsFit(ctx: Ctx, run: Run, derivs: seq<Deriv>, kept: iset<string>)
    requires run.Eliminate? && |run.arms| == |run.ends| && derivs == RecordsBefore(run.at, run.ends, |run.ends|)
    requires Recorded(ctx, run.at, Roots(kept))
    requires forall k :: 0 <= k < |run.arms| ==>
               ArmRan(ctx, run.at, RecordsBefore(run.at, run.ends, k), run.arms[k], run.ends[k])
    ensures forall k, i :: 0 <= k < |run.ends| && 0 <= i < |Rows(run.ends)[k]| ==>
              DerivOk(derivs, Rows(run.ends)[k][i].deriv)
  {
    hide Recorded, RowRecorded, ArmRan, RunKeeps, RecordsBefore, KeptByAll;
    KeptByAllIsKept(ctx, run.arms, kept);
    FewerRoots(ctx, run.at, kept, KeptByAll(ctx, run.arms, kept));
    ArmsOk(ctx, run, derivs, KeptByAll(ctx, run.arms, kept));
  }

  lemma NoVariantLeaves(ctx: Ctx, derivs: seq<Deriv>, arms: seq<seq<Slot>>)
    requires ArmsAgree(ctx, derivs, arms)
    ensures forall k, i :: 0 <= k < |arms| && 0 <= i < |arms[k]| ==> !ctx.isVariant(arms[k][i].ty)
  {
    hide Joinable, Column;
    forall k | 0 <= k < |arms| ensures forall i :: 0 <= i < |arms[k]| ==> !ctx.isVariant(arms[k][i].ty) {
      assert NoEscape(ctx, arms[k]);
    }
  }

  lemma ScopeKept(at: State, end: State, kept: iset<string>)
    requires forall p :: p in kept ==> ScopeKeepsRoot(at, end, p)
    ensures ScopeKeeps(at, end, Roots(kept))
  {
  }

  /** The joined row in the caller's scope is where the eliminator call leads. */
  lemma ArmsJoined(ctx: Ctx, run: Run, t: State, kept: iset<string>)
    requires run.Eliminate? && run.taken < |run.ends| == |run.arms|
    requires t.derivs == RecordsBefore(run.at, run.ends, |run.ends|)
    requires Recorded(ctx, run.at, Roots(kept))
    requires forall k :: 0 <= k < |run.arms| ==>
               && ArmRan(ctx, run.at, RecordsBefore(run.at, run.ends, k), run.arms[k], run.ends[k])
               && SameNames(run.at.bound, run.ends[k].bound) && RunKeeps(ctx, run.arms[k], Roots(kept))
    requires t.bound == run.at.bound && t.boundViews == run.ends[run.taken].boundViews
    requires t.views == run.ends[run.taken].views
    requires ArmsAgree(ctx, t.derivs, Rows(run.ends)) && IsJoined(t.stack, Rows(run.ends))
    ensures Eliminates(ctx, run, t)
    ensures Recorded(ctx, t, Roots(iset p | p in kept && ScopeKeepsRoot(run.at, run.ends[run.taken], p)))
  {
    EliminatesIs(ctx, run, t);
    hide *;
    ArmsRecorded(ctx, run, |run.arms|, Roots(kept));
    EndsFewer(ctx, run, t, kept);
  }

  lemma EndsFewer(ctx: Ctx, run: Run, t: State, kept: iset<string>)
    requires run.Eliminate? && run.taken < |run.ends| && Recorded(ctx, run.at, Roots(kept))
    requires t.bound == run.at.bound && t.boundViews == run.ends[run.taken].boundViews
    requires t.views == run.ends[run.taken].views && SameNames(run.at.bound, run.ends[run.taken].bound)
    requires ArmsAgree(ctx, t.derivs, Rows(run.ends)) && IsJoined(t.stack, Rows(run.ends))
    requires |run.arms| == |run.ends| && forall k :: 0 <= k < |run.ends| ==>
               run.at.derivs <= run.ends[k].derivs <= t.derivs && Recorded(ctx, run.ends[k], Roots(kept))
    ensures Recorded(ctx, t, Roots(iset p | p in kept && ScopeKeepsRoot(run.at, run.ends[run.taken], p)))
  {
    hide Recorded, ArmsAgree, IsJoined, SameNames, ScopeKeepsRoot, Rows;
    var fewer := iset p | p in kept && ScopeKeepsRoot(run.at, run.ends[run.taken], p);
    FewerRoots(ctx, run.at, kept, fewer);
    forall k | 0 <= k < |run.ends| ensures Recorded(ctx, run.ends[k], Roots(fewer)) {
      FewerRoots(ctx, run.ends[k], kept, fewer);
    }
    ScopeKept(run.at, run.ends[run.taken], fewer);
    JoinRecorded(ctx, run, t, Roots(fewer));
  }

  lemma DupIs(ctx: Ctx, s0: seq<Slot>, v0: seq<set<string>>, s1: seq<Slot>, v1: seq<set<string>>)
    requires 1 <= |s0| == |v0| && v1 == Gather(v0, ShuffleMap(Shuffle.Dup, |s0|))
    requires var top := s0[|s0| - 1]; s1 == s0 + [if ctx.bears(top.ty) then top else top.(alias := None)]
    ensures Shuffled(ctx, Shuffle.Dup, s0, v0, s1, v1)
    ensures forall i :: 0 <= i < |s1| ==> s1[i] in s0 || s1[i].alias.None?
  {
  }

  lemma DropIs(ctx: Ctx, s0: seq<Slot>, v0: seq<set<string>>, s1: seq<Slot>, v1: seq<set<string>>)
    requires 1 <= |s0| == |v0| && v1 == Gather(v0, ShuffleMap(Shuffle.Drop, |s0|)) && s1 == s0[..|s0| - 1]
    ensures Shuffled(ctx, Shuffle.Drop, s0, v0, s1, v1)
    ensures forall i :: 0 <= i < |s1| ==> s1[i] in s0
  {
  }

  lemma SwapIs(ctx: Ctx, s0: seq<Slot>, v0: seq<set<string>>, s1: seq<Slot>, v1: seq<set<string>>)
    requires 2 <= |s0| == |v0| && v1 == Gather(v0, ShuffleMap(Shuffle.Swap, |s0|))
    requires var n := |s0|; s1 == s0[n - 1 := s0[n - 2]][n - 2 := s0[n - 1]]
    ensures Shuffled(ctx, Shuffle.Swap, s0, v0, s1, v1)
    ensures forall i :: 0 <= i < |s1| ==> s1[i] in s0
  {
  }

  lemma OverIs(ctx: Ctx, s0: seq<Slot>, v0: seq<set<string>>, below: Slot, s1: seq<Slot>, v1: seq<set<string>>)
    requires 2 <= |s0| == |v0| && v1 == Gather(v0, ShuffleMap(Shuffle.Over, |s0|))
    requires s1 == s0[|s0| - 2 := below] + [below] && SameValue(below, s0[|s0| - 2])
    requires below.alias == s0[|s0| - 2].alias || (s0[|s0| - 2].alias.None? && ctx.isAggregate(below.ty))
    requires ctx.isAggregate(below.ty) ==> below.alias.Some?
    ensures Shuffled(ctx, Shuffle.Over, s0, v0, s1, v1)
    ensures forall i :: 0 <= i < |s1| ==> s1[i] in s0 || s1[i] == below
  {
  }

  lemma OverKeeps(ctx: Ctx, s: State, t: State, below: Slot, before: Tables, after: Tables, kept: iset<string>)
    requires Recorded(ctx, s, Roots(kept)) && IdsFit(before, s.stack, s.bound) && before.Upto(after)
    requires 2 <= |s.stack| == |s.views| && t == s.(stack := t.stack, views := t.views)
    requires t.views == Gather(s.views, ShuffleMap(Shuffle.Over, |s.stack|)) && after.Fit(below)
    requires t.stack == s.stack[|s.stack| - 2 := below] + [below] && SameValue(below, s.stack[|s.stack| - 2])
    requires below.alias == s.stack[|s.stack| - 2].alias ||
             (s.stack[|s.stack| - 2].alias.None? && ctx.isAggregate(below.ty))
    requires ctx.isAggregate(below.ty) ==> below.alias.Some?
    ensures Shuffled(ctx, Shuffle.Over, s.stack, s.views, t.stack, t.views)
    ensures Recorded(ctx, t, Roots(kept)) && IdsFit(after, t.stack, t.bound)
  {
    OverIs(ctx, s.stack, s.views, below, t.stack, t.views);
    hide Recorded, Gather, ShuffleMap, Shuffled, SameValue;
    Reordered(ctx, s, t, before, after, Shuffle.Over, kept);
  }

  lemma RotIs(ctx: Ctx, s0: seq<Slot>, v0: seq<set<string>>, s1: seq<Slot>, v1: seq<set<string>>)
    requires 3 <= |s0| == |v0| && v1 == Gather(v0, ShuffleMap(Shuffle.Rot, |s0|))
    requires var n := |s0|; s1 == s0[n - 3 := s0[n - 2]][n - 2 := s0[n - 1]][n - 1 := s0[n - 3]]
    ensures Shuffled(ctx, Shuffle.Rot, s0, v0, s1, v1)
    ensures forall i :: 0 <= i < |s1| ==> s1[i] in s0
  {
  }

  /** A shuffled stack is recorded, and its ids are in the tables. */
  lemma Reordered(ctx: Ctx, s: State, t: State, before: Tables, after: Tables, word: Shuffle, kept: iset<string>)
    requires Recorded(ctx, s, Roots(kept)) && Needs(word) <= |s.stack| == |s.views|
    requires Shuffled(ctx, word, s.stack, s.views, t.stack, t.views) && t == s.(stack := t.stack, views := t.views)
    requires IdsFit(before, s.stack, s.bound) && before.Upto(after)
    requires forall i :: 0 <= i < |t.stack| ==> t.stack[i] in s.stack || after.Fit(t.stack[i]) || t.stack[i].alias.None?
    ensures Recorded(ctx, t, Roots(kept)) && IdsFit(after, t.stack, t.bound)
  {
    ShuffleRecorded(ctx, s.derivs, s.stack, s.views, t.stack, ShuffleMap(word, |s.stack|), Roots(kept));
  }

  lemma RegionsAre(ctx: Ctx, s: State, before: seq<set<nat>>, bound: seq<Binding>, after: seq<set<nat>>)
    requires 2 <= |s.stack| && ctx.bears(s.stack[|s.stack| - 1].ty)
    requires var c, value := Container(s, s.stack[|s.stack| - 2]), s.stack[|s.stack| - 1];
             && |bound| == |s.bound| && (forall i :: 0 <= i < |bound| && i != c ==> bound[i] == s.bound[i])
             && (c < |bound| ==>
                   LocalRegions(after, bound[c]) == LocalRegions(before, s.bound[c]) + Regions(before, value.alias))
    ensures RegionsBooked(ctx, s, before, bound, after)
  {
    hide Container, LocalRegions, Regions;
  }

  lemma BookedIs(s: State, receiver: Slot, value: Slot, bound: seq<Binding>)
    requires var c := Container(s, receiver);
             && |bound| == |s.bound| && (forall i :: 0 <= i < |bound| && i != c ==> bound[i] == s.bound[i])
             && (c < |bound| ==> bound[c] == Holding(s.bound[c], value).(aliases := bound[c].aliases))
    ensures SameHeld(bound, Booked(s, receiver, value))
  {
    hide Container;
  }

  lemma CutRecorded(ctx: Ctx, s: State, k: nat, kept: iset<string>)
    requires Recorded(ctx, s, Roots(kept)) && k <= |s.stack|
    ensures Recorded(ctx, s.(stack := s.stack[..k], views := s.views[..k]), Roots(kept))
  {
    RowSplit(ctx, s.derivs, s.stack, s.views, k, Roots(kept));
  }

  lemma RowReplaced(ctx: Ctx, s: State, t: State, kept: iset<string>)
    requires Recorded(ctx, s, Roots(kept)) && t == s.(stack := t.stack, views := t.views)
    requires RowRecorded(ctx, t.derivs, t.stack, t.views, Roots(kept))
    ensures Recorded(ctx, t, Roots(kept))
  {
  }
}
