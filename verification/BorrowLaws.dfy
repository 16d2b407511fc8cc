/** What the scans make of the records that the steps leave: a borrow is found while its value lives, a reborrow
    suspends the reference it was taken through, and a local gives back the value it was bound to. */
module BorrowLaws {
  import opened Types
  import opened Borrow
  import opened BorrowJoin
  import opened BorrowSteps
  import opened BorrowRuns
  import opened BorrowWalk

  /** The record of the value on top. */
  ghost predicate OnTop(s: State, d: Deriv) {
    s.stack != [] && s.derivs != [] && s.stack[|s.stack| - 1].deriv == Some(|s.derivs| - 1) &&
    s.derivs[|s.derivs| - 1] == d
  }

  lemma TopIsLive(s: State, live: set<string>, d: Deriv)
    requires OnTop(s, d)
    ensures LiveRecord(s, live, |s.derivs| - 1)
  {
  }

  /** Everything a borrow records: the place, whether it is exclusive, the root and the static mark, which are those
      of what the local held if it held anything. */
  lemma BorrowRecordsAll(ctx: Ctx, s: State, place: string, mutable: bool, ty: Ty, t: State)
    requires Moves(ctx, s, BorrowOf(place, mutable, ty), t)
    ensures OnTop(t, t.derivs[|s.derivs|]) && t.derivs[..|s.derivs|] == s.derivs
    ensures var d, held := t.derivs[|s.derivs|], HeldDeriv(s.bound, place);
            && d.place == place && d.mutable == mutable && !d.projected && (d.reborrow <==> held.Some?)
            && (held.None? ==> d.root == Some(place) && (d.staticRoot <==> Local(s.bound, place) == |s.bound|))
            && (held.Some? && held.value < |s.derivs| ==>
                  d.root == s.derivs[held.value].root && d.staticRoot == s.derivs[held.value].staticRoot)
  {
    hide Local, Viewed;
  }

  /** While the reference is on the stack, no second borrow of the place is accepted if either of the two is
      exclusive; two shared ones do not stand in each other's way. */
  lemma SecondBorrow(ctx: Ctx, s: State, place: string, mutable: bool, ty: Ty, t: State, live: set<string>, again: bool)
    requires Moves(ctx, s, BorrowOf(place, mutable, ty), t) && !Lent(s, live, place, !again)
    ensures Lent(t, live, place, !again) <==> mutable || again
  {
    BorrowRecordsAll(ctx, s, place, mutable, ty, t);
    hide Moves;
    var d := |s.derivs|;
    TopIsLive(t, live, t.derivs[d]);
    if Lent(t, live, place, !again) && !mutable && !again {
      var id: nat :| LiveRecord(t, live, id) && (t.derivs[id].root == Some(place) || t.derivs[id].place == place) &&
        t.derivs[id].mutable;
      assert id != d;
      LiveBefore(ctx, s, BorrowOf(place, mutable, ty), t, live, id);
    }
  }

  /** A record that is live after a borrow and is not its own was live before. */
  lemma LiveBefore(ctx: Ctx, s: State, m: Move, t: State, live: set<string>, id: nat)
    requires m.BorrowOf? && Moves(ctx, s, m, t) && LiveRecord(t, live, id) && id != |s.derivs|
    ensures LiveRecord(s, live, id) && t.derivs[id] == s.derivs[id]
  {
    hide Local, Viewed, HeldDeriv, BorrowRecord;
    if i :| 0 <= i < |t.stack| && t.stack[i].deriv == Some(id) {
      assert i < |s.stack| ==> t.stack[..|s.stack|][i] == s.stack[i];
    }
  }

  /** Naming an exclusive reference suspends it: while the reborrow is on the stack it is not named again. */
  lemma NamingSuspends(ctx: Ctx, s: State, name: string, t: State, live: set<string>)
    requires Moves(ctx, s, NameOf(name), t) && ctx.borrowMutability(s.bound[Local(s.bound, name)].ty) == Some(true)
    ensures ReborrowedThrough(t, live, name)
    ensures OnTop(t, t.derivs[|s.derivs|]) && t.derivs[|s.derivs|].mutable && t.derivs[|s.derivs|].place == name
  {
    TopIsLive(t, live, t.derivs[|s.derivs|]);
  }

  /** A reborrow has the root and the static mark of what the reference held. */
  lemma NamingKeepsRoot(ctx: Ctx, s: State, name: string, t: State, mutable: bool, held: nat)
    requires Moves(ctx, s, NameOf(name), t)
    requires ctx.borrowMutability(s.bound[Local(s.bound, name)].ty) == Some(mutable)
    requires HeldDeriv(s.bound, name) == Some(held) && held < |s.derivs|
    ensures OnTop(t, t.derivs[|s.derivs|])
    ensures var d := t.derivs[|s.derivs|];
            d.root == s.derivs[held].root && d.staticRoot == s.derivs[held].staticRoot && d.mutable == mutable
  {
    hide Local, Viewed;
  }

  /** A projection lends what its receiver did, exclusively or not, and keeps it suspended. */
  lemma ProjectionLends(ctx: Ctx, s: State, popped: nat, ty: Ty, vs: set<string>, t: State, d: nat)
    requires Moves(ctx, s, ProjectTo(popped, ty, vs), t) && s.stack[|s.stack| - popped].deriv == Some(d)
    ensures d < |s.derivs| && OnTop(t, s.derivs[d].(projected := true))
  {
  }

  /** Binding the top value and naming it again gives it back: its type and provenance, what it captures, and the
      reach it had. */
  lemma BindThenName(ctx: Ctx, s: State, x: string, t: State, u: State)
    requires Moves(ctx, s, BindAs([x]), t) && Local(s.bound, x) == |s.bound| && Moves(ctx, t, NameOf(x), u)
    requires ctx.borrowMutability(s.stack[|s.stack| - 1].ty).None?
    ensures s.stack != [] && |u.stack| == |s.stack| && u.views == s.views
    ensures u.stack[..|s.stack| - 1] == s.stack[..|s.stack| - 1]
    ensures var was, now := s.stack[|s.stack| - 1], u.stack[|s.stack| - 1];
            && now.ty == was.ty && now.deriv == was.deriv && now.quot == was.quot && now.surviving == was.surviving
            && u.derivs == s.derivs
  {
    var k := |s.stack| - 1;
    LastBound(s.bound, t.bound, x);
    BoundAs(s, t, x);
    hide Local, Binds, BindsSlot;
    assert s.views == s.views[..k] + [s.views[k]];
  }

  lemma BoundAs(s: State, t: State, x: string)
    requires Binds(s, t, [x])
    ensures 1 <= |s.stack| == |s.views| && |t.bound| == |t.boundViews| == |s.bound| + 1
    ensures var was, b := s.stack[|s.stack| - 1], t.bound[|s.bound|];
            && b.name == x && b.ty == was.ty && b.deriv == was.deriv && b.quot == was.quot
            && b.surviving == was.surviving && t.boundViews[|s.bound|] == s.views[|s.stack| - 1]
  {
    assert BindsSlot(t.bound[|s.bound| + 0], [x][0], s.stack[|s.stack| - 1 + 0]);
    assert t.boundViews[|s.bound|] == s.views[|s.stack| - 1..][0];
  }

  lemma LastBound(bound: seq<Binding>, more: seq<Binding>, x: string)
    requires |more| == |bound| + 1 && more[..|bound|] == bound && Local(bound, x) == |bound|
    requires more[|bound|].name == x
    ensures Local(more, x) == |bound|
  {
    assert forall i :: 0 <= i < |bound| ==> more[i] == more[..|bound|][i];
    assert forall i :: 0 <= i < |bound| ==> bound[i].name != x;
  }

  // ---------------------------------------------------------------- what values denote and capture

  predicate Denotes(sets: seq<set<nat>>, s: Slot, region: nat) {
    s.alias.Some? && s.alias.value.set_ < |sets| && region in sets[s.alias.value.set_]
  }

  predicate Captures(sets: seq<Survivors>, s: Slot, name: Option<string>) {
    s.surviving.Some? && s.surviving.value < |sets| && name in sets[s.surviving.value]
  }

  /** A bearing output of a call denotes exactly the regions of the bearing operands, and an output that can hold a
      closure captures exactly what the operands do; other outputs denote and capture nothing. */
  lemma CallHandsOn(ctx: Ctx, derivs: seq<Deriv>, before: Tables, operands: seq<Slot>, outputs: seq<Ty>, after: Tables,
        alias: Option<Alias>, surviving: Option<nat>, mark: Option<nat>, outs: seq<Slot>, k: nat)
    requires before.Leaves(ctx, derivs, operands, outputs, after, alias, surviving, mark, outs) && k < |outputs|
    requires forall i :: 0 <= i < |operands| ==> before.Fit(operands[i])
    requires (alias.Some? ==> alias.value.set_ < |after.regions|)
    ensures |outs| == |outputs| && outs[k].ty == outputs[k] && outs[k].variantIdx == mark
    ensures forall g :: Denotes(after.regions, outs[k], g) <==>
              ctx.bears(outputs[k]) &&
                exists i :: 0 <= i < |operands| && ctx.bears(operands[i].ty) && Denotes(before.regions, operands[i], g)
    ensures forall m :: Captures(after.survivors, outs[k], m) <==>
              ctx.holdsClosure(outputs[k]) &&
                exists i :: 0 <= i < |operands| && Captures(before.survivors, operands[i], m)
  {
    hide CarriedDeriv;
    if ctx.bears(outputs[k]) { assert AnyBears(ctx, outputs); }
    RegionsDenoted(after.regions, outs[k]);
    CapturesHeld(after.survivors, outs[k]);
    forall i | 0 <= i < |operands|
      ensures forall g :: g in Regions(before.regions, operands[i].alias) <==> Denotes(before.regions, operands[i], g)
      ensures forall m :: m in SurvivorsOf(before.survivors, operands[i].surviving) <==>
                Captures(before.survivors, operands[i], m)
    {
      RegionsDenoted(before.regions, operands[i]);
      CapturesHeld(before.survivors, operands[i]);
    }
    hide Regions, SurvivorsOf, Denotes, Captures, CallOutputs, SameCarried;
  }

  lemma RegionsDenoted(sets: seq<set<nat>>, s: Slot)
    ensures forall g :: g in Regions(sets, s.alias) <==> Denotes(sets, s, g)
  {
  }

  lemma CapturesHeld(sets: seq<Survivors>, s: Slot)
    ensures forall m :: m in SurvivorsOf(sets, s.surviving) <==> Captures(sets, s, m)
  {
  }

  /** A joined value denotes and captures exactly what the values of the arms do in its place. */
  lemma JoinUnites(before: Tables, arms: seq<seq<Slot>>, after: Tables, row: seq<Slot>, i: nat)
    requires JoinedTables(before, arms, after, row) && i < |row|
    ensures forall g :: Denotes(after.regions, row[i], g) <==>
              exists k :: 0 <= k < |arms| && i < |arms[k]| && Denotes(before.regions, arms[k][i], g)
    ensures forall m :: Captures(after.survivors, row[i], m) <==>
              exists k :: 0 <= k < |arms| && i < |arms[k]| && Captures(before.survivors, arms[k][i], m)
  {
    var regions, captures := RegionColumn(before, arms, i), SurvivorColumn(before, arms, i);
    assert UnionOf(regions, Regions(after.regions, row[i].alias));
    assert UnionOf(captures, SurvivorsOf(after.survivors, row[i].surviving));
    RegionsDenoted(after.regions, row[i]);
    CapturesHeld(after.survivors, row[i]);
    forall k | 0 <= k < |arms| && i < |arms[k]|
      ensures forall g :: g in regions[k] <==> Denotes(before.regions, arms[k][i], g)
      ensures forall m :: m in captures[k] <==> Captures(before.survivors, arms[k][i], m)
    {
      RegionsDenoted(before.regions, arms[k][i]);
      CapturesHeld(before.survivors, arms[k][i]);
    }
    assert forall k :: 0 <= k < |arms| && i >= |arms[k]| ==> regions[k] == {} && captures[k] == {};
    hide Regions, SurvivorsOf, Denotes, Captures, JoinedTables;
  }

  // ---------------------------------------------------------------- conservation

  /** No shuffle makes a second value of a type that is not copied, and only `drop` takes one away. */
  lemma ShufflesConserve(ctx: Ctx, s: State, t: State, word: Shuffle, ty: Ty)
    requires Moves(ctx, s, ShuffleBy(word), t) && !ctx.isCopy(ty)
    ensures s.stack != []
    ensures multiset(TypesOf(t.stack))[ty] ==
              multiset(TypesOf(s.stack))[ty] -
                if word == Shuffle.Drop && s.stack[|s.stack| - 1].ty == ty then 1 else 0
  {
    hide *;
    ShuffledTypes(ctx, s, t, word);
    TypesAre(s.stack);
    TypesConserve(word, TypesOf(s.stack), TypesOf(t.stack), ty);
  }

  lemma TypesAre(row: seq<Slot>)
    ensures |TypesOf(row)| == |row| && forall i :: 0 <= i < |row| ==> TypesOf(row)[i] == row[i].ty
  {
  }

  lemma ShuffledTypes(ctx: Ctx, s: State, t: State, word: Shuffle)
    requires Moves(ctx, s, ShuffleBy(word), t)
    ensures 1 <= Needs(word) <= |s.stack| && TypesOf(t.stack) == Gather(TypesOf(s.stack), ShuffleMap(word, |s.stack|))
    ensures word == Dup ==> ctx.isCopy(TypesOf(s.stack)[|s.stack| - 1])
    ensures word == Shuffle.Over ==> 2 <= |s.stack| && ctx.isCopy(TypesOf(s.stack)[|s.stack| - 2])
  {
    hide ShuffleMap;
    assert TypesOf(t.stack) == Gather(TypesOf(s.stack), ShuffleMap(word, |s.stack|));
  }

  lemma TypesConserve(word: Shuffle, was: seq<Ty>, now: seq<Ty>, ty: Ty)
    requires 1 <= Needs(word) <= |was| && now == Gather(was, ShuffleMap(word, |was|))
    requires word == Dup ==> was[|was| - 1] != ty
    requires word == Shuffle.Over ==> 2 <= |was| && was[|was| - 2] != ty
    ensures multiset(now)[ty] == multiset(was)[ty] - if word == Shuffle.Drop && was[|was| - 1] == ty then 1 else 0
  {
    var n := |was|;
    match word
    case Dup => OneConserves(word, was, was[..n - 1], was[n - 1], ty);
    case Drop => OneConserves(word, was, was[..n - 1], was[n - 1], ty);
    case Swap => TwoConserve(word, was, was[..n - 2], was[n - 2], was[n - 1], ty);
    case Over => TwoConserve(word, was, was[..n - 2], was[n - 2], was[n - 1], ty);
    case Rot => ThreeConserve(was, was[..n - 3], was[n - 3], was[n - 2], was[n - 1], ty);
  }

  lemma OneConserves(word: Shuffle, was: seq<Ty>, rest: seq<Ty>, a: Ty, ty: Ty)
    requires Needs(word) == 1 && (word == Dup ==> a != ty) && was == rest + [a]
    ensures multiset(Gather(was, ShuffleMap(word, |was|)))[ty] ==
              multiset(was)[ty] - if word == Shuffle.Drop && a == ty then 1 else 0
  {
    OneDeep(rest, a);
    hide Gather, ShuffleMap;
    assert rest + [a, a] == rest + [a] + [a];
  }

  lemma TwoConserve(word: Shuffle, was: seq<Ty>, rest: seq<Ty>, a: Ty, b: Ty, ty: Ty)
    requires Needs(word) == 2 && (word == Shuffle.Over ==> a != ty) && was == rest + [a, b]
    ensures multiset(Gather(was, ShuffleMap(word, |was|)))[ty] == multiset(was)[ty]
  {
    TwoDeep(rest, a, b);
    hide Gather, ShuffleMap;
    if word == Shuffle.Over {
      assert rest + [a, b, a] == was + [a];
    } else {
      assert multiset(rest + [b, a]) == multiset(rest) + multiset{a, b} == multiset(was);
    }
  }

  lemma ThreeConserve(was: seq<Ty>, rest: seq<Ty>, a: Ty, b: Ty, c: Ty, ty: Ty)
    requires was == rest + [a, b, c]
    ensures multiset(Gather(was, ShuffleMap(Rot, |was|)))[ty] == multiset(was)[ty]
  {
    ThreeDeep(rest, a, b, c);
    hide Gather, ShuffleMap;
    assert multiset(rest + [b, c, a]) == multiset(rest) + multiset{a, b, c} == multiset(was);
  }
}
