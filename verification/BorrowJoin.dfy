/** What calls and eliminators leave on the stack: the regions and surviving captures a call hands on, and the
    N-arm join: when exit rows agree, what the joined row is, and what it still records. */
module BorrowJoin {
  import opened Types
  import opened Borrow

  datatype SlotMatch = Exact | LiteralSizeType | NeedsSizeConversion | NeedsStrToCstrConversion | Mismatch

  function MatchSlot(found: Slot, want: Ty): SlotMatch {
    if found.ty == want then Exact
    else if (want == Usize || want == Isize) && found.ty == I64 then
      if found.literal then LiteralSizeType else NeedsSizeConversion
    else if want == Cstr && found.ty == Str then NeedsStrToCstrConversion
    else Mismatch
  }

  function TypesOf(row: seq<Slot>): (r: seq<Ty>)
    ensures |r| == |row| && forall i :: 0 <= i < |row| ==> r[i] == row[i].ty
  {
    seq(|row|, i requires 0 <= i < |row| => row[i].ty)
  }

  /** Whether the running baseline and a later arm disagree on types. Both sides are compared as computed
      values, so no literal ever coerces into a size type across arms: they agree exactly when the two
      rows have the same types. */
  function ArmExitRowMismatch(baseline: seq<Slot>, arm: seq<Slot>): (r: Option<(seq<Ty>, seq<Ty>)>)
    ensures r.None? <==> TypesOf(baseline) == TypesOf(arm)
    ensures r.Some? ==> r.value == (TypesOf(baseline), TypesOf(arm))
  {
    var expected, found := TypesOf(baseline), TypesOf(arm);
    if |found| == |expected| &&
       forall i :: 0 <= i < |found| ==> MatchSlot(Computed(found[i]), expected[i]) in {Exact, LiteralSizeType}
    then
      assert forall i :: 0 <= i < |found| ==> MatchSlot(Computed(found[i]), expected[i]) != LiteralSizeType;
      None
    else Some((expected, found))
  }

  // ---------------------------------------------------------------- regions and surviving captures

  ghost function Regions(sets: seq<set<nat>>, a: Option<Alias>): set<nat> {
    if a.Some? && a.value.set_ < |sets| then sets[a.value.set_] else {}
  }

  /** Some bearing operand has the region `g`, or any at all. */
  ghost predicate AnyRegion(ctx: Ctx, before: seq<set<nat>>, operands: seq<Slot>, g: nat) {
    exists i :: 0 <= i < |operands| && ctx.bears(operands[i].ty) && g in Regions(before, operands[i].alias)
  }

  ghost predicate AnyAlias(ctx: Ctx, operands: seq<Slot>) {
    exists i :: 0 <= i < |operands| && ctx.bears(operands[i].ty) && operands[i].alias.Some?
  }

  /** `alias` denotes exactly the regions of the bearing operands. */
  ghost predicate CarriesRegions(ctx: Ctx, before: seq<set<nat>>, operands: seq<Slot>, after: seq<set<nat>>,
        alias: Option<Alias>) {
    && (alias.Some? <==> AnyAlias(ctx, operands))
    && forall g :: g in Regions(after, alias) <==> AnyRegion(ctx, before, operands, g)
  }

  /** One more operand with no region to add. */
  lemma CarriesSkipped(ctx: Ctx, before: seq<set<nat>>, operands: seq<Slot>, i: nat, after: seq<set<nat>>,
        alias: Option<Alias>)
    requires i < |operands| && CarriesRegions(ctx, before, operands[..i], after, alias)
    requires !ctx.bears(operands[i].ty) || operands[i].alias.None?
    ensures CarriesRegions(ctx, before, operands[..i + 1], after, alias)
  {
    OneMoreBearing(ctx, before, operands, i);
  }

  /** One more operand whose regions are added. */
  lemma CarriesAdded(ctx: Ctx, before: seq<set<nat>>, operands: seq<Slot>, i: nat, after: seq<set<nat>>,
        alias: Option<Alias>, more: seq<set<nat>>, joined: Alias)
    requires i < |operands| && CarriesRegions(ctx, before, operands[..i], after, alias)
    requires ctx.bears(operands[i].ty) && operands[i].alias.Some? && joined.set_ < |more|
    requires more[joined.set_] == Regions(after, alias) + Regions(before, operands[i].alias)
    ensures CarriesRegions(ctx, before, operands[..i + 1], more, Some(joined))
  {
    OneMoreBearing(ctx, before, operands, i);
  }

  lemma OneMoreBearing(ctx: Ctx, before: seq<set<nat>>, operands: seq<Slot>, i: nat)
    requires i < |operands|
    ensures var o := operands[i];
            AnyAlias(ctx, operands[..i + 1]) <==> AnyAlias(ctx, operands[..i]) || (ctx.bears(o.ty) && o.alias.Some?)
    ensures var o := operands[i];
            forall g :: AnyRegion(ctx, before, operands[..i + 1], g) <==>
              AnyRegion(ctx, before, operands[..i], g) || (ctx.bears(o.ty) && g in Regions(before, o.alias))
  {
    var pre, all := operands[..i], operands[..i + 1];
    hide Regions;
    assert all[i] == operands[i] && forall j :: 0 <= j < i ==> all[j] == pre[j];
  }

  /** What a call hands its outputs: nothing when none of them bears a reference, otherwise the carried
      derivation and every region of the bearing operands; the surviving captures of all operands go to
      every output that could hold a closure. */
  ghost predicate HandsOn(ctx: Ctx, before: seq<set<nat>>, operands: seq<Slot>, outputs: seq<Ty>, after: seq<set<nat>>,
        alias: Option<Alias>) {
    if AnyBears(ctx, outputs) then CarriesRegions(ctx, before, operands, after, alias) else alias == None
  }

  function Outputs(ctx: Ctx, outputs: seq<Ty>, chosen: Option<nat>, alias: Option<Alias>, surviving: Option<nat>,
        mark: Option<nat>): (r: seq<Slot>)
    ensures |r| == |outputs|
    ensures forall i :: 0 <= i < |outputs| ==>
              && SameCarried(r[i], CallOutputs(ctx, outputs, chosen)[i]) && r[i].variantIdx == mark
              && r[i].alias == (if ctx.bears(outputs[i]) then alias else None)
              && r[i].surviving == (if ctx.holdsClosure(outputs[i]) then surviving else None)
  {
    seq(|outputs|, i requires 0 <= i < |outputs| =>
      CallOutputs(ctx, outputs, chosen)[i].(alias := if ctx.bears(outputs[i]) then alias else None, variantIdx := mark,
                                            surviving := if ctx.holdsClosure(outputs[i]) then surviving else None))
  }

  /** A surviving capture set: its members, and `None` in it for the bundle mark. */
  type Survivors = set<Option<string>>

  function SurvivorsOf(sets: seq<Survivors>, id: Option<nat>): Survivors {
    if id.Some? && id.value < |sets| then sets[id.value] else {}
  }

  ghost predicate CarriesSurvivors(before: seq<Survivors>, operands: seq<Slot>, after: seq<Survivors>,
        id: Option<nat>) {
    forall m :: m in SurvivorsOf(after, id) <==>
      exists i :: 0 <= i < |operands| && m in SurvivorsOf(before, operands[i].surviving)
  }

  lemma CarriesOneSurvivor(before: seq<Survivors>, operands: seq<Slot>, i: nat, was: seq<Survivors>, id: Option<nat>,
        after: seq<Survivors>, next: Option<nat>)
    requires i < |operands| && before <= was && CarriesSurvivors(before, operands[..i], was, id)
    requires operands[i].surviving.Some? ==> operands[i].surviving.value < |before|
    requires SurvivorsOf(after, next) == SurvivorsOf(was, id) + SurvivorsOf(was, operands[i].surviving)
    ensures CarriesSurvivors(before, operands[..i + 1], after, next)
  {
    var pre, all, o := operands[..i], operands[..i + 1], operands[i];
    assert all[i] == o && forall j :: 0 <= j < i ==> all[j] == pre[j];
    assert SurvivorsOf(was, o.surviving) == SurvivorsOf(before, o.surviving);
    assert forall m :: (exists j :: 0 <= j < |all| && m in SurvivorsOf(before, all[j].surviving)) <==>
        (exists j :: 0 <= j < |pre| && m in SurvivorsOf(before, pre[j].surviving)) ||
          m in SurvivorsOf(before, o.surviving);
  }

  /** The region sets and the surviving sets, as they stood at some moment. */
  datatype Tables = Tables(regions: seq<set<nat>>, survivors: seq<Survivors>) {
    /** `outs` is what a call leaves in place of its operands. */
    ghost predicate Leaves(ctx: Ctx, derivs: seq<Deriv>, operands: seq<Slot>, outputs: seq<Ty>, after: Tables,
          alias: Option<Alias>, surviving: Option<nat>, mark: Option<nat>, outs: seq<Slot>) {
      && HandsOn(ctx, regions, operands, outputs, after.regions, alias)
      && CarriesSurvivors(survivors, operands, after.survivors, surviving)
      && outs == Outputs(ctx, outputs, CarriedDeriv(ctx, derivs, operands), alias, surviving, mark)
    }

    ghost predicate Fit(s: Slot) {
      (s.alias.Some? ==> s.alias.value.set_ < |regions|) && (s.surviving.Some? ==> s.surviving.value < |survivors|)
    }

    /** `m` is `a` and `b` reconciled: one derivation of the two, the common marker, and all that either denotes
        or captures. */
    ghost predicate Merges(a: Slot, b: Slot, after: Tables, m: Slot) {
      && m.ty == a.ty && m.deriv == JoinedDeriv([a.deriv, b.deriv]) &&
         m.quot == (if a.quot == b.quot then a.quot else None)
      && after.Fit(m)
      && Regions(after.regions, m.alias) == Regions(regions, a.alias) + Regions(regions, b.alias)
      && SurvivorsOf(after.survivors, m.surviving) ==
        SurvivorsOf(survivors, a.surviving) + SurvivorsOf(survivors, b.surviving)
    }

    predicate Upto(after: Tables) { regions <= after.regions && survivors <= after.survivors }
  }

  lemma MergesGrow(before: Tables, now: Tables, next: Tables, a: Slot, b: Slot, m: Slot)
    requires before.Merges(a, b, now, m) && now.Upto(next)
    ensures before.Merges(a, b, next, m)
  {
  }

  lemma MergesFrom(before: Tables, now: Tables, next: Tables, a: Slot, b: Slot, m: Slot)
    requires now.Merges(a, b, next, m) && before.Upto(now) && before.Fit(a) && before.Fit(b)
    ensures before.Merges(a, b, next, m)
  {
  }

  lemma MergesOk(derivs: seq<Deriv>, before: Tables, after: Tables, a: Slot, b: Slot, m: Slot)
    requires before.Merges(a, b, after, m) && DerivOk(derivs, a.deriv) && DerivOk(derivs, b.deriv)
    ensures DerivOk(derivs, m.deriv) && after.Fit(m)
  {
    JoinedPair(a.deriv, b.deriv);
  }

  /** A merged row, position by position, in the terms the arm loop reasons in. */
  lemma MergedRow(before: Tables, after: Tables, a: seq<Slot>, b: seq<Slot>, row: seq<Slot>)
    requires |row| == |a| == |b| && forall i :: 0 <= i < |a| ==> before.Merges(a[i], b[i], after, row[i])
    ensures TypesOf(row) == TypesOf(a)
    ensures forall i :: 0 <= i < |a| ==>
              row[i].deriv == JoinedDeriv([a[i].deriv, b[i].deriv]) &&
                row[i].quot == if a[i].quot == b[i].quot then a[i].quot else None
  {
    forall i | 0 <= i < |a| ensures before.Merges(a[i], b[i], after, row[i]) {}
  }

  // ---------------------------------------------------------------- joining

  lemma JoinedPair(a: Option<nat>, b: Option<nat>)
    ensures JoinedDeriv([a, b]) == if a.Some? then a else b
  {
    JoinedSnoc([a], b);
    assert [a] + [b] == [a, b] && [a][1..] == [];
  }

  lemma JoinablePair(derivs: seq<Deriv>, a: Option<nat>, b: Option<nat>)
    requires DerivOk(derivs, a) && DerivOk(derivs, b)
    ensures Joinable(derivs, [a, b]) <==>
              if a.Some? && b.Some? then derivs[a.value].Suspension() == derivs[b.value].Suspension()
              else (a.Some? ==> derivs[a.value].root.None?) && (b.Some? ==> derivs[b.value].root.None?)
  {
    var ds := [a, b];
    assert ds[0] == a && ds[1] == b;
    if Joinable(derivs, ds) {
      assert a.Some? && b.Some? ==> derivs[ds[0].value].Suspension() == derivs[ds[1].value].Suspension();
    }
  }

  // ---------------------------------------------------------------- when arms agree

  predicate NoEscape(ctx: Ctx, arm: seq<Slot>) { forall i :: 0 <= i < |arm| ==> !ctx.isVariant(arm[i].ty) }

  ghost predicate SameTypes(arms: seq<seq<Slot>>) {
    forall k :: 0 <= k < |arms| ==> TypesOf(arms[k]) == TypesOf(arms[0])
  }

  ghost predicate ArmsAgree(ctx: Ctx, derivs: seq<Deriv>, arms: seq<seq<Slot>>) {
    && (forall k :: 0 <= k < |arms| ==> NoEscape(ctx, arms[k]))
    && SameTypes(arms)
    && (forall k :: 0 <= k < |arms| ==> |arms[k]| == |arms[0]|)
    && (arms != [] ==> forall i :: 0 <= i < |arms[0]| ==> Joinable(derivs, Column(arms, i)))
  }

  ghost predicate IsJoined(row: seq<Slot>, arms: seq<seq<Slot>>)
    requires arms != []
  {
    && TypesOf(row) == TypesOf(arms[0]) && |row| == |arms[0]|
    && (forall k :: 0 <= k < |arms| ==> |arms[k]| == |arms[0]|)
    && (forall i :: 0 <= i < |row| ==> row[i].deriv == JoinedDeriv(Column(arms, i)))
    && forall i :: 0 <= i < |row| ==> row[i].quot == if SameQuot(arms, i) then arms[0][i].quot else None
  }

  /** Every arm leaves the same quotation marker, or none, at position `i`. */
  ghost predicate SameQuot(arms: seq<seq<Slot>>, i: nat)
    requires arms != [] && forall k :: 0 <= k < |arms| ==> i < |arms[k]|
  {
    forall k :: 0 <= k < |arms| ==> arms[k][i].quot == arms[0][i].quot
  }

  ghost predicate UnionOf<T(!new)>(parts: seq<set<T>>, whole: set<T>) {
    forall g :: g in whole <==> exists k :: 0 <= k < |parts| && g in parts[k]
  }

  lemma UnionSnoc<T(!new)>(parts: seq<set<T>>, whole: set<T>, part: set<T>)
    requires UnionOf(parts, whole)
    ensures UnionOf(parts + [part], whole + part)
  {
    var all := parts + [part];
    assert all[|parts|] == part && forall k :: 0 <= k < |parts| ==> all[k] == parts[k];
    forall g | g in whole ensures exists k :: 0 <= k < |all| && g in all[k] {
      var k :| 0 <= k < |parts| && g in parts[k];
      assert g in all[k];
    }
  }

  lemma UnionOne<T(!new)>(part: set<T>)
    ensures UnionOf([part], part)
  {
    assert [part][0] == part;
  }

  ghost function RegionColumn(t: Tables, arms: seq<seq<Slot>>, i: nat): (r: seq<set<nat>>)
    ensures |r| == |arms|
  {
    seq(|arms|, k requires 0 <= k < |arms| => if i < |arms[k]| then Regions(t.regions, arms[k][i].alias) else {})
  }

  ghost function SurvivorColumn(t: Tables, arms: seq<seq<Slot>>, i: nat): (r: seq<Survivors>)
    ensures |r| == |arms|
  {
    seq(|arms|, k requires 0 <= k < |arms| =>
      if i < |arms[k]| then SurvivorsOf(t.survivors, arms[k][i].surviving) else {})
  }

  /** Each joined slot denotes the regions any arm's slot denotes there, and has its surviving captures. */
  ghost predicate JoinedTables(before: Tables, arms: seq<seq<Slot>>, after: Tables, row: seq<Slot>) {
    forall i :: 0 <= i < |row| ==>
      && UnionOf(RegionColumn(before, arms, i), Regions(after.regions, row[i].alias))
      && UnionOf(SurvivorColumn(before, arms, i), SurvivorsOf(after.survivors, row[i].surviving))
  }

  lemma OneArmTables(before: Tables, now: Tables, arm: seq<Slot>)
    requires before.Upto(now) && forall i :: 0 <= i < |arm| ==> before.Fit(arm[i])
    ensures JoinedTables(before, [arm], now, arm)
  {
    forall i | 0 <= i < |arm|
      ensures UnionOf(RegionColumn(before, [arm], i), Regions(now.regions, arm[i].alias))
      ensures UnionOf(SurvivorColumn(before, [arm], i), SurvivorsOf(now.survivors, arm[i].surviving))
    {
      assert RegionColumn(before, [arm], i) == [Regions(before.regions, arm[i].alias)];
      assert SurvivorColumn(before, [arm], i) == [SurvivorsOf(before.survivors, arm[i].surviving)];
      UnionOne(Regions(before.regions, arm[i].alias));
      UnionOne(SurvivorsOf(before.survivors, arm[i].surviving));
    }
  }

  lemma MergedTables(start: Tables, arms: seq<seq<Slot>>, before: Tables, joined: seq<Slot>, arm: seq<Slot>,
        after: Tables, next: seq<Slot>)
    requires start.Upto(before) && |next| == |joined| == |arm| && JoinedTables(start, arms, before, joined)
    requires forall i :: 0 <= i < |arm| ==> start.Fit(arm[i]) && before.Merges(joined[i], arm[i], after, next[i])
    ensures JoinedTables(start, arms + [arm], after, next)
  {
    forall i | 0 <= i < |next|
      ensures UnionOf(RegionColumn(start, arms + [arm], i), Regions(after.regions, next[i].alias))
      ensures UnionOf(SurvivorColumn(start, arms + [arm], i), SurvivorsOf(after.survivors, next[i].surviving))
    {
      assert start.Fit(arm[i]) && before.Merges(joined[i], arm[i], after, next[i]);
      hide UnionOf;
      UnionSnoc(RegionColumn(start, arms, i), Regions(before.regions, joined[i].alias),
                Regions(before.regions, arm[i].alias));
      UnionSnoc(SurvivorColumn(start, arms, i), SurvivorsOf(before.survivors, joined[i].surviving),
                SurvivorsOf(before.survivors, arm[i].surviving));
      assert RegionColumn(start, arms + [arm], i) ==
        RegionColumn(start, arms, i) + [Regions(before.regions, arm[i].alias)];
      assert SurvivorColumn(start, arms + [arm], i) ==
        SurvivorColumn(start, arms, i) + [SurvivorsOf(before.survivors, arm[i].surviving)];
    }
  }

  lemma JoinableSnoc(derivs: seq<Deriv>, ds: seq<Option<nat>>, d: Option<nat>)
    requires DerivOk(derivs, d) && forall k :: 0 <= k < |ds| ==> DerivOk(derivs, ds[k])
    requires ds != []
    ensures Joinable(derivs, ds + [d]) <==> Joinable(derivs, ds) && Joinable(derivs, [JoinedDeriv(ds), d])
  {
    if Joinable(derivs, ds + [d]) { JoinableParts(derivs, ds, d); }
    if Joinable(derivs, ds) && Joinable(derivs, [JoinedDeriv(ds), d]) { JoinableBoth(derivs, ds, d); }
  }

  lemma JoinableParts(derivs: seq<Deriv>, ds: seq<Option<nat>>, d: Option<nat>)
    requires ds != [] && Joinable(derivs, ds + [d])
    ensures Joinable(derivs, ds) && Joinable(derivs, [JoinedDeriv(ds), d])
  {
    var all, j := ds + [d], JoinedDeriv(ds);
    hide Agrees;
    assert all[|ds|] == d && forall k :: 0 <= k < |ds| ==> all[k] == ds[k];
    JoinedIsFirst(ds);
    assert j in ds by { if j.None? { assert ds[0] == j; } }
    var k :| 0 <= k < |ds| && ds[k] == j;
    assert all[k] == j;
  }

  lemma JoinableBoth(derivs: seq<Deriv>, ds: seq<Option<nat>>, d: Option<nat>)
    requires DerivOk(derivs, d) && forall k :: 0 <= k < |ds| ==> DerivOk(derivs, ds[k])
    requires ds != [] && Joinable(derivs, ds) && Joinable(derivs, [JoinedDeriv(ds), d])
    ensures Joinable(derivs, ds + [d])
  {
    var all, j := ds + [d], JoinedDeriv(ds);
    JoinedIsFirst(ds);
    assert [j, d][0] == j && [j, d][1] == d;
    assert Agrees(derivs, j, d) && Agrees(derivs, d, j) && Agrees(derivs, d, d);
    forall a | 0 <= a < |ds| ensures Agrees(derivs, ds[a], d) && Agrees(derivs, d, ds[a]) {
      if j.Some? {
        var k :| 0 <= k < |ds| && ds[k] == j;
        assert Agrees(derivs, ds[a], ds[k]) && Agrees(derivs, ds[k], ds[a]);
      }
    }
  }

  lemma AgreePrefix(ctx: Ctx, derivs: seq<Deriv>, arms: seq<seq<Slot>>, k: nat)
    requires k <= |arms|
    requires forall i :: 0 <= i < |arms| ==> forall j :: 0 <= j < |arms[i]| ==> DerivOk(derivs, arms[i][j].deriv)
    ensures ArmsAgree(ctx, derivs, arms) ==> ArmsAgree(ctx, derivs, arms[..k])
  {
    if ArmsAgree(ctx, derivs, arms) && k > 0 {
      var pre := arms[..k];
      forall i | 0 <= i < |pre[0]| ensures Joinable(derivs, Column(pre, i)) {
        assert Column(pre, i) == Column(arms, i)[..k];
        JoinableTake(derivs, Column(arms, i), k);
      }
    }
  }

  lemma JoinableTake(derivs: seq<Deriv>, ds: seq<Option<nat>>, k: nat)
    requires k <= |ds| && Joinable(derivs, ds)
    ensures Joinable(derivs, ds[..k])
  {
    assert forall i :: 0 <= i < k ==> ds[..k][i] == ds[i];
  }

  lemma OneArm(ctx: Ctx, derivs: seq<Deriv>, arm: seq<Slot>)
    requires NoEscape(ctx, arm) && forall j :: 0 <= j < |arm| ==> DerivOk(derivs, arm[j].deriv)
    ensures ArmsAgree(ctx, derivs, [arm]) && IsJoined(arm, [arm])
  {
    forall i | 0 <= i < |arm|
      ensures Joinable(derivs, Column([arm], i)) && JoinedDeriv(Column([arm], i)) == arm[i].deriv
    {
      assert Column([arm], i) == [arm[i].deriv];
      JoinedSnoc([], arm[i].deriv);
      assert [] + [arm[i].deriv] == [arm[i].deriv];
    }
  }

  lemma TypesDisagree(ctx: Ctx, derivs: seq<Deriv>, arms: seq<seq<Slot>>, arm: seq<Slot>, joined: seq<Slot>)
    requires arms != [] && IsJoined(joined, arms) && TypesOf(joined) != TypesOf(arm)
    ensures !ArmsAgree(ctx, derivs, arms + [arm])
  {
    var all := arms + [arm];
    assert all[|arms|] == arm && all[0] == arms[0];
  }

  /** Adding one more arm: the whole agrees exactly when the baseline can be joined with it everywhere. */
  lemma OneMoreArm(ctx: Ctx, derivs: seq<Deriv>, arms: seq<seq<Slot>>, arm: seq<Slot>, joined: seq<Slot>)
    requires arms != [] && ArmsAgree(ctx, derivs, arms) && IsJoined(joined, arms) && NoEscape(ctx, arm)
    requires TypesOf(joined) == TypesOf(arm)
    requires forall i, j :: 0 <= i < |arms| && 0 <= j < |arms[i]| ==> DerivOk(derivs, arms[i][j].deriv)
    requires forall j :: 0 <= j < |arm| ==> DerivOk(derivs, arm[j].deriv)
    ensures |arm| == |joined|
    ensures ArmsAgree(ctx, derivs, arms + [arm]) <==>
              forall i :: 0 <= i < |arm| ==> Joinable(derivs, [joined[i].deriv, arm[i].deriv])
  {
    var all := arms + [arm];
    assert |TypesOf(joined)| == |TypesOf(arm)|;
    assert all[0] == arms[0] && all[|arms|] == arm;
    assert forall k :: 0 <= k < |arms| ==> all[k] == arms[k];
    assert SameTypes(all);
    forall i | 0 <= i < |arm|
      ensures Column(all, i) == Column(arms, i) + [arm[i].deriv]
      ensures Joinable(derivs, Column(all, i)) <==> Joinable(derivs, [joined[i].deriv, arm[i].deriv])
    {
      var c := Column(arms, i);
      assert Column(all, i) == c + [arm[i].deriv];
      assert forall k :: 0 <= k < |c| ==> DerivOk(derivs, c[k]);
      JoinableSnoc(derivs, c, arm[i].deriv);
    }
  }

  lemma QuotOneMore(arms: seq<seq<Slot>>, arm: seq<Slot>, i: nat)
    requires arms != [] && i < |arm| && forall k :: 0 <= k < |arms| ==> i < |arms[k]|
    ensures (arms + [arm])[0] == arms[0]
    ensures SameQuot(arms + [arm], i) <==> SameQuot(arms, i) && arm[i].quot == arms[0][i].quot
  {
    var all := arms + [arm];
    assert all[|arms|] == arm && forall k :: 0 <= k < |arms| ==> all[k] == arms[k];
  }

  lemma MergedIsJoined(ctx: Ctx, derivs: seq<Deriv>, arms: seq<seq<Slot>>, arm: seq<Slot>, joined: seq<Slot>,
        next: seq<Slot>)
    requires arms != [] && IsJoined(joined, arms) && TypesOf(joined) == TypesOf(arm)
    requires TypesOf(next) == TypesOf(joined) && |next| == |joined| == |arm|
    requires forall i :: 0 <= i < |joined| ==>
               next[i].deriv == JoinedDeriv([joined[i].deriv, arm[i].deriv]) &&
                 next[i].quot == if joined[i].quot == arm[i].quot then joined[i].quot else None
    ensures IsJoined(next, arms + [arm])
  {
    var all := arms + [arm];
    assert all[0] == arms[0] && all[|arms|] == arm;
    assert forall k :: 0 <= k < |arms| ==> all[k] == arms[k];
    forall i | 0 <= i < |next| ensures next[i].quot == if SameQuot(all, i) then all[0][i].quot else None {
      QuotOneMore(arms, arm, i);
    }
    forall i | 0 <= i < |next| ensures next[i].deriv == JoinedDeriv(Column(all, i)) {
      var c := Column(arms, i);
      assert Column(all, i) == c + [arm[i].deriv];
      JoinedSnoc(c, arm[i].deriv);
      JoinedPair(joined[i].deriv, arm[i].deriv);
    }
  }

  lemma ArmEscapes(ctx: Ctx, derivs: seq<Deriv>, arms: seq<seq<Slot>>, arm: seq<Slot>)
    requires !NoEscape(ctx, arm)
    ensures !ArmsAgree(ctx, derivs, arms + [arm])
  {
    assert (arms + [arm])[|arms|] == arm;
  }

  lemma NoArms(ctx: Ctx, derivs: seq<Deriv>)
    ensures ArmsAgree(ctx, derivs, [])
  {
  }

  /** The guard under which the joined row still names all that the arms' rows named. */
  ghost predicate ArmsKeepNames(derivs: seq<Deriv>, arms: seq<seq<Slot>>)
    requires forall k :: 0 <= k < |arms| ==> |arms[k]| == |arms[0]|
  {
    arms != [] ==> forall i :: 0 <= i < |arms[0]| ==> JoinKeepsNames(derivs, Column(arms, i))
  }

  /** Whichever arm ran, the joined row records every place its values may view. */
  lemma JoinedRecorded(ctx: Ctx, derivs: seq<Deriv>, arms: seq<seq<Slot>>, armViews: seq<seq<set<string>>>, taken: nat,
        row: seq<Slot>, reading: Reading)
    requires taken < |arms| == |armViews| && ArmsAgree(ctx, derivs, arms) && IsJoined(row, arms)
    requires forall k :: 0 <= k < |arms| ==> RowRecorded(ctx, derivs, arms[k], armViews[k], reading)
    requires reading.Names? ==> ArmsKeepNames(derivs, arms)
    ensures RowRecorded(ctx, derivs, row, armViews[taken], reading)
  {
    hide Records;
    assert RowRecorded(ctx, derivs, arms[taken], armViews[taken], reading);
    assert TypesOf(arms[taken]) == TypesOf(row);
    forall i | 0 <= i < |row| ensures SlotRecorded(ctx, derivs, row[i], armViews[taken][i], reading) {
      var c := Column(arms, i);
      forall k | 0 <= k < |c| ensures DerivOk(derivs, c[k]) {
        assert RowRecorded(ctx, derivs, arms[k], armViews[k], reading);
        assert SlotRecorded(ctx, derivs, arms[k][i], armViews[k][i], reading);
      }
      assert SlotRecorded(ctx, derivs, arms[taken][i], armViews[taken][i], reading);
      JoinedIsFirst(c);
      forall p | p in armViews[taken][i] ensures Records(derivs, row[i].deriv, p, reading) {
        JoinRecords(derivs, c, taken, p, reading);
      }
      assert row[i].ty == TypesOf(row)[i] == TypesOf(arms[taken])[i] == arms[taken][i].ty;
    }
  }
}
