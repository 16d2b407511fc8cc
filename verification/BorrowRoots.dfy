/** When a frame place stays the owned root of everything that reaches it: exactly, for every step and for every
    run. */
module BorrowRoots {
  import opened Types
  import opened Borrow
  import opened BorrowJoin
  import opened BorrowSteps
  import opened BorrowRuns

  /** Every value that may reach `p`, on the stack or in scope, has `p` as its owned root. */
  ghost predicate RootedAt(s: State, p: string) {
    forall d :: Reaches(s, p, d) ==> RootOf(s.derivs, d) == Some(p)
  }

  /** What holds of every state whatever the roots: records exist, and a value whose type bears no reference
      reaches nothing. */
  ghost predicate WellFormed(ctx: Ctx, s: State) { Recorded(ctx, s, Roots(iset{})) }

  lemma RootedIsRecorded(ctx: Ctx, s: State, p: string)
    ensures Recorded(ctx, s, Roots(iset{p})) <==> WellFormed(ctx, s) && RootedAt(s, p)
  {
    if Recorded(ctx, s, Roots(iset{p})) {
      FewerRoots(ctx, s, iset{p}, iset{});
      forall d | Reaches(s, p, d) ensures RootOf(s.derivs, d) == Some(p) {
        ReachesRecords(ctx, s, p, d, Roots(iset{p}));
      }
    } else if WellFormed(ctx, s) && RootedAt(s, p) {
      RootedRecords(ctx, s, p);
    }
  }

  lemma RootedRecords(ctx: Ctx, s: State, p: string)
    requires WellFormed(ctx, s) && RootedAt(s, p)
    ensures Recorded(ctx, s, Roots(iset{p}))
  {
    forall i | 0 <= i < |s.stack| ensures SlotRecorded(ctx, s.derivs, s.stack[i], s.views[i], Roots(iset{p})) {
      assert SlotRecorded(ctx, s.derivs, s.stack[i], s.views[i], Roots(iset{}));
      if p in s.views[i] { assert Reaches(s, p, s.stack[i].deriv); }
    }
    forall i | 0 <= i < |s.bound|
      ensures SlotRecorded(ctx, s.derivs, Held(s.bound)[i], s.boundViews[i], Roots(iset{p}))
    {
      assert SlotRecorded(ctx, s.derivs, Held(s.bound)[i], s.boundViews[i], Roots(iset{}));
      if p in s.boundViews[i] { assert Reaches(s, p, s.bound[i].deriv); }
    }
  }

  // ---------------------------------------------------------------- one step

  /** A step keeps a place the root of everything that reaches it exactly when it meets its guard: it is no borrow
      of that place while it holds something rooted elsewhere, and no store that lets a value rooted elsewhere
      reach the place or that leaves its container without a root. */
  lemma StepKeepsRootExactly(ctx: Ctx, s: State, m: Move, t: State, p: string)
    requires WellFormed(ctx, s) && RootedAt(s, p) && Moves(ctx, s, m, t)
    ensures RootedAt(t, p) <==> KeepsRoot(ctx, s, m, p)
  {
    RootedIsRecorded(ctx, s, p);
    RootedIsRecorded(ctx, t, p);
    if KeepsRoot(ctx, s, m, p) {
      hide Recorded, Moves, KeepsRoot;
      assert Keeps(ctx, s, m, Roots(iset{p}));
      MoveRecorded(ctx, s, m, t, Roots(iset{p}));
    } else {
      match m
      case BorrowOf(place, mutable, ty) => BorrowLosesRoot(ctx, s, t, place, mutable, ty);
      case StoreTo(target) => StoreLosesRoot(ctx, s, t, target, p);
      case _ =>
    }
  }

  /** A borrow of a place that holds something rooted elsewhere reaches the place under the other root. */
  lemma BorrowLosesRoot(ctx: Ctx, s: State, t: State, place: string, mutable: bool, ty: Ty)
    requires Borrows(ctx, s, t, place, mutable, ty) && !ThroughKeepsRoot(s.derivs, place, HeldDeriv(s.bound, place))
    requires |s.stack| == |s.views|
    ensures !RootedAt(t, place)
  {
    var d := Some(|s.derivs|);
    assert t.stack[|s.stack|].deriv == d && place in t.views[|s.stack|];
    assert Reaches(t, place, d);
  }

  /** After a store that misses its guard, some value reaches `p` under another record. */
  lemma StoreLosesRoot(ctx: Ctx, s: State, t: State, target: Option<string>, p: string)
    requires Stores(ctx, s, t, target) && !StoreKeepsRoot(ctx, s, target, p) && WellFormed(ctx, s)
    ensures !RootedAt(t, p)
  {
    hide InFrame, StoreClash, Local, Container, WellFormed;
    var n := |s.stack| - 2;
    var value := s.stack[n + 1];
    var c := Container(s, s.stack[n]);
    if i :| 0 <= i < n && p in s.views[n + 1] && StrayBeneath(s, target, p, i) {
      assert Reaches(t, p, s.stack[i].deriv);
    } else if i :| 0 <= i < |s.bound| && i != c && p in s.views[n + 1] && StrayLocal(s, target, p, i) {
      assert t.bound[i].deriv == s.bound[i].deriv;
      assert Reaches(t, p, s.bound[i].deriv);
    } else {
      assert t.bound[c].deriv == value.deriv && p in t.boundViews[c];
      assert Reaches(t, p, value.deriv);
    }
  }

  // ---------------------------------------------------------------- every run

  /** `p` stays the root of everything that reaches it in every state the run passes, inside its arms too. */
  ghost predicate RootedAlong(run: Run, p: string)
    decreases run
  {
    match run
    case Start => true
    case Then(before, at, _) => RootedAlong(before, p) && RootedAt(at, p)
    case Eliminate(before, at, arms, ends, _) =>
      && RootedAlong(before, p) && RootedAt(at, p)
      && |ends| == |arms| && forall k :: 0 <= k < |arms| ==> RootedAlong(arms[k], p) && RootedAt(ends[k], p)
  }

  /** Every run from an entry state, exactly: `p` is the root of everything that reaches it in every state passed
      and in the last one, if and only if every borrow of `p`, every store and every arm that ran meets its
      guard. */
  lemma {:induction false} RunKeepsRootExactly(ctx: Ctx, s: State, run: Run, t: State, p: string)
    requires Entry(s) && Leads(ctx, s, run, t)
    ensures RootedAlong(run, p) && RootedAt(t, p) <==> RunKeeps(ctx, run, Roots(iset{p}))
  {
    EntryRecorded(ctx, s, Roots(iset{p}));
    LeadsExactly(ctx, s, run, t, p);
  }

  lemma {:induction false} LeadsExactly(ctx: Ctx, s: State, run: Run, t: State, p: string)
    requires Recorded(ctx, s, Roots(iset{p})) && Leads(ctx, s, run, t)
    ensures RootedAlong(run, p) && RootedAt(t, p) <==> RunKeeps(ctx, run, Roots(iset{p}))
    decreases run, 2
  {
    hide Recorded, Moves, ArmRan, Eliminates, RootedAt, KeepsRoot, ScopeKeeps, JoinKeeps, WellFormed;
    match run
    case Start => RootedIsRecorded(ctx, s, p);
    case Then(before, at, move) =>
      LeadsExactly(ctx, s, before, at, p);
      if RunKeeps(ctx, before, Roots(iset{p})) {
        LeadsRecorded(ctx, s, before, at, Roots(iset{p}));
        RootedIsRecorded(ctx, at, p);
        StepKeepsRootExactly(ctx, at, move, t, p);
      }
    case Eliminate(before, at, _, _, _) =>
      LeadsExactly(ctx, s, before, at, p);
      if RunKeeps(ctx, before, Roots(iset{p})) {
        LeadsRecorded(ctx, s, before, at, Roots(iset{p}));
        RootedIsRecorded(ctx, at, p);
        EliminateExactly(ctx, run, t, p);
        EliminateUnfolds(ctx, run, p);
      }
  }

  lemma EliminateUnfolds(ctx: Ctx, run: Run, p: string)
    requires run.Eliminate? && run.taken < |run.ends| == |run.arms|
    ensures RootedAlong(run, p) <==> RootedAlong(run.before, p) && RootedAt(run.at, p) && ArmsRooted(run, |run.arms|, p)
    ensures RunKeeps(ctx, run, Roots(iset{p})) <==>
            RunKeeps(ctx, run.before, Roots(iset{p})) && ArmsKeep(ctx, run, |run.arms|, p) &&
            ScopeKeepsRoot(run.at, run.ends[run.taken], p)
  {
    hide ScopeKeepsRoot, RootedAt;
    assert ScopeKeeps(run.at, run.ends[run.taken], Roots(iset{p})) <==> ScopeKeepsRoot(run.at, run.ends[run.taken], p);
  }

  /** The first `k` arms stay rooted, and meet their guards. */
  ghost predicate ArmsRooted(run: Run, k: nat, p: string)
    requires run.Eliminate? && k <= |run.arms| == |run.ends|
  {
    forall j :: 0 <= j < k ==> RootedAlong(run.arms[j], p) && RootedAt(run.ends[j], p)
  }

  ghost predicate ArmsKeep(ctx: Ctx, run: Run, k: nat, p: string)
    requires run.Eliminate? && k <= |run.arms|
  {
    forall j :: 0 <= j < k ==> RunKeeps(ctx, run.arms[j], Roots(iset{p}))
  }

  lemma ArmsUnfold(ctx: Ctx, run: Run, k: nat, p: string)
    requires run.Eliminate? && k <= |run.arms| == |run.ends|
    ensures ArmsRooted(run, k, p) <==>
              k == 0 || (ArmsRooted(run, k - 1, p) && RootedAlong(run.arms[k - 1], p) && RootedAt(run.ends[k - 1], p))
    ensures ArmsKeep(ctx, run, k, p) <==>
              k == 0 || (ArmsKeep(ctx, run, k - 1, p) && RunKeeps(ctx, run.arms[k - 1], Roots(iset{p})))
  {
    hide RunKeeps, RootedAt, RootedAlong;
  }

  lemma {:induction false} ArmsExactly(ctx: Ctx, run: Run, k: nat, p: string)
    requires run.Eliminate? && Recorded(ctx, run.at, Roots(iset{p})) && k <= |run.arms| == |run.ends|
    requires forall j :: 0 <= j < k ==>
               ArmRan(ctx, run.at, RecordsBefore(run.at, run.ends, j), run.arms[j], run.ends[j])
    ensures ArmsRooted(run, k, p) <==> ArmsKeep(ctx, run, k, p)
    decreases run, 0, k
  {
    hide Recorded, Receives, Leads, RunKeeps, RootedAt, RootedAlong, ArmRan, RecordsBefore, ArmsRooted, ArmsKeep;
    ArmsUnfold(ctx, run, k, p);
    if k > 0 {
      ArmsExactly(ctx, run, k - 1, p);
      if ArmsKeep(ctx, run, k - 1, p) {
        KeptArms(ctx, run, k - 1, p);
        ArmsRecorded(ctx, run, k - 1, Roots(iset{p}));
        ArmExactly(ctx, run, k - 1, p);
      }
    }
  }

  lemma {:induction false} ArmExactly(ctx: Ctx, run: Run, k: nat, p: string)
    requires run.Eliminate? && Recorded(ctx, run.at, Roots(iset{p})) && k < |run.arms| == |run.ends|
    requires run.at.derivs <= RecordsBefore(run.at, run.ends, k)
    requires ArmRan(ctx, run.at, RecordsBefore(run.at, run.ends, k), run.arms[k], run.ends[k])
    ensures RootedAlong(run.arms[k], p) && RootedAt(run.ends[k], p) <==> RunKeeps(ctx, run.arms[k], Roots(iset{p}))
    decreases run, 0, k
  {
    hide Recorded, Receives, Leads, RunKeeps, RootedAt, RootedAlong;
    var records := RecordsBefore(run.at, run.ends, k);
    var start :| Receives(ctx, run.at, records, start) && Leads(ctx, start, run.arms[k], run.ends[k]);
    ReceivesRecorded(ctx, run.at, records, start, Roots(iset{p}));
    LeadsExactly(ctx, start, run.arms[k], run.ends[k], p);
  }

  /** An eliminator call from a rooted state. */
  lemma {:induction false} EliminateExactly(ctx: Ctx, run: Run, t: State, p: string)
    requires run.Eliminate? && Recorded(ctx, run.at, Roots(iset{p})) && Eliminates(ctx, run, t)
    ensures run.taken < |run.ends| == |run.arms|
    ensures ArmsRooted(run, |run.arms|, p) && RootedAt(t, p) <==>
            ArmsKeep(ctx, run, |run.arms|, p) && ScopeKeepsRoot(run.at, run.ends[run.taken], p)
    decreases run, 1
  {
    EliminateParts(ctx, run, t);
    hide *;
    ArmsExactly(ctx, run, |run.arms|, p);
    if ArmsKeep(ctx, run, |run.arms|, p) {
      KeptArms(ctx, run, |run.arms|, p);
      ArmsRecorded(ctx, run, |run.arms|, Roots(iset{p}));
      JoinExactly(ctx, run, t, p);
    }
  }

  lemma KeptArms(ctx: Ctx, run: Run, k: nat, p: string)
    requires run.Eliminate? && k <= |run.arms| && ArmsKeep(ctx, run, k, p)
    ensures forall j :: 0 <= j < k ==> RunKeeps(ctx, run.arms[j], Roots(iset{p}))
  {
  }

  /** Arms that stay rooted are joined into a rooted state exactly when the arm that ran moved the root of no local
      of the caller that reaches `p`. */
  lemma JoinExactly(ctx: Ctx, run: Run, t: State, p: string)
    requires run.Eliminate? && Recorded(ctx, run.at, Roots(iset{p})) && run.taken < |run.ends| == |run.arms|
    requires t.bound == run.at.bound && t.boundViews == run.ends[run.taken].boundViews
    requires t.views == run.ends[run.taken].views && SameNames(run.at.bound, run.ends[run.taken].bound)
    requires ArmsAgree(ctx, t.derivs, Rows(run.ends)) && IsJoined(t.stack, Rows(run.ends))
    requires forall k :: 0 <= k < |run.ends| ==>
               run.at.derivs <= run.ends[k].derivs <= t.derivs && Recorded(ctx, run.ends[k], Roots(iset{p}))
    ensures RootedAt(t, p) <==> ScopeKeepsRoot(run.at, run.ends[run.taken], p)
  {
    var end := run.ends[run.taken];
    if ScopeKeepsRoot(run.at, end, p) {
      hide Recorded, ScopeKeepsRoot, ArmsAgree, IsJoined, RootedAt, WellFormed, SameNames;
      assert ScopeKeeps(run.at, end, Roots(iset{p}));
      JoinRecorded(ctx, run, t, Roots(iset{p}));
      RootedIsRecorded(ctx, t, p);
    } else {
      ScopeLosesRoot(ctx, run.at, end, t, p);
    }
  }

  lemma ScopeLosesRoot(ctx: Ctx, at: State, end: State, t: State, p: string)
    requires Recorded(ctx, at, Roots(iset{p})) && Recorded(ctx, end, Roots(iset{p})) && SameNames(at.bound, end.bound)
    requires at.derivs <= end.derivs <= t.derivs && t.bound == at.bound && t.boundViews == end.boundViews
    requires !ScopeKeepsRoot(at, end, p)
    ensures !RootedAt(t, p)
  {
    var i :| 0 <= i < |at.bound| && p in end.boundViews[i] &&
      RootOf(end.derivs, at.bound[i].deriv) != RootOf(end.derivs, end.bound[i].deriv);
    assert SlotRecorded(ctx, end.derivs, Held(end.bound)[i], end.boundViews[i], Roots(iset{p}));
    assert SlotRecorded(ctx, at.derivs, Held(at.bound)[i], at.boundViews[i], Roots(iset{p}));
    assert Records(end.derivs, end.bound[i].deriv, p, Roots(iset{p}));
    assert Reaches(t, p, at.bound[i].deriv);
  }
}
