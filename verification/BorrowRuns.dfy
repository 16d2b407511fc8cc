/** Whole runs of the walk: what every run keeps, and what more is kept by the runs that meet their guards. */
module BorrowRuns {
  import opened Types
  import opened Borrow
  import opened BorrowJoin
  import opened BorrowSteps

  /** A run: single steps, and eliminator calls whose arms are runs themselves. */
  datatype Run =
    | Start
    | Then(before: Run, at: State, move: Move)
    | Eliminate(before: Run, at: State, arms: seq<Run>, ends: seq<State>, taken: nat)

  /** The state an arm starts from: the caller's own scrutinee, retyped to the arm's variant, over the
      records made so far. */
  ghost predicate Receives(ctx: Ctx, at: State, derivs: seq<Deriv>, s: State) {
    && at.stack != [] && |at.stack| == |at.views| == |s.stack| == |s.views| && s.derivs == derivs && SameScope(at, s)
    && var top := |at.stack| - 1;
       && s.stack[..top] == at.stack[..top] && s.views[..top] == at.views[..top]
       && s.stack[top].deriv == at.stack[top].deriv && s.views[top] <= at.views[top]
       && (!ctx.bears(s.stack[top].ty) ==> s.views[top] == {})
  }

  function RecordsBefore(at: State, ends: seq<State>, k: nat): seq<Deriv>
    requires k <= |ends|
  {
    if k == 0 then at.derivs else ends[k - 1].derivs
  }

  function Rows(ends: seq<State>): (r: seq<seq<Slot>>)
    ensures |r| == |ends| && forall k :: 0 <= k < |ends| ==> r[k] == ends[k].stack
  {
    seq(|ends|, k requires 0 <= k < |ends| => ends[k].stack)
  }

  /** The names an arm's block ends with are those it started with. */
  predicate SameNames(a: seq<Binding>, b: seq<Binding>) {
    |a| == |b| && forall i :: 0 <= i < |a| ==> a[i].name == b[i].name && a[i].ty == b[i].ty
  }

  /** The guard under which dropping an arm's bookings keeps every name, and under which it keeps the root `p`:
      the arm stored nothing into a local of the caller that its old record does not name, or that moved the
      root of one that reaches `p`. */
  predicate ScopeKeepsNames(at: State, end: State) {
    |at.bound| == |end.bound| ==>
      forall i :: 0 <= i < |at.bound| ==> NamesBoth(end.derivs, end.bound[i].deriv, at.bound[i].deriv)
  }

  predicate ScopeKeepsRoot(at: State, end: State, p: string) {
    |at.bound| == |end.bound| == |end.boundViews| ==>
      forall i :: 0 <= i < |at.bound| && p in end.boundViews[i] ==>
        RootOf(end.derivs, at.bound[i].deriv) == RootOf(end.derivs, end.bound[i].deriv)
  }

  ghost predicate ScopeKeeps(at: State, end: State, reading: Reading) {
    match reading
    case Names => ScopeKeepsNames(at, end)
    case Roots(kept) => forall p :: p in kept ==> ScopeKeepsRoot(at, end, p)
  }

  /** `run` leads from `s` to `t`. */
  ghost predicate Leads(ctx: Ctx, s: State, run: Run, t: State)
    decreases run, 1
  {
    match run
    case Start => s == t
    case Then(before, at, move) => Leads(ctx, s, before, at) && Moves(ctx, at, move, t)
    case Eliminate(before, at, _, _, _) => Leads(ctx, s, before, at) && Eliminates(ctx, run, t)
  }

  /** Arms are walked in written order over one growing list of records, each in its own copy of the caller's
      scope, and joined; at run time the arm `taken` ran. The caller's names keep the records they had: what an
      arm's stores booked to them is dropped with its copy. */
  ghost predicate Eliminates(ctx: Ctx, run: Run, t: State)
    requires run.Eliminate?
    decreases run, 0
  {
    && run.taken < |run.ends| == |run.arms|
    && (forall k :: 0 <= k < |run.arms| ==>
          ArmRan(ctx, run.at, RecordsBefore(run.at, run.ends, k), run.arms[k], run.ends[k]))
    && (forall k :: 0 <= k < |run.arms| ==> SameNames(run.at.bound, run.ends[k].bound))
    && t.derivs == run.ends[|run.ends| - 1].derivs && t.views == run.ends[run.taken].views
    && t.bound == run.at.bound && t.boundViews == run.ends[run.taken].boundViews
    && ArmsAgree(ctx, t.derivs, Rows(run.ends)) && IsJoined(t.stack, Rows(run.ends))
  }

  ghost predicate ArmRan(ctx: Ctx, at: State, derivs: seq<Deriv>, arm: Run, end: State)
    decreases arm, 2
  {
    exists start :: Receives(ctx, at, derivs, start) && Leads(ctx, start, arm, end)
  }

  /** Every step of the run, every join and every arm that ran meets the guard under which it keeps the
      records. */
  ghost predicate RunKeeps(ctx: Ctx, run: Run, reading: Reading)
    decreases run
  {
    match run
    case Start => true
    case Then(before, at, move) => RunKeeps(ctx, before, reading) && Keeps(ctx, at, move, reading)
    case Eliminate(before, at, arms, ends, taken) =>
      && RunKeeps(ctx, before, reading) && (forall k :: 0 <= k < |arms| ==> RunKeeps(ctx, arms[k], reading))
      && (taken < |ends| ==> ScopeKeeps(at, ends[taken], reading))
      && (reading.Names? ==> JoinKeeps(ends))
  }

  /** The places of `kept` that every one of the runs keeps the root of. */
  ghost function KeptByAll(ctx: Ctx, runs: seq<Run>, kept: iset<string>): iset<string> {
    iset p | p in kept && forall k :: 0 <= k < |runs| ==> RunKeeps(ctx, runs[k], Roots(iset{p}))
  }

  /** A run that keeps the root of each place keeps all of them. */
  lemma {:induction false} RunKeepsEach(ctx: Ctx, run: Run, kept: iset<string>)
    requires forall p :: p in kept ==> RunKeeps(ctx, run, Roots(iset{p}))
    ensures RunKeeps(ctx, run, Roots(kept))
    decreases run
  {
    hide KeepsRoot, ScopeKeepsRoot, JoinKeeps;
    match run
    case Start =>
    case Then(before, at, move) =>
      RunKeepsEach(ctx, before, kept);
      forall p | p in kept ensures KeepsRoot(ctx, at, move, p) {
        assert Keeps(ctx, at, move, Roots(iset{p}));
      }
    case Eliminate(before, at, arms, ends, taken) =>
      RunKeepsEach(ctx, before, kept);
      forall k | 0 <= k < |arms| ensures RunKeeps(ctx, arms[k], Roots(kept)) {
        RunKeepsEach(ctx, arms[k], kept);
      }
      if taken < |ends| {
        forall p | p in kept ensures ScopeKeepsRoot(at, ends[taken], p) {
          assert ScopeKeeps(at, ends[taken], Roots(iset{p}));
        }
      }
  }

  lemma KeptByAllIsKept(ctx: Ctx, runs: seq<Run>, kept: iset<string>)
    ensures KeptByAll(ctx, runs, kept) <= kept
    ensures forall k :: 0 <= k < |runs| ==> RunKeeps(ctx, runs[k], Roots(KeptByAll(ctx, runs, kept)))
  {
    hide RunKeeps;
    forall k | 0 <= k < |runs| ensures RunKeeps(ctx, runs[k], Roots(KeptByAll(ctx, runs, kept))) {
      RunKeepsEach(ctx, runs[k], KeptByAll(ctx, runs, kept));
    }
  }

  ghost predicate JoinKeeps(ends: seq<State>) {
    ends != [] && (forall k :: 0 <= k < |ends| ==> |ends[k].stack| == |ends[0].stack|) ==>
      ArmsKeepNames(ends[|ends| - 1].derivs, Rows(ends))
  }

  /** A state over more records. */
  lemma StateGrows(ctx: Ctx, s: State, more: seq<Deriv>, reading: Reading)
    requires Recorded(ctx, s, reading) && s.derivs <= more
    ensures Recorded(ctx, s.(derivs := more), reading)
  {
    RecordedGrows(ctx, s.derivs, more, s.stack, s.views, reading);
    RecordedGrows(ctx, s.derivs, more, Held(s.bound), s.boundViews, reading);
  }

  lemma EliminatesIs(ctx: Ctx, run: Run, t: State)
    requires run.Eliminate? && run.taken < |run.ends| == |run.arms|
    requires t.derivs == RecordsBefore(run.at, run.ends, |run.ends|)
    requires forall k :: 0 <= k < |run.arms| ==>
               ArmRan(ctx, run.at, RecordsBefore(run.at, run.ends, k), run.arms[k], run.ends[k]) &&
                 SameNames(run.at.bound, run.ends[k].bound)
    requires t.bound == run.at.bound && t.boundViews == run.ends[run.taken].boundViews
    requires t.views == run.ends[run.taken].views
    requires ArmsAgree(ctx, t.derivs, Rows(run.ends)) && IsJoined(t.stack, Rows(run.ends))
    ensures Eliminates(ctx, run, t)
  {
    hide ArmsAgree, IsJoined, ArmRan, SameNames;
  }

  lemma ReceivesRecorded(ctx: Ctx, at: State, derivs: seq<Deriv>, s: State, reading: Reading)
    requires Recorded(ctx, at, reading) && at.derivs <= derivs && Receives(ctx, at, derivs, s)
    ensures Recorded(ctx, s, reading) && s.derivs == derivs
  {
    RecordedGrows(ctx, at.derivs, derivs, at.stack, at.views, reading);
    RecordedGrows(ctx, at.derivs, derivs, Held(at.bound), at.boundViews, reading);
    hide Records;
    forall i | 0 <= i < |s.stack| ensures SlotRecorded(ctx, s.derivs, s.stack[i], s.views[i], reading) {
      assert SlotRecorded(ctx, derivs, at.stack[i], at.views[i], reading);
      if i < |at.stack| - 1 {
        assert s.stack[..|at.stack| - 1][i] == at.stack[..|at.stack| - 1][i];
        assert s.views[..|at.stack| - 1][i] == at.views[..|at.stack| - 1][i];
      }
    }
  }

  lemma RecordsStep(at: State, ends: seq<State>, k: nat)
    requires k <= |ends|
    ensures RecordsBefore(at, ends, k) == if k == 0 then at.derivs else ends[k - 1].derivs
  {
  }

  /** After the first `k` arms, each has left a recorded state over records that only grew. */
  lemma {:induction false} ArmsRecorded(ctx: Ctx, run: Run, k: nat, reading: Reading)
    requires run.Eliminate? && Recorded(ctx, run.at, reading) && k <= |run.arms| == |run.ends|
    requires forall j :: 0 <= j < k ==>
               ArmRan(ctx, run.at, RecordsBefore(run.at, run.ends, j), run.arms[j], run.ends[j])
    requires forall j :: 0 <= j < k ==> RunKeeps(ctx, run.arms[j], reading)
    ensures run.at.derivs <= RecordsBefore(run.at, run.ends, k)
    ensures forall j :: 0 <= j < k ==>
              run.at.derivs <= run.ends[j].derivs <= RecordsBefore(run.at, run.ends, k) &&
                Recorded(ctx, run.ends[j], reading)
    decreases run, 0, k
  {
    hide Recorded, Receives, Leads, RunKeeps, ArmRan, RecordsBefore;
    RecordsStep(run.at, run.ends, k);
    if k > 0 {
      ArmsRecorded(ctx, run, k - 1, reading);
      ArmRecorded(ctx, run, k - 1, reading);
    }
  }

  lemma {:induction false} ArmRecorded(ctx: Ctx, run: Run, k: nat, reading: Reading)
    requires run.Eliminate? && Recorded(ctx, run.at, reading) && k < |run.arms| == |run.ends|
    requires run.at.derivs <= RecordsBefore(run.at, run.ends, k)
    requires ArmRan(ctx, run.at, RecordsBefore(run.at, run.ends, k), run.arms[k], run.ends[k])
    requires RunKeeps(ctx, run.arms[k], reading)
    ensures Recorded(ctx, run.ends[k], reading) && RecordsBefore(run.at, run.ends, k) <= run.ends[k].derivs
    decreases run, 0, k
  {
    hide Recorded, Receives, Leads, RunKeeps;
    var records := RecordsBefore(run.at, run.ends, k);
    var start :| Receives(ctx, run.at, records, start) && Leads(ctx, start, run.arms[k], run.ends[k]);
    ReceivesRecorded(ctx, run.at, records, start, reading);
    LeadsRecorded(ctx, start, run.arms[k], run.ends[k], reading);
  }

  lemma EndsJoin(ctx: Ctx, ends: seq<State>, taken: nat, t: State, reading: Reading)
    requires taken < |ends| && ArmsAgree(ctx, t.derivs, Rows(ends)) && IsJoined(t.stack, Rows(ends))
    requires t.views == ends[taken].views
    requires forall k :: 0 <= k < |ends| ==> ends[k].derivs <= t.derivs && Recorded(ctx, ends[k], reading)
    requires reading.Names? ==> ArmsKeepNames(t.derivs, Rows(ends))
    ensures RowRecorded(ctx, t.derivs, t.stack, t.views, reading)
  {
    hide RowRecorded, ArmsAgree, IsJoined, ArmsKeepNames;
    forall k | 0 <= k < |ends| ensures RowRecorded(ctx, t.derivs, ends[k].stack, ends[k].views, reading) {
      RecordedGrows(ctx, ends[k].derivs, t.derivs, ends[k].stack, ends[k].views, reading);
    }
    JoinedRecorded(ctx, t.derivs, Rows(ends), seq(|ends|, k requires 0 <= k < |ends| => ends[k].views), taken, t.stack,
                   reading);
  }

  /** The caller's names, under the records they had before the arm that ran. */
  lemma ScopeRecorded(ctx: Ctx, at: State, end: State, derivs: seq<Deriv>, reading: Reading)
    requires Recorded(ctx, at, reading) && Recorded(ctx, end, reading) && SameNames(at.bound, end.bound)
    requires at.derivs <= end.derivs <= derivs && ScopeKeeps(at, end, reading)
    ensures RowRecorded(ctx, derivs, Held(at.bound), end.boundViews, reading)
  {
    forall i | 0 <= i < |at.bound|
      ensures SlotRecorded(ctx, end.derivs, Held(at.bound)[i], end.boundViews[i], reading)
    {
      assert SlotRecorded(ctx, at.derivs, Held(at.bound)[i], at.boundViews[i], reading);
      assert SlotRecorded(ctx, end.derivs, Held(end.bound)[i], end.boundViews[i], reading);
      forall p | p in end.boundViews[i] ensures Records(end.derivs, at.bound[i].deriv, p, reading) {
        assert Records(end.derivs, end.bound[i].deriv, p, reading);
        if reading.Roots? && p in reading.kept { assert ScopeKeepsRoot(at, end, p); }
      }
    }
    RecordedGrows(ctx, end.derivs, derivs, Held(at.bound), end.boundViews, reading);
  }

  lemma {:induction false} EliminateRecorded(ctx: Ctx, run: Run, t: State, reading: Reading)
    requires run.Eliminate? && Recorded(ctx, run.at, reading) && Eliminates(ctx, run, t) && RunKeeps(ctx, run, reading)
    ensures Recorded(ctx, t, reading) && run.at.derivs <= t.derivs
    decreases run, 1
  {
    hide *;
    EliminateParts(ctx, run, t);
    GuardParts(ctx, run, reading);
    ArmsRecorded(ctx, run, |run.arms|, reading);
    if reading.Names? { GuardAtJoin(ctx, run.ends, t.derivs); }
    JoinRecorded(ctx, run, t, reading);
  }

  lemma JoinRecorded(ctx: Ctx, run: Run, t: State, reading: Reading)
    requires run.Eliminate? && Recorded(ctx, run.at, reading) && run.taken < |run.ends| == |run.arms|
    requires ScopeKeeps(run.at, run.ends[run.taken], reading)
    requires t.bound == run.at.bound && t.boundViews == run.ends[run.taken].boundViews
    requires t.views == run.ends[run.taken].views
    requires SameNames(run.at.bound, run.ends[run.taken].bound)
    requires ArmsAgree(ctx, t.derivs, Rows(run.ends)) && IsJoined(t.stack, Rows(run.ends))
    requires forall k :: 0 <= k < |run.ends| ==> run.ends[k].derivs <= t.derivs && Recorded(ctx, run.ends[k], reading)
    requires run.at.derivs <= run.ends[run.taken].derivs
    requires reading.Names? ==> ArmsKeepNames(t.derivs, Rows(run.ends))
    ensures Recorded(ctx, t, reading)
  {
    hide RowRecorded, ArmsAgree, IsJoined, ArmsKeepNames, ScopeKeeps, SameNames;
    EndsJoin(ctx, run.ends, run.taken, t, reading);
    ScopeRecorded(ctx, run.at, run.ends[run.taken], t.derivs, reading);
  }

  lemma EliminateParts(ctx: Ctx, run: Run, t: State)
    requires run.Eliminate? && Eliminates(ctx, run, t)
    ensures run.taken < |run.ends| == |run.arms|
    ensures t.derivs == RecordsBefore(run.at, run.ends, |run.arms|) == run.ends[|run.ends| - 1].derivs
    ensures forall k :: 0 <= k < |run.arms| ==>
              ArmRan(ctx, run.at, RecordsBefore(run.at, run.ends, k), run.arms[k], run.ends[k])
    ensures t.views == run.ends[run.taken].views && t.bound == run.at.bound
    ensures t.boundViews == run.ends[run.taken].boundViews
    ensures SameNames(run.at.bound, run.ends[run.taken].bound)
    ensures ArmsAgree(ctx, t.derivs, Rows(run.ends)) && IsJoined(t.stack, Rows(run.ends))
  {
    hide ArmsAgree, IsJoined, ArmRan, Leads, Receives, SameNames, Rows, Joinable, Column;
  }

  lemma GuardParts(ctx: Ctx, run: Run, reading: Reading)
    requires run.Eliminate? && run.taken < |run.ends| && RunKeeps(ctx, run, reading)
    ensures forall k :: 0 <= k < |run.arms| ==> RunKeeps(ctx, run.arms[k], reading)
    ensures ScopeKeeps(run.at, run.ends[run.taken], reading) && (reading.Names? ==> JoinKeeps(run.ends))
  {
    hide ScopeKeeps, JoinKeeps, Keeps;
  }

  lemma GuardAtJoin(ctx: Ctx, ends: seq<State>, derivs: seq<Deriv>)
    requires ends != [] && derivs == ends[|ends| - 1].derivs && ArmsAgree(ctx, derivs, Rows(ends)) && JoinKeeps(ends)
    ensures ArmsKeepNames(derivs, Rows(ends))
  {
    hide Joinable, JoinKeepsNames, Column;
    assert forall k :: 0 <= k < |ends| ==> |Rows(ends)[k]| == |Rows(ends)[0]|;
  }

  lemma LeadsOn(ctx: Ctx, s: State, run: Run, at: State, move: Move, t: State)
    requires Leads(ctx, s, run, at) && Moves(ctx, at, move, t)
    ensures Leads(ctx, s, Then(run, at, move), t)
  {
    hide Moves;
  }

  lemma ArmRanFrom(ctx: Ctx, at: State, derivs: seq<Deriv>, start: State, arm: Run, end: State)
    requires Receives(ctx, at, derivs, start) && Leads(ctx, start, arm, end)
    ensures ArmRan(ctx, at, derivs, arm, end)
  {
    hide Receives, Leads;
  }

  lemma LeadsNowhere(ctx: Ctx, s: State)
    ensures Leads(ctx, s, Start, s)
  {
  }

  lemma {:induction false} LeadsRecorded(ctx: Ctx, s: State, run: Run, t: State, reading: Reading)
    requires Recorded(ctx, s, reading) && Leads(ctx, s, run, t) && RunKeeps(ctx, run, reading)
    ensures Recorded(ctx, t, reading) && s.derivs <= t.derivs
    decreases run, 2
  {
    hide Recorded, Moves, ArmRan, Eliminates, Keeps;
    match run
    case Start =>
    case Then(before, at, move) =>
      LeadsRecorded(ctx, s, before, at, reading);
      MoveRecorded(ctx, at, move, t, reading);
    case Eliminate(before, at, _, _, _) =>
      LeadsRecorded(ctx, s, before, at, reading);
      EliminateRecorded(ctx, run, t, reading);
  }

  /** Where the walk of a body starts: its inputs reach no place of this frame. */
  ghost predicate Entry(s: State) {
    && s.bound == [] && s.boundViews == [] && s.derivs == [] && |s.stack| == |s.views|
    && forall i :: 0 <= i < |s.stack| ==> s.stack[i].deriv == None && s.views[i] == {}
  }

  lemma EntryRecorded(ctx: Ctx, s: State, reading: Reading)
    requires Entry(s)
    ensures Recorded(ctx, s, reading)
  {
  }

  /** A value on the stack or in scope that may reach `p`, with the derivation it carries. */
  ghost predicate Reaches(s: State, p: string, d: Option<nat>) {
    || (exists i :: 0 <= i < |s.stack| && i < |s.views| && p in s.views[i] && s.stack[i].deriv == d)
    || (exists i :: 0 <= i < |s.bound| && i < |s.boundViews| && p in s.boundViews[i] && s.bound[i].deriv == d)
  }

  lemma ReachesRecords(ctx: Ctx, s: State, p: string, d: Option<nat>, reading: Reading)
    requires Recorded(ctx, s, reading) && Reaches(s, p, d)
    ensures Records(s.derivs, d, p, reading)
  {
    hide Records;
    if i :| 0 <= i < |s.stack| && i < |s.views| && p in s.views[i] && s.stack[i].deriv == d {
      assert SlotRecorded(ctx, s.derivs, s.stack[i], s.views[i], reading);
    } else {
      var i :| 0 <= i < |s.bound| && i < |s.boundViews| && p in s.boundViews[i] && s.bound[i].deriv == d;
      assert SlotRecorded(ctx, s.derivs, Held(s.bound)[i], s.boundViews[i], reading);
    }
  }

  /** No borrow is laundered from its root: in every run whose borrows of `p` and stores meet the guard, whatever
      its arms do and whichever of them ran, every value that may reach `p` has `p` as its owned root. */
  lemma {:induction false} RootsAreRecorded(ctx: Ctx, s: State, run: Run, t: State, p: string, d: Option<nat>)
    requires Entry(s) && Leads(ctx, s, run, t) && RunKeeps(ctx, run, Roots(iset{p}))
    requires Reaches(t, p, d)
    ensures RootOf(t.derivs, d) == Some(p)
  {
    EntryRecorded(ctx, s, Roots(iset{p}));
    LeadsRecorded(ctx, s, run, t, Roots(iset{p}));
    ReachesRecords(ctx, t, p, d, Roots(iset{p}));
  }

  /** In every run whose steps and joins meet their guards, the scans see everything: whatever may reach a
      place, its local's own reborrows included, names it as root or as place. */
  lemma {:induction false} NamesAreRecorded(ctx: Ctx, s: State, run: Run, t: State, p: string, d: Option<nat>)
    requires Entry(s) && Leads(ctx, s, run, t) && RunKeeps(ctx, run, Names)
    requires Reaches(t, p, d)
    ensures Named(t.derivs, d, p)
  {
    EntryRecorded(ctx, s, Names);
    LeadsRecorded(ctx, s, run, t, Names);
    ReachesRecords(ctx, t, p, d, Names);
  }

  /** A live value's record names `p`: on the stack, or held by a local that is still live. */
  predicate ScanFinds(derivs: seq<Deriv>, stack: seq<Slot>, bound: seq<Binding>, live: set<string>, p: string,
        mutableOnly: bool) {
    || (exists i :: 0 <= i < |stack| && Hit(derivs, stack[i].deriv, p, mutableOnly))
    || (exists i :: 0 <= i < |bound| && bound[i].name in live && Hit(derivs, bound[i].deriv, p, mutableOnly))
  }

  predicate Hit(derivs: seq<Deriv>, d: Option<nat>, p: string, mutableOnly: bool) {
    Named(derivs, d, p) && (mutableOnly ==> d.Some? && d.value < |derivs| && derivs[d.value].mutable)
  }

  /** So in such a run a scan that finds nothing for `p` is right: nothing live reaches it. */
  lemma {:induction false} CleanScanIsRight(ctx: Ctx, s: State, run: Run, t: State, live: set<string>, p: string)
    requires Entry(s) && Leads(ctx, s, run, t) && RunKeeps(ctx, run, Names)
    requires !ScanFinds(t.derivs, t.stack, t.bound, live, p, false)
    ensures forall i :: 0 <= i < |t.views| ==> p !in t.views[i]
    ensures forall i :: 0 <= i < |t.bound| && i < |t.boundViews| && t.bound[i].name in live ==> p !in t.boundViews[i]
  {
    EntryRecorded(ctx, s, Names);
    LeadsRecorded(ctx, s, run, t, Names);
    forall i | 0 <= i < |t.views| ensures p !in t.views[i] {
      assert !Hit(t.derivs, t.stack[i].deriv, p, false);
      if p in t.views[i] { ReachesRecords(ctx, t, p, t.stack[i].deriv, Names); }
    }
    forall i | 0 <= i < |t.bound| && i < |t.boundViews| && t.bound[i].name in live ensures p !in t.boundViews[i] {
      assert !Hit(t.derivs, t.bound[i].deriv, p, false);
      if p in t.boundViews[i] { ReachesRecords(ctx, t, p, t.bound[i].deriv, Names); }
    }
  }

  // ---------------------------------------------------------------- what the scans ask

  /** The record of a value on the stack, or of one held by a local that is still live. */
  ghost predicate LiveRecord(s: State, live: set<string>, id: nat) {
    id < |s.derivs| &&
    ((exists i :: 0 <= i < |s.stack| && s.stack[i].deriv == Some(id)) ||
     (exists i :: 0 <= i < |s.bound| && s.bound[i].name in live && s.bound[i].deriv == Some(id)))
  }

  /** A live borrow rooted at `p` or taken of `p` itself; an exclusive one, if asked. */
  ghost predicate Lent(s: State, live: set<string>, p: string, exclusive: bool) {
    exists id: nat ::
      LiveRecord(s, live, id) && (s.derivs[id].root == Some(p) || s.derivs[id].place == p) &&
      (exclusive ==> s.derivs[id].mutable)
  }

  lemma ScanMeans(s: State, live: set<string>, p: string, exclusive: bool)
    ensures ScanFinds(s.derivs, s.stack, s.bound, live, p, exclusive) <==> Lent(s, live, p, exclusive)
  {
    if ScanFinds(s.derivs, s.stack, s.bound, live, p, exclusive) {
      if i :| 0 <= i < |s.stack| && Hit(s.derivs, s.stack[i].deriv, p, exclusive) {
        assert LiveRecord(s, live, s.stack[i].deriv.value);
      } else {
        var i :| 0 <= i < |s.bound| && s.bound[i].name in live && Hit(s.derivs, s.bound[i].deriv, p, exclusive);
        assert LiveRecord(s, live, s.bound[i].deriv.value);
      }
    }
  }

  /** And an exclusive scan that finds nothing: whatever live value reaches `p` only shares it. */
  lemma {:induction false} CleanExclusiveScanIsRight(ctx: Ctx, s: State, run: Run, t: State, live: set<string>,
        p: string, d: Option<nat>)
    requires Entry(s) && Leads(ctx, s, run, t) && RunKeeps(ctx, run, Names) && !Lent(t, live, p, true)
    requires (exists i :: 0 <= i < |t.stack| && i < |t.views| && t.stack[i].deriv == d && p in t.views[i]) ||
             (exists i :: 0 <= i < |t.bound| && i < |t.boundViews| && t.bound[i].name in live &&
                t.bound[i].deriv == d && p in t.boundViews[i])
    ensures d.Some? && d.value < |t.derivs| && !t.derivs[d.value].mutable
  {
    hide Leads, RunKeeps, Entry;
    NamesAreRecorded(ctx, s, run, t, p, d);
    assert LiveRecord(t, live, d.value);
  }
}
