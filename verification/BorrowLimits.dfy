/** Runs on which a place drops out of the records. An array `a` is viewed by a slice kept in two windows:

        0 4 fill | a |   &a slice Window dup | w1 w2 |

    after which a reference to a window reaches the window and, through it, the array. */
module BorrowLimits {
  import opened Types
  import opened Borrow
  import opened BorrowJoin
  import opened BorrowSteps
  import opened BorrowRuns

  const ARRAY: Ty := Other(0)
  const ARRAY_REF: Ty := Other(1)
  const SLICE: Ty := Other(2)
  const WINDOW: Ty := Other(3)
  const WINDOW_REF: Ty := Other(4)
  const CHOICE: Ty := Other(5)
  const CHOICE_VARIANT: Ty := Other(6)

  const WINDOW_MUT: Ty := Other(7)

  /** References, slices and windows bear references; all but the exclusive reference can be copied. */
  function Typing(): Ctx {
    Ctx(t => t in {ARRAY_REF, SLICE, WINDOW, WINDOW_REF, WINDOW_MUT}, t => t != WINDOW_MUT,
        t => t in {ARRAY, WINDOW, CHOICE}, t => t == CHOICE_VARIANT, _ => false, _ => false,
        t => if t == WINDOW_MUT then Some(true) else if t in {ARRAY_REF, SLICE, WINDOW_REF} then Some(false) else None)
  }

  const ROOT: Deriv := Deriv("a", Some("a"), false, false, false, false)
  const VIA_W1: Deriv := Deriv("w1", Some("a"), false, true, false, false)
  const VIA_W2: Deriv := Deriv("w2", Some("a"), false, true, false, false)
  const VIA_R: Deriv := Deriv("r", Some("a"), false, true, false, false)

  const A: Binding := Binding("a", ARRAY, None, None, None, None)
  const W1: Binding := Binding("w1", WINDOW, None, Some(1), None, None)
  const W2: Binding := Binding("w2", WINDOW, None, Some(1), None, None)

  const EMPTY: State := State([], [], [], [], [])

  /** Some run from `start` leads to `s`. */
  ghost predicate ReachedFrom(start: State, s: State) { exists run :: Leads(Typing(), start, run, s) }

  ghost predicate Reached(s: State) { ReachedFrom(EMPTY, s) }

  lemma ReachedOn(start: State, at: State, move: Move, t: State)
    requires ReachedFrom(start, at) && Moves(Typing(), at, move, t)
    ensures ReachedFrom(start, t)
  {
    hide Moves, Typing, Leads;
    var run :| Leads(Typing(), start, run, at);
    LeadsOn(Typing(), start, run, at, move, t);
  }

  const SCOPE: seq<Binding> := [A, W1, W2]
  const SCOPE_VIEWS: seq<set<string>> := [{}, {"a"}, {"a"}]
  const CHAIN: seq<Deriv> := [ROOT, ROOT.(projected := true)]

  /** The stack over the array in scope, and the whole prefix. */
  function OverArray(stack: seq<Slot>, views: seq<set<string>>, derivs: seq<Deriv>): State {
    State(stack, views, [A], [{}], derivs)
  }

  function Setup(): State { State([], [], SCOPE, SCOPE_VIEWS, CHAIN) }

  lemma CarriedOne(derivs: seq<Deriv>, x: Slot)
    requires Typing().bears(x.ty)
    ensures CarriedDeriv(Typing(), derivs, [x]) == x.deriv && !RootsClash(Typing(), derivs, [x])
  {
    var c := CarriedDeriv(Typing(), derivs, [x]);
    CarriedDerivIs(Typing(), derivs, [x]);
    if c.None? { assert [x][0].deriv == None; }
  }

  /** A value made from nothing, over the stack of `s`. */
  lemma Made(start: State, s: State, ty: Ty)
    requires ReachedFrom(start, s) && |s.stack| == |s.views| && !Typing().bears(ty)
    ensures ReachedFrom(start, s.(stack := s.stack + [Computed(ty)], views := s.views + [{}]))
  {
    var t := s.(stack := s.stack + [Computed(ty)], views := s.views + [{}]);
    assert Moves(Typing(), s, CallTo(0, [ty]), t) by {
      assert t.stack[|s.stack|..] == [Computed(ty)] && t.views[|s.stack|..] == [{}];
      assert s.stack[|s.stack|..] == [] && t.stack[..|s.stack|] == s.stack && t.views[..|s.stack|] == s.views;
    }
    ReachedOn(start, s, CallTo(0, [ty]), t);
  }

  /** A call of one operand and one output, over nothing. */
  lemma OneCall(start: State, s: State, t: State, x: Slot, y: Slot)
    requires ReachedFrom(start, s) && s.stack == [x] && |s.views| == 1 && t == s.(stack := [y]) && Typing().bears(x.ty)
    requires Typing().bears(y.ty)
    requires y == Derived(y.ty, x.deriv)
    ensures ReachedFrom(start, t)
  {
    CarriedOne(s.derivs, x);
    hide CarriedDeriv, RootsClash, ReachedFrom;
    assert s.stack[0..] == [x] && t.stack[0..] == [y] && s.views[0..] == s.views;
    assert [y.ty][0] == y.ty;
    ReachedOn(start, s, CallTo(1, [y.ty]), t);
  }

  /** `0 4 fill | a |` */
  lemma ArrayBound()
    ensures Reached(OverArray([], [], []))
  {
    var s := State([Computed(ARRAY)], [{}], [], [], []);
    LeadsNowhere(Typing(), EMPTY);
    assert ReachedFrom(EMPTY, EMPTY);
    Made(EMPTY, EMPTY, ARRAY);
    assert [] + [Computed(ARRAY)] == s.stack && [] + [{}] == s.views && [] + [A] == [A];
    assert BindsSlot(A, "a", Computed(ARRAY));
    hide *;
    BindsAll(Typing(), s, ["a"], [A]);
    ReachedOn(EMPTY, s, BindAs(["a"]), OverArray([], [], []));
  }

  /** `&a` */
  function Referring(): State { OverArray([Derived(ARRAY_REF, Some(0))], [{"a"}], [ROOT]) }

  lemma ReferringMoves()
    ensures Moves(Typing(), OverArray([], [], []), BorrowOf("a", false, ARRAY_REF), Referring())
  {
    var s := OverArray([], [], []);
    assert Local([A], "a") == 0 && {"a"} + {} == {"a"} && Viewed(s, "a") == {} && HeldDeriv(s.bound, "a") == None;
    hide Local, Moves, Viewed, HeldDeriv;
    assert [] + [Derived(ARRAY_REF, Some(0))] == Referring().stack && [] + [{"a"}] == Referring().views;
    assert [] + [ROOT] == [ROOT];
    BorrowsAre(Typing(), s, Referring(), "a", false, ARRAY_REF);
  }

  /** `slice` */
  function Sliced(): State { OverArray([Derived(SLICE, Some(1))], [{"a"}], CHAIN) }

  lemma SlicedMoves()
    ensures Moves(Typing(), Referring(), ProjectTo(1, SLICE, {"a"}), Sliced())
  {
    var s, t := Referring(), Sliced();
    assert s.stack[..0] + t.stack == t.stack && s.views[..0] + t.views == t.views;
    hide Moves;
    ProjectsAre(Typing(), s, t, 1, SLICE, {"a"});
  }

  /** `Window` and `dup` */
  function Wrapped(): State { OverArray([Derived(WINDOW, Some(1))], [{"a"}], CHAIN) }

  function Doubled(): State {
    OverArray([Derived(WINDOW, Some(1)), Derived(WINDOW, Some(1))], [{"a"}, {"a"}], CHAIN)
  }

  lemma DoubledMoves()
    ensures Moves(Typing(), Wrapped(), ShuffleBy(Dup), Doubled())
  {
    assert ShuffleMap(Dup, 1) == [0, 0];
  }

  lemma WindowsBind()
    ensures Moves(Typing(), Doubled(), BindAs(["w1", "w2"]), Setup())
  {
    assert BindsSlot(W1, "w1", Derived(WINDOW, Some(1))) && BindsSlot(W2, "w2", Derived(WINDOW, Some(1)));
    assert [A] + [W1, W2] == SCOPE && [{}] + [{"a"}, {"a"}] == SCOPE_VIEWS;
    hide BindsSlot, Moves;
    BindsAll(Typing(), Doubled(), ["w1", "w2"], [W1, W2]);
  }

  lemma SetupReached()
    ensures Reached(Setup())
  {
    ArrayBound();
    ReferringMoves();
    SlicedMoves();
    DoubledMoves();
    WindowsBind();
    hide ReachedFrom, Moves;
    ReachedOn(EMPTY, OverArray([], [], []), BorrowOf("a", false, ARRAY_REF), Referring());
    ReachedOn(EMPTY, Referring(), ProjectTo(1, SLICE, {"a"}), Sliced());
    OneCall(EMPTY, Sliced(), Wrapped(), Derived(SLICE, Some(1)), Derived(WINDOW, Some(1)));
    ReachedOn(EMPTY, Wrapped(), ShuffleBy(Dup), Doubled());
    ReachedOn(EMPTY, Doubled(), BindAs(["w1", "w2"]), Setup());
  }

  // ---------------------------------------------------------------- a call

  function Over(s: State, w: string, d: Deriv): State {
    s.(stack := s.stack + [Derived(WINDOW_REF, Some(|s.derivs|))], views := s.views + [{w, "a"}],
       derivs := s.derivs + [d])
  }

  /** `w` borrowed over the stack of `s`, which the record `d` describes. */
  lemma WindowBorrowed(s: State, w: string, d: Deriv)
    requires s.bound == SCOPE && s.boundViews == SCOPE_VIEWS && CHAIN <= s.derivs
    requires (w == "w1" && d == VIA_W1) || (w == "w2" && d == VIA_W2)
    ensures Moves(Typing(), s, BorrowOf(w, false, WINDOW_REF), Over(s, w, d))
  {
    var i := if w == "w1" then 1 else 2;
    assert SCOPE[0].name == "a" && SCOPE[1].name == "w1" && SCOPE[2].name == "w2" && "w1"[1] != "w2"[1];
    assert Local(SCOPE, w) == i;
    assert s.derivs[1] == CHAIN[1];
    assert {w} + {"a"} == {w, "a"};
  }

  /** `&w1 &w2`, over the prefix. */
  function BothBorrowed(): State {
    State([Derived(WINDOW_REF, Some(2)), Derived(WINDOW_REF, Some(3))], [{"w1", "a"}, {"w2", "a"}], SCOPE, SCOPE_VIEWS,
          CHAIN + [VIA_W1, VIA_W2])
  }

  function OneBorrowed(): State {
    State([Derived(WINDOW_REF, Some(2))], [{"w1", "a"}], SCOPE, SCOPE_VIEWS, CHAIN + [VIA_W1])
  }

  lemma OneReached()
    ensures Reached(OneBorrowed())
  {
    hide Moves, ReachedFrom, Typing;
    SetupReached();
    WindowBorrowed(Setup(), "w1", VIA_W1);
    assert Over(Setup(), "w1", VIA_W1) == OneBorrowed();
    ReachedOn(EMPTY, Setup(), BorrowOf("w1", false, WINDOW_REF), OneBorrowed());
  }

  /** `&w1`: the local already holds a view of the array, so the reference to it, which reaches the local itself, is
      rooted at the array. */
  lemma BorrowLosesRoot() returns (run: Run, t: State, d: Option<nat>)
    ensures Leads(Typing(), EMPTY, run, t) && Reaches(t, "w1", d) && RootOf(t.derivs, d) == Some("a")
  {
    hide Leads, Moves, Typing;
    t, d := OneBorrowed(), Some(2);
    OneReached();
    run :| Leads(Typing(), EMPTY, run, t);
    assert "w1" in t.views[0];
  }

  lemma BothReached()
    ensures Reached(BothBorrowed())
  {
    hide Moves, ReachedFrom, Typing;
    OneReached();
    WindowBorrowed(OneBorrowed(), "w2", VIA_W2);
    assert Over(OneBorrowed(), "w2", VIA_W2) == BothBorrowed();
    ReachedOn(EMPTY, OneBorrowed(), BorrowOf("w2", false, WINDOW_REF), BothBorrowed());
  }

  /** `pick`, taking both references and returning one: it may be the second, while the record is the first's. */
  function Picked(): State {
    State([Derived(WINDOW_REF, Some(2))], [{"w1", "w2", "a"}], SCOPE, SCOPE_VIEWS, CHAIN + [VIA_W1, VIA_W2])
  }

  lemma PickMoves()
    ensures Moves(Typing(), BothBorrowed(), CallTo(2, [WINDOW_REF]), Picked())
  {
    var s, t := BothBorrowed(), Picked();
    assert s.stack[0..] == s.stack && s.views[0..] == s.views && t.stack[0..] == t.stack && t.views[0..] == t.views;
    assert CarriedDeriv(Typing(), s.derivs, s.stack) == Some(2) by {
      assert RootOf(s.derivs, s.stack[0].deriv).Some?;
    }
    hide CarriedDeriv;
    assert !RootsClash(Typing(), s.derivs, s.stack);
    forall p | p in t.views[0] ensures exists j :: 0 <= j < |s.views| && p in s.views[j] {
      assert p in s.views[0] || p in s.views[1];
    }
  }

  /** A call that hands one of two references on keeps the name of the first one's window only, so a scan for
      the second window, once nothing else names it, finds nothing. */
  lemma CallLosesPlace() returns (run: Run, t: State, d: Option<nat>)
    ensures Leads(Typing(), EMPTY, run, t) && Reaches(t, "w2", d)
    ensures !Named(t.derivs, d, "w2") && forall live :: !ScanFinds(t.derivs, t.stack, t.bound, live, "w2", false)
  {
    hide Leads, Moves, Typing, BothBorrowed, Picked, Reaches, Named, ScanFinds;
    t, d := Picked(), Some(2);
    BothReached();
    PickMoves();
    ReachedOn(EMPTY, BothBorrowed(), CallTo(2, [WINDOW_REF]), t);
    run :| Leads(Typing(), EMPTY, run, t);
    PickedUnnamed();
  }

  lemma PickedUnnamed()
    ensures Reaches(Picked(), "w2", Some(2)) && !Named(Picked().derivs, Some(2), "w2")
    ensures forall live :: !ScanFinds(Picked().derivs, Picked().stack, Picked().bound, live, "w2", false)
  {
    assert "w2" in Picked().views[0];
    assert "w1"[1] != "w2"[1] && |"a"| != |"w2"|;
  }

  // ---------------------------------------------------------------- naming a reference

  const R: Binding := Binding("r", WINDOW_REF, None, Some(2), None, None)

  function Bound(): State { State([], [], SCOPE + [R], SCOPE_VIEWS + [{"w1", "a"}], CHAIN + [VIA_W1]) }

  function Renamed(): State {
    State([Derived(WINDOW_REF, Some(3))], [{"w1", "a"}], SCOPE + [R], SCOPE_VIEWS + [{"w1", "a"}],
          CHAIN + [VIA_W1, VIA_R])
  }

  lemma BindMoves()
    ensures Moves(Typing(), OneBorrowed(), BindAs(["r"]), Bound())
  {
    assert BindsSlot(R, "r", Derived(WINDOW_REF, Some(2)));
    hide BindsSlot, Moves;
    BindsAll(Typing(), OneBorrowed(), ["r"], [R]);
  }

  lemma RenameMoves()
    ensures Moves(Typing(), Bound(), NameOf("r"), Renamed())
  {
    var s, t := Bound(), Renamed();
    LocalR();
    hide Local, Moves;
    assert s.bound[3] == R && Viewed(s, "r") == {"w1", "a"} && RootOf(s.derivs, Some(2)) == Some("a");
    assert CHAIN + [VIA_W1] + [VIA_R] == t.derivs && s.stack + t.stack == t.stack && s.views + t.views == t.views;
    ReferenceNames(Typing(), s, t, "r", false);
  }

  lemma LocalR()
    ensures Local(SCOPE + [R], "r") == 3
  {
    var b := SCOPE + [R];
    assert b[0].name == "a" && b[1].name == "w1" && b[2].name == "w2" && b[3].name == "r";
    assert |"r"| != |"w1"| && |"r"| != |"w2"| && "r"[0] != "a"[0];
    hide Local;
  }

  /** `&w1 | r | r`: the reborrow through `r` keeps the array as its root and no longer names `w1`. */
  lemma NamingLosesPlace() returns (run: Run, t: State, d: Option<nat>)
    ensures Leads(Typing(), EMPTY, run, t) && Reaches(t, "w1", d)
    ensures !Named(t.derivs, d, "w1")
    ensures forall live :: "r" !in live ==> !ScanFinds(t.derivs, t.stack, t.bound, live, "w1", false)
  {
    hide Leads, Moves, Typing, OneBorrowed, Bound, Renamed, Reaches, Named, ScanFinds;
    t, d := Renamed(), Some(3);
    OneReached();
    BindMoves();
    ReachedOn(EMPTY, OneBorrowed(), BindAs(["r"]), Bound());
    RenameMoves();
    ReachedOn(EMPTY, Bound(), NameOf("r"), t);
    run :| Leads(Typing(), EMPTY, run, t);
    RenamedUnnamed();
  }

  lemma RenamedUnnamed()
    ensures Reaches(Renamed(), "w1", Some(3)) && !Named(Renamed().derivs, Some(3), "w1")
    ensures forall live :: "r" !in live ==>
              !ScanFinds(Renamed().derivs, Renamed().stack, Renamed().bound, live, "w1", false)
  {
    assert "w1" in Renamed().views[0];
    assert |"r"| != |"w1"| && |"a"| != |"w1"|;
  }

  // ---------------------------------------------------------------- an eliminator

  /** The prefix with a choice to eliminate on top. */
  function Scrutinee(): State { State([Computed(CHOICE)], [{}], SCOPE, SCOPE_VIEWS, CHAIN) }

  /** Where an arm starts, over the records made so far, and where it is after dropping its scrutinee. */
  function ArmStart(derivs: seq<Deriv>): State { State([Computed(CHOICE_VARIANT)], [{}], SCOPE, SCOPE_VIEWS, derivs) }

  function ArmDropped(derivs: seq<Deriv>): State { State([], [], SCOPE, SCOPE_VIEWS, derivs) }

  function ArmEnd(derivs: seq<Deriv>, w: string, d: Deriv): State {
    State([Derived(WINDOW_REF, Some(|derivs|))], [{w, "a"}], SCOPE, SCOPE_VIEWS, derivs + [d])
  }

  lemma ArmStarts(derivs: seq<Deriv>)
    ensures Receives(Typing(), Scrutinee(), derivs, ArmStart(derivs))
    ensures Moves(Typing(), ArmStart(derivs), ShuffleBy(Drop), ArmDropped(derivs))
  {
    assert ShuffleMap(Drop, 1) == [];
  }

  lemma ArmBorrows(derivs: seq<Deriv>, w: string, d: Deriv)
    requires CHAIN <= derivs && ((w == "w1" && d == VIA_W1) || (w == "w2" && d == VIA_W2))
    ensures Moves(Typing(), ArmDropped(derivs), BorrowOf(w, false, WINDOW_REF), ArmEnd(derivs, w, d))
  {
    hide Moves, Typing;
    WindowBorrowed(ArmDropped(derivs), w, d);
    assert Over(ArmDropped(derivs), w, d) == ArmEnd(derivs, w, d);
  }

  lemma ArmRuns(derivs: seq<Deriv>, w: string, d: Deriv) returns (arm: Run)
    requires CHAIN <= derivs && ((w == "w1" && d == VIA_W1) || (w == "w2" && d == VIA_W2))
    ensures ArmRan(Typing(), Scrutinee(), derivs, arm, ArmEnd(derivs, w, d))
  {
    hide *;
    var start, dropped, end := ArmStart(derivs), ArmDropped(derivs), ArmEnd(derivs, w, d);
    ArmStarts(derivs);
    ArmBorrows(derivs, w, d);
    var before := Then(Start, start, ShuffleBy(Drop));
    arm := Then(before, dropped, BorrowOf(w, false, WINDOW_REF));
    LeadsNowhere(Typing(), start);
    LeadsOn(Typing(), start, Start, start, ShuffleBy(Drop), dropped);
    LeadsOn(Typing(), start, before, dropped, BorrowOf(w, false, WINDOW_REF), end);
    ArmRanFrom(Typing(), Scrutinee(), derivs, start, arm, end);
  }

  /** The first arm ends in `&w1`, the second in `&w2`. */
  function Ends(): seq<State> { [ArmEnd(CHAIN, "w1", VIA_W1), ArmEnd(CHAIN + [VIA_W1], "w2", VIA_W2)] }

  /** The joined state when the second arm ran: its reference, under the first arm's record. */
  function Joined(): State {
    State([Derived(WINDOW_REF, Some(2))], [{"w2", "a"}], SCOPE, SCOPE_VIEWS, CHAIN + [VIA_W1] + [VIA_W2])
  }

  lemma EndsAgree()
    ensures ArmsAgree(Typing(), Joined().derivs, Rows(Ends())) && IsJoined(Joined().stack, Rows(Ends()))
  {
    var derivs, one, two := Joined().derivs, [Derived(WINDOW_REF, Some(2))], [Derived(WINDOW_REF, Some(3))];
    EndRows();
    assert Rows(Ends()) == [one] + [two];
    assert NoEscape(Typing(), one) && NoEscape(Typing(), two) && derivs[2] == VIA_W1 && derivs[3] == VIA_W2;
    JoinablePair(derivs, Some(2), Some(3));
    JoinedPair(Some(2), Some(3));
    hide ArmsAgree, IsJoined, Joinable, JoinedDeriv, NoEscape, Typing;
    OneArm(Typing(), derivs, one);
    assert TypesOf(one) == [WINDOW_REF] == TypesOf(two);
    OneMoreArm(Typing(), derivs, [one], two, one);
    MergedIsJoined(Typing(), derivs, [one], two, one, one);
  }

  lemma EndRows()
    ensures Rows(Ends()) == [[Derived(WINDOW_REF, Some(2))], [Derived(WINDOW_REF, Some(3))]]
    ensures Column(Rows(Ends()), 0) == [Some(2), Some(3)]
  {
  }

  lemma JoinedReached()
    ensures Reached(Joined())
  {
    var before := ScrutineeReached();
    var first := ArmRuns(CHAIN, "w1", VIA_W1);
    var second := ArmRuns(CHAIN + [VIA_W1], "w2", VIA_W2);
    EndsAgree();
    EndRecords();
    hide *;
    var run := Eliminate(before, Scrutinee(), [first, second], Ends(), 1);
    EliminatesIs(Typing(), run, Joined());
    EliminateReached(EMPTY, run, Joined());
  }

  lemma ScrutineeReached() returns (run: Run)
    ensures Leads(Typing(), EMPTY, run, Scrutinee())
  {
    SetupReached();
    hide Leads;
    Made(EMPTY, Setup(), CHOICE);
    assert [] + [Computed(CHOICE)] == [Computed(CHOICE)] && Setup().views + [{}] == Scrutinee().views;
    run :| Leads(Typing(), EMPTY, run, Scrutinee());
  }

  lemma EndRecords()
    ensures |Ends()| == 2 && Ends()[0] == ArmEnd(CHAIN, "w1", VIA_W1)
    ensures Ends()[1] == ArmEnd(CHAIN + [VIA_W1], "w2", VIA_W2)
    ensures RecordsBefore(Scrutinee(), Ends(), 0) == CHAIN
    ensures RecordsBefore(Scrutinee(), Ends(), 1) == CHAIN + [VIA_W1]
    ensures RecordsBefore(Scrutinee(), Ends(), 2) == Joined().derivs
    ensures Joined().views == Ends()[1].views && Joined().boundViews == Ends()[1].boundViews
    ensures Joined().bound == Scrutinee().bound
    ensures forall k :: 0 <= k < 2 ==> SameNames(Scrutinee().bound, Ends()[k].bound)
  {
  }

  lemma EliminateReached(start: State, run: Run, t: State)
    requires run.Eliminate? && Leads(Typing(), start, run.before, run.at) && Eliminates(Typing(), run, t)
    ensures ReachedFrom(start, t)
  {
    hide Eliminates, Typing, Moves;
    assert Leads(Typing(), start, run, t);
  }

  /** Arms leaving references to different windows of one array are joined, and only the first one's window
      stays named whichever arm runs. */
  lemma JoinLosesPlace() returns (run: Run, t: State, d: Option<nat>)
    ensures Leads(Typing(), EMPTY, run, t) && Reaches(t, "w2", d)
    ensures !Named(t.derivs, d, "w2") && forall live :: !ScanFinds(t.derivs, t.stack, t.bound, live, "w2", false)
  {
    hide Leads, Typing, Joined, Reaches, Named, ScanFinds;
    t, d := Joined(), Some(2);
    JoinedReached();
    run :| Leads(Typing(), EMPTY, run, t);
    JoinedUnnamed();
  }

  lemma JoinedUnnamed()
    ensures Reaches(Joined(), "w2", Some(2)) && !Named(Joined().derivs, Some(2), "w2")
    ensures forall live :: !ScanFinds(Joined().derivs, Joined().stack, Joined().bound, live, "w2", false)
  {
    assert "w2" in Joined().views[0];
    assert Joined().derivs[2] == VIA_W1;
    assert "w1"[1] != "w2"[1] && |"a"| != |"w2"|;
  }
}
