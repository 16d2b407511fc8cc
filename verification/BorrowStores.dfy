/** Runs on which a store drops a name or a root: the record it books goes to the local the reference was taken from,
    and only into the scope of the arm the store stands in. */
module BorrowStores {
  import opened Types
  import opened Borrow
  import opened BorrowJoin
  import opened BorrowSteps
  import opened BorrowRuns
  import opened BorrowLimits

  // ---------------------------------------------------------------- through a named reference

  const EXCLUSIVE: Deriv := Deriv("w1", Some("a"), false, true, true, false)
  const THROUGH_R: Deriv := Deriv("r", Some("a"), false, true, true, false)
  const REF: Binding := Binding("r", WINDOW_MUT, None, Some(2), None, None)
  const SCOPE_R: seq<Binding> := SCOPE + [REF]
  const SCOPE_R_VIEWS: seq<set<string>> := SCOPE_VIEWS + [{"w1", "a"}]

  /** `&!w1` */
  function Taken(): State {
    State([Derived(WINDOW_MUT, Some(2))], [{"w1", "a"}], SCOPE, SCOPE_VIEWS, CHAIN + [EXCLUSIVE])
  }

  /** `&!w1 | r |` */
  function TakenBound(): State { State([], [], SCOPE_R, SCOPE_R_VIEWS, CHAIN + [EXCLUSIVE]) }

  /** `&!w1 | r | r` */
  function TakenNamed(): State {
    State([Derived(WINDOW_MUT, Some(3))], [{"w1", "a"}], SCOPE_R, SCOPE_R_VIEWS, CHAIN + [EXCLUSIVE, THROUGH_R])
  }

  /** `&!w1 | r | r w2` */
  function BothOperands(): State {
    State([Derived(WINDOW_MUT, Some(3)), Derived(WINDOW, Some(1))], [{"w1", "a"}, {"a"}], SCOPE_R, SCOPE_R_VIEWS,
          CHAIN + [EXCLUSIVE, THROUGH_R])
  }

  /** `&!w1 | r | r w2 !`: `r` now holds the record of what was stored. */
  function StoredThrough(): State {
    State([], [], SCOPE + [REF.(deriv := Some(1))], SCOPE_R_VIEWS, CHAIN + [EXCLUSIVE, THROUGH_R])
  }

  lemma ScopePositions()
    ensures Local(SCOPE, "w1") == 1 && Local(SCOPE_R, "w2") == 2 && Local(SCOPE_R, "r") == 3
  {
    assert SCOPE[0].name == "a" && SCOPE[1].name == "w1" && SCOPE[2].name == "w2";
    assert SCOPE_R[0].name == "a" && SCOPE_R[1].name == "w1" && SCOPE_R[2].name == "w2" && SCOPE_R[3].name == "r";
    assert "w1"[1] != "w2"[1] && |"r"| != |"w1"| && "r"[0] != "a"[0];
  }

  lemma TakenMoves()
    ensures Moves(Typing(), Setup(), BorrowOf("w1", true, WINDOW_MUT), Taken())
  {
    var s, t := Setup(), Taken();
    ScopePositions();
    hide Local, Moves;
    assert s.bound[1] == W1 && Viewed(s, "w1") == {"a"} && {"w1"} + {"a"} == {"w1", "a"};
    assert s.stack + t.stack == t.stack && s.views + t.views == t.views;
    BorrowsAre(Typing(), s, t, "w1", true, WINDOW_MUT);
  }

  lemma TakenBinds()
    ensures Moves(Typing(), Taken(), BindAs(["r"]), TakenBound())
  {
    assert BindsSlot(REF, "r", Derived(WINDOW_MUT, Some(2)));
    hide BindsSlot, Moves;
    BindsAll(Typing(), Taken(), ["r"], [REF]);
  }

  lemma NamedMoves()
    ensures Moves(Typing(), TakenBound(), NameOf("r"), TakenNamed())
    ensures Moves(Typing(), TakenNamed(), NameOf("w2"), BothOperands())
  {
    var s, t, u := TakenBound(), TakenNamed(), BothOperands();
    ScopePositions();
    hide Local, Moves;
    assert s.bound[3] == REF && Viewed(s, "r") == {"w1", "a"} && RootOf(s.derivs, Some(2)) == Some("a");
    assert CHAIN + [EXCLUSIVE] + [THROUGH_R] == t.derivs;
    assert s.stack + t.stack == t.stack && s.views + t.views == t.views;
    ReferenceNames(Typing(), s, t, "r", true);
    assert t.bound[2] == W2 && Viewed(t, "w2") == {"a"};
    assert t.stack + [Derived(WINDOW, Some(1))] == u.stack && t.views + [{"a"}] == u.views;
    ValueNames(Typing(), t, u, "w2", None);
  }

  lemma OperandsReached()
    ensures Reached(BothOperands())
  {
    SetupReached();
    TakenMoves();
    TakenBinds();
    NamedMoves();
    hide ReachedFrom, Moves;
    ReachedOn(EMPTY, Setup(), BorrowOf("w1", true, WINDOW_MUT), Taken());
    ReachedOn(EMPTY, Taken(), BindAs(["r"]), TakenBound());
    ReachedOn(EMPTY, TakenBound(), NameOf("r"), TakenNamed());
    ReachedOn(EMPTY, TakenNamed(), NameOf("w2"), BothOperands());
  }

  lemma StoreThroughMoves()
    ensures Moves(Typing(), BothOperands(), StoreTo(Some("w1")), StoredThrough())
  {
    ThroughBooked();
    ThroughViews();
    var s, t := BothOperands(), StoredThrough();
    assert t.stack == s.stack[..0] && Typing().bears(s.stack[1].ty);
    hide InFrame, StoreClash, Booked, ViewsAfter, LocalViewsAfter, CanWrite, Moves, Typing;
    StoresAre(Typing(), s, t, Some("w1"));
  }

  lemma ThroughBooked()
    ensures var s := BothOperands();
            && InFrame(s, s.stack[0]) && !StoreClash(s, s.stack[0], s.stack[1])
            && Booked(s, s.stack[0], s.stack[1]) == StoredThrough().bound
  {
    var s := BothOperands();
    ScopePositions();
    InScope();
    hide Local;
    assert s.derivs[1] == ROOT.(projected := true) && s.derivs[2] == EXCLUSIVE && s.derivs[3] == THROUGH_R;
  }

  lemma ThroughViews()
    ensures CanWrite(Typing(), BothOperands(), Some("w1")) && ViewsAfter(BothOperands(), Some("w1")) == []
    ensures LocalViewsAfter(BothOperands(), Some("w1")) == SCOPE_R_VIEWS
  {
    var s := BothOperands();
    assert |"a"| != |"w1"|;
    assert forall i :: 0 <= i < |s.bound| && TouchedLocal(Some("w1"), s.bound[i], s.boundViews[i]) ==>
      "a" in s.boundViews[i];
    hide Touched;
    NothingGained(s, Some("w1"));
  }

  /** What is stored was already reached by whatever reaches the written place. */
  lemma NothingGained(s: State, target: Option<string>)
    requires 2 <= |s.stack| == |s.views| && |s.bound| == |s.boundViews| && s.views[|s.stack| - 1] == {"a"}
    requires forall i :: 0 <= i < |s.bound| && TouchedLocal(target, s.bound[i], s.boundViews[i]) ==>
               "a" in s.boundViews[i]
    ensures LocalViewsAfter(s, target) == s.boundViews
  {
    hide TouchedLocal;
    forall i | 0 <= i < |s.bound| ensures LocalViewsAfter(s, target)[i] == s.boundViews[i] {
      if TouchedLocal(target, s.bound[i], s.boundViews[i]) { assert s.boundViews[i] + {"a"} == s.boundViews[i]; }
    }
  }

  lemma InScope()
    ensures Local(SCOPE_R, "a") == 0
  {
    assert SCOPE_R[0].name == "a";
  }

  /** A store through a named reference drops the name of the local behind it: `r` still reaches `w1`, and no live
      value's record names it. */
  lemma StoreLosesPlace() returns (run: Run, t: State, d: Option<nat>)
    ensures Leads(Typing(), EMPTY, run, t) && Reaches(t, "w1", d)
    ensures !Named(t.derivs, d, "w1") && forall live :: !ScanFinds(t.derivs, t.stack, t.bound, live, "w1", false)
  {
    hide Leads, Moves, Typing, BothOperands, StoredThrough, Reaches, Named, ScanFinds;
    t, d := StoredThrough(), Some(1);
    OperandsReached();
    StoreThroughMoves();
    ReachedOn(EMPTY, BothOperands(), StoreTo(Some("w1")), t);
    run :| Leads(Typing(), EMPTY, run, t);
    StoredUnnamed();
  }

  lemma StoredUnnamed()
    ensures var t := StoredThrough();
            && Reaches(t, "w1", Some(1)) && !Named(t.derivs, Some(1), "w1")
            && forall live :: !ScanFinds(t.derivs, t.stack, t.bound, live, "w1", false)
  {
    var t := StoredThrough();
    assert "w1" in t.boundViews[3] && t.bound[3].deriv == Some(1);
    assert t.derivs[1] == ROOT.(projected := true) && |"a"| != |"w1"|;
  }

  // ---------------------------------------------------------------- inside an arm

  /** A body that is given a slice starts with it on the stack; it reaches no place of the frame. */
  const INPUT: State := State([Computed(SLICE)], [{}], [], [], [])

  const W: Binding := Binding("w", WINDOW, None, None, None, None)
  const V: Binding := Binding("v", WINDOW, None, Some(1), None, None)
  const AROUND: seq<Binding> := [W, A, V]
  const AROUND_VIEWS: seq<set<string>> := [{}, {}, {"a"}]
  const OF_W: Deriv := Deriv("w", Some("w"), false, false, true, false)

  /** A window over the given slice, and the array beside it. */
  function Two(stack: seq<Slot>, views: seq<set<string>>, derivs: seq<Deriv>): State {
    State(stack, views, [W, A], [{}, {}], derivs)
  }

  function Around(stack: seq<Slot>, views: seq<set<string>>, derivs: seq<Deriv>): State {
    State(stack, views, AROUND, AROUND_VIEWS, derivs)
  }

  /** `Window 0 4 fill` */
  function Operands(): State { State([Computed(WINDOW), Computed(ARRAY)], [{}, {}], [], [], []) }

  lemma OperandsMade()
    ensures ReachedFrom(INPUT, Operands())
  {
    var window := State([Computed(WINDOW)], [{}], [], [], []);
    InputReached();
    hide ReachedFrom;
    OneCall(INPUT, INPUT, window, Computed(SLICE), Computed(WINDOW));
    Made(INPUT, window, ARRAY);
    assert window.stack + [Computed(ARRAY)] == Operands().stack && window.views + [{}] == Operands().views;
  }

  lemma InputReached()
    ensures ReachedFrom(INPUT, INPUT)
  {
    assert Leads(Typing(), INPUT, Start, INPUT);
  }

  lemma OperandsBind()
    ensures Moves(Typing(), Operands(), BindAs(["w", "a"]), Two([], [], []))
  {
    assert BindsSlot(W, "w", Computed(WINDOW)) && BindsSlot(A, "a", Computed(ARRAY));
    assert [] + [W, A] == [W, A] && [] + [{}, {}] == Operands().views;
    hide BindsSlot, Moves;
    BindsAll(Typing(), Operands(), ["w", "a"], [W, A]);
  }

  /** `| w a |` */
  lemma TwoReached()
    ensures ReachedFrom(INPUT, Two([], [], []))
  {
    OperandsMade();
    OperandsBind();
    hide *;
    ReachedOn(INPUT, Operands(), BindAs(["w", "a"]), Two([], [], []));
  }

  /** `&a` and `slice`, beside it. */
  function Referred(): State { Two([Derived(ARRAY_REF, Some(0))], [{"a"}], [ROOT]) }

  function Cut(): State { Two([Derived(SLICE, Some(1))], [{"a"}], CHAIN) }

  lemma ReferredMoves()
    ensures Moves(Typing(), Two([], [], []), BorrowOf("a", false, ARRAY_REF), Referred())
  {
    var s := Two([], [], []);
    assert [W, A][0].name == "w" && [W, A][1].name == "a" && "a"[0] != "w"[0];
    assert Local([W, A], "a") == 1 && {"a"} + {} == {"a"} && Viewed(s, "a") == {} && HeldDeriv(s.bound, "a") == None;
    hide Local, Moves, Viewed, HeldDeriv;
    assert [] + [Derived(ARRAY_REF, Some(0))] == Referred().stack && [] + [{"a"}] == Referred().views;
    assert [] + [ROOT] == [ROOT];
    BorrowsAre(Typing(), s, Referred(), "a", false, ARRAY_REF);
  }

  lemma CutMoves()
    ensures Moves(Typing(), Referred(), ProjectTo(1, SLICE, {"a"}), Cut())
  {
    var s, t := Referred(), Cut();
    assert s.stack[..0] + t.stack == t.stack && s.views[..0] + t.views == t.views;
    hide Moves;
    ProjectsAre(Typing(), s, t, 1, SLICE, {"a"});
  }

  lemma SliceReached()
    ensures ReachedFrom(INPUT, Cut())
  {
    TwoReached();
    ReferredMoves();
    CutMoves();
    hide *;
    ReachedOn(INPUT, Two([], [], []), BorrowOf("a", false, ARRAY_REF), Referred());
    ReachedOn(INPUT, Referred(), ProjectTo(1, SLICE, {"a"}), Cut());
  }

  /** `Window`, over it */
  function WrappedTwo(): State { Two([Derived(WINDOW, Some(1))], [{"a"}], CHAIN) }

  lemma WrappedBinds()
    ensures Moves(Typing(), WrappedTwo(), BindAs(["v"]), Around([], [], CHAIN))
  {
    assert BindsSlot(V, "v", Derived(WINDOW, Some(1))) && [W, A] + [V] == AROUND && [{}, {}] + [{"a"}] == AROUND_VIEWS;
    hide BindsSlot, Moves;
    BindsAll(Typing(), WrappedTwo(), ["v"], [V]);
  }

  /** `| v |`, with a choice to eliminate on top. */
  lemma AroundReached()
    ensures ReachedFrom(INPUT, Around([Computed(CHOICE)], [{}], CHAIN))
  {
    SliceReached();
    WrappedBinds();
    hide ReachedFrom, Moves;
    OneCall(INPUT, Cut(), WrappedTwo(), Derived(SLICE, Some(1)), Derived(WINDOW, Some(1)));
    ReachedOn(INPUT, WrappedTwo(), BindAs(["v"]), Around([], [], CHAIN));
    Made(INPUT, Around([], [], CHAIN), CHOICE);
    assert [] + [Computed(CHOICE)] == [Computed(CHOICE)] && [] + [{}] == Around([Computed(CHOICE)], [{}], CHAIN).views;
  }

  const RECORDS: seq<Deriv> := CHAIN + [OF_W]

  /** `drop &!w v`, in the arm. */
  function ArmOperands(): State {
    Around([Derived(WINDOW_MUT, Some(2)), Derived(WINDOW, Some(1))], [{"w"}, {"a"}], RECORDS)
  }

  /** `drop &!w v !`: within the arm `w` holds the record of the array. */
  function ArmStored(): State { State([], [], [W.(deriv := Some(1)), A, V], [{"a"}, {}, {"a"}], RECORDS) }

  lemma AroundPositions()
    ensures Local(AROUND, "w") == 0 && Local(AROUND, "v") == 2
  {
    assert AROUND[0].name == "w" && AROUND[1].name == "a" && AROUND[2].name == "v";
    assert "v"[0] != "w"[0] && "v"[0] != "a"[0];
  }

  lemma ArmStoreMoves()
    ensures Moves(Typing(), ArmOperands(), StoreTo(Some("w")), ArmStored())
  {
    ArmBooked();
    ArmViews();
    var s, t := ArmOperands(), ArmStored();
    assert t.stack == s.stack[..0] && Typing().bears(s.stack[1].ty);
    hide InFrame, StoreClash, Booked, ViewsAfter, LocalViewsAfter, CanWrite, Moves, Typing;
    StoresAre(Typing(), s, t, Some("w"));
  }

  lemma ArmBooked()
    ensures var s := ArmOperands();
            && InFrame(s, s.stack[0]) && !StoreClash(s, s.stack[0], s.stack[1])
            && Booked(s, s.stack[0], s.stack[1]) == ArmStored().bound
  {
    var s := ArmOperands();
    AroundPositions();
    hide Local;
    assert s.derivs[1] == ROOT.(projected := true) && s.derivs[2] == OF_W;
  }

  lemma ArmViews()
    ensures CanWrite(Typing(), ArmOperands(), Some("w")) && ViewsAfter(ArmOperands(), Some("w")) == []
    ensures LocalViewsAfter(ArmOperands(), Some("w")) == ArmStored().boundViews
  {
    var s := ArmOperands();
    ArmTouches();
    hide TouchedLocal;
    assert {} + {"a"} == {"a"};
    assert LocalViewsAfter(s, Some("w")) == [{"a"}, {}, {"a"}];
  }

  lemma ArmTouches()
    ensures var s := ArmOperands();
            forall i :: 0 <= i < 3 ==> (TouchedLocal(Some("w"), s.bound[i], s.boundViews[i]) <==> i == 0)
  {
    assert "v"[0] != "w"[0] && "w"[0] != "a"[0];
  }

  /** `drop` and `&!w`, in the arm. */
  lemma ArmTakes()
    ensures var at, start := Around([Computed(CHOICE)], [{}], CHAIN), Around([Computed(CHOICE_VARIANT)], [{}], CHAIN);
            var dropped := Around([], [], CHAIN);
            && Receives(Typing(), at, CHAIN, start) && Moves(Typing(), start, ShuffleBy(Drop), dropped)
            && Moves(Typing(), dropped, BorrowOf("w", true, WINDOW_MUT),
                     Around([Derived(WINDOW_MUT, Some(2))], [{"w"}], RECORDS))
  {
    AroundPositions();
    hide Local;
    assert ShuffleMap(Drop, 1) == [] && {"w"} + {} == {"w"};
  }

  lemma ArmNames()
    ensures Moves(Typing(), Around([Derived(WINDOW_MUT, Some(2))], [{"w"}], RECORDS), NameOf("v"), ArmOperands())
  {
    var s, t := Around([Derived(WINDOW_MUT, Some(2))], [{"w"}], RECORDS), ArmOperands();
    AroundPositions();
    hide Local, Moves;
    assert s.bound[2] == V && Viewed(s, "v") == {"a"};
    assert s.stack + [Derived(WINDOW, Some(1))] == t.stack && s.views + [{"a"}] == t.views;
    ValueNames(Typing(), s, t, "v", None);
  }

  lemma ArmStores() returns (arm: Run)
    ensures ArmRan(Typing(), Around([Computed(CHOICE)], [{}], CHAIN), CHAIN, arm, ArmStored())
  {
    var start, dropped := Around([Computed(CHOICE_VARIANT)], [{}], CHAIN), Around([], [], CHAIN);
    var taken := Around([Derived(WINDOW_MUT, Some(2))], [{"w"}], RECORDS);
    ArmTakes();
    ArmNames();
    ArmStoreMoves();
    var one := Then(Start, start, ShuffleBy(Drop));
    var two := Then(one, dropped, BorrowOf("w", true, WINDOW_MUT));
    var three := Then(two, taken, NameOf("v"));
    arm := Then(three, ArmOperands(), StoreTo(Some("w")));
    hide Moves, Typing, Receives, Around, ArmOperands, ArmStored, Leads, ArmRan;
    LeadsNowhere(Typing(), start);
    LeadsOn(Typing(), start, Start, start, ShuffleBy(Drop), dropped);
    LeadsOn(Typing(), start, one, dropped, BorrowOf("w", true, WINDOW_MUT), taken);
    LeadsOn(Typing(), start, two, taken, NameOf("v"), ArmOperands());
    LeadsOn(Typing(), start, three, ArmOperands(), StoreTo(Some("w")), ArmStored());
    ArmRanFrom(Typing(), Around([Computed(CHOICE)], [{}], CHAIN), CHAIN, start, arm, ArmStored());
  }

  /** After the call: `w` reaches the array, under the record it had before, which is none. */
  function AfterArm(): State { State([], [], AROUND, [{"a"}, {}, {"a"}], RECORDS) }

  lemma AfterArmReached()
    ensures ReachedFrom(INPUT, AfterArm())
  {
    var at := Around([Computed(CHOICE)], [{}], CHAIN);
    AroundReached();
    var before :| Leads(Typing(), INPUT, before, at);
    var arm := ArmStores();
    var run := Eliminate(before, at, [arm], [ArmStored()], 0);
    assert Rows(run.ends) == [[]] && RecordsBefore(at, run.ends, 0) == CHAIN;
    assert RecordsBefore(at, run.ends, 1) == RECORDS && SameNames(at.bound, ArmStored().bound);
    assert ArmsAgree(Typing(), RECORDS, Rows(run.ends)) && IsJoined([], Rows(run.ends));
    hide ArmsAgree, IsJoined, ArmRan, Typing, Leads, Rows, RecordsBefore, SameNames;
    EliminatesIs(Typing(), run, AfterArm());
    EliminateReached(INPUT, run, AfterArm());
  }

  /** A store inside an arm leaves the caller's local without the record of what it now reaches: `w` reaches the
      array, and once `v` is dead no scan for the array finds anything. */
  lemma StoreInArmLosesRoot() returns (run: Run, t: State, d: Option<nat>)
    ensures Entry(INPUT) && Leads(Typing(), INPUT, run, t)
    ensures Reaches(t, "a", d) && RootOf(t.derivs, d) != Some("a") && !Named(t.derivs, d, "a")
    ensures forall live :: "v" !in live ==> !ScanFinds(t.derivs, t.stack, t.bound, live, "a", false)
  {
    hide Leads, Typing;
    t, d := AfterArm(), None;
    AfterArmReached();
    run :| Leads(Typing(), INPUT, run, t);
    assert "a" in t.boundViews[0];
  }
}
