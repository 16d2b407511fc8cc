/** The steps of the walk as relations on states, and the guards under which each keeps the records. */
module BorrowSteps {
  import opened Types
  import opened Borrow
  import opened BorrowJoin

  /** The stack and the names in scope, with the frame places each value may in truth reach, and the records. */
  datatype State = State(stack: seq<Slot>, views: seq<set<string>>, bound: seq<Binding>, boundViews: seq<set<string>>,
      derivs: seq<Deriv>)

  /** The values the names in scope hold. */
  function Held(bound: seq<Binding>): (r: seq<Slot>)
    ensures |r| == |bound|
    ensures forall i :: 0 <= i < |bound| ==>
              r[i] == Computed(bound[i].ty).(deriv := bound[i].deriv, quot := bound[i].quot,
                                             surviving := bound[i].surviving)
  {
    seq(|bound|,
        i requires 0 <= i < |bound| => Computed(bound[i].ty).(deriv := bound[i].deriv, quot := bound[i].quot,
                                                              surviving := bound[i].surviving))
  }

  /** The position of a name in scope, or past the end. */
  function Local(bound: seq<Binding>, name: string): (i: nat)
    ensures i <= |bound| && (i < |bound| ==> bound[i].name == name) && forall j :: 0 <= j < i ==> bound[j].name != name
  {
    if bound == [] || bound[0].name == name then 0 else 1 + Local(bound[1..], name)
  }

  function HeldDeriv(bound: seq<Binding>, name: string): Option<nat> {
    var i := Local(bound, name);
    if i < |bound| then bound[i].deriv else None
  }

  ghost predicate Recorded(ctx: Ctx, s: State, reading: Reading) {
    RowRecorded(ctx, s.derivs, s.stack, s.views, reading) &&
      RowRecorded(ctx, s.derivs, Held(s.bound), s.boundViews, reading)
  }

  lemma RowSizes(ctx: Ctx, derivs: seq<Deriv>, row: seq<Slot>, views: seq<set<string>>, reading: Reading)
    requires RowRecorded(ctx, derivs, row, views, reading)
    ensures |row| == |views| && forall i :: 0 <= i < |row| ==> DerivOk(derivs, row[i].deriv)
  {
    forall i | 0 <= i < |row| ensures DerivOk(derivs, row[i].deriv) {
      assert SlotRecorded(ctx, derivs, row[i], views[i], reading);
    }
  }

  lemma RowSplit(ctx: Ctx, derivs: seq<Deriv>, row: seq<Slot>, views: seq<set<string>>, k: nat, reading: Reading)
    requires RowRecorded(ctx, derivs, row, views, reading) && k <= |row|
    ensures RowRecorded(ctx, derivs, row[..k], views[..k], reading)
    ensures RowRecorded(ctx, derivs, row[k..], views[k..], reading)
  {
    hide SlotRecorded;
    forall i | 0 <= i < |row| ensures SlotRecorded(ctx, derivs, row[i], views[i], reading) {}
  }

  lemma RowJoin(ctx: Ctx, derivs: seq<Deriv>, a: seq<Slot>, av: seq<set<string>>, b: seq<Slot>, bv: seq<set<string>>,
        reading: Reading)
    requires RowRecorded(ctx, derivs, a, av, reading) && RowRecorded(ctx, derivs, b, bv, reading)
    ensures RowRecorded(ctx, derivs, a + b, av + bv, reading)
  {
    hide SlotRecorded;
  }

  // ---------------------------------------------------------------- the steps

  /** One step of the walk. */
  datatype Move =
    | BorrowOf(place: string, mutable: bool, ty: Ty)
    | NameOf(name: string)
    | BindAs(names: seq<string>)
    | LeaveTo(depth: nat)
    | ProjectTo(popped: nat, ty: Ty, vs: set<string>)
    | ShuffleBy(word: Shuffle)
    | CallTo(arity: nat, outputs: seq<Ty>)
    | StoreTo(target: Option<string>)

  /** What a shuffle does to the row: the values at `ShuffleMap`'s positions, with the alias rules of `dup`
      and `over`. */
  ghost predicate Shuffled(ctx: Ctx, word: Shuffle, s0: seq<Slot>, v0: seq<set<string>>, s1: seq<Slot>,
        v1: seq<set<string>>)
    requires Needs(word) <= |s0| == |v0|
  {
    var n := |s0|;
    && |s1| == |ShuffleMap(word, n)| && v1 == Gather(v0, ShuffleMap(word, n))
    && (forall i :: 0 <= i < |s1| ==> SameValue(s1[i], s0[ShuffleMap(word, n)[i]]))
    && match word
       case Dup => s1[..n] == s0 && s1[n].alias == if ctx.bears(s1[n].ty) then s1[n - 1].alias else None
       case Over =>
         && s1[n].alias == s1[n - 2].alias && s1[n - 1] == s0[n - 1] && s1[..n - 2] == s0[..n - 2]
         && (ctx.isAggregate(s1[n].ty) ==> s1[n].alias.Some?)
         && (s0[n - 2].alias.Some? || !ctx.isAggregate(s1[n].ty) ==> s1[n].alias == s0[n - 2].alias)
       case _ => s1 == Gather(s0, ShuffleMap(word, n))
  }

  /** A shuffle is refused on underflow, on copying a linear value, or when `refused` says so. */
  ghost predicate ShuffleOutcome(ctx: Ctx, word: Shuffle, s0: seq<Slot>, v0: seq<set<string>>, s1: seq<Slot>,
        v1: seq<set<string>>, r: Result<bool, BorrowError>, refused: bool) {
    var n := |s0|;
    && |v0| == n
    && (if n < Needs(word) then r == Err(Underflow(Needs(word), n))
        else if word == Dup && !ctx.isCopy(s0[n - 1].ty) then r == Err(CannotCopy(s0[n - 1].ty))
        else if word == Over && !ctx.isCopy(s0[n - 2].ty) then r == Err(CannotCopy(s0[n - 2].ty))
        else r.Ok? == !refused && (r.Ok? ==> r.value) && Shuffled(ctx, word, s0, v0, s1, v1))
    && (r.Err? && !refused ==> s1 == s0 && v1 == v0)
  }

  /** A value is pushed over the same scope. */
  ghost predicate Pushes(s: State, t: State, slot: Slot, vs: set<string>, derivs: seq<Deriv>) {
    && t.derivs == derivs && t.bound == s.bound && t.boundViews == s.boundViews && t.views == s.views + [vs]
    && |t.stack| == |s.stack| + 1 && t.stack[..|s.stack|] == s.stack && SameValue(t.stack[|s.stack|], slot)
  }

  function Viewed(s: State, name: string): set<string> {
    var i := Local(s.bound, name);
    if i < |s.bound| && i < |s.boundViews| then s.boundViews[i] else {}
  }

  /** A reference to `place` reaches `place` itself, and all that the value there reaches. */
  ghost predicate Borrows(ctx: Ctx, s: State, t: State, place: string, mutable: bool, ty: Ty) {
    && ctx.bears(ty)
    && var d := BorrowRecord(s.derivs, place, HeldDeriv(s.bound, place), Local(s.bound, place) == |s.bound|, mutable);
       Pushes(s, t, Derived(ty, Some(|s.derivs|)), {place} + Viewed(s, place), s.derivs + [d])
  }

  /** Naming a reference or a view reborrows it; any other value is read. Either way the value reaches what
      the local's does. */
  ghost predicate NamesLocal(ctx: Ctx, s: State, t: State, name: string) {
    var i := Local(s.bound, name);
    && i < |s.bound|
    && var b := s.bound[i];
       match ctx.borrowMutability(b.ty)
       case Some(m) =>
         Pushes(s, t, Derived(b.ty, Some(|s.derivs|)), Viewed(s, name),
                s.derivs + [ReborrowRecord(s.derivs, name, b.deriv, m)])
       case None =>
         Pushes(s, t, Computed(b.ty).(deriv := b.deriv, quot := b.quot, surviving := b.surviving), Viewed(s, name),
                s.derivs)
  }

  ghost predicate Binds(s: State, t: State, names: seq<string>) {
    && |names| <= |s.stack| == |s.views| && |s.bound| == |s.boundViews| && t.derivs == s.derivs
    && var k := |s.stack| - |names|;
       && t.stack == s.stack[..k] && t.views == s.views[..k]
       && |t.bound| == |s.bound| + |names| && t.bound[..|s.bound|] == s.bound &&
          t.boundViews == s.boundViews + s.views[k..]
       && forall i :: 0 <= i < |names| ==> BindsSlot(t.bound[|s.bound| + i], names[i], s.stack[k + i])
  }

  predicate BindsSlot(b: Binding, name: string, slot: Slot) {
    b.name == name && b.ty == slot.ty && b.deriv == slot.deriv && b.quot == slot.quot &&
      b.surviving == slot.surviving && (slot.alias.Some? ==> b.aliases == Some(slot.alias.value.set_))
  }

  ghost predicate Leaves(s: State, t: State, depth: nat) {
    depth <= |s.bound| == |s.boundViews| && t == s.(bound := s.bound[..depth], boundViews := s.boundViews[..depth])
  }

  ghost predicate SameScope(s: State, t: State) { t.bound == s.bound && t.boundViews == s.boundViews }

  ghost predicate Projects(ctx: Ctx, s: State, t: State, popped: nat, ty: Ty, vs: set<string>) {
    && 1 <= popped <= |s.stack| == |s.views| && ctx.bears(ty) && SameScope(s, t)
    && var r := |s.stack| - popped;
       && vs <= s.views[r] && t.views == s.views[..r] + [vs]
       && |t.stack| == r + 1 && t.stack[..r] == s.stack[..r] && t.stack[r].ty == ty
       && match s.stack[r].deriv
          case None => t.derivs == s.derivs && t.stack[r].deriv == None
          case Some(d) =>
            d < |s.derivs| && t.derivs == s.derivs + [s.derivs[d].(projected := true)] &&
              t.stack[r].deriv == Some(|s.derivs|)
  }

  ghost predicate Shuffles(ctx: Ctx, s: State, t: State, word: Shuffle) {
    ShuffleOutcome(ctx, word, s.stack, s.views, t.stack, t.views, Ok(true), false) && t.derivs == s.derivs &&
      SameScope(s, t) &&
    |s.stack| >= Needs(word)
  }

  ghost predicate Calls(ctx: Ctx, s: State, t: State, arity: nat, outputs: seq<Ty>) {
    && arity <= |s.stack| == |s.views| && t.derivs == s.derivs && SameScope(s, t)
    && var base := |s.stack| - arity;
       && base <= |t.stack| == |t.views| && t.stack[..base] == s.stack[..base] && t.views[..base] == s.views[..base]
       && OutputViews(ctx, outputs, s.views[base..], t.views[base..])
       && (AnyBears(ctx, outputs) ==> !RootsClash(ctx, s.derivs, s.stack[base..]))
       && |t.stack[base..]| == |outputs|
       && forall i :: 0 <= i < |outputs| ==>
            SameCarried(t.stack[base..][i], CallOutputs(ctx, outputs, CarriedDeriv(ctx, s.derivs, s.stack[base..]))[i])
  }

  /** The local that a store through `receiver` is booked to, the one the reference was taken from; or past the
      end. */
  function Container(s: State, receiver: Slot): (c: nat)
    ensures c <= |s.bound|
  {
    var d := receiver.deriv;
    if d.Some? && d.value < |s.derivs| then Local(s.bound, s.derivs[d.value].place) else |s.bound|
  }

  /** The receiver is rooted at a local. */
  predicate InFrame(s: State, receiver: Slot) {
    var root := RootOf(s.derivs, receiver.deriv);
    root.Some? && Local(s.bound, root.value) < |s.bound|
  }

  /** What the container holds and the stored value are rooted at different places. */
  predicate StoreClash(s: State, receiver: Slot, value: Slot) {
    var c := Container(s, receiver);
    && c < |s.bound| && RootOf(s.derivs, s.bound[c].deriv).Some? && RootOf(s.derivs, value.deriv).Some?
    && RootOf(s.derivs, s.bound[c].deriv) != RootOf(s.derivs, value.deriv)
  }

  /** The names in scope once the stored derivation, if there is one, is booked to the container. */
  function Booked(s: State, receiver: Slot, value: Slot): (r: seq<Binding>)
    ensures |r| == |s.bound|
  {
    var c := Container(s, receiver);
    if c < |s.bound| && value.deriv.Some? then s.bound[c := s.bound[c].(deriv := value.deriv)] else s.bound
  }

  /** The same up to the regions of the values. */
  predicate SameHeld(a: seq<Binding>, b: seq<Binding>) {
    |a| == |b| && forall i :: 0 <= i < |a| ==> a[i].(aliases := None) == b[i].(aliases := None)
  }

  /** A value that reaches the written place. */
  predicate Touched(target: Option<string>, reach: set<string>) { target.Some? && target.value in reach }

  /** A local that is the written place, or reaches it. */
  predicate TouchedLocal(target: Option<string>, b: Binding, reach: set<string>) {
    Touched(target, reach) || target == Some(b.name)
  }

  function Gain(touched: bool, reach: set<string>, vs: set<string>): set<string> {
    if touched then reach + vs else reach
  }

  /** The value on top is written through the reference below it, at run time into the frame place `target`, or
      into no place of this frame: whatever reaches that place now reaches what the value did. A value that bears
      references may only be stored through a reference rooted at a local, and not beside a view of another
      place; its derivation replaces the container's. */
  ghost predicate Stores(ctx: Ctx, s: State, t: State, target: Option<string>) {
    && 2 <= |s.stack| == |s.views| && |s.bound| == |s.boundViews| == |t.boundViews| && t.derivs == s.derivs
    && var n := |s.stack| - 2;
       var receiver, value, vs := s.stack[n], s.stack[n + 1], s.views[n + 1];
       && (target.Some? ==> target.value in s.views[n])
       && t.stack == s.stack[..n] && |t.views| == n
       && (forall i :: 0 <= i < n ==> t.views[i] == Gain(Touched(target, s.views[i]), s.views[i], vs))
       && (forall i :: 0 <= i < |s.bound| ==>
             && t.boundViews[i] == Gain(TouchedLocal(target, s.bound[i], s.boundViews[i]), s.boundViews[i], vs)
             && (target == Some(s.bound[i].name) && vs != {} ==> ctx.bears(s.bound[i].ty)))
       && if !ctx.bears(value.ty) then t.bound == s.bound
          else InFrame(s, receiver) && !StoreClash(s, receiver, value) && SameHeld(t.bound, Booked(s, receiver, value))
  }

  ghost predicate Moves(ctx: Ctx, s: State, m: Move, t: State) {
    match m
    case BorrowOf(place, mutable, ty) => Borrows(ctx, s, t, place, mutable, ty)
    case NameOf(name) => NamesLocal(ctx, s, t, name)
    case BindAs(names) => Binds(s, t, names)
    case LeaveTo(depth) => Leaves(s, t, depth)
    case ProjectTo(popped, ty, vs) => Projects(ctx, s, t, popped, ty, vs)
    case ShuffleBy(word) => Shuffles(ctx, s, t, word)
    case CallTo(arity, outputs) => Calls(ctx, s, t, arity, outputs)
    case StoreTo(target) => Stores(ctx, s, t, target)
  }

  /** The guard under which a store keeps every name: the stored record names all that the container's did, and
      every other record that shares a name with the receiver's names all that the stored one does. */
  predicate StoreKeepsNames(ctx: Ctx, s: State) {
    2 <= |s.stack| && ctx.bears(s.stack[|s.stack| - 1].ty) ==>
      var n := |s.stack| - 2;
      var receiver, value := s.stack[n].deriv, s.stack[n + 1].deriv;
      var c := Container(s, s.stack[n]);
      && (c < |s.bound| && value.Some? ==> NamesBoth(s.derivs, s.bound[c].deriv, value))
      && (forall i :: 0 <= i < n && SharesName(s.derivs, receiver, s.stack[i].deriv) ==>
            NamesBoth(s.derivs, value, s.stack[i].deriv))
      && (forall i :: 0 <= i < |s.bound| && i != c && NamesLocalOf(s, receiver, s.bound[i]) ==>
            NamesBoth(s.derivs, value, s.bound[i].deriv))
  }

  /** `d` names the local, or something its record names. */
  predicate NamesLocalOf(s: State, d: Option<nat>, b: Binding) {
    Named(s.derivs, d, b.name) || SharesName(s.derivs, d, b.deriv)
  }

  /** A value, or a local, that reaches the written place and is not rooted at `p`. */
  predicate StrayBeneath(s: State, target: Option<string>, p: string, i: nat)
    requires i < |s.stack| == |s.views|
  {
    Touched(target, s.views[i]) && RootOf(s.derivs, s.stack[i].deriv) != Some(p)
  }

  predicate StrayLocal(s: State, target: Option<string>, p: string, i: nat)
    requires i < |s.bound| == |s.boundViews|
  {
    TouchedLocal(target, s.bound[i], s.boundViews[i]) && RootOf(s.derivs, s.bound[i].deriv) != Some(p)
  }

  /** The guard under which a store keeps `p` the root of all that reaches it: if the stored value reaches `p`,
      whatever else reaches the written place is rooted at `p` already; and a container that reaches `p` does not
      take a record without a root. */
  predicate StoreKeepsRoot(ctx: Ctx, s: State, target: Option<string>, p: string) {
    2 <= |s.stack| == |s.views| && |s.bound| == |s.boundViews| && ctx.bears(s.stack[|s.stack| - 1].ty) ==>
      var n := |s.stack| - 2;
      var value := s.stack[n + 1].deriv;
      var c := Container(s, s.stack[n]);
      && (p in s.views[n + 1] ==>
            && (forall i :: 0 <= i < n ==> !StrayBeneath(s, target, p, i))
            && (forall i :: 0 <= i < |s.bound| && i != c ==> !StrayLocal(s, target, p, i)))
      && (c < |s.bound| && p in s.boundViews[c] && value.Some? ==> RootOf(s.derivs, value).Some?)
  }

  /** What the state before a step must satisfy for the step to keep every name a scan looks for. */
  predicate KeepsNames(ctx: Ctx, s: State, m: Move) {
    match m
    case BorrowOf(place, _, _) => ThroughKeepsNames(s.derivs, place, HeldDeriv(s.bound, place))
    case NameOf(name) =>
      var i := Local(s.bound, name);
      i < |s.bound| && ctx.borrowMutability(s.bound[i].ty).Some? ==> ThroughKeepsNames(s.derivs, name, s.bound[i].deriv)
    case CallTo(arity, outputs) =>
      arity <= |s.stack| && AnyBears(ctx, outputs) ==> CallKeepsNames(ctx, s.derivs, s.stack[|s.stack| - arity..])
    case StoreTo(_) => StoreKeepsNames(ctx, s)
    case _ => true
  }

  /** What it must satisfy for the step to keep `p` the root of all that reaches it. */
  predicate KeepsRoot(ctx: Ctx, s: State, m: Move, p: string) {
    match m
    case BorrowOf(place, _, _) => p == place ==> ThroughKeepsRoot(s.derivs, place, HeldDeriv(s.bound, place))
    case StoreTo(target) => StoreKeepsRoot(ctx, s, target, p)
    case _ => true
  }

  ghost predicate Keeps(ctx: Ctx, s: State, m: Move, reading: Reading) {
    match reading
    case Names => KeepsNames(ctx, s, m)
    case Roots(kept) => forall p :: p in kept ==> KeepsRoot(ctx, s, m, p)
  }

  // ---------------------------------------------------------------- every step keeps the records

  lemma PushRecorded(ctx: Ctx, s: State, t: State, slot: Slot, vs: set<string>, derivs: seq<Deriv>, reading: Reading)
    requires Recorded(ctx, s, reading) && s.derivs <= derivs && Pushes(s, t, slot, vs, derivs)
    requires SlotRecorded(ctx, derivs, slot, vs, reading)
    ensures Recorded(ctx, t, reading)
  {
    RecordedGrows(ctx, s.derivs, derivs, s.stack, s.views, reading);
    RecordedGrows(ctx, s.derivs, derivs, Held(s.bound), s.boundViews, reading);
    hide Records;
    assert RowRecorded(ctx, derivs, [t.stack[|s.stack|]], [vs], reading);
    RowJoin(ctx, derivs, s.stack, s.views, [t.stack[|s.stack|]], [vs], reading);
    assert t.stack == t.stack[..|s.stack|] + [t.stack[|s.stack|]];
  }

  /** What the local `name` holds, recorded. */
  lemma LocalRecorded(ctx: Ctx, s: State, name: string, reading: Reading)
    requires Recorded(ctx, s, reading) && Local(s.bound, name) < |s.bound|
    ensures |s.bound| == |s.boundViews|
    ensures SlotRecorded(ctx, s.derivs, Held(s.bound)[Local(s.bound, name)], Viewed(s, name), reading)
  {
  }

  lemma BorrowsRecorded(ctx: Ctx, s: State, t: State, place: string, mutable: bool, ty: Ty, reading: Reading)
    requires Recorded(ctx, s, reading) && Borrows(ctx, s, t, place, mutable, ty)
    requires Keeps(ctx, s, BorrowOf(place, mutable, ty), reading)
    ensures Recorded(ctx, t, reading) && s.derivs <= t.derivs
  {
    var i := Local(s.bound, place);
    var static_ := i == |s.bound|;
    var slot := if i < |s.bound| then Held(s.bound)[i] else Computed(ty);
    if i < |s.bound| { LocalRecorded(ctx, s, place, reading); }
    var d := BorrowRecord(s.derivs, place, slot.deriv, static_, mutable);
    var vs := {place} + Viewed(s, place);
    forall p | p in vs ensures Records(s.derivs + [d], Some(|s.derivs|), p, reading) {
      ThroughRecords(ctx, s.derivs, slot, Viewed(s, place), place, static_, mutable, p, reading);
    }
    PushRecorded(ctx, s, t, Derived(ty, Some(|s.derivs|)), vs, s.derivs + [d], reading);
  }

  lemma NamesRecorded(ctx: Ctx, s: State, t: State, name: string, reading: Reading)
    requires Recorded(ctx, s, reading) && NamesLocal(ctx, s, t, name) && Keeps(ctx, s, NameOf(name), reading)
    ensures Recorded(ctx, t, reading) && s.derivs <= t.derivs
  {
    var b, slot, vs := s.bound[Local(s.bound, name)], Held(s.bound)[Local(s.bound, name)], Viewed(s, name);
    LocalRecorded(ctx, s, name, reading);
    match ctx.borrowMutability(b.ty)
    case Some(m) =>
      var more := s.derivs + [ReborrowRecord(s.derivs, name, b.deriv, m)];
      forall p | p in vs ensures Records(more, Some(|s.derivs|), p, reading) {
        ReborrowRecords(ctx, s.derivs, slot, vs, name, m, p, reading);
      }
      PushRecorded(ctx, s, t, Derived(b.ty, Some(|s.derivs|)), vs, more, reading);
    case None =>
      PushRecorded(ctx, s, t, Computed(b.ty).(deriv := b.deriv, quot := b.quot, surviving := b.surviving), vs, s.derivs,
                   reading);
  }

  lemma BindsRecorded(ctx: Ctx, s: State, t: State, names: seq<string>, reading: Reading)
    requires Recorded(ctx, s, reading) && Binds(s, t, names)
    ensures Recorded(ctx, t, reading)
  {
    var k := |s.stack| - |names|;
    RowSplit(ctx, s.derivs, s.stack, s.views, k, reading);
    var added := t.bound[|s.bound|..];
    forall i | 0 <= i < |names|
      ensures Held(added)[i].ty == s.stack[k..][i].ty && Held(added)[i].deriv == s.stack[k..][i].deriv
    {
      assert BindsSlot(t.bound[|s.bound| + i], names[i], s.stack[k + i]);
    }
    SameRow(ctx, s.derivs, s.stack[k..], Held(added), s.views[k..], reading);
    hide RowRecorded, Binds;
    RowJoin(ctx, s.derivs, Held(s.bound), s.boundViews, Held(added), s.views[k..], reading);
    assert t.bound == s.bound + added;
    HeldConcat(s.bound, added);
  }

  lemma HeldConcat(a: seq<Binding>, b: seq<Binding>)
    ensures Held(a + b) == Held(a) + Held(b)
  {
  }

  lemma SameRow(ctx: Ctx, derivs: seq<Deriv>, row: seq<Slot>, other: seq<Slot>, views: seq<set<string>>,
        reading: Reading)
    requires RowRecorded(ctx, derivs, row, views, reading) && |other| == |row|
    requires forall i :: 0 <= i < |row| ==> other[i].ty == row[i].ty && other[i].deriv == row[i].deriv
    ensures RowRecorded(ctx, derivs, other, views, reading)
  {
    hide Records;
    forall i | 0 <= i < |row| ensures SlotRecorded(ctx, derivs, other[i], views[i], reading) {
      assert SlotRecorded(ctx, derivs, row[i], views[i], reading);
    }
  }

  lemma LeavesRecorded(ctx: Ctx, s: State, t: State, depth: nat, reading: Reading)
    requires Recorded(ctx, s, reading) && Leaves(s, t, depth)
    ensures Recorded(ctx, t, reading)
  {
    RowSplit(ctx, s.derivs, Held(s.bound), s.boundViews, depth, reading);
    assert Held(s.bound[..depth]) == Held(s.bound)[..depth];
  }

  lemma ProjectsRecorded(ctx: Ctx, s: State, t: State, popped: nat, ty: Ty, vs: set<string>, reading: Reading)
    requires Recorded(ctx, s, reading) && Projects(ctx, s, t, popped, ty, vs)
    ensures Recorded(ctx, t, reading) && s.derivs <= t.derivs
  {
    var r := |s.stack| - popped;
    RecordedGrows(ctx, s.derivs, t.derivs, s.stack, s.views, reading);
    RecordedGrows(ctx, s.derivs, t.derivs, Held(s.bound), s.boundViews, reading);
    RowSplit(ctx, t.derivs, s.stack, s.views, r, reading);
    assert SlotRecorded(ctx, t.derivs, s.stack[r], s.views[r], reading);
    forall p | p in vs ensures Records(t.derivs, t.stack[r].deriv, p, reading) {
      assert Records(t.derivs, s.stack[r].deriv, p, reading);
    }
    RowJoin(ctx, t.derivs, s.stack[..r], s.views[..r], [t.stack[r]], [vs], reading);
    assert t.stack == t.stack[..r] + [t.stack[r]];
  }

  lemma CallsRecorded(ctx: Ctx, s: State, t: State, arity: nat, outputs: seq<Ty>, reading: Reading)
    requires Recorded(ctx, s, reading) && Calls(ctx, s, t, arity, outputs)
    requires Keeps(ctx, s, CallTo(arity, outputs), reading)
    ensures Recorded(ctx, t, reading)
  {
    hide Records, RootsClash, CallKeepsNames, CarriedDeriv, SlotRecorded;
    var base := |s.stack| - arity;
    RowSplit(ctx, s.derivs, s.stack, s.views, base, reading);
    CallRecorded(ctx, s.derivs, s.stack[base..], s.views[base..], outputs, t.stack[base..], t.views[base..], reading);
    RowJoin(ctx, s.derivs, s.stack[..base], s.views[..base], t.stack[base..], t.views[base..], reading);
    assert t.stack == t.stack[..base] + t.stack[base..] && t.views == t.views[..base] + t.views[base..];
  }

  lemma ShufflesRecorded(ctx: Ctx, s: State, t: State, word: Shuffle, reading: Reading)
    requires Recorded(ctx, s, reading) && Shuffles(ctx, s, t, word)
    ensures Recorded(ctx, t, reading)
  {
    hide RowRecorded;
    ShuffleRecorded(ctx, s.derivs, s.stack, s.views, t.stack, ShuffleMap(word, |s.stack|), reading);
  }

  /** A value that reaches more after a store, still recorded. */
  lemma GainRecorded(ctx: Ctx, derivs: seq<Deriv>, slot: Slot, reach: set<string>, value: Slot, vs: set<string>,
        touched: bool, reading: Reading)
    requires SlotRecorded(ctx, derivs, slot, reach, reading) && SlotRecorded(ctx, derivs, value, vs, reading)
    requires touched && vs != {} ==> ctx.bears(slot.ty)
    requires touched && ctx.bears(value.ty) && reading.Names? ==> NamesBoth(derivs, value.deriv, slot.deriv)
    requires touched && ctx.bears(value.ty) && reading.Roots? ==>
               forall p :: p in reading.kept && p in vs ==> RootOf(derivs, slot.deriv) == Some(p)
    ensures SlotRecorded(ctx, derivs, slot, Gain(touched, reach, vs), reading)
  {
    if touched {
      forall p | p in vs ensures Records(derivs, slot.deriv, p, reading) {
        assert Records(derivs, value.deriv, p, reading);
      }
    }
  }

  /** A value beneath the operands of a store. */
  lemma StoredBeneath(ctx: Ctx, s: State, t: State, target: Option<string>, i: nat, reading: Reading)
    requires Recorded(ctx, s, reading) && Stores(ctx, s, t, target) && Keeps(ctx, s, StoreTo(target), reading)
    requires i < |t.stack|
    ensures SlotRecorded(ctx, t.derivs, t.stack[i], t.views[i], reading)
  {
    hide InFrame, StoreClash, SameHeld, NamesBoth, Local;
    var n := |s.stack| - 2;
    var value, vs, touched := s.stack[n + 1], s.views[n + 1], Touched(target, s.views[i]);
    assert SlotRecorded(ctx, s.derivs, value, vs, reading) &&
      SlotRecorded(ctx, s.derivs, s.stack[i], s.views[i], reading);
    assert SlotRecorded(ctx, s.derivs, s.stack[n], s.views[n], reading);
    if touched && reading.Roots? {
      forall p | p in reading.kept && p in vs ensures RootOf(s.derivs, s.stack[i].deriv) == Some(p) {
        assert KeepsRoot(ctx, s, StoreTo(target), p) && !StrayBeneath(s, target, p, i);
      }
    }
    GainRecorded(ctx, s.derivs, s.stack[i], s.views[i], value, vs, touched, reading);
  }

  /** A local other than the container. */
  lemma StoredElsewhere(ctx: Ctx, s: State, target: Option<string>, vs: set<string>, i: nat, reading: Reading)
    requires Recorded(ctx, s, reading) && Keeps(ctx, s, StoreTo(target), reading)
    requires 2 <= |s.stack| && vs == s.views[|s.stack| - 1] && (target.Some? ==> target.value in s.views[|s.stack| - 2])
    requires i < |s.bound| && i != Container(s, s.stack[|s.stack| - 2])
    requires target == Some(s.bound[i].name) && vs != {} ==> ctx.bears(s.bound[i].ty)
    ensures SlotRecorded(ctx, s.derivs, Held(s.bound)[i],
                         Gain(TouchedLocal(target, s.bound[i], s.boundViews[i]), s.boundViews[i], vs), reading)
  {
    hide InFrame, StoreClash, SameHeld, NamesBoth, Local, Container;
    var n := |s.stack| - 2;
    var value, touched := s.stack[n + 1], TouchedLocal(target, s.bound[i], s.boundViews[i]);
    assert SlotRecorded(ctx, s.derivs, value, vs, reading) &&
      SlotRecorded(ctx, s.derivs, s.stack[n], s.views[n], reading);
    assert SlotRecorded(ctx, s.derivs, Held(s.bound)[i], s.boundViews[i], reading);
    if touched && reading.Roots? {
      forall p | p in reading.kept && p in vs ensures RootOf(s.derivs, s.bound[i].deriv) == Some(p) {
        assert KeepsRoot(ctx, s, StoreTo(target), p) && !StrayLocal(s, target, p, i);
      }
    }
    if touched && reading.Names? { assert NamesLocalOf(s, s.stack[n].deriv, s.bound[i]); }
    GainRecorded(ctx, s.derivs, Held(s.bound)[i], s.boundViews[i], value, vs, touched, reading);
  }

  /** The container, under the record it holds after the store. */
  lemma StoredInto(ctx: Ctx, s: State, target: Option<string>, vs: set<string>, held: Slot, reading: Reading)
    requires Recorded(ctx, s, reading) && Keeps(ctx, s, StoreTo(target), reading)
    requires 2 <= |s.stack| && vs == s.views[|s.stack| - 1]
    requires var c, value := Container(s, s.stack[|s.stack| - 2]), s.stack[|s.stack| - 1];
             && c < |s.bound| && ctx.bears(value.ty) && !StoreClash(s, s.stack[|s.stack| - 2], value)
             && held == Held(s.bound)[c].(deriv := if value.deriv.Some? then value.deriv else s.bound[c].deriv)
             && (TouchedLocal(target, s.bound[c], s.boundViews[c]) && vs != {} ==> ctx.bears(held.ty))
    ensures var c := Container(s, s.stack[|s.stack| - 2]);
            SlotRecorded(ctx, s.derivs, held,
                         Gain(TouchedLocal(target, s.bound[c], s.boundViews[c]), s.boundViews[c], vs), reading)
  {
    hide Local, Container, InFrame;
    var n := |s.stack| - 2;
    var c, value := Container(s, s.stack[n]), s.stack[n + 1];
    assert SlotRecorded(ctx, s.derivs, value, vs, reading);
    assert SlotRecorded(ctx, s.derivs, Held(s.bound)[c], s.boundViews[c], reading);
    forall p | p in vs ensures Records(s.derivs, held.deriv, p, reading) {
      assert Records(s.derivs, value.deriv, p, reading);
    }
    forall p | p in s.boundViews[c] ensures Records(s.derivs, held.deriv, p, reading) {
      assert Records(s.derivs, s.bound[c].deriv, p, reading);
      if reading.Roots? && p in reading.kept { assert KeepsRoot(ctx, s, StoreTo(target), p); }
    }
  }

  lemma StoresRecorded(ctx: Ctx, s: State, t: State, target: Option<string>, reading: Reading)
    requires Recorded(ctx, s, reading) && Stores(ctx, s, t, target) && Keeps(ctx, s, StoreTo(target), reading)
    ensures Recorded(ctx, t, reading)
  {
    hide Keeps, SlotRecorded, Gain, TouchedLocal, Touched, Container, InFrame, StoreClash;
    forall i | 0 <= i < |t.stack| ensures SlotRecorded(ctx, t.derivs, t.stack[i], t.views[i], reading) {
      StoredBeneath(ctx, s, t, target, i, reading);
    }
    forall i | 0 <= i < |t.bound| ensures SlotRecorded(ctx, t.derivs, Held(t.bound)[i], t.boundViews[i], reading) {
      StoredLocal(ctx, s, t, target, i, reading);
    }
  }

  lemma StoredLocal(ctx: Ctx, s: State, t: State, target: Option<string>, i: nat, reading: Reading)
    requires Recorded(ctx, s, reading) && Stores(ctx, s, t, target) && Keeps(ctx, s, StoreTo(target), reading)
    requires i < |t.bound|
    ensures i < |t.boundViews| && SlotRecorded(ctx, t.derivs, Held(t.bound)[i], t.boundViews[i], reading)
  {
    hide Keeps, Gain, Container, InFrame, StoreClash, Records, Local;
    var n := |s.stack| - 2;
    var c, vs := Container(s, s.stack[n]), s.views[n + 1];
    assert SlotRecorded(ctx, s.derivs, s.stack[n + 1], vs, reading);
    if i != c {
      StoredElsewhere(ctx, s, target, vs, i, reading);
    } else if ctx.bears(s.stack[n + 1].ty) {
      assert SlotRecorded(ctx, s.derivs, Held(s.bound)[c], s.boundViews[c], reading);
      StoredInto(ctx, s, target, vs, Held(t.bound)[c], reading);
    } else {
      NothingStored(ctx, s, t, target, i, reading);
    }
  }

  lemma NothingStored(ctx: Ctx, s: State, t: State, target: Option<string>, i: nat, reading: Reading)
    requires Recorded(ctx, s, reading) && Stores(ctx, s, t, target) && i < |t.bound|
    requires !ctx.bears(s.stack[|s.stack| - 1].ty)
    ensures SlotRecorded(ctx, t.derivs, Held(t.bound)[i], t.boundViews[i], reading)
  {
    hide Records;
    var n := |s.stack| - 2;
    assert SlotRecorded(ctx, s.derivs, s.stack[n + 1], s.views[n + 1], reading);
    assert SlotRecorded(ctx, s.derivs, Held(s.bound)[i], s.boundViews[i], reading);
    assert t.boundViews[i] == s.boundViews[i];
  }

  /** Every step that meets its guard keeps the records. */
  lemma MoveRecorded(ctx: Ctx, s: State, m: Move, t: State, reading: Reading)
    requires Recorded(ctx, s, reading) && Moves(ctx, s, m, t) && Keeps(ctx, s, m, reading)
    ensures Recorded(ctx, t, reading) && s.derivs <= t.derivs
  {
    hide Recorded, Borrows, NamesLocal, Binds, Leaves, Projects, Shuffles, Calls, Stores;
    match m
    case BorrowOf(place, mutable, ty) => BorrowsRecorded(ctx, s, t, place, mutable, ty, reading);
    case NameOf(name) => NamesRecorded(ctx, s, t, name, reading);
    case BindAs(names) => BindsRecorded(ctx, s, t, names, reading); SameDerivs(ctx, s, m, t);
    case LeaveTo(depth) => LeavesRecorded(ctx, s, t, depth, reading); SameDerivs(ctx, s, m, t);
    case ProjectTo(popped, ty, vs) => ProjectsRecorded(ctx, s, t, popped, ty, vs, reading);
    case ShuffleBy(word) => ShufflesRecorded(ctx, s, t, word, reading); SameDerivs(ctx, s, m, t);
    case CallTo(arity, outputs) => CallsRecorded(ctx, s, t, arity, outputs, reading); SameDerivs(ctx, s, m, t);
    case StoreTo(target) => StoresRecorded(ctx, s, t, target, reading); SameDerivs(ctx, s, m, t);
  }

  lemma SameDerivs(ctx: Ctx, s: State, m: Move, t: State)
    requires Moves(ctx, s, m, t) && (m.BindAs? || m.LeaveTo? || m.ShuffleBy? || m.CallTo? || m.StoreTo?)
    ensures t.derivs == s.derivs
  {
  }

  /** The places of `kept` that a step keeps the root of all that reaches them. */
  ghost function KeptBy(ctx: Ctx, s: State, m: Move, kept: iset<string>): iset<string> {
    iset p | p in kept && KeepsRoot(ctx, s, m, p)
  }

  lemma StepRecorded(ctx: Ctx, s: State, m: Move, t: State, kept: iset<string>)
    requires Recorded(ctx, s, Roots(kept)) && Moves(ctx, s, m, t)
    ensures Recorded(ctx, t, Roots(KeptBy(ctx, s, m, kept))) && s.derivs <= t.derivs
    ensures !m.BorrowOf? && !m.StoreTo? ==> KeptBy(ctx, s, m, kept) == kept
  {
    hide Moves, RowRecorded;
    FewerRoots(ctx, s, kept, KeptBy(ctx, s, m, kept));
    hide Recorded;
    MoveRecorded(ctx, s, m, t, Roots(KeptBy(ctx, s, m, kept)));
  }

  lemma FewerRoots(ctx: Ctx, s: State, kept: iset<string>, fewer: iset<string>)
    requires Recorded(ctx, s, Roots(kept)) && fewer <= kept
    ensures Recorded(ctx, s, Roots(fewer))
  {
    FewerRow(ctx, s.derivs, s.stack, s.views, kept, fewer);
    FewerRow(ctx, s.derivs, Held(s.bound), s.boundViews, kept, fewer);
  }

  lemma FewerRow(ctx: Ctx, derivs: seq<Deriv>, row: seq<Slot>, views: seq<set<string>>, kept: iset<string>,
        fewer: iset<string>)
    requires RowRecorded(ctx, derivs, row, views, Roots(kept)) && fewer <= kept
    ensures RowRecorded(ctx, derivs, row, views, Roots(fewer))
  {
    forall i | 0 <= i < |row| ensures SlotRecorded(ctx, derivs, row[i], views[i], Roots(fewer)) {
      assert SlotRecorded(ctx, derivs, row[i], views[i], Roots(kept));
      forall p | p in views[i] ensures Records(derivs, row[i].deriv, p, Roots(fewer)) {
        assert Records(derivs, row[i].deriv, p, Roots(kept));
      }
    }
  }

  // ---------------------------------------------------------------- steps between given states

  /** The written place is one the receiver may reach, and a local there can hold what is written. */
  ghost predicate CanWrite(ctx: Ctx, s: State, target: Option<string>) {
    target.Some? && 2 <= |s.stack| == |s.views| ==>
      && target.value in s.views[|s.stack| - 2]
      && forall i :: 0 <= i < |s.bound| && s.bound[i].name == target.value && s.views[|s.stack| - 1] != {} ==>
           ctx.bears(s.bound[i].ty)
  }

  ghost function ViewsAfter(s: State, target: Option<string>): (r: seq<set<string>>)
    requires 2 <= |s.stack| == |s.views|
    ensures |r| == |s.stack| - 2
  {
    seq(|s.stack| - 2,
        i requires 0 <= i < |s.stack| - 2 => Gain(Touched(target, s.views[i]), s.views[i], s.views[|s.stack| - 1]))
  }

  ghost function LocalViewsAfter(s: State, target: Option<string>): (r: seq<set<string>>)
    requires 2 <= |s.stack| == |s.views| && |s.bound| == |s.boundViews|
    ensures |r| == |s.bound|
  {
    seq(|s.bound|, i requires 0 <= i < |s.bound| =>
      Gain(TouchedLocal(target, s.bound[i], s.boundViews[i]), s.boundViews[i], s.views[|s.stack| - 1]))
  }

  lemma StoresAre(ctx: Ctx, s: State, t: State, target: Option<string>)
    requires 2 <= |s.stack| == |s.views| && |s.bound| == |s.boundViews| && CanWrite(ctx, s, target)
    requires t == State(s.stack[..|s.stack| - 2], ViewsAfter(s, target), t.bound, LocalViewsAfter(s, target), s.derivs)
    requires var receiver, value := s.stack[|s.stack| - 2], s.stack[|s.stack| - 1];
             if !ctx.bears(value.ty) then t.bound == s.bound else
               && InFrame(s, receiver) && !StoreClash(s, receiver, value)
               && SameHeld(t.bound, Booked(s, receiver, value))
    ensures Moves(ctx, s, StoreTo(target), t)
  {
    hide InFrame, StoreClash, SameHeld, Booked, Local;
  }

  lemma BorrowsAre(ctx: Ctx, s: State, t: State, place: string, mutable: bool, ty: Ty)
    requires ctx.bears(ty)
    requires var held, static_ := HeldDeriv(s.bound, place), Local(s.bound, place) == |s.bound|;
             var d := BorrowRecord(s.derivs, place, held, static_, mutable);
             t == s.(stack := s.stack + [Derived(ty, Some(|s.derivs|))],
                     views := s.views + [{place} + Viewed(s, place)], derivs := s.derivs + [d])
    ensures Moves(ctx, s, BorrowOf(place, mutable, ty), t)
  {
    hide Local, BorrowRecord, Viewed, HeldDeriv;
  }

  lemma ReferenceNames(ctx: Ctx, s: State, t: State, name: string, mutable: bool)
    requires Local(s.bound, name) < |s.bound|
    requires var b := s.bound[Local(s.bound, name)];
             && ctx.borrowMutability(b.ty) == Some(mutable)
             && t == s.(stack := s.stack + [Derived(b.ty, Some(|s.derivs|))], views := s.views + [Viewed(s, name)],
                        derivs := s.derivs + [ReborrowRecord(s.derivs, name, b.deriv, mutable)])
    ensures Moves(ctx, s, NameOf(name), t)
  {
    hide Local, ReborrowRecord, Viewed;
  }

  lemma ValueNames(ctx: Ctx, s: State, t: State, name: string, alias: Option<Alias>)
    requires Local(s.bound, name) < |s.bound|
    requires var b := s.bound[Local(s.bound, name)];
             var slot := Computed(b.ty).(deriv := b.deriv, quot := b.quot, surviving := b.surviving, alias := alias);
             && ctx.borrowMutability(b.ty).None?
             && t == s.(stack := s.stack + [slot], views := s.views + [Viewed(s, name)])
    ensures Moves(ctx, s, NameOf(name), t)
  {
    hide Local, Viewed;
  }

  lemma ProjectsAre(ctx: Ctx, s: State, t: State, popped: nat, ty: Ty, vs: set<string>)
    requires 1 <= popped <= |s.stack| == |s.views| && ctx.bears(ty) && vs <= s.views[|s.stack| - popped]
    requires DerivOk(s.derivs, s.stack[|s.stack| - popped].deriv)
    requires var r := |s.stack| - popped;
             var receiver := s.stack[r];
             var deriv := if receiver.deriv.Some? then Some(|s.derivs|) else None;
             && t == s.(stack := s.stack[..r] + [Derived(ty, deriv).(alias := receiver.alias)],
                        views := s.views[..r] + [vs], derivs := t.derivs)
             && t.derivs == s.derivs +
                  if receiver.deriv.Some? then [s.derivs[receiver.deriv.value].(projected := true)] else []
    ensures Moves(ctx, s, ProjectTo(popped, ty, vs), t)
  {
    var r := |s.stack| - popped;
    assert t.stack[..r] == s.stack[..r];
  }

  lemma LeavesAre(ctx: Ctx, s: State, t: State, depth: nat)
    requires depth <= |s.bound| == |s.boundViews|
    requires t == s.(bound := s.bound[..depth], boundViews := s.boundViews[..depth])
    ensures Moves(ctx, s, LeaveTo(depth), t)
  {
  }

  /** A binder over the whole stack. */
  lemma BindsAll(ctx: Ctx, s: State, names: seq<string>, added: seq<Binding>)
    requires |names| == |added| == |s.stack| == |s.views| && |s.bound| == |s.boundViews|
    requires forall i :: 0 <= i < |names| ==> BindsSlot(added[i], names[i], s.stack[i])
    ensures Moves(ctx, s, BindAs(names), State([], [], s.bound + added, s.boundViews + s.views, s.derivs))
  {
    hide BindsSlot;
    assert s.stack[0..] == s.stack && s.views[0..] == s.views && s.stack[..0] == [] && s.views[..0] == [];
    BindsAre(ctx, s, State([], [], s.bound + added, s.boundViews + s.views, s.derivs), names, added);
  }

  lemma BindsAre(ctx: Ctx, s: State, t: State, names: seq<string>, added: seq<Binding>)
    requires |names| == |added| <= |s.stack| == |s.views| && |s.bound| == |s.boundViews|
    requires var k := |s.stack| - |names|;
             && t == State(s.stack[..k], s.views[..k], s.bound + added, s.boundViews + s.views[k..], s.derivs)
             && forall i :: 0 <= i < |names| ==> BindsSlot(added[i], names[i], s.stack[k..][i])
    ensures Moves(ctx, s, BindAs(names), t)
  {
    forall i | 0 <= i < |names| ensures BindsSlot(t.bound[|s.bound| + i], names[i], s.stack[|s.stack| - |names| + i]) {
      assert s.stack[|s.stack| - |names|..][i] == s.stack[|s.stack| - |names| + i];
    }
  }
}
