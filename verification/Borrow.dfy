/** Borrow provenance in the checker's virtual stack: what a derivation records, and which steps keep it.
    A value may view several frame places at once (a reference to a local that itself holds a view), while a
    derivation names at most two: the owned root of its chain and the place it was taken from. */
module Borrow {
  import opened Types

  datatype Ty = I64 | Usize | Isize | Str | Cstr | Other(tag: nat)

  /** The type-directed predicates the walk asks of a type. */
  datatype Ctx = Ctx(bears: Ty -> bool, isCopy: Ty -> bool, isAggregate: Ty -> bool, isVariant: Ty -> bool,
                     isLinear: Ty -> bool, holdsClosure: Ty -> bool, borrowMutability: Ty -> Option<bool>)

  datatype Deriv = Deriv(place: string, root: Option<string>, staticRoot: bool, reborrow: bool, mutable: bool,
      projected: bool) {
    /** What a join has to agree on: the owned root, and the reference local a mutable reborrow suspends. */
    function Suspension(): (Option<string>, Option<string>) {
      (root, if reborrow && mutable then Some(place) else None)
    }
  }

  datatype Alias = Alias(set_: nat, span: nat)

  datatype Slot = Slot(ty: Ty, literal: bool, intVal: Option<int>, variantIdx: Option<nat>, alias: Option<Alias>,
      deriv: Option<nat>, quot: Option<nat>, surviving: Option<nat>)

  /** One name in scope, with the provenance a borrow check reads off it. */
  datatype Binding = Binding(name: string, ty: Ty, aliases: Option<nat>, deriv: Option<nat>, quot: Option<nat>,
      surviving: Option<nat>)

  function Computed(ty: Ty): Slot { Slot(ty, false, None, None, None, None, None, None) }

  function Derived(ty: Ty, deriv: Option<nat>): Slot { Computed(ty).(deriv := deriv) }

  datatype BorrowError =
    | Underflow(need: nat, holds: nat)
    | CannotCopy(ty: Ty)
    | ConsumesBorrowed
    | Conflict(place: string)
    | Suspended(place: string)
    | UseAfterMove(name: string, site: nat)
    | DuplicateLocal(name: string)
    | ReboundLocal(name: string)
    | DropNotVisible
    | DistinctRoots(first: string, second: string)
    | StoredViewEscapes(ty: Ty)
    | NotStorable(receiver: Ty, value: Ty)
    | ArmTypesDiffer(expected: seq<Ty>, found: seq<Ty>)
    | JoinDisagrees(position: nat)
    | VariantEscapes(ty: Ty)

  function RootOf(derivs: seq<Deriv>, d: Option<nat>): Option<string> {
    if d.Some? && d.value < |derivs| then derivs[d.value].root else None
  }

  predicate DerivOk(derivs: seq<Deriv>, d: Option<nat>) { d.Some? ==> d.value < |derivs| }

  // ---------------------------------------------------------------- what a derivation records

  /** The names the scans for a place compare it with: a record's owned root and its place. */
  predicate Named(derivs: seq<Deriv>, d: Option<nat>, p: string) {
    d.Some? && d.value < |derivs| && (derivs[d.value].root == Some(p) || derivs[d.value].place == p)
  }

  /** All that `d` names, `c` names. */
  ghost predicate NamesKept(derivs: seq<Deriv>, d: Option<nat>, c: Option<nat>) {
    forall p :: Named(derivs, d, p) ==> Named(derivs, c, p)
  }

  /** `d` was taken from `c`'s place, or from `c`'s root. */
  predicate PlaceKept(derivs: seq<Deriv>, d: Option<nat>, c: Option<nat>) {
    d.Some? && d.value < |derivs| ==>
      c.Some? && c.value < |derivs| &&
        (derivs[d.value].place == derivs[c.value].place || Some(derivs[d.value].place) == derivs[c.value].root)
  }

  /** `c` names the place and the root of `d`. */
  predicate NamesBoth(derivs: seq<Deriv>, d: Option<nat>, c: Option<nat>) {
    d.Some? && d.value < |derivs| ==>
      Named(derivs, c, derivs[d.value].place) &&
        (derivs[d.value].root.Some? ==> Named(derivs, c, derivs[d.value].root.value))
  }

  /** Some name of `d` is one of `c`. */
  predicate SharesName(derivs: seq<Deriv>, d: Option<nat>, c: Option<nat>) {
    d.Some? && d.value < |derivs| &&
    (Named(derivs, c, derivs[d.value].place) ||
     (derivs[d.value].root.Some? && Named(derivs, c, derivs[d.value].root.value)))
  }

  lemma NamesBothExactly(derivs: seq<Deriv>, d: Option<nat>, c: Option<nat>)
    ensures NamesKept(derivs, d, c) <==> NamesBoth(derivs, d, c)
  {
    if d.Some? && d.value < |derivs| && NamesKept(derivs, d, c) {
      assert Named(derivs, d, derivs[d.value].place);
      assert derivs[d.value].root.Some? ==> Named(derivs, d, derivs[d.value].root.value);
    }
  }

  lemma NamesKeptExactly(derivs: seq<Deriv>, d: Option<nat>, c: Option<nat>)
    requires RootOf(derivs, d).Some? ==> RootOf(derivs, c) == RootOf(derivs, d)
    ensures NamesKept(derivs, d, c) <==> PlaceKept(derivs, d, c)
  {
    if d.Some? && d.value < |derivs| && NamesKept(derivs, d, c) {
      assert Named(derivs, d, derivs[d.value].place);
      assert Named(derivs, c, derivs[d.value].place);
    }
  }

  /** Two readings of "the derivation records `p`". `Names`: the place scans find `p` in it. `Roots`: `p` is its
      owned root, if it is among the places asked about. */
  datatype Reading = Names | Roots(kept: iset<string>)

  ghost predicate Records(derivs: seq<Deriv>, d: Option<nat>, p: string, reading: Reading) {
    match reading
    case Names => Named(derivs, d, p)
    case Roots(kept) => p in kept ==> RootOf(derivs, d) == Some(p)
  }

  /** One value: `views` is the set of frame places it may in truth reach. */
  ghost predicate SlotRecorded(ctx: Ctx, derivs: seq<Deriv>, s: Slot, views: set<string>, reading: Reading) {
    && DerivOk(derivs, s.deriv)
    && (forall p :: p in views ==> Records(derivs, s.deriv, p, reading))
    && (!ctx.bears(s.ty) ==> views == {})
  }

  ghost predicate RowRecorded(ctx: Ctx, derivs: seq<Deriv>, row: seq<Slot>, views: seq<set<string>>, reading: Reading) {
    |row| == |views| && forall i :: 0 <= i < |row| ==> SlotRecorded(ctx, derivs, row[i], views[i], reading)
  }

  lemma RecordsGrows(derivs: seq<Deriv>, more: seq<Deriv>, d: Option<nat>, p: string, reading: Reading)
    requires derivs <= more && DerivOk(derivs, d) && Records(derivs, d, p, reading)
    ensures Records(more, d, p, reading)
  {
  }

  lemma RecordedGrows(ctx: Ctx, derivs: seq<Deriv>, more: seq<Deriv>, row: seq<Slot>, views: seq<set<string>>,
        reading: Reading)
    requires derivs <= more && RowRecorded(ctx, derivs, row, views, reading)
    ensures RowRecorded(ctx, more, row, views, reading)
  {
    hide Records;
    forall i | 0 <= i < |row| ensures SlotRecorded(ctx, more, row[i], views[i], reading) {
      assert SlotRecorded(ctx, derivs, row[i], views[i], reading);
      forall p | p in views[i] ensures Records(more, row[i].deriv, p, reading) {
        RecordsGrows(derivs, more, row[i].deriv, p, reading);
      }
    }
  }

  // ---------------------------------------------------------------- taking a record through a local

  function StaticOf(derivs: seq<Deriv>, d: Option<nat>): bool {
    d.Some? && d.value < |derivs| && derivs[d.value].staticRoot
  }

  /** A new chain through `place`, keeping whatever owned root the held one had reached. */
  function ReborrowRecord(derivs: seq<Deriv>, place: string, held: Option<nat>, mutable: bool): Deriv {
    Deriv(place, RootOf(derivs, held), StaticOf(derivs, held), true, mutable, false)
  }

  /** A borrow of `place`: a fresh chain, unless the local already holds one. */
  function BorrowRecord(derivs: seq<Deriv>, place: string, held: Option<nat>, static_: bool, mutable: bool): Deriv {
    if held.Some? then ReborrowRecord(derivs, place, held, mutable)
    else Deriv(place, Some(place), static_, false, mutable, false)
  }

  /** The guard under which a record taken through `place` still names all that the held one named. */
  predicate ThroughKeepsNames(derivs: seq<Deriv>, place: string, held: Option<nat>) {
    held.Some? && held.value < |derivs| ==>
      derivs[held.value].place == place || derivs[held.value].root == Some(derivs[held.value].place)
  }

  lemma ThroughKeepsExactly(derivs: seq<Deriv>, place: string, held: Option<nat>, static_: bool, mutable: bool)
    requires DerivOk(derivs, held)
    ensures NamesKept(derivs + [BorrowRecord(derivs, place, held, static_, mutable)], held, Some(|derivs|)) <==>
              ThroughKeepsNames(derivs, place, held)
  {
    var more := derivs + [BorrowRecord(derivs, place, held, static_, mutable)];
    assert more[|derivs|] == BorrowRecord(derivs, place, held, static_, mutable);
    if held.Some? { NamesKeptExactly(more, held, Some(|derivs|)); }
  }

  /** The guard under which a borrow of `place` is rooted at it: the local holds nothing, or what it holds is
      rooted at the local itself. */
  predicate ThroughKeepsRoot(derivs: seq<Deriv>, place: string, held: Option<nat>) {
    held.None? || RootOf(derivs, held) == Some(place)
  }

  predicate ThroughKeeps(derivs: seq<Deriv>, place: string, held: Option<nat>, reading: Reading) {
    match reading
    case Names => ThroughKeepsNames(derivs, place, held)
    case Roots(kept) => place in kept ==> ThroughKeepsRoot(derivs, place, held)
  }

  /** A record taken through a local covers the places its value viewed, and the local itself. */
  lemma ThroughRecords(ctx: Ctx, derivs: seq<Deriv>, s: Slot, views: set<string>, place: string, static_: bool,
        mutable: bool, p: string, reading: Reading)
    requires SlotRecorded(ctx, derivs, s, views, reading) && (p in views || p == place)
    requires ThroughKeeps(derivs, place, s.deriv, reading)
    ensures Records(derivs + [BorrowRecord(derivs, place, s.deriv, static_, mutable)], Some(|derivs|), p, reading)
  {
    var d := BorrowRecord(derivs, place, s.deriv, static_, mutable);
    var more := derivs + [d];
    assert more[|derivs|] == d;
    if p in views {
      assert Records(derivs, s.deriv, p, reading);
      RecordsGrows(derivs, more, s.deriv, p, reading);
    }
  }

  /** Naming a reference covers the places it viewed; the local's own storage is not among them. */
  lemma ReborrowRecords(ctx: Ctx, derivs: seq<Deriv>, s: Slot, views: set<string>, name: string, mutable: bool,
        p: string, reading: Reading)
    requires SlotRecorded(ctx, derivs, s, views, reading) && p in views
    requires reading.Names? ==> ThroughKeepsNames(derivs, name, s.deriv)
    ensures Records(derivs + [ReborrowRecord(derivs, name, s.deriv, mutable)], Some(|derivs|), p, reading)
  {
    var d := ReborrowRecord(derivs, name, s.deriv, mutable);
    var more := derivs + [d];
    assert more[|derivs|] == d;
    assert Records(derivs, s.deriv, p, reading);
    RecordsGrows(derivs, more, s.deriv, p, reading);
  }

  // ---------------------------------------------------------------- shuffles as index maps

  datatype Shuffle = Dup | Drop | Swap | Over | Rot

  function ShuffleOf(name: string): Option<Shuffle> {
    match name
    case "dup" => Some(Dup)
    case "drop" => Some(Drop)
    case "swap" => Some(Swap)
    case "over" => Some(Over)
    case "rot" => Some(Rot)
    case _ => None
  }

  function Needs(word: Shuffle): nat { if word == Dup || word == Drop then 1 else if word == Rot then 3 else 2 }

  /** Which old position each new slot comes from. */
  function ShuffleMap(word: Shuffle, n: nat): (m: seq<nat>)
    requires Needs(word) <= n
    ensures forall i :: 0 <= i < |m| ==> m[i] < n
  {
    match word
    case Dup => seq(n, i => i) + [n - 1]
    case Drop => seq(n - 1, i => i)
    case Swap => seq(n - 2, i => i) + [n - 1, n - 2]
    case Over => seq(n, i => i) + [n - 2]
    case Rot => seq(n - 3, i => i) + [n - 2, n - 1, n - 3]
  }

  function Gather<T>(s: seq<T>, m: seq<nat>): (r: seq<T>)
    requires forall i :: 0 <= i < |m| ==> m[i] < |s|
    ensures |r| == |m| && forall i :: 0 <= i < |m| ==> r[i] == s[m[i]]
  {
    seq(|m|, i requires 0 <= i < |m| => s[m[i]])
  }

  /** What the word of this name makes of a stack, if it is a shuffle and the stack is deep enough. */
  function ByName<T>(name: string, s: seq<T>): Option<seq<T>> {
    match ShuffleOf(name)
    case None => None
    case Some(word) => if |s| < Needs(word) then None else Some(Gather(s, ShuffleMap(word, |s|)))
  }

  /** The five stack effects, by the names of the words, over any stack; a word of another name shuffles nothing, and
      each word needs what it names. */
  lemma ShuffleEffects<T>(s: seq<T>, a: T, b: T, c: T)
    ensures ByName("dup", s + [a]) == Some(s + [a, a]) && ByName("drop", s + [a]) == Some(s)
    ensures ByName("swap", s + [a, b]) == Some(s + [b, a]) && ByName("over", s + [a, b]) == Some(s + [a, b, a])
    ensures ByName("rot", s + [a, b, c]) == Some(s + [b, c, a])
    ensures forall name, t: seq<T> :: name !in ["dup", "drop", "swap", "over", "rot"] ==> ByName(name, t) == None
    ensures ByName<T>("dup", []) == ByName<T>("drop", []) == None
    ensures ByName("swap", [a]) == ByName("over", [a]) == ByName("rot", [a, b]) == None
  {
    ShuffleNames();
    OneDeep(s, a);
    TwoDeep(s, a, b);
    ThreeDeep(s, a, b, c);
    hide ShuffleOf, Gather, ShuffleMap;
  }

  lemma ShuffleNames()
    ensures ShuffleOf("dup") == Some(Dup) && ShuffleOf("drop") == Some(Drop) && ShuffleOf("swap") == Some(Swap)
    ensures ShuffleOf("over") == Some(Over) && ShuffleOf("rot") == Some(Rot)
    ensures forall name :: name !in ["dup", "drop", "swap", "over", "rot"] ==> ShuffleOf(name) == None
  {
  }

  lemma OneDeep<T>(s: seq<T>, a: T)
    ensures Gather(s + [a], ShuffleMap(Dup, |s| + 1)) == s + [a, a]
    ensures Gather(s + [a], ShuffleMap(Drop, |s| + 1)) == s
  {
    assert Gather(s + [a], ShuffleMap(Drop, |s| + 1)) == s;
  }

  lemma TwoDeep<T>(s: seq<T>, a: T, b: T)
    ensures Gather(s + [a, b], ShuffleMap(Swap, |s| + 2)) == s + [b, a]
    ensures Gather(s + [a, b], ShuffleMap(Over, |s| + 2)) == s + [a, b, a]
  {
    assert Gather(s + [a, b], ShuffleMap(Over, |s| + 2)) == s + [a, b, a];
  }

  lemma ThreeDeep<T>(s: seq<T>, a: T, b: T, c: T)
    ensures Gather(s + [a, b, c], ShuffleMap(Rot, |s| + 3)) == s + [b, c, a]
  {
  }

  /** The same value: everything but the name of the region it denotes. */
  predicate SameValue(a: Slot, b: Slot) { a.(alias := None) == b.(alias := None) }

  lemma ShuffleRecorded(ctx: Ctx, derivs: seq<Deriv>, row: seq<Slot>, views: seq<set<string>>, row2: seq<Slot>,
        m: seq<nat>, reading: Reading)
    requires RowRecorded(ctx, derivs, row, views, reading)
    requires |row2| == |m| && forall i :: 0 <= i < |m| ==> m[i] < |row| && SameValue(row2[i], row[m[i]])
    ensures RowRecorded(ctx, derivs, row2, Gather(views, m), reading)
  {
    hide Records;
    forall i | 0 <= i < |m| ensures SlotRecorded(ctx, derivs, row2[i], Gather(views, m)[i], reading) {
      assert SlotRecorded(ctx, derivs, row[m[i]], views[m[i]], reading);
    }
  }

  // ---------------------------------------------------------------- what a call hands on

  predicate AnyBears(ctx: Ctx, tys: seq<Ty>) { exists i :: 0 <= i < |tys| && ctx.bears(tys[i]) }

  /** Two reference-bearing operands of the call are rooted at different places. */
  predicate RootsClash(ctx: Ctx, derivs: seq<Deriv>, operands: seq<Slot>) {
    exists i, j :: 0 <= i < j < |operands| && ctx.bears(operands[i].ty) && ctx.bears(operands[j].ty) &&
      RootOf(derivs, operands[i].deriv).Some? && RootOf(derivs, operands[j].deriv).Some? &&
      RootOf(derivs, operands[i].deriv) != RootOf(derivs, operands[j].deriv)
  }

  /** Operand `i` is the one whose derivation the outputs inherit: the first rooted one, or the first one
      of all when none is rooted. */
  predicate CarriedAt(ctx: Ctx, derivs: seq<Deriv>, operands: seq<Slot>, i: nat) {
    && i < |operands| && ctx.bears(operands[i].ty) && operands[i].deriv.Some?
    && if RootOf(derivs, operands[i].deriv).Some? then
         forall j :: 0 <= j < i && ctx.bears(operands[j].ty) ==> RootOf(derivs, operands[j].deriv).None?
       else
         (forall j :: 0 <= j < i && ctx.bears(operands[j].ty) ==> operands[j].deriv == None) &&
         (forall j :: 0 <= j < |operands| && ctx.bears(operands[j].ty) ==> RootOf(derivs, operands[j].deriv).None?)
  }

  ghost predicate CarriedFrom(ctx: Ctx, derivs: seq<Deriv>, operands: seq<Slot>, chosen: Option<nat>) {
    if chosen.None? then forall i :: 0 <= i < |operands| && ctx.bears(operands[i].ty) ==> operands[i].deriv == None
    else exists i: nat :: CarriedAt(ctx, derivs, operands, i) && operands[i].deriv == chosen
  }

  /** The derivation a call hands on, read off the operands alone. */
  function CarriedDeriv(ctx: Ctx, derivs: seq<Deriv>, operands: seq<Slot>): Option<nat> {
    var rooted := FirstRooted(ctx, derivs, operands);
    if rooted.Some? then rooted else FirstDeriv(ctx, operands)
  }

  function FirstRooted(ctx: Ctx, derivs: seq<Deriv>, operands: seq<Slot>): (r: Option<nat>)
    ensures r.None? ==>
              forall i :: 0 <= i < |operands| && ctx.bears(operands[i].ty) ==> RootOf(derivs, operands[i].deriv).None?
    ensures r.Some? ==> RootOf(derivs, r).Some?
    ensures r.Some? ==> exists i :: 0 <= i < |operands| && ctx.bears(operands[i].ty) && operands[i].deriv == r &&
                          forall j :: 0 <= j < i && ctx.bears(operands[j].ty) ==>
                            RootOf(derivs, operands[j].deriv).None?
  {
    if operands == [] then None
    else if ctx.bears(operands[0].ty) && RootOf(derivs, operands[0].deriv).Some? then operands[0].deriv
    else
      var rest := FirstRooted(ctx, derivs, operands[1..]);
      assert rest.Some? ==>
        exists i :: 0 <= i < |operands[1..]| && ctx.bears(operands[1..][i].ty) && operands[i + 1].deriv == rest &&
                              forall j :: 0 <= j < i + 1 && ctx.bears(operands[j].ty) ==>
                                RootOf(derivs, operands[j].deriv).None?;
      rest
  }

  function FirstDeriv(ctx: Ctx, operands: seq<Slot>): (r: Option<nat>)
    ensures r.None? ==> forall i :: 0 <= i < |operands| && ctx.bears(operands[i].ty) ==> operands[i].deriv == None
    ensures r.Some? ==> exists i :: 0 <= i < |operands| && ctx.bears(operands[i].ty) && operands[i].deriv == r &&
                          forall j :: 0 <= j < i && ctx.bears(operands[j].ty) ==> operands[j].deriv == None
  {
    if operands == [] then None
    else if ctx.bears(operands[0].ty) && operands[0].deriv.Some? then operands[0].deriv
    else
      var rest := FirstDeriv(ctx, operands[1..]);
      assert rest.Some? ==>
        exists i :: 0 <= i < |operands[1..]| && ctx.bears(operands[1..][i].ty) && operands[i + 1].deriv == rest &&
                              forall j :: 0 <= j < i + 1 && ctx.bears(operands[j].ty) ==> operands[j].deriv == None;
      rest
  }

  lemma CarriedIs(ctx: Ctx, derivs: seq<Deriv>, operands: seq<Slot>, chosen: Option<nat>)
    ensures CarriedFrom(ctx, derivs, operands, chosen) <==> chosen == CarriedDeriv(ctx, derivs, operands)
  {
    CarriedDerivIs(ctx, derivs, operands);
    if CarriedFrom(ctx, derivs, operands, chosen) {
      CarriedUnique(ctx, derivs, operands, chosen, CarriedDeriv(ctx, derivs, operands));
    }
  }

  lemma CarriedDerivIs(ctx: Ctx, derivs: seq<Deriv>, operands: seq<Slot>)
    ensures CarriedFrom(ctx, derivs, operands, CarriedDeriv(ctx, derivs, operands))
  {
    var rooted, first := FirstRooted(ctx, derivs, operands), FirstDeriv(ctx, operands);
    if rooted.Some? {
      var i :| 0 <= i < |operands| && ctx.bears(operands[i].ty) && operands[i].deriv == rooted &&
        forall j :: 0 <= j < i && ctx.bears(operands[j].ty) ==> RootOf(derivs, operands[j].deriv).None?;
      assert CarriedAt(ctx, derivs, operands, i);
    } else if first.Some? {
      var i :| 0 <= i < |operands| && ctx.bears(operands[i].ty) && operands[i].deriv == first &&
        forall j :: 0 <= j < i && ctx.bears(operands[j].ty) ==> operands[j].deriv == None;
      assert CarriedAt(ctx, derivs, operands, i);
    }
  }

  lemma CarriedUnique(ctx: Ctx, derivs: seq<Deriv>, operands: seq<Slot>, a: Option<nat>, b: Option<nat>)
    requires CarriedFrom(ctx, derivs, operands, a) && CarriedFrom(ctx, derivs, operands, b)
    ensures a == b
  {
    if a.Some? && b.Some? {
      var i: nat :| CarriedAt(ctx, derivs, operands, i) && operands[i].deriv == a;
      var j: nat :| CarriedAt(ctx, derivs, operands, j) && operands[j].deriv == b;
      assert i == j;
    }
  }

  /** The guard under which what a call hands on still names all that its operands named: each of them was
      taken from the carried derivation's place, or from its root. */
  predicate CallKeepsNames(ctx: Ctx, derivs: seq<Deriv>, operands: seq<Slot>) {
    var c := CarriedDeriv(ctx, derivs, operands);
    forall i :: 0 <= i < |operands| && ctx.bears(operands[i].ty) ==> PlaceKept(derivs, operands[i].deriv, c)
  }

  lemma CallKeepsExactly(ctx: Ctx, derivs: seq<Deriv>, operands: seq<Slot>)
    requires !RootsClash(ctx, derivs, operands)
    ensures (forall i :: 0 <= i < |operands| && ctx.bears(operands[i].ty) ==>
               NamesKept(derivs, operands[i].deriv, CarriedDeriv(ctx, derivs, operands))) <==>
            CallKeepsNames(ctx, derivs, operands)
  {
    hide NamesKept, PlaceKept, CarriedDeriv, RootsClash;
    forall i | 0 <= i < |operands| && ctx.bears(operands[i].ty)
      ensures NamesKept(derivs, operands[i].deriv, CarriedDeriv(ctx, derivs, operands)) <==>
                PlaceKept(derivs, operands[i].deriv, CarriedDeriv(ctx, derivs, operands))
    {
      CarriedRoot(ctx, derivs, operands, i);
      NamesKeptExactly(derivs, operands[i].deriv, CarriedDeriv(ctx, derivs, operands));
    }
  }

  /** Whatever root a bearing operand has is the carried one. */
  lemma CarriedRoot(ctx: Ctx, derivs: seq<Deriv>, operands: seq<Slot>, i: nat)
    requires !RootsClash(ctx, derivs, operands) && i < |operands| && ctx.bears(operands[i].ty)
    ensures RootOf(derivs, operands[i].deriv).Some? ==>
              RootOf(derivs, CarriedDeriv(ctx, derivs, operands)) == RootOf(derivs, operands[i].deriv)
  {
    var c := CarriedDeriv(ctx, derivs, operands);
    if RootOf(derivs, operands[i].deriv).Some? {
      assert RootOf(derivs, c).Some?;
      CarriedDerivIs(ctx, derivs, operands);
      var k: nat :| CarriedAt(ctx, derivs, operands, k) && operands[k].deriv == c;
    }
  }

  /** Any place an operand may view is recorded by what is carried. */
  lemma CarriedCovers(ctx: Ctx, derivs: seq<Deriv>, operands: seq<Slot>, views: seq<set<string>>, i: nat, p: string,
        reading: Reading)
    requires RowRecorded(ctx, derivs, operands, views, reading) && !RootsClash(ctx, derivs, operands)
    requires reading.Names? ==> CallKeepsNames(ctx, derivs, operands)
    requires i < |operands| && p in views[i]
    ensures Records(derivs, CarriedDeriv(ctx, derivs, operands), p, reading)
  {
    assert SlotRecorded(ctx, derivs, operands[i], views[i], reading);
    assert Records(derivs, operands[i].deriv, p, reading);
    CarriedRoot(ctx, derivs, operands, i);
    if reading.Names? { assert PlaceKept(derivs, operands[i].deriv, CarriedDeriv(ctx, derivs, operands)); }
  }

  function CallOutputs(ctx: Ctx, outputs: seq<Ty>, chosen: Option<nat>): (r: seq<Slot>)
    ensures |r| == |outputs|
  {
    seq(|outputs|,
        i requires 0 <= i < |outputs| => Computed(outputs[i]).(deriv := if ctx.bears(outputs[i]) then chosen else None))
  }

  /** A call may let an output that bears references view whatever its operands could, and no output else. */
  predicate OutputViews(ctx: Ctx, outputs: seq<Ty>, operandViews: seq<set<string>>, outViews: seq<set<string>>) {
    |outViews| == |outputs| && forall i :: 0 <= i < |outputs| ==>
      (!ctx.bears(outputs[i]) ==> outViews[i] == {}) &&
      forall p :: p in outViews[i] ==> exists j :: 0 <= j < |operandViews| && p in operandViews[j]
  }

  /** The same up to region, constructor mark and surviving captures. */
  predicate SameCarried(a: Slot, b: Slot) {
    SameValue(a.(variantIdx := None, surviving := None), b.(variantIdx := None, surviving := None))
  }

  lemma CallRecorded(ctx: Ctx, derivs: seq<Deriv>, operands: seq<Slot>, views: seq<set<string>>, outputs: seq<Ty>,
        outs: seq<Slot>, outViews: seq<set<string>>, reading: Reading)
    requires RowRecorded(ctx, derivs, operands, views, reading) && OutputViews(ctx, outputs, views, outViews)
    requires AnyBears(ctx, outputs) ==>
               !RootsClash(ctx, derivs, operands) && (reading.Names? ==> CallKeepsNames(ctx, derivs, operands))
    requires |outs| == |outputs|
    requires forall i :: 0 <= i < |outputs| ==>
               SameCarried(outs[i], CallOutputs(ctx, outputs, CarriedDeriv(ctx, derivs, operands))[i])
    ensures RowRecorded(ctx, derivs, outs, outViews, reading)
  {
    hide Records, RootsClash, CallKeepsNames, CarriedDeriv;
    var c := CarriedDeriv(ctx, derivs, operands);
    CarriedOk(ctx, derivs, operands, views, reading);
    forall i | 0 <= i < |outs| ensures SlotRecorded(ctx, derivs, outs[i], outViews[i], reading) {
      forall p | p in outViews[i] ensures Records(derivs, outs[i].deriv, p, reading) {
        var j :| 0 <= j < |views| && p in views[j];
        assert AnyBears(ctx, outputs);
        CarriedCovers(ctx, derivs, operands, views, j, p, reading);
      }
    }
  }

  lemma CarriedOk(ctx: Ctx, derivs: seq<Deriv>, operands: seq<Slot>, views: seq<set<string>>, reading: Reading)
    requires RowRecorded(ctx, derivs, operands, views, reading)
    ensures DerivOk(derivs, CarriedDeriv(ctx, derivs, operands))
  {
    var c := CarriedDeriv(ctx, derivs, operands);
    if c.Some? {
      CarriedDerivIs(ctx, derivs, operands);
      var i: nat :| CarriedAt(ctx, derivs, operands, i) && operands[i].deriv == c;
      assert SlotRecorded(ctx, derivs, operands[i], views[i], reading);
    }
  }

  // ---------------------------------------------------------------- joining arms

  /** Two derivations keep the same places suspended; with one alone, it has no root. */
  predicate Agrees(derivs: seq<Deriv>, a: Option<nat>, b: Option<nat>) {
    a.Some? && a.value < |derivs| ==>
      match b
      case Some(d) => d < |derivs| && derivs[a.value].Suspension() == derivs[d].Suspension()
      case None => derivs[a.value].root.None?
  }

  /** One exit position across all arms can be joined: every live derivation keeps the same places
      suspended, and a root is held by every arm or by none. */
  predicate Joinable(derivs: seq<Deriv>, ds: seq<Option<nat>>) {
    forall i, j :: 0 <= i < |ds| && 0 <= j < |ds| ==> Agrees(derivs, ds[i], ds[j])
  }

  /** The joined position keeps the first live derivation. */
  function JoinedDeriv(ds: seq<Option<nat>>): Option<nat> {
    if ds == [] then None else if ds[0].Some? then ds[0] else JoinedDeriv(ds[1..])
  }

  lemma JoinedIsFirst(ds: seq<Option<nat>>)
    ensures JoinedDeriv(ds).None? ==> forall i :: 0 <= i < |ds| ==> ds[i].None?
    ensures JoinedDeriv(ds).Some? ==> JoinedDeriv(ds) in ds
  {
  }

  lemma JoinedSnoc(ds: seq<Option<nat>>, d: Option<nat>)
    ensures JoinedDeriv(ds + [d]) == if JoinedDeriv(ds).Some? then JoinedDeriv(ds) else d
  {
    if ds != [] {
      assert (ds + [d])[1..] == ds[1..] + [d];
    } else {
      assert ds + [d] == [d];
    }
  }

  function Column(rows: seq<seq<Slot>>, i: nat): (r: seq<Option<nat>>)
    requires forall k :: 0 <= k < |rows| ==> i < |rows[k]|
    ensures |r| == |rows| && forall k :: 0 <= k < |rows| ==> r[k] == rows[k][i].deriv
  {
    seq(|rows|, k requires 0 <= k < |rows| => rows[k][i].deriv)
  }

  /** A root held by any arm is the joined slot's root, and a joined root is held by every arm. */
  lemma JoinKeepsRoots(derivs: seq<Deriv>, ds: seq<Option<nat>>, i: nat)
    requires i < |ds| && Joinable(derivs, ds) && forall k :: 0 <= k < |ds| ==> DerivOk(derivs, ds[k])
    ensures RootOf(derivs, JoinedDeriv(ds)) == RootOf(derivs, ds[i])
  {
    JoinedIsFirst(ds);
    if JoinedDeriv(ds).Some? {
      var k :| 0 <= k < |ds| && ds[k] == JoinedDeriv(ds);
      assert Agrees(derivs, ds[k], ds[i]);
    }
  }

  /** The guard under which a joined position still names all that its arms named. It depends on the order the
      arms are written in: the first live one is kept. */
  predicate JoinKeepsNames(derivs: seq<Deriv>, ds: seq<Option<nat>>) {
    forall i :: 0 <= i < |ds| ==> PlaceKept(derivs, ds[i], JoinedDeriv(ds))
  }

  lemma JoinKeepsExactly(derivs: seq<Deriv>, ds: seq<Option<nat>>)
    requires Joinable(derivs, ds) && forall k :: 0 <= k < |ds| ==> DerivOk(derivs, ds[k])
    ensures (forall i :: 0 <= i < |ds| ==> NamesKept(derivs, ds[i], JoinedDeriv(ds))) <==> JoinKeepsNames(derivs, ds)
  {
    hide NamesKept, PlaceKept, JoinedDeriv, Joinable;
    forall i | 0 <= i < |ds|
      ensures NamesKept(derivs, ds[i], JoinedDeriv(ds)) <==> PlaceKept(derivs, ds[i], JoinedDeriv(ds))
    {
      JoinKeepsRoots(derivs, ds, i);
      NamesKeptExactly(derivs, ds[i], JoinedDeriv(ds));
    }
  }

  /** Exclusive reborrows and fresh borrows always meet it: only shared reborrows through different locals can
      be joined at the loss of one. */
  lemma ExclusiveJoinKeeps(derivs: seq<Deriv>, ds: seq<Option<nat>>)
    requires Joinable(derivs, ds) && forall k :: 0 <= k < |ds| ==> DerivOk(derivs, ds[k])
    requires forall k :: 0 <= k < |ds| && ds[k].Some? && ds[k].value < |derivs| ==>
               var d := derivs[ds[k].value]; if d.reborrow then d.mutable else d.root == Some(d.place)
    ensures JoinKeepsNames(derivs, ds)
  {
    JoinedIsFirst(ds);
    if JoinedDeriv(ds).Some? {
      var k :| 0 <= k < |ds| && ds[k] == JoinedDeriv(ds);
      forall i | 0 <= i < |ds| ensures PlaceKept(derivs, ds[i], JoinedDeriv(ds)) {
        assert Agrees(derivs, ds[i], ds[k]);
      }
    }
  }

  /** What a join leaves records every place that the arm which ran could view there. */
  lemma JoinRecords(derivs: seq<Deriv>, ds: seq<Option<nat>>, i: nat, p: string, reading: Reading)
    requires i < |ds| && Joinable(derivs, ds) && forall k :: 0 <= k < |ds| ==> DerivOk(derivs, ds[k])
    requires reading.Names? ==> JoinKeepsNames(derivs, ds)
    requires Records(derivs, ds[i], p, reading)
    ensures Records(derivs, JoinedDeriv(ds), p, reading)
  {
    JoinKeepsRoots(derivs, ds, i);
    if reading.Names? { assert PlaceKept(derivs, ds[i], JoinedDeriv(ds)); }
  }
}
