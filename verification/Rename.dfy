/** The splicing inliner's alpha-renamer: the mutable walk, its specification, and the spelling it mints. */
module Rename {
  import opened Types
  import opened Numerals

  /** A body term. `inst` and `annot` stand for a call's explicit instantiation and a quotation's annotation. */
  datatype Term =
    | IntLit(n: int)
    | OtherLit(tag: nat)
    | Call(name: string, inst: nat)
    | Bind(names: seq<string>)
    | Quotation(body: seq<Term>, inline: bool, annot: nat)

  const INLINE_SUFFIX: string := "__inl"
  const MEMBER_SPLICE_SUFFIX: string := "__mem"

  function RenameLocal(name: string, uid: nat, suffix: string): string { name + suffix + Decimal(uid) }

  predicate IsSuffix(s: string) { s == INLINE_SUFFIX || s == MEMBER_SPLICE_SUFFIX }

  /** A digit run after a non-digit is found again from the right. */
  lemma SplitAtDigits(a: string, d: string, b: string, e: string)
    requires a + d == b + e
    requires |a| > 0 && !IsDigit(a[|a| - 1]) && |b| > 0 && !IsDigit(b[|b| - 1])
    requires forall i :: 0 <= i < |d| ==> IsDigit(d[i])
    requires forall i :: 0 <= i < |e| ==> IsDigit(e[i])
    ensures a == b && d == e
  {
    var w := a + d;
    assert forall i :: |a| <= i < |w| ==> IsDigit(w[i]);
    assert forall i :: |b| <= i < |w| ==> IsDigit(w[i]);
    assert !IsDigit(w[|a| - 1]) && !IsDigit(w[|b| - 1]);
    assert a == w[..|a|] && b == w[..|b|];
  }

  /** One spelling comes from one local, one splice flavour and one uid. */
  lemma SpellingInjective(x: string, u: nat, s: string, y: string, v: nat, t: string)
    requires IsSuffix(s) && IsSuffix(t) && RenameLocal(x, u, s) == RenameLocal(y, v, t)
    ensures x == y && u == v && s == t
  {
    var a, b := x + s, y + t;
    assert a[|a| - 1] == s[4] && b[|b| - 1] == t[4];
    assert RenameLocal(x, u, s) == a + Decimal(u) && RenameLocal(y, v, t) == b + Decimal(v);
    SplitAtDigits(a, Decimal(u), b, Decimal(v));
    DecimalInjective(u, v);
    assert a[|a| - 5..] == s && b[|b| - 5..] == t;
    assert a[..|a| - 5] == x && b[..|b| - 5] == y;
  }

  // ---------------------------------------------------------------- the walk

  function RenameAll(names: seq<string>, uid: nat, suffix: string): (r: seq<string>)
    ensures |r| == |names| && forall i :: 0 <= i < |names| ==> r[i] == RenameLocal(names[i], uid, suffix)
  {
    seq(|names|, i requires 0 <= i < |names| => RenameLocal(names[i], uid, suffix))
  }

  /** A call to a bound local is renamed behind its `&`/`&!` sigil; any other call is left alone. */
  function RenameCall(name: string, uid: nat, suffix: string, bound: seq<string>): string {
    if "&!" <= name then
      if name[2..] in bound then "&!" + RenameLocal(name[2..], uid, suffix) else name
    else if "&" <= name then
      if name[1..] in bound then "&" + RenameLocal(name[1..], uid, suffix) else name
    else if name in bound then RenameLocal(name, uid, suffix)
    else name
  }

  /** The three spellings of a use: the name itself, shared and exclusive. A bound local is renamed in each of them
      behind its sigil, and no word that is not bound is touched. */
  lemma UsesAreRenamed(x: string, uid: nat, suffix: string, bound: seq<string>)
    requires x == "" || x[0] !in {'&', '!'}
    ensures RenameCall(x, uid, suffix, bound) == if x in bound then x + suffix + Decimal(uid) else x
    ensures RenameCall("&" + x, uid, suffix, bound) == "&" + if x in bound then x + suffix + Decimal(uid) else x
    ensures RenameCall("&!" + x, uid, suffix, bound) == "&!" + if x in bound then x + suffix + Decimal(uid) else x
  {
    assert ("&" + x)[1..] == x && ("&!" + x)[2..] == x;
    assert ("&" + x)[0] == '&' && ("&!" + x)[0] == '&' && ("&!" + x)[1] == '!';
    if x != "" { assert ("&" + x)[1] == x[0]; }
  }

  function ScopeAfter(t: Term, bound: seq<string>): seq<string> { if t.Bind? then bound + t.names else bound }

  function RenamedTerm(t: Term, uid: nat, suffix: string, bound: seq<string>): Term
    decreases t
  {
    match t
    case Bind(names) => Bind(RenameAll(names, uid, suffix))
    case Call(name, inst) => Call(RenameCall(name, uid, suffix, bound), inst)
    case Quotation(body, inline, annot) => Quotation(Renamed(body, uid, suffix, bound), inline, annot)
    case other => other
  }

  /** What the walk computes: a bind's extent is the rest of its block, a quotation inherits the binds in
      force where it is written. */
  function Renamed(terms: seq<Term>, uid: nat, suffix: string, bound: seq<string>): (r: seq<Term>)
    ensures |r| == |terms|
    decreases terms
  {
    if terms == [] then []
    else [RenamedTerm(terms[0], uid, suffix, bound)] + Renamed(terms[1..], uid, suffix, ScopeAfter(terms[0], bound))
  }

  lemma RenameAllSnoc(names: seq<string>, name: string, uid: nat, suffix: string)
    ensures RenameAll(names + [name], uid, suffix) == RenameAll(names, uid, suffix) + [RenameLocal(name, uid, suffix)]
  {
    hide RenameLocal;
  }

  /** The walk itself. `scope` is the mutable stack of bound names: pushed by a bind, cloned for a quotation,
      truncated to its entry length at the end. */
  method RenameTerms(terms: seq<Term>, uid: nat, suffix: string, bound: seq<string>)
    returns (out: seq<Term>, scope: seq<string>)
    ensures out == Renamed(terms, uid, suffix, bound)
    ensures scope == bound
    decreases terms
  {
    hide RenameLocal, RenameCall, RenameAll;
    scope := bound;
    var start := |bound|;
    out := [];
    for i := 0 to |terms|
      invariant bound <= scope
      invariant out + Renamed(terms[i..], uid, suffix, scope) == Renamed(terms, uid, suffix, bound)
    {
      ghost var entry := scope;
      var kind;
      match terms[i] {
        case Bind(names) =>
          var renamed: seq<string> := [];
          assert names[..0] == [] && RenameAll([], uid, suffix) == [];
          for j := 0 to |names|
            invariant scope == entry + names[..j]
            invariant renamed == RenameAll(names[..j], uid, suffix)
          {
            RenameAllSnoc(names[..j], names[j], uid, suffix);
            assert names[..j] + [names[j]] == names[..j + 1];
            scope := scope + [names[j]];
            renamed := renamed + [RenameLocal(names[j], uid, suffix)];
          }
          assert names[..|names|] == names;
          kind := Bind(renamed);
        case Call(name, inst) =>
          kind := Call(RenameCall(name, uid, suffix, scope), inst);
        case Quotation(body, inline, annot) =>
          var inner, _ := RenameTerms(body, uid, suffix, scope);
          kind := Quotation(inner, inline, annot);
        case other =>
          kind := other;
      }
      RenamedStep(terms, i, uid, suffix, entry, out);
      out := out + [kind];
    }
    assert out + [] == out;
    scope := scope[..start];
  }

  lemma RenamedStep(terms: seq<Term>, i: nat, uid: nat, suffix: string, scope: seq<string>, out: seq<Term>)
    requires i < |terms|
    ensures out + Renamed(terms[i..], uid, suffix, scope) ==
            out + [RenamedTerm(terms[i], uid, suffix, scope)] +
              Renamed(terms[i + 1..], uid, suffix, ScopeAfter(terms[i], scope))
  {
    assert terms[i..][0] == terms[i] && terms[i..][1..] == terms[i + 1..];
  }

  // ---------------------------------------------------------------- the names a body binds

  function BoundNames(terms: seq<Term>): set<string>
    decreases terms
  {
    if terms == [] then {}
    else
      BoundNames(terms[1..]) +
      match terms[0]
      case Bind(names) => (set n | n in names)
      case Quotation(body, _, _) => BoundNames(body)
      case _ => {}
  }

  /** Every bound name of a renamed body is a renaming of a bound name of the body. */
  lemma {:induction false} BoundNamesRenamed(terms: seq<Term>, uid: nat, suffix: string, bound: seq<string>)
    ensures BoundNames(Renamed(terms, uid, suffix, bound)) ==
              set n | n in BoundNames(terms) :: RenameLocal(n, uid, suffix)
    decreases terms
  {
    if terms != [] {
      var t, rest := terms[0], terms[1..];
      assert Renamed(terms, uid, suffix, bound)[1..] == Renamed(rest, uid, suffix, ScopeAfter(t, bound));
      BoundNamesRenamed(rest, uid, suffix, ScopeAfter(t, bound));
      if t.Quotation? {
        BoundNamesRenamed(t.body, uid, suffix, bound);
      } else if t.Bind? {
        RenameAllNames(t.names, uid, suffix);
      }
    }
  }

  lemma RenameAllNames(names: seq<string>, uid: nat, suffix: string)
    ensures (set x | x in RenameAll(names, uid, suffix)) == set n | n in names :: RenameLocal(n, uid, suffix)
  {
    var rn := RenameAll(names, uid, suffix);
    forall n | n in names ensures RenameLocal(n, uid, suffix) in rn {
      var i :| 0 <= i < |names| && names[i] == n;
      assert rn[i] == RenameLocal(n, uid, suffix);
    }
  }

  /** Splices at different uids, and a member splice sharing an inline splice's uid, bind disjoint names. */
  lemma SplicesBindApart(a: seq<Term>, u: nat, s: string, b: seq<Term>, v: nat, t: string)
    requires IsSuffix(s) && IsSuffix(t) && (u != v || s != t)
    ensures BoundNames(Renamed(a, u, s, [])) !! BoundNames(Renamed(b, v, t, []))
  {
    BoundNamesRenamed(a, u, s, []);
    BoundNamesRenamed(b, v, t, []);
    forall n | n in BoundNames(Renamed(a, u, s, [])) && n in BoundNames(Renamed(b, v, t, []))
      ensures false
    {
      var x :| x in BoundNames(a) && n == RenameLocal(x, u, s);
      var y :| y in BoundNames(b) && n == RenameLocal(y, v, t);
      SpellingInjective(x, u, s, y, v, t);
    }
  }

  // ---------------------------------------------------------------- the two splices

  /** An inline splice. No member splice, at whatever uid, binds a name it binds, and no other inline splice does
      unless it has this uid. */
  method AlphaRenameLocals(terms: seq<Term>, uid: nat) returns (out: seq<Term>)
    ensures out == Renamed(terms, uid, INLINE_SUFFIX, [])
    ensures BoundNames(out) == set x | x in BoundNames(terms) :: x + "__inl" + Decimal(uid)
    ensures forall b, v :: BoundNames(out) !! BoundNames(Renamed(b, v, MEMBER_SPLICE_SUFFIX, []))
    ensures forall b, v :: v != uid ==> BoundNames(out) !! BoundNames(Renamed(b, v, INLINE_SUFFIX, []))
  {
    var renamed, _ := RenameTerms(terms, uid, INLINE_SUFFIX, []);
    BoundNamesRenamed(terms, uid, INLINE_SUFFIX, []);
    SpliceApart(terms, uid, INLINE_SUFFIX);
    return renamed;
  }

  /** A member splice: the other way round. */
  method AlphaRenameMemberLocals(terms: seq<Term>, uid: nat) returns (out: seq<Term>)
    ensures out == Renamed(terms, uid, MEMBER_SPLICE_SUFFIX, [])
    ensures BoundNames(out) == set x | x in BoundNames(terms) :: x + "__mem" + Decimal(uid)
    ensures forall b, v :: BoundNames(out) !! BoundNames(Renamed(b, v, INLINE_SUFFIX, []))
    ensures forall b, v :: v != uid ==> BoundNames(out) !! BoundNames(Renamed(b, v, MEMBER_SPLICE_SUFFIX, []))
  {
    var renamed, _ := RenameTerms(terms, uid, MEMBER_SPLICE_SUFFIX, []);
    BoundNamesRenamed(terms, uid, MEMBER_SPLICE_SUFFIX, []);
    SpliceApart(terms, uid, MEMBER_SPLICE_SUFFIX);
    return renamed;
  }

  /** One flavour at one uid against every other splice. */
  lemma SpliceApart(a: seq<Term>, u: nat, s: string)
    requires IsSuffix(s)
    ensures forall b, v, t :: IsSuffix(t) && (u != v || s != t) ==>
              BoundNames(Renamed(a, u, s, [])) !! BoundNames(Renamed(b, v, t, []))
  {
    forall b, v, t | IsSuffix(t) && (u != v || s != t)
      ensures BoundNames(Renamed(a, u, s, [])) !! BoundNames(Renamed(b, v, t, []))
    {
      SplicesBindApart(a, u, s, b, v, t);
    }
  }

  /** What an inline splice and a member splice bind never meets, whatever the bodies and the uids. */
  lemma FlavoursBindApart(a: seq<Term>, u: nat, b: seq<Term>, v: nat)
    ensures BoundNames(Renamed(a, u, INLINE_SUFFIX, [])) !! BoundNames(Renamed(b, v, MEMBER_SPLICE_SUFFIX, []))
  {
    assert INLINE_SUFFIX[2] != MEMBER_SPLICE_SUFFIX[2];
    SplicesBindApart(a, u, INLINE_SUFFIX, b, v, MEMBER_SPLICE_SUFFIX);
  }
}
