/** Which builtin words a module may call bare: its own import lines, and the names a chain of selective
    imports brings it through hub modules. */
module Intrinsics {
  import opened Types
  import opened Walks
  import Cycles

  datatype Visibility = All | Only(names: set<string>) | Nothing {
    predicate Admits(n: string) {
      match this
      case All => true
      case Only(names) => n in names
      case Nothing => false
    }

    function Admitting(n: string): (r: Visibility)
      ensures forall x :: r.Admits(x) <==> Admits(x) || x == n
      ensures r.All? <==> All?
    {
      match this
      case All => All
      case Only(names) => Only(names + {n})
      case Nothing => Only({n})
    }
  }

  // ---------------------------------------------------------------- a file's own lines

  /** The binding of one line importing the intrinsics: everything, or a qualifier with a list of names. */
  datatype Binding = Wildcard | Qualified(selective: seq<string>)

  function Names(s: seq<string>): set<string> { set n | n in s }

  function Widen(current: Visibility, line: Binding): Visibility {
    match line
    case Wildcard => All
    case Qualified(selective) =>
      match current
      case All => All
      case Only(names) => Only(names + Names(selective))
      case Nothing => Only(Names(selective))
  }

  function OwnVisibility(lines: seq<Binding>): Visibility {
    if lines == [] then Nothing else Widen(OwnVisibility(lines[..|lines| - 1]), lines[|lines| - 1])
  }

  lemma WidenAdmits(current: Visibility, line: Binding, n: string)
    ensures Widen(current, line).Admits(n) <==> current.Admits(n) || line.Wildcard? || n in line.selective
    ensures Widen(current, line).All? <==> current.All? || line.Wildcard?
    ensures !Widen(current, line).Nothing?
  {
  }

  lemma ListsSnoc(rest: seq<Binding>, last: Binding, n: string)
    ensures Wildcard in rest + [last] <==> Wildcard in rest || last.Wildcard?
    ensures (exists line :: line in rest + [last] && (line.Wildcard? || n in line.selective)) <==>
            (exists line :: line in rest && (line.Wildcard? || n in line.selective)) || last.Wildcard? ||
            n in last.selective
  {
    assert forall line :: line in rest + [last] <==> line in rest || line == last;
  }

  /** Lines accumulate, whatever their order: a name is visible when some line lists it or is a wildcard. */
  lemma {:induction false} OwnAdmits(lines: seq<Binding>, n: string)
    ensures OwnVisibility(lines).Admits(n) <==> exists line :: line in lines && (line.Wildcard? || n in line.selective)
    ensures OwnVisibility(lines).All? <==> Wildcard in lines
    ensures OwnVisibility(lines).Nothing? <==> lines == []
  {
    if lines != [] {
      var k := |lines| - 1;
      var rest, last := lines[..k], lines[k];
      OwnAdmits(rest, n);
      assert lines == rest + [last];
      WidenAdmits(OwnVisibility(rest), last, n);
      assert OwnVisibility(lines) == Widen(OwnVisibility(rest), last);
      hide *;
      ListsSnoc(rest, last, n);
    }
  }

  const BUILTIN_WORDS: seq<string> := [
    "dup", "drop", "swap", "over", "rot", "add", "sub", "mul", "div", "mod", "and", "or", "xor", "not", "shl",
    "shr", "ueq", "ult", "ugt", "ulte", "ugte", "une", "eq", "lt", "gt", "lte", "gte", "ne", ".", "branch",
    "tag", "max", "max-total", "len", "cstr", "fill"]

  predicate IsBuiltin(name: string) { name in BUILTIN_WORDS || (|name| > 1 && name[0] == '>') }

  predicate IsDispatched(name: string) {
    name !in ["eq", "lt", "gt", "lte", "gte", "ne", "."] && IsBuiltin(name)
  }

  // ---------------------------------------------------------------- the specification

  /** One selectively imported name and the module it comes from. */
  datatype Entry = Entry(name: string, target: nat)

  type Selectives = seq<seq<Entry>>

  ghost predicate Fits(own: seq<Visibility>, sel: Selectives) {
    |own| == |sel| && forall m, k :: 0 <= m < |sel| && 0 <= k < |sel[m]| ==> sel[m][k].target < |own|
  }

  ghost function NameEdges(sel: Selectives, n: string): Edges<nat> {
    (m: nat, t: nat) => m < |sel| && Entry(n, t) in sel[m]
  }

  ghost predicate Imports(sel: Selectives, m: nat, t: nat) {
    m < |sel| && exists n :: IsDispatched(n) && Entry(n, t) in sel[m]
  }

  ghost function ImportEdges(sel: Selectives): Edges<nat> { (m: nat, t: nat) => Imports(sel, m, t) }

  /** `m` may call `n`: by its own lines, or since `n` is dispatched by name and a chain of entries for `n`
      leads to a module whose own lines admit it. */
  ghost predicate Granted(own: seq<Visibility>, sel: Selectives, m: nat, n: string) {
    m < |own| &&
    (own[m].Admits(n) ||
     (IsDispatched(n) && exists t: nat :: t < |own| && Reaches(NameEdges(sel, n), m, t) && own[t].Admits(n)))
  }

  /** The words that may cross from module to module: all that the compiler dispatches by name. */
  const GATED: seq<string> := [
    "dup", "drop", "swap", "over", "rot", "add", "sub", "mul", "div", "mod", "and", "or", "xor", "not", "shl",
    "shr", "ueq", "ult", "ugt", "ulte", "ugte", "une", "branch", "tag", "max", "max-total", "len", "cstr", "fill"]

  /** The builtin words that are ordinary library words all the same. */
  const LIBRARY_WORDS: seq<string> := ["eq", "lt", "gt", "lte", "gte", "ne", "."]

  ghost predicate IsConversion(n: string) { exists target :: target != "" && n == ">" + target }

  /** What crosses along a chain of entries, and what does not: the gated words and the conversions; no comparison,
      no dot and no word of a user. */
  lemma GatedWordsCross(own: seq<Visibility>, sel: Selectives, m: nat, n: string)
    requires m < |own|
    ensures Granted(own, sel, m, n) <==>
              own[m].Admits(n) ||
              ((n in GATED || IsConversion(n)) &&
               exists t: nat :: t < |own| && Reaches(NameEdges(sel, n), m, t) && own[t].Admits(n))
    ensures n in LIBRARY_WORDS ==> (Granted(own, sel, m, n) <==> own[m].Admits(n))
  {
    GateSet(n);
  }

  lemma GateSet(n: string)
    ensures IsDispatched(n) <==> n in GATED || IsConversion(n)
    ensures n in LIBRARY_WORDS ==> n !in GATED && !IsConversion(n) && IsBuiltin(n)
  {
    if |n| > 1 && n[0] == '>' { assert n == ">" + n[1..]; }
    LibraryWordsAreNotGated(n);
    assert n in BUILTIN_WORDS <==> n in GATED || n in LIBRARY_WORDS;
    assert n in LIBRARY_WORDS ==> n[0] != '>';
  }

  lemma LibraryWordsAreNotGated(n: string)
    ensures !(n in GATED && n in LIBRARY_WORDS)
  {
    if n in GATED {
      forall w | w in LIBRARY_WORDS && |w| == |n| ensures w != n {
        assert w[0] != n[0] || w[1] != n[1] || w[2] != n[2];
      }
    }
  }

  lemma GrantedByEntry(own: seq<Visibility>, sel: Selectives, m: nat, e: Entry)
    requires Fits(own, sel) && m < |own| && e in sel[m] && IsDispatched(e.name) && Granted(own, sel, e.target, e.name)
    ensures Granted(own, sel, m, e.name)
  {
    var edges := NameEdges(sel, e.name);
    assert Entry(e.name, e.target) == e;
    ReachesEdge(edges, m, e.target);
    if own[e.target].Admits(e.name) {
      assert Reaches(edges, m, e.target);
    } else {
      var t: nat :| t < |own| && Reaches(edges, e.target, t) && own[t].Admits(e.name);
      ReachesTrans(edges, m, e.target, t);
    }
  }

  lemma GrantedIsEntry(own: seq<Visibility>, sel: Selectives, m: nat, n: string)
    requires Fits(own, sel) && Granted(own, sel, m, n) && !own[m].Admits(n)
    ensures IsDispatched(n)
    ensures exists k :: 0 <= k < |sel[m]| && sel[m][k].name == n && Granted(own, sel, sel[m][k].target, n)
  {
    var edges := NameEdges(sel, n);
    var t: nat :| t < |own| && Reaches(edges, m, t) && own[t].Admits(n);
    ReachesFirst(edges, m, t);
    var c: nat :| edges(m, c) && Reaches(edges, c, t);
    var k :| 0 <= k < |sel[m]| && sel[m][k] == Entry(n, c);
    assert Granted(own, sel, sel[m][k].target, n);
  }

  /** Never more than is granted, and never `All` but from the module's own wildcard. */
  ghost predicate Sound(own: seq<Visibility>, sel: Selectives, m: nat, v: Visibility)
    requires m < |own|
  {
    && (forall n :: v.Admits(n) ==> Granted(own, sel, m, n))
    && (v.All? ==> own[m].All?)
  }

  /** No less than is granted, and in the same form as the module's own. */
  ghost predicate Complete(own: seq<Visibility>, sel: Selectives, m: nat, v: Visibility)
    requires m < |own|
  {
    && (forall n :: Granted(own, sel, m, n) ==> v.Admits(n))
    && (own[m].All? ==> v.All?) && (own[m].Only? ==> v.Only?) && (own[m].Nothing? && v.Only? ==> v.names != {})
  }

  /** Selective entries come from import lines, so an accepted closure has no cycle of them. */
  lemma AcceptedClosureIsAcyclic(g: Cycles.Targets, sel: Selectives)
    requires Acyclic(Cycles.ImportEdges(g))
    requires forall m, k :: 0 <= m < |sel| && 0 <= k < |sel[m]| ==> Cycles.HasEdge(g, m, sel[m][k].target)
    ensures Acyclic(ImportEdges(sel))
  {
    forall m: nat, t: nat | Imports(sel, m, t) ensures Cycles.HasEdge(g, m, t) {
      var n :| IsDispatched(n) && Entry(n, t) in sel[m];
      var k :| 0 <= k < |sel[m]| && sel[m][k] == Entry(n, t);
    }
    FewerEdgesAcyclic(ImportEdges(sel), Cycles.ImportEdges(g));
  }

  /** Neither the order nor the repetition of import lines matters. */
  lemma OrderInvisible(own: seq<Visibility>, sel: Selectives, other: Selectives, m: nat, n: string)
    requires |sel| == |other| && forall i, e :: 0 <= i < |sel| ==> (e in sel[i] <==> e in other[i])
    ensures Granted(own, sel, m, n) <==> Granted(own, other, m, n)
  {
    var a, b := NameEdges(sel, n), NameEdges(other, n);
    if m < |own| && Granted(own, sel, m, n) && !own[m].Admits(n) {
      var t: nat :| t < |own| && Reaches(a, m, t) && own[t].Admits(n);
      ReachesMore(a, b, m, t);
    }
    if m < |own| && Granted(own, other, m, n) && !own[m].Admits(n) {
      var t: nat :| t < |own| && Reaches(b, m, t) && own[t].Admits(n);
      ReachesMore(b, a, m, t);
    }
  }

  // ---------------------------------------------------------------- the memoised fold

  class Folding {
    var memo: seq<Option<Visibility>>
    var visiting: set<nat>

    ghost predicate MemoOk(own: seq<Visibility>, sel: Selectives) reads this {
      && |memo| == |own|
      && forall m :: 0 <= m < |own| && memo[m].Some? ==>
           && Sound(own, sel, m, memo[m].value)
           && KeepsOwn(own[m], memo[m].value)
           && (Acyclic(ImportEdges(sel)) ==> Complete(own, sel, m, memo[m].value))
    }

    constructor (size: nat)
      ensures memo == seq(size, _ => None) && visiting == {}
    {
      memo, visiting := seq(size, _ => None), {};
    }

    method EffectiveOf(m: nat, own: seq<Visibility>, sel: Selectives) returns (r: Visibility)
      requires Fits(own, sel) && MemoOk(own, sel) && m < |own|
      requires forall w :: w in visiting ==> w < |own| && LeadsOn(sel, w, m)
      modifies this
      ensures MemoOk(own, sel) && visiting == old(visiting)
      ensures Sound(own, sel, m, r)
      ensures m !in visiting ==> KeepsOwn(own[m], r)
      ensures Acyclic(ImportEdges(sel)) ==> Complete(own, sel, m, r)
      decreases Modules(|own|) - visiting
    {
      hide Sound, KeepsOwn, Complete, Folded, LeadsOn, Granted, Acyclic;
      if memo[m].Some? { return memo[m].value; }
      if m in visiting {
        RevisitIsCycle(own, sel, m);
        return Nothing;
      }
      visiting := visiting + {m};
      var effective := own[m];
      FoldStart(own, sel, m);
      for k := 0 to |sel[m]|
        invariant MemoOk(own, sel) && visiting == old(visiting) + {m}
        invariant Folded(own, sel, m, k, effective)
      {
        var entry := sel[m][k];
        if IsDispatched(entry.name) {
          EntryLeads(sel, m, k, visiting - {m});
          var theirs := EffectiveOf(entry.target, own, sel);
          FoldEntry(own, sel, m, k, effective, theirs);
          if theirs.Admits(entry.name) {
            effective := effective.Admitting(entry.name);
          }
        } else {
          FoldSkip(own, sel, m, k, effective);
        }
      }
      visiting := visiting - {m};
      FoldDone(own, sel, m, effective);
      assert visiting == old(visiting);
      memo := memo[m := Some(effective)];
      return effective;
    }
  }

  ghost function Modules(n: nat): (r: set<nat>)
    ensures forall m: nat :: m in r <==> m < n
  {
    if n == 0 then {} else Modules(n - 1) + {n - 1}
  }

  ghost predicate KeepsOwn(own: Visibility, v: Visibility) {
    (forall n :: own.Admits(n) ==> v.Admits(n)) && (own.All? ==> v.All?)
  }

  /** A module on the active chain of calls: one of its edges leads to `m`. */
  ghost predicate LeadsOn(sel: Selectives, w: nat, m: nat) {
    exists x: nat :: Imports(sel, w, x) && Reaches(ImportEdges(sel), x, m)
  }

  /** The first `k` entries of `m` have been folded into `v`. */
  ghost predicate Folded(own: seq<Visibility>, sel: Selectives, m: nat, k: nat, v: Visibility)
    requires Fits(own, sel) && m < |own| && k <= |sel[m]|
  {
    && Sound(own, sel, m, v) && KeepsOwn(own[m], v)
    && (own[m].Only? ==> v.Only?) && (own[m].Nothing? && v.Only? ==> v.names != {})
    && (Acyclic(ImportEdges(sel)) ==>
          forall j :: 0 <= j < k ==>
            IsDispatched(sel[m][j].name) && Granted(own, sel, sel[m][j].target, sel[m][j].name) ==>
              v.Admits(sel[m][j].name))
  }

  lemma RevisitIsCycle(own: seq<Visibility>, sel: Selectives, m: nat)
    requires LeadsOn(sel, m, m) && m < |own|
    ensures !Acyclic(ImportEdges(sel)) && Sound(own, sel, m, Nothing)
  {
    var x: nat :| Imports(sel, m, x) && Reaches(ImportEdges(sel), x, m);
    BackEdgeIsCycle(ImportEdges(sel), m, x);
  }

  lemma EntryLeads(sel: Selectives, m: nat, k: nat, chain: set<nat>)
    requires m < |sel| && k < |sel[m]| && IsDispatched(sel[m][k].name)
    requires forall w :: w in chain ==> LeadsOn(sel, w, m)
    ensures forall w :: w in chain + {m} ==> LeadsOn(sel, w, sel[m][k].target)
  {
    var t := sel[m][k].target;
    assert Entry(sel[m][k].name, t) in sel[m];
    assert Imports(sel, m, t);
    ReachesSelf(ImportEdges(sel), t);
    forall w | w in chain ensures LeadsOn(sel, w, t) {
      var x: nat :| Imports(sel, w, x) && Reaches(ImportEdges(sel), x, m);
      ReachesStep(ImportEdges(sel), x, m, t);
    }
  }

  lemma FoldStart(own: seq<Visibility>, sel: Selectives, m: nat)
    requires Fits(own, sel) && m < |own|
    ensures Folded(own, sel, m, 0, own[m])
  {
  }

  lemma FoldKeeps(own: Visibility, v: Visibility, n: string)
    ensures KeepsOwn(own, v) ==> KeepsOwn(own, v.Admitting(n))
  {
  }

  lemma FoldEntry(own: seq<Visibility>, sel: Selectives, m: nat, k: nat, v: Visibility, theirs: Visibility)
    requires Fits(own, sel) && m < |own| && k < |sel[m]| && Folded(own, sel, m, k, v)
    requires IsDispatched(sel[m][k].name) && Sound(own, sel, sel[m][k].target, theirs)
    requires Acyclic(ImportEdges(sel)) ==> Complete(own, sel, sel[m][k].target, theirs)
    ensures Folded(own, sel, m, k + 1, if theirs.Admits(sel[m][k].name) then v.Admitting(sel[m][k].name) else v)
  {
    hide Granted, IsDispatched, Acyclic, KeepsOwn;
    FoldKeeps(own[m], v, sel[m][k].name);
    if theirs.Admits(sel[m][k].name) {
      GrantedByEntry(own, sel, m, sel[m][k]);
    }
  }

  lemma FoldSkip(own: seq<Visibility>, sel: Selectives, m: nat, k: nat, v: Visibility)
    requires Fits(own, sel) && m < |own| && k < |sel[m]| && Folded(own, sel, m, k, v)
    requires !IsDispatched(sel[m][k].name)
    ensures Folded(own, sel, m, k + 1, v)
  {
  }

  lemma FoldDone(own: seq<Visibility>, sel: Selectives, m: nat, v: Visibility)
    requires Fits(own, sel) && m < |own| && Folded(own, sel, m, |sel[m]|, v)
    ensures Sound(own, sel, m, v) && KeepsOwn(own[m], v)
    ensures Acyclic(ImportEdges(sel)) ==> Complete(own, sel, m, v)
  {
    if Acyclic(ImportEdges(sel)) {
      forall n | Granted(own, sel, m, n) ensures v.Admits(n) {
        if !own[m].Admits(n) { GrantedIsEntry(own, sel, m, n); }
      }
    }
  }

  lemma AllFolded(own: seq<Visibility>, sel: Selectives, r: seq<Visibility>)
    requires Fits(own, sel) && |r| == |own|
    requires forall m :: 0 <= m < |own| ==> Sound(own, sel, m, r[m]) && KeepsOwn(own[m], r[m])
    requires Acyclic(ImportEdges(sel)) ==> forall m :: 0 <= m < |own| ==> Complete(own, sel, m, r[m])
    ensures forall m, n :: 0 <= m < |own| ==>
              (r[m].Admits(n) ==> Granted(own, sel, m, n)) && (own[m].Admits(n) ==> r[m].Admits(n))
    ensures Acyclic(ImportEdges(sel)) ==>
              forall m, n :: 0 <= m < |own| ==> (r[m].Admits(n) <==> Granted(own, sel, m, n))
    ensures forall m :: 0 <= m < |own| ==> (r[m].All? <==> own[m].All?)
  {
    hide Granted, Acyclic, Visibility.Admits;
  }

  /** Every module's effective visibility. On an acyclic graph it is exactly what is granted; on any graph the
      walk ends and grants nothing more. */
  method Effective(own: seq<Visibility>, sel: Selectives) returns (r: seq<Visibility>)
    requires Fits(own, sel)
    ensures |r| == |own|
    ensures forall m, n :: 0 <= m < |own| ==>
              (r[m].Admits(n) ==> Granted(own, sel, m, n)) && (own[m].Admits(n) ==> r[m].Admits(n))
    ensures Acyclic(ImportEdges(sel)) ==>
              forall m, n :: 0 <= m < |own| ==> (r[m].Admits(n) <==> Granted(own, sel, m, n))
    ensures forall m :: 0 <= m < |own| ==> (r[m].All? <==> own[m].All?)
  {
    hide Granted, IsDispatched, Sound, KeepsOwn, Complete, Acyclic, ImportEdges;
    var folding := new Folding(|own|);
    r := [];
    for m := 0 to |own|
      invariant |r| == m && folding.visiting == {} && folding.MemoOk(own, sel) && fresh(folding)
      invariant forall j :: 0 <= j < m ==> Sound(own, sel, j, r[j]) && KeepsOwn(own[j], r[j])
      invariant Acyclic(ImportEdges(sel)) ==> forall j :: 0 <= j < m ==> Complete(own, sel, j, r[j])
    {
      var v := folding.EffectiveOf(m, own, sel);
      r := r + [v];
    }
    AllFolded(own, sel, r);
  }
}
