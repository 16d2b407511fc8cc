/** What names mean: nameless terms, an interpreter with by-value inherited scopes, and why splicing a
    renamed body keeps both. */
module Scoping {
  import opened Types
  import opened Rename

  datatype Sigil = NoSigil | Shared | Exclusive

  /** What a call name refers to: the binder `index` steps out, or a free word. */
  datatype Target = Bound(sigil: Sigil, index: nat) | Free(name: string)

  datatype NTerm =
    | NInt(n: int)
    | NOther(tag: nat)
    | NCall(target: Target, inst: nat)
    | NBind(count: nat)
    | NQuotation(body: seq<NTerm>, inline: bool, annot: nat)

  function SigilOf(name: string): Sigil { if "&!" <= name then Exclusive else if "&" <= name then Shared else NoSigil }

  function BaseOf(name: string): string { if "&!" <= name then name[2..] else if "&" <= name then name[1..] else name }

  /** A use reads the local behind its sigil. */
  lemma SigilsRead(x: string)
    requires x == "" || x[0] !in {'&', '!'}
    ensures SigilOf(x) == NoSigil && BaseOf(x) == x
    ensures SigilOf("&" + x) == Shared && BaseOf("&" + x) == x
    ensures SigilOf("&!" + x) == Exclusive && BaseOf("&!" + x) == x
  {
    assert ("&" + x)[1..] == x && ("&!" + x)[2..] == x;
    if x != "" { assert ("&" + x)[1] == x[0]; }
  }

  /** The last position of `x` in `s`, or `|s|`. */
  function LastIndex(s: seq<string>, x: string): (i: nat)
    ensures i <= |s| && (i == |s| <==> x !in s)
    ensures i < |s| ==> s[i] == x && forall j :: i < j < |s| ==> s[j] != x
  {
    if s == [] then 0
    else if s[|s| - 1] == x then |s| - 1
    else
      var i := LastIndex(s[..|s| - 1], x);
      if i == |s| - 1 then |s| else i
  }

  /** A name reads its innermost binder, through a sigil if it has one. */
  function Resolve(name: string, scope: seq<string>): Target {
    if BaseOf(name) in scope then Bound(SigilOf(name), |scope| - 1 - LastIndex(scope, BaseOf(name)))
    else Free(name)
  }

  function NamelessTerm(t: Term, scope: seq<string>): NTerm
    decreases t
  {
    match t
    case IntLit(n) => NInt(n)
    case OtherLit(tag) => NOther(tag)
    case Call(name, inst) => NCall(Resolve(name, scope), inst)
    case Bind(names) => NBind(|names|)
    case Quotation(body, inline, annot) => NQuotation(Nameless(body, scope), inline, annot)
  }

  /** The de Bruijn form of a block. */
  function Nameless(terms: seq<Term>, scope: seq<string>): (r: seq<NTerm>)
    ensures |r| == |terms|
    decreases terms
  {
    if terms == [] then [] else [NamelessTerm(terms[0], scope)] + Nameless(terms[1..], ScopeAfter(terms[0], scope))
  }

  // ---------------------------------------------------------------- when renaming preserves meaning

  /** No free call of the block is spelled like an enclosing caller name in `outer` or like the renaming of a
      local in force where it stands. */
  predicate StaysFree(terms: seq<Term>, uid: nat, suffix: string, bound: seq<string>, outer: seq<string>)
    decreases terms
  {
    terms == [] ||
    (TermStaysFree(terms[0], uid, suffix, bound, outer) &&
     StaysFree(terms[1..], uid, suffix, ScopeAfter(terms[0], bound), outer))
  }

  predicate TermStaysFree(t: Term, uid: nat, suffix: string, bound: seq<string>, outer: seq<string>)
    decreases t
  {
    match t
    case Call(name, _) => BaseOf(name) in bound || BaseOf(name) !in outer + RenameAll(bound, uid, suffix)
    case Quotation(body, _, _) => StaysFree(body, uid, suffix, bound, outer)
    case _ => true
  }

  lemma LastIndexRenamed(bound: seq<string>, outer: seq<string>, uid: nat, suffix: string, x: string)
    requires IsSuffix(suffix) && x in bound
    ensures var r := outer + RenameAll(bound, uid, suffix);
            RenameLocal(x, uid, suffix) in r &&
              LastIndex(r, RenameLocal(x, uid, suffix)) == |outer| + LastIndex(bound, x)
  {
    hide IsSuffix, RenameLocal, LastIndex;
    var renamed, y := RenameAll(bound, uid, suffix), RenameLocal(x, uid, suffix);
    var i, n := LastIndex(bound, x), |outer|;
    forall j | i < j < |bound| ensures renamed[j] != y {
      if renamed[j] == y { SpellingInjective(bound[j], uid, suffix, x, uid, suffix); }
    }
    LastIndexBehind(outer, renamed, y, i);
  }

  lemma LastIndexBehind(outer: seq<string>, s: seq<string>, x: string, i: nat)
    requires i < |s| && s[i] == x && forall j :: i < j < |s| ==> s[j] != x
    ensures x in outer + s && LastIndex(outer + s, x) == |outer| + i
  {
    hide LastIndex;
    var all := outer + s;
    assert all[|outer| + i] == x;
  }

  lemma RenameCallParts(name: string, uid: nat, suffix: string, bound: seq<string>)
    requires IsSuffix(suffix)
    ensures var r := RenameCall(name, uid, suffix, bound);
            if BaseOf(name) in bound then
              SigilOf(r) == SigilOf(name) && BaseOf(r) == RenameLocal(BaseOf(name), uid, suffix) else r == name
  {
    var r := RenameCall(name, uid, suffix, bound);
    if BaseOf(name) in bound {
      var y := RenameLocal(BaseOf(name), uid, suffix);
      assert |y| > 0 && y[0] == if |BaseOf(name)| > 0 then BaseOf(name)[0] else suffix[0];
      if "&!" <= name {
        assert r == "&!" + y && r[2..] == y;
      } else if "&" <= name {
        assert r == "&" + y && r[1..] == y;
        assert |name| > 1 ==> name[1] == y[0];
        assert |r| >= 2 && r[1] == y[0];
      } else {
        assert |name| > 0 ==> name[0] == y[0];
      }
    }
  }

  lemma ScopeRenames(t: Term, uid: nat, suffix: string, bound: seq<string>, outer: seq<string>)
    ensures ScopeAfter(RenamedTerm(t, uid, suffix, bound), outer + RenameAll(bound, uid, suffix)) ==
            outer + RenameAll(ScopeAfter(t, bound), uid, suffix)
  {
  }

  /** Renaming keeps the meaning of a block spliced under caller names `outer` exactly when no free call is
      captured. */
  lemma {:induction false} RenamingPreserves(terms: seq<Term>, uid: nat, suffix: string, bound: seq<string>,
        outer: seq<string>)
    requires IsSuffix(suffix)
    ensures Nameless(Renamed(terms, uid, suffix, bound), outer + RenameAll(bound, uid, suffix)) ==
              Nameless(terms, bound)
            <==> StaysFree(terms, uid, suffix, bound, outer)
    decreases terms
  {
    if terms != [] {
      hide IsSuffix, NamelessTerm, RenamedTerm, TermStaysFree, RenameAll, ScopeAfter;
      var t, rest := terms[0], terms[1..];
      var scope2 := outer + RenameAll(bound, uid, suffix);
      var after := ScopeAfter(t, bound);
      TermPreserves(t, uid, suffix, bound, outer);
      RenamingPreserves(rest, uid, suffix, after, outer);
      var r := Renamed(terms, uid, suffix, bound);
      assert r[1..] == Renamed(rest, uid, suffix, after);
      ScopeRenames(t, uid, suffix, bound, outer);
      var a, b := Nameless(r, scope2), Nameless(terms, bound);
      assert a == [NamelessTerm(r[0], scope2)] + Nameless(r[1..], ScopeAfter(r[0], scope2));
      assert b == [NamelessTerm(t, bound)] + Nameless(rest, after);
      assert a == b <==> a[0] == b[0] && a[1..] == b[1..];
    }
  }

  lemma {:induction false} TermPreserves(t: Term, uid: nat, suffix: string, bound: seq<string>, outer: seq<string>)
    requires IsSuffix(suffix)
    ensures NamelessTerm(RenamedTerm(t, uid, suffix, bound), outer + RenameAll(bound, uid, suffix)) ==
              NamelessTerm(t, bound)
            <==> TermStaysFree(t, uid, suffix, bound, outer)
    decreases t
  {
    hide IsSuffix, RenameLocal;
    match t
    case Call(name, inst) => CallPreserves(name, inst, uid, suffix, bound, outer);
    case Quotation(body, _, _) =>
      hide Nameless, Renamed, RenameAll, StaysFree;
      RenamingPreserves(body, uid, suffix, bound, outer);
    case _ =>
  }

  lemma CallPreserves(name: string, inst: nat, uid: nat, suffix: string, bound: seq<string>, outer: seq<string>)
    requires IsSuffix(suffix)
    ensures NamelessTerm(RenamedTerm(Call(name, inst), uid, suffix, bound), outer + RenameAll(bound, uid, suffix)) ==
              NamelessTerm(Call(name, inst), bound)
            <==> TermStaysFree(Call(name, inst), uid, suffix, bound, outer)
  {
    hide IsSuffix, RenameLocal, RenameCall, BaseOf, SigilOf, RenameAll;
    RenameCallParts(name, uid, suffix, bound);
    if BaseOf(name) in bound {
      LastIndexRenamed(bound, outer, uid, suffix, BaseOf(name));
    }
  }

  /** The separator is private only by convention: a word spelled like a renamed local is captured. */
  lemma SpellingCanCapture()
    ensures var body := [Bind(["x"]), Call("x__inl0", 0)];
            Nameless(Renamed(body, 0, INLINE_SUFFIX, []), []) != Nameless(body, [])
  {
    var body, word := [Bind(["x"]), Call("x__inl0", 0)], "x__inl0";
    var r := RenameAll(["x"], 0, INLINE_SUFFIX);
    assert r[0] == word;
    assert word[0] == 'x' && BaseOf(word) == word;
    assert !TermStaysFree(body[1], 0, INLINE_SUFFIX, ["x"], []) by {
      assert ([] + r)[0] == word && word != "x" by { assert |word| != |"x"|; }
    }
    assert ScopeAfter(body[0], []) == ["x"] && body[1..][0] == body[1];
    assert !StaysFree(body, 0, INLINE_SUFFIX, [], []);
    assert [] + RenameAll([], 0, INLINE_SUFFIX) == [];
    RenamingPreserves(body, 0, INLINE_SUFFIX, [], []);
  }

  // ---------------------------------------------------------------- the caller's side of a splice

  /** The block's names with `k` extra binders inserted `cutoff` steps out. */
  function ShiftTarget(t: Target, cutoff: nat, k: nat): Target {
    if t.Bound? && t.index >= cutoff then Bound(t.sigil, t.index + k) else t
  }

  function ShiftTerm(t: NTerm, cutoff: nat, k: nat): NTerm
    decreases t
  {
    match t
    case NCall(target, inst) => NCall(ShiftTarget(target, cutoff, k), inst)
    case NQuotation(body, inline, annot) => NQuotation(Shift(body, cutoff, k), inline, annot)
    case other => other
  }

  function Shift(terms: seq<NTerm>, cutoff: nat, k: nat): (r: seq<NTerm>)
    ensures |r| == |terms|
    decreases terms
  {
    if terms == [] then []
    else
      [ShiftTerm(terms[0], cutoff, k)] +
      Shift(terms[1..], if terms[0].NBind? then cutoff + terms[0].count else cutoff, k)
  }

  /** No name of the block is spelled like one of `spliced`. */
  predicate Avoids(terms: seq<Term>, spliced: seq<string>)
    decreases terms
  {
    terms == [] || (TermAvoids(terms[0], spliced) && Avoids(terms[1..], spliced))
  }

  predicate TermAvoids(t: Term, spliced: seq<string>)
    decreases t
  {
    match t
    case Call(name, _) => BaseOf(name) !in spliced
    case Quotation(body, _, _) => Avoids(body, spliced)
    case _ => true
  }

  lemma LastIndexInserted(outer: seq<string>, spliced: seq<string>, inner: seq<string>, x: string)
    requires x !in spliced
    ensures x in outer + spliced + inner <==> x in outer + inner
    ensures x in outer + inner ==>
              var i := LastIndex(outer + inner, x);
              LastIndex(outer + spliced + inner, x) == if i < |outer| then i else i + |spliced|
  {
    hide LastIndex;
    if x in outer + inner {
      var i := LastIndex(outer + inner, x);
      StillLast(outer, spliced, inner, x, i);
    }
    if x in outer + spliced + inner { assert x in outer || x in inner; }
  }

  lemma StillLast(outer: seq<string>, spliced: seq<string>, inner: seq<string>, x: string, i: nat)
    requires x !in spliced && i < |outer + inner| && (outer + inner)[i] == x
    requires forall m :: i < m < |outer + inner| ==> (outer + inner)[m] != x
    ensures x in outer + spliced + inner
    ensures LastIndex(outer + spliced + inner, x) == if i < |outer| then i else i + |spliced|
  {
    var a, b := outer + inner, outer + spliced + inner;
    var j := if i < |outer| then i else i + |spliced|;
    assert b[j] == x;
    forall m | j < m < |b| ensures b[m] != x {
      if m < |outer| {
        assert a[m] == b[m];
      } else if m >= |outer| + |spliced| {
        assert a[m - |spliced|] == b[m];
      }
    }
  }

  /** What follows a splice in the caller keeps every binder: the spliced binds, still in scope for the rest
      of the block, are stepped over and capture nothing. */
  lemma {:induction false} CallerUnaffected(terms: seq<Term>, outer: seq<string>, spliced: seq<string>,
        inner: seq<string>)
    requires Avoids(terms, spliced)
    ensures Nameless(terms, outer + spliced + inner) == Shift(Nameless(terms, outer + inner), |inner|, |spliced|)
    decreases terms
  {
    if terms != [] {
      var t, rest := terms[0], terms[1..];
      var inner2 := ScopeAfter(t, inner);
      TermUnaffected(t, outer, spliced, inner);
      CallerUnaffected(rest, outer, spliced, inner2);
      assert ScopeAfter(t, outer + spliced + inner) == outer + spliced + inner2;
      assert ScopeAfter(t, outer + inner) == outer + inner2;
      assert |inner2| == if t.Bind? then |inner| + |t.names| else |inner|;
      ShiftCons(t, rest, outer + inner, |inner|, |spliced|, |inner2|);
      assert terms == [t] + rest;
      hide NamelessTerm, ShiftTerm, Shift;
    } else {
      assert Nameless(terms, outer + spliced + inner) == [];
      assert Shift(Nameless(terms, outer + inner), |inner|, |spliced|) == [];
    }
  }

  lemma ShiftCons(t: Term, rest: seq<Term>, scope: seq<string>, cutoff: nat, k: nat, cutoff2: nat)
    requires cutoff2 == if t.Bind? then cutoff + |t.names| else cutoff
    ensures Shift(Nameless([t] + rest, scope), cutoff, k) ==
            [ShiftTerm(NamelessTerm(t, scope), cutoff, k)] + Shift(Nameless(rest, ScopeAfter(t, scope)), cutoff2, k)
  {
    var first, others := NamelessTerm(t, scope), Nameless(rest, ScopeAfter(t, scope));
    assert if t.Bind? then first == NBind(|t.names|) else !first.NBind?;
    hide NamelessTerm, ShiftTerm;
    assert ([t] + rest)[1..] == rest;
    assert Nameless([t] + rest, scope) == [first] + others;
    assert ([first] + others)[1..] == others;
  }

  lemma {:induction false} TermUnaffected(t: Term, outer: seq<string>, spliced: seq<string>, inner: seq<string>)
    requires TermAvoids(t, spliced)
    ensures NamelessTerm(t, outer + spliced + inner) == ShiftTerm(NamelessTerm(t, outer + inner), |inner|, |spliced|)
    decreases t
  {
    match t
    case Call(name, _) => LastIndexInserted(outer, spliced, inner, BaseOf(name));
    case Quotation(body, _, _) => CallerUnaffected(body, outer, spliced, inner);
    case _ =>
  }

  // ---------------------------------------------------------------- running both

  /** A value: a closure carries its body and, by value, the scope it was written in. */
  datatype Value =
    | VInt(n: int)
    | VOther(tag: nat)
    | VRef(sigil: Sigil, referent: Value)
    | VClosure(body: seq<Term>, env: seq<Binding>)

  datatype Binding = Binding(name: string, value: Value)

  datatype NValue =
    | NVInt(n: int)
    | NVOther(tag: nat)
    | NVRef(sigil: Sigil, referent: NValue)
    | NVClosure(body: seq<NTerm>, env: seq<NValue>)

  function Names(env: seq<Binding>): (r: seq<string>)
    ensures |r| == |env| && forall i :: 0 <= i < |env| ==> r[i] == env[i].name
  {
    seq(|env|, i requires 0 <= i < |env| => env[i].name)
  }

  /** Forget the names of a value. */
  function Erase(v: Value): NValue
    decreases v
  {
    match v
    case VInt(n) => NVInt(n)
    case VOther(tag) => NVOther(tag)
    case VRef(sigil, referent) => NVRef(sigil, Erase(referent))
    case VClosure(body, env) => NVClosure(Nameless(body, Names(env)), EraseEnv(env))
  }

  function EraseEnv(env: seq<Binding>): (r: seq<NValue>)
    ensures |r| == |env| && forall i :: 0 <= i < |env| ==> r[i] == Erase(env[i].value)
    decreases env
  {
    if env == [] then [] else [Erase(env[0].value)] + EraseEnv(env[1..])
  }

  function EraseStack(stack: seq<Value>): (r: seq<NValue>)
    ensures |r| == |stack| && forall i :: 0 <= i < |stack| ==> r[i] == Erase(stack[i])
  {
    seq(|stack|, i requires 0 <= i < |stack| => Erase(stack[i]))
  }

  function Zip(names: seq<string>, values: seq<Value>): (r: seq<Binding>)
    requires |names| == |values|
    ensures |r| == |names| && forall i :: 0 <= i < |names| ==> r[i] == Binding(names[i], values[i])
  {
    seq(|names|, i requires 0 <= i < |names| => Binding(names[i], values[i]))
  }

  /** The named interpreter. A bind pops one value per name, the leftmost taking the deepest; a word not bound
      locally is the quotation application, a shuffle, an addition, or a user word run in an empty scope. */
  function Run(fuel: nat, words: map<string, seq<Term>>, terms: seq<Term>, env: seq<Binding>,
        stack: seq<Value>): Option<seq<Value>>
    decreases fuel, terms
  {
    if terms == [] then Some(stack)
    else
      var rest, n := terms[1..], |stack|;
      match terms[0]
      case IntLit(i) => Run(fuel, words, rest, env, stack + [VInt(i)])
      case OtherLit(tag) => Run(fuel, words, rest, env, stack + [VOther(tag)])
      case Quotation(body, _, _) => Run(fuel, words, rest, env, stack + [VClosure(body, env)])
      case Bind(names) =>
        if n < |names| then None
        else Run(fuel, words, rest, env + Zip(names, stack[n - |names|..]), stack[..n - |names|])
      case Call(name, _) =>
        match Resolve(name, Names(env))
        case Bound(sigil, index) =>
          var v := env[|env| - 1 - index].value;
          Run(fuel, words, rest, env, stack + [if sigil == NoSigil then v else VRef(sigil, v)])
        case Free(w) =>
          if fuel == 0 then None
          else if w == "call" then
            if n == 0 || !stack[n - 1].VClosure? then None
            else
              match Run(fuel - 1, words, stack[n - 1].body, stack[n - 1].env, stack[..n - 1])
              case None => None
              case Some(s) => Run(fuel, words, rest, env, s)
          else if w in words then
            match Run(fuel - 1, words, words[w], [], stack)
            case None => None
            case Some(s) => Run(fuel, words, rest, env, s)
          else
            match Builtin(w, stack)
            case None => None
            case Some(s) => Run(fuel, words, rest, env, s)
  }

  function Builtin(w: string, stack: seq<Value>): Option<seq<Value>> {
    var n := |stack|;
    if w == "dup" && n >= 1 then Some(stack + [stack[n - 1]])
    else if w == "drop" && n >= 1 then Some(stack[..n - 1])
    else if w == "swap" && n >= 2 then Some(stack[..n - 2] + [stack[n - 1], stack[n - 2]])
    else if w == "over" && n >= 2 then Some(stack + [stack[n - 2]])
    else if w == "rot" && n >= 3 then Some(stack[..n - 3] + [stack[n - 2], stack[n - 1], stack[n - 3]])
    else if w == "add" && n >= 2 && stack[n - 1].VInt? && stack[n - 2].VInt? then
      Some(stack[..n - 2] + [VInt(stack[n - 2].n + stack[n - 1].n)])
    else None
  }

  /** The nameless machine. */
  function NRun(fuel: nat, words: map<string, seq<NTerm>>, terms: seq<NTerm>, env: seq<NValue>,
        stack: seq<NValue>): Option<seq<NValue>>
    decreases fuel, terms
  {
    if terms == [] then Some(stack)
    else
      var rest, n := terms[1..], |stack|;
      match terms[0]
      case NInt(i) => NRun(fuel, words, rest, env, stack + [NVInt(i)])
      case NOther(tag) => NRun(fuel, words, rest, env, stack + [NVOther(tag)])
      case NQuotation(body, _, _) => NRun(fuel, words, rest, env, stack + [NVClosure(body, env)])
      case NBind(count) =>
        if n < count then None
        else NRun(fuel, words, rest, env + stack[n - count..], stack[..n - count])
      case NCall(target, _) =>
        match target
        case Bound(sigil, index) =>
          if index >= |env| then None
          else
            var v := env[|env| - 1 - index];
            NRun(fuel, words, rest, env, stack + [if sigil == NoSigil then v else NVRef(sigil, v)])
        case Free(w) =>
          if fuel == 0 then None
          else if w == "call" then
            if n == 0 || !stack[n - 1].NVClosure? then None
            else
              match NRun(fuel - 1, words, stack[n - 1].body, stack[n - 1].env, stack[..n - 1])
              case None => None
              case Some(s) => NRun(fuel, words, rest, env, s)
          else if w in words then
            match NRun(fuel - 1, words, words[w], [], stack)
            case None => None
            case Some(s) => NRun(fuel, words, rest, env, s)
          else
            match NBuiltin(w, stack)
            case None => None
            case Some(s) => NRun(fuel, words, rest, env, s)
  }

  function NBuiltin(w: string, stack: seq<NValue>): Option<seq<NValue>> {
    var n := |stack|;
    if w == "dup" && n >= 1 then Some(stack + [stack[n - 1]])
    else if w == "drop" && n >= 1 then Some(stack[..n - 1])
    else if w == "swap" && n >= 2 then Some(stack[..n - 2] + [stack[n - 1], stack[n - 2]])
    else if w == "over" && n >= 2 then Some(stack + [stack[n - 2]])
    else if w == "rot" && n >= 3 then Some(stack[..n - 3] + [stack[n - 2], stack[n - 1], stack[n - 3]])
    else if w == "add" && n >= 2 && stack[n - 1].NVInt? && stack[n - 2].NVInt? then
      Some(stack[..n - 2] + [NVInt(stack[n - 2].n + stack[n - 1].n)])
    else None
  }

  function EraseWords(words: map<string, seq<Term>>): map<string, seq<NTerm>> {
    map w | w in words :: Nameless(words[w], [])
  }

  function EraseResult(r: Option<seq<Value>>): Option<seq<NValue>> {
    match r case None => None case Some(s) => Some(EraseStack(s))
  }

  lemma BuiltinErases(w: string, stack: seq<Value>)
    ensures EraseResult(Builtin(w, stack)) == NBuiltin(w, EraseStack(stack))
  {
    match Builtin(w, stack)
    case None =>
    case Some(s) => assert EraseStack(s) == NBuiltin(w, EraseStack(stack)).value;
  }

  lemma EraseSplit(stack: seq<Value>, k: nat)
    requires k <= |stack|
    ensures EraseStack(stack)[..k] == EraseStack(stack[..k]) && EraseStack(stack)[k..] == EraseStack(stack[k..])
  {
    hide Erase, EraseStack;
  }

  lemma NamesConcat(a: seq<Binding>, b: seq<Binding>)
    ensures Names(a + b) == Names(a) + Names(b)
  {
    hide Names;
    forall i | 0 <= i < |a| + |b| ensures Names(a + b)[i] == (Names(a) + Names(b))[i] {}
  }

  lemma EraseEnvConcat(a: seq<Binding>, b: seq<Binding>)
    ensures EraseEnv(a + b) == EraseEnv(a) + EraseEnv(b)
  {
    hide Erase, EraseEnv;
    forall i | 0 <= i < |a| + |b| ensures EraseEnv(a + b)[i] == (EraseEnv(a) + EraseEnv(b))[i] {}
  }

  lemma BindErases(names: seq<string>, env: seq<Binding>, values: seq<Value>)
    requires |names| == |values|
    ensures EraseEnv(env + Zip(names, values)) == EraseEnv(env) + EraseStack(values)
    ensures Names(env + Zip(names, values)) == Names(env) + names
  {
    hide Erase, EraseEnv, Names, EraseStack, Zip;
    EraseEnvConcat(env, Zip(names, values));
    NamesConcat(env, Zip(names, values));
    assert EraseEnv(Zip(names, values)) == EraseStack(values);
    assert Names(Zip(names, values)) == names;
  }

  /** The value a term pushes without looking at the stack: a literal, a closure or a local. */
  function Pushed(t: Term, env: seq<Binding>): Option<Value> {
    match t
    case IntLit(i) => Some(VInt(i))
    case OtherLit(tag) => Some(VOther(tag))
    case Quotation(body, _, _) => Some(VClosure(body, env))
    case Call(name, _) =>
      (match Resolve(name, Names(env))
       case Bound(sigil, index) =>
         var v := env[|env| - 1 - index].value;
         Some(if sigil == NoSigil then v else VRef(sigil, v))
       case Free(_) => None)
    case Bind(_) => None
  }

  function NPushed(t: NTerm, env: seq<NValue>): Option<NValue> {
    match t
    case NInt(i) => Some(NVInt(i))
    case NOther(tag) => Some(NVOther(tag))
    case NQuotation(body, _, _) => Some(NVClosure(body, env))
    case NCall(target, _) =>
      if target.Free? || target.index >= |env| then None
      else
        var v := env[|env| - 1 - target.index];
        Some(if target.sigil == NoSigil then v else NVRef(target.sigil, v))
    case NBind(_) => None
  }

  lemma PushErased(t: Term, env: seq<Binding>)
    requires Pushed(t, env).Some?
    ensures NPushed(NamelessTerm(t, Names(env)), EraseEnv(env)) == Some(Erase(Pushed(t, env).value))
  {
    hide Nameless, Names, EraseEnv, LastIndex, BaseOf, SigilOf;
  }

  lemma NRunPushes(fuel: nat, words: map<string, seq<NTerm>>, terms: seq<NTerm>, env: seq<NValue>, stack: seq<NValue>)
    requires terms != [] && NPushed(terms[0], env).Some?
    ensures NRun(fuel, words, terms, env, stack) ==
              NRun(fuel, words, terms[1..], env, stack + [NPushed(terms[0], env).value])
  {
    hide NBuiltin;
  }

  lemma PushRun(fuel: nat, words: map<string, seq<Term>>, terms: seq<Term>, env: seq<Binding>, stack: seq<Value>)
    requires terms != [] && Pushed(terms[0], env).Some?
    ensures Run(fuel, words, terms, env, stack) ==
              Run(fuel, words, terms[1..], env, stack + [Pushed(terms[0], env).value])
  {
    hide Names;
  }

  lemma PushNRun(fuel: nat, words: map<string, seq<Term>>, terms: seq<Term>, env: seq<Binding>, stack: seq<Value>)
    requires terms != [] && Pushed(terms[0], env).Some?
    ensures NRun(fuel, EraseWords(words), Nameless(terms, Names(env)), EraseEnv(env), EraseStack(stack)) ==
            NRun(fuel, EraseWords(words), Nameless(terms[1..], Names(env)), EraseEnv(env),
                 EraseStack(stack + [Pushed(terms[0], env).value]))
  {
    hide Run, NRun, EraseWords, Erase, EraseEnv, EraseStack, NamelessTerm, Pushed, NPushed, Names;
    var v, scope := Pushed(terms[0], env).value, Names(env);
    PushErased(terms[0], env);
    NRunPushes(fuel, EraseWords(words), Nameless(terms, scope), EraseEnv(env), EraseStack(stack));
    ScopeStays(terms[0], env);
    assert Nameless(terms, scope)[1..] == Nameless(terms[1..], scope);
    assert EraseStack(stack + [v]) == EraseStack(stack) + [Erase(v)];
  }

  lemma ScopeStays(t: Term, env: seq<Binding>)
    requires Pushed(t, env).Some?
    ensures ScopeAfter(t, Names(env)) == Names(env)
  {
  }

  /** Running a block and forgetting names is running its de Bruijn form: names have no other meaning. */
  lemma {:induction false} RunIsNameless(fuel: nat, words: map<string, seq<Term>>, terms: seq<Term>, env: seq<Binding>,
        stack: seq<Value>)
    ensures EraseResult(Run(fuel, words, terms, env, stack)) ==
            NRun(fuel, EraseWords(words), Nameless(terms, Names(env)), EraseEnv(env), EraseStack(stack))
    decreases fuel, terms, 2
  {
    hide EraseWords;
    if terms != [] {
      match Pushed(terms[0], env)
      case Some(v) =>
        hide *;
        PushRun(fuel, words, terms, env, stack);
        PushNRun(fuel, words, terms, env, stack);
        RunIsNameless(fuel, words, terms[1..], env, stack + [v]);
      case None =>
        if terms[0].Bind? {
          hide *;
          BindRuns(fuel, words, terms, env, stack);
        } else {
          FreeErases(fuel, words, terms, env, stack, Resolve(terms[0].name, Names(env)).name);
        }
    }
  }

  lemma NRunBinds(fuel: nat, words: map<string, seq<NTerm>>, terms: seq<NTerm>, env: seq<NValue>, stack: seq<NValue>)
    requires terms != [] && terms[0].NBind?
    ensures var n, k := |stack|, terms[0].count;
            NRun(fuel, words, terms, env, stack) == if n < k then None
              else NRun(fuel, words, terms[1..], env + stack[n - k..], stack[..n - k])
  {
    hide NBuiltin;
  }

  lemma RunBinds(fuel: nat, words: map<string, seq<Term>>, terms: seq<Term>, env: seq<Binding>, stack: seq<Value>)
    requires terms != [] && terms[0].Bind?
    ensures var n, k := |stack|, |terms[0].names|;
            Run(fuel, words, terms, env, stack) ==
              if n < k then None
              else Run(fuel, words, terms[1..], env + Zip(terms[0].names, stack[n - k..]), stack[..n - k])
  {
    hide Builtin, Zip, Names;
  }

  lemma BindTerm(terms: seq<Term>, scope: seq<string>)
    requires terms != [] && terms[0].Bind?
    ensures var ts := Nameless(terms, scope);
            && ts != [] && ts[0].NBind? && ts[0].count == |terms[0].names|
            && ts[1..] == Nameless(terms[1..], scope + terms[0].names)
  {
  }

  lemma {:induction false} BindRuns(fuel: nat, words: map<string, seq<Term>>, terms: seq<Term>, env: seq<Binding>,
        stack: seq<Value>)
    requires terms != [] && terms[0].Bind?
    ensures EraseResult(Run(fuel, words, terms, env, stack)) ==
            NRun(fuel, EraseWords(words), Nameless(terms, Names(env)), EraseEnv(env), EraseStack(stack))
    decreases fuel, terms, 0
  {
    var names, n := terms[0].names, |stack|;
    RunBinds(fuel, words, terms, env, stack);
    BindTerm(terms, Names(env));
    NRunBinds(fuel, EraseWords(words), Nameless(terms, Names(env)), EraseEnv(env), EraseStack(stack));
    hide Run, NRun, EraseStack, EraseEnv, EraseWords, Zip, Names, Nameless;
    if n >= |names| {
      EraseSplit(stack, n - |names|);
      BindErases(names, env, stack[n - |names|..]);
      RunIsNameless(fuel, words, terms[1..], env + Zip(names, stack[n - |names|..]), stack[..n - |names|]);
    }
  }

  /** What a free word does to the stack, nameless and named. */
  function Applied(fuel: nat, words: map<string, seq<NTerm>>, w: string, stack: seq<NValue>): Option<seq<NValue>> {
    var n := |stack|;
    if fuel == 0 then None
    else if w == "call" then
      if n == 0 || !stack[n - 1].NVClosure? then None
      else NRun(fuel - 1, words, stack[n - 1].body, stack[n - 1].env, stack[..n - 1])
    else if w in words then NRun(fuel - 1, words, words[w], [], stack)
    else NBuiltin(w, stack)
  }

  function Apply(fuel: nat, words: map<string, seq<Term>>, w: string, stack: seq<Value>): Option<seq<Value>> {
    var n := |stack|;
    if fuel == 0 then None
    else if w == "call" then
      if n == 0 || !stack[n - 1].VClosure? then None
      else Run(fuel - 1, words, stack[n - 1].body, stack[n - 1].env, stack[..n - 1])
    else if w in words then Run(fuel - 1, words, words[w], [], stack)
    else Builtin(w, stack)
  }

  lemma NRunFree(fuel: nat, words: map<string, seq<NTerm>>, terms: seq<NTerm>, env: seq<NValue>, stack: seq<NValue>,
        w: string)
    requires terms != [] && terms[0].NCall? && terms[0].target == Free(w)
    ensures NRun(fuel, words, terms, env, stack) ==
            match Applied(fuel, words, w, stack) case None => None case Some(r) => NRun(fuel, words, terms[1..], env, r)
  {
    hide NBuiltin;
  }

  lemma RunFree(fuel: nat, words: map<string, seq<Term>>, terms: seq<Term>, env: seq<Binding>, stack: seq<Value>,
        w: string)
    requires terms != [] && terms[0].Call? && Resolve(terms[0].name, Names(env)) == Free(w)
    ensures Run(fuel, words, terms, env, stack) ==
            match Apply(fuel, words, w, stack) case None => None case Some(r) => Run(fuel, words, terms[1..], env, r)
  {
    hide Builtin, Resolve, Names;
  }

  lemma FreeTerm(terms: seq<Term>, scope: seq<string>, w: string)
    requires terms != [] && terms[0].Call? && Resolve(terms[0].name, scope) == Free(w)
    ensures var ts := Nameless(terms, scope);
            ts != [] && ts[0].NCall? && ts[0].target == Free(w) && ts[1..] == Nameless(terms[1..], scope)
  {
    hide Resolve;
  }

  lemma {:induction false} FreeErases(fuel: nat, words: map<string, seq<Term>>, terms: seq<Term>, env: seq<Binding>,
        stack: seq<Value>, w: string)
    requires terms != [] && terms[0].Call? && Resolve(terms[0].name, Names(env)) == Free(w)
    ensures EraseResult(Run(fuel, words, terms, env, stack)) ==
            NRun(fuel, EraseWords(words), Nameless(terms, Names(env)), EraseEnv(env), EraseStack(stack))
    decreases fuel, terms, 1
  {
    RunFree(fuel, words, terms, env, stack, w);
    FreeTerm(terms, Names(env), w);
    NRunFree(fuel, EraseWords(words), Nameless(terms, Names(env)), EraseEnv(env), EraseStack(stack), w);
    AppliedErases(fuel, words, terms, w, stack);
    var r := Apply(fuel, words, w, stack);
    hide Run, NRun, Nameless, Names, EraseWords, EraseEnv, EraseStack, Apply, Applied, Resolve;
    if r.Some? { RunIsNameless(fuel, words, terms[1..], env, r.value); }
  }

  lemma {:induction false} AppliedErases(fuel: nat, words: map<string, seq<Term>>, terms: seq<Term>, w: string,
        stack: seq<Value>)
    ensures EraseResult(Apply(fuel, words, w, stack)) == Applied(fuel, EraseWords(words), w, EraseStack(stack))
    decreases fuel, terms, 0
  {
    hide Run, NRun, Builtin, NBuiltin, Names;
    if fuel > 0 {
      if w == "call" {
        CallErases(fuel, words, terms, stack);
      } else if w in words {
        RunIsNameless(fuel - 1, words, words[w], [], stack);
        NoNames();
      } else {
        BuiltinErases(w, stack);
      }
    }
  }

  lemma NoNames()
    ensures Names([]) == [] && EraseEnv([]) == []
  {
  }

  lemma {:induction false} CallErases(fuel: nat, words: map<string, seq<Term>>, terms: seq<Term>, stack: seq<Value>)
    requires fuel > 0
    ensures EraseResult(Apply(fuel, words, "call", stack)) ==
              Applied(fuel, EraseWords(words), "call", EraseStack(stack))
    decreases fuel, terms, 0, 0
  {
    hide Run, NRun, Builtin, NBuiltin, Names, Nameless, EraseWords, EraseEnv;
    var n := |stack|;
    if n > 0 {
      EraseSplit(stack, n - 1);
      ErasedClosure(stack[n - 1]);
      assert EraseStack(stack)[n - 1] == Erase(stack[n - 1]);
      hide EraseStack, Erase;
      if stack[n - 1].VClosure? {
        RunIsNameless(fuel - 1, words, stack[n - 1].body, stack[n - 1].env, stack[..n - 1]);
      }
    }
  }

  lemma ErasedClosure(v: Value)
    ensures Erase(v).NVClosure? <==> v.VClosure?
    ensures v.VClosure? ==> Erase(v).body == Nameless(v.body, Names(v.env)) && Erase(v).env == EraseEnv(v.env)
  {
  }

  /** A renamed body, run from an environment that holds the same values under renamed names, gives the same
      result: the same outcome at every step budget, up to the spelling of names inside closures. */
  lemma RenamedRunsTheSame(fuel: nat, words: map<string, seq<Term>>, terms: seq<Term>, uid: nat, suffix: string,
                           env: seq<Binding>, env2: seq<Binding>, stack: seq<Value>, stack2: seq<Value>)
    requires IsSuffix(suffix) && StaysFree(terms, uid, suffix, Names(env), [])
    requires Names(env2) == RenameAll(Names(env), uid, suffix) && EraseEnv(env2) == EraseEnv(env)
    requires EraseStack(stack2) == EraseStack(stack)
    ensures EraseResult(Run(fuel, words, Renamed(terms, uid, suffix, Names(env)), env2, stack2)) ==
            EraseResult(Run(fuel, words, terms, env, stack))
  {
    RenamingPreserves(terms, uid, suffix, Names(env), []);
    assert [] + RenameAll(Names(env), uid, suffix) == Names(env2);
    RunIsNameless(fuel, words, terms, env, stack);
    RunIsNameless(fuel, words, Renamed(terms, uid, suffix, Names(env)), env2, stack2);
  }
}
