/** Running a spliced body under the caller's own bindings: what lies beneath its scope makes no difference. */
module Splicing {
  import opened Types
  import opened Rename
  import opened Scoping

  /** Every binder a block refers to is its own or among the `depth` innermost of its scope. */
  predicate Scoped(terms: seq<NTerm>, depth: nat)
    decreases terms
  {
    terms == [] ||
    (ScopedTerm(terms[0], depth) && Scoped(terms[1..], if terms[0].NBind? then depth + terms[0].count else depth))
  }

  predicate ScopedTerm(t: NTerm, depth: nat)
    decreases t
  {
    match t
    case NCall(target, _) => target.Bound? ==> target.index < depth
    case NQuotation(body, _, _) => Scoped(body, depth)
    case _ => true
  }

  lemma {:induction false} NamelessScoped(terms: seq<Term>, scope: seq<string>)
    ensures Scoped(Nameless(terms, scope), |scope|)
    decreases terms
  {
    if terms != [] {
      TermScoped(terms[0], scope);
      NamelessScoped(terms[1..], ScopeAfter(terms[0], scope));
      assert Nameless(terms, scope)[1..] == Nameless(terms[1..], ScopeAfter(terms[0], scope));
    }
  }

  lemma {:induction false} TermScoped(t: Term, scope: seq<string>)
    ensures ScopedTerm(NamelessTerm(t, scope), |scope|)
    decreases t
  {
    if t.Quotation? { NamelessScoped(t.body, scope); }
  }

  // ---------------------------------------------------------------- values over a deeper scope

  /** The same value, but for bindings beneath the scopes its closures were written in, which they never read. */
  predicate Beneath(a: NValue, b: NValue)
    decreases a
  {
    match a
    case NVInt(_) => b == a
    case NVOther(_) => b == a
    case NVRef(sigil, referent) => b.NVRef? && b.sigil == sigil && Beneath(referent, b.referent)
    case NVClosure(body, env) => b.NVClosure? && b.body == body && Scoped(body, |env|) && EnvBeneath(env, b.env)
  }

  predicate EnvBeneath(e: seq<NValue>, f: seq<NValue>)
    decreases e
  {
    |e| <= |f| && forall i :: 0 <= i < |e| ==> Beneath(e[i], f[|f| - |e| + i])
  }

  predicate StackBeneath(s: seq<NValue>, t: seq<NValue>) {
    |s| == |t| && forall i :: 0 <= i < |s| ==> Beneath(s[i], t[i])
  }

  predicate ResultBeneath(r: Option<seq<NValue>>, q: Option<seq<NValue>>) {
    match r
    case None => q.None?
    case Some(s) => q.Some? && StackBeneath(s, q.value)
  }

  predicate NoClosure(v: NValue)
    decreases v
  {
    match v
    case NVRef(_, referent) => NoClosure(referent)
    case NVClosure(_, _) => false
    case _ => true
  }

  /** On values that hold no closure it is equality. */
  lemma {:induction false} BeneathPlain(a: NValue, b: NValue)
    requires Beneath(a, b) && NoClosure(a)
    ensures a == b
    decreases a
  {
    if a.NVRef? { BeneathPlain(a.referent, b.referent); }
  }

  lemma {:induction false} EraseBeneath(v: Value)
    ensures Beneath(Erase(v), Erase(v))
    decreases v
  {
    match v
    case VRef(_, referent) => EraseBeneath(referent);
    case VClosure(body, env) =>
      NamelessScoped(body, Names(env));
      EraseEnvBeneath(env);
    case _ =>
  }

  lemma {:induction false} EraseEnvBeneath(env: seq<Binding>)
    ensures EnvBeneath(EraseEnv(env), EraseEnv(env))
    decreases env
  {
    forall i | 0 <= i < |env| ensures Beneath(EraseEnv(env)[i], EraseEnv(env)[i]) {
      EraseBeneath(env[i].value);
    }
  }

  lemma EraseStackBeneath(stack: seq<Value>)
    ensures StackBeneath(EraseStack(stack), EraseStack(stack))
  {
    forall i | 0 <= i < |stack| ensures Beneath(EraseStack(stack)[i], EraseStack(stack)[i]) {
      EraseBeneath(stack[i]);
    }
  }

  lemma EnvBeneathOver(e: seq<NValue>, f: seq<NValue>, under: seq<NValue>)
    requires EnvBeneath(e, f)
    ensures EnvBeneath(e, under + f)
  {
    hide Beneath;
    forall i | 0 <= i < |e| ensures Beneath(e[i], (under + f)[|under + f| - |e| + i]) {
      assert (under + f)[|under + f| - |e| + i] == f[|f| - |e| + i];
    }
  }

  // ---------------------------------------------------------------- running over a deeper scope

  predicate WordsScoped(words: map<string, seq<NTerm>>) { forall w :: w in words ==> Scoped(words[w], 0) }

  lemma BuiltinBeneath(w: string, s: seq<NValue>, t: seq<NValue>)
    requires StackBeneath(s, t)
    ensures ResultBeneath(NBuiltin(w, s), NBuiltin(w, t))
  {
    assert forall i :: 0 <= i < |s| ==> (s[i].NVInt? <==> t[i].NVInt?) && (s[i].NVInt? ==> s[i] == t[i]);
    hide Beneath;
  }

  lemma PushedBeneath(t: NTerm, e: seq<NValue>, f: seq<NValue>)
    requires EnvBeneath(e, f) && ScopedTerm(t, |e|)
    ensures NPushed(t, e).Some? <==> NPushed(t, f).Some?
    ensures NPushed(t, e).Some? ==> Beneath(NPushed(t, e).value, NPushed(t, f).value)
  {
    match t
    case NCall(target, _) =>
      if target.Bound? {
        assert f[|f| - |e| + (|e| - 1 - target.index)] == f[|f| - 1 - target.index];
      }
    case _ =>
  }

  lemma {:induction false} RunBeneath(fuel: nat, words: map<string, seq<NTerm>>, terms: seq<NTerm>, e: seq<NValue>,
        f: seq<NValue>, s: seq<NValue>, t: seq<NValue>)
    requires WordsScoped(words) && Scoped(terms, |e|) && EnvBeneath(e, f) && StackBeneath(s, t)
    ensures ResultBeneath(NRun(fuel, words, terms, e, s), NRun(fuel, words, terms, f, t))
    decreases fuel, terms, 1
  {
    hide WordsScoped, Beneath, EnvBeneath, NRun, NBuiltin;
    if terms == [] {
      NRunEmpty(fuel, words, e, s);
      NRunEmpty(fuel, words, f, t);
    } else {
      PushedBeneath(terms[0], e, f);
      if NPushed(terms[0], e).Some? {
        var v, u := NPushed(terms[0], e).value, NPushed(terms[0], f).value;
        NRunPushes(fuel, words, terms, e, s);
        NRunPushes(fuel, words, terms, f, t);
        RunBeneath(fuel, words, terms[1..], e, f, s + [v], t + [u]);
      } else if terms[0].NBind? {
        BindBeneath(fuel, words, terms, e, f, s, t);
      } else {
        FreeBeneath(fuel, words, terms, e, f, s, t, terms[0].target.name);
      }
    }
  }

  lemma NRunEmpty(fuel: nat, words: map<string, seq<NTerm>>, env: seq<NValue>, stack: seq<NValue>)
    ensures NRun(fuel, words, [], env, stack) == Some(stack)
  {
  }

  lemma {:induction false} BindBeneath(fuel: nat, words: map<string, seq<NTerm>>, terms: seq<NTerm>, e: seq<NValue>,
        f: seq<NValue>, s: seq<NValue>, t: seq<NValue>)
    requires WordsScoped(words) && Scoped(terms, |e|) && EnvBeneath(e, f) && StackBeneath(s, t) && terms != []
    requires terms[0].NBind?
    ensures ResultBeneath(NRun(fuel, words, terms, e, s), NRun(fuel, words, terms, f, t))
    decreases fuel, terms, 0
  {
    hide WordsScoped, Beneath;
    var n, k := |s|, terms[0].count;
    NRunBinds(fuel, words, terms, e, s);
    NRunBinds(fuel, words, terms, f, t);
    if n >= k {
      var e2, f2 := e + s[n - k..], f + t[n - k..];
      forall i | 0 <= i < |e2| ensures Beneath(e2[i], f2[|f2| - |e2| + i]) {
        if i >= |e| { assert e2[i] == s[n - k + (i - |e|)] && f2[|f2| - |e2| + i] == t[n - k + (i - |e|)]; }
      }
      RunBeneath(fuel, words, terms[1..], e2, f2, s[..n - k], t[..n - k]);
    }
  }

  lemma {:induction false} AppliedBeneath(fuel: nat, words: map<string, seq<NTerm>>, terms: seq<NTerm>, w: string,
        s: seq<NValue>, t: seq<NValue>)
    requires WordsScoped(words) && StackBeneath(s, t)
    ensures ResultBeneath(Applied(fuel, words, w, s), Applied(fuel, words, w, t))
    decreases fuel, terms, 0
  {
    hide NBuiltin, NRun;
    var n := |s|;
    if fuel > 0 {
      if w == "call" {
        if n > 0 {
          assert Beneath(s[n - 1], t[n - 1]);
          if s[n - 1].NVClosure? {
            RunBeneath(fuel - 1, words, s[n - 1].body, s[n - 1].env, t[n - 1].env, s[..n - 1], t[..n - 1]);
          }
        }
      } else if w in words {
        RunBeneath(fuel - 1, words, words[w], [], [], s, t);
      } else {
        BuiltinBeneath(w, s, t);
      }
    }
  }

  lemma {:induction false} FreeBeneath(fuel: nat, words: map<string, seq<NTerm>>, terms: seq<NTerm>, e: seq<NValue>,
        f: seq<NValue>, s: seq<NValue>, t: seq<NValue>, w: string)
    requires WordsScoped(words) && Scoped(terms, |e|) && EnvBeneath(e, f) && StackBeneath(s, t)
    requires terms != [] && terms[0].NCall? && terms[0].target == Free(w)
    ensures ResultBeneath(NRun(fuel, words, terms, e, s), NRun(fuel, words, terms, f, t))
    decreases fuel, terms, 0
  {
    hide WordsScoped, Beneath, EnvBeneath, NRun, NBuiltin, Applied;
    NRunFree(fuel, words, terms, e, s, w);
    NRunFree(fuel, words, terms, f, t, w);
    AppliedBeneath(fuel, words, terms[1..], w, s, t);
    var r, q := Applied(fuel, words, w, s), Applied(fuel, words, w, t);
    if r.Some? { RunBeneath(fuel, words, terms[1..], e, f, r.value, q.value); }
  }

  // ---------------------------------------------------------------- a splice

  /** A splice runs as the body alone does. The body, run from `env`, and its renaming, run under the caller's
      bindings from an environment holding the same values under renamed names, have the same outcome at every
      step budget; results differ at most in what lies beneath the scopes of closures. */
  lemma {:induction false} SpliceRunsTheSame(fuel: nat, words: map<string, seq<Term>>, terms: seq<Term>, uid: nat,
        suffix: string, caller: seq<Binding>, env: seq<Binding>, env2: seq<Binding>, stack: seq<Value>,
        stack2: seq<Value>)
    requires IsSuffix(suffix) && StaysFree(terms, uid, suffix, Names(env), Names(caller))
    requires Names(env2) == RenameAll(Names(env), uid, suffix) && EraseEnv(env2) == EraseEnv(env)
    requires EraseStack(stack2) == EraseStack(stack)
    ensures ResultBeneath(EraseResult(Run(fuel, words, terms, env, stack)),
                          EraseResult(Run(fuel, words, Renamed(terms, uid, suffix, Names(env)), caller + env2, stack2)))
  {
    hide *;
    var over := EraseEnv(caller) + EraseEnv(env);
    SpliceForm(fuel, words, terms, uid, suffix, caller, env, env2, stack2);
    RunIsNameless(fuel, words, terms, env, stack);
    WordsErased(words);
    NamelessScoped(terms, Names(env));
    EraseEnvBeneath(env);
    EnvBeneathOver(EraseEnv(env), EraseEnv(env), EraseEnv(caller));
    EraseStackBeneath(stack);
    RunBeneath(fuel, EraseWords(words), Nameless(terms, Names(env)), EraseEnv(env), over, EraseStack(stack),
               EraseStack(stack));
  }

  /** The renamed body under the caller's bindings is the body's own de Bruijn form over a deeper scope. */
  lemma SpliceForm(fuel: nat, words: map<string, seq<Term>>, terms: seq<Term>, uid: nat, suffix: string,
                   caller: seq<Binding>, env: seq<Binding>, env2: seq<Binding>, stack: seq<Value>)
    requires IsSuffix(suffix) && StaysFree(terms, uid, suffix, Names(env), Names(caller))
    requires Names(env2) == RenameAll(Names(env), uid, suffix) && EraseEnv(env2) == EraseEnv(env)
    ensures EraseResult(Run(fuel, words, Renamed(terms, uid, suffix, Names(env)), caller + env2, stack)) ==
            NRun(fuel, EraseWords(words), Nameless(terms, Names(env)), EraseEnv(caller) + EraseEnv(env),
                 EraseStack(stack))
  {
    var renamed, full := Renamed(terms, uid, suffix, Names(env)), caller + env2;
    ScopeConcat(caller, env2);
    hide *;
    RenamingPreserves(terms, uid, suffix, Names(env), Names(caller));
    RunIsNameless(fuel, words, renamed, full, stack);
  }

  lemma ScopeConcat(a: seq<Binding>, b: seq<Binding>)
    ensures Names(a + b) == Names(a) + Names(b) && EraseEnv(a + b) == EraseEnv(a) + EraseEnv(b)
  {
    hide Erase, Names, EraseEnv;
    NamesConcat(a, b);
    EraseEnvConcat(a, b);
  }

  lemma WordsErased(words: map<string, seq<Term>>)
    ensures WordsScoped(EraseWords(words))
  {
    hide Scoped, Nameless;
    forall w | w in EraseWords(words) ensures Scoped(EraseWords(words)[w], 0) { NamelessScoped(words[w], []); }
  }
}
