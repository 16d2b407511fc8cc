/** Grounding a trait member's signature against a generic `impl:` target. */
module Members {
  import opened Types
  import opened Worlds
  import opened Invariant
  import opened History

  datatype GroundError = AbstractTarget | TooManyArguments(applied: nat, declared: nat)

  /** The member signatures that reach grounding: every variable has an entry in the map, and a member local
      heading an application is rendered as a variable. */
  predicate MemberShape(p: PolyType<Type>, vars: seq<Option<PolyType<Type>>>)
    decreases p
  {
    match p
    case Concrete(_) => true
    case Var(v) => v < |vars|
    case PArray(elem, _) => MemberShape(elem, vars)
    case PRef(referent, _) => MemberShape(referent, vars)
    case PCell(payload) => MemberShape(payload, vars)
    case PGeneric(_, _, _, args, _) => forall i :: 0 <= i < |args| ==> MemberShape(args[i], vars)
    case PApp(head, args) =>
      && (head != 0 ==> head < |vars| && vars[head].Some? && vars[head].value.Var?)
      && forall i :: 0 <= i < |args| ==> MemberShape(args[i], vars)
    case PQuot(ins, outs, _) =>
      && (forall i :: 0 <= i < |ins| ==> MemberShape(ins[i], vars))
      && (forall i :: 0 <= i < |outs| ==> MemberShape(outs[i], vars))
    case PQuotLit => false
    case PVariant(_, _, _, _, _) => false
  }

  function GroundMember(p: PolyType<Type>, target: PolyType<Type>,
        vars: seq<Option<PolyType<Type>>>): Result<PolyType<Type>, GroundError>
    requires MemberShape(p, vars)
    decreases p
  {
    match p
    case Concrete(_) => Ok(p)
    case Var(v) => (match vars[v] case None => Ok(target) case Some(rendered) => Ok(rendered))
    case PArray(elem, len) =>
      (match GroundMember(elem, target, vars) case Ok(e) => Ok(PArray(e, len)) case Err(x) => Err(x))
    case PRef(referent, mutable) =>
      (match GroundMember(referent, target, vars) case Ok(r) => Ok(PRef(r, mutable)) case Err(x) => Err(x))
    case PCell(payload) =>
      (match GroundMember(payload, target, vars) case Ok(c) => Ok(PCell(c)) case Err(x) => Err(x))
    case PGeneric(isEnum, idx, modId, args, lens) =>
      (match GroundMembers(args, target, vars)
       case Ok(gs) => Ok(PGeneric(isEnum, idx, modId, gs, lens))
       case Err(x) => Err(x))
    case PQuot(ins, outs, inline) =>
      (match GroundMembers(ins, target, vars)
       case Ok(i) =>
         (match GroundMembers(outs, target, vars) case Ok(o) => Ok(PQuot(i, o, inline)) case Err(x) => Err(x))
       case Err(x) => Err(x))
    case PApp(head, args) =>
      if head != 0 then
        match GroundMembers(args, target, vars)
        case Ok(gs) => Ok(PApp(vars[head].value.v, gs))
        case Err(x) => Err(x)
      else if !target.PGeneric? then Err(AbstractTarget)
      else if |args| > |target.args| then Err(TooManyArguments(|args|, |target.args|))
      else
        match GroundMembers(args, target, vars)
        case Ok(gs) => Ok(PGeneric(target.isEnum, target.idx, target.modId, gs + target.args[|args|..], target.lens))
        case Err(x) => Err(x)
  }

  function GroundMembers(ps: seq<PolyType<Type>>, target: PolyType<Type>,
        vars: seq<Option<PolyType<Type>>>): (r: Result<seq<PolyType<Type>>, GroundError>)
    requires forall i :: 0 <= i < |ps| ==> MemberShape(ps[i], vars)
    ensures r.Ok? ==>
              |r.value| == |ps| && forall i :: 0 <= i < |ps| ==> GroundMember(ps[i], target, vars) == Ok(r.value[i])
    decreases ps
  {
    if ps == [] then Ok([])
    else
      match GroundMember(ps[0], target, vars)
      case Err(x) => Err(x)
      case Ok(g) =>
        match GroundMembers(ps[1..], target, vars)
        case Ok(gs) => Ok([g] + gs)
        case Err(x) => Err(x)
  }

  // ---------------------------------------------------------------- exactly when grounding fails

  /** The argument counts of the applications of the trait's own variable, at any depth, as they are met. */
  function Applied(p: PolyType<Type>): seq<nat>
    decreases p
  {
    match p
    case PArray(elem, _) => Applied(elem)
    case PRef(referent, _) => Applied(referent)
    case PCell(payload) => Applied(payload)
    case PGeneric(_, _, _, args, _) => AppliedAll(args)
    case PQuot(ins, outs, _) => AppliedAll(ins) + AppliedAll(outs)
    case PApp(head, args) => (if head == 0 then [|args|] else []) + AppliedAll(args)
    case _ => []
  }

  function AppliedAll(ps: seq<PolyType<Type>>): seq<nat>
    decreases ps
  {
    if ps == [] then [] else Applied(ps[0]) + AppliedAll(ps[1..])
  }

  /** An application dissolves into a constructor with a slot for each of its arguments, and into nothing else. */
  predicate Dissolves(n: nat, target: PolyType<Type>) { target.PGeneric? && n <= |target.args| }

  function Offending(counts: seq<nat>, target: PolyType<Type>): Option<nat> {
    if counts == [] then None
    else if !Dissolves(counts[0], target) then Some(counts[0])
    else Offending(counts[1..], target)
  }

  /** The first count that does not dissolve. */
  lemma {:induction false} OffendingIsFirst(counts: seq<nat>, target: PolyType<Type>)
    ensures Offending(counts, target).None? <==> forall i :: 0 <= i < |counts| ==> Dissolves(counts[i], target)
    ensures Offending(counts, target).Some? ==>
              exists i :: 0 <= i < |counts| && counts[i] == Offending(counts, target).value &&
                !Dissolves(counts[i], target) &&
                forall j :: 0 <= j < i ==> Dissolves(counts[j], target)
  {
    if counts != [] && Dissolves(counts[0], target) {
      var rest := counts[1..];
      OffendingIsFirst(rest, target);
      if Offending(rest, target).Some? {
        var i :| 0 <= i < |rest| && rest[i] == Offending(rest, target).value && !Dissolves(rest[i], target) &&
          forall j :: 0 <= j < i ==> Dissolves(rest[j], target);
        assert counts[i + 1] == rest[i] && forall j :: 0 <= j < i + 1 ==> Dissolves(counts[j], target);
      } else {
        assert forall i :: 0 <= i < |counts| ==> Dissolves(counts[i], target) by {
          assert forall i :: 0 < i < |counts| ==> counts[i] == rest[i - 1];
        }
      }
    }
  }

  lemma OffendingConcat(a: seq<nat>, b: seq<nat>, target: PolyType<Type>)
    ensures Offending(a + b, target) == if Offending(a, target).Some? then Offending(a, target)
              else Offending(b, target)
  {
    if a == [] {
      assert a + b == b;
    } else {
      assert (a + b)[1..] == a[1..] + b;
      OffendingConcat(a[1..], b, target);
    }
  }

  /** The failure an offending count is reported as. */
  function FailureOf(offending: Option<nat>, target: PolyType<Type>): Option<GroundError> {
    match offending
    case None => None
    case Some(n) => Some(if target.PGeneric? then TooManyArguments(n, |target.args|) else AbstractTarget)
  }

  function ErrorOf<T>(r: Result<T, GroundError>): Option<GroundError> {
    match r case Ok(_) => None case Err(e) => Some(e)
  }

  lemma AppFailsExactly(p: PolyType<Type>, target: PolyType<Type>, vars: seq<Option<PolyType<Type>>>)
    requires p.PApp? && MemberShape(p, vars)
    requires ErrorOf(GroundMembers(p.args, target, vars)) == FailureOf(Offending(AppliedAll(p.args), target), target)
    ensures ErrorOf(GroundMember(p, target, vars)) == FailureOf(Offending(Applied(p), target), target)
  {
    var rest := AppliedAll(p.args);
    if p.head == 0 {
      OffendingConcat([|p.args|], rest, target);
      assert Offending([|p.args|], target) == if Dissolves(|p.args|, target) then None else Some(|p.args|);
    } else {
      assert [] + rest == rest;
    }
  }

  /** Grounding fails exactly when some application does not dissolve, reporting the first one met. */
  lemma {:induction false} GroundFailsExactly(p: PolyType<Type>, target: PolyType<Type>,
        vars: seq<Option<PolyType<Type>>>)
    requires MemberShape(p, vars)
    ensures ErrorOf(GroundMember(p, target, vars)) == FailureOf(Offending(Applied(p), target), target)
    decreases p
  {
    match p
    case Concrete(_) =>
    case Var(_) =>
    case PArray(elem, _) => GroundFailsExactly(elem, target, vars);
    case PRef(referent, _) => GroundFailsExactly(referent, target, vars);
    case PCell(payload) => GroundFailsExactly(payload, target, vars);
    case PGeneric(_, _, _, args, _) => GroundsFailExactly(args, target, vars);
    case PApp(head, args) =>
      GroundsFailExactly(args, target, vars);
      AppFailsExactly(p, target, vars);
    case PQuot(ins, outs, _) =>
      GroundsFailExactly(ins, target, vars);
      GroundsFailExactly(outs, target, vars);
      hide Offending, Dissolves;
      OffendingConcat(AppliedAll(ins), AppliedAll(outs), target);
  }

  lemma {:induction false} GroundsFailExactly(ps: seq<PolyType<Type>>, target: PolyType<Type>,
        vars: seq<Option<PolyType<Type>>>)
    requires forall i :: 0 <= i < |ps| ==> MemberShape(ps[i], vars)
    ensures ErrorOf(GroundMembers(ps, target, vars)) == FailureOf(Offending(AppliedAll(ps), target), target)
    decreases ps
  {
    if ps != [] {
      GroundFailsExactly(ps[0], target, vars);
      GroundsFailExactly(ps[1..], target, vars);
      OffendingConcat(Applied(ps[0]), AppliedAll(ps[1..]), target);
    }
  }

  /** Every type mentioned in a signature, as it is read: a type before its parts, the parts from left to right. */
  function Mentioned(p: PolyType<Type>): seq<PolyType<Type>>
    decreases p
  {
    [p] +
    match p
    case PArray(elem, _) => Mentioned(elem)
    case PRef(referent, _) => Mentioned(referent)
    case PCell(payload) => Mentioned(payload)
    case PGeneric(_, _, _, args, _) => MentionedIn(args)
    case PApp(_, args) => MentionedIn(args)
    case PQuot(ins, outs, _) => MentionedIn(ins) + MentionedIn(outs)
    case _ => []
  }

  function MentionedIn(ps: seq<PolyType<Type>>): seq<PolyType<Type>>
    decreases ps
  {
    if ps == [] then [] else Mentioned(ps[0]) + MentionedIn(ps[1..])
  }

  /** The trait's own variable applied to more arguments than the target has slots, or to any when the target is no
      constructor. */
  predicate Offends(p: PolyType<Type>, target: PolyType<Type>) {
    p.PApp? && p.head == 0 && (!target.PGeneric? || |p.args| > |target.args|)
  }

  predicate FirstOffence(ps: seq<PolyType<Type>>, target: PolyType<Type>, i: nat) {
    i < |ps| && ps[i].PApp? && Offends(ps[i], target) && forall j :: 0 <= j < i ==> !Offends(ps[j], target)
  }

  /** What the counts say of a list of mentions. */
  ghost predicate CountsTell(ps: seq<PolyType<Type>>, target: PolyType<Type>, offending: Option<nat>) {
    match offending
    case None => forall i :: 0 <= i < |ps| ==> !Offends(ps[i], target)
    case Some(n) => exists i: nat :: FirstOffence(ps, target, i) && |ps[i].args| == n
  }

  lemma CountsTellOne(p: PolyType<Type>, target: PolyType<Type>)
    ensures CountsTell([p], target, Offending(if p.PApp? && p.head == 0 then [|p.args|] else [], target))
  {
    if p.PApp? && p.head == 0 {
      var own := [|p.args|];
      assert own[1..] == [] && Offending(own[1..], target) == None;
      assert Offending(own, target) == if Offends(p, target) then Some(|p.args|) else None;
      if Offends(p, target) { assert FirstOffence([p], target, 0) && [p][0] == p; }
    } else {
      assert Offending([], target) == None;
    }
  }

  lemma CountsTellConcat(a: seq<PolyType<Type>>, b: seq<PolyType<Type>>, target: PolyType<Type>, x: Option<nat>,
        y: Option<nat>)
    requires CountsTell(a, target, x) && CountsTell(b, target, y)
    ensures CountsTell(a + b, target, if x.Some? then x else y)
  {
    hide Offends;
    var ab := a + b;
    assert forall j :: 0 <= j < |a| ==> ab[j] == a[j];
    assert forall j :: 0 <= j < |b| ==> ab[|a| + j] == b[j];
    if x.Some? {
      var i: nat :| FirstOffence(a, target, i) && |a[i].args| == x.value;
      assert FirstOffence(ab, target, i);
    } else if y.Some? {
      var i: nat :| FirstOffence(b, target, i) && |b[i].args| == y.value;
      forall j | 0 <= j < |a| + i ensures !Offends(ab[j], target) {
        if j >= |a| { assert ab[j] == b[j - |a|]; }
      }
      assert FirstOffence(ab, target, |a| + i);
    } else {
      forall j | 0 <= j < |ab| ensures !Offends(ab[j], target) {
        if j >= |a| { assert ab[j] == b[j - |a|]; }
      }
    }
  }

  lemma {:induction false} MentionsTell(p: PolyType<Type>, target: PolyType<Type>)
    ensures CountsTell(Mentioned(p), target, Offending(Applied(p), target))
    decreases p
  {
    CountsTellOne(p, target);
    var own := if p.PApp? && p.head == 0 then [|p.args|] else [];
    hide CountsTell, Offending;
    match p
    case PArray(elem, _) =>
      MentionsTell(elem, target);
      MentionsTellNext(p, Mentioned(elem), own, Applied(elem), target);
    case PRef(referent, _) =>
      MentionsTell(referent, target);
      MentionsTellNext(p, Mentioned(referent), own, Applied(referent), target);
    case PCell(payload) =>
      MentionsTell(payload, target);
      MentionsTellNext(p, Mentioned(payload), own, Applied(payload), target);
    case PGeneric(_, _, _, args, _) =>
      MentionsTellIn(args, target);
      MentionsTellNext(p, MentionedIn(args), own, AppliedAll(args), target);
    case PApp(_, args) =>
      MentionsTellIn(args, target);
      MentionsTellNext(p, MentionedIn(args), own, AppliedAll(args), target);
    case PQuot(ins, outs, _) =>
      MentionsTellIn(ins, target);
      MentionsTellIn(outs, target);
      OffendingConcat(AppliedAll(ins), AppliedAll(outs), target);
      CountsTellConcat(MentionedIn(ins), MentionedIn(outs), target, Offending(AppliedAll(ins), target),
                       Offending(AppliedAll(outs), target));
      MentionsTellNext(p, MentionedIn(ins) + MentionedIn(outs), own, AppliedAll(ins) + AppliedAll(outs), target);
    case _ => assert [p] + [] == [p];
  }

  lemma MentionsTellNext(p: PolyType<Type>, ps: seq<PolyType<Type>>, own: seq<nat>, counts: seq<nat>,
        target: PolyType<Type>)
    requires CountsTell([p], target, Offending(own, target)) && CountsTell(ps, target, Offending(counts, target))
    ensures CountsTell([p] + ps, target, Offending(own + counts, target))
    ensures [] + counts == counts
  {
    OffendingConcat(own, counts, target);
    CountsTellConcat([p], ps, target, Offending(own, target), Offending(counts, target));
  }

  lemma {:induction false} MentionsTellIn(ps: seq<PolyType<Type>>, target: PolyType<Type>)
    ensures CountsTell(MentionedIn(ps), target, Offending(AppliedAll(ps), target))
    decreases ps
  {
    if ps != [] {
      MentionsTell(ps[0], target);
      MentionsTellIn(ps[1..], target);
      OffendingConcat(Applied(ps[0]), AppliedAll(ps[1..]), target);
      CountsTellConcat(Mentioned(ps[0]), MentionedIn(ps[1..]), target, Offending(Applied(ps[0]), target),
                       Offending(AppliedAll(ps[1..]), target));
    }
  }

  /** Grounding fails exactly at the first application, in reading order, that the target has no room for, and the
      error says how many arguments it has. */
  lemma FailsAtFirstOffence(p: PolyType<Type>, target: PolyType<Type>, vars: seq<Option<PolyType<Type>>>)
    requires MemberShape(p, vars)
    ensures GroundMember(p, target, vars).Ok? <==>
              forall i :: 0 <= i < |Mentioned(p)| ==> !Offends(Mentioned(p)[i], target)
    ensures GroundMember(p, target, vars).Err? ==>
              exists i: nat :: FirstOffence(Mentioned(p), target, i) &&
                GroundMember(p, target, vars).error ==
                  if target.PGeneric? then TooManyArguments(|Mentioned(p)[i].args|, |target.args|) else AbstractTarget
  {
    GroundFailsExactly(p, target, vars);
    MentionsTell(p, target);
    hide *;
    OffenceTold(Mentioned(p), target, Offending(Applied(p), target), ErrorOf(GroundMember(p, target, vars)));
    ErrorIs(GroundMember(p, target, vars));
  }

  lemma ErrorIs<T>(r: Result<T, GroundError>)
    ensures r.Ok? <==> ErrorOf(r).None?
    ensures r.Err? ==> ErrorOf(r) == Some(r.error)
  {
  }

  lemma OffenceTold(ps: seq<PolyType<Type>>, target: PolyType<Type>, offending: Option<nat>, e: Option<GroundError>)
    requires CountsTell(ps, target, offending) && e == FailureOf(offending, target)
    ensures e.None? <==> forall i :: 0 <= i < |ps| ==> !Offends(ps[i], target)
    ensures e.Some? ==>
              exists i: nat :: FirstOffence(ps, target, i) &&
                e.value == if target.PGeneric? then TooManyArguments(|ps[i].args|, |target.args|) else AbstractTarget
  {
    if offending.Some? {
      var i: nat :| FirstOffence(ps, target, i) && |ps[i].args| == offending.value;
    }
  }

  // ---------------------------------------------------------------- grounding commutes with substitution

  /** `theta` binds every variable of `p`, and binds an application's head to a variable. */
  predicate Bindable(p: PolyType<Type>, theta: seq<PolyType<Type>>)
    decreases p
  {
    match p
    case Concrete(_) => true
    case Var(v) => v < |theta|
    case PArray(elem, _) => Bindable(elem, theta)
    case PRef(referent, _) => Bindable(referent, theta)
    case PCell(payload) => Bindable(payload, theta)
    case PGeneric(_, _, _, args, _) => forall i :: 0 <= i < |args| ==> Bindable(args[i], theta)
    case PApp(head, args) =>
      head < |theta| && theta[head].Var? && forall i :: 0 <= i < |args| ==> Bindable(args[i], theta)
    case PQuot(ins, outs, _) =>
      (forall i :: 0 <= i < |ins| ==> Bindable(ins[i], theta)) &&
        (forall i :: 0 <= i < |outs| ==> Bindable(outs[i], theta))
    case PQuotLit => false
    case PVariant(_, _, _, _, _) => false
  }

  function Bind(p: PolyType<Type>, theta: seq<PolyType<Type>>): PolyType<Type>
    requires Bindable(p, theta)
    decreases p
  {
    match p
    case Concrete(_) => p
    case Var(v) => theta[v]
    case PArray(elem, len) => PArray(Bind(elem, theta), len)
    case PRef(referent, mutable) => PRef(Bind(referent, theta), mutable)
    case PCell(payload) => PCell(Bind(payload, theta))
    case PGeneric(isEnum, idx, modId, args, lens) => PGeneric(isEnum, idx, modId, BindAll(args, theta), lens)
    case PApp(head, args) => PApp(theta[head].v, BindAll(args, theta))
    case PQuot(ins, outs, inline) => PQuot(BindAll(ins, theta), BindAll(outs, theta), inline)
  }

  function BindAll(ps: seq<PolyType<Type>>, theta: seq<PolyType<Type>>): (r: seq<PolyType<Type>>)
    requires forall i :: 0 <= i < |ps| ==> Bindable(ps[i], theta)
    ensures |r| == |ps| && forall i :: 0 <= i < |ps| ==> r[i] == Bind(ps[i], theta)
    decreases ps
  {
    if ps == [] then [] else [Bind(ps[0], theta)] + BindAll(ps[1..], theta)
  }

  predicate VarsBindable(vars: seq<Option<PolyType<Type>>>, theta: seq<PolyType<Type>>) {
    forall v :: 0 <= v < |vars| && vars[v].Some? ==> Bindable(vars[v].value, theta)
  }

  /** The member map of the `theta`-instance: every rendered local instantiated. */
  function BindVars(vars: seq<Option<PolyType<Type>>>, theta: seq<PolyType<Type>>): (r: seq<Option<PolyType<Type>>>)
    requires VarsBindable(vars, theta)
    ensures |r| == |vars|
    ensures forall v :: 0 <= v < |vars| ==> r[v] == if vars[v].Some? then Some(Bind(vars[v].value, theta)) else None
  {
    seq(|vars|, v requires 0 <= v < |vars| => if vars[v].Some? then Some(Bind(vars[v].value, theta)) else None)
  }

  /** The locals heading applications stay variables under `theta`. */
  predicate HeadsStay(p: PolyType<Type>, vars: seq<Option<PolyType<Type>>>, theta: seq<PolyType<Type>>)
    requires MemberShape(p, vars) && VarsBindable(vars, theta)
    decreases p
  {
    match p
    case PArray(elem, _) => HeadsStay(elem, vars, theta)
    case PRef(referent, _) => HeadsStay(referent, vars, theta)
    case PCell(payload) => HeadsStay(payload, vars, theta)
    case PGeneric(_, _, _, args, _) => forall i :: 0 <= i < |args| ==> HeadsStay(args[i], vars, theta)
    case PApp(head, args) =>
      (head != 0 ==> Bind(vars[head].value, theta).Var?) &&
        forall i :: 0 <= i < |args| ==> HeadsStay(args[i], vars, theta)
    case PQuot(ins, outs, _) =>
      (forall i :: 0 <= i < |ins| ==> HeadsStay(ins[i], vars, theta)) &&
        (forall i :: 0 <= i < |outs| ==> HeadsStay(outs[i], vars, theta))
    case _ => true
  }

  /** The parts of a member signature are member signatures, and ground when the whole does. */
  lemma ShapeUnder(p: PolyType<Type>, vars: seq<Option<PolyType<Type>>>)
    requires MemberShape(p, vars)
    ensures !p.PQuotLit? && !p.PVariant?
    ensures p.PArray? || p.PRef? || p.PCell? ==> MemberShape(Under(p), vars)
    ensures p.PGeneric? || p.PApp? ==> forall i :: 0 <= i < |p.args| ==> MemberShape(p.args[i], vars)
    ensures p.PQuot? ==>
              && (forall i :: 0 <= i < |p.ins| ==> MemberShape(p.ins[i], vars))
              && (forall i :: 0 <= i < |p.outs| ==> MemberShape(p.outs[i], vars))
  {
  }

  lemma GroundUnder(p: PolyType<Type>, target: PolyType<Type>, vars: seq<Option<PolyType<Type>>>)
    requires MemberShape(p, vars) && GroundMember(p, target, vars).Ok?
    ensures p.PArray? || p.PRef? || p.PCell? ==>
              MemberShape(Under(p), vars) && GroundMember(Under(p), target, vars).Ok?
    ensures p.PGeneric? || p.PApp? ==>
              && (forall i :: 0 <= i < |p.args| ==> MemberShape(p.args[i], vars))
              && GroundMembers(p.args, target, vars).Ok?
    ensures p.PQuot? ==>
              && (forall i :: 0 <= i < |p.ins| ==> MemberShape(p.ins[i], vars))
              && (forall i :: 0 <= i < |p.outs| ==> MemberShape(p.outs[i], vars))
              && GroundMembers(p.ins, target, vars).Ok? && GroundMembers(p.outs, target, vars).Ok?
  {
    ShapeUnder(p, vars);
    hide MemberShape;
  }

  lemma StaysUnder(p: PolyType<Type>, vars: seq<Option<PolyType<Type>>>, theta: seq<PolyType<Type>>)
    requires MemberShape(p, vars) && VarsBindable(vars, theta) && HeadsStay(p, vars, theta)
    ensures p.PArray? || p.PRef? || p.PCell? ==> MemberShape(Under(p), vars) && HeadsStay(Under(p), vars, theta)
    ensures p.PGeneric? || p.PApp? ==>
              forall i :: 0 <= i < |p.args| ==> MemberShape(p.args[i], vars) && HeadsStay(p.args[i], vars, theta)
    ensures p.PQuot? ==>
              && (forall i :: 0 <= i < |p.ins| ==> MemberShape(p.ins[i], vars) && HeadsStay(p.ins[i], vars, theta))
              && (forall i :: 0 <= i < |p.outs| ==> MemberShape(p.outs[i], vars) && HeadsStay(p.outs[i], vars, theta))
  {
    ShapeUnder(p, vars);
    hide MemberShape, VarsBindable;
  }

  /** The instantiated member map still covers the signature, and the grounded signature is instantiable. */
  lemma {:induction false} GroundBindable(p: PolyType<Type>, target: PolyType<Type>, vars: seq<Option<PolyType<Type>>>,
        theta: seq<PolyType<Type>>)
    requires MemberShape(p, vars) && VarsBindable(vars, theta) && Bindable(target, theta) && HeadsStay(p, vars, theta)
    requires GroundMember(p, target, vars).Ok?
    ensures MemberShape(p, BindVars(vars, theta)) && Bindable(GroundMember(p, target, vars).value, theta)
    decreases p
  {
    StaysUnder(p, vars, theta);
    GroundUnder(p, target, vars);
    ShapeUnder(p, vars);
    hide MemberShape, HeadsStay, GroundMember, GroundMembers, Bindable, VarsBindable, BindVars;
    match p
    case Concrete(_) => GroundBindableLeaf(p, target, vars, theta);
    case Var(_) => GroundBindableLeaf(p, target, vars, theta);
    case PGeneric(_, _, _, args, _) =>
      GroundsBindable(args, target, vars, theta);
      GroundBindableArgs(p, target, vars, theta);
    case PApp(_, args) =>
      GroundsBindable(args, target, vars, theta);
      GroundBindableArgs(p, target, vars, theta);
    case PQuot(ins, outs, _) =>
      GroundsBindable(ins, target, vars, theta);
      GroundsBindable(outs, target, vars, theta);
      GroundBindableQuot(p, target, vars, theta);
    case PArray(_, _) =>
      GroundBindable(Under(p), target, vars, theta);
      GroundBindableUnder(p, target, vars, theta);
    case PRef(_, _) =>
      GroundBindable(Under(p), target, vars, theta);
      GroundBindableUnder(p, target, vars, theta);
    case PCell(_) =>
      GroundBindable(Under(p), target, vars, theta);
      GroundBindableUnder(p, target, vars, theta);
  }

  lemma GroundBindableLeaf(p: PolyType<Type>, target: PolyType<Type>, vars: seq<Option<PolyType<Type>>>,
        theta: seq<PolyType<Type>>)
    requires p.Var? || p.Concrete?
    requires MemberShape(p, vars) && VarsBindable(vars, theta) && Bindable(target, theta)
    ensures MemberShape(p, BindVars(vars, theta)) && Bindable(GroundMember(p, target, vars).value, theta)
  {
  }

  lemma GroundBindableArgs(p: PolyType<Type>, target: PolyType<Type>, vars: seq<Option<PolyType<Type>>>,
        theta: seq<PolyType<Type>>)
    requires p.PGeneric? || p.PApp?
    requires MemberShape(p, vars) && VarsBindable(vars, theta) && Bindable(target, theta) && HeadsStay(p, vars, theta)
    requires GroundMember(p, target, vars).Ok? && GroundMembers(p.args, target, vars).Ok?
    requires forall i :: 0 <= i < |p.args| ==>
               && MemberShape(p.args[i], BindVars(vars, theta))
               && Bindable(GroundMembers(p.args, target, vars).value[i], theta)
    ensures MemberShape(p, BindVars(vars, theta)) && Bindable(GroundMember(p, target, vars).value, theta)
  {
  }

  lemma GroundBindableUnder(p: PolyType<Type>, target: PolyType<Type>, vars: seq<Option<PolyType<Type>>>,
        theta: seq<PolyType<Type>>)
    requires p.PArray? || p.PRef? || p.PCell?
    requires MemberShape(p, vars) && VarsBindable(vars, theta) && GroundMember(p, target, vars).Ok?
    requires MemberShape(Under(p), vars) && GroundMember(Under(p), target, vars).Ok?
    requires MemberShape(Under(p), BindVars(vars, theta))
    requires Bindable(GroundMember(Under(p), target, vars).value, theta)
    ensures MemberShape(p, BindVars(vars, theta)) && Bindable(GroundMember(p, target, vars).value, theta)
  {
    hide BindVars, VarsBindable;
  }

  lemma GroundBindableQuot(p: PolyType<Type>, target: PolyType<Type>, vars: seq<Option<PolyType<Type>>>,
        theta: seq<PolyType<Type>>)
    requires p.PQuot? && MemberShape(p, vars) && VarsBindable(vars, theta) && GroundMember(p, target, vars).Ok?
    requires GroundMembers(p.ins, target, vars).Ok? && GroundMembers(p.outs, target, vars).Ok?
    requires forall i :: 0 <= i < |p.ins| ==>
               && MemberShape(p.ins[i], BindVars(vars, theta))
               && Bindable(GroundMembers(p.ins, target, vars).value[i], theta)
    requires forall i :: 0 <= i < |p.outs| ==>
               && MemberShape(p.outs[i], BindVars(vars, theta))
               && Bindable(GroundMembers(p.outs, target, vars).value[i], theta)
    ensures MemberShape(p, BindVars(vars, theta)) && Bindable(GroundMember(p, target, vars).value, theta)
  {
    hide BindVars, VarsBindable;
  }

  lemma {:induction false} GroundsBindable(ps: seq<PolyType<Type>>, target: PolyType<Type>,
        vars: seq<Option<PolyType<Type>>>, theta: seq<PolyType<Type>>)
    requires VarsBindable(vars, theta) && Bindable(target, theta)
    requires forall i :: 0 <= i < |ps| ==> MemberShape(ps[i], vars) && HeadsStay(ps[i], vars, theta)
    requires GroundMembers(ps, target, vars).Ok?
    ensures forall i :: 0 <= i < |ps| ==>
              MemberShape(ps[i], BindVars(vars, theta)) && Bindable(GroundMembers(ps, target, vars).value[i], theta)
    decreases ps
  {
    forall i | 0 <= i < |ps|
      ensures MemberShape(ps[i], BindVars(vars, theta)) && Bindable(GroundMembers(ps, target, vars).value[i], theta)
    {
      GroundBindable(ps[i], target, vars, theta);
    }
  }

  /** Instantiating a grounded signature is grounding against the instantiated target. */
  lemma {:induction false} GroundCommutes(p: PolyType<Type>, target: PolyType<Type>, vars: seq<Option<PolyType<Type>>>,
        theta: seq<PolyType<Type>>)
    requires MemberShape(p, vars) && VarsBindable(vars, theta) && Bindable(target, theta) && HeadsStay(p, vars, theta)
    requires GroundMember(p, target, vars).Ok?
    ensures MemberShape(p, BindVars(vars, theta)) && Bindable(GroundMember(p, target, vars).value, theta)
    ensures GroundMember(p, Bind(target, theta), BindVars(vars, theta)) ==
              Ok(Bind(GroundMember(p, target, vars).value, theta))
    decreases p
  {
    GroundBindable(p, target, vars, theta);
    StaysUnder(p, vars, theta);
    GroundUnder(p, target, vars);
    ShapeUnder(p, vars);
    hide MemberShape, HeadsStay, GroundMember, GroundMembers, Bindable, VarsBindable, BindVars, Bind, BindAll;
    match p
    case Concrete(_) => LeafCommutes(p, target, vars, theta);
    case Var(_) => LeafCommutes(p, target, vars, theta);
    case PGeneric(_, _, _, args, _) =>
      GroundsCommute(args, target, vars, theta);
      GenericCommutes(p, target, vars, theta);
    case PApp(_, args) =>
      GroundsCommute(args, target, vars, theta);
      AppCommutes(p, target, vars, theta);
    case PQuot(ins, outs, _) =>
      GroundsCommute(ins, target, vars, theta);
      GroundsCommute(outs, target, vars, theta);
      QuotCommutes(p, target, vars, theta);
    case PArray(_, _) =>
      GroundCommutes(Under(p), target, vars, theta);
      UnderCommutes(p, target, vars, theta);
    case PRef(_, _) =>
      GroundCommutes(Under(p), target, vars, theta);
      UnderCommutes(p, target, vars, theta);
    case PCell(_) =>
      GroundCommutes(Under(p), target, vars, theta);
      UnderCommutes(p, target, vars, theta);
  }

  lemma LeafCommutes(p: PolyType<Type>, target: PolyType<Type>, vars: seq<Option<PolyType<Type>>>,
        theta: seq<PolyType<Type>>)
    requires p.Var? || p.Concrete?
    requires MemberShape(p, vars) && VarsBindable(vars, theta) && Bindable(target, theta)
    requires MemberShape(p, BindVars(vars, theta)) && Bindable(GroundMember(p, target, vars).value, theta)
    ensures GroundMember(p, Bind(target, theta), BindVars(vars, theta)) ==
              Ok(Bind(GroundMember(p, target, vars).value, theta))
  {
  }

  lemma UnderCommutes(p: PolyType<Type>, target: PolyType<Type>, vars: seq<Option<PolyType<Type>>>,
        theta: seq<PolyType<Type>>)
    requires p.PArray? || p.PRef? || p.PCell?
    requires MemberShape(p, vars) && VarsBindable(vars, theta) && Bindable(target, theta)
    requires GroundMember(p, target, vars).Ok? && MemberShape(p, BindVars(vars, theta))
    requires Bindable(GroundMember(p, target, vars).value, theta)
    requires MemberShape(Under(p), vars) && MemberShape(Under(p), BindVars(vars, theta))
    requires GroundMember(Under(p), target, vars).Ok?
    requires Bindable(GroundMember(Under(p), target, vars).value, theta)
    requires GroundMember(Under(p), Bind(target, theta), BindVars(vars, theta)) ==
               Ok(Bind(GroundMember(Under(p), target, vars).value, theta))
    ensures GroundMember(p, Bind(target, theta), BindVars(vars, theta)) ==
              Ok(Bind(GroundMember(p, target, vars).value, theta))
  {
    hide MemberShape, Bindable, BindVars, VarsBindable;
  }

  lemma GenericCommutes(p: PolyType<Type>, target: PolyType<Type>, vars: seq<Option<PolyType<Type>>>,
        theta: seq<PolyType<Type>>)
    requires p.PGeneric? && MemberShape(p, vars) && VarsBindable(vars, theta) && Bindable(target, theta)
    requires GroundMember(p, target, vars).Ok? && MemberShape(p, BindVars(vars, theta))
    requires Bindable(GroundMember(p, target, vars).value, theta)
    requires forall i :: 0 <= i < |p.args| ==> MemberShape(p.args[i], vars)
    requires forall i :: 0 <= i < |p.args| ==> MemberShape(p.args[i], BindVars(vars, theta))
    requires GroundMembers(p.args, target, vars).Ok?
    requires forall i :: 0 <= i < |p.args| ==> Bindable(GroundMembers(p.args, target, vars).value[i], theta)
    requires GroundMembers(p.args, Bind(target, theta), BindVars(vars, theta)) ==
               Ok(BindAll(GroundMembers(p.args, target, vars).value, theta))
    ensures GroundMember(p, Bind(target, theta), BindVars(vars, theta)) ==
              Ok(Bind(GroundMember(p, target, vars).value, theta))
  {
    hide MemberShape, Bindable, BindVars, VarsBindable, GroundMembers, BindAll;
  }

  lemma QuotCommutes(p: PolyType<Type>, target: PolyType<Type>, vars: seq<Option<PolyType<Type>>>,
        theta: seq<PolyType<Type>>)
    requires p.PQuot? && MemberShape(p, vars) && VarsBindable(vars, theta) && Bindable(target, theta)
    requires GroundMember(p, target, vars).Ok? && MemberShape(p, BindVars(vars, theta))
    requires Bindable(GroundMember(p, target, vars).value, theta)
    requires forall i :: 0 <= i < |p.ins| ==> MemberShape(p.ins[i], vars)
    requires forall i :: 0 <= i < |p.outs| ==> MemberShape(p.outs[i], vars)
    requires forall i :: 0 <= i < |p.ins| ==> MemberShape(p.ins[i], BindVars(vars, theta))
    requires forall i :: 0 <= i < |p.outs| ==> MemberShape(p.outs[i], BindVars(vars, theta))
    requires GroundMembers(p.ins, target, vars).Ok? && GroundMembers(p.outs, target, vars).Ok?
    requires forall i :: 0 <= i < |p.ins| ==> Bindable(GroundMembers(p.ins, target, vars).value[i], theta)
    requires forall i :: 0 <= i < |p.outs| ==> Bindable(GroundMembers(p.outs, target, vars).value[i], theta)
    requires GroundMembers(p.ins, Bind(target, theta), BindVars(vars, theta)) ==
               Ok(BindAll(GroundMembers(p.ins, target, vars).value, theta))
    requires GroundMembers(p.outs, Bind(target, theta), BindVars(vars, theta)) ==
               Ok(BindAll(GroundMembers(p.outs, target, vars).value, theta))
    ensures GroundMember(p, Bind(target, theta), BindVars(vars, theta)) ==
              Ok(Bind(GroundMember(p, target, vars).value, theta))
  {
    hide MemberShape, Bindable, BindVars, VarsBindable, GroundMembers, BindAll;
  }

  lemma AppCommutes(p: PolyType<Type>, target: PolyType<Type>, vars: seq<Option<PolyType<Type>>>,
        theta: seq<PolyType<Type>>)
    requires p.PApp? && MemberShape(p, vars) && VarsBindable(vars, theta) && Bindable(target, theta)
    requires HeadsStay(p, vars, theta)
    requires GroundMember(p, target, vars).Ok?
    requires MemberShape(p, BindVars(vars, theta)) && Bindable(GroundMember(p, target, vars).value, theta)
    requires forall i :: 0 <= i < |p.args| ==> Bindable(GroundMembers(p.args, target, vars).value[i], theta)
    requires GroundMembers(p.args, Bind(target, theta), BindVars(vars, theta)) ==
               Ok(BindAll(GroundMembers(p.args, target, vars).value, theta))
    ensures GroundMember(p, Bind(target, theta), BindVars(vars, theta)) ==
              Ok(Bind(GroundMember(p, target, vars).value, theta))
  {
    if p.head == 0 {
      BindLeading(GroundMembers(p.args, target, vars).value, target.args, theta);
    }
  }

  lemma BindLeading(gs: seq<PolyType<Type>>, rest: seq<PolyType<Type>>, theta: seq<PolyType<Type>>)
    requires |gs| <= |rest|
    requires forall i :: 0 <= i < |gs| ==> Bindable(gs[i], theta)
    requires forall i :: 0 <= i < |rest| ==> Bindable(rest[i], theta)
    ensures BindAll(gs + rest[|gs|..], theta) == BindAll(gs, theta) + BindAll(rest, theta)[|gs|..]
  {
    hide Bind, Bindable, BindAll;
    var all := gs + rest[|gs|..];
    var left, right := BindAll(all, theta), BindAll(gs, theta) + BindAll(rest, theta)[|gs|..];
    forall i | 0 <= i < |rest| ensures left[i] == right[i] {
      assert all[i] == if i < |gs| then gs[i] else rest[i];
    }
    assert |left| == |right| == |rest|;
  }

  lemma {:induction false} GroundsCommute(ps: seq<PolyType<Type>>, target: PolyType<Type>,
        vars: seq<Option<PolyType<Type>>>, theta: seq<PolyType<Type>>)
    requires VarsBindable(vars, theta) && Bindable(target, theta)
    requires forall i :: 0 <= i < |ps| ==> MemberShape(ps[i], vars) && HeadsStay(ps[i], vars, theta)
    requires GroundMembers(ps, target, vars).Ok?
    ensures forall i :: 0 <= i < |ps| ==>
              MemberShape(ps[i], BindVars(vars, theta)) && Bindable(GroundMembers(ps, target, vars).value[i], theta)
    ensures GroundMembers(ps, Bind(target, theta), BindVars(vars, theta)) ==
              Ok(BindAll(GroundMembers(ps, target, vars).value, theta))
    decreases ps
  {
    GroundsBindable(ps, target, vars, theta);
    if ps != [] {
      GroundCommutes(ps[0], target, vars, theta);
      GroundsCommute(ps[1..], target, vars, theta);
      var gs := GroundMembers(ps, target, vars).value;
      assert gs[1..] == GroundMembers(ps[1..], target, vars).value;
      assert BindAll(gs, theta) == [Bind(gs[0], theta)] + BindAll(gs[1..], theta);
    }
  }

  // ---------------------------------------------------------------- what a grounded member means

  /** The member's meaning read off the ground target alone: a bare mention of the trait variable is the
      target, an n-ary application replaces the n leading arguments the target was minted at. */
  function MemberMeaning(w: World, p: PolyType<Type>, target: Type, locals: seq<Option<Type>>,
        lens: seq<nat>): Option<Type>
    decreases p
  {
    match p
    case Concrete(t) => Some(t)
    case Var(v) => if v < |locals| then (match locals[v] case None => Some(target) case Some(t) => Some(t)) else None
    case PArray(elem, len) =>
      (match (MemberMeaning(w, elem, target, locals, lens), LenValue(len, lens))
       case (Some(t), Some(n)) =>
         (var i := IndexOf(w.shapes.arrays, ArrayDecl(t, n)); if i < |w.shapes.arrays| then Some(Array(i)) else None)
       case _ => None)
    case PRef(referent, mutable) =>
      (match MemberMeaning(w, referent, target, locals, lens)
       case Some(t) =>
         (var i := IndexOf(w.shapes.refs, BorrowDecl(t, mutable));
          if i < |w.shapes.refs| then Some(Ref(i, mutable)) else None)
       case None => None)
    case PCell(payload) =>
      (match MemberMeaning(w, payload, target, locals, lens)
       case Some(t) => (var i := IndexOf(w.shapes.cells, t); if i < |w.shapes.cells| then Some(Cell(i)) else None)
       case None => None)
    case PGeneric(isEnum, idx, modId, args, glens) =>
      (match (MemberMeanings(w, args, target, locals, lens), LenValues(glens, lens))
       case (Some(ts), Some(ns)) => Lookup(w, App(isEnum, Key(idx, modId, ts, ns)))
       case _ => None)
    case PQuot(ins, outs, inline) =>
      (match (MemberMeanings(w, ins, target, locals, lens), MemberMeanings(w, outs, target, locals, lens))
       case (Some(i), Some(o)) => Some(Quot(i, o, if inline then Inline else Plain))
       case _ => None)
    case PApp(head, args) =>
      (match MemberMeanings(w, args, target, locals, lens)
       case None => None
       case Some(ts) =>
         if head == 0 then
           if !target.Nominal? then None
           else
             match InstantiationOf(w, target.isEnum, target.id)
             case None => None
             case Some(k) =>
               if |ts| > |k.args| then None
               else Lookup(w, App(target.isEnum, Key(k.idx, k.modId, ts + k.args[|ts|..], k.lens)))
         else if head < |locals| && locals[head].Some? then
           match locals[head].value
           case Ctor(isEnum, idx, modId) => Lookup(w, App(isEnum, Key(idx, modId, ts, [])))
           case other => Some(other)
         else None)
    case PQuotLit => None
    case PVariant(_, _, _, _, _) => None
  }

  function MemberMeanings(w: World, ps: seq<PolyType<Type>>, target: Type, locals: seq<Option<Type>>,
        lens: seq<nat>): (r: Option<seq<Type>>)
    ensures r.Some? ==> |r.value| == |ps|
    decreases ps
  {
    if ps == [] then Some([])
    else
      match (MemberMeaning(w, ps[0], target, locals, lens), MemberMeanings(w, ps[1..], target, locals, lens))
      case (Some(t), Some(ts)) => Some([t] + ts)
      case _ => None
  }

  /** The target and every rendered local ground to `t` and `locals` under `theta`. */
  ghost predicate InstanceOf(w: World, target: PolyType<Type>, vars: seq<Option<PolyType<Type>>>, theta: seq<Type>,
        lens: seq<nat>, t: Type, locals: seq<Option<Type>>) {
    && Denote(w, target, theta, lens) == Some(t)
    && |locals| == |vars|
    && forall v :: 0 <= v < |vars| ==>
         if vars[v].None? then locals[v].None?
         else locals[v].Some? && Denote(w, vars[v].value, theta, lens) == locals[v]
  }

  /** A grounded member signature, read at any instance of the impl's variables, is the member evaluated at
      the instance of the target. */
  lemma {:induction false} GroundedMeaning(w: World, open: set<App>, p: PolyType<Type>, target: PolyType<Type>,
        vars: seq<Option<PolyType<Type>>>, theta: seq<Type>, lens: seq<nat>, t: Type, locals: seq<Option<Type>>)
    requires Inv(w, open) && MemberShape(p, vars) && InstanceOf(w, target, vars, theta, lens, t, locals)
    requires GroundMember(p, target, vars).Ok?
    ensures Denote(w, GroundMember(p, target, vars).value, theta, lens) == MemberMeaning(w, p, t, locals, lens)
    decreases p
  {
    GroundUnder(p, target, vars);
    ShapeUnder(p, vars);
    hide Inv, MemberShape, GroundMember, GroundMembers, InstanceOf, Denote, DenoteAll, MemberMeaning, MemberMeanings;
    match p
    case Concrete(_) => LeafMeaning(w, p, target, vars, theta, lens, t, locals);
    case Var(_) => LeafMeaning(w, p, target, vars, theta, lens, t, locals);
    case PGeneric(_, _, _, args, _) =>
      GroundedMeanings(w, open, args, target, vars, theta, lens, t, locals);
      GenericMeaning(w, p, target, vars, theta, lens, t, locals);
    case PApp(_, args) =>
      GroundedMeanings(w, open, args, target, vars, theta, lens, t, locals);
      AppMeaning(w, open, p, target, vars, theta, lens, t, locals);
    case PQuot(ins, outs, _) =>
      GroundedMeanings(w, open, ins, target, vars, theta, lens, t, locals);
      GroundedMeanings(w, open, outs, target, vars, theta, lens, t, locals);
      QuotMeaning(w, p, target, vars, theta, lens, t, locals);
    case PArray(_, _) =>
      GroundedMeaning(w, open, Under(p), target, vars, theta, lens, t, locals);
      UnderMeaning(w, p, target, vars, theta, lens, t, locals);
    case PRef(_, _) =>
      GroundedMeaning(w, open, Under(p), target, vars, theta, lens, t, locals);
      UnderMeaning(w, p, target, vars, theta, lens, t, locals);
    case PCell(_) =>
      GroundedMeaning(w, open, Under(p), target, vars, theta, lens, t, locals);
      UnderMeaning(w, p, target, vars, theta, lens, t, locals);
  }

  lemma LeafMeaning(w: World, p: PolyType<Type>, target: PolyType<Type>, vars: seq<Option<PolyType<Type>>>,
        theta: seq<Type>, lens: seq<nat>, t: Type, locals: seq<Option<Type>>)
    requires p.Var? || p.Concrete?
    requires MemberShape(p, vars) && InstanceOf(w, target, vars, theta, lens, t, locals)
    ensures Denote(w, GroundMember(p, target, vars).value, theta, lens) == MemberMeaning(w, p, t, locals, lens)
  {
  }

  lemma UnderMeaning(w: World, p: PolyType<Type>, target: PolyType<Type>, vars: seq<Option<PolyType<Type>>>,
        theta: seq<Type>, lens: seq<nat>, t: Type, locals: seq<Option<Type>>)
    requires p.PArray? || p.PRef? || p.PCell?
    requires MemberShape(p, vars) && GroundMember(p, target, vars).Ok?
    requires MemberShape(Under(p), vars) && GroundMember(Under(p), target, vars).Ok?
    requires Denote(w, GroundMember(Under(p), target, vars).value, theta, lens) ==
               MemberMeaning(w, Under(p), t, locals, lens)
    ensures Denote(w, GroundMember(p, target, vars).value, theta, lens) == MemberMeaning(w, p, t, locals, lens)
  {
    hide MemberShape;
  }

  lemma GenericMeaning(w: World, p: PolyType<Type>, target: PolyType<Type>, vars: seq<Option<PolyType<Type>>>,
        theta: seq<Type>, lens: seq<nat>, t: Type, locals: seq<Option<Type>>)
    requires p.PGeneric? && MemberShape(p, vars) && GroundMember(p, target, vars).Ok?
    requires forall i :: 0 <= i < |p.args| ==> MemberShape(p.args[i], vars)
    requires GroundMembers(p.args, target, vars).Ok?
    requires DenoteAll(w, GroundMembers(p.args, target, vars).value, theta, lens) ==
               MemberMeanings(w, p.args, t, locals, lens)
    ensures Denote(w, GroundMember(p, target, vars).value, theta, lens) == MemberMeaning(w, p, t, locals, lens)
  {
    hide MemberShape, GroundMembers, DenoteAll, MemberMeanings, Lookup;
  }

  lemma QuotMeaning(w: World, p: PolyType<Type>, target: PolyType<Type>, vars: seq<Option<PolyType<Type>>>,
        theta: seq<Type>, lens: seq<nat>, t: Type, locals: seq<Option<Type>>)
    requires p.PQuot? && MemberShape(p, vars) && GroundMember(p, target, vars).Ok?
    requires forall i :: 0 <= i < |p.ins| ==> MemberShape(p.ins[i], vars)
    requires forall i :: 0 <= i < |p.outs| ==> MemberShape(p.outs[i], vars)
    requires GroundMembers(p.ins, target, vars).Ok? && GroundMembers(p.outs, target, vars).Ok?
    requires DenoteAll(w, GroundMembers(p.ins, target, vars).value, theta, lens) ==
               MemberMeanings(w, p.ins, t, locals, lens)
    requires DenoteAll(w, GroundMembers(p.outs, target, vars).value, theta, lens) ==
               MemberMeanings(w, p.outs, t, locals, lens)
    ensures Denote(w, GroundMember(p, target, vars).value, theta, lens) == MemberMeaning(w, p, t, locals, lens)
  {
    hide MemberShape, GroundMembers, DenoteAll, MemberMeanings;
  }

  lemma AppMeaning(w: World, open: set<App>, p: PolyType<Type>, target: PolyType<Type>,
        vars: seq<Option<PolyType<Type>>>, theta: seq<Type>, lens: seq<nat>, t: Type, locals: seq<Option<Type>>)
    requires p.PApp? && Inv(w, open) && MemberShape(p, vars) && InstanceOf(w, target, vars, theta, lens, t, locals)
    requires GroundMember(p, target, vars).Ok?
    requires DenoteAll(w, GroundMembers(p.args, target, vars).value, theta, lens) ==
               MemberMeanings(w, p.args, t, locals, lens)
    ensures Denote(w, GroundMember(p, target, vars).value, theta, lens) == MemberMeaning(w, p, t, locals, lens)
  {
    hide Inv;
    if p.head == 0 {
      LeadingSlots(w, open, GroundMembers(p.args, target, vars).value, target, theta, lens, t);
    }
  }

  lemma {:induction false} GroundedMeanings(w: World, open: set<App>, ps: seq<PolyType<Type>>, target: PolyType<Type>,
        vars: seq<Option<PolyType<Type>>>, theta: seq<Type>, lens: seq<nat>, t: Type, locals: seq<Option<Type>>)
    requires Inv(w, open) && InstanceOf(w, target, vars, theta, lens, t, locals)
    requires forall i :: 0 <= i < |ps| ==> MemberShape(ps[i], vars)
    requires GroundMembers(ps, target, vars).Ok?
    ensures DenoteAll(w, GroundMembers(ps, target, vars).value, theta, lens) == MemberMeanings(w, ps, t, locals, lens)
    decreases ps
  {
    hide Inv;
    if ps != [] {
      GroundedMeaning(w, open, ps[0], target, vars, theta, lens, t, locals);
      GroundedMeanings(w, open, ps[1..], target, vars, theta, lens, t, locals);
      assert GroundMembers(ps, target, vars).value[1..] == GroundMembers(ps[1..], target, vars).value;
    }
  }

  lemma {:induction false} DenoteAllConcat(w: World, a: seq<PolyType<Type>>, b: seq<PolyType<Type>>, theta: seq<Type>,
        lens: seq<nat>)
    requires DenoteAll(w, b, theta, lens).Some?
    ensures DenoteAll(w, a + b, theta, lens) ==
            match DenoteAll(w, a, theta, lens)
            case None => None
            case Some(ts) => Some(ts + DenoteAll(w, b, theta, lens).value)
  {
    hide Denote, DenoteAll;
    if DenoteAll(w, a, theta, lens).Some? {
      DenoteAllIs(w, a + b, theta, lens, DenoteAll(w, a, theta, lens).value + DenoteAll(w, b, theta, lens).value);
    } else {
      var i :| 0 <= i < |a| && Denote(w, a[i], theta, lens) == None;
      assert (a + b)[i] == a[i];
    }
  }

  /** Replacing a constructor's leading arguments reads back through the id it was minted under. */
  lemma LeadingSlots(w: World, open: set<App>, gs: seq<PolyType<Type>>, target: PolyType<Type>, theta: seq<Type>,
        lens: seq<nat>, t: Type)
    requires Inv(w, open) && target.PGeneric? && |gs| <= |target.args| && Denote(w, target, theta, lens) == Some(t)
    ensures t.Nominal? && t.isEnum == target.isEnum && InstantiationOf(w, t.isEnum, t.id).Some?
    ensures var k := InstantiationOf(w, t.isEnum, t.id).value;
            |k.args| == |target.args| &&
            Denote(w, PGeneric(target.isEnum, target.idx, target.modId, gs + target.args[|gs|..], target.lens), theta,
                   lens) ==
            match DenoteAll(w, gs, theta, lens)
            case None => None
            case Some(ts) => Lookup(w, App(t.isEnum, Key(k.idx, k.modId, ts + k.args[|gs|..], k.lens)))
  {
    hide Inv;
    var as_ := DenoteAll(w, target.args, theta, lens).value;
    var a := App(target.isEnum, Key(target.idx, target.modId, as_, LenValues(target.lens, lens).value));
    LookupsInverse(w, open, a, 0);
    LookupsInverse(w, open, a, t.id);
    var rest := target.args[|gs|..];
    DenoteAllIs(w, rest, theta, lens, as_[|gs|..]);
    DenoteAllConcat(w, gs, rest, theta, lens);
  }
}
