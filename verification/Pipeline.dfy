/** The legal history the driver and checker run: a parse-time batch is flushed and rebased, then every
    checked body gets its own rebase, mints and flush. */
module Pipeline {
  import opened Types
  import opened Worlds
  import opened Invariant
  import opened Steps
  import opened History
  import opened Instantiator

  /** Between brackets: nothing staged, no placeholder, every table settled. */
  ghost predicate Settled(w: World) {
    Inv(w, {}) && w.structs.insts == [] && w.enums.insts == [] && w.structs.pending == [] && w.enums.pending == []
  }

  /** How a world moves through a bracket: the headers stay, the tables and registries only grow. */
  ghost predicate Later(a: World, b: World) {
    && Inv(a, {}) && Inv(b, {}) && Evolves(a, b) && TablesGrow(a, b)
    && a.structs.headers == b.structs.headers && a.enums.headers == b.enums.headers
    && a.structs.pending == b.structs.pending && a.enums.pending == b.enums.pending
  }

  lemma LaterTrans(a: World, b: World, c: World)
    requires Later(a, b) && Later(b, c)
    ensures Later(a, c)
  {
    hide Inv, Evolves;
    EvolvesTrans(a, b, c);
  }

  lemma GrowIsLater(a: World, b: World)
    requires Inv(a, {}) && Inv(b, {}) && Grow(a, b)
    ensures Later(a, b)
  {
    GrowEvolves(a, b);
  }

  lemma LaterDenotes(a: World, b: World, p: PolyType<Type>, t: Type)
    requires Later(a, b) && Denote(a, p, [], []) == Some(t)
    ensures Denote(b, p, [], []) == Some(t)
  {
    DenoteGrows(a, b, p, [], []);
  }

  lemma LaterVarFree(a: World, b: World, p: PolyType<Type>)
    requires Later(a, b) && VarFree(a, p)
    ensures VarFree(b, p)
  {
    VarFreeExtends(a, b, p);
  }

  ghost predicate Answers(w: World, requests: seq<PolyType<Type>>, tys: seq<Type>) {
    |tys| == |requests| && forall r :: 0 <= r < |requests| ==> Denote(w, requests[r], [], []) == Some(tys[r])
  }

  lemma AnswersStay(a: World, b: World, requests: seq<PolyType<Type>>, tys: seq<Type>)
    requires Later(a, b) && Answers(a, requests, tys)
    ensures Answers(b, requests, tys)
  {
    forall r | 0 <= r < |requests| ensures Denote(b, requests[r], [], []) == Some(tys[r]) {
      LaterDenotes(a, b, requests[r], tys[r]);
    }
  }

  /** One body's mints, inside its bracket. */
  method GroundAll(g: GenericTypes, regs: Registries, requests: seq<PolyType<Type>>) returns (tys: seq<Type>)
    requires Inv(g.Snap(regs), {}) && Based(g.Snap(regs))
    requires forall r :: 0 <= r < |requests| ==> VarFree(g.Snap(regs), requests[r])
    modifies g, regs`arrays, regs`cells, regs`refs
    ensures Later(old(g.Snap(regs)), g.Snap(regs)) && Answers(g.Snap(regs), requests, tys)
  {
    hide Inv, Based, Grow, Later, Evolves;
    ghost var w := g.Snap(regs);
    GrowRefl(w);
    GrowIsLater(w, w);
    tys := [];
    for r := 0 to |requests|
      invariant Inv(g.Snap(regs), {}) && Based(g.Snap(regs)) && Later(w, g.Snap(regs))
      invariant |tys| == r && Answers(g.Snap(regs), requests[..r], tys)
    {
      ghost var w1 := g.Snap(regs);
      LaterVarFree(w, w1, requests[r]);
      var t := g.GroundVarFree(requests[r], regs);
      GrowIsLater(w1, g.Snap(regs));
      LaterTrans(w, w1, g.Snap(regs));
      AnswersStay(w1, g.Snap(regs), requests[..r], tys);
      assert requests[..r + 1] == requests[..r] + [requests[r]];
      tys := tys + [t];
    }
    assert requests[..|requests|] == requests;
  }

  /** `rebase`, check one body, flush both batches. */
  method CheckBody(g: GenericTypes, regs: Registries, requests: seq<PolyType<Type>>) returns (tys: seq<Type>)
    requires Settled(g.Snap(regs))
    requires forall r :: 0 <= r < |requests| ==> VarFree(g.Snap(regs), requests[r])
    modifies g, regs
    ensures Settled(g.Snap(regs)) && Later(old(g.Snap(regs)), g.Snap(regs)) && Answers(g.Snap(regs), requests, tys)
  {
    hide Inv, Grow, Evolves, Based;
    ghost var w := g.Snap(regs);
    g.Rebase(|regs.structs|, |regs.enums|, regs);
    ghost var w1 := g.Snap(regs);
    assert Later(w, w1);
    forall r | 0 <= r < |requests| ensures VarFree(w1, requests[r]) { LaterVarFree(w, w1, requests[r]); }
    tys := GroundAll(g, regs, requests);
    ghost var w2 := g.Snap(regs);
    g.Flush(false, regs);
    ghost var w3 := g.Snap(regs);
    assert Later(w2, w3);
    g.Flush(true, regs);
    ghost var w4 := g.Snap(regs);
    assert Later(w3, w4);
    LaterTrans(w, w1, w2);
    LaterTrans(w, w2, w3);
    LaterTrans(w, w3, w4);
    LaterTrans(w2, w3, w4);
    AnswersStay(w2, w4, requests, tys);
  }

  /** The whole check: any list of bodies, each with any list of mints. Every type handed out in any bracket
      still names the same declaration, with the same fields, at the end. */
  method CheckModule(g: GenericTypes, regs: Registries, bodies: seq<seq<PolyType<Type>>>)
    returns (answers: seq<seq<Type>>)
    requires Settled(g.Snap(regs))
    requires forall b, r :: 0 <= b < |bodies| && 0 <= r < |bodies[b]| ==> VarFree(g.Snap(regs), bodies[b][r])
    modifies g, regs
    ensures Settled(g.Snap(regs)) && Later(old(g.Snap(regs)), g.Snap(regs))
    ensures |answers| == |bodies| && forall b :: 0 <= b < |bodies| ==> Answers(g.Snap(regs), bodies[b], answers[b])
  {
    hide Settled, Later, Answers, Grow;
    ghost var w := g.Snap(regs);
    SettledLater(w);
    answers := [];
    for b := 0 to |bodies|
      invariant Settled(g.Snap(regs)) && Later(w, g.Snap(regs))
      invariant |answers| == b && forall i :: 0 <= i < b ==> Answers(g.Snap(regs), bodies[i], answers[i])
    {
      ghost var w1 := g.Snap(regs);
      forall r | 0 <= r < |bodies[b]| ensures VarFree(w1, bodies[b][r]) { LaterVarFree(w, w1, bodies[b][r]); }
      var tys := CheckBody(g, regs, bodies[b]);
      forall i | 0 <= i < b ensures Answers(g.Snap(regs), bodies[i], answers[i]) {
        AnswersStay(w1, g.Snap(regs), bodies[i], answers[i]);
      }
      LaterTrans(w, w1, g.Snap(regs));
      answers := answers + [tys];
    }
  }

  lemma SettledLater(w: World)
    requires Settled(w)
    ensures Later(w, w)
  {
    GrowIsLater(w, w);
  }
}
