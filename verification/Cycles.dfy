/** Import-cycle rejection: a three-colour depth-first search over the closure's resolved import targets. */
module Cycles {
  import opened Types
  import opened Walks

  /** For each module, its import targets in written order; `None` adds no edge. */
  type Targets = seq<seq<Option<nat>>>

  ghost predicate Bounded(g: Targets) {
    forall u, k :: 0 <= u < |g| && 0 <= k < |g[u]| && g[u][k].Some? ==> g[u][k].value < |g|
  }

  ghost predicate HasEdge(g: Targets, u: nat, v: nat) {
    u < |g| && Some(v) in g[u]
  }

  ghost function ImportEdges(g: Targets): Edges<nat> { (u: nat, v: nat) => HasEdge(g, u, v) }

  /** An import that closes a cycle. */
  datatype CycleError = CycleError(importer: nat, target: nat)

  ghost predicate ClosesCycle(g: Targets, e: CycleError) {
    HasEdge(g, e.importer, e.target) && Reaches(ImportEdges(g), e.target, e.importer)
  }

  // ---------------------------------------------------------------- the search state

  /** `grey` is the stack of calls in progress, `done` the finished modules in finishing order. */
  ghost predicate Colours(state: seq<int>, grey: seq<nat>, done: seq<nat>) {
    && (forall i :: 0 <= i < |grey| ==> grey[i] < |state|) && (forall i :: 0 <= i < |done| ==> done[i] < |state|)
    && Distinct(grey) && Distinct(done)
    && (forall u :: 0 <= u < |state| ==>
          0 <= state[u] <= 2 && (state[u] == 1 <==> u in grey) && (state[u] == 2 <==> u in done))
  }

  ghost predicate GreyPath(g: Targets, grey: seq<nat>) {
    forall i :: 0 <= i < |grey| - 1 ==> HasEdge(g, grey[i], grey[i + 1])
  }

  /** Every import of a finished module finished before it. */
  ghost predicate FinishOrder(g: Targets, done: seq<nat>) {
    forall i, v :: 0 <= i < |done| && HasEdge(g, done[i], v) ==> v in done[..i]
  }

  lemma GreyReaches(g: Targets, grey: seq<nat>, i: nat)
    requires GreyPath(g, grey) && i < |grey|
    ensures Reaches(ImportEdges(g), grey[i], grey[|grey| - 1])
  {
    var p := grey[i..];
    forall k | 0 <= k < |p| - 1 ensures ImportEdges(g)(p[k], p[k + 1]) {
      assert HasEdge(g, grey[i + k], grey[i + k + 1]);
    }
    assert WalkFrom(ImportEdges(g), p, grey[i], grey[|grey| - 1]);
  }

  function Position(s: seq<nat>, x: nat): (r: nat)
    ensures r <= |s| && (x in s ==> r < |s| && s[r] == x)
  {
    if s == [] || s[0] == x then 0 else 1 + Position(s[1..], x)
  }

  /** A finishing order of all modules certifies that there is no cycle. */
  lemma FinishedIsAcyclic(g: Targets, done: seq<nat>)
    requires Bounded(g) && Distinct(done) && FinishOrder(g, done)
    requires forall u :: 0 <= u < |g| ==> u in done
    ensures Acyclic(ImportEdges(g))
  {
    var rank: nat -> int := (u: nat) => Position(done, u);
    forall u, v | ImportEdges(g)(u, v) ensures rank(v) < rank(u) {
      var i := Position(done, u);
      assert HasEdge(g, done[i], v);
      var j :| 0 <= j < |done[..i]| && done[..i][j] == v;
      assert done[j] == v && done[Position(done, v)] == v;
    }
    RankedIsAcyclic(ImportEdges(g), rank);
  }

  function White(state: seq<int>): set<nat> {
    set u: nat | u < |state| && state[u] == 0
  }

  lemma WhiteShrinks(before: seq<int>, grey: seq<nat>, done: seq<nat>, after: seq<int>, u: nat, finished: seq<nat>)
    requires Colours(before, grey, done) && Colours(after, grey + [u], finished) && |before| == |after|
    requires u < |before| && before[u] == 0 && done <= finished
    ensures |White(after)| < |White(before)|
  {
    assert (grey + [u])[|grey|] == u;
    forall v | v in White(after) ensures v in White(before) {
      assert v in grey ==> v in grey + [u];
    }
    SubsetSize(White(after), White(before) - {u});
  }

  lemma Enter(g: Targets, before: seq<int>, grey: seq<nat>, done: seq<nat>, u: nat)
    requires Colours(before, grey, done) && u < |before| && before[u] == 0
    ensures Colours(before[u := 1], grey + [u], done)
  {
  }

  lemma Finish(g: Targets, at: seq<int>, grey: seq<nat>, done: seq<nat>, u: nat)
    requires Colours(at, grey + [u], done) && FinishOrder(g, done) && u < |g| == |at|
    requires forall j :: 0 <= j < |g[u]| && g[u][j].Some? ==> g[u][j].value in done
    ensures Colours(at[u := 2], grey, done + [u]) && FinishOrder(g, done + [u])
  {
    var path := grey + [u];
    assert path[|grey|] == u && u in path;
    assert forall i :: 0 <= i < |grey| ==> path[i] == grey[i];
    forall i, v | 0 <= i < |done + [u]| && HasEdge(g, (done + [u])[i], v) ensures v in (done + [u])[..i] {
      assert (done + [u])[..i] == done[..i];
      if i == |done| {
        var j :| 0 <= j < |g[u]| && g[u][j] == Some(v);
        assert done[..i] == done;
      }
    }
  }

  /** Visit `u`, whose callers are `grey`; the ghost results are the finishing order it leaves. */
  method DfsDetect(g: Targets, u: nat, state: array<int>, ghost grey: seq<nat>, ghost done: seq<nat>)
    returns (r: Result<bool, CycleError>, ghost finished: seq<nat>)
    requires Bounded(g) && state.Length == |g| && u < |g| && state[u] == 0
    requires Colours(state[..], grey, done) && GreyPath(g, grey + [u]) && FinishOrder(g, done)
    modifies state
    ensures r.Err? ==> ClosesCycle(g, r.error)
    ensures r.Ok? ==>
              Colours(state[..], grey, finished) && FinishOrder(g, finished) && done <= finished && u in finished
    decreases |White(state[..])|
  {
    hide Colours, FinishOrder, White, GreyPath;
    ghost var before := state[..];
    ghost var path := grey + [u];
    finished := done;
    assert state[u] == 0;
    Enter(g, state[..], grey, done, u);
    state[u] := 1;
    assert state[..] == before[u := 1];
    for k := 0 to |g[u]|
      invariant Colours(state[..], path, finished) && FinishOrder(g, finished) && done <= finished
      invariant forall j :: 0 <= j < k && g[u][j].Some? ==> g[u][j].value in finished
    {
      WhiteShrinks(before, grey, done, state[..], u, finished);
      if g[u][k].Some? {
        var v := g[u][k].value;
        assert HasEdge(g, u, v);
        ColourOf(state[..], path, finished, v);
        assert state[..][v] == state[v];
        if state[v] == 1 {
          ghost var i :| 0 <= i < |path| && path[i] == v;
          GreyReaches(g, path, i);
          return Err(CycleError(u, v)), finished;
        }
        if state[v] == 0 {
          GreyExtends(g, path, v);
          r, finished := DfsDetect(g, v, state, path, finished);
          if r.Err? { return r, finished; }
        }
      }
    }
    Finish(g, state[..], grey, finished, u);
    ghost var last := state[..];
    state[u] := 2;
    assert state[..] == last[u := 2];
    finished := finished + [u];
    return Ok(true), finished;
  }

  lemma GreyExtends(g: Targets, path: seq<nat>, v: nat)
    requires GreyPath(g, path) && (path != [] ==> HasEdge(g, path[|path| - 1], v))
    ensures GreyPath(g, path + [v])
  {
  }

  lemma ColourOf(state: seq<int>, grey: seq<nat>, done: seq<nat>, u: nat)
    requires Colours(state, grey, done) && u < |state|
    ensures 0 <= state[u] <= 2 && (state[u] == 1 <==> u in grey) && (state[u] == 2 <==> u in done)
  {
  }

  /** Rejects exactly the graphs with a cycle, naming an import that closes one; when it accepts, every
      module ended up finished. */
  method RejectCycles(g: Targets) returns (r: Result<bool, CycleError>, ghost done: seq<nat>)
    requires Bounded(g)
    ensures r.Ok? <==> Acyclic(ImportEdges(g))
    ensures r.Ok? ==> FinishOrder(g, done) && forall u :: 0 <= u < |g| ==> u in done
    ensures r.Err? ==> ClosesCycle(g, r.error)
  {
    var state := new int[|g|](_ => 0);
    done := [];
    for start := 0 to |g|
      invariant Colours(state[..], [], done) && FinishOrder(g, done)
      invariant forall u :: 0 <= u < start ==> u in done
    {
      if state[start] == 0 {
        r, done := DfsDetect(g, start, state, [], done);
        if r.Err? {
          BackEdgeIsCycle(ImportEdges(g), r.error.importer, r.error.target);
          return;
        }
      }
    }
    assert forall u :: 0 <= u < |g| ==> state[..][u] == 2;
    FinishedIsAcyclic(g, done);
    r := Ok(true);
  }
}
