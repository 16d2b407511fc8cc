/** Import-closure discovery: a worklist over the growing list of files, each given an id when first met. */
module Closure {
  import opened Types
  import opened Walks
  import opened Cycles

  type File = string
  type Import = nat

  datatype Fault =
    | Unreadable(file: File)
    | NoSite(file: File)
    | BadImport(file: File, imp: Import)
    | Cyclic(importer: File, target: File)

  /** What an import line of a file resolves to. `Declined` adds no edge but is recorded for the audit. */
  datatype Resolved = Edge(file: File) | NoEdge | Declined | Failed

  /** The file system and the package resolution, as one fixed answer per question. */
  datatype Disk = Disk(imports: File -> Option<seq<Import>>, hasSite: File -> bool, resolve: (File, Import) -> Resolved)

  datatype Node = Node(canon: File, imports: seq<Import>, importTargets: seq<Option<nat>>)

  datatype Graph = Graph(nodes: seq<Node>, unresolved: seq<(File, Import)>)

  ghost predicate Imports(disk: Disk, f: File, g: File) {
    disk.imports(f).Some? && exists imp :: imp in disk.imports(f).value && disk.resolve(f, imp) == Edge(g)
  }

  ghost function FileEdges(disk: Disk): Edges<File> { (f: File, g: File) => Imports(disk, f, g) }

  /** Something about `f` itself stops discovery. */
  ghost predicate Faulty(disk: Disk, f: File) {
    disk.imports(f).None? || !disk.hasSite(f) ||
      exists imp :: imp in disk.imports(f).value && disk.resolve(f, imp) == Failed
  }

  /** The files a build can meet are finitely many. */
  ghost predicate Finite(disk: Disk, entry: File, files: set<File>) {
    entry in files && forall f, g :: f in files && Imports(disk, f, g) ==> g in files
  }

  function Canons(nodes: seq<Node>): (r: seq<File>)
    ensures |r| == |nodes| && forall i :: 0 <= i < |nodes| ==> r[i] == nodes[i].canon
  {
    seq(|nodes|, i requires 0 <= i < |nodes| => nodes[i].canon)
  }

  function TargetsOf(nodes: seq<Node>): (r: Targets)
    ensures |r| == |nodes| && forall i :: 0 <= i < |nodes| ==> r[i] == nodes[i].importTargets
  {
    seq(|nodes|, i requires 0 <= i < |nodes| => nodes[i].importTargets)
  }

  /** The imports of one file that were declined, in written order. */
  function DeclinedOf(disk: Disk, f: File, imports: seq<Import>): (r: seq<(File, Import)>)
  {
    if imports == [] then []
    else
      var k := |imports| - 1;
      DeclinedOf(disk, f, imports[..k]) + if disk.resolve(f, imports[k]) == Declined then [(f, imports[k])] else []
  }

  function DeclinedAll(disk: Disk, nodes: seq<Node>): seq<(File, Import)> {
    if nodes == [] then []
    else
      var k := |nodes| - 1;
      DeclinedAll(disk, nodes[..k]) + DeclinedOf(disk, nodes[k].canon, nodes[k].imports)
  }

  // ---------------------------------------------------------------- the walk's invariant

  /** `target` is what import `imp` of `f` was recorded as. */
  ghost predicate TargetIs(disk: Disk, nodes: seq<Node>, f: File, imp: Import, target: Option<nat>) {
    match disk.resolve(f, imp)
    case Edge(g) => target.Some? && target.value < |nodes| && nodes[target.value].canon == g
    case NoEdge => target.None?
    case Declined => target.None?
    case Failed => false
  }

  ghost predicate TargetsRecorded(disk: Disk, nodes: seq<Node>, f: File, imports: seq<Import>,
        targets: seq<Option<nat>>) {
    |targets| == |imports| && forall k :: 0 <= k < |imports| ==> TargetIs(disk, nodes, f, imports[k], targets[k])
  }

  /** The nodes are the files met so far: readable, pairwise distinct, reachable, in a bounded universe. */
  ghost predicate Met(disk: Disk, entry: File, nodes: seq<Node>, idOf: map<File, nat>, files: set<File>) {
    && nodes != [] && nodes[0].canon == entry
    && Distinct(Canons(nodes))
    && (forall i :: 0 <= i < |nodes| ==>
          && disk.imports(nodes[i].canon) == Some(nodes[i].imports)
          && nodes[i].canon in files
          && Reaches(FileEdges(disk), entry, nodes[i].canon))
    && (forall f :: f in idOf <==> f in Canons(nodes))
    && (forall f :: f in idOf ==> idOf[f] < |nodes| && nodes[idOf[f]].canon == f)
  }

  /** The first `n` nodes have been walked. */
  ghost predicate Walked(disk: Disk, nodes: seq<Node>, n: nat) {
    && n <= |nodes|
    && (forall i :: 0 <= i < n ==>
          disk.hasSite(nodes[i].canon) &&
            TargetsRecorded(disk, nodes, nodes[i].canon, nodes[i].imports, nodes[i].importTargets))
    && (forall i :: n <= i < |nodes| ==> nodes[i].importTargets == [])
  }

  ghost predicate Blames(disk: Disk, entry: File, e: Fault) {
    match e
    case Unreadable(f) => Reaches(FileEdges(disk), entry, f) && disk.imports(f).None?
    case NoSite(f) => Reaches(FileEdges(disk), entry, f) && !disk.hasSite(f)
    case BadImport(f, imp) =>
      Reaches(FileEdges(disk), entry, f) && disk.imports(f).Some? && imp in disk.imports(f).value &&
        disk.resolve(f, imp) == Failed
    case Cyclic(f, g) => Reaches(FileEdges(disk), entry, f) && Imports(disk, f, g) && Reaches(FileEdges(disk), g, f)
  }

  /** What it takes for a closure to exist: nothing reachable is faulty and nothing reachable imports its way
      back to itself. */
  ghost predicate Buildable(disk: Disk, entry: File) {
    forall f :: Reaches(FileEdges(disk), entry, f) ==>
      !Faulty(disk, f) && forall g :: Imports(disk, f, g) ==> !Reaches(FileEdges(disk), g, f)
  }

  lemma BlamedIsUnbuildable(disk: Disk, entry: File, e: Fault)
    requires Blames(disk, entry, e)
    ensures !Buildable(disk, entry)
  {
    match e
    case Unreadable(f) => assert Faulty(disk, f);
    case NoSite(f) => assert Faulty(disk, f);
    case BadImport(f, imp) => assert Faulty(disk, f);
    case Cyclic(_, _) =>
  }

  // ---------------------------------------------------------------- one file met

  lemma MetGrows(disk: Disk, entry: File, nodes: seq<Node>, idOf: map<File, nat>, files: set<File>, f: File, node: Node)
    requires Met(disk, entry, nodes, idOf, files) && f !in idOf && f in files && Reaches(FileEdges(disk), entry, f)
    requires disk.imports(f) == Some(node.imports) && node.canon == f
    ensures Met(disk, entry, nodes + [node], idOf[f := |nodes|], files)
  {
    var more := nodes + [node];
    assert Canons(more) == Canons(nodes) + [f];
    assert f !in Canons(nodes);
    assert Canons(more)[|nodes|] == f;
    forall g | g in Canons(nodes) ensures g in Canons(more) {
      var i :| 0 <= i < |nodes| && Canons(nodes)[i] == g;
      assert Canons(more)[i] == g;
    }
  }

  /** The id of `file`, reading it and giving it the next id if it is new. */
  method IdOf(disk: Disk, entry: File, file: File, nodes: seq<Node>, idOf: map<File, nat>, ghost files: set<File>)
    returns (r: Result<nat, Fault>, nodes': seq<Node>, idOf': map<File, nat>)
    requires Met(disk, entry, nodes, idOf, files) && file in files && Reaches(FileEdges(disk), entry, file)
    ensures r.Ok? ==> Met(disk, entry, nodes', idOf', files) && r.value < |nodes'| && nodes'[r.value].canon == file
    ensures r.Ok? ==> nodes <= nodes' && forall i :: |nodes| <= i < |nodes'| ==> nodes'[i].importTargets == []
    ensures r.Err? ==> Blames(disk, entry, r.error)
  {
    nodes', idOf' := nodes, idOf;
    if file in idOf {
      return Ok(idOf[file]), nodes', idOf';
    }
    var id := |nodes|;
    idOf' := idOf[file := id];
    match disk.imports(file) {
      case None =>
        r := Err(Unreadable(file));
      case Some(imports) =>
        nodes' := nodes + [Node(file, imports, [])];
        MetGrows(disk, entry, nodes, idOf, files, file, Node(file, imports, []));
        r := Ok(id);
    }
  }

  lemma TargetAdded(disk: Disk, nodes: seq<Node>, f: File, imports: seq<Import>, k: nat, targets: seq<Option<nat>>,
        target: Option<nat>)
    requires k < |imports| && TargetsRecorded(disk, nodes, f, imports[..k], targets)
    requires TargetIs(disk, nodes, f, imports[k], target)
    ensures TargetsRecorded(disk, nodes, f, imports[..k + 1], targets + [target])
  {
    hide TargetIs;
  }

  lemma DeclinedStep(disk: Disk, f: File, imports: seq<Import>, k: nat)
    requires k < |imports|
    ensures DeclinedOf(disk, f, imports[..k + 1]) ==
              DeclinedOf(disk, f, imports[..k]) +
                if disk.resolve(f, imports[k]) == Declined then [(f, imports[k])] else []
  {
    assert imports[..k + 1][..k] == imports[..k];
  }

  /** Walk one file's import lines in order. */
  method WalkImports(disk: Disk, entry: File, i: nat, nodes: seq<Node>, idOf: map<File, nat>,
        unresolved: seq<(File, Import)>, ghost files: set<File>)
    returns (r: Result<seq<Option<nat>>, Fault>, nodes': seq<Node>, idOf': map<File, nat>,
             unresolved': seq<(File, Import)>)
    requires Met(disk, entry, nodes, idOf, files) && i < |nodes| && Finite(disk, entry, files)
    ensures r.Ok? ==>
              Met(disk, entry, nodes', idOf', files) &&
                TargetsRecorded(disk, nodes', nodes[i].canon, nodes[i].imports, r.value)
    ensures r.Ok? ==> nodes <= nodes' && forall j :: |nodes| <= j < |nodes'| ==> nodes'[j].importTargets == []
    ensures r.Ok? ==> unresolved' == unresolved + DeclinedOf(disk, nodes[i].canon, nodes[i].imports)
    ensures r.Err? ==> Blames(disk, entry, r.error)
  {
    var canon, imports := nodes[i].canon, nodes[i].imports;
    assert imports[..|imports|] == imports;
    var targets := [];
    nodes', idOf', unresolved' := nodes, idOf, unresolved;
    for k := 0 to |imports|
      invariant Met(disk, entry, nodes', idOf', files) && TargetsRecorded(disk, nodes', canon, imports[..k], targets)
      invariant nodes <= nodes' && forall j :: |nodes| <= j < |nodes'| ==> nodes'[j].importTargets == []
      invariant unresolved' == unresolved + DeclinedOf(disk, canon, imports[..k])
    {
      hide Met, TargetsRecorded, DeclinedOf, Blames, Finite, Reaches, Canons;
      var imp := imports[k];
      ghost var was, before := nodes', targets;
      DeclinedStep(disk, canon, imports, k);
      MetFact(disk, entry, nodes, idOf, files, i);
      match disk.resolve(canon, imp) {
        case Failed =>
          return Err(BadImport(canon, imp)), nodes', idOf', unresolved';
        case NoEdge =>
          TargetAdded(disk, nodes', canon, imports, k, targets, None);
          targets := targets + [None];
        case Declined =>
          TargetAdded(disk, nodes', canon, imports, k, targets, None);
          unresolved' := unresolved' + [(canon, imp)];
          targets := targets + [None];
        case Edge(file) =>
          assert Imports(disk, canon, file);
          ReachesStep(FileEdges(disk), entry, canon, file);
          var id;
          id, nodes', idOf' := IdOf(disk, entry, file, nodes', idOf', files);
          if id.Err? { return Err(id.error), nodes', idOf', unresolved'; }
          RecordedMoves(disk, was, nodes', canon, imports[..k], targets);
          TargetAdded(disk, nodes', canon, imports, k, targets, Some(id.value));
          targets := targets + [Some(id.value)];
      }
    }
    return Ok(targets), nodes', idOf', unresolved';
  }

  lemma MetFact(disk: Disk, entry: File, nodes: seq<Node>, idOf: map<File, nat>, files: set<File>, i: nat)
    requires Met(disk, entry, nodes, idOf, files) && i < |nodes|
    ensures disk.imports(nodes[i].canon) == Some(nodes[i].imports) && nodes[i].canon in files
    ensures Reaches(FileEdges(disk), entry, nodes[i].canon)
  {
  }

  // ---------------------------------------------------------------- the whole closure

  /** When every node has been walked, the nodes are exactly the reachable files, and none is faulty. */
  lemma WalkedIsReachable(disk: Disk, entry: File, nodes: seq<Node>, idOf: map<File, nat>, files: set<File>)
    requires Met(disk, entry, nodes, idOf, files) && Walked(disk, nodes, |nodes|)
    ensures forall f :: f in Canons(nodes) <==> Reaches(FileEdges(disk), entry, f)
    ensures forall f :: Reaches(FileEdges(disk), entry, f) ==> !Faulty(disk, f)
  {
    var known := (f: File) => f in Canons(nodes);
    assert Canons(nodes)[0] == entry;
    forall f, g | known(f) && FileEdges(disk)(f, g) ensures known(g) {
      var i: nat :| i < |nodes| && Canons(nodes)[i] == f;
      EdgeIsTarget(disk, entry, nodes, idOf, files, i, g);
    }
    ReachesKeeps(FileEdges(disk), entry, known);
    forall f | f in Canons(nodes) ensures Reaches(FileEdges(disk), entry, f) && !Faulty(disk, f) {
      var i: nat :| i < |nodes| && Canons(nodes)[i] == f;
      forall imp | imp in nodes[i].imports ensures disk.resolve(f, imp) != Failed {
        var k :| 0 <= k < |nodes[i].imports| && nodes[i].imports[k] == imp;
        assert TargetIs(disk, nodes, f, imp, nodes[i].importTargets[k]);
      }
    }
  }

  lemma TargetAt(disk: Disk, nodes: seq<Node>, i: nat, k: nat)
    requires Walked(disk, nodes, |nodes|) && i < |nodes| && k < |nodes[i].imports|
    ensures |nodes[i].importTargets| == |nodes[i].imports|
    ensures TargetIs(disk, nodes, nodes[i].canon, nodes[i].imports[k], nodes[i].importTargets[k])
  {
    assert TargetsRecorded(disk, nodes, nodes[i].canon, nodes[i].imports, nodes[i].importTargets);
  }

  /** A resolved import is an edge between the ids of the two files. */
  lemma EdgeIsTarget(disk: Disk, entry: File, nodes: seq<Node>, idOf: map<File, nat>, files: set<File>, i: nat, g: File)
    requires Met(disk, entry, nodes, idOf, files) && Walked(disk, nodes, |nodes|)
    requires i < |nodes| && Imports(disk, nodes[i].canon, g)
    ensures g in Canons(nodes)
    ensures forall j: nat :: j < |nodes| && nodes[j].canon == g ==> HasEdge(TargetsOf(nodes), i, j)
  {
    var imp :| imp in nodes[i].imports && disk.resolve(nodes[i].canon, imp) == Edge(g);
    var k :| 0 <= k < |nodes[i].imports| && nodes[i].imports[k] == imp;
    TargetAt(disk, nodes, i, k);
    var target := nodes[i].importTargets[k];
    hide Met, Walked;
    OneId(disk, entry, nodes, idOf, files, target.value);
    assert HasEdge(TargetsOf(nodes), i, target.value);
  }

  lemma TargetIsEdge(disk: Disk, entry: File, nodes: seq<Node>, idOf: map<File, nat>, files: set<File>, u: nat, v: nat)
    requires Met(disk, entry, nodes, idOf, files) && Walked(disk, nodes, |nodes|) && HasEdge(TargetsOf(nodes), u, v)
    ensures v < |nodes| && Imports(disk, nodes[u].canon, nodes[v].canon)
  {
    var k :| 0 <= k < |nodes[u].importTargets| && nodes[u].importTargets[k] == Some(v);
    assert TargetIs(disk, nodes, nodes[u].canon, nodes[u].imports[k], Some(v));
  }

  /** Reaching by ids and reaching by files are the same thing. */
  lemma SameReach(disk: Disk, entry: File, nodes: seq<Node>, idOf: map<File, nat>, files: set<File>, u: nat)
    requires Met(disk, entry, nodes, idOf, files) && Walked(disk, nodes, |nodes|) && u < |nodes|
    ensures forall v: nat :: v < |nodes| ==>
              (Reaches(ImportEdges(TargetsOf(nodes)), u, v) <==>
               Reaches(FileEdges(disk), nodes[u].canon, nodes[v].canon))
  {
    hide Met, Walked;
    var ids, fs := ImportEdges(TargetsOf(nodes)), FileEdges(disk);
    var byId: nat -> bool := (v: nat) => v < |nodes| && Reaches(fs, nodes[u].canon, nodes[v].canon);
    ReachesSelf(fs, nodes[u].canon);
    forall a: nat, b: nat | byId(a) && ids(a, b) ensures byId(b) {
      TargetIsEdge(disk, entry, nodes, idOf, files, a, b);
      ReachesStep(fs, nodes[u].canon, nodes[a].canon, nodes[b].canon);
    }
    ReachesKeeps(ids, u, byId);
    var byFile := (f: File) => f in Canons(nodes) &&
      forall v: nat :: v < |nodes| && nodes[v].canon == f ==> Reaches(ids, u, v);
    ReachesSelf(ids, u);
    assert byFile(nodes[u].canon) by { OneId(disk, entry, nodes, idOf, files, u); }
    forall f, g | byFile(f) && fs(f, g) ensures byFile(g) {
      var a: nat :| a < |nodes| && Canons(nodes)[a] == f;
      EdgeIsTarget(disk, entry, nodes, idOf, files, a, g);
      forall v: nat | v < |nodes| && nodes[v].canon == g ensures Reaches(ids, u, v) {
        ReachesStep(ids, u, a, v);
      }
    }
    ReachesKeeps(fs, nodes[u].canon, byFile);
  }

  lemma OneId(disk: Disk, entry: File, nodes: seq<Node>, idOf: map<File, nat>, files: set<File>, u: nat)
    requires Met(disk, entry, nodes, idOf, files) && u < |nodes|
    ensures nodes[u].canon in Canons(nodes)
    ensures forall v: nat :: v < |nodes| && nodes[v].canon == nodes[u].canon ==> v == u
  {
    assert Canons(nodes)[u] == nodes[u].canon;
    forall v: nat | v < |nodes| && nodes[v].canon == nodes[u].canon ensures v == u {
      assert Canons(nodes)[v] == Canons(nodes)[u];
    }
  }

  /** The id graph is acyclic exactly when no reachable file imports its way back to itself. */
  lemma SameCycles(disk: Disk, entry: File, nodes: seq<Node>, idOf: map<File, nat>, files: set<File>)
    requires Met(disk, entry, nodes, idOf, files) && Walked(disk, nodes, |nodes|)
    ensures Acyclic(ImportEdges(TargetsOf(nodes))) <==> Buildable(disk, entry)
  {
    hide Met, Walked;
    var ids, fs := ImportEdges(TargetsOf(nodes)), FileEdges(disk);
    WalkedIsReachable(disk, entry, nodes, idOf, files);
    if Acyclic(ids) {
      forall f, g | Reaches(fs, entry, f) && Imports(disk, f, g) ensures !Reaches(fs, g, f) {
        var u: nat :| u < |nodes| && Canons(nodes)[u] == f;
        EdgeIsTarget(disk, entry, nodes, idOf, files, u, g);
        var v: nat :| v < |nodes| && Canons(nodes)[v] == g;
        SameReach(disk, entry, nodes, idOf, files, v);
        if Reaches(fs, g, f) { BackEdgeIsCycle(ids, u, v); }
      }
    } else {
      CycleHasBackEdge(ids);
      var u: nat, v: nat :| ids(u, v) && Reaches(ids, v, u);
      BackEdgeIsFileCycle(disk, entry, nodes, idOf, files, CycleError(u, v));
      BlamedIsUnbuildable(disk, entry, Cyclic(nodes[u].canon, nodes[v].canon));
    }
  }

  lemma BackEdgeIsFileCycle(disk: Disk, entry: File, nodes: seq<Node>, idOf: map<File, nat>, files: set<File>,
        e: CycleError)
    requires Met(disk, entry, nodes, idOf, files) && Walked(disk, nodes, |nodes|) && ClosesCycle(TargetsOf(nodes), e)
    ensures e.importer < |nodes| && e.target < |nodes|
    ensures Blames(disk, entry, Cyclic(nodes[e.importer].canon, nodes[e.target].canon))
  {
    TargetIsEdge(disk, entry, nodes, idOf, files, e.importer, e.target);
    SameReach(disk, entry, nodes, idOf, files, e.target);
    assert Canons(nodes)[e.importer] == nodes[e.importer].canon;
    WalkedIsReachable(disk, entry, nodes, idOf, files);
  }

  lemma {:induction false} DistinctFits(s: seq<File>, files: set<File>)
    requires Distinct(s) && forall i :: 0 <= i < |s| ==> s[i] in files
    ensures |s| <= |files|
  {
    if s != [] {
      var k := |s| - 1;
      forall i | 0 <= i < k ensures s[..k][i] in files - {s[k]} { assert s[i] != s[k]; }
      DistinctFits(s[..k], files - {s[k]});
    }
  }

  lemma MetBounded(disk: Disk, entry: File, nodes: seq<Node>, idOf: map<File, nat>, files: set<File>)
    requires Met(disk, entry, nodes, idOf, files)
    ensures |nodes| <= |files|
  {
    DistinctFits(Canons(nodes), files);
  }

  /** Setting node `i`'s targets completes it and disturbs nothing else. */
  lemma RecordTargets(disk: Disk, entry: File, was: seq<Node>, nodes: seq<Node>, idOf: map<File, nat>,
        files: set<File>, i: nat, targets: seq<Option<nat>>)
    requires i < |was| && was <= nodes && Walked(disk, was, i) && Met(disk, entry, nodes, idOf, files)
    requires forall j :: |was| <= j < |nodes| ==> nodes[j].importTargets == []
    requires disk.hasSite(was[i].canon) && TargetsRecorded(disk, nodes, was[i].canon, was[i].imports, targets)
    ensures var next := nodes[i := nodes[i].(importTargets := targets)];
            && Met(disk, entry, next, idOf, files) && Walked(disk, next, i + 1)
            && DeclinedAll(disk, next[..i + 1]) ==
              DeclinedAll(disk, was[..i]) + DeclinedOf(disk, was[i].canon, was[i].imports)
  {
    var next := nodes[i := nodes[i].(importTargets := targets)];
    assert Canons(next) == Canons(nodes);
    assert next[..i + 1][..i] == was[..i];
    forall j | 0 <= j < i + 1
      ensures disk.hasSite(next[j].canon)
      ensures TargetsRecorded(disk, next, next[j].canon, next[j].imports, next[j].importTargets)
    {
      if j < i {
        assert next[j] == was[j];
        RecordedMoves(disk, was, next, next[j].canon, next[j].imports, next[j].importTargets);
      } else {
        RecordedMoves(disk, nodes, next, next[j].canon, next[j].imports, next[j].importTargets);
      }
    }
  }

  /** Recorded targets depend only on which file has which id. */
  lemma RecordedMoves(disk: Disk, nodes: seq<Node>, more: seq<Node>, f: File, imports: seq<Import>,
        targets: seq<Option<nat>>)
    requires TargetsRecorded(disk, nodes, f, imports, targets)
    requires |nodes| <= |more| && forall i :: 0 <= i < |nodes| ==> more[i].canon == nodes[i].canon
    ensures TargetsRecorded(disk, more, f, imports, targets)
  {
    forall k | 0 <= k < |imports| ensures TargetIs(disk, more, f, imports[k], targets[k]) {
      assert TargetIs(disk, nodes, f, imports[k], targets[k]);
    }
  }

  lemma WalkedIsBounded(disk: Disk, nodes: seq<Node>)
    requires Walked(disk, nodes, |nodes|)
    ensures Bounded(TargetsOf(nodes))
  {
    forall u, k | 0 <= u < |nodes| && 0 <= k < |nodes[u].importTargets| && nodes[u].importTargets[k].Some?
      ensures nodes[u].importTargets[k].value < |nodes|
    {
      assert TargetIs(disk, nodes, nodes[u].canon, nodes[u].imports[k], nodes[u].importTargets[k]);
    }
  }

  /** A finished closure: the reachable files, each once and the entry first, with every import's target. */
  ghost predicate IsClosure(disk: Disk, entry: File, graph: Graph) {
    && graph.nodes != [] && graph.nodes[0].canon == entry
    && Distinct(Canons(graph.nodes))
    && (forall f :: f in Canons(graph.nodes) <==> Reaches(FileEdges(disk), entry, f))
    && (forall i :: 0 <= i < |graph.nodes| ==>
          && disk.imports(graph.nodes[i].canon) == Some(graph.nodes[i].imports)
          && TargetsRecorded(disk, graph.nodes, graph.nodes[i].canon, graph.nodes[i].imports,
                             graph.nodes[i].importTargets))
    && graph.unresolved == DeclinedAll(disk, graph.nodes)
  }

  /** Where in the closure a declined import is written: which file, and which of its lines. */
  ghost predicate WrittenAt(nodes: seq<Node>, declined: seq<(File, Import)>, at: seq<(nat, nat)>) {
    && |at| == |declined|
    && forall k :: 0 <= k < |at| ==>
         && at[k].0 < |nodes| && at[k].1 < |nodes[at[k].0].imports|
         && declined[k] == (nodes[at[k].0].canon, nodes[at[k].0].imports[at[k].1])
  }

  predicate Before(a: (nat, nat), b: (nat, nat)) { a.0 < b.0 || (a.0 == b.0 && a.1 < b.1) }

  /** The declined imports are those of the files, one by one in the order in which they are written. */
  lemma DeclinedInOrder(disk: Disk, nodes: seq<Node>) returns (at: seq<(nat, nat)>)
    ensures WrittenAt(nodes, DeclinedAll(disk, nodes), at)
    ensures forall k, l :: 0 <= k < l < |at| ==> Before(at[k], at[l])
    ensures forall u: nat, v: nat :: u < |nodes| && v < |nodes[u].imports| ==>
              ((u, v) in at <==> disk.resolve(nodes[u].canon, nodes[u].imports[v]) == Declined)
  {
    at := DeclinedUpTo(disk, nodes, |nodes|);
    assert nodes[..|nodes|] == nodes;
  }

  lemma {:induction false} DeclinedUpTo(disk: Disk, nodes: seq<Node>, n: nat) returns (at: seq<(nat, nat)>)
    requires n <= |nodes|
    ensures WrittenAt(nodes, DeclinedAll(disk, nodes[..n]), at)
    ensures forall k :: 0 <= k < |at| ==> at[k].0 < n
    ensures forall k, l :: 0 <= k < l < |at| ==> Before(at[k], at[l])
    ensures forall u: nat, v: nat :: u < n && v < |nodes[u].imports| ==>
              ((u, v) in at <==> disk.resolve(nodes[u].canon, nodes[u].imports[v]) == Declined)
  {
    if n == 0 {
      at := [];
    } else {
      var before := DeclinedUpTo(disk, nodes, n - 1);
      var last := DeclinedLines(disk, nodes, n - 1, nodes[n - 1].imports);
      at := before + last;
      assert nodes[..n][..n - 1] == nodes[..n - 1];
      hide WrittenAt, DeclinedOf;
      WrittenAppends(nodes, DeclinedAll(disk, nodes[..n - 1]), before,
                     DeclinedOf(disk, nodes[n - 1].canon, nodes[n - 1].imports), last);
    }
  }

  lemma WrittenAppends(nodes: seq<Node>, a: seq<(File, Import)>, at: seq<(nat, nat)>,
                       b: seq<(File, Import)>, more: seq<(nat, nat)>)
    requires WrittenAt(nodes, a, at) && WrittenAt(nodes, b, more)
    ensures WrittenAt(nodes, a + b, at + more)
  {
  }

  lemma {:induction false} DeclinedLines(disk: Disk, nodes: seq<Node>, n: nat, imports: seq<Import>)
    returns (at: seq<(nat, nat)>)
    requires n < |nodes| && imports <= nodes[n].imports
    ensures WrittenAt(nodes, DeclinedOf(disk, nodes[n].canon, imports), at)
    ensures forall k :: 0 <= k < |at| ==> at[k].0 == n && at[k].1 < |imports|
    ensures forall k, l :: 0 <= k < l < |at| ==> Before(at[k], at[l])
    ensures forall v: nat :: v < |imports| ==>
              ((n, v) in at <==> disk.resolve(nodes[n].canon, imports[v]) == Declined)
  {
    if imports == [] {
      at := [];
    } else {
      var k := |imports| - 1;
      at := DeclinedLines(disk, nodes, n, imports[..k]);
      if disk.resolve(nodes[n].canon, imports[k]) == Declined { at := at + [(n, k)]; }
    }
  }

  /** So a finished closure records exactly the imports of reachable files that were declined. */
  lemma DeclinedRecorded(disk: Disk, entry: File, graph: Graph, f: File, imp: Import)
    requires IsClosure(disk, entry, graph)
    ensures (f, imp) in graph.unresolved <==>
              Reaches(FileEdges(disk), entry, f) && disk.imports(f).Some? && imp in disk.imports(f).value &&
                disk.resolve(f, imp) == Declined
  {
    hide Reaches, TargetsRecorded, DeclinedAll;
    var at := DeclinedInOrder(disk, graph.nodes);
    if (f, imp) in graph.unresolved {
      var k :| 0 <= k < |graph.unresolved| && graph.unresolved[k] == (f, imp);
      assert at[k] in at && Canons(graph.nodes)[at[k].0] == f;
    }
    if f in Canons(graph.nodes) && disk.imports(f).Some? && imp in disk.imports(f).value &&
      disk.resolve(f, imp) == Declined {
      var u :| 0 <= u < |graph.nodes| && Canons(graph.nodes)[u] == f;
      var v :| 0 <= v < |graph.nodes[u].imports| && graph.nodes[u].imports[v] == imp;
      assert (u, v) in at;
      var k :| 0 <= k < |at| && at[k] == (u, v);
      assert graph.unresolved[k] == (f, imp);
    }
  }

  lemma DeclinedAre(disk: Disk, entry: File, graph: Graph)
    requires IsClosure(disk, entry, graph)
    ensures forall f, imp :: (f, imp) in graph.unresolved <==>
              Reaches(FileEdges(disk), entry, f) && disk.imports(f).Some? && imp in disk.imports(f).value &&
                disk.resolve(f, imp) == Declined
  {
    hide Reaches, IsClosure;
    forall f, imp
      ensures (f, imp) in graph.unresolved <==>
                Reaches(FileEdges(disk), entry, f) && disk.imports(f).Some? && imp in disk.imports(f).value &&
                  disk.resolve(f, imp) == Declined
    {
      DeclinedRecorded(disk, entry, graph, f, imp);
    }
  }

  lemma EntryMet(disk: Disk, entry: File, idOf: map<File, nat>, files: set<File>, node: Node)
    requires Finite(disk, entry, files) && idOf == map[entry := 0]
    requires node.canon == entry && disk.imports(entry) == Some(node.imports) && node.importTargets == []
    ensures Met(disk, entry, [node], idOf, files) && Walked(disk, [node], 0) && DeclinedAll(disk, [node][..0]) == []
  {
    ReachesSelf(FileEdges(disk), entry);
    assert Canons([node]) == [entry];
  }

  lemma ClosureDone(disk: Disk, entry: File, nodes: seq<Node>, idOf: map<File, nat>, files: set<File>,
        unresolved: seq<(File, Import)>)
    requires Met(disk, entry, nodes, idOf, files) && Walked(disk, nodes, |nodes|)
    requires unresolved == DeclinedAll(disk, nodes)
    ensures IsClosure(disk, entry, Graph(nodes, unresolved))
  {
    WalkedIsReachable(disk, entry, nodes, idOf, files);
  }

  lemma FileBlamed(disk: Disk, entry: File, f: File)
    requires Reaches(FileEdges(disk), entry, f)
    ensures disk.imports(f).None? ==> Blames(disk, entry, Unreadable(f)) && !Buildable(disk, entry)
    ensures !disk.hasSite(f) ==> Blames(disk, entry, NoSite(f)) && !Buildable(disk, entry)
  {
    assert disk.imports(f).None? || !disk.hasSite(f) ==> Faulty(disk, f);
  }

  method Discover(disk: Disk, entry: File, ghost files: set<File>) returns (r: Result<Graph, Fault>)
    requires Finite(disk, entry, files)
    ensures r.Ok? <==> Buildable(disk, entry)
    ensures r.Ok? ==> IsClosure(disk, entry, r.value) && Acyclic(ImportEdges(TargetsOf(r.value.nodes)))
    ensures r.Ok? ==> forall f, imp :: (f, imp) in r.value.unresolved <==>
              Reaches(FileEdges(disk), entry, f) && disk.imports(f).Some? && imp in disk.imports(f).value &&
                disk.resolve(f, imp) == Declined
    ensures r.Err? ==> Blames(disk, entry, r.error)
  {
    hide Met, Walked, TargetsRecorded, IsClosure, Blames, Buildable, Finite;
    ReachesSelf(FileEdges(disk), entry);
    var idOf: map<File, nat> := map[entry := 0];
    if disk.imports(entry).None? {
      FileBlamed(disk, entry, entry);
      return Err(Unreadable(entry));
    }
    var nodes := [Node(entry, disk.imports(entry).value, [])];
    var unresolved := [];
    EntryMet(disk, entry, idOf, files, nodes[0]);
    var i := 0;
    while i < |nodes|
      invariant i <= |nodes| && Met(disk, entry, nodes, idOf, files) && Walked(disk, nodes, i)
      invariant unresolved == DeclinedAll(disk, nodes[..i])
      decreases |files| - i
    {
      MetFact(disk, entry, nodes, idOf, files, i);
      var canon := nodes[i].canon;
      if !disk.hasSite(canon) {
        FileBlamed(disk, entry, canon);
        return Err(NoSite(canon));
      }
      ghost var was := nodes;
      var targets;
      targets, nodes, idOf, unresolved := WalkImports(disk, entry, i, nodes, idOf, unresolved, files);
      if targets.Err? {
        BlamedIsUnbuildable(disk, entry, targets.error);
        return Err(targets.error);
      }
      RecordTargets(disk, entry, was, nodes, idOf, files, i, targets.value);
      nodes := nodes[i := nodes[i].(importTargets := targets.value)];
      MetBounded(disk, entry, nodes, idOf, files);
      i := i + 1;
    }
    assert nodes[..|nodes|] == nodes;
    WalkedIsBounded(disk, nodes);
    ClosureDone(disk, entry, nodes, idOf, files, unresolved);
    SameCycles(disk, entry, nodes, idOf, files);
    var cycle, _ := RejectCycles(TargetsOf(nodes));
    if cycle.Err? {
      BackEdgeIsFileCycle(disk, entry, nodes, idOf, files, cycle.error);
      return Err(Cyclic(nodes[cycle.error.importer].canon, nodes[cycle.error.target].canon));
    }
    DeclinedAre(disk, entry, Graph(nodes, unresolved));
    return Ok(Graph(nodes, unresolved));
  }
}
