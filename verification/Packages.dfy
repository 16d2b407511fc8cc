/** The package audit: every `depends:` entry of every manifest reachable from one the closure walk loaded. */
module Packages {
  import opened Types
  import opened Walks

  type Path = string

  datatype Layer = Core | Fixed | Alloc | Hosted {
    function Rank(): int {
      match this
      case Core => 0
      case Fixed => 1
      case Alloc => 2
      case Hosted => 3
    }
  }

  /** Core code may be used everywhere, fixed-memory code from allocating and hosted code too, allocating code from
      hosted code, and every layer from itself. */
  predicate UsableFrom(used: Layer, user: Layer) {
    || used == user || used.Core? || user.Hosted? || (used == Fixed && user == Alloc)
  }

  lemma RankIsUse(used: Layer, user: Layer)
    ensures used.Rank() <= user.Rank() <==> UsableFrom(used, user)
  {
  }

  /** The total order in which the layers are listed. */
  lemma UseIsAnOrder(a: Layer, b: Layer, c: Layer)
    ensures UsableFrom(Core, Fixed) && UsableFrom(Fixed, Alloc) && UsableFrom(Alloc, Hosted)
    ensures UsableFrom(a, b) || UsableFrom(b, a)
    ensures UsableFrom(a, b) && UsableFrom(b, a) ==> a == b
    ensures UsableFrom(a, b) && UsableFrom(b, c) ==> UsableFrom(a, c)
  {
  }

  datatype Depends = Depends(pkgName: string, path: Path)

  datatype Manifest = Manifest(package: string, layer: Layer, depends: seq<Depends>)

  /** The file system as fixed answers: which manifest an entry's path names, and what a manifest holds. */
  datatype Disk = Disk(locate: (Path, Depends) -> Option<Path>, manifest: Path -> Option<Manifest>)

  datatype UnresolvedKind = MissingDepends | PrivateModule

  datatype Unresolved = Unresolved(importer: Path, pkg: string, kind: UnresolvedKind)

  datatype AuditError =
    | ManifestMissing(importer: Path, entry: Depends)
    | Unparsable(manifest: Path)
    | NameMismatch(importer: Path, entry: Depends, actual: string)
    | LayerViolation(importer: Path, entry: Depends, layer: Layer, depLayer: Layer)
    | ImportUnresolved(u: Unresolved)

  // ---------------------------------------------------------------- the specification

  /** `p` declares `entry`, which names the manifest at `q`. */
  ghost predicate Entails(disk: Disk, p: Path, entry: Depends, q: Path) {
    disk.manifest(p).Some? && entry in disk.manifest(p).value.depends && disk.locate(p, entry) == Some(q)
  }

  ghost predicate DependsOn(disk: Disk, p: Path, q: Path) { exists entry :: Entails(disk, p, entry, q) }

  ghost function DependsEdges(disk: Disk): Edges<Path> { (p: Path, q: Path) => DependsOn(disk, p, q) }

  /** Nothing is wrong with one entry of a manifest: its dependency is there, is named so, and is not above. */
  ghost predicate EntryOk(disk: Disk, p: Path, entry: Depends)
    requires disk.manifest(p).Some?
  {
    && disk.locate(p, entry).Some?
    && var q := disk.locate(p, entry).value;
       && disk.manifest(q).Some?
       && disk.manifest(q).value.package == entry.pkgName
       && UsableFrom(disk.manifest(q).value.layer, disk.manifest(p).value.layer)
  }

  ghost predicate ManifestOk(disk: Disk, p: Path) {
    disk.manifest(p).Some? && forall entry :: entry in disk.manifest(p).value.depends ==> EntryOk(disk, p, entry)
  }

  /** Reachable from a manifest in `roots`. */
  ghost predicate Audited(disk: Disk, roots: set<Path>, p: Path) {
    exists root :: root in roots && Reaches(DependsEdges(disk), root, p)
  }

  ghost predicate Finite(disk: Disk, roots: set<Path>, paths: set<Path>) {
    roots <= paths && forall p, q :: p in paths && DependsOn(disk, p, q) ==> q in paths
  }

  /** The error names an audited manifest and an entry of it that really offends. */
  ghost predicate Genuine(disk: Disk, roots: set<Path>, unresolved: seq<Unresolved>, e: AuditError) {
    match e
    case ManifestMissing(p, entry) =>
      Audited(disk, roots, p) && disk.manifest(p).Some? && entry in disk.manifest(p).value.depends &&
        disk.locate(p, entry).None?
    case Unparsable(q) =>
      disk.manifest(q).None? && exists p :: Audited(disk, roots, p) && DependsOn(disk, p, q)
    case NameMismatch(p, entry, actual) =>
      Audited(disk, roots, p) && (exists q :: (
        Entails(disk, p, entry, q) && disk.manifest(q).Some? &&
          disk.manifest(q).value.package == actual != entry.pkgName))
    case LayerViolation(p, entry, layer, depLayer) =>
      Audited(disk, roots, p) && !UsableFrom(depLayer, layer) && (exists q :: (
        Entails(disk, p, entry, q) && disk.manifest(q).Some? &&
        disk.manifest(p).value.layer == layer && disk.manifest(q).value.layer == depLayer))
    case ImportUnresolved(u) =>
      unresolved != [] && u == unresolved[0] && forall p :: Audited(disk, roots, p) ==> ManifestOk(disk, p)
  }

  /** What the audit establishes, along `depends:` paths of any length: the layer never rises, every entry
      names the package it leads to, and packages that depend on each other share one layer. */
  lemma AuditMeans(disk: Disk, roots: set<Path>, p: Path, q: Path)
    requires forall x :: Audited(disk, roots, x) ==> ManifestOk(disk, x)
    requires Audited(disk, roots, p) && Reaches(DependsEdges(disk), p, q)
    ensures disk.manifest(p).Some? && disk.manifest(q).Some?
    ensures UsableFrom(disk.manifest(q).value.layer, disk.manifest(p).value.layer)
    ensures Reaches(DependsEdges(disk), q, p) ==> disk.manifest(q).value.layer == disk.manifest(p).value.layer
    ensures forall entry, x :: Entails(disk, q, entry, x) ==>
              disk.manifest(x).Some? && disk.manifest(x).value.package == entry.pkgName
  {
    LayerFalls(disk, roots, p, q);
    if Reaches(DependsEdges(disk), q, p) {
      AuditedOn(disk, roots, p, q);
      LayerFalls(disk, roots, q, p);
    }
    AuditedOn(disk, roots, p, q);
    assert ManifestOk(disk, q);
  }

  lemma AuditedOn(disk: Disk, roots: set<Path>, p: Path, q: Path)
    requires Audited(disk, roots, p) && Reaches(DependsEdges(disk), p, q)
    ensures Audited(disk, roots, q)
  {
    var root :| root in roots && Reaches(DependsEdges(disk), root, p);
    ReachesTrans(DependsEdges(disk), root, p, q);
  }

  lemma AuditedStep(disk: Disk, roots: set<Path>, p: Path, q: Path)
    requires Audited(disk, roots, p) && DependsOn(disk, p, q)
    ensures Audited(disk, roots, q)
  {
    ReachesEdge(DependsEdges(disk), p, q);
    AuditedOn(disk, roots, p, q);
  }

  lemma LayerFalls(disk: Disk, roots: set<Path>, p: Path, q: Path)
    requires forall x :: Audited(disk, roots, x) ==> ManifestOk(disk, x)
    requires Audited(disk, roots, p) && Reaches(DependsEdges(disk), p, q)
    ensures disk.manifest(p).Some? && disk.manifest(q).Some?
    ensures UsableFrom(disk.manifest(q).value.layer, disk.manifest(p).value.layer)
  {
    assert ManifestOk(disk, p);
    var top := disk.manifest(p).value.layer;
    var below := (x: Path) => Audited(disk, roots, x) && disk.manifest(x).Some? &&
      UsableFrom(disk.manifest(x).value.layer, top);
    forall x, y | below(x) && DependsEdges(disk)(x, y) ensures below(y) {
      AuditedStep(disk, roots, x, y);
      var entry :| Entails(disk, x, entry, y);
      assert ManifestOk(disk, x) && EntryOk(disk, x, entry);
    }
    ReachesKeeps(DependsEdges(disk), p, below);
  }

  // ---------------------------------------------------------------- the cache

  class ManifestCache {
    var manifests: map<Path, Manifest>

    /** Every cached manifest is what its file holds. */
    ghost predicate Valid(disk: Disk) reads this {
      forall p :: p in manifests ==> disk.manifest(p) == Some(manifests[p])
    }

    constructor ()
      ensures manifests == map[]
    {
      manifests := map[];
    }

    /** Parses a manifest the first time it is asked for. */
    method Load(disk: Disk, p: Path) returns (r: Result<Manifest, AuditError>)
      requires Valid(disk)
      modifies this
      ensures Valid(disk) && (forall q :: q in old(manifests) ==> q in manifests && manifests[q] == old(manifests[q]))
      ensures r.Ok? <==> disk.manifest(p).Some?
      ensures r.Ok? ==>
                p in manifests && Some(r.value) == disk.manifest(p) && manifests.Keys == old(manifests).Keys + {p}
      ensures r.Err? ==> r.error == Unparsable(p) && manifests == old(manifests)
    {
      if p !in manifests {
        match disk.manifest(p) {
          case None => return Err(Unparsable(p));
          case Some(parsed) => manifests := manifests[p := parsed];
        }
      }
      return Ok(manifests[p]);
    }
  }

  // ---------------------------------------------------------------- the worklist

  function Members(s: seq<Path>): set<Path> { set p | p in s }

  /** `queue` holds the manifests still to audit and `done` the ones audited: `visited` is both, and what a
      finished manifest depends on has been visited. */
  ghost predicate Progress(disk: Disk, roots: set<Path>, cached: map<Path, Manifest>, queue: seq<Path>,
        visited: set<Path>, done: set<Path>) {
    && Distinct(queue) && roots <= visited
    && (forall p :: p in visited <==> p in queue || p in done)
    && (forall p :: p in queue ==> p !in done)
    && (forall p :: p in visited ==> p in cached && Audited(disk, roots, p))
    && (forall p :: p in done ==> Settled(disk, visited, p))
  }

  ghost predicate Settled(disk: Disk, visited: set<Path>, p: Path) {
    ManifestOk(disk, p) && forall q :: DependsOn(disk, p, q) ==> q in visited
  }

  /** The first `k` entries of the manifest at `p` are fine and what they name has been visited. */
  ghost predicate EntriesOk(disk: Disk, visited: set<Path>, p: Path, depends: seq<Depends>, k: nat)
    requires k <= |depends| && disk.manifest(p).Some?
  {
    forall j :: 0 <= j < k ==> EntryOk(disk, p, depends[j]) && disk.locate(p, depends[j]).value in visited
  }

  lemma EntriesSettle(disk: Disk, visited: set<Path>, p: Path)
    requires disk.manifest(p).Some?
    requires EntriesOk(disk, visited, p, disk.manifest(p).value.depends, |disk.manifest(p).value.depends|)
    ensures Settled(disk, visited, p)
  {
    var depends := disk.manifest(p).value.depends;
    forall entry | entry in depends ensures EntryOk(disk, p, entry) && disk.locate(p, entry).value in visited {
      var j :| 0 <= j < |depends| && depends[j] == entry;
    }
  }

  lemma SettledAll(disk: Disk, roots: set<Path>, cached: map<Path, Manifest>, visited: set<Path>, done: set<Path>)
    requires Progress(disk, roots, cached, [], visited, done)
    ensures forall p :: Audited(disk, roots, p) ==> p in visited && ManifestOk(disk, p)
  {
    forall p | Audited(disk, roots, p) ensures p in visited && ManifestOk(disk, p) {
      var root :| root in roots && Reaches(DependsEdges(disk), root, p);
      var seen := (x: Path) => x in visited;
      forall x, y | seen(x) && DependsEdges(disk)(x, y) ensures seen(y) { assert Settled(disk, visited, x); }
      ReachesKeeps(DependsEdges(disk), root, seen);
      assert Settled(disk, visited, p);
    }
  }

  lemma OffenceShows(disk: Disk, roots: set<Path>, p: Path, entry: Depends)
    requires Audited(disk, roots, p) && disk.manifest(p).Some? && entry in disk.manifest(p).value.depends
    requires !EntryOk(disk, p, entry)
    ensures !forall x :: Audited(disk, roots, x) ==> ManifestOk(disk, x)
    ensures disk.locate(p, entry).Some? ==>
              Entails(disk, p, entry, disk.locate(p, entry).value) && DependsOn(disk, p, disk.locate(p, entry).value)
  {
    assert !ManifestOk(disk, p);
    assert disk.locate(p, entry).Some? ==> Entails(disk, p, entry, disk.locate(p, entry).value);
  }

  lemma StartsAudited(disk: Disk, roots: set<Path>, cached: map<Path, Manifest>, queue: seq<Path>)
    requires Distinct(queue) && Members(queue) == roots == cached.Keys
    ensures Progress(disk, roots, cached, queue, roots, {})
  {
    forall p | p in roots ensures Audited(disk, roots, p) { ReachesSelf(DependsEdges(disk), p); }
  }

  /** The cached manifests, each once, in some order. */
  method KnownPaths(manifests: map<Path, Manifest>) returns (queue: seq<Path>)
    ensures Distinct(queue) && Members(queue) == manifests.Keys
  {
    queue := [];
    var rest := manifests.Keys;
    while rest != {}
      invariant Distinct(queue) && rest <= manifests.Keys && Members(queue) == manifests.Keys - rest
    {
      var p :| p in rest;
      assert p !in Members(queue);
      assert Members(queue + [p]) == Members(queue) + {p} by { assert (queue + [p])[|queue|] == p; }
      queue := queue + [p];
      rest := rest - {p};
    }
  }

  lemma QueueTaken(disk: Disk, roots: set<Path>, cached: map<Path, Manifest>, queue: seq<Path>, visited: set<Path>,
        done: set<Path>)
    requires queue != [] && Progress(disk, roots, cached, queue, visited, done)
    ensures queue[0] in visited && queue[0] in cached && queue[0] !in done && Audited(disk, roots, queue[0])
    ensures InHand(disk, roots, cached, queue[1..], visited, done, queue[0])
  {
    forall q | q in queue ensures q in queue[1..] || q == queue[0] {
      var i :| 0 <= i < |queue| && queue[i] == q;
      if i > 0 { assert queue[1..][i - 1] == q; }
    }
    forall i | 0 <= i < |queue[1..]| ensures queue[1..][i] != queue[0] { assert queue[1..][i] == queue[i + 1]; }
  }

  /** As `Progress`, while `p` has left the queue and its entries are being audited. */
  ghost predicate InHand(disk: Disk, roots: set<Path>, cached: map<Path, Manifest>, queue: seq<Path>,
        visited: set<Path>, done: set<Path>, p: Path) {
    && Distinct(queue) && roots <= visited
    && (forall q :: q in visited <==> q in queue || q in done || q == p)
    && (forall q :: q in queue ==> q !in done && q != p) && p !in done
    && (forall q :: q in visited ==> q in cached && Audited(disk, roots, q))
    && (forall q :: q in done ==> Settled(disk, visited, q))
  }

  lemma PutDown(disk: Disk, roots: set<Path>, cached: map<Path, Manifest>, queue: seq<Path>, visited: set<Path>,
        done: set<Path>, p: Path)
    requires InHand(disk, roots, cached, queue, visited, done, p) && Settled(disk, visited, p)
    ensures Progress(disk, roots, cached, queue, visited, done + {p})
  {
  }

  lemma SettledMore(disk: Disk, visited: set<Path>, q: Path, p: Path)
    requires Settled(disk, visited, p)
    ensures Settled(disk, visited + {q}, p)
  {
  }

  lemma Meets(disk: Disk, roots: set<Path>, was: map<Path, Manifest>, cached: map<Path, Manifest>, queue: seq<Path>,
        visited: set<Path>, done: set<Path>, p: Path, q: Path)
    requires InHand(disk, roots, was, queue, visited, done, p) && was.Keys == visited && cached.Keys == visited + {q}
    requires Audited(disk, roots, q)
    ensures InHand(disk, roots, cached, if q in visited then queue else queue + [q], visited + {q}, done, p)
  {
    hide Audited, Settled;
    forall d | d in done ensures Settled(disk, visited + {q}, d) { SettledMore(disk, visited, q, d); }
    if q !in visited {
      var more := queue + [q];
      assert q !in queue && q !in done && q != p;
      assert forall x :: x in more <==> x in queue || x == q by { assert more[|queue|] == q; }
      assert Distinct(more);
    } else {
      assert visited + {q} == visited;
    }
  }

  /** One `depends:` entry of an audited manifest: the manifest it leads to, or what is wrong with it. */
  method AuditEntry(disk: Disk, cache: ManifestCache, importerPath: Path, importer: Manifest, entry: Depends,
                    ghost roots: set<Path>, ghost unresolved: seq<Unresolved>)
    returns (r: Result<Path, AuditError>)
    requires cache.Valid(disk) && Audited(disk, roots, importerPath)
    requires disk.manifest(importerPath) == Some(importer) && entry in importer.depends
    modifies cache
    ensures cache.Valid(disk)
    ensures (forall q :: q in old(cache.manifests) ==>
               q in cache.manifests && cache.manifests[q] == old(cache.manifests[q]))
    ensures r.Ok? <==> EntryOk(disk, importerPath, entry)
    ensures r.Ok? ==>
              disk.locate(importerPath, entry) == Some(r.value) &&
                cache.manifests.Keys == old(cache.manifests.Keys) + {r.value}
    ensures r.Ok? ==> DependsOn(disk, importerPath, r.value) && Audited(disk, roots, r.value)
    ensures r.Err? ==>
              Genuine(disk, roots, unresolved, r.error) && !forall x :: Audited(disk, roots, x) ==> ManifestOk(disk, x)
  {
    hide Audited, ManifestOk;
    if !EntryOk(disk, importerPath, entry) { OffenceShows(disk, roots, importerPath, entry); }
    var located := disk.locate(importerPath, entry);
    if located.None? { return Err(ManifestMissing(importerPath, entry)); }
    var depPath := located.value;
    assert Entails(disk, importerPath, entry, depPath);
    var loaded := cache.Load(disk, depPath);
    if loaded.Err? { return Err(loaded.error); }
    var dep := loaded.value;
    if dep.package != entry.pkgName { return Err(NameMismatch(importerPath, entry, dep.package)); }
    RankIsUse(dep.layer, importer.layer);
    if dep.layer.Rank() > importer.layer.Rank() {
      return Err(LayerViolation(importerPath, entry, importer.layer, dep.layer));
    }
    AuditedStep(disk, roots, importerPath, depPath);
    return Ok(depPath);
  }

  /** The audit accepts exactly when no audited manifest has an offending entry and no import was left
      unresolved; whichever order manifests are taken in, the error it raises is genuine. */
  method CheckPackageGraph(disk: Disk, cache: ManifestCache, unresolved: seq<Unresolved>, ghost paths: set<Path>)
    returns (r: Result<bool, AuditError>)
    requires cache.Valid(disk) && Finite(disk, cache.manifests.Keys, paths)
    modifies cache
    ensures cache.Valid(disk) && old(cache.manifests.Keys) <= cache.manifests.Keys
    ensures r.Ok? <==>
              unresolved == [] && forall p :: Audited(disk, old(cache.manifests.Keys), p) ==> ManifestOk(disk, p)
    ensures r.Ok? ==> forall p :: p in cache.manifests.Keys <==> Audited(disk, old(cache.manifests.Keys), p)
    ensures r.Err? ==> Genuine(disk, old(cache.manifests.Keys), unresolved, r.error)
  {
    hide Progress, InHand, Audited, EntryOk, ManifestOk, Settled, EntriesOk;
    ghost var roots := cache.manifests.Keys;
    var queue := KnownPaths(cache.manifests);
    var visited := Members(queue);
    ghost var done: set<Path> := {};
    StartsAudited(disk, roots, cache.manifests, queue);
    while queue != []
      invariant cache.Valid(disk) && roots <= cache.manifests.Keys == visited <= paths
      invariant Progress(disk, roots, cache.manifests, queue, visited, done)
      decreases paths - done
    {
      QueueTaken(disk, roots, cache.manifests, queue, visited, done);
      var importerPath := queue[0];
      var importer := cache.manifests[importerPath];
      queue := queue[1..];
      EntriesStart(disk, visited, importerPath);
      for k := 0 to |importer.depends|
        invariant cache.Valid(disk) && roots <= cache.manifests.Keys == visited <= paths
        invariant InHand(disk, roots, cache.manifests, queue, visited, done, importerPath)
        invariant EntriesOk(disk, visited, importerPath, importer.depends, k)
      {
        ghost var was := cache.manifests;
        var entry := importer.depends[k];
        var dep := AuditEntry(disk, cache, importerPath, importer, entry, roots, unresolved);
        if dep.Err? { return Err(dep.error); }
        Meets(disk, roots, was, cache.manifests, queue, visited, done, importerPath, dep.value);
        EntryDone(disk, visited, importerPath, importer.depends, k);
        if dep.value !in visited {
          visited := visited + {dep.value};
          queue := queue + [dep.value];
        }
        assert visited == was.Keys + {dep.value};
      }
      EntriesSettle(disk, visited, importerPath);
      PutDown(disk, roots, cache.manifests, queue, visited, done, importerPath);
      done := done + {importerPath};
    }
    SettledAll(disk, roots, cache.manifests, visited, done);
    AllAudited(disk, roots, cache.manifests, visited, done);
    if unresolved != [] { return Err(ImportUnresolved(unresolved[0])); }
    return Ok(true);
  }

  lemma EntriesStart(disk: Disk, visited: set<Path>, p: Path)
    requires disk.manifest(p).Some?
    ensures EntriesOk(disk, visited, p, disk.manifest(p).value.depends, 0)
  {
  }

  lemma EntryDone(disk: Disk, visited: set<Path>, p: Path, depends: seq<Depends>, k: nat)
    requires disk.manifest(p).Some? && k < |depends| && EntriesOk(disk, visited, p, depends, k)
    requires EntryOk(disk, p, depends[k])
    ensures EntriesOk(disk, visited + {disk.locate(p, depends[k]).value}, p, depends, k + 1)
  {
  }

  lemma AllAudited(disk: Disk, roots: set<Path>, cached: map<Path, Manifest>, visited: set<Path>, done: set<Path>)
    requires Progress(disk, roots, cached, [], visited, done)
    ensures forall p :: p in visited ==> Audited(disk, roots, p)
  {
  }
}
