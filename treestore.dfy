/**
 * Loading languoids from the directory tree: `from_ini` reads a descriptor and
 * rebuilds the lineage from the names of the enclosing directories, loading
 * each ancestor it has not seen before through `from_dir` and remembering
 * every loaded (name, id, level) triple in a cache keyed by id.
 *
 * The file system is a listing per directory, in `iterdir` order; a file
 * entry carries the `core` section of its descriptor.
 */
module TreeStore {
  import opened Wrappers
  import opened Errors
  import opened Identifiers
  import opened Levels
  import opened Descriptor
  import opened Lineages

  datatype Entry = File(name: string, content: Cfg) | Dir(name: string)

  /** The listing of every existing directory. */
  type FileSystem = map<Path, seq<Entry>>

  /** The `nodes` memo: id (or no id, for a descriptor without a glottocode) to triple. */
  type Cache = map<Option<string>, Triple>

  /** What a loaded languoid holds: its descriptor, its checked lineage and its directory. */
  datatype Node = Node(cfg: Cfg, lineage: seq<Ancestor>, dir: Path)

  /** `path.name`: the last component; the anchor's name is empty. */
  function Name(p: Path): string {
    if p == [] then "" else p[|p| - 1]
  }

  /** `path.parent`: the anchor is its own parent. */
  function Parent(p: Path): (r: Path)
    ensures p != [] ==> p == r + [Name(p)]
  {
    if p == [] then [] else p[..|p| - 1]
  }

  /** `p.suffix == '.ini'`: the name ends in `.ini` after at least one other character. */
  predicate HasIniSuffix(f: string) {
    |f| > 4 && f[|f| - 4..] == ".ini"
  }

  /** The index of the first file entry of a listing, if there is one. */
  function FirstFile(entries: seq<Entry>, from: nat): (r: Option<nat>)
    decreases |entries| - from
    ensures r.Some? ==> from <= r.value < |entries| && entries[r.value].File?
    ensures forall j :: from <= j < |entries| && (r.None? || j < r.value) ==> !entries[j].File?
  {
    if from >= |entries| then None
    else if entries[from].File? then Some(from)
    else FirstFile(entries, from + 1)
  }

  /** The index of the first file entry with the given name. */
  function FindFile(entries: seq<Entry>, name: string, from: nat): (r: Option<nat>)
    decreases |entries| - from
    ensures r.Some? ==> from <= r.value < |entries| && entries[r.value].File? && entries[r.value].name == name
    ensures r.None? ==> forall j :: from <= j < |entries| ==> !(entries[j].File? && entries[j].name == name)
    ensures r.Some? ==> forall j :: from <= j < r.value ==> !(entries[j].File? && entries[j].name == name)
  {
    if from >= |entries| then None
    else if entries[from].File? && entries[from].name == name then Some(from)
    else FindFile(entries, name, from + 1)
  }

  /** `cfg.read(ini)`: a file that is not there leaves the descriptor empty. */
  function ReadIni(fs: FileSystem, ini: Path): Cfg {
    var d := Parent(ini);
    if ini == [] || d !in fs then map[]
    else match FindFile(fs[d], Name(ini), 0)
      case None => map[]
      case Some(i) => fs[d][i].content
  }

  /** `(l.name, l.id, l.level)`: reading the level may raise. */
  function TripleOf(cfg: Cfg): Result<Triple, Error> {
    match ReadLevel(cfg)
    case Failure(e) => Failure(e)
    case Success(level) => Success(Triple(Get(cfg, NameKey), Get(cfg, GlottocodeKey), level))
  }

  function Reverse<T>(s: seq<T>): (r: seq<T>)
    decreases |s|
    ensures |r| == |s| && forall i :: 0 <= i < |s| ==> r[i] == s[|s| - 1 - i]
  {
    if s == [] then [] else Reverse(s[1..]) + [s[0]]
  }

  /**
   * `from_ini(ini, nodes)`: read the descriptor, collect the ancestors from
   * the enclosing directories, check the lineage, and record the node's own
   * triple under its id.
   */
  function LoadIni(fs: FileSystem, ini: Path, nodes: Cache): Result<(Node, Cache), Error>
    decreases |ini|, 2, 0
  {
    var dir := Parent(ini);
    var cfg := ReadIni(fs, ini);
    var walked: Result<(seq<Triple>, Cache), Error> := if ini == [] then Success(([], nodes)) else WalkParents(fs, dir, |dir|, nodes, []);
    match walked
    case Failure(e) => Failure(e)
    case Success((found, nodes1)) =>
      match ValidateLineage(Reverse(found))
      case Failure(e) => Failure(e)
      case Success(lineage) =>
        match TripleOf(cfg)
        case Failure(e) => Failure(e)
        case Success(t) => Success((Node(cfg, lineage, dir), nodes1[t.id := t]))
  }

  /**
   * The loop over `directory.parents`, nearest first. The parents still to
   * visit are `dir[..j]` for `j < k`; `found` holds the triples collected so
   * far, nearest ancestor first.
   */
  function WalkParents(fs: FileSystem, dir: Path, k: nat, nodes: Cache, found: seq<Triple>): Result<(seq<Triple>, Cache), Error>
    requires k <= |dir|
    decreases |dir| + 1, 1, k
  {
    if k == 0 then Success((found, nodes))
    else
      var parent := dir[..k - 1];
      var id := Name(parent);
      if id == Name(dir) then Failure(AncestorClash)
      else if !IsId(id) then Success((found, nodes))
      else if Some(id) in nodes then WalkParents(fs, dir, k - 1, nodes, found + [nodes[Some(id)]])
      else match LoadDir(fs, parent, nodes)
        case Failure(e) => Failure(e)
        case Success((None, _)) => Failure(NoDescriptor)
        case Success((Some(l), nodes1)) =>
          match TripleOf(l.cfg)
          case Failure(e) => Failure(e)
          case Success(t) => WalkParents(fs, dir, k - 1, nodes1[Some(id) := t], found + [t])
  }

  /**
   * `from_dir(directory, nodes)`: load the first file of the listing, which
   * must be an `.ini` file; a directory without files gives no languoid.
   */
  function LoadDir(fs: FileSystem, d: Path, nodes: Cache): Result<(Option<Node>, Cache), Error>
    decreases |d| + 1, 3, 0
  {
    if d !in fs then Failure(NotADirectory)
    else match FirstFile(fs[d], 0)
      case None => Success((None, nodes))
      case Some(i) =>
        var f := fs[d][i].name;
        if !HasIniSuffix(f) then Failure(NotIniFile)
        else match LoadIni(fs, d + [f], nodes)
          case Failure(e) => Failure(e)
          case Success((n, c)) => Success((Some(n), c))
  }

  // ---------------------------------------------------------------------------
  // Specification of the walk

  /**
   * The ancestor names the walk visits from `dir[..k-1]` outwards: the
   * contiguous run of names that match the id pattern, nearest first, up to
   * the first name that does not (at the latest, the anchor's empty name).
   */
  function WalkNames(dir: Path, k: nat): (r: seq<string>)
    requires k <= |dir|
    decreases k
    ensures k == 0 ==> r == []
    ensures k > 0 ==> |r| < k && !IsId(Name(dir[..k - 1 - |r|]))
    ensures forall i :: 0 <= i < |r| ==> r[i] == dir[k - 2 - i] && IsId(r[i])
  {
    if k == 0 then []
    else
      var id := Name(dir[..k - 1]);
      if IsId(id) then
        var rest := WalkNames(dir, k - 1);
        WalkNameStep(dir, k);
        WalkNamesCons(dir, k, rest);
        [id] + rest
      else []
  }

  /** Putting the parent's name in front of the run above it gives the run from `k`. */
  lemma {:induction false} WalkNamesCons(dir: Path, k: nat, rest: seq<string>)
    requires 2 <= k <= |dir| && IsId(dir[k - 2])
    requires |rest| < k - 1 && !IsId(Name(dir[..k - 2 - |rest|]))
    requires forall i :: 0 <= i < |rest| ==> rest[i] == dir[k - 3 - i] && IsId(rest[i])
    ensures var r := [dir[k - 2]] + rest;
      && |r| < k && !IsId(Name(dir[..k - 1 - |r|]))
      && forall i :: 0 <= i < |r| ==> r[i] == dir[k - 2 - i] && IsId(r[i])
  {
    var r := [dir[k - 2]] + rest;
    forall i | 0 <= i < |r| ensures r[i] == dir[k - 2 - i] && IsId(r[i]) {
      if i > 0 {
        assert r[i] == rest[i - 1];
      }
    }
  }

  /** A matching parent name is not the anchor's: it is the name of the directory one level up. */
  lemma {:induction false} WalkNameStep(dir: Path, k: nat)
    requires 0 < k <= |dir| && IsId(Name(dir[..k - 1]))
    ensures k >= 2 && Name(dir[..k - 1]) == dir[k - 2]
  {
    assert !IsId(Name(dir[..0]));
  }

  /** Every file in directory `d` carries the directory's name as its glottocode. */
  predicate DirCoherent(fs: FileSystem, d: Path) {
    d in fs ==> forall i :: 0 <= i < |fs[d]| && fs[d][i].File? ==> Get(fs[d][i].content, GlottocodeKey) == Some(Name(d))
  }

  /**
   * Every file in a directory named by an id (a node directory of the tree)
   * is that node's descriptor, carrying the directory's name as its
   * glottocode. Directories with other names, such as the ones above the tree
   * or `languoids` with its index pages and counter store, may hold anything.
   */
  predicate Coherent(fs: FileSystem) {
    forall d :: d in fs && IsId(Name(d)) ==> DirCoherent(fs, d)
  }

  /** The descriptor read from `ini` has no glottocode, or the name of its directory. */
  predicate NamedByDirectory(fs: FileSystem, ini: Path) {
    var g := Get(ReadIni(fs, ini), GlottocodeKey);
    g.None? || g == Some(Name(Parent(ini)))
  }

  /** Every cached triple is stored under its own id. */
  predicate CacheCoherent(c: Cache) {
    forall k :: k in c ==> c[k].id == k
  }

  /** Every entry of the old cache is still there, unchanged. */
  predicate Extends(before: Cache, after: Cache) {
    forall k :: k in before ==> k in after && after[k] == before[k]
  }

  /** In a coherent tree, a descriptor read from a node directory has no glottocode or that directory's name. */
  lemma {:induction false} ReadIniGlottocode(fs: FileSystem, ini: Path)
    requires Coherent(fs) && IsId(Name(Parent(ini)))
    ensures NamedByDirectory(fs, ini)
  {
    assert DirCoherent(fs, Parent(ini));
  }

  /** Loading the descriptor of a directory with a file entry reads that directory's descriptor. */
  lemma {:induction false} LoadedFromDir(fs: FileSystem, d: Path)
    requires DirCoherent(fs, d) && d in fs && FirstFile(fs[d], 0).Some?
    ensures var f := fs[d][FirstFile(fs[d], 0).value].name;
      Parent(d + [f]) == d && Get(ReadIni(fs, d + [f]), GlottocodeKey) == Some(Name(d))
  {
    var f := fs[d][FirstFile(fs[d], 0).value].name;
    assert (d + [f])[..|d|] == d;
    assert FindFile(fs[d], f, 0).Some?;
  }

  /**
   * What a successful walk over the names `w` leaves behind, starting from the
   * cache `nodes` with `found` already collected: one triple per name, each
   * with that name as its id; the cached triples reused; every old cache entry
   * in place; every visited ancestor cached.
   */
  predicate WalkOutcome(nodes: Cache, found: seq<Triple>, w: seq<string>, res: seq<Triple>, c: Cache) {
    && |res| == |found| + |w| && res[..|found|] == found
    && CacheCoherent(c) && Extends(nodes, c)
    && (forall i :: 0 <= i < |w| ==> res[|found| + i].id == Some(w[i]))
    && (forall i :: 0 <= i < |w| ==> Some(w[i]) in c && c[Some(w[i])] == res[|found| + i])
    && (forall i :: 0 <= i < |w| && Some(w[i]) in nodes ==> res[|found| + i] == nodes[Some(w[i])])
  }

  /** One step of the walk: visiting `id` with triple `t` extends the outcome of the rest by one. */
  lemma {:induction false} WalkOutcomeStep(nodes: Cache, nodes2: Cache, found: seq<Triple>, id: string, t: Triple, rest: seq<string>, res: seq<Triple>, c: Cache)
    requires WalkOutcome(nodes2, found + [t], rest, res, c)
    requires Extends(nodes, nodes2) && Some(id) in nodes2 && nodes2[Some(id)] == t && t.id == Some(id)
    requires Some(id) in nodes ==> nodes[Some(id)] == t
    ensures WalkOutcome(nodes, found, [id] + rest, res, c)
  {
    var w := [id] + rest;
    assert res[..|found|] == res[..|found| + 1][..|found|];
    assert res[|found|] == res[..|found| + 1][|found|];
    forall i | 0 <= i < |w|
      ensures res[|found| + i].id == Some(w[i])
      ensures Some(w[i]) in c && c[Some(w[i])] == res[|found| + i]
      ensures Some(w[i]) in nodes ==> res[|found| + i] == nodes[Some(w[i])]
    {
      if i > 0 {
        assert w[i] == rest[i - 1] && |found + [t]| + (i - 1) == |found| + i;
        if Some(w[i]) in nodes {
          assert Some(w[i]) in nodes2 && nodes2[Some(w[i])] == nodes[Some(w[i])];
        }
      }
    }
  }

  /**
   * A successful walk has the outcome `WalkOutcome` over the names of
   * `WalkNames`, and never meets the node's own directory name.
   */
  lemma {:induction false} WalkSpec(fs: FileSystem, dir: Path, k: nat, nodes: Cache, found: seq<Triple>)
    requires Coherent(fs) && CacheCoherent(nodes) && k <= |dir|
    ensures var r := WalkParents(fs, dir, k, nodes, found);
      r.Success? ==> WalkOutcome(nodes, found, WalkNames(dir, k), r.value.0, r.value.1) && Name(dir) !in WalkNames(dir, k)
    decreases |dir| + 1, 1, k, 1
  {
    if k > 0 && IsId(Name(dir[..k - 1])) {
      if Some(Name(dir[..k - 1])) in nodes {
        WalkCached(fs, dir, k, nodes, found);
      } else {
        WalkLoaded(fs, dir, k, nodes, found);
      }
    }
  }

  /** The step of the walk that reuses a cached ancestor. */
  lemma {:induction false} WalkCached(fs: FileSystem, dir: Path, k: nat, nodes: Cache, found: seq<Triple>)
    requires Coherent(fs) && CacheCoherent(nodes) && 0 < k <= |dir|
    requires IsId(Name(dir[..k - 1])) && Some(Name(dir[..k - 1])) in nodes
    ensures var r := WalkParents(fs, dir, k, nodes, found);
      r.Success? ==> WalkOutcome(nodes, found, WalkNames(dir, k), r.value.0, r.value.1) && Name(dir) !in WalkNames(dir, k)
    decreases |dir| + 1, 1, k, 0
  {
    var r := WalkParents(fs, dir, k, nodes, found);
    var id := Name(dir[..k - 1]);
    if r.Success? {
      var rest := WalkNames(dir, k - 1);
      assert WalkNames(dir, k) == [id] + rest;
      var t := nodes[Some(id)];
      assert r == WalkParents(fs, dir, k - 1, nodes, found + [t]);
      WalkSpec(fs, dir, k - 1, nodes, found + [t]);
      WalkOutcomeStep(nodes, nodes, found, id, t, rest, r.value.0, r.value.1);
    }
  }

  /** The step of the walk that loads an ancestor it has not seen and caches it. */
  lemma {:induction false} WalkLoaded(fs: FileSystem, dir: Path, k: nat, nodes: Cache, found: seq<Triple>)
    requires Coherent(fs) && CacheCoherent(nodes) && 0 < k <= |dir|
    requires IsId(Name(dir[..k - 1])) && Some(Name(dir[..k - 1])) !in nodes
    ensures var r := WalkParents(fs, dir, k, nodes, found);
      r.Success? ==> WalkOutcome(nodes, found, WalkNames(dir, k), r.value.0, r.value.1) && Name(dir) !in WalkNames(dir, k)
    decreases |dir| + 1, 1, k, 0
  {
    var r := WalkParents(fs, dir, k, nodes, found);
    var parent := dir[..k - 1];
    if r.Success? {
      var (l, nodes1) := LoadDir(fs, parent, nodes).value;
      var t := TripleOf(l.value.cfg).value;
      var nodes2 := nodes1[Some(Name(parent)) := t];
      LoadedAncestor(fs, parent, nodes);
      UnfoldLoaded(fs, dir, k, nodes, found);
      WalkSpec(fs, dir, k - 1, nodes2, found + [t]);
      WalkNamesStep(dir, k);
      WalkStepOutcome(nodes, nodes2, found, Name(parent), t, WalkNames(dir, k - 1), WalkNames(dir, k), r.value.0, r.value.1, Name(dir));
    }
  }

  /** The names of a walk that meets an id: that id, then the names of the rest of the walk. */
  lemma {:induction false} WalkNamesStep(dir: Path, k: nat)
    requires 0 < k <= |dir| && IsId(Name(dir[..k - 1]))
    ensures WalkNames(dir, k) == [Name(dir[..k - 1])] + WalkNames(dir, k - 1)
  {
  }

  /** `WalkOutcomeStep`, together with the fact that the node's own name is not among the visited ones. */
  lemma {:induction false} WalkStepOutcome(nodes: Cache, nodes2: Cache, found: seq<Triple>, id: string, t: Triple,
                                           rest: seq<string>, w: seq<string>, res: seq<Triple>, c: Cache, own: string)
    requires w == [id] + rest && id != own && own !in rest
    requires WalkOutcome(nodes2, found + [t], rest, res, c)
    requires Extends(nodes, nodes2) && Some(id) in nodes2 && nodes2[Some(id)] == t && t.id == Some(id)
    requires Some(id) !in nodes
    ensures WalkOutcome(nodes, found, w, res, c) && own !in w
  {
    WalkOutcomeStep(nodes, nodes2, found, id, t, rest, res, c);
  }

  /** A successful walk that meets an uncached ancestor has loaded it and carries on from the next parent. */
  lemma {:induction false} UnfoldLoaded(fs: FileSystem, dir: Path, k: nat, nodes: Cache, found: seq<Triple>)
    requires 0 < k <= |dir| && IsId(Name(dir[..k - 1])) && Some(Name(dir[..k - 1])) !in nodes
    requires WalkParents(fs, dir, k, nodes, found).Success?
    ensures var parent := dir[..k - 1];
      && Name(parent) != Name(dir)
      && LoadDir(fs, parent, nodes).Success? && LoadDir(fs, parent, nodes).value.0.Some?
      && TripleOf(LoadDir(fs, parent, nodes).value.0.value.cfg).Success?
      && var (l, nodes1) := LoadDir(fs, parent, nodes).value;
         var t := TripleOf(l.value.cfg).value;
         WalkParents(fs, dir, k, nodes, found) == WalkParents(fs, dir, k - 1, nodes1[Some(Name(parent)) := t], found + [t])
  {
  }

  /**
   * Loading an ancestor that is not cached and caching its triple under its
   * name keeps the cache coherent and every old entry in place.
   */
  lemma {:induction false} LoadedAncestor(fs: FileSystem, parent: Path, nodes: Cache)
    requires Coherent(fs) && CacheCoherent(nodes) && IsId(Name(parent)) && Some(Name(parent)) !in nodes
    requires LoadDir(fs, parent, nodes).Success? && LoadDir(fs, parent, nodes).value.0.Some?
    requires TripleOf(LoadDir(fs, parent, nodes).value.0.value.cfg).Success?
    ensures var (l, nodes1) := LoadDir(fs, parent, nodes).value;
      var t := TripleOf(l.value.cfg).value;
      && t.id == Some(Name(parent))
      && CacheCoherent(nodes1[Some(Name(parent)) := t])
      && Extends(nodes, nodes1[Some(Name(parent)) := t])
    decreases |parent| + 1, 3, 0, 1
  {
    assert DirCoherent(fs, parent);
    LoadDirSpec(fs, parent, nodes);
  }

  /**
   * Loading a directory's descriptor records it under the directory's name
   * and leaves every other cache entry in place; a directory without files
   * leaves the cache as it was.
   */
  lemma {:induction false} LoadDirSpec(fs: FileSystem, d: Path, nodes: Cache)
    requires Coherent(fs) && DirCoherent(fs, d) && CacheCoherent(nodes)
    ensures var r := LoadDir(fs, d, nodes);
      r.Success? ==>
        && CacheCoherent(r.value.1)
        && (r.value.0.None? ==> r.value.1 == nodes)
        && (r.value.0.Some? ==>
              && Get(r.value.0.value.cfg, GlottocodeKey) == Some(Name(d))
              && TripleOf(r.value.0.value.cfg).Success?
              && Some(Name(d)) in r.value.1 && r.value.1[Some(Name(d))] == TripleOf(r.value.0.value.cfg).value
              && forall k :: k in nodes && k != Some(Name(d)) ==> k in r.value.1 && r.value.1[k] == nodes[k])
    decreases |d| + 1, 3, 0, 0
  {
    var r := LoadDir(fs, d, nodes);
    if r.Success? && d in fs && FirstFile(fs[d], 0).Some? {
      var f := fs[d][FirstFile(fs[d], 0).value].name;
      LoadedFromDir(fs, d);
      LoadIniSpec(fs, d + [f], nodes);
    }
  }

  /**
   * `from_ini` leaves the cache coherent, records the node's own triple under
   * its id, and leaves every other old entry in place.
   */
  lemma {:induction false} LoadIniSpec(fs: FileSystem, ini: Path, nodes: Cache)
    requires Coherent(fs) && CacheCoherent(nodes)
    ensures var r := LoadIni(fs, ini, nodes);
      r.Success? ==>
        var own := Get(r.value.0.cfg, GlottocodeKey);
        && r.value.0.cfg == ReadIni(fs, ini) && r.value.0.dir == Parent(ini)
        && CacheCoherent(r.value.1)
        && TripleOf(r.value.0.cfg).Success? && own in r.value.1 && r.value.1[own] == TripleOf(r.value.0.cfg).value
        && forall k :: k in nodes && k != own ==> k in r.value.1 && r.value.1[k] == nodes[k]
    decreases |ini|, 2, 0, 0
  {
    if LoadIni(fs, ini, nodes).Success? {
      var t := TripleOf(ReadIni(fs, ini)).value;
      if ini != [] {
        var d := Parent(ini);
        UnfoldLoadIni(fs, ini, nodes);
        WalkSpec(fs, d, |d|, nodes, []);
        var c1 := WalkParents(fs, d, |d|, nodes, []).value.1;
        CacheInsert(nodes, c1, t);
      } else {
        CacheInsert(nodes, nodes, t);
      }
    }
  }

  /** Caching a triple under its own id keeps a coherent cache coherent and every other old entry in place. */
  lemma {:induction false} CacheInsert(nodes: Cache, c: Cache, t: Triple)
    requires CacheCoherent(c) && Extends(nodes, c)
    ensures CacheCoherent(c[t.id := t])
    ensures forall k :: k in nodes && k != t.id ==> k in c[t.id := t] && c[t.id := t][k] == nodes[k]
  {
  }

  /**
   * The lineage of a node in directory `d`, as rebuilt by `from_ini` with the
   * cache `nodes` and leaving the cache `c`: the ids of the contiguous run of
   * ancestor directories whose names match the id pattern, root first, ending
   * at the first name that does not match; none of them is the node's own
   * directory name. Every ancestor ends up cached with its triple, and an
   * ancestor that was cached already is taken from the cache unchanged.
   */
  predicate LineageFromTree(d: Path, nodes: Cache, lineage: seq<Ancestor>, c: Cache) {
    var m := |lineage|;
    && (d == [] ==> m == 0)
    && (d != [] ==> m < |d| && !IsId(Name(d[..|d| - 1 - m])))
    && (forall i :: 0 <= i < m ==> lineage[i].id == d[|d| - 1 - m + i] && lineage[i].id != Name(d))
    && (forall i :: 0 <= i < m ==> Some(lineage[i].id) in c && c[Some(lineage[i].id)] == AsTriple(lineage[i]))
    && (forall i :: 0 <= i < m && Some(lineage[i].id) in nodes ==> AsTriple(lineage[i]) == nodes[Some(lineage[i].id)])
  }

  /** A successful `from_ini` rebuilds the lineage `LineageFromTree` describes. */
  lemma {:induction false} LoadIniLineage(fs: FileSystem, ini: Path, nodes: Cache)
    requires Coherent(fs) && NamedByDirectory(fs, ini) && CacheCoherent(nodes) && LoadIni(fs, ini, nodes).Success?
    ensures LineageFromTree(Parent(ini), nodes, LoadIni(fs, ini, nodes).value.0.lineage, LoadIni(fs, ini, nodes).value.1)
  {
    var d := Parent(ini);
    if ini != [] {
      UnfoldLoadIni(fs, ini, nodes);
      WalkSpec(fs, d, |d|, nodes, []);
      var (found, c1) := WalkParents(fs, d, |d|, nodes, []).value;
      var t := TripleOf(ReadIni(fs, ini)).value;
      RunLineage(d, nodes, found, c1, ValidateLineage(Reverse(found)).value, t);
    }
  }

  /** A walk started with nothing collected: the i-th triple found is the i-th name's. */
  lemma {:induction false} WalkOutcomeFromEmpty(nodes: Cache, w: seq<string>, res: seq<Triple>, c: Cache)
    requires WalkOutcome(nodes, [], w, res, c)
    ensures |res| == |w|
    ensures forall j :: 0 <= j < |w| ==> res[j].id == Some(w[j]) && Some(w[j]) in c && c[Some(w[j])] == res[j]
    ensures forall j :: 0 <= j < |w| && Some(w[j]) in nodes ==> res[j] == nodes[Some(w[j])]
  {
    forall j | 0 <= j < |w|
      ensures res[j].id == Some(w[j]) && Some(w[j]) in c && c[Some(w[j])] == res[j]
      ensures Some(w[j]) in nodes ==> res[j] == nodes[Some(w[j])]
    {
      var empty: seq<Triple> := [];
      assert |empty| + j == j;
    }
  }

  /** The lineage checked from the collected triples lists them root first. */
  lemma {:induction false} LineageFromWalk(w: seq<string>, found: seq<Triple>, lineage: seq<Ancestor>)
    requires |found| == |w| && forall j :: 0 <= j < |w| ==> found[j].id == Some(w[j])
    requires ValidateLineage(Reverse(found)) == Success(lineage)
    ensures |lineage| == |w|
    ensures forall i :: 0 <= i < |w| ==> AsTriple(lineage[i]) == found[|w| - 1 - i] && lineage[i].id == w[|w| - 1 - i]
  {
    forall i | 0 <= i < |w|
      ensures AsTriple(lineage[i]) == found[|w| - 1 - i] && lineage[i].id == w[|w| - 1 - i]
    {
      assert AsTriple(lineage[i]) == Reverse(found)[i];
    }
  }

  /** Read root first, the names of the walk are the directory names just above the node's own. */
  lemma {:induction false} WalkNamesAbove(d: Path, lineage: seq<Ancestor>)
    requires var w := WalkNames(d, |d|);
      |lineage| == |w| && forall i :: 0 <= i < |w| ==> lineage[i].id == w[|w| - 1 - i]
    ensures var m := |lineage|;
      && (d == [] ==> m == 0)
      && (d != [] ==> m < |d| && !IsId(Name(d[..|d| - 1 - m])))
      && forall i :: 0 <= i < m ==> lineage[i].id == d[|d| - 1 - m + i]
  {
    var w := WalkNames(d, |d|);
    ReversedRun(d, w, lineage);
  }

  /** Names read off the path backwards from `d[|d| - 2]`, reversed, are the path's names in order. */
  lemma {:induction false} ReversedRun(d: Path, w: seq<string>, lineage: seq<Ancestor>)
    requires |w| < |d| || w == []
    requires forall j :: 0 <= j < |w| ==> w[j] == d[|d| - 2 - j]
    requires |lineage| == |w| && forall i :: 0 <= i < |w| ==> lineage[i].id == w[|w| - 1 - i]
    ensures forall i :: 0 <= i < |w| ==> lineage[i].id == d[|d| - 1 - |w| + i]
  {
    var m := |w|;
    forall i | 0 <= i < m
      ensures lineage[i].id == d[|d| - 1 - m + i]
    {
      var j := m - 1 - i;
      assert lineage[i].id == w[j];
      assert |d| - 2 - j == |d| - 1 - m + i;
    }
  }

  /** Recording the node's own triple leaves the ancestors' cache entries alone. */
  lemma {:induction false} AncestorsStayCached(d: Path, w: seq<string>, found: seq<Triple>, c1: Cache, lineage: seq<Ancestor>, t: Triple)
    requires |found| == |w| && |lineage| == |w| && Name(d) !in w
    requires forall j :: 0 <= j < |w| ==> Some(w[j]) in c1 && c1[Some(w[j])] == found[j]
    requires forall i :: 0 <= i < |w| ==> AsTriple(lineage[i]) == found[|w| - 1 - i] && lineage[i].id == w[|w| - 1 - i]
    requires t.id == None || t.id == Some(Name(d))
    ensures forall i :: 0 <= i < |w| ==> lineage[i].id != Name(d)
    ensures var c := c1[t.id := t];
      forall i :: 0 <= i < |w| ==> Some(lineage[i].id) in c && c[Some(lineage[i].id)] == AsTriple(lineage[i])
  {
    var m := |w|;
    forall i | 0 <= i < m
      ensures lineage[i].id != Name(d)
      ensures Some(lineage[i].id) in c1[t.id := t] && c1[t.id := t][Some(lineage[i].id)] == AsTriple(lineage[i])
    {
      assert w[m - 1 - i] in w;
    }
  }

  /** The lineage checked from the triples a walk collected, and the cache after the own triple is recorded. */
  lemma {:induction false} RunLineage(d: Path, nodes: Cache, found: seq<Triple>, c1: Cache, lineage: seq<Ancestor>, t: Triple)
    requires WalkOutcome(nodes, [], WalkNames(d, |d|), found, c1) && Name(d) !in WalkNames(d, |d|)
    requires ValidateLineage(Reverse(found)) == Success(lineage)
    requires t.id == None || t.id == Some(Name(d))
    ensures LineageFromTree(d, nodes, lineage, c1[t.id := t])
  {
    var w := WalkNames(d, |d|);
    WalkOutcomeFromEmpty(nodes, w, found, c1);
    LineageFromWalk(w, found, lineage);
    WalkNamesAbove(d, lineage);
    AncestorsStayCached(d, w, found, c1, lineage, t);
  }

  /**
   * A node whose parent directory has the node's own directory name is
   * rejected, whether or not that name matches the id pattern: the clash is
   * checked before the pattern.
   */
  lemma {:induction false} ParentNameClash(fs: FileSystem, ini: Path, nodes: Cache)
    requires |ini| >= 3 && ini[|ini| - 3] == ini[|ini| - 2]
    ensures LoadIni(fs, ini, nodes) == Failure(AncestorClash)
  {
    var d := Parent(ini);
    assert Name(d[..|d| - 1]) == Name(d);
    assert WalkParents(fs, d, |d|, nodes, []) == Failure(AncestorClash);
  }

  // ---------------------------------------------------------------------------
  // Ancestors carry their own descriptors

  /** The (name, id, level) of the descriptor `from_dir` reads in directory `a`: that of the first file of its listing. */
  function DirTriple(fs: FileSystem, a: Path): Option<Triple> {
    if a !in fs then None
    else match FirstFile(fs[a], 0)
      case None => None
      case Some(i) =>
        match TripleOf(fs[a][i].content)
        case Failure(_) => None
        case Success(t) => Some(t)
  }

  predicate HasFile(fs: FileSystem, a: Path) {
    a in fs && FirstFile(fs[a], 0).Some?
  }

  /**
   * The layout of the tree that keying the cache by id relies on: a node
   * directory (one named by an id) holds at most one file, its descriptor,
   * and no two node directories holding one have the same name.
   */
  ghost predicate WellLaidOut(fs: FileSystem) {
    && (forall a, i, j :: a in fs && IsId(Name(a)) && 0 <= i < |fs[a]| && 0 <= j < |fs[a]| && fs[a][i].File? && fs[a][j].File? ==> i == j)
    && (forall a, b :: HasFile(fs, a) && HasFile(fs, b) && IsId(Name(a)) && Name(a) == Name(b) ==> a == b)
  }

  /** Every cached id that names a node directory with a readable descriptor holds that descriptor's triple. */
  ghost predicate CacheSound(fs: FileSystem, c: Cache) {
    forall a :: IsId(Name(a)) && DirTriple(fs, a).Some? && Some(Name(a)) in c ==> c[Some(Name(a))] == DirTriple(fs, a).value
  }

  /** Reading the first file of a listing reads that file's descriptor. */
  lemma {:induction false} ReadFirstFile(fs: FileSystem, d: Path, i: nat)
    requires d in fs && FirstFile(fs[d], 0) == Some(i)
    ensures ReadIni(fs, d + [fs[d][i].name]) == fs[d][i].content
  {
    var f := fs[d][i].name;
    assert (d + [f])[..|d|] == d;
    assert Parent(d + [f]) == d && Name(d + [f]) == f;
    var r := FindFile(fs[d], f, 0);
    assert r.Some?;
    assert r.value == i;
  }

  /** In a well-laid-out tree, a descriptor with a glottocode read from `ini` is its directory's only file. */
  lemma {:induction false} ReadIniIsDirDescriptor(fs: FileSystem, ini: Path)
    requires WellLaidOut(fs) && IsId(Name(Parent(ini))) && Get(ReadIni(fs, ini), GlottocodeKey).Some?
    ensures ini != [] && HasFile(fs, Parent(ini))
    ensures ReadIni(fs, ini) == fs[Parent(ini)][FirstFile(fs[Parent(ini)], 0).value].content
  {
    var d := Parent(ini);
    assert ini != [] && d in fs;
    var j := FindFile(fs[d], Name(ini), 0).value;
    assert fs[d][j].File?;
    assert FirstFile(fs[d], 0).Some?;
    var i := FirstFile(fs[d], 0).value;
    assert i == j;
  }

  /** A directory that `from_dir` loads holds a file, and the loaded descriptor is that file's. */
  lemma {:induction false} LoadDirReadsFirstFile(fs: FileSystem, d: Path, nodes: Cache)
    requires Coherent(fs) && CacheCoherent(nodes)
    requires LoadDir(fs, d, nodes).Success? && LoadDir(fs, d, nodes).value.0.Some?
    ensures HasFile(fs, d)
    ensures LoadDir(fs, d, nodes).value.0.value.cfg == fs[d][FirstFile(fs[d], 0).value].content
  {
    var i := FirstFile(fs[d], 0).value;
    var f := fs[d][i].name;
    LoadIniSpec(fs, d + [f], nodes);
    ReadFirstFile(fs, d, i);
  }

  /** Caching a directory's descriptor triple under the directory's name keeps the cache sound. */
  lemma {:induction false} CacheSoundInsert(fs: FileSystem, c: Cache, a: Path, t: Triple)
    requires WellLaidOut(fs) && CacheSound(fs, c) && DirTriple(fs, a) == Some(t)
    ensures CacheSound(fs, c[Some(Name(a)) := t])
  {
    forall b | IsId(Name(b)) && DirTriple(fs, b).Some? && Some(Name(b)) in c[Some(Name(a)) := t]
      ensures c[Some(Name(a)) := t][Some(Name(b))] == DirTriple(fs, b).value
    {
      if Name(b) == Name(a) {
        assert HasFile(fs, a) && HasFile(fs, b);
      }
    }
  }

  /** Caching a triple under no id, or under a name that is not an id, keeps the cache sound. */
  lemma {:induction false} CacheSoundInsertOther(fs: FileSystem, c: Cache, k: Option<string>, t: Triple)
    requires CacheSound(fs, c) && (k.None? || !IsId(k.value))
    ensures CacheSound(fs, c[k := t])
  {
  }

  /** `from_ini` keeps a sound cache sound. */
  lemma {:induction false} SoundLoadIni(fs: FileSystem, ini: Path, nodes: Cache)
    requires Coherent(fs) && WellLaidOut(fs) && NamedByDirectory(fs, ini) && CacheCoherent(nodes) && CacheSound(fs, nodes)
    ensures LoadIni(fs, ini, nodes).Success? ==> CacheSound(fs, LoadIni(fs, ini, nodes).value.1)
    decreases |ini|, 2, 0
  {
    if LoadIni(fs, ini, nodes).Success? {
      var t := TripleOf(ReadIni(fs, ini)).value;
      var c1 := nodes;
      if ini != [] {
        var d := Parent(ini);
        UnfoldLoadIni(fs, ini, nodes);
        SoundWalk(fs, d, |d|, nodes, []);
        c1 := WalkParents(fs, d, |d|, nodes, []).value.1;
      }
      assert LoadIni(fs, ini, nodes).value.1 == c1[t.id := t];
      if t.id.Some? && IsId(t.id.value) {
        ReadIniIsDirDescriptor(fs, ini);
        CacheSoundInsert(fs, c1, Parent(ini), t);
      } else {
        CacheSoundInsertOther(fs, c1, t.id, t);
      }
    }
  }

  /** The walk over the parents keeps a sound cache sound. */
  lemma {:induction false} SoundWalk(fs: FileSystem, dir: Path, k: nat, nodes: Cache, found: seq<Triple>)
    requires Coherent(fs) && WellLaidOut(fs) && CacheCoherent(nodes) && CacheSound(fs, nodes) && k <= |dir|
    ensures WalkParents(fs, dir, k, nodes, found).Success? ==> CacheSound(fs, WalkParents(fs, dir, k, nodes, found).value.1)
    decreases |dir| + 1, 1, k
  {
    if k > 0 && WalkParents(fs, dir, k, nodes, found).Success? {
      var parent := dir[..k - 1];
      var id := Name(parent);
      if IsId(id) {
        if Some(id) in nodes {
          SoundWalk(fs, dir, k - 1, nodes, found + [nodes[Some(id)]]);
        } else {
          UnfoldLoaded(fs, dir, k, nodes, found);
          var (l, nodes1) := LoadDir(fs, parent, nodes).value;
          var t := TripleOf(l.value.cfg).value;
          assert DirCoherent(fs, parent);
          SoundLoadDir(fs, parent, nodes);
          LoadedAncestor(fs, parent, nodes);
          LoadDirReadsFirstFile(fs, parent, nodes);
          CacheSoundInsert(fs, nodes1, parent, t);
          SoundWalk(fs, dir, k - 1, nodes1[Some(id) := t], found + [t]);
        }
      }
    }
  }

  /** `from_dir` keeps a sound cache sound. */
  lemma {:induction false} SoundLoadDir(fs: FileSystem, d: Path, nodes: Cache)
    requires Coherent(fs) && WellLaidOut(fs) && DirCoherent(fs, d) && CacheCoherent(nodes) && CacheSound(fs, nodes)
    ensures LoadDir(fs, d, nodes).Success? ==> CacheSound(fs, LoadDir(fs, d, nodes).value.1)
    decreases |d| + 1, 3, 0
  {
    if LoadDir(fs, d, nodes).Success? && d in fs && FirstFile(fs[d], 0).Some? {
      LoadedFromDir(fs, d);
      SoundLoadIni(fs, d + [fs[d][FirstFile(fs[d], 0).value].name], nodes);
    }
  }

  /** The directory of the ancestor `i` steps up the walk from `dir[..k]`: the one named by the walk's `i`-th name. */
  function WalkDir(dir: Path, k: nat, i: nat): Path
    requires i < k <= |dir|
  {
    dir[..k - 1 - i]
  }

  /**
   * The directory of the `i`-th entry of a lineage of length `m` for a node in
   * directory `d`, root first: `m - i` levels up from `d`.
   */
  function LineageDir(d: Path, m: nat, i: nat): Path
    requires i < m <= |d|
  {
    d[..|d| - m + i]
  }

  /**
   * Starting from a sound cache (the empty one, say), every ancestor the walk
   * collects whose directory holds a readable descriptor carries that
   * descriptor's name, id and level, whether it was loaded or taken from the
   * cache.
   */
  lemma {:induction false} WalkReadsDescriptors(fs: FileSystem, dir: Path, k: nat, nodes: Cache, found: seq<Triple>)
    requires Coherent(fs) && WellLaidOut(fs) && CacheCoherent(nodes) && CacheSound(fs, nodes) && k <= |dir|
    ensures var r := WalkParents(fs, dir, k, nodes, found);
      var w := WalkNames(dir, k);
      r.Success? ==>
        && CacheSound(fs, r.value.1)
        && |r.value.0| == |found| + |w|
        && forall i :: 0 <= i < |w| && DirTriple(fs, WalkDir(dir, k, i)).Some? ==>
             r.value.0[|found| + i] == DirTriple(fs, WalkDir(dir, k, i)).value
  {
    var r := WalkParents(fs, dir, k, nodes, found);
    if r.Success? {
      WalkSpec(fs, dir, k, nodes, found);
      SoundWalk(fs, dir, k, nodes, found);
      assert WalkOutcome(nodes, found, WalkNames(dir, k), r.value.0, r.value.1);
      SoundWalkOutcome(fs, dir, k, WalkNames(dir, k), found, r.value.0, r.value.1);
    }
  }

  /** The directory `i` steps up the walk from `dir[..k]` is named by the entry of `dir` just below it. */
  lemma {:induction false} WalkDirName(dir: Path, k: nat, i: nat)
    requires i + 2 <= k <= |dir|
    ensures Name(WalkDir(dir, k, i)) == dir[k - 2 - i]
  {
    var a := WalkDir(dir, k, i);
    assert |a| == k - 1 - i && a[|a| - 1] == dir[k - 2 - i];
  }

  /**
   * A walk over the names `w`, each the name of the directory it visits, that
   * leaves a sound cache holding every visited triple carries the descriptors
   * of the visited directories.
   */
  lemma {:induction false} SoundWalkOutcome(fs: FileSystem, dir: Path, k: nat, w: seq<string>, found: seq<Triple>, res: seq<Triple>, c: Cache)
    requires k <= |dir| && (w == [] || |w| < k) && |res| == |found| + |w| && CacheSound(fs, c)
    requires forall i :: 0 <= i < |w| ==> w[i] == dir[k - 2 - i] && IsId(w[i])
    requires forall i :: 0 <= i < |w| ==> Some(w[i]) in c && c[Some(w[i])] == res[|found| + i]
    ensures forall i :: 0 <= i < |w| && DirTriple(fs, WalkDir(dir, k, i)).Some? ==>
      res[|found| + i] == DirTriple(fs, WalkDir(dir, k, i)).value
  {
    forall i | 0 <= i < |w| && DirTriple(fs, WalkDir(dir, k, i)).Some?
      ensures res[|found| + i] == DirTriple(fs, WalkDir(dir, k, i)).value
    {
      WalkDirName(dir, k, i);
      assert Name(WalkDir(dir, k, i)) == w[i];
      assert Some(w[i]) in c && c[Some(w[i])] == res[|found| + i];
    }
  }

  /** A lineage whose ancestors are all held by a sound cache carries its directories' descriptors. */
  lemma {:induction false} SoundLineage(fs: FileSystem, d: Path, nodes: Cache, lineage: seq<Ancestor>, c: Cache)
    requires LineageFromTree(d, nodes, lineage, c) && CacheSound(fs, c)
    ensures |lineage| <= |d|
    ensures forall i :: 0 <= i < |lineage| && DirTriple(fs, LineageDir(d, |lineage|, i)).Some? ==>
      AsTriple(lineage[i]) == DirTriple(fs, LineageDir(d, |lineage|, i)).value
  {
    var m := |lineage|;
    forall i | 0 <= i < m && DirTriple(fs, LineageDir(d, m, i)).Some?
      ensures AsTriple(lineage[i]) == DirTriple(fs, LineageDir(d, m, i)).value
    {
      var a := LineageDir(d, m, i);
      assert Name(a) == d[|d| - 1 - m + i] == lineage[i].id;
      assert Some(lineage[i].id) in c && c[Some(lineage[i].id)] == AsTriple(lineage[i]);
    }
  }

  /**
   * Starting from a sound cache, `from_ini` leaves it sound, and every
   * ancestor in the rebuilt lineage whose directory holds a readable
   * descriptor has that descriptor's name, id and level.
   */
  lemma {:induction false} LoadIniReadsDescriptors(fs: FileSystem, ini: Path, nodes: Cache)
    requires Coherent(fs) && WellLaidOut(fs) && NamedByDirectory(fs, ini) && CacheCoherent(nodes) && CacheSound(fs, nodes)
    requires LoadIni(fs, ini, nodes).Success?
    ensures var d := Parent(ini);
      var lineage := LoadIni(fs, ini, nodes).value.0.lineage;
      && CacheSound(fs, LoadIni(fs, ini, nodes).value.1)
      && |lineage| <= |d|
      && forall i :: 0 <= i < |lineage| && DirTriple(fs, LineageDir(d, |lineage|, i)).Some? ==>
           AsTriple(lineage[i]) == DirTriple(fs, LineageDir(d, |lineage|, i)).value
  {
    var (n, c) := LoadIni(fs, ini, nodes).value;
    SoundLoadIni(fs, ini, nodes);
    LoadIniLineage(fs, ini, nodes);
    SoundLineage(fs, Parent(ini), nodes, n.lineage, c);
  }

  /**
   * A checkout's layout meets both assumptions: `languoids` holds the counter
   * store and an index page beside the tree, while the node directory
   * `abcd1234` holds its one descriptor.
   */
  lemma {:induction false} CheckoutLayout()
    ensures var node := TreeRoot + ["abcd1234"];
      var fs := map[
        ["languoids"] := [File("glottocodes.json", map[]), File("index.md", map[]), Dir("tree")],
        TreeRoot := [Dir("abcd1234")],
        node := [File("md.ini", map[NameKey := "A", GlottocodeKey := "abcd1234"])]];
      Coherent(fs) && WellLaidOut(fs)
  {
    var node := TreeRoot + ["abcd1234"];
    var fs := map[
      ["languoids"] := [File("glottocodes.json", map[]), File("index.md", map[]), Dir("tree")],
      TreeRoot := [Dir("abcd1234")],
      node := [File("md.ini", map[NameKey := "A", GlottocodeKey := "abcd1234"])]];
    assert !IsId("languoids") && !IsId("tree");
    assert Name(node) == "abcd1234";
    assert forall a :: a in fs && IsId(Name(a)) ==> a == node;
  }

  /** A successful `from_ini` below the anchor has walked the parents, checked the lineage and read the level. */
  lemma {:induction false} UnfoldLoadIni(fs: FileSystem, ini: Path, nodes: Cache)
    requires ini != [] && LoadIni(fs, ini, nodes).Success?
    ensures var d := Parent(ini);
      && WalkParents(fs, d, |d|, nodes, []).Success?
      && var (found, c1) := WalkParents(fs, d, |d|, nodes, []).value;
         && ValidateLineage(Reverse(found)).Success?
         && TripleOf(ReadIni(fs, ini)).Success?
         && var t := TripleOf(ReadIni(fs, ini)).value;
            LoadIni(fs, ini, nodes).value == (Node(ReadIni(fs, ini), ValidateLineage(Reverse(found)).value, d), c1[t.id := t])
  {
  }
}
