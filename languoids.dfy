/**
 * The `Languoid` object: a descriptor, a checked lineage and a directory.
 * Its setters update the descriptor in place; its class methods build a
 * languoid from the directory tree (sharing the `nodes` memo between calls),
 * from a name, id and level, or from the flat format.
 */
module Languoids {
  import opened Wrappers
  import opened Errors
  import opened Identifiers
  import opened Levels
  import opened Descriptor
  import opened Lineages
  import opened Lff
  import opened TreeStore

  /** The memo dictionary `nodes` that `from_ini` and `from_dir` share and update. */
  class NodeCache {
    var nodes: Cache

    constructor ()
      ensures nodes == map[]
    {
      nodes := map[];
    }
  }

  /** The descriptor `from_name_id_level` builds: name and glottocode, the level through its setter, then the keyword arguments. */
  function NameIdLevelCfg(name: string, id: string, level: string, kw: seq<(string, string)>): Result<Cfg, Error> {
    match WriteLevel(map[NameKey := name, GlottocodeKey := id], level)
    case Failure(e) => Failure(e)
    case Success(cfg) => ApplyAttributes(cfg, kw)
  }

  /**
   * Keyword arguments as Python binds them: none can be named after one of
   * the method's own parameters.
   */
  predicate KeywordArgs(kw: seq<(string, string)>) {
    forall j :: 0 <= j < |kw| ==> kw[j].0 !in {"cls", "name", "id", "level"}
  }

  /**
   * A languoid made from a name, id and level reads back its name and level,
   * and its glottocode unless a `glottocode` keyword argument overwrote it; a
   * bad level is rejected.
   */
  lemma {:induction false} NameIdLevelReadBack(name: string, id: string, level: string, kw: seq<(string, string)>)
    requires KeywordArgs(kw)
    ensures Parse(level).None? ==> NameIdLevelCfg(name, id, level, kw) == Failure(InvalidLevel)
    ensures NameIdLevelCfg(name, id, level, kw).Success? ==>
      var cfg := NameIdLevelCfg(name, id, level, kw).value;
      && Get(cfg, NameKey) == Some(name)
      && ReadLevel(cfg) == Success(Parse(level))
      && ((forall j :: 0 <= j < |kw| ==> kw[j].0 != "glottocode") ==> Get(cfg, GlottocodeKey) == Some(id))
  {
    var w := WriteLevel(map[NameKey := name, GlottocodeKey := id], level);
    if w.Success? && ApplyAttributes(w.value, kw).Success? {
      var cfg := ApplyAttributes(w.value, kw).value;
      assert forall j :: 0 <= j < |kw| ==> !Writes(kw[j].0, NameKey) && !Writes(kw[j].0, LevelKey);
      ApplyAttributesFrame(w.value, kw, NameKey);
      ApplyAttributesFrame(w.value, kw, LevelKey);
      assert Get(cfg, LevelKey) == Get(w.value, LevelKey);
      if forall j :: 0 <= j < |kw| ==> kw[j].0 != "glottocode" {
        assert forall j :: 0 <= j < |kw| ==> !Writes(kw[j].0, GlottocodeKey);
        ApplyAttributesFrame(w.value, kw, GlottocodeKey);
      }
    }
  }

  class Languoid {
    var cfg: Cfg
    var lineage: seq<Ancestor>
    var dir: Path

    /** The languoid as a value: descriptor, lineage and directory. */
    function View(): Node
      reads this
    {
      Node(cfg, lineage, dir)
    }

    /** Only `New` calls this, with a lineage it has checked. */
    constructor (cfg0: Cfg, lineage0: seq<Ancestor>, dir0: Path)
      ensures View() == Node(cfg0, lineage0, dir0)
    {
      cfg := cfg0;
      lineage := lineage0;
      dir := dir0;
    }

    /**
     * `Languoid(cfg, lineage, directory)`: every lineage entry must have a
     * valid id and level; without a directory the languoid gets the tree
     * root followed by its ancestors' ids.
     */
    static method New(cfg: Cfg, raw: seq<Triple>, directory: Option<Path>) returns (r: Result<Languoid, Error>)
      ensures r.Success? <==> ValidateLineage(raw).Success?
      ensures r.Failure? ==> r.error == ValidateLineage(raw).error
      ensures r.Success? ==>
        var lineage := ValidateLineage(raw).value;
        fresh(r.value) && r.value.View() == Node(cfg, lineage, directory.GetOr(DefaultDir(lineage)))
    {
      match ValidateLineage(raw)
      case Failure(e) =>
        return Failure(e);
      case Success(lineage) =>
        var l := new Languoid(cfg, lineage, directory.GetOr(DefaultDir(lineage)));
        return Success(l);
    }

    /**
     * `setattr(languoid, attr, value)` with a string value: on success the
     * descriptor is that of `SetAttribute`; on failure nothing changes.
     */
    method SetAttr(attr: string, value: string) returns (err: Option<Error>)
      modifies this
      ensures lineage == old(lineage) && dir == old(dir)
      ensures match SetAttribute(old(cfg), attr, value)
        case Success(c) => err.None? && cfg == c
        case Failure(e) => err == Some(e) && cfg == old(cfg)
    {
      match SetAttribute(cfg, attr, value)
      case Failure(e) =>
        err := Some(e);
      case Success(c) =>
        cfg := c;
        err := None;
    }

    /** `lff_group()`: reading the level comes first, so a bad level raises even for an isolate. */
    function LffGroup(): (r: Result<string, Error>)
      reads this
      ensures r.Success? <==> ReadLevel(cfg).Success?
      ensures r.Failure? ==> r.error == InvalidLevel
    {
      match ReadLevel(cfg)
      case Failure(e) => Failure(e)
      case Success(level) => Success(GroupLabel(Get(cfg, NameKey), level, lineage))
    }

    /** `lff_language()` */
    function LffLanguage(): string
      reads this
    {
      LanguageLine(Get(cfg, NameKey), Get(cfg, GlottocodeKey), Get(cfg, IsoKey), Get(cfg, StatusKey))
    }

    /**
     * `from_name_id_level(name, id, level, **kw)`: a descriptor with name and
     * glottocode, an empty lineage, the level set through its setter, then
     * every keyword argument applied in order.
     */
    static method FromNameIdLevel(name: string, id: string, level: string, kw: seq<(string, string)>) returns (r: Result<Languoid, Error>)
      requires KeywordArgs(kw)
      ensures r.Success? <==> NameIdLevelCfg(name, id, level, kw).Success?
      ensures r.Failure? ==> r.error == NameIdLevelCfg(name, id, level, kw).error
      ensures r.Success? ==> fresh(r.value) && r.value.View() == Node(NameIdLevelCfg(name, id, level, kw).value, [], DefaultDir([]))
    {
      var base := map[NameKey := name, GlottocodeKey := id];
      var res := New(base, [], None);
      var l := res.value;
      var e := l.SetAttr("level", level);
      if e.Some? {
        return Failure(e.value);
      }
      var i := 0;
      while i < |kw|
        invariant 0 <= i <= |kw|
        invariant l.lineage == [] && l.dir == DefaultDir([]) && fresh(l)
        invariant ApplyAttributes(l.cfg, kw[i..]) == NameIdLevelCfg(name, id, level, kw)
      {
        assert kw[i..][0] == kw[i] && kw[i..][1..] == kw[i + 1..];
        e := l.SetAttr(kw[i].0, kw[i].1);
        if e.Some? {
          return Failure(e.value);
        }
        i := i + 1;
      }
      return Success(l);
    }

    /**
     * `from_lff(path, name_and_codes, level)`: the record `Lff.FromLff`
     * parses, as a languoid in its default directory.
     */
    static method FromLff(path: Option<string>, nameAndCodes: string, level: Level) returns (r: Result<Languoid, Error>)
      ensures var rec := Lff.FromLff(path, nameAndCodes, level);
        && (r.Success? <==> rec.Success?)
        && (r.Failure? ==> r.error == rec.error)
        && (r.Success? ==> fresh(r.value) && r.value.View() == Node(rec.value.cfg, rec.value.lineage, DefaultDir(rec.value.lineage)))
    {
      match Lff.FromLff(path, nameAndCodes, level)
      case Failure(e) =>
        return Failure(e);
      case Success(rec) =>
        var l := new Languoid(rec.cfg, rec.lineage, DefaultDir(rec.lineage));
        return Success(l);
    }

    /**
     * `from_ini(ini, nodes)`: read the descriptor, walk the enclosing
     * directories outwards collecting ancestors (loading and caching those
     * not seen yet), check the lineage, and cache the node's own triple.
     * A success is the one `TreeStore.LoadIni` describes, cache included.
     */
    static method FromIni(fs: FileSystem, ini: Path, cache: NodeCache) returns (r: Result<Languoid, Error>)
      modifies cache
      decreases |ini|, 2
      ensures r.Failure? ==> LoadIni(fs, ini, old(cache.nodes)) == Failure(r.error)
      ensures r.Success? ==>
        && LoadIni(fs, ini, old(cache.nodes)).Success?
        && fresh(r.value)
        && r.value.View() == LoadIni(fs, ini, old(cache.nodes)).value.0
        && cache.nodes == LoadIni(fs, ini, old(cache.nodes)).value.1
    {
      var dir := Parent(ini);
      var cfg := ReadIni(fs, ini);
      var found: seq<Triple> := [];
      if ini != [] {
        var k := |dir|;
        while k > 0
          invariant 0 <= k <= |dir|
          invariant WalkParents(fs, dir, k, cache.nodes, found) == WalkParents(fs, dir, |dir|, old(cache.nodes), [])
          decreases k
        {
          var parent := dir[..k - 1];
          var id := Name(parent);
          if id == Name(dir) {
            return Failure(AncestorClash);
          }
          if !IsId(id) {
            break;
          }
          if Some(id) !in cache.nodes {
            var loaded := FromDir(fs, parent, cache);
            if loaded.Failure? {
              return Failure(loaded.error);
            }
            if loaded.value.None? {
              return Failure(NoDescriptor);
            }
            var t := TripleOf(loaded.value.value.cfg);
            if t.Failure? {
              return Failure(t.error);
            }
            cache.nodes := cache.nodes[Some(id) := t.value];
          }
          found := found + [cache.nodes[Some(id)]];
          k := k - 1;
        }
      }
      var res := New(cfg, Reverse(found), Some(dir));
      if res.Failure? {
        return Failure(res.error);
      }
      var own := TripleOf(res.value.cfg);
      if own.Failure? {
        return Failure(own.error);
      }
      cache.nodes := cache.nodes[own.value.id := own.value];
      return Success(res.value);
    }

    /**
     * `from_dir(directory, nodes)`: the languoid of the first file in the
     * listing, which must be an `.ini` file; none if there is no file.
     */
    static method FromDir(fs: FileSystem, d: Path, cache: NodeCache) returns (r: Result<Option<Languoid>, Error>)
      modifies cache
      decreases |d| + 1, 3
      ensures r.Failure? ==> LoadDir(fs, d, old(cache.nodes)) == Failure(r.error)
      ensures r.Success? ==>
        && LoadDir(fs, d, old(cache.nodes)).Success?
        && cache.nodes == LoadDir(fs, d, old(cache.nodes)).value.1
        && (r.value.None? <==> LoadDir(fs, d, old(cache.nodes)).value.0.None?)
        && (r.value.Some? ==> fresh(r.value.value) && r.value.value.View() == LoadDir(fs, d, old(cache.nodes)).value.0.value)
    {
      if d !in fs {
        return Failure(NotADirectory);
      }
      var entries := fs[d];
      var i := 0;
      while i < |entries|
        invariant 0 <= i <= |entries|
        invariant FirstFile(entries, i) == FirstFile(entries, 0)
      {
        if entries[i].File? {
          var f := entries[i].name;
          if !HasIniSuffix(f) {
            return Failure(NotIniFile);
          }
          var l := FromIni(fs, d + [f], cache);
          if l.Failure? {
            return Failure(l.error);
          }
          return Success(Some(l.value));
        }
        i := i + 1;
      }
      return Success(None);
    }
  }
}
