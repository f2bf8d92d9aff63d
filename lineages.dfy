/**
 * Lineages: the root-first list of a languoid's ancestors, as checked by the
 * languoid constructor, and the directory a languoid gets by default.
 */
module Lineages {
  import opened Wrappers
  import opened Errors
  import opened Identifiers
  import opened Levels

  /** A directory path as the sequence of its component names (the anchor is the empty path). */
  type Path = seq<string>

  /** `languoids_path('tree')`, the root of the languoid tree inside the repository. */
  const TreeRoot: Path := ["languoids", "tree"]

  /** A checked lineage entry: its id matches the pattern and its level is a level. */
  datatype Ancestor = Ancestor(name: Option<string>, id: Id, level: Level)

  /**
   * An unchecked (name, id, level) entry as the callers build it; any part may
   * be missing (a descriptor without that option).
   */
  datatype Triple = Triple(name: Option<string>, id: Option<string>, level: Option<Level>)

  predicate IsValidEntry(t: Triple) {
    t.id.Some? && IsId(t.id.value) && t.level.Some?
  }

  function AsTriple(a: Ancestor): Triple {
    Triple(a.name, Some(a.id), Some(a.level))
  }

  /**
   * Checking one entry raises before the assertion is reached: matching a
   * missing id is a type error, and a matching id makes `Level(level)` run,
   * which rejects a missing level.
   */
  predicate Raises(t: Triple) {
    t.id.None? || (IsId(t.id.value) && t.level.None?)
  }

  /** The exception an entry that `Raises` raises. */
  function RaisedBy(t: Triple): Error {
    if t.id.None? then MissingId else InvalidLevel
  }

  /**
   * The check made when a languoid is constructed. The list of checks is
   * built entry by entry before `all` looks at it, so the first entry that
   * raises decides the error; only when none raises does a non-matching id
   * fail the assertion. On success the entries are kept as they are, in the
   * same order.
   */
  function ValidateLineage(raw: seq<Triple>): (r: Result<seq<Ancestor>, Error>)
    decreases |raw|
    ensures r.Success? <==> forall i :: 0 <= i < |raw| ==> IsValidEntry(raw[i])
    ensures r.Failure? && (forall i :: 0 <= i < |raw| ==> !Raises(raw[i])) ==> r.error == InvalidLineage
    ensures forall i :: 0 <= i < |raw| && Raises(raw[i]) && (forall j :: 0 <= j < i ==> !Raises(raw[j])) ==>
      r == Failure(RaisedBy(raw[i]))
    ensures r.Success? ==> |r.value| == |raw| && forall i :: 0 <= i < |raw| ==> AsTriple(r.value[i]) == raw[i]
  {
    if raw == [] then Success([])
    else
      var t := raw[0];
      if Raises(t) then Failure(RaisedBy(t))
      else
        var rest := ValidateLineage(raw[1..]);
        assert forall i :: 1 <= i < |raw| ==> raw[i] == raw[1..][i - 1];
        match rest
        case Failure(e) => Failure(e)
        case Success(tail) =>
          if !IsValidEntry(t) then Failure(InvalidLineage)
          else Success([Ancestor(t.name, t.id.value, t.level.value)] + tail)
  }

  /**
   * A later entry with a matching id and no level raises `ValueError` even
   * though an earlier entry already has an id that does not match.
   */
  lemma {:induction false} LineageErrorOrder(name: Option<string>)
    ensures ValidateLineage([Triple(name, Some("x"), Some(Family)), Triple(name, Some("abcd1234"), None)]) == Failure(InvalidLevel)
    ensures ValidateLineage([Triple(name, Some("x"), Some(Family)), Triple(name, None, Some(Family))]) == Failure(MissingId)
    ensures ValidateLineage([Triple(name, Some("x"), None), Triple(name, Some("abcd1234"), Some(Family))]) == Failure(InvalidLineage)
  {
    assert IsId("abcd1234") by {
      assert IsGlottocodeForm("abcd1234");
    }
    assert !IsId("x");
  }

  /** The ids of a lineage, in order. */
  function AncestorIds(lineage: seq<Ancestor>): (ids: seq<string>)
    decreases |lineage|
    ensures |ids| == |lineage| && forall i :: 0 <= i < |lineage| ==> ids[i] == lineage[i].id
  {
    if lineage == [] then [] else [lineage[0].id] + AncestorIds(lineage[1..])
  }

  /**
   * The directory a languoid gets when none is given: the tree root followed
   * by the ids of its ancestors. The languoid's own id is not appended.
   */
  function DefaultDir(lineage: seq<Ancestor>): (p: Path)
    ensures |p| == |TreeRoot| + |lineage| && p[..|TreeRoot|] == TreeRoot
    ensures forall i :: 0 <= i < |lineage| ==> p[|TreeRoot| + i] == lineage[i].id
  {
    TreeRoot + AncestorIds(lineage)
  }
}
