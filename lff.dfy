/**
 * The flat "lineage file" format: the group label a languoid is listed under
 * (`lff_group`), its own record line (`lff_language`), and the parser that
 * turns a label and a record back into a descriptor and a lineage (`from_lff`).
 */
module Lff {
  import opened Wrappers
  import opened Errors
  import opened Text
  import opened Identifiers
  import opened Levels
  import opened Descriptor
  import opened Lineages

  const Unclassified := "ERROR [-unclassified-]"
  const IsolateSuffix := " [-isolate-]"

  /** `'%s' % value` for an optional string: a missing value prints as `None`. */
  function Show(o: Option<string>): string {
    match o
    case None => "None"
    case Some(s) => s
  }

  /** `'%s [%s' % (name, id)`: a segment without its closing bracket. */
  function Opened(a: Ancestor): string {
    Show(a.name) + " [" + a.id
  }

  /** `'%s [%s]' % (name, id)` */
  function Segment(a: Ancestor): string {
    Opened(a) + "]"
  }

  function Segments(lineage: seq<Ancestor>): (r: seq<string>)
    decreases |lineage|
    ensures |r| == |lineage| && forall i :: 0 <= i < |lineage| ==> r[i] == Segment(lineage[i])
  {
    if lineage == [] then [] else [Segment(lineage[0])] + Segments(lineage[1..])
  }

  /**
   * Where the trailing run of non-family entries of `lineage[..k]` starts:
   * every entry from there up to `k` is not a family, and the one just
   * before it (if any) is.
   */
  function TailStart(lineage: seq<Ancestor>, k: nat): (s: nat)
    requires k <= |lineage|
    decreases k
    ensures s <= k
    ensures forall i :: s <= i < k ==> lineage[i].level != Family
    ensures s > 0 ==> lineage[s - 1].level == Family
  {
    if k == 0 || lineage[k - 1].level == Family then k else TailStart(lineage, k - 1)
  }

  /**
   * The trailing run of non-family ancestors, root first: the longest suffix
   * of the lineage that holds no family, so the entry just before it (if any)
   * is a family.
   */
  function NonFamilyTail(lineage: seq<Ancestor>): (r: seq<Ancestor>)
    ensures |r| <= |lineage| && r == lineage[|lineage| - |r|..]
    ensures forall i :: 0 <= i < |r| ==> r[i].level != Family
    ensures |r| < |lineage| ==> lineage[|lineage| - |r| - 1].level == Family
  {
    lineage[TailStart(lineage, |lineage|)..]
  }

  /** The ancestors a languoid's label shows: a dialect shows only its non-family tail. */
  function Shown(level: Option<Level>, lineage: seq<Ancestor>): seq<Ancestor> {
    if level == Some(Dialect) then NonFamilyTail(lineage) else lineage
  }

  /** `lff_group`, given the languoid's name, level and lineage. */
  function GroupLabel(name: Option<string>, level: Option<Level>, lineage: seq<Ancestor>): string {
    if lineage == [] then Show(name) + IsolateSuffix
    else
      var res := Join(Segments(Shown(level, lineage)), ", ");
      if res == "" then Unclassified else res
  }

  /** `lff_language`, given the languoid's name, id, iso code and classification status. */
  function LanguageLine(name: Option<string>, id: Option<string>, iso: Option<string>, status: Option<string>): string {
    var res := "    " + Show(name) + " [" + Show(id) + "][" + iso.GetOr("") + "]";
    if status.Some? && status.value != "" then res + " " + status.value else res
  }

  /**
   * `lff_language`: the line without a status is indented and ends with the
   * iso bracket; a missing and an empty iso code print alike; a status is
   * appended after one space exactly when it is non-empty.
   */
  lemma {:induction false} LanguageLineCases(name: Option<string>, id: Option<string>, iso: Option<string>, status: Option<string>)
    ensures var base := LanguageLine(name, id, iso, None);
      && base[..4] == "    " && EndsWith(base, ']')
      && LanguageLine(name, id, Some(""), status) == LanguageLine(name, id, None, status)
      && (status.Some? && status.value != "" ==> LanguageLine(name, id, iso, status) == base + " " + status.value)
      && (status.None? || status.value == "" ==> LanguageLine(name, id, iso, status) == base)
  {
    var base := LanguageLine(name, id, iso, None);
    assert base == "    " + (Show(name) + " [" + Show(id) + "][" + iso.GetOr("") + "]");
  }

  lemma {:induction false} JoinEndsWithLast(parts: seq<string>, sep: string)
    requires |parts| >= 1
    ensures |Join(parts, sep)| >= |parts[|parts| - 1]|
    ensures Join(parts, sep)[|Join(parts, sep)| - |parts[|parts| - 1]|..] == parts[|parts| - 1]
    decreases |parts|
  {
    if |parts| > 1 {
      JoinEndsWithLast(parts[1..], sep);
    }
  }

  /** The marker's only `[` is at index 6 and is followed by `-`. */
  lemma {:induction false} UnclassifiedShape()
    ensures |Unclassified| == 22 && Unclassified[7] == '-'
    ensures forall i :: 0 <= i < |Unclassified| && Unclassified[i] == '[' ==> i == 6
  {
  }

  /** An ordinary group label is never the unclassified marker: its last id would have to start with `-`. */
  lemma {:induction false} LabelIsNotUnclassified(shown: seq<Ancestor>)
    requires shown != []
    ensures Join(Segments(shown), ", ") != Unclassified
  {
    var segs := Segments(shown);
    var r := Join(segs, ", ");
    var a := shown[|shown| - 1];
    var last := segs[|segs| - 1];
    JoinEndsWithLast(segs, ", ");
    IdAlphabet(a.id);
    UnclassifiedShape();
    var n := |a.id|;
    assert last == Show(a.name) + " [" + a.id + "]";
    var off := |r| - |last|;
    var p := |last| - 2 - n;
    assert last[p] == '[' && last[p + 1] == a.id[0];
    assert r[off..][p] == '[' && r[off..][p + 1] == a.id[0];
    if |r| == |Unclassified| {
      if off + p == 6 {
        assert r[7] != Unclassified[7];
      } else {
        assert r[off + p] != Unclassified[off + p];
      }
    }
  }

  /**
   * `lff_group`: an isolate is labelled `<name> [-isolate-]`; otherwise the
   * label joins `name [id]` over the shown ancestors (the whole lineage, or a
   * dialect's non-family tail); and the label is the unclassified marker
   * exactly when a dialect's parent is a family.
   */
  lemma {:induction false} GroupLabelCases(name: Option<string>, level: Option<Level>, lineage: seq<Ancestor>)
    ensures lineage == [] ==> GroupLabel(name, level, lineage) == Show(name) + IsolateSuffix
    ensures lineage != [] && Shown(level, lineage) != [] ==>
      GroupLabel(name, level, lineage) == Join(Segments(Shown(level, lineage)), ", ")
    ensures GroupLabel(name, level, lineage) == Unclassified <==>
      lineage != [] && level == Some(Dialect) && lineage[|lineage| - 1].level == Family
  {
    var r := GroupLabel(name, level, lineage);
    if lineage == [] {
      assert r[|r| - 3] == IsolateSuffix[9] == 'e';
      assert Unclassified[19] == 'd';
    } else {
      var shown := Shown(level, lineage);
      if shown != [] {
        LabelIsNotUnclassified(shown);
        assert |Join(Segments(shown), ", ")| >= 1 by {
          JoinEndsWithLast(Segments(shown), ", ");
        }
      }
    }
  }

  /** A name that the flat format can carry: it has no brackets. */
  predicate SafeName(s: string) {
    '[' !in s && ']' !in s
  }

  predicate SafeAncestor(a: Ancestor) {
    a.name.Some? && SafeName(a.name.value)
  }

  /** A name without surrounding whitespace, as `strip` leaves it. */
  predicate Trimmed(s: string) {
    s == "" || (!IsSpace(s[0]) && !IsSpace(s[|s| - 1]))
  }

  // ---------------------------------------------------------------------------
  // Parsing

  datatype Record = Record(cfg: Cfg, lineage: seq<Ancestor>)

  /**
   * The level `from_lff` gives the i-th segment of a lineage: family, except
   * for a dialect record, where the first segment is a language and every
   * later one a dialect.
   */
  function SegmentLevel(recordLevel: Level, i: nat): Level {
    if recordLevel == Dialect then (if i == 0 then Language else Dialect) else Family
  }

  /** One `], `-separated segment: drop a closing bracket, then split at the first ` [`. */
  function ParseSegment(comp: string, level: Level): Result<Triple, Error> {
    var c := if EndsWith(comp, ']') then DropLast(comp) else comp;
    match SplitOnce(c, " [")
    case None => Failure(MalformedLff)
    case Some((name, id)) => Success(Triple(Some(name), Some(id), Some(level)))
  }

  /** The triple one segment parses to, or a placeholder when it does not parse. */
  function SegmentTriple(comp: string, level: Level): Triple {
    match ParseSegment(comp, level)
    case Success(t) => t
    case Failure(_) => Triple(None, None, None)
  }

  predicate SegmentsParse(comps: seq<string>, recordLevel: Level) {
    forall i :: 0 <= i < |comps| ==> ParseSegment(comps[i], SegmentLevel(recordLevel, i)).Success?
  }

  /** The loop over the `], `-separated segments: the first malformed one fails the whole lineage. */
  function ParseSegments(comps: seq<string>, recordLevel: Level): (r: Result<seq<Triple>, Error>)
    ensures r.Success? <==> SegmentsParse(comps, recordLevel)
    ensures r.Failure? ==> r.error == MalformedLff
    ensures r.Success? ==> |r.value| == |comps| && forall i :: 0 <= i < |comps| ==>
      ParseSegment(comps[i], SegmentLevel(recordLevel, i)) == Success(r.value[i])
  {
    if SegmentsParse(comps, recordLevel)
    then Success(seq(|comps|, i requires 0 <= i < |comps| => SegmentTriple(comps[i], SegmentLevel(recordLevel, i))))
    else Failure(MalformedLff)
  }

  /** Every parsed segment has a name, and the level of its position. */
  lemma {:induction false} ParsedSegmentShape(comps: seq<string>, recordLevel: Level)
    requires ParseSegments(comps, recordLevel).Success?
    ensures forall i :: 0 <= i < |comps| ==>
      var t := ParseSegments(comps, recordLevel).value[i];
      t.name.Some? && t.id.Some? && t.level == Some(SegmentLevel(recordLevel, i))
  {
  }

  /** The lineage string of a record: absent or empty means no ancestors. */
  function ParsePath(path: Option<string>, recordLevel: Level): Result<seq<Triple>, Error> {
    match path
    case None => Success([])
    case Some(p) => if p == "" then Success([]) else ParseSegments(Split(p, "], "), recordLevel)
  }

  /** The descriptor `from_lff` builds: name and glottocode, then the level, then a non-empty iso code. */
  function RecordCfg(name: string, glottocode: string, level: Level, iso: string): Cfg {
    var cfg := Set(map[NameKey := name, GlottocodeKey := glottocode], LevelKey, Value(level));
    if iso != "" then Set(cfg, IsoKey, iso) else cfg
  }

  /** `from_lff(path, name_and_codes, level)` */
  function FromLff(path: Option<string>, nameAndCodes: string, level: Level): Result<Record, Error> {
    match SplitOnce(nameAndCodes, "[")
    case None => Failure(MalformedLff)
    case Some((lname, codes)) =>
      var fields := Split(DropLast(codes), "][");
      if |fields| != 2 then Failure(MalformedLff)
      else match ParsePath(path, level)
        case Failure(e) => Failure(e)
        case Success(raw) =>
          match ValidateLineage(raw)
          case Failure(e) => Failure(e)
          case Success(lineage) => Success(Record(RecordCfg(Strip(lname), fields[0], level, fields[1]), lineage))
  }

  /** The descriptor `from_lff` builds holds the level, and an iso code only when one is given. */
  lemma {:induction false} RecordCfgShape(name: string, glottocode: string, level: Level, iso: string)
    ensures var cfg := RecordCfg(name, glottocode, level, iso);
      && Get(cfg, NameKey) == Some(name)
      && Get(cfg, GlottocodeKey) == Some(glottocode)
      && ReadLevel(cfg) == Success(Some(level))
      && Get(cfg, IsoKey) == (if iso == "" then None else Some(iso))
      && cfg.Keys <= {NameKey, GlottocodeKey, LevelKey, IsoKey}
  {
    var base := Set(map[NameKey := name, GlottocodeKey := glottocode], LevelKey, Value(level));
    assert Get(base, LevelKey) == Some(Value(level));
  }

  /**
   * What a parsed record holds: the descriptor of `RecordCfg`, one lineage
   * entry per `], `-separated segment, with the levels of `SegmentLevel`.
   */
  lemma {:induction false} FromLffShape(path: Option<string>, nameAndCodes: string, level: Level)
    requires FromLff(path, nameAndCodes, level).Success?
    ensures var rec := FromLff(path, nameAndCodes, level).value;
      && ReadLevel(rec.cfg) == Success(Some(level))
      && Get(rec.cfg, IsoKey) != Some("")
      && rec.cfg.Keys <= {NameKey, GlottocodeKey, LevelKey, IsoKey}
      && |rec.lineage| == (if path.None? || path == Some("") then 0 else |Split(path.value, "], ")|)
      && forall i :: 0 <= i < |rec.lineage| ==> rec.lineage[i].level == SegmentLevel(level, i)
  {
    var (lname, codes) := SplitOnce(nameAndCodes, "[").value;
    var fields := Split(DropLast(codes), "][");
    var lineage := ValidateLineage(ParsePath(path, level).value).value;
    assert FromLff(path, nameAndCodes, level).value == Record(RecordCfg(Strip(lname), fields[0], level, fields[1]), lineage);
    RecordCfgShape(Strip(lname), fields[0], level, fields[1]);
    ParsedLineageLevels(path, level, lineage);
  }

  /** A lineage string that parses and validates has one entry per segment, levelled by position. */
  lemma {:induction false} ParsedLineageLevels(path: Option<string>, level: Level, lineage: seq<Ancestor>)
    requires ParsePath(path, level).Success? && ValidateLineage(ParsePath(path, level).value) == Success(lineage)
    ensures |lineage| == (if path.None? || path == Some("") then 0 else |Split(path.value, "], ")|)
    ensures forall i :: 0 <= i < |lineage| ==> lineage[i].level == SegmentLevel(level, i)
  {
    var raw := ParsePath(path, level).value;
    if path.Some? && path.value != "" {
      ParsedSegmentShape(Split(path.value, "], "), level);
    }
    forall i | 0 <= i < |lineage|
      ensures lineage[i].level == SegmentLevel(level, i)
    {
      assert AsTriple(lineage[i]) == raw[i];
    }
  }

  // ---------------------------------------------------------------------------
  // Round trip

  /** The pieces a label splits into at `], `: every segment open but the last. */
  function Pieces(shown: seq<Ancestor>): (r: seq<string>)
    requires shown != []
    decreases |shown|
    ensures |r| == |shown| && r[|r| - 1] == Segment(shown[|shown| - 1])
    ensures forall i :: 0 <= i < |shown| - 1 ==> r[i] == Opened(shown[i])
  {
    if |shown| == 1 then [Segment(shown[0])] else [Opened(shown[0])] + Pieces(shown[1..])
  }

  lemma {:induction false} CloseThenComma(o: string, rest: string)
    ensures o + "]" + ", " + rest == o + "], " + rest
  {
    assert "]" + ", " == "], ";
    assert o + "]" + ", " == o + ("]" + ", ");
  }

  lemma {:induction false} LabelAsPieces(shown: seq<Ancestor>)
    requires shown != []
    ensures Join(Segments(shown), ", ") == Join(Pieces(shown), "], ")
    decreases |shown|
  {
    if |shown| > 1 {
      var o := Opened(shown[0]);
      var rest := Join(Segments(shown[1..]), ", ");
      LabelAsPieces(shown[1..]);
      assert Segments(shown) == [o + "]"] + Segments(shown[1..]);
      assert Pieces(shown) == [o] + Pieces(shown[1..]);
      JoinCons(o + "]", Segments(shown[1..]), ", ");
      JoinCons(o, Pieces(shown[1..]), "], ");
      CloseThenComma(o, rest);
    }
  }

  /** A name without `[` holds no ` [` that starts before its end. */
  lemma {:induction false} NameBeforeOpen(name: string)
    requires '[' !in name
    ensures NoEarlyMatch(name, " [")
  {
    var w := name + " [";
    forall j | 0 <= j < |name| ensures !OccursAt(w, " [", j) {
      assert w[j..j + 2][1] == w[j + 1];
      if j + 1 < |name| {
        assert w[j + 1] == name[j + 1];
        assert name[j + 1] in name;
      } else {
        assert w[j + 1] == ' ';
      }
    }
  }

  /** A safe ancestor's opened segment does not end in `]` and splits at the ` [` after its name. */
  lemma {:induction false} SplitOpened(a: Ancestor)
    requires SafeAncestor(a)
    ensures !EndsWith(Opened(a), ']')
    ensures SplitOnce(Opened(a), " [") == Some((a.name.value, a.id))
  {
    var name := a.name.value;
    IdAlphabet(a.id);
    var o := Opened(a);
    assert o == name + " [" + a.id;
    NameBeforeOpen(name);
    IndexOfJoin(name, " [", a.id);
    assert o[..|name|] == name && o[|name| + 2..] == a.id;
    assert o[|o| - 1] == a.id[|a.id| - 1];
  }

  /** A safe ancestor's segment, with or without its closing bracket, parses back to its name and id. */
  lemma {:induction false} ParseOpened(a: Ancestor, level: Level)
    requires SafeAncestor(a)
    ensures ParseSegment(Opened(a), level) == Success(Triple(a.name, Some(a.id), Some(level)))
    ensures ParseSegment(Segment(a), level) == Success(Triple(a.name, Some(a.id), Some(level)))
  {
    SplitOpened(a);
    assert DropLast(Segment(a)) == Opened(a);
  }

  /** A safe ancestor's opened segment holds no `]` at all, so no `], ` starts inside it. */
  lemma {:induction false} OpenedHasNoBracket(a: Ancestor)
    requires SafeAncestor(a)
    ensures NoEarlyMatch(Opened(a), "], ")
    ensures IndexOf(Segment(a), "], ").None?
  {
    IdAlphabet(a.id);
    var o := Opened(a);
    assert forall j :: 0 <= j < |o| ==> o[j] != ']' by {
      forall j | 0 <= j < |o| ensures o[j] != ']' {
        var name := a.name.value;
        if j < |name| {
          assert o[j] == name[j];
        } else if j >= |name| + 2 {
          assert o[j] == a.id[j - |name| - 2];
        }
      }
    }
    forall j | 0 <= j < |o| ensures !OccursAt(o + "], ", "], ", j) {
      assert (o + "], ")[j] == o[j];
    }
    var s := Segment(a);
    forall j | 0 <= j ensures !OccursAt(s, "], ", j) {
      if j + 3 <= |s| {
        assert s[j] == o[j];
      }
    }
  }

  /** The lineage a parser reads back from the label of `shown`: same names and ids, levels by position. */
  function Relevelled(shown: seq<Ancestor>, recordLevel: Level): (r: seq<Ancestor>)
    ensures |r| == |shown|
    ensures forall i :: 0 <= i < |shown| ==>
      r[i] == Ancestor(shown[i].name, shown[i].id, SegmentLevel(recordLevel, i))
  {
    seq(|shown|, i requires 0 <= i < |shown| => Ancestor(shown[i].name, shown[i].id, SegmentLevel(recordLevel, i)))
  }

  function Triples(lineage: seq<Ancestor>): (r: seq<Triple>)
    ensures |r| == |lineage| && forall i :: 0 <= i < |lineage| ==> r[i] == AsTriple(lineage[i])
  {
    seq(|lineage|, i requires 0 <= i < |lineage| => AsTriple(lineage[i]))
  }

  /** Segments that parse one by one parse together, in order. */
  lemma {:induction false} SegmentsParseTo(comps: seq<string>, recordLevel: Level, ts: seq<Triple>)
    requires |comps| == |ts|
    requires forall i :: 0 <= i < |comps| ==> ParseSegment(comps[i], SegmentLevel(recordLevel, i)) == Success(ts[i])
    ensures ParseSegments(comps, recordLevel) == Success(ts)
  {
    assert ParseSegments(comps, recordLevel).value == ts;
  }

  /** The i-th piece of a label parses to the i-th shown ancestor, levelled by position. */
  lemma {:induction false} ParsePiece(shown: seq<Ancestor>, recordLevel: Level, i: nat)
    requires i < |shown| && SafeAncestor(shown[i])
    ensures ParseSegment(Pieces(shown)[i], SegmentLevel(recordLevel, i)) == Success(AsTriple(Relevelled(shown, recordLevel)[i]))
  {
    var level := SegmentLevel(recordLevel, i);
    var t := AsTriple(Relevelled(shown, recordLevel)[i]);
    assert t == Triple(shown[i].name, Some(shown[i].id), Some(level));
    ParseOpened(shown[i], level);
    if i < |shown| - 1 {
      assert Pieces(shown)[i] == Opened(shown[i]);
    } else {
      assert Pieces(shown)[i] == Segment(shown[i]);
    }
  }

  /** Parsing the pieces of a label gives back the shown ancestors, levelled by position. */
  lemma {:induction false} ParsePieces(shown: seq<Ancestor>, recordLevel: Level)
    requires shown != [] && forall i :: 0 <= i < |shown| ==> SafeAncestor(shown[i])
    ensures ParseSegments(Pieces(shown), recordLevel) == Success(Triples(Relevelled(shown, recordLevel)))
  {
    var pieces := Pieces(shown);
    var ts := Triples(Relevelled(shown, recordLevel));
    forall i | 0 <= i < |shown|
      ensures ParseSegment(pieces[i], SegmentLevel(recordLevel, i)) == Success(ts[i])
    {
      ParsePiece(shown, recordLevel, i);
    }
    SegmentsParseTo(pieces, recordLevel, ts);
  }

  /**
   * Parsing a languoid's group label as a lineage gives back the ancestors the
   * label shows, with the same names and ids in the same order and the levels
   * the parser assigns by position.
   */
  lemma {:induction false} GroupLabelParses(name: Option<string>, level: Option<Level>, lineage: seq<Ancestor>, recordLevel: Level)
    requires lineage != [] && Shown(level, lineage) != []
    requires forall i :: 0 <= i < |Shown(level, lineage)| ==> SafeAncestor(Shown(level, lineage)[i])
    ensures ParsePath(Some(GroupLabel(name, level, lineage)), recordLevel)
         == Success(Triples(Relevelled(Shown(level, lineage), recordLevel)))
  {
    var shown := Shown(level, lineage);
    var pieces := Pieces(shown);
    GroupLabelCases(name, level, lineage);
    LabelAsPieces(shown);
    forall i | 0 <= i < |pieces| - 1 ensures NoEarlyMatch(pieces[i], "], ") {
      OpenedHasNoBracket(shown[i]);
    }
    OpenedHasNoBracket(shown[|shown| - 1]);
    SplitJoin(pieces, "], ");
    ParsePieces(shown, recordLevel);
    assert GroupLabel(name, level, lineage) != "" by {
      JoinEndsWithLast(pieces, "], ");
    }
  }

  /** A glottocode never runs into the `][` that follows it. */
  lemma {:induction false} IdBeforeCodeSeparator(id: Id)
    ensures NoEarlyMatch(id, "][")
  {
    IdAlphabet(id);
    forall j | 0 <= j < |id| ensures !OccursAt(id + "][", "][", j) {
      var w := id + "][";
      assert w[j] == id[j] && IsIdChar(id[j]);
      if j + 2 <= |w| {
        assert w[j..j + 2][0] == w[j];
      }
    }
  }

  /** A string without `]` holds no `][`. */
  lemma {:induction false} NoCodeSeparator(iso: string)
    requires ']' !in iso
    ensures IndexOf(iso, "][").None?
  {
    forall j | 0 <= j ensures !OccursAt(iso, "][", j) {
      if j + 2 <= |iso| {
        assert iso[j..j + 2][0] == iso[j];
      }
    }
  }

  /** The codes part of a record line splits into the glottocode and the iso code. */
  lemma {:induction false} SplitCodes(id: Id, iso: string)
    requires ']' !in iso
    ensures Split(DropLast(id + "][" + iso + "]"), "][") == [id, iso]
  {
    assert DropLast(id + "][" + iso + "]") == id + "][" + iso;
    IdBeforeCodeSeparator(id);
    NoCodeSeparator(iso);
    SplitJoin([id, iso], "][");
    assert Join([id, iso], "][") == id + "][" + iso by {
      assert [id, iso][1..] == [iso];
    }
  }

  /** The padded name of a record line holds no `[`. */
  lemma {:induction false} PaddedNameBeforeBracket(name: string)
    requires SafeName(name)
    ensures NoEarlyMatch("    " + name + " ", "[")
  {
    var lname := "    " + name + " ";
    forall j | 0 <= j < |lname| ensures !OccursAt(lname + "[", "[", j) {
      var w := lname + "[";
      assert w[j..j + 1][0] == w[j] == lname[j];
      if 4 <= j < 4 + |name| {
        assert lname[j] == name[j - 4];
      }
    }
  }

  /** Splitting a record line without a status gives back its name and codes. */
  lemma {:induction false} ParseLanguageLine(name: string, id: Id, iso: string)
    requires SafeName(name) && Trimmed(name) && ']' !in iso
    ensures var line := LanguageLine(Some(name), Some(id), Some(iso), None);
      && SplitOnce(line, "[") == Some(("    " + name + " ", id + "][" + iso + "]"))
      && Strip(SplitOnce(line, "[").value.0) == name
      && Split(DropLast(SplitOnce(line, "[").value.1), "][") == [id, iso]
  {
    var line := LanguageLine(Some(name), Some(id), Some(iso), None);
    var lname := "    " + name + " ";
    var codes := id + "][" + iso + "]";
    assert line == lname + "[" + codes;
    PaddedNameBeforeBracket(name);
    IndexOfJoin(lname, "[", codes);
    assert line[..|lname|] == lname && line[|lname| + 1..] == codes;
    StripPadded("    ", name, " ");
    SplitCodes(id, iso);
  }

  /** Validating the triples of a lineage gives the lineage back. */
  lemma {:induction false} ValidateTriples(lineage: seq<Ancestor>)
    ensures ValidateLineage(Triples(lineage)) == Success(lineage)
  {
    var v := ValidateLineage(Triples(lineage));
    assert v.Success?;
    forall i | 0 <= i < |lineage| ensures v.value[i] == lineage[i] {
      assert AsTriple(v.value[i]) == AsTriple(lineage[i]);
    }
    assert v.value == lineage;
  }

  /** `from_lff` succeeds with the record its steps build once each step succeeds. */
  lemma {:induction false} FromLffSteps(path: Option<string>, nameAndCodes: string, level: Level,
                     lname: string, codes: string, glottocode: string, iso: string,
                     raw: seq<Triple>, lineage: seq<Ancestor>)
    requires SplitOnce(nameAndCodes, "[") == Some((lname, codes))
    requires Split(DropLast(codes), "][") == [glottocode, iso]
    requires ParsePath(path, level) == Success(raw)
    requires ValidateLineage(raw) == Success(lineage)
    ensures FromLff(path, nameAndCodes, level) == Success(Record(RecordCfg(Strip(lname), glottocode, level, iso), lineage))
  {
  }

  /** The record `from_lff` reads back from a languoid's label and record line. */
  lemma {:induction false} ParseFlattened(name: string, id: Id, iso: string, level: Level, lineage: seq<Ancestor>)
    requires SafeName(name) && Trimmed(name) && ']' !in iso
    requires lineage != [] && Shown(Some(level), lineage) != []
    requires forall i :: 0 <= i < |Shown(Some(level), lineage)| ==> SafeAncestor(Shown(Some(level), lineage)[i])
    ensures FromLff(Some(GroupLabel(Some(name), Some(level), lineage)), LanguageLine(Some(name), Some(id), Some(iso), None), level)
         == Success(Record(RecordCfg(name, id, level, iso), Relevelled(Shown(Some(level), lineage), level)))
  {
    var expected := Relevelled(Shown(Some(level), lineage), level);
    ParseLanguageLine(name, id, iso);
    GroupLabelParses(Some(name), Some(level), lineage, level);
    ValidateTriples(expected);
    FromLffSteps(Some(GroupLabel(Some(name), Some(level), lineage)), LanguageLine(Some(name), Some(id), Some(iso), None), level,
      "    " + name + " ", id + "][" + iso + "]", id, iso, Triples(expected), expected);
  }

  /**
   * Flattening a languoid and parsing the result gives back the fields the flat
   * format carries: name, glottocode, level, a non-empty iso code, and the
   * shown ancestors with their names and ids, levelled by position.
   */
  lemma {:induction false} LffRoundTrip(name: string, id: Id, iso: string, level: Level, lineage: seq<Ancestor>)
    requires SafeName(name) && Trimmed(name) && ']' !in iso
    requires lineage != [] && Shown(Some(level), lineage) != []
    requires forall i :: 0 <= i < |Shown(Some(level), lineage)| ==> SafeAncestor(Shown(Some(level), lineage)[i])
    ensures var header := GroupLabel(Some(name), Some(level), lineage);
      var line := LanguageLine(Some(name), Some(id), Some(iso), None);
      var r := FromLff(Some(header), line, level);
      && r.Success?
      && Get(r.value.cfg, NameKey) == Some(name)
      && Get(r.value.cfg, GlottocodeKey) == Some(id)
      && ReadLevel(r.value.cfg) == Success(Some(level))
      && Get(r.value.cfg, IsoKey) == (if iso == "" then None else Some(iso))
      && r.value.lineage == Relevelled(Shown(Some(level), lineage), level)
  {
    ParseFlattened(name, id, iso, level, lineage);
    RecordCfgShape(name, id, level, iso);
  }
}
