/**
 * The `core` section of a languoid's descriptor (an INI document), as a map
 * from option name to string value, with the typed accessors of the languoid.
 */
module Descriptor {
  import opened Wrappers
  import opened Errors
  import opened Levels

  type Cfg = map<string, string>

  const NameKey := "name"
  const GlottocodeKey := "glottocode"
  const LevelKey := "level"
  const IsoKey := "iso639-3"
  const StatusKey := "classification_status"
  const HidKey := "hid"
  const LatitudeKey := "latitude"
  const LongitudeKey := "longitude"

  /** `cfg.get('core', key, fallback=None)` */
  function Get(cfg: Cfg, key: string): Option<string> {
    if key in cfg then Some(cfg[key]) else None
  }

  /** `cfg.set('core', key, value)`: the key reads back the value, every other key is untouched. */
  function Set(cfg: Cfg, key: string, value: string): (r: Cfg)
    ensures Get(r, key) == Some(value)
    ensures forall k :: k != key ==> Get(r, k) == Get(cfg, k)
    ensures r.Keys == cfg.Keys + {key}
  {
    cfg[key := value]
  }

  /**
   * The `level` property: absent (or empty) reads as no level, a level value
   * reads as that level, anything else raises.
   */
  function ReadLevel(cfg: Cfg): (r: Result<Option<Level>, Error>)
    ensures r == Success(None) <==> Get(cfg, LevelKey) in {None, Some("")}
    ensures forall l :: r == Success(Some(l)) <==> Get(cfg, LevelKey) == Some(Value(l))
    ensures r.Failure? ==> r.error == InvalidLevel
  {
    match Get(cfg, LevelKey)
    case None => Success(None)
    case Some(v) =>
      if v == "" then Success(None)
      else match Parse(v)
        case None => Failure(InvalidLevel)
        case Some(l) => Success(Some(l))
  }

  /** The `level` setter: `Level(value).value` is stored, so only a level value is accepted. */
  function WriteLevel(cfg: Cfg, value: string): (r: Result<Cfg, Error>)
    ensures r.Success? <==> Parse(value).Some?
    ensures r.Success? ==> ReadLevel(r.value) == Success(Parse(value))
    ensures r.Success? ==> forall k :: k != LevelKey ==> Get(r.value, k) == Get(cfg, k)
    ensures r.Failure? ==> r.error == InvalidLevel
  {
    match Parse(value)
    case None => Failure(InvalidLevel)
    case Some(l) => Success(Set(cfg, LevelKey, Value(l)))
  }

  /** The option written by each string-valued property setter; `id` and `iso_code` are aliases. */
  function PropertyKey(attr: string): Option<string> {
    if attr == "name" then Some(NameKey)
    else if attr == "id" || attr == "glottocode" then Some(GlottocodeKey)
    else if attr == "latitude" then Some(LatitudeKey)
    else if attr == "longitude" then Some(LongitudeKey)
    else if attr == "iso" || attr == "iso_code" then Some(IsoKey)
    else if attr == "classification_status" then Some(StatusKey)
    else None
  }

  /** Properties of the languoid that have a getter and no setter. */
  predicate IsReadOnlyProperty(attr: string) {
    attr in {"hid", "children", "ancestors", "parent", "family"}
  }

  /**
   * The effect on the descriptor of `setattr(languoid, attr, value)` with a
   * string value: a property setter writes its option (the level setter
   * validates first), `macroareas` rejects a non-list, a read-only property
   * raises, and any other name becomes a plain instance attribute.
   */
  function SetAttribute(cfg: Cfg, attr: string, value: string): Result<Cfg, Error> {
    if attr == "level" then WriteLevel(cfg, value)
    else if attr == "macroareas" then Failure(NotAList)
    else if IsReadOnlyProperty(attr) then Failure(ReadOnlyAttribute)
    else match PropertyKey(attr)
      case Some(k) => Success(Set(cfg, k, value))
      case None => Success(cfg)
  }

  /** Setting an attribute changes at most the one option that attribute stands for. */
  lemma {:induction false} SetAttributeChangesOneKey(cfg: Cfg, attr: string, value: string)
    requires SetAttribute(cfg, attr, value).Success?
    ensures forall k :: Get(SetAttribute(cfg, attr, value).value, k) != Get(cfg, k) ==>
      (attr == "level" && k == LevelKey) || PropertyKey(attr) == Some(k)
  {
  }

  /** The alias pairs write the same option, so each reads what the other wrote. */
  lemma {:induction false} AliasesShareOptions(cfg: Cfg, value: string)
    ensures SetAttribute(cfg, "id", value) == SetAttribute(cfg, "glottocode", value)
    ensures SetAttribute(cfg, "iso", value) == SetAttribute(cfg, "iso_code", value)
    ensures Get(SetAttribute(cfg, "id", value).value, GlottocodeKey) == Some(value)
    ensures Get(SetAttribute(cfg, "iso_code", value).value, IsoKey) == Some(value)
  {
  }

  /** The option (if any) that `setattr(languoid, attr, …)` writes. */
  predicate Writes(attr: string, key: string) {
    (attr == "level" && key == LevelKey) || PropertyKey(attr) == Some(key)
  }

  /**
   * `for k, v in kw.items(): setattr(res, k, v)`: the attributes applied in
   * order; the first failing one stops the loop.
   */
  function ApplyAttributes(cfg: Cfg, kw: seq<(string, string)>): Result<Cfg, Error>
    decreases |kw|
  {
    if kw == [] then Success(cfg)
    else match SetAttribute(cfg, kw[0].0, kw[0].1)
      case Failure(e) => Failure(e)
      case Success(c) => ApplyAttributes(c, kw[1..])
  }

  /** Applying attributes leaves every option that none of them writes as it was. */
  lemma {:induction false} ApplyAttributesFrame(cfg: Cfg, kw: seq<(string, string)>, key: string)
    requires ApplyAttributes(cfg, kw).Success?
    requires forall j :: 0 <= j < |kw| ==> !Writes(kw[j].0, key)
    ensures Get(ApplyAttributes(cfg, kw).value, key) == Get(cfg, key)
    decreases |kw|
  {
    if kw != [] {
      SetAttributeChangesOneKey(cfg, kw[0].0, kw[0].1);
      var c := SetAttribute(cfg, kw[0].0, kw[0].1).value;
      assert forall j :: 0 <= j < |kw[1..]| ==> kw[1..][j] == kw[j + 1];
      ApplyAttributesFrame(c, kw[1..], key);
    }
  }

  /** The last string-valued attribute that writes an option decides what it reads. */
  lemma {:induction false} ApplyAttributesLastWrite(cfg: Cfg, kw: seq<(string, string)>, j: nat, key: string)
    requires ApplyAttributes(cfg, kw).Success?
    requires j < |kw| && PropertyKey(kw[j].0) == Some(key) && kw[j].0 != "level"
    requires forall i :: j < i < |kw| ==> !Writes(kw[i].0, key)
    ensures Get(ApplyAttributes(cfg, kw).value, key) == Some(kw[j].1)
    decreases |kw|
  {
    var c := SetAttribute(cfg, kw[0].0, kw[0].1).value;
    assert forall i :: 0 <= i < |kw[1..]| ==> kw[1..][i] == kw[i + 1];
    if j == 0 {
      ApplyAttributesFrame(c, kw[1..], key);
    } else {
      ApplyAttributesLastWrite(c, kw[1..], j - 1, key);
    }
  }
}
