/** The result mapping an extraction engine returns (`pdf_info_dict`), the
    `_need_drop` test the union path applies to it, and the two tags the
    wrappers stamp on it before returning it. */
module InfoDict {

  /** A value stored in the mapping. Engine content other than scalars is
      opaque; only its Python truthiness matters to this code. */
  datatype Value =
    | NoneValue
    | Bool(b: bool)
    | Int(i: int)
    | Str(s: string)
    | Content(nonEmpty: bool)

  type Info = map<string, Value>

  const ParseTypeKey: string := "_parse_type"
  const VersionKey: string := "_version_name"
  const NeedDropKey: string := "_need_drop"

  /** The values `PARSE_TYPE_TXT` and `PARSE_TYPE_OCR`. */
  const ParseTypeTxt: string := "txt"
  const ParseTypeOcr: string := "ocr"

  /** Python truthiness of a stored value. */
  predicate Truthy(v: Value) {
    match v
    case NoneValue => false
    case Bool(b) => b
    case Int(i) => i != 0
    case Str(s) => s != []
    case Content(nonEmpty) => nonEmpty
  }

  /** `d.get("_need_drop", False)` taken as a condition. */
  predicate NeedDrop(d: Info) {
    NeedDropKey in d && Truthy(d[NeedDropKey])
  }

  /** `d` after the two tag keys were assigned: the tags hold the given
      values and every other key keeps its value. */
  ghost predicate TaggedFrom(d: Info, r: Info, parseType: string, version: string) {
    && r.Keys == d.Keys + {ParseTypeKey, VersionKey}
    && r[ParseTypeKey] == Str(parseType)
    && r[VersionKey] == Str(version)
    && forall k :: k in d && k != ParseTypeKey && k != VersionKey ==> r[k] == d[k]
  }

  /** `d["_parse_type"] = parseType; d["_version_name"] = version`: the
      result keeps every key of the engine's mapping and adds no key other
      than the two tags. */
  function Tag(d: Info, parseType: string, version: string): (r: Info)
    ensures d.Keys <= r.Keys && r.Keys - d.Keys <= {ParseTypeKey, VersionKey}
  {
    d[ParseTypeKey := Str(parseType)][VersionKey := Str(version)]
  }

  /** Tagging adds exactly the two tag keys with the given values and keeps
      every other entry of the engine's mapping. */
  lemma TagAddsOnlyTags(d: Info, parseType: string, version: string)
    ensures TaggedFrom(d, Tag(d, parseType, version), parseType, version)
  {
  }

  /** Removing the two tag keys again yields the engine's mapping without
      them: tagging adds, it destroys nothing else. */
  lemma UntagAfterTag(d: Info, parseType: string, version: string)
    ensures Tag(d, parseType, version) - {ParseTypeKey, VersionKey} == d - {ParseTypeKey, VersionKey}
  {
    var r := Tag(d, parseType, version);
    assert (r - {ParseTypeKey, VersionKey}).Keys == (d - {ParseTypeKey, VersionKey}).Keys;
  }

}
