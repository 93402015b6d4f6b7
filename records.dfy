/** The index record of the indexing pipeline (`DocumentChunk` in
    source_extractor.py and the dicts built by `process_file` in indexer.py),
    and its JSONL form. */
module Records {
  import opened Wrappers

  /** One indexed chunk of documentation. */
  datatype Record = Record(
    title: string,
    anchor: Option<string>,
    headingLevel: int,
    mdText: string,
    url: string,
    page: string,
    sourceSite: string)

  /** The JSON values a record's fields take. */
  datatype Json = JString(str: string) | JInt(num: int) | JNull

  /** A decoded JSON object. */
  type JsonObject = map<string, Json>

  /** The seven keys of a record's JSONL object. */
  const RecordKeys: set<string> :=
    {"title", "anchor", "heading_level", "md_text", "url", "page", "source_site"}

  /** `None` becomes JSON `null`. */
  function OptionalString(o: Option<string>): Json {
    if o.Some? then JString(o.value) else JNull
  }

  /** `DocumentChunk.to_jsonl()`: the record as a JSON object with exactly
      the seven record keys, from which the record can be read back. */
  function ToJsonl(r: Record): (m: JsonObject)
    ensures m.Keys == RecordKeys
    ensures FromJsonl(m) == Some(r)
  {
    map[
      "title" := JString(r.title),
      "anchor" := OptionalString(r.anchor),
      "heading_level" := JInt(r.headingLevel),
      "md_text" := JString(r.mdText),
      "url" := JString(r.url),
      "page" := JString(r.page),
      "source_site" := JString(r.sourceSite)]
  }

  /** A string field of `m`, if present and a string. */
  function StringField(m: JsonObject, k: string): Option<string> {
    if k in m && m[k].JString? then Some(m[k].str) else None
  }

  /** Reads a record back from its JSONL object; `None` when a field is
      missing or has the wrong JSON type. */
  function FromJsonl(m: JsonObject): Option<Record> {
    var title := StringField(m, "title");
    var md := StringField(m, "md_text");
    var url := StringField(m, "url");
    var page := StringField(m, "page");
    var site := StringField(m, "source_site");
    if title.None? || md.None? || url.None? || page.None? || site.None? then None
    else if "anchor" !in m || !(m["anchor"].JString? || m["anchor"].JNull?) then None
    else if "heading_level" !in m || !m["heading_level"].JInt? then None
    else
      var anchor := if m["anchor"].JString? then Some(m["anchor"].str) else None;
      Some(Record(title.value, anchor, m["heading_level"].num, md.value, url.value, page.value, site.value))
  }

  /** The other direction of the round trip: an object with exactly the record
      keys that reads back as a record is that record's JSONL form. */
  lemma FromJsonlToJsonl(m: JsonObject, r: Record)
    requires m.Keys == RecordKeys && FromJsonl(m) == Some(r)
    ensures ToJsonl(r) == m
  {
    var t := ToJsonl(r);
    forall k | k in RecordKeys ensures t[k] == m[k] {
      if k == "anchor" {
        assert m["anchor"].JString? || m["anchor"].JNull?;
      }
    }
    assert t.Keys == m.Keys;
  }
}
