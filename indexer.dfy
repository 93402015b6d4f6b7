/** The HTML indexer (indexer.py): token-budget chunking of section markdown,
    the split of a page into heading sections, the records of one page and
    the loading of the BM25 corpus. The HTML parser is replaced by the list of
    sibling nodes it yields; the markdown converter and the tokenizer are
    parameters. */
module Indexer {
  import opened Wrappers
  import opened Strings
  import opened Seqs
  import opened Chunking
  import opened Records
  import opened Tokens
  import opened Utils

  /** Target chunk size in tokens. */
  const MaxTok: int := 1200

  /** `tok_len` raises when the encoder is unavailable. */
  datatype IndexError = EncoderUnavailable

  // ---------------------------------------------------------------- chunk_markdown

  /** Every string stripped. */
  function StripEach(xs: seq<string>): (r: seq<string>)
    ensures |r| == |xs|
    ensures forall i :: 0 <= i < |xs| ==> r[i] == Strip(xs[i])
  {
    Map(xs, Strip)
  }

  /** The chunks `chunk_markdown(text, max_tok)` returns: the whole text
      stripped when it fits, otherwise the stripped, non-empty joins of the
      greedy paragraph runs. */
  function ChunkMarkdownSpec(text: string, tok: string -> nat, maxTok: int): seq<string> {
    if tok(text) <= maxTok then [Strip(text)]
    else Filter(StripEach(JoinEach(Runs(Split(text, ParaSep), tok, maxTok), ParaSep)), NonEmpty)
  }

  /** The split path of `chunk_markdown`: its runs partition the paragraphs in
      order and are well grouped. */
  lemma ChunkMarkdownRuns(text: string, tok: string -> nat, maxTok: int)
    ensures var rs := Runs(Split(text, ParaSep), tok, maxTok);
      Flatten(rs) == Split(text, ParaSep) && WellGrouped(rs, tok, maxTok)
  {
    RunsPartition(Split(text, ParaSep), tok, maxTok);
  }

  /** The chunks of the split path are exactly the stripped joins of the runs
      that are not blank, in run order. */
  lemma ChunkMarkdownSplit(text: string, tok: string -> nat, maxTok: int)
    requires tok(text) > maxTok
    ensures var joined := StripEach(JoinEach(Runs(Split(text, ParaSep), tok, maxTok), ParaSep));
      var chunks := ChunkMarkdownSpec(text, tok, maxTok);
      IsSubsequence(chunks, joined) &&
      (forall i :: 0 <= i < |chunks| ==> chunks[i] != "" && IsStripped(chunks[i])) &&
      (forall j :: 0 <= j < |joined| && joined[j] != "" ==> joined[j] in chunks)
  {
    var joined := StripEach(JoinEach(Runs(Split(text, ParaSep), tok, maxTok), ParaSep));
    FilterIsSubsequence(joined, NonEmpty);
    FilterKeepsIndex(joined, NonEmpty);
    StripEachStripped(JoinEach(Runs(Split(text, ParaSep), tok, maxTok), ParaSep));
    FilterPreserves(joined, NonEmpty, IsStripped);
  }

  /** Every stripped string is stripped. */
  lemma StripEachStripped(xs: seq<string>)
    ensures forall i :: 0 <= i < |StripEach(xs)| ==> IsStripped(StripEach(xs)[i])
  {
  }

  /** One more run adds its stripped join to the chunks. */
  lemma ChunksSnoc(done: seq<seq<string>>, acc: seq<string>)
    ensures StripEach(JoinEach(done + [acc], ParaSep)) == StripEach(JoinEach(done, ParaSep)) + [Strip(Join(acc, ParaSep))]
  {
    assert JoinEach(done + [acc], ParaSep) == JoinEach(done, ParaSep) + [Join(acc, ParaSep)];
    MapAppend(JoinEach(done, ParaSep), [Join(acc, ParaSep)], Strip);
  }

  /** The loop of `chunk_markdown`: paragraphs are added to the current run
      while its token count stays within `maxTok`; every closed run is joined
      and stripped. */
  method GreedyChunks(paras: seq<string>, tok: string -> nat, maxTok: int) returns (out: seq<string>)
    requires |paras| > 0
    ensures out == StripEach(JoinEach(Runs(paras, tok, maxTok), ParaSep))
  {
    out := [];
    var acc: seq<string> := [];
    var count: int := 0;
    ghost var done: seq<seq<string>> := [];
    for i := 0 to |paras|
      invariant count == Sum(acc, tok)
      invariant i == 0 ==> acc == [] && done == []
      invariant i > 0 ==> |acc| > 0 && Runs(paras[..i], tok, maxTok) == done + [acc]
      invariant out == StripEach(JoinEach(done, ParaSep))
    {
      TakeSnoc(paras, i);
      var p := paras[i];
      var t := tok(p);
      if i == 0 {
        assert Runs([p], tok, maxTok) == [[p]];
      } else {
        RunsStep(paras[..i], p, tok, maxTok, done, acc);
      }
      if |acc| > 0 && count + t > maxTok {
        ChunksSnoc(done, acc);
        out := out + [Strip(Join(acc, ParaSep))];
        done := done + [acc];
        acc, count := [], 0;
      }
      SumSnoc(acc, p, tok);
      acc := acc + [p];
      count := count + t;
    }
    TakeAll(paras);
    ChunksSnoc(done, acc);
    out := out + [Strip(Join(acc, ParaSep))];
  }

  /** `chunk_markdown(text, max_tok)`. */
  method ChunkMarkdown(text: string, enc: Encoder, maxTok: int) returns (r: Result<seq<string>, IndexError>)
    ensures enc.Unavailable? ==> r == Err(EncoderUnavailable)
    ensures enc.Available? ==> r == Ok(ChunkMarkdownSpec(text, enc.count, maxTok))
    ensures enc.Available? && enc.count(text) <= maxTok ==> r == Ok([Strip(text)])
  {
    if enc.Unavailable? {
      return Err(EncoderUnavailable);
    }
    var tok := enc.count;
    if tok(text) <= maxTok {
      return Ok([Strip(text)]);
    }
    var out := GreedyChunks(Split(text, ParaSep), tok, maxTok);
    r := Ok(Filter(out, NonEmpty));
  }

  // ---------------------------------------------------------------- iter_sections

  /** A heading level, h1 to h6. */
  type HeadingLevel = l: int | 1 <= l <= 6 witness 1

  /** A sibling node of the cleaned page: a heading tag (its level, its `id`
      attribute if present, its text and its HTML), another tag, or a
      non-tag node such as text or a comment. */
  datatype Node =
    | Heading(level: HeadingLevel, id: Option<string>, text: string, markup: string)
    | Element(markup: string)
    | TextNode(markup: string)

  /** One section: anchor, heading text, level and inner HTML. */
  datatype Section = Section(anchor: Option<string>, title: string, level: int, innerHtml: string)

  /** `str(soup)`: the HTML of every node. */
  function Render(doc: seq<Node>): string
    decreases |doc|
  {
    if |doc| == 0 then "" else doc[0].markup + Render(doc[1..])
  }

  /** The CSS selector `h1[id],h2[id],h3[id]`. */
  predicate Selected(n: Node) {
    n.Heading? && n.level <= 3 && n.id.Some?
  }

  /** A heading that closes the section of a level-`level` heading. */
  predicate Closes(n: Node, level: int) {
    n.Heading? && n.level <= level
  }

  /** The HTML of the tags among `ns`. */
  function TagsMarkup(ns: seq<Node>): string
    decreases |ns|
  {
    if |ns| == 0 then "" else (if ns[0].TextNode? then "" else ns[0].markup) + TagsMarkup(ns[1..])
  }

  /** Index of the first node of `rest` that closes a level-`level` section, or `|rest|`. */
  function BodyEnd(rest: seq<Node>, level: int): (n: nat)
    ensures n <= |rest|
    ensures forall j :: 0 <= j < n ==> !Closes(rest[j], level)
    ensures n < |rest| ==> Closes(rest[n], level)
    decreases |rest|
  {
    if |rest| == 0 || Closes(rest[0], level) then 0 else 1 + BodyEnd(rest[1..], level)
  }

  /** The inner HTML the sibling loop of `iter_sections` collects after a
      level-`level` heading. */
  function SectionBody(rest: seq<Node>, level: int): string
    decreases |rest|
  {
    if |rest| == 0 || Closes(rest[0], level) then ""
    else (if rest[0].TextNode? then "" else rest[0].markup) + SectionBody(rest[1..], level)
  }

  /** The body is the HTML of the tags before the first heading of the same or
      a higher rank: deeper headings included, non-tag nodes skipped. */
  lemma {:induction false} SectionBodyUpToClose(rest: seq<Node>, level: int)
    ensures SectionBody(rest, level) == TagsMarkup(rest[..BodyEnd(rest, level)])
    decreases |rest|
  {
    if |rest| > 0 && !Closes(rest[0], level) {
      SectionBodyUpToClose(rest[1..], level);
      assert rest[..BodyEnd(rest, level)][1..] == rest[1..][..BodyEnd(rest[1..], level)];
    }
  }

  /** Indices of the selected headings among `doc[..n]`, in document order. */
  function SelectedIndices(doc: seq<Node>, n: nat): (r: seq<nat>)
    requires n <= |doc|
    ensures AllSelected(doc, r)
    decreases n
  {
    if n == 0 then []
    else if Selected(doc[n - 1]) then SelectedIndices(doc, n - 1) + [n - 1]
    else SelectedIndices(doc, n - 1)
  }

  /** `hs` are indices of selected headings of `doc`. */
  predicate AllSelected(doc: seq<Node>, hs: seq<nat>) {
    forall k :: 0 <= k < |hs| ==> hs[k] < |doc| && Selected(doc[hs[k]])
  }

  /** The section of the selected heading at `h`, if its id is not empty. */
  function SectionAt(doc: seq<Node>, h: nat): seq<Section>
    requires h < |doc| && Selected(doc[h])
  {
    if doc[h].id.value == "" then []
    else [Section(doc[h].id, doc[h].text, doc[h].level, SectionBody(doc[h + 1..], doc[h].level))]
  }

  /** The selected indices are in increasing order, and every selected
      heading is among them. */
  lemma {:induction false} SelectedIndicesOrdered(doc: seq<Node>, n: nat)
    requires n <= |doc|
    ensures var r := SelectedIndices(doc, n);
      (forall k :: 0 <= k < |r| ==> r[k] < n) &&
      (forall k, k' :: 0 <= k < k' < |r| ==> r[k] < r[k']) &&
      (forall j :: 0 <= j < n && Selected(doc[j]) ==> j in r)
    decreases n
  {
    if n > 0 {
      SelectedIndicesOrdered(doc, n - 1);
    }
  }

  /** The sections of the selected headings `hs`; a heading whose id is empty
      yields nothing. */
  function SectionsOf(doc: seq<Node>, hs: seq<nat>): (r: seq<Section>)
    requires AllSelected(doc, hs)
    decreases |hs|
  {
    if |hs| == 0 then []
    else
      var k := |hs| - 1;
      assert hs[k] < |doc| && Selected(doc[hs[k]]);
      SectionsOf(doc, hs[..k]) + SectionAt(doc, hs[k])
  }

  /** What `iter_sections` yields. */
  function IterSectionsSpec(doc: seq<Node>): seq<Section> {
    var hs := SelectedIndices(doc, |doc|);
    if |hs| == 0 then [Section(None, "", 0, Render(doc))] else SectionsOf(doc, hs)
  }

  /** Every section of a selected heading carries that heading's non-empty
      id, its text and its level 1 to 3. */
  lemma {:induction false} SectionsOfShape(doc: seq<Node>, hs: seq<nat>)
    requires AllSelected(doc, hs)
    ensures |SectionsOf(doc, hs)| <= |hs|
    ensures forall s :: s in SectionsOf(doc, hs) ==>
      s.anchor.Some? && s.anchor.value != "" && 1 <= s.level <= 3
    decreases |hs|
  {
    if |hs| > 0 {
      SectionsOfShape(doc, hs[..|hs| - 1]);
    }
  }

  /** `iter_sections` yields the single whole-page section exactly when no
      h1–h3 carries an id; otherwise every section is one of a heading with a
      non-empty id. */
  lemma IterSectionsShape(doc: seq<Node>)
    ensures (forall j :: 0 <= j < |doc| ==> !Selected(doc[j])) ==>
      IterSectionsSpec(doc) == [Section(None, "", 0, Render(doc))]
    ensures (exists j :: 0 <= j < |doc| && Selected(doc[j])) ==>
      forall s :: s in IterSectionsSpec(doc) ==> s.anchor.Some? && s.anchor.value != "" && 1 <= s.level <= 3
  {
    var hs := SelectedIndices(doc, |doc|);
    if exists j :: 0 <= j < |doc| && Selected(doc[j]) {
      var j :| 0 <= j < |doc| && Selected(doc[j]);
      SelectedIndicesOrdered(doc, |doc|);
      assert j in hs;
      SectionsOfShape(doc, hs);
    }
  }

  /** `"".join(parts)` with one more part. */
  lemma ConcatSnoc(parts: seq<string>, p: string)
    ensures Join(parts + [p], "") == Join(parts, "") + p
  {
    if |parts| == 0 {
      assert parts + [p] == [p];
    } else {
      JoinAppend(parts, [p], "");
    }
  }

  lemma SectionsOfSnoc(doc: seq<Node>, hs: seq<nat>, h: nat)
    requires AllSelected(doc, hs) && h < |doc| && Selected(doc[h])
    ensures AllSelected(doc, hs + [h])
    ensures SectionsOf(doc, hs + [h]) == SectionsOf(doc, hs) + SectionAt(doc, h)
  {
    SnocInit(hs, h);
  }

  /** The header list of `iter_sections`: `soup.select("h1[id],h2[id],h3[id]")`. */
  method SelectHeadings(doc: seq<Node>) returns (headers: seq<nat>)
    ensures headers == SelectedIndices(doc, |doc|)
  {
    headers := [];
    for i := 0 to |doc|
      invariant headers == SelectedIndices(doc, i)
    {
      if Selected(doc[i]) {
        headers := headers + [i];
      }
    }
  }

  /** One sibling that does not close the section adds its HTML, unless it
      is not a tag. */
  lemma BodyStep(doc: seq<Node>, j: nat, level: int)
    requires j < |doc| && !Closes(doc[j], level)
    ensures SectionBody(doc[j..], level) ==
      (if doc[j].TextNode? then "" else doc[j].markup) + SectionBody(doc[j + 1..], level)
  {
    assert doc[j..][1..] == doc[j + 1..];
  }

  /** The sibling loop of `iter_sections` for the heading at `hi`: the HTML of
      the following tags up to the first heading of level `level` or less. */
  method CollectBody(doc: seq<Node>, hi: nat, level: int) returns (body: string)
    requires hi < |doc|
    ensures body == SectionBody(doc[hi + 1..], level)
  {
    var parts: seq<string> := [];
    var j := hi + 1;
    while j < |doc|
      invariant hi + 1 <= j <= |doc|
      invariant Join(parts, "") + SectionBody(doc[j..], level) == SectionBody(doc[hi + 1..], level)
    {
      var sib := doc[j];
      if Closes(sib, level) {
        break;
      }
      BodyStep(doc, j, level);
      if !sib.TextNode? {
        ConcatSnoc(parts, sib.markup);
        ConcatAssoc(Join(parts, ""), sib.markup, SectionBody(doc[j + 1..], level));
        parts := parts + [sib.markup];
      } else {
        EmptyPrefix(SectionBody(doc[j + 1..], level));
      }
      j := j + 1;
    }
    body := Join(parts, "");
  }

  /** The heading loop of `iter_sections`. */
  method SectionsLoop(doc: seq<Node>, headers: seq<nat>) returns (secs: seq<Section>)
    requires AllSelected(doc, headers)
    ensures secs == SectionsOf(doc, headers)
  {
    secs := [];
    for k := 0 to |headers|
      invariant secs == SectionsOf(doc, headers[..k])
    {
      var hi := headers[k];
      SectionsOfSnoc(doc, headers[..k], hi);
      TakeSnoc(headers, k);
      var h := doc[hi];
      if h.id.value != "" {
        var body := CollectBody(doc, hi, h.level);
        secs := secs + [Section(h.id, h.text, h.level, body)];
      }
    }
    TakeAll(headers);
  }

  /** `iter_sections(soup)`. */
  method IterSections(doc: seq<Node>) returns (secs: seq<Section>)
    ensures secs == IterSectionsSpec(doc)
  {
    var headers := SelectHeadings(doc);
    if |headers| == 0 {
      secs := [Section(None, "", 0, Render(doc))];
    } else {
      secs := SectionsLoop(doc, headers);
    }
  }

  // ---------------------------------------------------------------- process_file

  /** `s.split(sep, 1)[-1]`: what follows the first occurrence of `sep`, or
      all of `s` when `sep` does not occur. */
  function AfterFirst(s: string, sep: string): (r: string)
    ensures |r| <= |s| && r == s[|s| - |r|..]
    ensures !Contains(s, sep) ==> r == s
    ensures Contains(s, sep) ==> (|r| + |sep| <= |s| &&
      s[|s| - |r| - |sep|..|s| - |r|] == sep &&
      forall j :: 0 <= j < |s| - |r| - |sep| ==> !StartsWith(s[j..], sep))
  {
    var i := Find(s, sep);
    if i < 0 then s
    else
      assert s[i + |sep|..] == s[|s| - |s[i + |sep|..]|..];
      s[i + |sep|..]
  }

  /** `s.rsplit(c, 1)[-1]`: what follows the last occurrence of `c`, or all of `s`. */
  function AfterLast(s: string, c: char): (r: string)
    ensures |r| <= |s| && r == s[|s| - |r|..]
    ensures c !in r
    ensures |r| < |s| ==> s[|s| - |r| - 1] == c
    decreases |s|
  {
    if |s| == 0 then ""
    else if s[|s| - 1] == c then ""
    else
      var init := s[..|s| - 1];
      var r0 := AfterLast(init, c);
      assert s[|s| - |r0| - 1..] == init[|init| - |r0|..] + [s[|s| - 1]];
      r0 + [s[|s| - 1]]
  }

  /** The page path of an HTML file: after `/docs_raw/` and the site directory. */
  function PageRel(path: string): string {
    AfterFirst(AfterFirst(path, "/docs_raw/"), "/")
  }

  /** `base_url.rstrip("/") + "/" + rel`. */
  function PageUrl(baseUrl: string, rel: string): string {
    RStripChar(baseUrl, '/') + "/" + rel
  }

  /** A record's url: the page url, with `#anchor` when the anchor is truthy. */
  function RecordUrl(url: string, anchor: Option<string>): (r: string)
    ensures anchor.Some? && anchor.value != "" ==> r == url + "#" + anchor.value
    ensures anchor.None? || anchor.value == "" ==> r == url
  {
    if anchor.Some? && anchor.value != "" then url + "#" + anchor.value else url
  }

  /** The record title: the heading text, else the last segment of the page
      path, else "index". */
  function RecordTitle(title: string, rel: string): (r: string)
    ensures title != "" ==> r == title
    ensures title == "" && rel != "" ==> r == AfterLast(rel, '/')
    ensures title == "" && rel == "" ==> r == "index"
  {
    if title != "" then title else if rel != "" then AfterLast(rel, '/') else "index"
  }

  /** The records of one section's chunks. */
  function ChunkRecords(chunks: seq<string>, sec: Section, rel: string, url: string, site: string): (r: seq<Record>)
    ensures |r| == |chunks|
    ensures forall i :: 0 <= i < |r| ==> r[i].mdText == chunks[i]
  {
    seq(|chunks|, i requires 0 <= i < |chunks| =>
      Record(RecordTitle(sec.title, rel), sec.anchor, sec.level, chunks[i], RecordUrl(url, sec.anchor), rel, site))
  }

  /** The records of the sections `secs`, chunked with the token counter `tok`. */
  function SectionRecords(secs: seq<Section>, convert: string -> string, tok: string -> nat,
                          rel: string, url: string, site: string): seq<Record>
    decreases |secs|
  {
    if |secs| == 0 then []
    else
      var sec := secs[|secs| - 1];
      var chunks := ChunkMarkdownSpec(ToMarkdown(convert, sec.innerHtml), tok, MaxTok);
      SectionRecords(secs[..|secs| - 1], convert, tok, rel, url, site) + ChunkRecords(chunks, sec, rel, url, site)
  }

  /** What `process_file` returns for the page at `path` whose cleaned HTML is `doc`. */
  function ProcessFileSpec(path: string, baseUrl: string, site: string, doc: seq<Node>,
                           convert: string -> string, enc: Encoder): Result<seq<Record>, IndexError> {
    var rel := PageRel(path);
    var secs := IterSectionsSpec(doc);
    if enc.Unavailable? then (if |secs| == 0 then Ok([]) else Err(EncoderUnavailable))
    else Ok(SectionRecords(secs, convert, enc.count, rel, PageUrl(baseUrl, rel), site))
  }

  /** A record of `process_file` belongs to its page: it is tagged with the page
      path and the site, its url is the page url with `#anchor` exactly when its
      section has an anchor, its title falls back to the page name, and its
      text is stripped. */
  predicate PageRecord(r: Record, rel: string, url: string, site: string) {
    r.page == rel && r.sourceSite == site &&
    (r.anchor.Some? ==> r.url == url + "#" + r.anchor.value && r.anchor.value != "") &&
    (r.anchor.None? ==> r.url == url) &&
    (r.title == "" ==> rel != "" && r.title == AfterLast(rel, '/')) &&
    IsStripped(r.mdText)
  }

  /** Every chunk `chunk_markdown` returns is stripped. */
  lemma ChunksStripped(text: string, tok: string -> nat, maxTok: int)
    ensures forall i :: 0 <= i < |ChunkMarkdownSpec(text, tok, maxTok)| ==> IsStripped(ChunkMarkdownSpec(text, tok, maxTok)[i])
  {
    if tok(text) > maxTok {
      ChunkMarkdownSplit(text, tok, maxTok);
    }
  }

  /** The records of one section are records of its page. */
  lemma ChunkRecordsShape(chunks: seq<string>, sec: Section, rel: string, url: string, site: string)
    requires forall i :: 0 <= i < |chunks| ==> IsStripped(chunks[i])
    requires sec.anchor.None? || sec.anchor.value != ""
    ensures forall r :: r in ChunkRecords(chunks, sec, rel, url, site) ==> PageRecord(r, rel, url, site)
  {
    var cr := ChunkRecords(chunks, sec, rel, url, site);
    forall r | r in cr ensures PageRecord(r, rel, url, site) {
      var i :| 0 <= i < |cr| && cr[i] == r;
      assert IsStripped(chunks[i]);
      assert r == Record(RecordTitle(sec.title, rel), sec.anchor, sec.level, chunks[i], RecordUrl(url, sec.anchor), rel, site);
    }
  }

  lemma {:induction false} SectionRecordsShape(secs: seq<Section>, convert: string -> string, tok: string -> nat,
                                               rel: string, url: string, site: string)
    requires forall s :: s in secs ==> s.anchor.None? || s.anchor.value != ""
    ensures forall r :: r in SectionRecords(secs, convert, tok, rel, url, site) ==> PageRecord(r, rel, url, site)
    decreases |secs|
  {
    if |secs| > 0 {
      var sec := secs[|secs| - 1];
      var init := secs[..|secs| - 1];
      assert forall s :: s in init ==> s in secs;
      assert sec in secs;
      SectionRecordsShape(init, convert, tok, rel, url, site);
      var md := ToMarkdown(convert, sec.innerHtml);
      ChunksStripped(md, tok, MaxTok);
      ChunkRecordsShape(ChunkMarkdownSpec(md, tok, MaxTok), sec, rel, url, site);
    }
  }

  /** The records of `process_file`, for every page: each is a `PageRecord`
      of the page url `base_url.rstrip("/") + "/" + rel`. */
  lemma ProcessFileRecords(path: string, baseUrl: string, site: string, doc: seq<Node>,
                           convert: string -> string, enc: Encoder)
    ensures var res := ProcessFileSpec(path, baseUrl, site, doc, convert, enc);
      res.Ok? ==> forall r :: r in res.value ==>
        PageRecord(r, PageRel(path), RStripChar(baseUrl, '/') + "/" + PageRel(path), site)
    ensures enc.Unavailable? && |IterSectionsSpec(doc)| > 0 ==> ProcessFileSpec(path, baseUrl, site, doc, convert, enc).Err?
  {
    var secs := IterSectionsSpec(doc);
    if exists j :: 0 <= j < |doc| && Selected(doc[j]) {
      IterSectionsShape(doc);
    } else {
      IterSectionsShape(doc);
    }
    if enc.Available? {
      SectionRecordsShape(secs, convert, enc.count, PageRel(path), PageUrl(baseUrl, PageRel(path)), site);
    }
  }

  lemma SectionRecordsSnoc(secs: seq<Section>, sec: Section, convert: string -> string, tok: string -> nat,
                           rel: string, url: string, site: string)
    ensures SectionRecords(secs + [sec], convert, tok, rel, url, site) ==
      SectionRecords(secs, convert, tok, rel, url, site) +
      ChunkRecords(ChunkMarkdownSpec(ToMarkdown(convert, sec.innerHtml), tok, MaxTok), sec, rel, url, site)
  {
    SnocInit(secs, sec);
  }

  /** One step of the section loop of `process_file`: the section's markdown
      is chunked and every chunk becomes a record. */
  method OneSection(sec: Section, convert: string -> string, enc: Encoder,
                    rel: string, url: string, site: string) returns (r: Result<seq<Record>, IndexError>)
    ensures enc.Unavailable? ==> r == Err(EncoderUnavailable)
    ensures enc.Available? ==> r == Ok(ChunkRecords(ChunkMarkdownSpec(ToMarkdown(convert, sec.innerHtml), enc.count, MaxTok), sec, rel, url, site))
  {
    var md := ToMarkdown(convert, sec.innerHtml);
    var chunks := ChunkMarkdown(md, enc, MaxTok);
    if chunks.Err? {
      return Err(chunks.error);
    }
    r := Ok(ChunkRecords(chunks.value, sec, rel, url, site));
  }

  /** The section loop of `process_file`. */
  method RecordsLoop(secs: seq<Section>, convert: string -> string, enc: Encoder,
                     rel: string, url: string, site: string) returns (r: Result<seq<Record>, IndexError>)
    ensures enc.Unavailable? ==> r == if |secs| == 0 then Ok([]) else Err(EncoderUnavailable)
    ensures enc.Available? ==> r == Ok(SectionRecords(secs, convert, enc.count, rel, url, site))
  {
    var recs: seq<Record> := [];
    for k := 0 to |secs|
      invariant enc.Available? ==> recs == SectionRecords(secs[..k], convert, enc.count, rel, url, site)
      invariant enc.Unavailable? ==> k == 0 && recs == []
    {
      TakeSnoc(secs, k);
      var sec := secs[k];
      var one := OneSection(sec, convert, enc, rel, url, site);
      if one.Err? {
        return Err(one.error);
      }
      SectionRecordsSnoc(secs[..k], sec, convert, enc.count, rel, url, site);
      recs := recs + one.value;
    }
    TakeAll(secs);
    r := Ok(recs);
  }

  /** `process_file(html_path, base_url, source_site)`, after the HTML file
      has been read and cleaned into `doc`. */
  method ProcessFile(path: string, baseUrl: string, site: string, doc: seq<Node>,
                     convert: string -> string, enc: Encoder) returns (r: Result<seq<Record>, IndexError>)
    ensures r == ProcessFileSpec(path, baseUrl, site, doc, convert, enc)
  {
    var rel := AfterFirst(AfterFirst(path, "/docs_raw/"), "/");
    var url := RStripChar(baseUrl, '/') + "/" + rel;
    var secs := IterSections(doc);
    r := RecordsLoop(secs, convert, enc, rel, url, site);
  }

  // ---------------------------------------------------------------- build_index

  /** Why `build_index` stops: the BM25 library is missing (it logs and
      returns), a line is not a JSON object, or a record's `md_text` is not a
      string. */
  datatype BuildError = Bm25Unavailable | BadJson(line: string) | BadMarkdown

  /** The loaded records and the token lists the BM25 index is built from. */
  datatype Index = Index(records: seq<JsonObject>, corpus: seq<seq<string>>)

  /** The lines of the JSONL files that exist, in file order; a missing file
      is `None`. */
  function AllLines(files: seq<Option<seq<string>>>): seq<string>
    decreases |files|
  {
    if |files| == 0 then []
    else AllLines(files[..|files| - 1]) + (if files[|files| - 1].Some? then files[|files| - 1].value else [])
  }

  /** The stripped lines that are not blank. */
  function KeptJsonLines(lines: seq<string>): seq<string> {
    Filter(StripEach(lines), NonEmpty)
  }

  /** Every line parsed, in order; the first line that does not parse stops the load. */
  function ParseAll(lines: seq<string>, parse: string -> Option<JsonObject>): Result<seq<JsonObject>, BuildError>
    decreases |lines|
  {
    if |lines| == 0 then Ok([])
    else
      var rs := ParseAll(lines[..|lines| - 1], parse);
      var l := lines[|lines| - 1];
      if rs.Err? then rs
      else if parse(l).None? then Err(BadJson(l))
      else Ok(rs.value + [parse(l).value])
  }

  /** `r.get("md_text", "")`, which must be a string for `.lower()`. */
  function MdTextOf(o: JsonObject): Option<string> {
    if "md_text" !in o then Some("")
    else if o["md_text"].JString? then Some(o["md_text"].str)
    else None
  }

  /** `[tokenize(r.get("md_text", "")) for r in records]`. */
  function CorpusOf(records: seq<JsonObject>): Result<seq<seq<string>>, BuildError>
    decreases |records|
  {
    if |records| == 0 then Ok([])
    else
      var c := CorpusOf(records[..|records| - 1]);
      var t := MdTextOf(records[|records| - 1]);
      if c.Err? then c
      else if t.None? then Err(BadMarkdown)
      else Ok(c.value + [Tokenize(t.value)])
  }

  /** What `build_index` builds the BM25 index from. */
  function BuildIndexSpec(files: seq<Option<seq<string>>>, parse: string -> Option<JsonObject>, hasBm25: bool): Result<Index, BuildError> {
    if !hasBm25 then Err(Bm25Unavailable)
    else
      var recs := ParseAll(KeptJsonLines(AllLines(files)), parse);
      if recs.Err? then Err(recs.error)
      else
        var corpus := CorpusOf(recs.value);
        if corpus.Err? then Err(corpus.error) else Ok(Index(recs.value, corpus.value))
  }

  /** The corpus lines up with the records: `corpus[i]` is the tokens of
      `records[i]`'s markdown text. */
  lemma {:induction false} CorpusPairs(records: seq<JsonObject>)
    ensures CorpusOf(records).Ok? <==> forall i :: 0 <= i < |records| ==> MdTextOf(records[i]).Some?
    ensures CorpusOf(records).Ok? ==>
      |CorpusOf(records).value| == |records| &&
      forall i :: 0 <= i < |records| ==> CorpusOf(records).value[i] == Tokenize(MdTextOf(records[i]).value)
    decreases |records|
  {
    if |records| > 0 {
      var init := records[..|records| - 1];
      CorpusPairs(init);
      assert forall i :: 0 <= i < |init| ==> init[i] == records[i];
    }
  }

  /** Every record comes from a non-blank line, in file and line order. */
  lemma {:induction false} ParseAllPairs(lines: seq<string>, parse: string -> Option<JsonObject>)
    ensures ParseAll(lines, parse).Ok? <==> forall i :: 0 <= i < |lines| ==> parse(lines[i]).Some?
    ensures ParseAll(lines, parse).Ok? ==>
      |ParseAll(lines, parse).value| == |lines| &&
      forall i :: 0 <= i < |lines| ==> ParseAll(lines, parse).value[i] == parse(lines[i]).value
    decreases |lines|
  {
    if |lines| > 0 {
      var init := lines[..|lines| - 1];
      ParseAllPairs(init, parse);
      assert forall i :: 0 <= i < |init| ==> init[i] == lines[i];
    }
  }

  /** The index `build_index` builds: one record per non-blank line of the
      existing files, in order, each paired with its tokens, every token
      lowercase, at least two characters long and drawn from `[a-z0-9_#-]`. */
  lemma BuildIndexShape(files: seq<Option<seq<string>>>, parse: string -> Option<JsonObject>)
    ensures var res := BuildIndexSpec(files, parse, true);
      var lines := KeptJsonLines(AllLines(files));
      res.Ok? ==>
        |res.value.records| == |lines| == |res.value.corpus| &&
        (forall i :: 0 <= i < |lines| ==>
          parse(lines[i]).Some? && res.value.records[i] == parse(lines[i]).value &&
          MdTextOf(res.value.records[i]).Some? &&
          res.value.corpus[i] == Tokenize(MdTextOf(res.value.records[i]).value)) &&
        forall i, t :: 0 <= i < |lines| && t in res.value.corpus[i] ==>
          |t| >= 2 && IsTokenWord(t)
  {
    var lines := KeptJsonLines(AllLines(files));
    ParseAllPairs(lines, parse);
    var recs := ParseAll(lines, parse);
    if recs.Ok? {
      CorpusPairs(recs.value);
    }
  }

  lemma KeptJsonLinesSnoc(lines: seq<string>, l: string)
    ensures KeptJsonLines(lines + [l]) == KeptJsonLines(lines) + (if Strip(l) != "" then [Strip(l)] else [])
  {
    assert StripEach(lines + [l]) == StripEach(lines) + [Strip(l)];
    FilterSnoc(StripEach(lines), Strip(l), NonEmpty);
  }

  lemma ParseAllSnoc(lines: seq<string>, l: string, parse: string -> Option<JsonObject>)
    ensures ParseAll(lines + [l], parse) ==
      var rs := ParseAll(lines, parse);
      if rs.Err? then rs else if parse(l).None? then Err(BadJson(l)) else Ok(rs.value + [parse(l).value])
  {
    SnocInit(lines, l);
  }

  lemma {:induction false} AllLinesAppend(a: seq<Option<seq<string>>>, b: seq<Option<seq<string>>>)
    ensures AllLines(a + b) == AllLines(a) + AllLines(b)
    decreases |b|
  {
    if |b| == 0 {
      assert a + b == a;
    } else {
      var b' := b[..|b| - 1];
      assert (a + b)[..|a + b| - 1] == a + b';
      assert (a + b)[|a + b| - 1] == b[|b| - 1];
      AllLinesAppend(a, b');
    }
  }

  lemma AllLinesSnoc(files: seq<Option<seq<string>>>, file: Option<seq<string>>)
    ensures AllLines(files + [file]) == AllLines(files) + (if file.Some? then file.value else [])
  {
    SnocInit(files, file);
  }

  lemma KeptJsonLinesAppend(a: seq<string>, b: seq<string>)
    ensures KeptJsonLines(a + b) == KeptJsonLines(a) + KeptJsonLines(b)
  {
    MapAppend(a, b, Strip);
    FilterAppend(StripEach(a), StripEach(b), NonEmpty);
  }

  lemma {:induction false} ParseAllErr(xs: seq<string>, ys: seq<string>, parse: string -> Option<JsonObject>)
    requires ParseAll(xs, parse).Err?
    ensures ParseAll(xs + ys, parse) == ParseAll(xs, parse)
    decreases |ys|
  {
    if |ys| == 0 {
      assert xs + ys == xs;
    } else {
      var ys' := ys[..|ys| - 1];
      ParseAllErr(xs, ys', parse);
      assert (xs + ys)[..|xs + ys| - 1] == xs + ys';
    }
  }

  /** A line that does not parse stops the loading: later lines change nothing. */
  lemma LoadStops(a: seq<string>, b: seq<string>, parse: string -> Option<JsonObject>)
    requires ParseAll(KeptJsonLines(a), parse).Err?
    ensures ParseAll(KeptJsonLines(a + b), parse) == ParseAll(KeptJsonLines(a), parse)
  {
    KeptJsonLinesAppend(a, b);
    ParseAllErr(KeptJsonLines(a), KeptJsonLines(b), parse);
  }

  /** One line of the load: a blank line is skipped, any other is stripped
      and parsed, and the first that does not parse stops the load. */
  lemma LoadStep(prev: seq<string>, l: string, parse: string -> Option<JsonObject>, recs: seq<JsonObject>)
    requires ParseAll(KeptJsonLines(prev), parse) == Ok(recs)
    ensures Strip(l) == "" ==> ParseAll(KeptJsonLines(prev + [l]), parse) == Ok(recs)
    ensures Strip(l) != "" && parse(Strip(l)).None? ==>
      ParseAll(KeptJsonLines(prev + [l]), parse) == Err(BadJson(Strip(l)))
    ensures Strip(l) != "" && parse(Strip(l)).Some? ==>
      ParseAll(KeptJsonLines(prev + [l]), parse) == Ok(recs + [parse(Strip(l)).value])
  {
    KeptJsonLinesSnoc(prev, l);
    if Strip(l) != "" {
      ParseAllSnoc(KeptJsonLines(prev), Strip(l), parse);
    } else {
      assert KeptJsonLines(prev) + [] == KeptJsonLines(prev);
    }
  }

  /** The line loop of `build_index` over one JSONL file, after the lines
      `before` have given `records`. */
  method LoadFile(ghost before: seq<string>, lines: seq<string>, records: seq<JsonObject>,
                  parse: string -> Option<JsonObject>) returns (r: Result<seq<JsonObject>, BuildError>)
    requires ParseAll(KeptJsonLines(before), parse) == Ok(records)
    ensures r == ParseAll(KeptJsonLines(before + lines), parse)
  {
    var recs := records;
    assert before + lines[..0] == before;
    for i := 0 to |lines|
      invariant ParseAll(KeptJsonLines(before + lines[..i]), parse) == Ok(recs)
    {
      AppendTakeSnoc(before, lines, i);
      var line := Strip(lines[i]);
      LoadStep(before + lines[..i], lines[i], parse, recs);
      if line != "" {
        var o := parse(line);
        if o.None? {
          LoadStops(before + lines[..i + 1], lines[i + 1..], parse);
          return Err(BadJson(line));
        }
        recs := recs + [o.value];
      }
    }
    TakeAll(lines);
    r := Ok(recs);
  }

  /** `build_index(jsonl_files)` up to building the BM25 model: loads the
      records and tokenizes their markdown. `files[i]` is the lines of the
      i-th JSONL file, `None` when it does not exist; `parse` is `json.loads`. */
  method BuildIndex(files: seq<Option<seq<string>>>, parse: string -> Option<JsonObject>, hasBm25: bool)
    returns (r: Result<Index, BuildError>)
    ensures r == BuildIndexSpec(files, parse, hasBm25)
  {
    if !hasBm25 {
      return Err(Bm25Unavailable);
    }
    var records: seq<JsonObject> := [];
    for f := 0 to |files|
      invariant ParseAll(KeptJsonLines(AllLines(files[..f])), parse) == Ok(records)
    {
      TakeSnoc(files, f);
      AllLinesSnoc(files[..f], files[f]);
      if files[f].None? {
        assert AllLines(files[..f + 1]) == AllLines(files[..f]);
        continue;
      }
      var res := LoadFile(AllLines(files[..f]), files[f].value, records, parse);
      if res.Err? {
        assert files == files[..f + 1] + files[f + 1..];
        AllLinesAppend(files[..f + 1], files[f + 1..]);
        LoadStops(AllLines(files[..f + 1]), AllLines(files[f + 1..]), parse);
        return Err(res.error);
      }
      records := res.value;
    }
    TakeAll(files);
    var corpus := CorpusOf(records);
    if corpus.Err? {
      return Err(corpus.error);
    }
    r := Ok(Index(records, corpus.value));
  }
}
