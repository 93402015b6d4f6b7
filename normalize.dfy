/** The section splitter of the HTML normalizer (normalize.py): the Markdown
    text of a page is cut at its H2 and H3 headings, each section's body is
    cut further to the 1200-token budget by paragraphs, and every piece
    becomes a record tagged with its page url, page path and site. */
module Normalize {
  import opened Wrappers
  import opened Strings
  import opened Seqs
  import opened Chunking
  import Indexer

  /** `MAX_TOK`: the token budget of one record. */
  const MaxTok := 1200

  /** What `push` appends: a dict with the keys title, anchor and md_text. */
  datatype Chunk = Chunk(title: string, anchor: string, mdText: string)

  /** A chunk once the url loop of `split_by_sections` has given it its url. */
  datatype Section = Section(title: string, anchor: string, mdText: string, url: string)

  /** A section once `_process_single_file` has tagged it with its page and site. */
  datatype PageRecord = PageRecord(title: string, anchor: string, mdText: string, url: string, page: string, sourceSite: string)

  /** The `current` dict: the heading title and anchor of the open section and
      its body lines. The preamble before the first heading has title `None`;
      it is written "" here, which `push` treats the same way (both are falsy,
      and the anchor of a section is only read when its title is truthy). */
  datatype Current = Current(title: string, anchor: string, body: seq<string>)

  /** The state of the line loop: the chunks pushed so far and the open section. */
  datatype SplitState = SplitState(chunks: seq<Chunk>, current: Current)

  /** The state before the first line. */
  const Start := SplitState([], Current("", "", []))

  // ---------------------------------------------------------------- headings

  /** Only an H2 or H3 line opens a section. */
  predicate OpensSection(ln: string) {
    StartsWith(ln, "## ") || StartsWith(ln, "### ")
  }

  /** `ln.lstrip("#").strip()`. */
  function SectionTitle(ln: string): (t: string)
    ensures IsStripped(t) && |t| <= |ln|
  {
    Strip(LStripChar(ln, '#'))
  }

  /** The characters the anchor keeps: `[a-z0-9\- ]`. */
  predicate IsAnchorChar(c: char) {
    IsAsciiLower(c) || IsDigit(c) || c == '-' || c == ' '
  }

  /** The characters an anchor consists of: `[a-z0-9-]`. */
  predicate IsSlugChar(c: char) {
    IsAsciiLower(c) || IsDigit(c) || c == '-'
  }

  /** The lowercased title with every character outside `[a-z0-9\- ]` removed
      and each remaining space, one by one, made a `-`. */
  function SectionAnchor(title: string): (a: string)
    ensures |a| <= |title|
    ensures forall i :: 0 <= i < |a| ==> IsSlugChar(a[i])
  {
    ReplaceChar(Filter(Lower(title), IsAnchorChar), ' ', '-')
  }

  /** A title that is already an anchor is its own anchor: nothing is
      collapsed or trimmed. */
  lemma {:induction false} AnchorOfSlug(title: string)
    requires forall i :: 0 <= i < |title| ==> IsSlugChar(title[i])
    ensures SectionAnchor(title) == title
  {
    assert Lower(title) == title;
    FilterAll(title, IsAnchorChar);
  }

  /** Lines opening with one hash or with four hashes stay in the body. */
  lemma OtherHeadingsStay(ln: string)
    requires StartsWith(ln, "# ") || StartsWith(ln, "#### ")
    ensures !OpensSection(ln)
  {
    if StartsWith(ln, "# ") {
      assert ln[1] == ' ';
    } else {
      assert ln[2] == '#' && ln[3] == '#';
    }
  }

  // ---------------------------------------------------------------- push

  /** The texts a section body of stripped text `body` is cut into: the whole
      body when it fits the budget, else the greedy runs of its paragraphs,
      each joined with "\n\n" (neither stripped nor filtered). */
  function BodyTexts(body: string, tok: string -> nat): (ts: seq<string>)
    ensures |ts| > 0
  {
    if tok(body) <= MaxTok then [body]
    else
      var rs := Runs(Split(body, ParaSep), tok, MaxTok);
      JoinEach(rs, ParaSep)
  }

  /** The chunks of one section, each with the section's title and anchor. */
  function Label(title: string, anchor: string, texts: seq<string>): (cs: seq<Chunk>)
    ensures |cs| == |texts|
    ensures forall i :: 0 <= i < |cs| ==> cs[i] == Chunk(title, anchor, texts[i])
  {
    seq(|texts|, i requires 0 <= i < |texts| => Chunk(title, anchor, texts[i]))
  }

  /** The chunks `push` appends for the section `cur`: none unless the title is
      truthy and the body has a line, else one per text of the stripped,
      newline-joined body. */
  function PushSpec(cur: Current, tok: string -> nat): (cs: seq<Chunk>)
    ensures |cs| > 0 <==> cur.title != "" && |cur.body| > 0
    ensures forall i :: 0 <= i < |cs| ==> cs[i].title == cur.title && cs[i].anchor == cur.anchor
  {
    if cur.title != "" && |cur.body| > 0 then
      Label(cur.title, cur.anchor, BodyTexts(Strip(Join(cur.body, "\n")), tok))
    else []
  }

  /** Appending one more run's text to the labelled texts. */
  lemma LabelSnoc(title: string, anchor: string, done: seq<seq<string>>, run: seq<string>)
    ensures Label(title, anchor, JoinEach(done + [run], ParaSep)) ==
      Label(title, anchor, JoinEach(done, ParaSep)) + [Chunk(title, anchor, Join(run, ParaSep))]
  {
    assert JoinEach(done + [run], ParaSep) == JoinEach(done, ParaSep) + [Join(run, ParaSep)];
  }

  /** The `push` closure: appends the chunks of `cur` to `chunks`. */
  method Push(chunks: seq<Chunk>, cur: Current, tok: string -> nat) returns (out: seq<Chunk>)
    ensures out == chunks + PushSpec(cur, tok)
  {
    out := chunks;
    if cur.title == "" || |cur.body| == 0 {
      return;
    }
    var body := Strip(Join(cur.body, "\n"));
    if tok(body) <= MaxTok {
      out := out + [Chunk(cur.title, cur.anchor, body)];
      return;
    }
    var paras := Split(body, ParaSep);
    var runs := ParagraphRuns(paras, cur.title, cur.anchor, tok);
    out := out + runs;
  }

  /** The `acc`/`count` loop of `push` over the paragraphs of a body over the
      budget. */
  method ParagraphRuns(paras: seq<string>, title: string, anchor: string, tok: string -> nat) returns (out: seq<Chunk>)
    ensures out == Label(title, anchor, JoinEach(Runs(paras, tok, MaxTok), ParaSep))
  {
    out := [];
    var acc: seq<string> := [];
    var count: int := 0;
    ghost var done: seq<seq<string>> := [];
    for i := 0 to |paras|
      invariant count == Sum(acc, tok)
      invariant i == 0 ==> acc == [] && done == []
      invariant i > 0 ==> |acc| > 0 && Runs(paras[..i], tok, MaxTok) == done + [acc]
      invariant out == Label(title, anchor, JoinEach(done, ParaSep))
    {
      TakeSnoc(paras, i);
      var p := paras[i];
      var ct := tok(p);
      if i == 0 {
        assert Runs([p], tok, MaxTok) == [[p]];
      } else {
        RunsStep(paras[..i], p, tok, MaxTok, done, acc);
      }
      if count + ct > MaxTok && |acc| > 0 {
        LabelSnoc(title, anchor, done, acc);
        out := out + [Chunk(title, anchor, Join(acc, ParaSep))];
        done := done + [acc];
        acc := [p];
        count := ct;
        assert Sum([p], tok) == Sum([], tok) + tok(p);
      } else {
        SumSnoc(acc, p, tok);
        acc := acc + [p];
        count := count + ct;
      }
    }
    TakeAll(paras);
    if |acc| > 0 {
      LabelSnoc(title, anchor, done, acc);
      out := out + [Chunk(title, anchor, Join(acc, ParaSep))];
    } else {
      assert |paras| == 0;
    }
  }

  // ---------------------------------------------------------------- the line loop

  /** One line of the loop: a heading pushes the open section and opens a new
      one with an empty body; any other line joins the open section's body. */
  function SplitStep(st: SplitState, ln: string, tok: string -> nat): SplitState {
    if OpensSection(ln) then
      var t := SectionTitle(ln);
      SplitState(st.chunks + PushSpec(st.current, tok), Current(t, SectionAnchor(t), []))
    else
      SplitState(st.chunks, st.current.(body := st.current.body + [ln]))
  }

  /** The state after the loop has seen `lines`. */
  function SplitScan(lines: seq<string>, tok: string -> nat): SplitState
    decreases |lines|
  {
    if |lines| == 0 then Start
    else SplitStep(SplitScan(lines[..|lines| - 1], tok), lines[|lines| - 1], tok)
  }

  /** The chunks of a page of lines, after the final `push`. */
  function LineChunks(lines: seq<string>, tok: string -> nat): seq<Chunk> {
    var st := SplitScan(lines, tok);
    st.chunks + PushSpec(st.current, tok)
  }

  /** The url loop: the base url, with `#anchor` when the anchor is non-empty. */
  function WithUrl(c: Chunk, baseUrl: string): (s: Section)
    ensures s.title == c.title && s.anchor == c.anchor && s.mdText == c.mdText
  {
    Section(c.title, c.anchor, c.mdText, Indexer.RecordUrl(baseUrl, Some(c.anchor)))
  }

  /** `split_by_sections(md_text, base_url)`. */
  function SplitBySectionsSpec(md: string, baseUrl: string, tok: string -> nat): seq<Section> {
    WithUrls(LineChunks(SplitLines(md), tok), baseUrl)
  }

  /** Every chunk with its url. */
  function WithUrls(cs: seq<Chunk>, baseUrl: string): (ss: seq<Section>)
    ensures |ss| == |cs|
    ensures forall i :: 0 <= i < |cs| ==> ss[i] == WithUrl(cs[i], baseUrl)
  {
    seq(|cs|, i requires 0 <= i < |cs| => WithUrl(cs[i], baseUrl))
  }

  /** The body of the `for ln in lines` loop. */
  method SplitLine(chunks: seq<Chunk>, current: Current, ln: string, tok: string -> nat)
    returns (chunks': seq<Chunk>, current': Current)
    ensures SplitState(chunks', current') == SplitStep(SplitState(chunks, current), ln, tok)
  {
    if StartsWith(ln, "## ") || StartsWith(ln, "### ") {
      chunks' := Push(chunks, current, tok);
      var title := Strip(LStripChar(ln, '#'));
      var anchor := ReplaceChar(Filter(Lower(title), IsAnchorChar), ' ', '-');
      current' := Current(title, anchor, []);
    } else {
      chunks' := chunks;
      current' := current.(body := current.body + [ln]);
    }
  }

  /** `split_by_sections`: the line loop, the final `push` and the url loop. */
  method SplitBySections(md: string, baseUrl: string, tok: string -> nat) returns (out: seq<Section>)
    ensures out == SplitBySectionsSpec(md, baseUrl, tok)
  {
    var lines := SplitLines(md);
    var chunks, current := SplitLoop(lines, tok);
    chunks := Push(chunks, current, tok);
    out := AttachUrls(chunks, baseUrl);
  }

  /** The `for ln in lines` loop. */
  method SplitLoop(lines: seq<string>, tok: string -> nat) returns (chunks: seq<Chunk>, current: Current)
    ensures SplitState(chunks, current) == SplitScan(lines, tok)
  {
    chunks := [];
    current := Current("", "", []);
    for i := 0 to |lines|
      invariant SplitState(chunks, current) == SplitScan(lines[..i], tok)
    {
      TakeSnoc(lines, i);
      SnocInit(lines[..i], lines[i]);
      chunks, current := SplitLine(chunks, current, lines[i], tok);
    }
    TakeAll(lines);
  }

  /** The `for c in chunks` loop that gives every chunk its url. */
  method AttachUrls(chunks: seq<Chunk>, baseUrl: string) returns (out: seq<Section>)
    ensures out == WithUrls(chunks, baseUrl)
  {
    out := [];
    for i := 0 to |chunks|
      invariant |out| == i
      invariant forall j :: 0 <= j < i ==> out[j] == WithUrl(chunks[j], baseUrl)
    {
      out := out + [WithUrl(chunks[i], baseUrl)];
    }
  }

  // ---------------------------------------------------------------- one page

  /** `_process_single_file` once the page has been read and converted: the
      sections of its Markdown `md` under the page url, each tagged with the
      page path `rel` and the site. */
  function SingleFileSpec(rel: string, baseUrl: string, site: string, md: string, tok: string -> nat): seq<PageRecord> {
    TagAll(SplitBySectionsSpec(md, Indexer.PageUrl(baseUrl, rel), tok), rel, site)
  }

  /** Every section tagged. */
  function TagAll(ss: seq<Section>, rel: string, site: string): (rs: seq<PageRecord>)
    ensures |rs| == |ss|
    ensures forall i :: 0 <= i < |ss| ==> rs[i] == Tag(ss[i], rel, site)
  {
    seq(|ss|, i requires 0 <= i < |ss| => Tag(ss[i], rel, site))
  }

  /** `s["page"] = rel; s["source_site"] = site_name`. */
  function Tag(s: Section, rel: string, site: string): (r: PageRecord)
    ensures r.page == rel && r.sourceSite == site
    ensures r.title == s.title && r.anchor == s.anchor && r.mdText == s.mdText && r.url == s.url
  {
    PageRecord(s.title, s.anchor, s.mdText, s.url, rel, site)
  }

  /** `_process_single_file`: the page url, the sections and the tagging loop. */
  method ProcessSingleFile(rel: string, baseUrl: string, site: string, md: string, tok: string -> nat)
    returns (records: seq<PageRecord>)
    ensures records == SingleFileSpec(rel, baseUrl, site, md, tok)
  {
    var url := RStripChar(baseUrl, '/') + "/" + rel;
    var sects := SplitBySections(md, url, tok);
    records := TagLoop(sects, rel, site);
  }

  /** The `for s in sects` loop that tags every section. */
  method TagLoop(sects: seq<Section>, rel: string, site: string) returns (records: seq<PageRecord>)
    ensures records == TagAll(sects, rel, site)
  {
    records := [];
    for i := 0 to |sects|
      invariant |records| == i
      invariant forall j :: 0 <= j < i ==> records[j] == Tag(sects[j], rel, site)
    {
      records := records + [Tag(sects[i], rel, site)];
    }
  }

  // ---------------------------------------------------------------- properties

  /** The titles of the heading lines among `lines`. */
  function HeadingTitles(lines: seq<string>): seq<string> {
    Map(Filter(lines, OpensSection), SectionTitle)
  }

  /** A chunk that belongs to a heading of `lines`: its title is the non-empty
      title of one of them and its anchor is made from that title. */
  predicate FromHeading(c: Chunk, lines: seq<string>) {
    c.title != "" && c.title in HeadingTitles(lines) && c.anchor == SectionAnchor(c.title)
  }

  /** What the line loop keeps true: every chunk so far belongs to a heading,
      and so does the open section unless it is the untitled preamble. */
  predicate ScanOk(st: SplitState, lines: seq<string>) {
    (forall i :: 0 <= i < |st.chunks| ==> FromHeading(st.chunks[i], lines)) &&
    st.current.anchor == SectionAnchor(st.current.title) &&
    (st.current.title != "" ==> st.current.title in HeadingTitles(lines))
  }

  /** More lines keep every heading title. */
  lemma HeadingTitlesSnoc(lines: seq<string>, ln: string)
    ensures HeadingTitles(lines + [ln]) ==
      HeadingTitles(lines) + (if OpensSection(ln) then [SectionTitle(ln)] else [])
  {
    FilterSnoc(lines, ln, OpensSection);
    MapAppend(Filter(lines, OpensSection), if OpensSection(ln) then [ln] else [], SectionTitle);
  }

  /** One step keeps `ScanOk`. */
  lemma SplitStepOk(st: SplitState, lines: seq<string>, ln: string, tok: string -> nat)
    requires ScanOk(st, lines)
    ensures ScanOk(SplitStep(st, ln, tok), lines + [ln])
  {
    HeadingTitlesSnoc(lines, ln);
    var hs := HeadingTitles(lines + [ln]);
    assert forall t :: t in HeadingTitles(lines) ==> t in hs;
    var ps := PushSpec(st.current, tok);
    forall i | 0 <= i < |ps| ensures FromHeading(ps[i], lines + [ln]) {
      assert ps[i].title == st.current.title;
    }
  }

  /** The loop keeps `ScanOk`. */
  lemma {:induction false} SplitScanOk(lines: seq<string>, tok: string -> nat)
    ensures ScanOk(SplitScan(lines, tok), lines)
    decreases |lines|
  {
    if |lines| > 0 {
      var init := lines[..|lines| - 1];
      SplitScanOk(init, tok);
      SplitStepOk(SplitScan(init, tok), init, lines[|lines| - 1], tok);
      InitLast(lines);
    }
  }

  /** Every chunk of a page belongs to one of its H2/H3 headings, with a
      non-empty title and the anchor made from that title. */
  lemma LineChunksFromHeadings(lines: seq<string>, tok: string -> nat)
    ensures forall i :: 0 <= i < |LineChunks(lines, tok)| ==> FromHeading(LineChunks(lines, tok)[i], lines)
  {
    var st := SplitScan(lines, tok);
    SplitScanOk(lines, tok);
    var ps := PushSpec(st.current, tok);
    forall i | 0 <= i < |ps| ensures FromHeading(ps[i], lines) {
      assert ps[i].title == st.current.title;
    }
  }

  /** A page without an H2 or H3 line gives no chunk at all. */
  lemma NoHeadingNoChunks(lines: seq<string>, tok: string -> nat)
    requires forall i :: 0 <= i < |lines| ==> !OpensSection(lines[i])
    ensures LineChunks(lines, tok) == []
  {
    PreambleScan(lines, tok);
  }

  /** Before the first heading the loop only collects the preamble into the
      untitled section. */
  lemma {:induction false} PreambleScan(pre: seq<string>, tok: string -> nat)
    requires forall i :: 0 <= i < |pre| ==> !OpensSection(pre[i])
    ensures SplitScan(pre, tok) == SplitState([], Current("", "", pre))
    decreases |pre|
  {
    if |pre| > 0 {
      PreambleScan(pre[..|pre| - 1], tok);
      InitLast(pre);
    }
  }

  /** The lines before the first heading appear in no record: a page gives
      the same chunks as the page without its preamble. */
  lemma {:induction false} PreambleDropped(pre: seq<string>, rest: seq<string>, tok: string -> nat)
    requires forall i :: 0 <= i < |pre| ==> !OpensSection(pre[i])
    requires |rest| > 0 && OpensSection(rest[0])
    ensures SplitScan(pre + rest, tok) == SplitScan(rest, tok)
    ensures LineChunks(pre + rest, tok) == LineChunks(rest, tok)
    decreases |rest|
  {
    if |rest| == 1 {
      PreambleScan(pre, tok);
      SnocInit(pre, rest[0]);
      assert SplitScan(rest, tok) == SplitStep(Start, rest[0], tok) by {
        assert rest[..0] == [];
      }
    } else {
      var init := rest[..|rest| - 1];
      PreambleDropped(pre, init, tok);
      assert (pre + rest)[..|pre + rest| - 1] == pre + init;
    }
  }

  /** Within a section the records' texts, joined with "\n\n", give its
      stripped body back; a body over the budget is cut into well-grouped
      runs of its paragraphs, a body within it is one record. */
  lemma PushRejoin(cur: Current, tok: string -> nat)
    requires cur.title != "" && |cur.body| > 0
    ensures var body := Strip(Join(cur.body, "\n"));
      var cs := PushSpec(cur, tok);
      Join(Map(cs, (c: Chunk) => c.mdText), ParaSep) == body &&
      (tok(body) <= MaxTok ==> cs == [Chunk(cur.title, cur.anchor, body)]) &&
      (tok(body) > MaxTok ==>
        var rs := Runs(Split(body, ParaSep), tok, MaxTok);
        Flatten(rs) == Split(body, ParaSep) && WellGrouped(rs, tok, MaxTok))
  {
    var body := Strip(Join(cur.body, "\n"));
    var ts := BodyTexts(body, tok);
    assert Map(PushSpec(cur, tok), (c: Chunk) => c.mdText) == ts;
    if tok(body) > MaxTok {
      RunsRoundTrip(body, tok, MaxTok);
      RunsPartition(Split(body, ParaSep), tok, MaxTok);
    }
  }

  /** A titled section whose body lines are all blank still gives one record,
      with empty text. */
  lemma BlankBodyOneRecord(cur: Current, tok: string -> nat)
    requires cur.title != "" && |cur.body| > 0
    requires forall i :: 0 <= i < |cur.body| ==> IsBlank(cur.body[i])
    ensures PushSpec(cur, tok) == [Chunk(cur.title, cur.anchor, "")]
  {
    JoinBlank(cur.body, "\n");
    var body := Strip(Join(cur.body, "\n"));
    assert body == "";
    if tok(body) > MaxTok {
      assert Split("", ParaSep) == [""];
      assert Runs([""], tok, MaxTok) == [[""]];
    }
  }

  /** Every record of a page carries the page path and the site, the title
      and anchor of one of the page's H2/H3 headings, and the page url with
      `#anchor` exactly when the anchor is non-empty. */
  lemma SingleFileRecords(rel: string, baseUrl: string, site: string, md: string, tok: string -> nat)
    ensures var rs := SingleFileSpec(rel, baseUrl, site, md, tok);
      var url := RStripChar(baseUrl, '/') + "/" + rel;
      forall i :: 0 <= i < |rs| ==>
        rs[i].page == rel && rs[i].sourceSite == site &&
        FromHeading(Chunk(rs[i].title, rs[i].anchor, rs[i].mdText), SplitLines(md)) &&
        (rs[i].anchor != "" ==> rs[i].url == url + "#" + rs[i].anchor) &&
        (rs[i].anchor == "" ==> rs[i].url == url)
  {
    LineChunksFromHeadings(SplitLines(md), tok);
  }
}
