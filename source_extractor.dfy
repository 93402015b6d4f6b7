/** The source-repository extractor (source_extractor.py): token-aware
    chunking of docstrings and markdown sections, docstring cleaning, API
    reference urls, markdown heading parsing and the line loop that turns a
    markdown file into records. The tokenizer is a parameter; git, the file
    system and the Python AST are not part of this model. */
module SourceExtractor {
  import opened Wrappers
  import opened Strings
  import opened Seqs
  import opened Chunking
  import opened Records
  import Indexer

  /** Why the extractor raises: `range()` with step 0 in the chunking
      fallback, or a `DocumentChunk` whose `source_site` is not one of the
      two allowed literals. */
  datatype ExtractError = ZeroSliceWidth | InvalidSite

  /** The default `max_tokens` of `chunk_text`. */
  const DefaultMaxTokens: int := 1200

  // ---------------------------------------------------------------- chunk_text

  /** `[text[i : i + w] for i in range(0, len(text), w)]`: the consecutive
      slices of `w` characters, the last one possibly shorter. */
  function CharSlices(text: string, w: nat): (r: seq<string>)
    requires w > 0
    decreases |text|
  {
    if |text| == 0 then []
    else if |text| <= w then [text]
    else [text[..w]] + CharSlices(text[w..], w)
  }

  /** The slices give the text back, and there is no slice only for the
      empty text. */
  lemma {:induction false} CharSlicesJoin(text: string, w: nat)
    requires w > 0
    ensures Join(CharSlices(text, w), "") == text
    ensures |CharSlices(text, w)| == 0 <==> text == ""
    decreases |text|
  {
    if |text| > w {
      var rest := CharSlices(text[w..], w);
      CharSlicesJoin(text[w..], w);
      JoinCons(text[..w], rest, "");
      assert text[..w] + "" + Join(rest, "") == text[..w] + text[w..];
      assert text[..w] + text[w..] == text;
    }
  }

  /** Every slice but the last has exactly `w` characters and the last has
      between 1 and `w`. */
  lemma {:induction false} CharSlicesWidths(text: string, w: nat)
    requires w > 0
    ensures var r := CharSlices(text, w);
      (forall i :: 0 <= i < |r| - 1 ==> |r[i]| == w) &&
      (|r| > 0 ==> 0 < |r[|r| - 1]| <= w)
    decreases |text|
  {
    if |text| > w {
      var rest := CharSlices(text[w..], w);
      CharSlicesWidths(text[w..], w);
      CharSlicesJoin(text[w..], w);
      var r := [text[..w]] + rest;
      assert forall i :: 1 <= i < |r| ==> r[i] == rest[i - 1];
    }
  }

  /** What `chunk_text(text, max_tokens)` returns. With the encoder: no chunk
      for empty text, the text itself when it fits, otherwise the "\n\n"-joins
      of the greedy paragraph runs. Without it: slices of `max_tokens * 4`
      characters, no slice when that width is negative, and a `ValueError`
      from `range` when it is zero. */
  function ChunkTextSpec(text: string, enc: Encoder, maxTokens: int): Result<seq<string>, ExtractError> {
    if text == "" then Ok([])
    else if enc.Available? then
      if enc.count(text) <= maxTokens then Ok([text])
      else Ok(JoinEach(Runs(Split(text, ParaSep), enc.count, maxTokens), ParaSep))
    else
      var w := maxTokens * 4;
      if w == 0 then Err(ZeroSliceWidth)
      else if w < 0 then Ok([])
      else Ok(CharSlices(text, w))
  }

  /** The paragraph loop of `chunk_text`: a paragraph starts a new chunk when
      it would take the current one over `maxTokens` and the current one is
      not empty. */
  method ParagraphChunks(paras: seq<string>, tok: string -> nat, maxTokens: int) returns (chunks: seq<string>)
    ensures chunks == JoinEach(Runs(paras, tok, maxTokens), ParaSep)
  {
    chunks := [];
    var current: seq<string> := [];
    var currentTokens: int := 0;
    ghost var done: seq<seq<string>> := [];
    for i := 0 to |paras|
      invariant currentTokens == Sum(current, tok)
      invariant i == 0 ==> current == [] && done == []
      invariant i > 0 ==> |current| > 0 && Runs(paras[..i], tok, maxTokens) == done + [current]
      invariant chunks == JoinEach(done, ParaSep)
    {
      TakeSnoc(paras, i);
      var para := paras[i];
      var paraTokens := tok(para);
      if i == 0 {
        assert Runs([para], tok, maxTokens) == [[para]];
      } else {
        RunsStep(paras[..i], para, tok, maxTokens, done, current);
      }
      if currentTokens + paraTokens > maxTokens && |current| > 0 {
        JoinEachSnoc(done, current, ParaSep);
        chunks := chunks + [Join(current, ParaSep)];
        done := done + [current];
        current := [para];
        currentTokens := paraTokens;
        SumSnoc([], para, tok);
        assert [] + [para] == [para];
      } else {
        SumSnoc(current, para, tok);
        current := current + [para];
        currentTokens := currentTokens + paraTokens;
      }
    }
    TakeAll(paras);
    if |current| > 0 {
      JoinEachSnoc(done, current, ParaSep);
      chunks := chunks + [Join(current, ParaSep)];
    } else {
      assert |paras| == 0;
    }
  }

  /** `chunk_text(text, max_tokens)`; a failing encoder is `enc.Unavailable?`. */
  method ChunkText(text: string, enc: Encoder, maxTokens: int) returns (r: Result<seq<string>, ExtractError>)
    ensures r == ChunkTextSpec(text, enc, maxTokens)
  {
    if text == "" {
      return Ok([]);
    }
    if enc.Available? {
      if enc.count(text) <= maxTokens {
        return Ok([text]);
      }
      var chunks := ParagraphChunks(Split(text, ParaSep), enc.count, maxTokens);
      return Ok(chunks);
    }
    var maxChars := maxTokens * 4;
    if maxChars == 0 {
      return Err(ZeroSliceWidth);
    }
    if maxChars < 0 {
      return Ok([]);
    }
    r := Ok(CharSlices(text, maxChars));
  }

  /** No chunk for empty text, whatever the encoder; with the encoder a text
      that fits is returned as it is, not stripped. */
  lemma ChunkTextShort(text: string, enc: Encoder, maxTokens: int)
    ensures text == "" ==> ChunkTextSpec(text, enc, maxTokens) == Ok([])
    ensures text != "" && enc.Available? && enc.count(text) <= maxTokens ==>
      ChunkTextSpec(text, enc, maxTokens) == Ok([text])
  {
  }

  /** With the encoder the chunks joined with "\n\n" are the text again, and
      on the paragraph path they are the joins of well-grouped runs that
      partition the paragraphs in order. */
  lemma ChunkTextRoundTrip(text: string, tok: string -> nat, maxTokens: int)
    ensures var r := ChunkTextSpec(text, Available(tok), maxTokens);
      r.Ok? && Join(r.value, ParaSep) == text
    ensures text != "" && tok(text) > maxTokens ==>
      var rs := Runs(Split(text, ParaSep), tok, maxTokens);
      ChunkTextSpec(text, Available(tok), maxTokens) == Ok(JoinEach(rs, ParaSep)) &&
      Flatten(rs) == Split(text, ParaSep) && WellGrouped(rs, tok, maxTokens)
  {
    if text != "" && tok(text) > maxTokens {
      RunsRoundTrip(text, tok, maxTokens);
      RunsPartition(Split(text, ParaSep), tok, maxTokens);
    }
  }

  /** Without the encoder a positive width gives slices that concatenate to
      the text, all of full width but the last; width zero raises. */
  lemma ChunkTextFallback(text: string, maxTokens: int)
    ensures maxTokens == 0 && text != "" ==> ChunkTextSpec(text, Unavailable, maxTokens) == Err(ZeroSliceWidth)
    ensures maxTokens > 0 ==>
      var r := ChunkTextSpec(text, Unavailable, maxTokens);
      r.Ok? && Join(r.value, "") == text &&
      (forall i :: 0 <= i < |r.value| - 1 ==> |r.value[i]| == maxTokens * 4) &&
      (|r.value| > 0 ==> 0 < |r.value[|r.value| - 1]| <= maxTokens * 4)
  {
    if maxTokens > 0 {
      CharSlicesJoin(text, maxTokens * 4);
      CharSlicesWidths(text, maxTokens * 4);
    }
  }

  /** With a positive budget `chunk_text` never raises. */
  lemma ChunkTextOk(text: string, enc: Encoder, maxTokens: int)
    requires maxTokens > 0
    ensures ChunkTextSpec(text, enc, maxTokens).Ok?
  {
  }

  // ---------------------------------------------------------------- clean_docstring

  /** A stripped line that opens an admonition block: `!!!` or `???`. */
  predicate IsAdmonition(stripped: string) {
    StartsWith(stripped, "!!!") || StartsWith(stripped, "???")
  }

  /** A line indented by four spaces or a tab. */
  predicate IsIndented(line: string) {
    StartsWith(line, "    ") || StartsWith(line, "\t")
  }

  /** A line that ends an admonition block and is kept: not blank, not
      indented and not itself an admonition. */
  predicate IsPlainLine(line: string) {
    Strip(line) != "" && !IsIndented(line) && !IsAdmonition(Strip(line))
  }

  /** The state of the admonition filter: the lines kept so far and the
      `skip_admonition` flag. */
  datatype DocState = DocState(kept: seq<string>, skipping: bool)

  /** One line of the filter loop. */
  function DocStep(st: DocState, line: string): DocState {
    var stripped := Strip(line);
    if IsAdmonition(stripped) then DocState(st.kept, true)
    else if st.skipping && !(stripped != "" && !IsIndented(line)) then st
    else DocState(st.kept + [line], false)
  }

  /** The filter state after the lines `ls`. */
  function DocScan(ls: seq<string>): DocState
    decreases |ls|
  {
    if |ls| == 0 then DocState([], false) else DocStep(DocScan(ls[..|ls| - 1]), ls[|ls| - 1])
  }

  /** What `clean_docstring(docstring)` returns. */
  function CleanDocstringSpec(doc: string): string {
    if doc == "" then ""
    else Strip(CapNewlines(Join(DocScan(Split(doc, "\n")).kept, "\n"), 3))
  }

  /** `clean_docstring(docstring)`. */
  method CleanDocstring(doc: string) returns (r: string)
    ensures r == CleanDocstringSpec(doc)
    ensures !Contains(r, "\n\n\n\n")
  {
    CleanDocstringCapped(doc);
    if doc == "" {
      return "";
    }
    var ls := Split(doc, "\n");
    var lines: seq<string> := [];
    var skip := false;
    for i := 0 to |ls|
      invariant DocState(lines, skip) == DocScan(ls[..i])
    {
      TakeSnoc(ls, i);
      var line := ls[i];
      var stripped := Strip(line);
      if IsAdmonition(stripped) {
        skip := true;
        continue;
      }
      if skip {
        if stripped != "" && !IsIndented(line) {
          skip := false;
        } else {
          continue;
        }
      }
      lines := lines + [line];
    }
    TakeAll(ls);
    var cleaned := Join(lines, "\n");
    cleaned := CapNewlines(cleaned, 3);
    r := Strip(cleaned);
  }

  /** The cleaned docstring holds no four newlines in a row: the
      `\n{4,}` substitution caps every run at three, and stripping keeps it so. */
  lemma CleanDocstringCapped(doc: string)
    ensures !Contains(CleanDocstringSpec(doc), "\n\n\n\n")
  {
    if doc != "" {
      var c := CapNewlines(Join(DocScan(Split(doc, "\n")).kept, "\n"), 3);
      CapNewlinesBound(Join(DocScan(Split(doc, "\n")).kept, "\n"), 3);
      assert Newlines(4) == "\n\n\n\n";
      StripKeepsAbsent(c, "\n\n\n\n");
    }
  }

  /** The filter state after one more line. */
  lemma DocScanSnoc(ls: seq<string>, l: string)
    ensures DocScan(ls + [l]) == DocStep(DocScan(ls), l)
  {
    SnocInit(ls, l);
  }

  /** The kept lines are lines of the docstring, in order. */
  lemma {:induction false} DocKeptSubsequence(ls: seq<string>)
    ensures IsSubsequence(DocScan(ls).kept, ls)
    decreases |ls|
  {
    if |ls| > 0 {
      var init := ls[..|ls| - 1];
      var l := ls[|ls| - 1];
      DocKeptSubsequence(init);
      DocScanSnoc(init, l);
      InitLast(ls);
      SubsequenceSnoc(DocScan(init).kept, init, l);
    }
  }

  /** An admonition line is never kept. */
  lemma {:induction false} DocNoAdmonition(ls: seq<string>)
    ensures forall i :: 0 <= i < |DocScan(ls).kept| ==> !IsAdmonition(Strip(DocScan(ls).kept[i]))
    decreases |ls|
  {
    if |ls| > 0 {
      DocNoAdmonition(ls[..|ls| - 1]);
    }
  }

  /** Every plain line is kept: filtering the kept lines and the docstring's
      lines for plain lines gives the same list. */
  lemma {:induction false} DocKeepsPlain(ls: seq<string>)
    ensures Filter(DocScan(ls).kept, IsPlainLine) == Filter(ls, IsPlainLine)
    decreases |ls|
  {
    if |ls| > 0 {
      var init := ls[..|ls| - 1];
      var l := ls[|ls| - 1];
      DocKeepsPlain(init);
      DocScanSnoc(init, l);
      InitLast(ls);
      FilterSnoc(init, l, IsPlainLine);
      FilterSnoc(DocScan(init).kept, l, IsPlainLine);
      if !IsPlainLine(l) {
        assert Filter(DocScan(init).kept, IsPlainLine) + [] == Filter(DocScan(init).kept, IsPlainLine);
        assert Filter(init, IsPlainLine) + [] == Filter(init, IsPlainLine);
      }
    }
  }

  /** Some element of `xs` satisfies `opens` and no later one satisfies
      `closes`. */
  predicate OpenAfter<T>(xs: seq<T>, opens: T -> bool, closes: T -> bool) {
    exists j :: 0 <= j < |xs| && opens(xs[j]) && NoneAfter(xs, j, closes)
  }

  /** No element after index `j` satisfies `closes`. */
  predicate NoneAfter<T>(xs: seq<T>, j: int, closes: T -> bool) {
    forall m :: 0 <= m < |xs| && j < m ==> !closes(xs[m])
  }

  /** An opening element leaves the state open. */
  lemma OpenSnoc<T>(xs: seq<T>, x: T, opens: T -> bool, closes: T -> bool)
    requires opens(x)
    ensures OpenAfter(xs + [x], opens, closes)
  {
    assert NoneAfter(xs + [x], |xs|, closes);
  }

  /** A closing element that does not itself open leaves the state closed. */
  lemma CloseSnoc<T>(xs: seq<T>, x: T, opens: T -> bool, closes: T -> bool)
    requires closes(x) && !opens(x)
    ensures !OpenAfter(xs + [x], opens, closes)
  {
    var t := xs + [x];
    forall j | 0 <= j < |t| && opens(t[j]) ensures !NoneAfter(t, j, closes) {
      if j < |xs| {
        assert t[|xs|] == x;
      }
    }
  }

  /** Any other element keeps the state. */
  lemma KeepSnoc<T>(xs: seq<T>, x: T, opens: T -> bool, closes: T -> bool)
    requires !opens(x) && !closes(x)
    ensures OpenAfter(xs + [x], opens, closes) == OpenAfter(xs, opens, closes)
  {
    var t := xs + [x];
    assert forall m :: 0 <= m < |xs| ==> t[m] == xs[m];
    if OpenAfter(xs, opens, closes) {
      var j :| 0 <= j < |xs| && opens(xs[j]) && NoneAfter(xs, j, closes);
      assert NoneAfter(t, j, closes);
    }
    if OpenAfter(t, opens, closes) {
      var j :| 0 <= j < |t| && opens(t[j]) && NoneAfter(t, j, closes);
      assert j < |xs|;
      assert NoneAfter(xs, j, closes);
    }
  }

  /** A line that opens an admonition. */
  predicate IsAdmonitionLine(line: string) {
    IsAdmonition(Strip(line))
  }

  /** After the lines `ls` an admonition is open: some admonition line is
      followed only by lines that are not plain. */
  predicate InAdmonition(ls: seq<string>) {
    OpenAfter(ls, IsAdmonitionLine, IsPlainLine)
  }

  /** The flag of the loop is exactly "an admonition is open". */
  lemma {:induction false} DocSkipping(ls: seq<string>)
    ensures DocScan(ls).skipping <==> InAdmonition(ls)
    decreases |ls|
  {
    if |ls| > 0 {
      var init := ls[..|ls| - 1];
      var l := ls[|ls| - 1];
      DocSkipping(init);
      DocScanSnoc(init, l);
      InitLast(ls);
      if IsAdmonition(Strip(l)) {
        OpenSnoc(init, l, IsAdmonitionLine, IsPlainLine);
      } else if IsPlainLine(l) {
        CloseSnoc(init, l, IsAdmonitionLine, IsPlainLine);
      } else {
        KeepSnoc(init, l, IsAdmonitionLine, IsPlainLine);
      }
    }
  }

  /** Which line the filter keeps, without reference to the flag: a line is
      dropped when it opens an admonition, or when it is blank or indented
      while an admonition is open. */
  lemma DocKeptIff(ls: seq<string>, l: string)
    ensures DocScan(ls + [l]).kept ==
      DocScan(ls).kept + (if !IsAdmonition(Strip(l)) && (IsPlainLine(l) || !InAdmonition(ls)) then [l] else [])
  {
    DocScanSnoc(ls, l);
    DocSkipping(ls);
    if !(!IsAdmonition(Strip(l)) && (IsPlainLine(l) || !InAdmonition(ls))) {
      assert DocScan(ls).kept + [] == DocScan(ls).kept;
    }
  }

  // ---------------------------------------------------------------- build_api_url

  /** The url segment of a module name: lowercased, `_` becoming `-`. */
  function ApiSlug(modName: string): (r: string)
    ensures |r| == |modName|
    ensures '_' !in r
    ensures forall i :: 0 <= i < |r| ==> !IsAsciiUpper(r[i])
  {
    var r := ReplaceChar(Lower(modName), '_', '-');
    assert forall i :: 0 <= i < |r| ==> r[i] != '_';
    r
  }

  /** `build_api_url(symbol_name, base_url)`: the API page of the symbol's
      second dotted component, or the API index when there is none. */
  function ApiUrl(symbol: string, baseUrl: string): string {
    var parts := Split(symbol, ".");
    if |parts| < 2 then baseUrl + "/api/"
    else baseUrl + "/api/" + ApiSlug(parts[1]) + "/"
  }

  /** A name without a dot leads to the API index. */
  lemma ApiUrlNoDot(symbol: string, baseUrl: string)
    requires '.' !in symbol
    ensures ApiUrl(symbol, baseUrl) == baseUrl + "/api/"
  {
    SplitAfterPiece(symbol, '.', "");
  }

  /** Only the second component counts: `pkg.mod` and `pkg.mod.rest` lead to
      the same page, the one of `mod`. */
  lemma ApiUrlModule(pkg: string, modName: string, rest: string, baseUrl: string)
    requires '.' !in pkg && '.' !in modName
    ensures ApiUrl(pkg + "." + modName, baseUrl) == baseUrl + "/api/" + ApiSlug(modName) + "/"
    ensures ApiUrl(pkg + "." + modName + "." + rest, baseUrl) == baseUrl + "/api/" + ApiSlug(modName) + "/"
  {
    SplitAfterPiece(pkg, '.', modName);
    SplitAfterPiece(modName, '.', rest);
    SplitAfterPiece(pkg, '.', modName + "." + rest);
    assert pkg + "." + modName + "." + rest == pkg + ['.'] + (modName + ['.'] + rest);
  }

  /** The documented example: `pydantic.base_model` leads to `api/base-model/`. */
  lemma ApiUrlExample(baseUrl: string)
    ensures ApiUrl("pydantic.base_model", baseUrl) == baseUrl + "/api/" + "base-model" + "/"
  {
    ApiUrlModule("pydantic", "base_model", "", baseUrl);
    assert "pydantic" + "." + "base_model" == "pydantic.base_model";
    SlugExample();
  }

  /** `base_model` becomes `base-model`. */
  lemma SlugExample()
    ensures ApiSlug("base_model") == "base-model"
  {
    var r := ApiSlug("base_model");
    assert Lower("base_model") == "base_model";
    assert forall i :: 0 <= i < |r| ==> r[i] == "base-model"[i];
  }

  // ---------------------------------------------------------------- extract_heading_info

  /** What `extract_heading_info` returns: level, text and anchor. */
  datatype Heading = Heading(level: int, text: string, anchor: string)

  /** Number of leading `#` characters. */
  function HashRun(s: string): (n: nat)
    ensures n <= |s|
    ensures forall i :: 0 <= i < n ==> s[i] == '#'
    ensures n < |s| ==> s[n] != '#'
    decreases |s|
  {
    if |s| > 0 && s[0] == '#' then 1 + HashRun(s[1..]) else 0
  }

  /** `rest` splits at `w` and `e` as `\s+(.+)$` reads it: whitespace up to
      `w`, at least one character other than a newline up to `e`, and then the
      end of the string or a final newline. */
  predicate TailSplit(rest: string, w: int, e: int) {
    1 <= w < e <= |rest| && (e == |rest| || (e == |rest| - 1 && rest[e] == '\n')) &&
    IsBlank(rest[..w]) && '\n' !in rest[w..e]
  }

  /** The part of `^(#{1,6})\s+(.+)$` after the hashes matches `rest`. */
  predicate TailMatches(rest: string) {
    exists w, e :: 1 <= w < e <= |rest| && TailSplit(rest, w, e)
  }

  /** The regular expression matches `line` exactly when it starts with one
      to six `#` followed by a matching tail; fewer hashes than the line has
      cannot match, since the next character, a `#`, is not whitespace. */
  predicate IsHeadingLine(line: string) {
    var n := HashRun(line);
    1 <= n <= 6 && TailMatches(line[n..])
  }

  /** A character `re.sub(r"[^\w\s-]", "", s)` keeps. */
  predicate IsAnchorKeep(c: char) { IsWordChar(c) || IsSpace(c) || c == '-' }

  /** A character of the class `[-\s]`. */
  predicate IsDashLike(c: char) { c == '-' || IsSpace(c) }

  /** Length of the longest prefix of `s` made of `[-\s]`. */
  function DashRun(s: string): (n: nat)
    ensures n <= |s|
    ensures forall k :: 0 <= k < n ==> IsDashLike(s[k])
    ensures n < |s| ==> !IsDashLike(s[n])
    decreases |s|
  {
    if |s| > 0 && IsDashLike(s[0]) then 1 + DashRun(s[1..]) else 0
  }

  /** No two dashes are adjacent. */
  predicate NoDoubleDash(s: string) {
    forall i :: 0 <= i < |s| - 1 ==> !(s[i] == '-' && s[i + 1] == '-')
  }

  /** `re.sub(r"[-\s]+", "-", s)`: every run of dashes and whitespace becomes
      one dash. */
  function CollapseDashes(s: string): (r: string)
    ensures |r| == 0 <==> |s| == 0
    ensures |r| > 0 ==> (r[0] == '-' <==> IsDashLike(s[0]))
    ensures NoDoubleDash(r)
    ensures forall i :: 0 <= i < |r| ==> r[i] == '-' || (r[i] in s && !IsDashLike(r[i]))
    decreases |s|
  {
    if |s| == 0 then ""
    else if IsDashLike(s[0]) then
      var n := DashRun(s);
      var rest := CollapseDashes(s[n..]);
      assert forall i :: 0 <= i < |rest| && rest[i] != '-' ==> rest[i] in s;
      "-" + rest
    else
      var rest := CollapseDashes(s[1..]);
      assert forall i :: 0 <= i < |rest| && rest[i] != '-' ==> rest[i] in s;
      [s[0]] + rest
  }

  /** The anchor of heading text: lowercased, characters outside
      `[\w\s-]` removed, runs of dashes and whitespace made one dash. */
  function Anchor(text: string): string {
    CollapseDashes(Filter(Lower(text), IsAnchorKeep))
  }

  /** `^(#{1,6})\s+(.+)$` read from `line`, or level 0 with empty text and
      anchor when it does not match. The heading text is the stripped rest of
      the line: stripping the matched group gives the same string, since what
      the group leaves out at either end is whitespace (`HeadingTextStrip`). */
  function HeadingInfo(line: string): (h: Heading)
    ensures h.level == 0 <==> !IsHeadingLine(line)
    ensures 0 <= h.level <= 6
    ensures h.level == 0 ==> h.text == "" && h.anchor == ""
    ensures h.level != 0 ==>
      h.level == HashRun(line) && h.text == Strip(line[h.level..]) && h.anchor == Anchor(h.text)
  {
    var n := HashRun(line);
    if IsHeadingLine(line) then
      var text := Strip(line[n..]);
      Heading(n, text, Anchor(text))
    else Heading(0, "", "")
  }

  /** A string of anchor characters: `[a-z0-9_-]` without two dashes in a row. */
  predicate IsAnchorWord(a: string) {
    NoDoubleDash(a) &&
    forall i :: 0 <= i < |a| ==> IsAsciiLower(a[i]) || IsDigit(a[i]) || a[i] == '_' || a[i] == '-'
  }

  /** Every anchor is made of lowercase letters, digits, `_` and single dashes. */
  lemma AnchorIsWord(text: string)
    ensures IsAnchorWord(Anchor(text))
  {
    var low := Lower(text);
    var kept := Filter(low, IsAnchorKeep);
    FilterIsSubsequence(low, IsAnchorKeep);
    SubsequenceMembers(kept, low);
    forall c | c in kept ensures !IsAsciiUpper(c) && IsAnchorKeep(c) {
      var j :| 0 <= j < |kept| && kept[j] == c;
      var i :| 0 <= i < |low| && low[i] == c;
    }
  }

  /** A character `re.sub(r"[-\s]+", "-", s)` leaves alone. */
  predicate IsSolid(c: char) { !IsDashLike(c) }

  /** A character other than a dash. */
  predicate NotDash(c: char) { c != '-' }

  /** `DashRun` is the length `m` of the dash-like prefix. */
  lemma {:induction false} DashRunIs(s: string, m: nat)
    requires m <= |s| && (m == |s| || !IsDashLike(s[m]))
    requires forall k :: 0 <= k < m ==> IsDashLike(s[k])
    ensures DashRun(s) == m
    decreases m
  {
    if m > 0 {
      DashRunIs(s[1..], m - 1);
    }
  }

  /** Collapsing keeps every character outside `[-\s]`, in order, and adds
      nothing but dashes. */
  lemma {:induction false} CollapseKeepsSolid(s: string)
    ensures Filter(CollapseDashes(s), NotDash) == Filter(s, IsSolid)
    decreases |s|
  {
    if |s| > 0 {
      var r := CollapseDashes(s);
      if IsDashLike(s[0]) {
        var n := DashRun(s);
        CollapseKeepsSolid(s[n..]);
        assert s == s[..n] + s[n..];
        FilterAppend(s[..n], s[n..], IsSolid);
        FilterNone(s[..n], IsSolid);
        assert r[0] == '-' && r[1..] == CollapseDashes(s[n..]);
      } else {
        CollapseKeepsSolid(s[1..]);
        assert r[0] == s[0] && r[1..] == CollapseDashes(s[1..]);
      }
    }
  }

  /** A non-empty run of dashes and whitespace becomes one dash. */
  lemma CollapseRun(d: string)
    requires |d| > 0 && forall k :: 0 <= k < |d| ==> IsDashLike(d[k])
    ensures CollapseDashes(d) == "-"
  {
    DashRunIs(d, |d|);
    assert d[|d|..] == "";
  }

  /** A string without dashes or whitespace is left as it is. */
  lemma {:induction false} CollapseSolid(w: string)
    requires forall k :: 0 <= k < |w| ==> IsSolid(w[k])
    ensures CollapseDashes(w) == w
    decreases |w|
  {
    if |w| > 0 {
      CollapseSolid(w[1..]);
    }
  }

  /** `x + y` has a character outside `[-\s]` on one side of the seam, so
      no run crosses it. */
  predicate SolidSeam(x: string, y: string) {
    |x| == 0 || |y| == 0 || IsSolid(x[|x| - 1]) || IsSolid(y[0])
  }

  /** Collapsing `x + y` when `x` starts outside `[-\s]`. */
  lemma CollapseSolidHead(x: string, y: string)
    requires |x| > 0 && IsSolid(x[0])
    ensures CollapseDashes(x + y) == [x[0]] + CollapseDashes(x[1..] + y)
    ensures CollapseDashes(x) == [x[0]] + CollapseDashes(x[1..])
  {
    assert (x + y)[0] == x[0] && (x + y)[1..] == x[1..] + y;
  }

  /** A run that ends inside `x`, or where `y` starts outside `[-\s]`, is
      the same run in `x + y`. */
  lemma {:induction false} DashRunAppend(x: string, y: string)
    requires DashRun(x) < |x| || |y| == 0 || IsSolid(y[0])
    ensures DashRun(x + y) == DashRun(x)
    decreases |x|
  {
    if |x| == 0 {
      assert x + y == y;
    } else {
      assert (x + y)[0] == x[0] && (x + y)[1..] == x[1..] + y;
      if IsDashLike(x[0]) {
        DashRunAppend(x[1..], y);
      }
    }
  }

  /** One step of the collapse: a leading run becomes one dash. */
  lemma CollapseDashStep(s: string)
    requires |s| > 0 && IsDashLike(s[0])
    ensures CollapseDashes(s) == "-" + CollapseDashes(s[DashRun(s)..])
  {
  }

  /** Collapsing `x + y` when `x` starts with a run of `[-\s]` that ends
      inside `x` or at a character of `y` outside `[-\s]`. */
  lemma CollapseDashHead(x: string, y: string)
    requires |x| > 0 && IsDashLike(x[0])
    requires DashRun(x) < |x| || |y| == 0 || IsSolid(y[0])
    ensures CollapseDashes(x + y) == "-" + CollapseDashes(x[DashRun(x)..] + y)
  {
    var s, m := x + y, DashRun(x);
    DashRunAppend(x, y);
    DropAppend(x, y, m);
    assert s[0] == x[0];
    CollapseDashStep(s);
  }

  /** Dropping a prefix of `x` from `x + y`. */
  lemma DropAppend(x: string, y: string, m: nat)
    requires m <= |x|
    ensures (x + y)[m..] == x[m..] + y
  {
  }

  /** Collapsing works piecewise where no run crosses the seam. */
  lemma {:induction false} CollapseAppend(x: string, y: string)
    requires SolidSeam(x, y)
    ensures CollapseDashes(x + y) == CollapseDashes(x) + CollapseDashes(y)
    decreases |x|
  {
    if |x| == 0 {
      assert x + y == y;
    } else if |y| == 0 {
      assert x + y == x;
    } else if IsSolid(x[0]) {
      CollapseSolidHead(x, y);
      CollapseAppend(x[1..], y);
    } else if DashRun(x) < |x| {
      CollapseDashHead(x, y);
      CollapseDashStep(x);
      CollapseAppend(x[DashRun(x)..], y);
    } else {
      CollapseDashHead(x, y);
      CollapseDashStep(x);
      assert x[|x|..] + y == y && x[|x|..] == "";
    }
  }

  /** The regular expression's group, stripped, is the stripped rest of the
      line, whichever split of the rest it takes: what the group leaves out
      at either end is whitespace. */
  lemma HeadingTextStrip(rest: string, w: int, e: int)
    requires TailSplit(rest, w, e)
    ensures Strip(rest[w..e]) == Strip(rest)
  {
    assert forall k :: 0 <= k < w ==> IsSpace(rest[k]) by {
      assert forall k :: 0 <= k < w ==> rest[..w][k] == rest[k];
    }
    StripInner(rest, w, e);
  }

  /** On a line without newlines, which is every line of a split file, the
      tail matches exactly when it starts with whitespace and has at least two
      characters. */
  lemma TailMatchesPlain(rest: string)
    requires '\n' !in rest
    ensures TailMatches(rest) <==> |rest| >= 2 && IsSpace(rest[0])
  {
    if |rest| >= 2 && IsSpace(rest[0]) {
      assert TailSplit(rest, 1, |rest|);
    }
    if TailMatches(rest) {
      var w, e :| 1 <= w < e <= |rest| && TailSplit(rest, w, e);
      assert rest[..w][0] == rest[0];
    }
  }

  /** A line that is not a heading, a hash with one space (the group needs a
      character after the whitespace) and a hash with two spaces (the
      whitespace gives up its last character to the group, so the heading
      text is empty). */
  lemma HeadingInfoExamples()
    ensures HeadingInfo("Just some text") == Heading(0, "", "")
    ensures HeadingInfo("# ") == Heading(0, "", "")
    ensures HeadingInfo("#  ") == Heading(1, "", "")
  {
    assert HashRun("Just some text") == 0;
    assert HashRun("# ") == 1;
    assert "# "[1..] == " ";
    TailMatchesPlain(" ");
    assert HashRun("#  ") == 1;
    assert "#  "[1..] == "  ";
    TailMatchesPlain("  ");
    assert Strip("  ") == "";
    assert Anchor("") == "";
  }

  /** Whichever split of the rest of the line the regular expression takes,
      the heading text is its group, stripped. */
  lemma HeadingInfoGroup(line: string, w: int, e: int)
    requires 1 <= HashRun(line) <= 6 && TailSplit(line[HashRun(line)..], w, e)
    ensures HeadingInfo(line).level == HashRun(line)
    ensures HeadingInfo(line).text == Strip(line[HashRun(line)..][w..e])
  {
    HeadingTextStrip(line[HashRun(line)..], w, e);
  }

  /** One to six hashes, then whitespace and text on one line, read as a
      heading of that many hashes whose text is the stripped rest. */
  lemma HeadingOfLine(hashes: string, rest: string, text: string)
    requires 1 <= |hashes| <= 6 && forall i :: 0 <= i < |hashes| ==> hashes[i] == '#'
    requires |rest| >= 2 && IsSpace(rest[0]) && '\n' !in rest
    requires Strip(rest) == text
    ensures HeadingInfo(hashes + rest) == Heading(|hashes|, text, Anchor(text))
  {
    var line := hashes + rest;
    var n := |hashes|;
    assert line[n..] == rest;
    assert forall i :: 0 <= i < n ==> line[i] == hashes[i];
    assert line[n] == rest[0];
    assert HashRun(line) == n;
    TailMatchesPlain(rest);
  }

  /** Two words with a run of `[-\s]` between them: the run becomes one dash. */
  lemma CollapseSeam(x: string, d: string, y: string)
    requires |x| > 0 && IsSolid(x[|x| - 1]) && |y| > 0 && IsSolid(y[0])
    requires |d| > 0 && forall k :: 0 <= k < |d| ==> IsDashLike(d[k])
    ensures CollapseDashes(x + d + y) == CollapseDashes(x) + "-" + CollapseDashes(y)
  {
    var dy := d + y;
    assert x + d + y == x + dy;
    assert CollapseDashes(dy) == "-" + CollapseDashes(y) by {
      CollapseAppend(d, y);
      CollapseRun(d);
    }
    assert SolidSeam(x, dy);
    CollapseAppend(x, dy);
  }

  /** The characters of `w` are all outside `[-\s]`. */
  predicate SolidWord(w: string) {
    forall k :: 0 <= k < |w| ==> IsSolid(w[k])
  }

  /** Non-empty words without dashes or whitespace, separated by a run of
      `[-\s]`, come out separated by single dashes. */
  lemma {:induction false} CollapseJoin(words: seq<string>, sep: string)
    requires |sep| > 0 && forall k :: 0 <= k < |sep| ==> IsDashLike(sep[k])
    requires forall i :: 0 <= i < |words| ==> |words[i]| > 0 && SolidWord(words[i])
    ensures CollapseDashes(Join(words, sep)) == Join(words, "-")
    decreases |words|
  {
    if |words| == 1 {
      CollapseSolid(words[0]);
    } else if |words| > 1 {
      var rest := words[1..];
      CollapseJoin(rest, sep);
      assert Join(rest, sep)[0] == rest[0][0];
      CollapseSeam(words[0], sep, Join(rest, sep));
      CollapseSolid(words[0]);
    }
  }

  // The headings of the source's tests, one fact per lemma: each literal
  // step is cheap on its own and costly next to the others.

  lemma LowerMainTitle()
    ensures Lower("Main Title") == "main title"
  {
  }

  lemma KeepMainTitle()
    ensures Filter("main title", IsAnchorKeep) == "main title"
  {
    FilterAll("main title", IsAnchorKeep);
  }

  lemma WordsMainTitle()
    ensures "main title" == Join(["main", "title"], " ")
    ensures "main-title" == Join(["main", "title"], "-")
    ensures SolidWord("main") && SolidWord("title")
  {
  }

  lemma CollapseMainTitle()
    ensures CollapseDashes("main title") == "main-title"
  {
    WordsMainTitle();
    CollapseJoin(["main", "title"], " ");
  }

  lemma AnchorMainTitle()
    ensures Anchor("Main Title") == "main-title"
  {
    LowerMainTitle();
    KeepMainTitle();
    CollapseMainTitle();
  }

  lemma LowerSubsection()
    ensures Lower("Subsection") == "subsection"
  {
  }

  lemma KeepSubsection()
    ensures Filter("subsection", IsAnchorKeep) == "subsection"
  {
    FilterAll("subsection", IsAnchorKeep);
  }

  lemma SolidSubsection()
    ensures SolidWord("subsection")
  {
  }

  lemma AnchorSubsection()
    ensures Anchor("Subsection") == "subsection"
  {
    LowerSubsection();
    KeepSubsection();
    SolidSubsection();
    CollapseSolid("subsection");
  }

  lemma LowerApiReference()
    ensures Lower("API Reference (v2.0)") == "api reference (v2.0)"
  {
  }

  lemma PiecesApiReference()
    ensures "api reference (v2.0)" == "api reference " + "(" + "v2" + "." + "0" + ")"
  {
  }

  lemma JoinPiecesApiReference()
    ensures "api reference " + "" + "v2" + "" + "0" + "" == "api reference v20"
  {
  }

  lemma KeepWordsApiReference()
    ensures Filter("api reference ", IsAnchorKeep) == "api reference "
  {
    FilterAll("api reference ", IsAnchorKeep);
  }

  lemma KeepDigitsApiReference()
    ensures Filter("v2", IsAnchorKeep) == "v2" && Filter("0", IsAnchorKeep) == "0"
  {
    FilterAll("v2", IsAnchorKeep);
    FilterAll("0", IsAnchorKeep);
  }

  lemma DropPunctuation()
    ensures Filter("(", IsAnchorKeep) == "" && Filter(".", IsAnchorKeep) == "" && Filter(")", IsAnchorKeep) == ""
  {
    FilterNone("(", IsAnchorKeep);
    FilterNone(".", IsAnchorKeep);
    FilterNone(")", IsAnchorKeep);
  }

  /** Filtering six pieces is filtering each. */
  lemma FilterSix(a: string, b: string, c: string, d: string, e: string, f: string)
    ensures Filter(a + b + c + d + e + f, IsAnchorKeep)
         == Filter(a, IsAnchorKeep) + Filter(b, IsAnchorKeep) + Filter(c, IsAnchorKeep) +
            Filter(d, IsAnchorKeep) + Filter(e, IsAnchorKeep) + Filter(f, IsAnchorKeep)
  {
    FilterAppend(a + b + c + d + e, f, IsAnchorKeep);
    FilterAppend(a + b + c + d, e, IsAnchorKeep);
    FilterAppend(a + b + c, d, IsAnchorKeep);
    FilterAppend(a + b, c, IsAnchorKeep);
    FilterAppend(a, b, IsAnchorKeep);
  }

  lemma KeepApiReference()
    ensures Filter("api reference (v2.0)", IsAnchorKeep) == "api reference v20"
  {
    PiecesApiReference();
    FilterSix("api reference ", "(", "v2", ".", "0", ")");
    KeepWordsApiReference();
    KeepDigitsApiReference();
    DropPunctuation();
    JoinPiecesApiReference();
  }

  lemma SpacedApiReference()
    ensures "api reference v20" == Join(["api", "reference", "v20"], " ")
  {
  }

  lemma DashedApiReference()
    ensures "api-reference-v20" == Join(["api", "reference", "v20"], "-")
  {
  }

  lemma SolidApiReference()
    ensures SolidWord("api") && SolidWord("reference") && SolidWord("v20")
  {
  }

  lemma CollapseApiReference()
    ensures CollapseDashes("api reference v20") == "api-reference-v20"
  {
    SpacedApiReference();
    DashedApiReference();
    SolidApiReference();
    CollapseJoin(["api", "reference", "v20"], " ");
  }

  lemma AnchorApiReference()
    ensures Anchor("API Reference (v2.0)") == "api-reference-v20"
  {
    LowerApiReference();
    KeepApiReference();
    CollapseApiReference();
  }

  lemma LowerMultipleSpaces()
    ensures Lower("Multiple   Spaces") == "multiple   spaces"
  {
  }

  lemma KeepMultipleSpaces()
    ensures Filter("multiple   spaces", IsAnchorKeep) == "multiple   spaces"
  {
    FilterAll("multiple   spaces", IsAnchorKeep);
  }

  lemma WordsMultipleSpaces()
    ensures "multiple   spaces" == Join(["multiple", "spaces"], "   ")
    ensures "multiple-spaces" == Join(["multiple", "spaces"], "-")
    ensures SolidWord("multiple") && SolidWord("spaces")
  {
  }

  lemma CollapseMultipleSpaces()
    ensures CollapseDashes("multiple   spaces") == "multiple-spaces"
  {
    WordsMultipleSpaces();
    CollapseJoin(["multiple", "spaces"], "   ");
  }

  lemma AnchorMultipleSpaces()
    ensures Anchor("Multiple   Spaces") == "multiple-spaces"
  {
    LowerMultipleSpaces();
    KeepMultipleSpaces();
    CollapseMultipleSpaces();
  }

  /** A line of one to six hashes, a space and text that neither starts nor
      ends with whitespace is a heading with that text. */
  lemma HeadingOfText(hashes: string, text: string)
    requires 1 <= |hashes| <= 6 && forall i :: 0 <= i < |hashes| ==> hashes[i] == '#'
    requires |text| > 0 && !IsSpace(text[0]) && !IsSpace(text[|text| - 1]) && '\n' !in text
    ensures HeadingInfo(hashes + (" " + text)) == Heading(|hashes|, text, Anchor(text))
  {
    var rest := " " + text;
    assert forall k :: 1 <= k < |rest| ==> rest[k] == text[k - 1];
    assert '\n' !in rest;
    StripSpaceThen(' ', text);
    HeadingOfLine(hashes, rest, text);
  }

  lemma LineMainTitle()
    ensures "# Main Title" == "#" + (" " + "Main Title")
  {
  }

  lemma PlainMainTitle()
    ensures '\n' !in "Main Title"
  {
  }

  lemma HeadingMainTitle()
    ensures HeadingInfo("# Main Title") == Heading(1, "Main Title", "main-title")
  {
    LineMainTitle();
    PlainMainTitle();
    HeadingOfText("#", "Main Title");
    AnchorMainTitle();
  }

  lemma LineSubsection()
    ensures "## Subsection" == "##" + (" " + "Subsection")
  {
  }

  lemma PlainSubsection()
    ensures '\n' !in "Subsection"
  {
  }

  lemma HeadingSubsection()
    ensures HeadingInfo("## Subsection") == Heading(2, "Subsection", "subsection")
  {
    LineSubsection();
    PlainSubsection();
    HeadingOfText("##", "Subsection");
    AnchorSubsection();
  }

  lemma LineApiReference()
    ensures "## API Reference (v2.0)" == "##" + (" " + "API Reference (v2.0)")
  {
  }

  lemma PlainApiReference()
    ensures '\n' !in "API Reference (v2.0)"
  {
  }

  lemma HeadingApiReference()
    ensures HeadingInfo("## API Reference (v2.0)") == Heading(2, "API Reference (v2.0)", "api-reference-v20")
  {
    LineApiReference();
    PlainApiReference();
    HeadingOfText("##", "API Reference (v2.0)");
    AnchorApiReference();
  }

  lemma LineMultipleSpaces()
    ensures "## Multiple   Spaces" == "##" + (" " + "Multiple   Spaces")
  {
  }

  lemma PlainMultipleSpaces()
    ensures '\n' !in "Multiple   Spaces"
  {
  }

  lemma HeadingMultipleSpaces()
    ensures HeadingInfo("## Multiple   Spaces") == Heading(2, "Multiple   Spaces", "multiple-spaces")
  {
    LineMultipleSpaces();
    PlainMultipleSpaces();
    HeadingOfText("##", "Multiple   Spaces");
    AnchorMultipleSpaces();
  }

  /** One whitespace character, then text that neither starts nor ends with
      whitespace: stripping gives the text. */
  lemma StripSpaceThen(c: char, text: string)
    requires IsSpace(c) && |text| > 0 && !IsSpace(text[0]) && !IsSpace(text[|text| - 1])
    ensures Strip([c] + text) == text
  {
    var s := [c] + text;
    assert s[1] == text[0] && s[|s| - 1] == text[|text| - 1];
    StripBetween(s, 1, |s| - 1);
    assert s[1..|s|] == text;
  }

  // ---------------------------------------------------------------- process_markdown_file

  /** The values `DocumentChunk.source_site` accepts. */
  predicate ValidSite(site: string) {
    site == "pydantic" || site == "pydantic_ai"
  }

  /** `str(rel_path).replace(".md", "").replace("index", "")`. */
  function PagePath(rel: string): string {
    Replace(Replace(rel, ".md", ""), "index", "")
  }

  /** The url of a markdown page: `base/page/` with trailing slashes of the
      page dropped, or `base/` for the empty page (the root `index.md`). */
  function MarkdownUrl(baseUrl: string, page: string): string {
    if page != "" then baseUrl + "/" + RStripChar(page, '/') + "/" else baseUrl + "/"
  }

  /** Index of the last `c` in `s`, or -1. */
  function RFind(s: string, c: char): (i: int)
    ensures -1 <= i < |s|
    ensures i >= 0 ==> s[i] == c
    ensures forall k :: i < k < |s| ==> s[k] != c
    decreases |s|
  {
    if |s| == 0 then -1
    else if s[|s| - 1] == c then |s| - 1
    else RFind(s[..|s| - 1], c)
  }

  /** `PurePath(rel).stem`: the file name without its last suffix, where a
      dot in first or last position does not start a suffix. */
  function Stem(rel: string): (r: string)
    ensures '/' !in r
    ensures StartsWith(Indexer.AfterLast(rel, '/'), r)
  {
    var name := Indexer.AfterLast(rel, '/');
    var i := RFind(name, '.');
    if 0 < i < |name| - 1 then
      assert forall k :: 0 <= k < i ==> name[..i][k] in name;
      name[..i]
    else name
  }

  /** What every record of one file shares: the title fallback, the page url,
      the page path, the site and the tokenizer. */
  datatype MdPage = MdPage(stem: string, url: string, page: string, site: string, enc: Encoder)

  /** The page data of the file `rel`. */
  function PageOf(rel: string, baseUrl: string, site: string, enc: Encoder): MdPage {
    MdPage(Stem(rel), MarkdownUrl(baseUrl, PagePath(rel)), PagePath(rel), site, enc)
  }

  /** The section being collected: its lines and the heading that opened it
      (text "", level 0 and no anchor before the first heading). */
  datatype OpenSection = OpenSection(lines: seq<string>, heading: string, level: int, anchor: Option<string>)

  /** The state of the line loop: the records so far and the open section. */
  datatype MdState = MdState(records: seq<Record>, open: OpenSection)

  /** The section before the first heading. */
  const Preamble: OpenSection := OpenSection([], "", 0, None)

  /** `chunk_text` with its default budget, which never takes the erroring
      fallback. */
  function DefaultChunks(text: string, enc: Encoder): seq<string> {
    ChunkTextOk(text, enc, DefaultMaxTokens);
    ChunkTextSpec(text, enc, DefaultMaxTokens).value
  }

  /** The chunks of a section: none for a section without lines or with blank
      text, otherwise `chunk_text` of its stripped text. */
  function SectionChunks(lines: seq<string>, enc: Encoder): seq<string> {
    if |lines| == 0 then []
    else
      var text := Strip(Join(lines, "\n"));
      if text == "" then [] else DefaultChunks(text, enc)
  }

  /** The record of one chunk of the section `sec`. */
  function ChunkRecord(chunk: string, sec: OpenSection, pg: MdPage): Record {
    Record(if sec.heading != "" then sec.heading else pg.stem, sec.anchor, sec.level, chunk,
           Indexer.RecordUrl(pg.url, sec.anchor), pg.page, pg.site)
  }

  /** The records of the chunks of the section `sec`, one per chunk. */
  function ChunkRecords(chunks: seq<string>, sec: OpenSection, pg: MdPage): (r: seq<Record>)
    ensures |r| == |chunks|
    ensures forall i :: 0 <= i < |r| ==> r[i] == ChunkRecord(chunks[i], sec, pg)
  {
    seq(|chunks|, i requires 0 <= i < |chunks| => ChunkRecord(chunks[i], sec, pg))
  }

  /** The records emitted when the section `sec` is closed. */
  function FlushRecords(sec: OpenSection, pg: MdPage): seq<Record> {
    ChunkRecords(SectionChunks(sec.lines, pg.enc), sec, pg)
  }

  /** One line of the loop: a heading closes the open section and opens its
      own; any other line joins the open section. */
  function MdStep(st: MdState, line: string, pg: MdPage): MdState {
    var h := HeadingInfo(line);
    if h.level > 0 then MdState(st.records + FlushRecords(st.open, pg), OpenSection([], h.text, h.level, Some(h.anchor)))
    else MdState(st.records, st.open.(lines := st.open.lines + [line]))
  }

  /** The loop state after the lines `ls`. */
  function MdScan(ls: seq<string>, pg: MdPage): MdState
    decreases |ls|
  {
    if |ls| == 0 then MdState([], Preamble) else MdStep(MdScan(ls[..|ls| - 1], pg), ls[|ls| - 1], pg)
  }

  /** All records of a file: those of the closed sections and of the last one. */
  function FileRecords(ls: seq<string>, pg: MdPage): seq<Record> {
    var st := MdScan(ls, pg);
    st.records + FlushRecords(st.open, pg)
  }

  /** What `process_markdown_file` returns for the file `rel` with the text
      `content` (`None` when it cannot be read): no records for an unreadable
      file, and a validation error at the first record when the site is not
      one of the two accepted values. */
  function ProcessMarkdownSpec(rel: string, content: Option<string>, baseUrl: string, site: string, enc: Encoder)
    : Result<seq<Record>, ExtractError>
  {
    if content.None? then Ok([])
    else
      var recs := FileRecords(Split(content.value, "\n"), PageOf(rel, baseUrl, site, enc));
      if recs == [] || ValidSite(site) then Ok(recs) else Err(InvalidSite)
  }

  /** The `for text_chunk in chunk_text(...)` loop: one record per chunk,
      where building the first record fails on an invalid site. */
  method BuildRecords(chunks: seq<string>, sec: OpenSection, pg: MdPage) returns (r: Result<seq<Record>, ExtractError>)
    ensures r == if chunks == [] || ValidSite(pg.site) then Ok(ChunkRecords(chunks, sec, pg)) else Err(InvalidSite)
  {
    var out: seq<Record> := [];
    for j := 0 to |chunks|
      invariant |out| == j
      invariant j > 0 ==> ValidSite(pg.site)
      invariant forall k :: 0 <= k < j ==> out[k] == ChunkRecord(chunks[k], sec, pg)
    {
      if !ValidSite(pg.site) {
        return Err(InvalidSite);
      }
      out := out + [ChunkRecord(chunks[j], sec, pg)];
    }
    assert out == ChunkRecords(chunks, sec, pg);
    return Ok(out);
  }

  /** Closing a section: `chunk_text` of its stripped text when it has any,
      and the records of the chunks. */
  method FlushSection(sec: OpenSection, pg: MdPage) returns (r: Result<seq<Record>, ExtractError>)
    ensures var recs := FlushRecords(sec, pg);
      r == if recs == [] || ValidSite(pg.site) then Ok(recs) else Err(InvalidSite)
  {
    if |sec.lines| == 0 {
      return Ok([]);
    }
    var text := Strip(Join(sec.lines, "\n"));
    if text == "" {
      return Ok([]);
    }
    ChunkTextOk(text, pg.enc, DefaultMaxTokens);
    var res := ChunkText(text, pg.enc, DefaultMaxTokens);
    assert res.value == SectionChunks(sec.lines, pg.enc);
    r := BuildRecords(res.value, sec, pg);
  }

  /** One line of the loop of `process_markdown_file`. */
  method MarkdownLine(st: MdState, line: string, pg: MdPage) returns (r: Result<MdState, ExtractError>)
    requires ValidSite(pg.site) || st.records == []
    ensures var next := MdStep(st, line, pg);
      r == if next.records == [] || ValidSite(pg.site) then Ok(next) else Err(InvalidSite)
  {
    var h := HeadingInfo(line);
    if h.level > 0 {
      var flushed := FlushSection(st.open, pg);
      if flushed.Err? {
        return Err(InvalidSite);
      }
      return Ok(MdState(st.records + flushed.value, OpenSection([], h.text, h.level, Some(h.anchor))));
    }
    return Ok(MdState(st.records, st.open.(lines := st.open.lines + [line])));
  }

  /** The records of a shorter prefix of the lines come first among the
      records of a longer one. */
  lemma {:induction false} MdRecordsPrefix(ls: seq<string>, k: nat, pg: MdPage)
    requires k <= |ls|
    ensures MdScan(ls[..k], pg).records <= MdScan(ls, pg).records
    decreases |ls| - k
  {
    if k == |ls| {
      TakeAll(ls);
    } else {
      MdRecordsPrefix(ls, k + 1, pg);
      TakeSnoc(ls, k);
    }
  }

  /** `process_markdown_file(file_path, repo_path, base_url, source_site)`. */
  method ProcessMarkdownFile(rel: string, content: Option<string>, baseUrl: string, site: string, enc: Encoder)
    returns (r: Result<seq<Record>, ExtractError>)
    ensures r == ProcessMarkdownSpec(rel, content, baseUrl, site, enc)
  {
    if content.None? {
      return Ok([]);
    }
    var pg := PageOf(rel, baseUrl, site, enc);
    var scanned := MarkdownLoop(Split(content.value, "\n"), pg);
    if scanned.Err? {
      return Err(InvalidSite);
    }
    var st := scanned.value;
    var last := FlushSection(st.open, pg);
    if last.Err? {
      return Err(InvalidSite);
    }
    r := Ok(st.records + last.value);
  }

  /** The line loop of `process_markdown_file`, up to the last section. */
  method MarkdownLoop(ls: seq<string>, pg: MdPage) returns (r: Result<MdState, ExtractError>)
    ensures var st := MdScan(ls, pg);
      r == if ValidSite(pg.site) || st.records == [] then Ok(st) else Err(InvalidSite)
  {
    var st := MdState([], Preamble);
    for i := 0 to |ls|
      invariant st == MdScan(ls[..i], pg)
      invariant ValidSite(pg.site) || st.records == []
    {
      TakeSnoc(ls, i);
      var next := MarkdownLine(st, ls[i], pg);
      if next.Err? {
        MdRecordsPrefix(ls, i + 1, pg);
        return Err(InvalidSite);
      }
      st := next.value;
    }
    TakeAll(ls);
    return Ok(st);
  }

  /** What the open section always satisfies: the level of a markdown
      heading, or level 0 with no heading text and no anchor for the
      preamble; an anchor made of anchor characters; no heading line among
      its lines. */
  predicate SectionOk(sec: OpenSection) {
    0 <= sec.level <= 6 && (sec.level == 0 <==> sec.anchor.None?) &&
    (sec.level == 0 ==> sec.heading == "") &&
    (sec.anchor.Some? ==> IsAnchorWord(sec.anchor.value)) &&
    forall i :: 0 <= i < |sec.lines| ==> !IsHeadingLine(sec.lines[i])
  }

  /** A record of the page `pg`: the page's path, site and url (with the
      anchor as fragment when it is not empty), a heading level from 0 to 6
      that is 0 exactly when there is no anchor, the file stem as title for
      the preamble and for a heading with empty text, and an anchor of
      anchor characters. */
  predicate PageRecordOk(r: Record, pg: MdPage) {
    r.page == pg.page && r.sourceSite == pg.site && r.url == Indexer.RecordUrl(pg.url, r.anchor) &&
    0 <= r.headingLevel <= 6 && (r.headingLevel == 0 <==> r.anchor.None?) &&
    (r.headingLevel == 0 ==> r.title == pg.stem) && (r.title == "" ==> pg.stem == "") &&
    (r.anchor.Some? ==> IsAnchorWord(r.anchor.value))
  }

  /** Every record of `rs` is a record of the page `pg`. */
  predicate AllPageRecords(rs: seq<Record>, pg: MdPage) {
    forall i :: 0 <= i < |rs| ==> PageRecordOk(rs[i], pg)
  }

  /** Records of the page, appended to records of the page. */
  lemma AllPageRecordsAppend(a: seq<Record>, b: seq<Record>, pg: MdPage)
    requires AllPageRecords(a, pg) && AllPageRecords(b, pg)
    ensures AllPageRecords(a + b, pg)
  {
    forall i | 0 <= i < |a + b| ensures PageRecordOk((a + b)[i], pg) {
      if i >= |a| {
        assert (a + b)[i] == b[i - |a|];
      }
    }
  }

  /** The records of a well-formed section are records of the page. */
  lemma FlushOk(sec: OpenSection, pg: MdPage)
    requires SectionOk(sec)
    ensures AllPageRecords(FlushRecords(sec, pg), pg)
  {
  }

  /** One line keeps the section well formed and emits records of the page. */
  lemma MdStepOk(st: MdState, l: string, pg: MdPage)
    requires SectionOk(st.open) && AllPageRecords(st.records, pg)
    ensures SectionOk(MdStep(st, l, pg).open) && AllPageRecords(MdStep(st, l, pg).records, pg)
  {
    var h := HeadingInfo(l);
    if h.level > 0 {
      AnchorIsWord(h.text);
      FlushOk(st.open, pg);
      AllPageRecordsAppend(st.records, FlushRecords(st.open, pg), pg);
    } else {
      var lines := st.open.lines + [l];
      assert forall i :: 0 <= i < |lines| ==> lines[i] == if i < |st.open.lines| then st.open.lines[i] else l;
    }
  }

  /** The loop keeps its section well formed and emits records of the page
      only. */
  lemma {:induction false} MdScanOk(ls: seq<string>, pg: MdPage)
    ensures SectionOk(MdScan(ls, pg).open) && AllPageRecords(MdScan(ls, pg).records, pg)
    decreases |ls|
  {
    if |ls| > 0 {
      MdScanOk(ls[..|ls| - 1], pg);
      MdStepOk(MdScan(ls[..|ls| - 1], pg), ls[|ls| - 1], pg);
    }
  }

  /** All records of a file are records of its page. */
  lemma FileRecordsOk(ls: seq<string>, pg: MdPage)
    ensures AllPageRecords(FileRecords(ls, pg), pg)
  {
    var st := MdScan(ls, pg);
    MdScanOk(ls, pg);
    FlushOk(st.open, pg);
    AllPageRecordsAppend(st.records, FlushRecords(st.open, pg), pg);
  }

  /** Every record of a processed markdown file is a record of its page, and
      there are records only for a valid site. */
  lemma ProcessMarkdownRecords(rel: string, content: Option<string>, baseUrl: string, site: string, enc: Encoder)
    ensures var r := ProcessMarkdownSpec(rel, content, baseUrl, site, enc);
      r.Ok? ==> (r.value != [] ==> ValidSite(site)) && AllPageRecords(r.value, PageOf(rel, baseUrl, site, enc))
  {
    if content.Some? {
      FileRecordsOk(Split(content.value, "\n"), PageOf(rel, baseUrl, site, enc));
    }
  }

  /** An unreadable file and an empty file give no records. */
  lemma ProcessMarkdownEmpty(rel: string, baseUrl: string, site: string, enc: Encoder)
    ensures ProcessMarkdownSpec(rel, None, baseUrl, site, enc) == Ok([])
    ensures ProcessMarkdownSpec(rel, Some(""), baseUrl, site, enc) == Ok([])
  {
    var pg := PageOf(rel, baseUrl, site, enc);
    assert Split("", "\n") == [""];
    EmptyFile(pg);
  }

  /** With the encoder the chunks of a section, joined with "\n\n", give
      back the section's stripped text. */
  lemma FlushRejoin(sec: OpenSection, pg: MdPage)
    requires pg.enc.Available? && |sec.lines| > 0 && Strip(Join(sec.lines, "\n")) != ""
    ensures Join(Map(FlushRecords(sec, pg), (r: Record) => r.mdText), ParaSep) == Strip(Join(sec.lines, "\n"))
  {
    var text := Strip(Join(sec.lines, "\n"));
    var chunks := SectionChunks(sec.lines, pg.enc);
    ChunkTextRoundTrip(text, pg.enc.count, DefaultMaxTokens);
    assert Map(FlushRecords(sec, pg), (r: Record) => r.mdText) == chunks;
  }

  /** The single empty line of an empty file gives no record. */
  lemma EmptyFile(pg: MdPage)
    ensures FileRecords([""], pg) == []
  {
    assert HashRun("") == 0;
    assert [""][..0] == [];
    var sec := OpenSection([""], "", 0, None);
    assert MdScan([""], pg) == MdState([], sec);
    assert Join([""], "\n") == "";
    assert SectionChunks(sec.lines, pg.enc) == [];
  }
}
