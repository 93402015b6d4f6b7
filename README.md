# mcp_pydantic_docs in Dafny

A model of the text pipeline and query logic of `mcp_pydantic_docs`. This is a
documentation server that indexes the Pydantic and Pydantic-AI documentation and
answers search and section requests over the local copy.

The model has two halves.

The indexing half turns documentation into records:
- three token-budget chunkers: `chunk_markdown`, `chunk_text`, and the `push`
  closure of `split_by_sections`;
- three section segmenters: `iter_sections` over sibling nodes, and the line
  scanners of `process_markdown_file` and `split_by_sections`;
- the text normalizers `normalize_text` and the tail of `to_markdown`;
- the record construction of `process_file`, `_process_single_file` and
  `process_markdown_file`, and `DocumentChunk.to_jsonl`;
- the record loading and tokenizing of `build_index`;
- the small string helpers `clean_docstring`, `build_api_url` and
  `extract_heading_info`.

The query half answers requests:
- the query tokenizer `_tokenize`;
- the snippet cleaner `_clean_snippet` and the snippet window;
- the stable descending top-k of the BM25 ranker;
- the integer fallback scorer of the MkDocs ranker;
- the clamp-and-filter pipeline of `t_search`;
- the path handling of `_safe_rel_from_url`, `_display_url`, `_deny_remote` and
  `_read_page`;
- `_extract_section` over the page's elements in document order, and the
  `truncated` flag of `t_section`.

Modules:
- `Wrappers`: `Option` and `Result`.
- `Seqs`: filters, maps, subsequences and index picks.
- `Strings`: Python `str` operations on ASCII — `strip`, `split`, `join`,
  `replace`, `find`, `count`, `lower`, whitespace collapsing.
- `Chunking`: the greedy paragraph runs shared by the three chunkers, with their
  partition, budget and round-trip lemmas.
- `Utils` models `utils.py`.
- `Tokens` models `_tokenize` and `build_index`'s `tokenize`, which are the same
  function.
- `Records` models the indexed record and its JSONL form.
- `Indexer` models `indexer.py`.
- `SourceExtractor` models `source_extractor.py`.
- `Normalize` models `normalize.py`.
- `Pages` models the page tools of `mcp.py`.
- `Search` models the rankers and `t_search` of `mcp.py`.

Code that loops and updates variables becomes a `method` with a `while` loop and
its invariants. Each such method is proved equal to a specification function.
The lemmas state the source's promises about that function:
- partition and round trip of the chunks;
- budget bounds;
- order-preserving subsequences of the filters;
- the 420- and 4000-character caps;
- absent characters;
- termination of the rewrite loops.

Foreign services become parameters:
- the tokenizer is an `Encoder`: unavailable, or a token count `string -> nat`;
- the HTML-to-markdown conversion and the regular-expression passes outside the
  core are functions `string -> string`;
- BM25 scores are an input sequence;
- file existence and file contents are oracles (`aiHas`, `files`, `headingsOf`,
  `parse`).

Some behaviour of the code that the model makes explicit:
- In `extract_heading_info`, the regular expression `^(#{1,6})\s+(.+)$`
  backtracks. So `"#  "` is a level-1 heading with empty text, while `"# "` is not
  a heading (`SourceExtractor.HeadingInfoExamples`).
- The BM25 snippet window ends 200 characters after the match starts. It
  therefore holds the match only for queries of at most 200 characters
  (`Search.WindowHoldsMatch`).
- In `_safe_rel_from_url`, the check of the Pydantic root for a relative path
  cannot change the outcome: both of its branches choose that root
  (`Pages.FallbackRoot`).
- `_clean_snippet` cuts at 420 characters. Its result therefore always fits the
  1200-character limit of `SearchHit.snippet` (`Search.SnippetFitsHit`).

## Model

| member | source | states |
|---|---|---|
| Chunking.RunsPartition | mcp_pydantic_docs/indexer.py:164-175 | the greedy runs concatenate to the paragraph list in order, no run is empty, a run of two or more paragraphs is within the budget, and a run is closed only because the next paragraph would take it over the budget |
| Chunking.RunsStep | mcp_pydantic_docs/source_extractor.py:233-243 | one greedy step: the next paragraph opens a new run exactly when it would take the current run over the budget, and otherwise joins it |
| Chunking.RunsRoundTrip | mcp_pydantic_docs/source_extractor.py:228-248 | the runs of `text.split("\n\n")`, each joined with "\n\n" and then joined again, give the text back exactly |
| Indexer.ChunkMarkdown | mcp_pydantic_docs/indexer.py:161-176 | an unavailable encoder raises; a text within the budget gives exactly its stripped self; otherwise the chunks of the split path |
| Indexer.GreedyChunks | mcp_pydantic_docs/indexer.py:164-175 | the `acc`/`count` loop yields the stripped "\n\n"-join of each greedy run, in run order |
| Indexer.ChunkMarkdownRuns | mcp_pydantic_docs/indexer.py:167-173 | on the split path the runs partition the paragraphs in order and are well grouped (budget and maximality) |
| Indexer.ChunkMarkdownSplit | mcp_pydantic_docs/indexer.py:164-176 | the chunks are an order-preserving subsequence of the stripped run joins; every chunk is non-empty and stripped; every non-blank run join is among the chunks |
| Indexer.ChunksStripped | mcp_pydantic_docs/indexer.py:162-176 | every chunk `chunk_markdown` returns is stripped, on both paths |
| Indexer.BodyEnd | mcp_pydantic_docs/indexer.py:151-155 | the index of the first sibling heading of the same or a higher rank: no sibling before it closes the section, and the one at that index does |
| Indexer.SectionBodyUpToClose | mcp_pydantic_docs/indexer.py:150-157 | a section's inner HTML is the markup of the tags before the first closing heading, with deeper headings included and non-tag nodes skipped |
| Indexer.SelectHeadings | mcp_pydantic_docs/indexer.py:136-138 | the header list is the indices of the h1–h3 nodes with an id, in document order |
| Indexer.SelectedIndicesOrdered | mcp_pydantic_docs/indexer.py:136-138 | the selected indices are strictly increasing, and every h1–h3 with an id is among them |
| Indexer.CollectBody | mcp_pydantic_docs/indexer.py:150-157 | the sibling loop collects exactly the specified section body |
| Indexer.SectionsLoop | mcp_pydantic_docs/indexer.py:142-158 | the heading loop yields one section per selected heading with a non-empty id, in header order |
| Indexer.SectionsOfShape | mcp_pydantic_docs/indexer.py:142-149 | at most one section per header; each carries a non-empty anchor and a level from 1 to 3 |
| Indexer.IterSections | mcp_pydantic_docs/indexer.py:131-158 | the generator yields the specified sections |
| Indexer.IterSectionsShape | mcp_pydantic_docs/indexer.py:139-158 | with no h1–h3 carrying an id, exactly one section `(None, "", 0, whole page)`; otherwise every section has a non-empty anchor and a level from 1 to 3 |
| Indexer.AfterFirst | mcp_pydantic_docs/indexer.py:188 | the result is a suffix of `s` that begins right after the first occurrence of `sep`, with no earlier occurrence; the whole string when `sep` does not occur |
| Indexer.AfterLast | mcp_pydantic_docs/indexer.py:203 | `rsplit("/", 1)[-1]` is the suffix after the last `/`, containing no `/` |
| Indexer.RecordUrl | mcp_pydantic_docs/indexer.py:211 | the record url is `url#anchor` exactly when the anchor is truthy, else the page url |
| Indexer.RecordTitle | mcp_pydantic_docs/indexer.py:203 | the title is the heading text, else the last segment of the page path, else "index" for an empty path |
| Indexer.ChunkRecords | mcp_pydantic_docs/indexer.py:204-215 | one record per chunk, carrying that chunk as its markdown text |
| Indexer.ChunkRecordsShape | mcp_pydantic_docs/indexer.py:205-215 | every record of a section belongs to its page: page path, site, title fallback, url with anchor, stripped text |
| Indexer.SectionRecordsShape | mcp_pydantic_docs/indexer.py:201-215 | every record of every section belongs to its page |
| Indexer.OneSection | mcp_pydantic_docs/indexer.py:202-215 | a section's markdown is chunked and becomes one record per chunk; an unavailable encoder raises |
| Indexer.RecordsLoop | mcp_pydantic_docs/indexer.py:200-216 | the section loop gives the records of all sections in order, and raises on an unavailable encoder when any section exists |
| Indexer.ProcessFile | mcp_pydantic_docs/indexer.py:179-216 | `process_file` computes the specified records of the page |
| Indexer.ProcessFileRecords | mcp_pydantic_docs/indexer.py:188-215 | every record has the page path after `/docs_raw/<site>/` and the url `base_url.rstrip("/") + "/" + rel`, with `#anchor` exactly when there is an anchor; an unavailable encoder raises once there is a section |
| Indexer.ParseAllPairs | mcp_pydantic_docs/indexer.py:316-319 | loading succeeds exactly when every kept line parses, and then record `i` is the parse of line `i` |
| Indexer.LoadStep | mcp_pydantic_docs/indexer.py:316-319 | a blank line is skipped; another line is stripped and parsed; a line that does not parse stops the load |
| Indexer.LoadStops | mcp_pydantic_docs/indexer.py:316-319 | after a line that does not parse, later lines change nothing |
| Indexer.LoadFile | mcp_pydantic_docs/indexer.py:315-319 | the line loop over one file extends the loaded records exactly as specified |
| Indexer.CorpusPairs | mcp_pydantic_docs/indexer.py:329 | the corpus is built exactly when every record's `md_text` is a string, and then `corpus[i]` is the tokens of `records[i]`'s text |
| Indexer.BuildIndex | mcp_pydantic_docs/indexer.py:292-329 | `build_index` up to the BM25 model computes the specified records and corpus, or stops when the library is missing |
| Indexer.BuildIndexShape | mcp_pydantic_docs/indexer.py:310-329 | one record per non-blank line of the existing files, in file then line order, each paired with its tokens; every token is at least two characters of `[a-z0-9_#-]` |
| Records.ToJsonl | mcp_pydantic_docs/source_extractor.py:44-54 | the JSONL object has exactly the seven record keys and reads back as the same record |
| Records.FromJsonlToJsonl | mcp_pydantic_docs/source_extractor.py:44-54 | the converse: an object with exactly those keys that reads back as a record is that record's JSONL form |
| SourceExtractor.CharSlicesJoin | mcp_pydantic_docs/source_extractor.py:253 | the fallback slices concatenate to the text, and there are none only for the empty text |
| SourceExtractor.CharSlicesWidths | mcp_pydantic_docs/source_extractor.py:252-253 | every slice but the last has exactly `max_chars` characters, and the last has between 1 and `max_chars` |
| SourceExtractor.ParagraphChunks | mcp_pydantic_docs/source_extractor.py:228-248 | the paragraph loop yields the "\n\n"-joins of the greedy runs, unstripped |
| SourceExtractor.ChunkText | mcp_pydantic_docs/source_extractor.py:206-253 | `chunk_text` computes the specified chunks on every path, including its error |
| SourceExtractor.ChunkTextShort | mcp_pydantic_docs/source_extractor.py:217-225 | empty text gives no chunk; with the encoder, a text within the budget is returned as it is, not stripped |
| SourceExtractor.ChunkTextRoundTrip | mcp_pydantic_docs/source_extractor.py:224-248 | with the encoder the chunks joined with "\n\n" are the text again; on the paragraph path they are the joins of well-grouped runs partitioning the paragraphs |
| SourceExtractor.ChunkTextFallback | mcp_pydantic_docs/source_extractor.py:249-253 | without the encoder, a positive width gives full-width slices (the last shorter) that concatenate to the text; width zero raises |
| SourceExtractor.ChunkTextOk | mcp_pydantic_docs/source_extractor.py:206-253 | with a positive budget `chunk_text` never raises |
| SourceExtractor.CleanDocstring | mcp_pydantic_docs/source_extractor.py:161-203 | `clean_docstring` computes the specified text: the kept lines joined, runs of four or more newlines made three, stripped; the result holds no four newlines in a row |
| SourceExtractor.CleanDocstringCapped | mcp_pydantic_docs/source_extractor.py:200-203 | the cleaned docstring never holds four newlines in a row, so stripping keeps the cap |
| Strings.CapNewlinesBound | mcp_pydantic_docs/source_extractor.py:201 | for any cap `k`, after `re.sub(r"\n{k+1,}", "\n" * k, s)` the text holds no `k + 1` newlines in a row |
| Strings.StripKeepsAbsent | mcp_pydantic_docs/source_extractor.py:203 | a substring absent from a text is absent from its stripped form |
| SourceExtractor.DocKeptSubsequence | mcp_pydantic_docs/source_extractor.py:181-196 | the kept lines are an order-preserving subsequence of the docstring's lines |
| SourceExtractor.DocNoAdmonition | mcp_pydantic_docs/source_extractor.py:185-187 | no kept line opens an admonition |
| SourceExtractor.DocKeepsPlain | mcp_pydantic_docs/source_extractor.py:189-196 | every plain line (non-blank, unindented, not an admonition) is kept, in order |
| SourceExtractor.DocSkipping | mcp_pydantic_docs/source_extractor.py:179-194 | the `skip_admonition` flag holds exactly when some admonition line was followed only by blank or indented lines |
| SourceExtractor.DocKeptIff | mcp_pydantic_docs/source_extractor.py:181-196 | a line is kept exactly when it opens no admonition and is plain or no admonition is open |
| SourceExtractor.ApiSlug | mcp_pydantic_docs/source_extractor.py:277 | the url segment has the module name's length, no `_` and no upper-case letter |
| SourceExtractor.ApiUrlNoDot | mcp_pydantic_docs/source_extractor.py:270-272 | a name without a dot leads to `base/api/` |
| SourceExtractor.ApiUrlModule | mcp_pydantic_docs/source_extractor.py:270-279 | only the second dotted component counts: `pkg.mod` and `pkg.mod.rest` both lead to `base/api/<slug of mod>/` |
| SourceExtractor.ApiUrlExample | mcp_pydantic_docs/source_extractor.py:267-279 | `pydantic.base_model` leads to `base/api/base-model/` |
| SourceExtractor.HashRun | mcp_pydantic_docs/source_extractor.py:297-301 | the number of leading `#`: all of them, and the next character is not `#` |
| SourceExtractor.CollapseDashes | mcp_pydantic_docs/source_extractor.py:307 | the output is empty exactly when the input is, starts with a dash exactly when the input starts with a dash or whitespace, has no two adjacent dashes, and has no character but dashes and characters of the input outside `[-\s]` |
| SourceExtractor.CollapseKeepsSolid | mcp_pydantic_docs/source_extractor.py:307 | the characters outside `[-\s]` pass through unchanged and in order, and nothing else survives but dashes |
| SourceExtractor.CollapseRun | mcp_pydantic_docs/source_extractor.py:307 | any non-empty run of dashes and whitespace becomes exactly one dash |
| SourceExtractor.CollapseSolid | mcp_pydantic_docs/source_extractor.py:307 | a string without dashes or whitespace comes out unchanged |
| SourceExtractor.CollapseAppend | mcp_pydantic_docs/source_extractor.py:307 | where a character outside `[-\s]` sits on one side of a seam, collapsing the two halves separately gives the same result |
| SourceExtractor.CollapseJoin | mcp_pydantic_docs/source_extractor.py:307 | non-empty words free of dashes and whitespace, joined by any run of dashes and whitespace, come out joined by single dashes |
| SourceExtractor.HeadingInfo | mcp_pydantic_docs/source_extractor.py:287-309 | level 0 with empty text and anchor exactly when the line is not a heading; otherwise the level is the number of leading hashes (1 to 6), the text is the stripped rest of the line, and the anchor is that text's slug |
| SourceExtractor.HeadingInfoGroup | mcp_pydantic_docs/source_extractor.py:297-302 | for every split of the line that the regular expression can take, the level is the length of group 1 and the text is group 2, stripped |
| SourceExtractor.HeadingOfText | mcp_pydantic_docs/source_extractor.py:297-309 | one to six hashes, a space and text that neither starts nor ends with whitespace make a heading of that level, with that text and its slug |
| SourceExtractor.HeadingMainTitle | tests/test_source_extractor.py:216-221 | `"# Main Title"` gives level 1, text `Main Title` and anchor `main-title` |
| SourceExtractor.HeadingSubsection | tests/test_source_extractor.py:223-228 | `"## Subsection"` gives level 2, text `Subsection` and anchor `subsection` |
| SourceExtractor.HeadingApiReference | tests/test_source_extractor.py:237-241 | `"## API Reference (v2.0)"` gives level 2, text `API Reference (v2.0)` and anchor `api-reference-v20` |
| SourceExtractor.HeadingMultipleSpaces | tests/test_source_extractor.py:243-247 | `"## Multiple   Spaces"` gives level 2, text `Multiple   Spaces` and anchor `multiple-spaces`, which holds a dash and no two spaces |
| SourceExtractor.AnchorIsWord | mcp_pydantic_docs/source_extractor.py:305-307 | every anchor consists of lower-case letters, digits, `_` and single dashes |
| SourceExtractor.HeadingTextStrip | mcp_pydantic_docs/source_extractor.py:302 | the stripped group is the stripped rest of the line, whichever split the regular expression takes |
| SourceExtractor.TailMatchesPlain | mcp_pydantic_docs/source_extractor.py:297 | on a line without newlines, the tail matches exactly when it starts with whitespace and has at least two characters |
| SourceExtractor.HeadingInfoExamples | mcp_pydantic_docs/source_extractor.py:297-299 | a plain line is not a heading, `"# "` is not a heading, and `"#  "` is a level-1 heading with empty text |
| SourceExtractor.Stem | mcp_pydantic_docs/source_extractor.py:363 | the file stem has no `/` and starts the last path segment |
| SourceExtractor.BuildRecords | mcp_pydantic_docs/source_extractor.py:360-371 | one record per chunk; the first record raises when the site is not one of the two accepted values |
| SourceExtractor.FlushSection | mcp_pydantic_docs/source_extractor.py:357-371 | closing a section emits the records of the chunks of its stripped text, none when that text is empty |
| SourceExtractor.MarkdownLine | mcp_pydantic_docs/source_extractor.py:353-379 | one line: a heading closes the open section and opens its own; any other line joins the open section |
| SourceExtractor.MarkdownLoop | mcp_pydantic_docs/source_extractor.py:352-379 | the line loop computes the specified state, or raises at the first record of an invalid site |
| SourceExtractor.MdRecordsPrefix | mcp_pydantic_docs/source_extractor.py:352-379 | records are only appended: those of a prefix of the lines come first |
| SourceExtractor.ProcessMarkdownFile | mcp_pydantic_docs/source_extractor.py:312-398 | `process_markdown_file` computes the specified records |
| SourceExtractor.MdStepOk | mcp_pydantic_docs/source_extractor.py:353-379 | every line keeps the open section well formed and emits only records of the page |
| SourceExtractor.MdScanOk | mcp_pydantic_docs/source_extractor.py:352-379 | the loop keeps its section well formed and emits only records of the page |
| SourceExtractor.FileRecordsOk | mcp_pydantic_docs/source_extractor.py:352-396 | every record of a file, the final section's included, is a record of the page |
| SourceExtractor.ProcessMarkdownRecords | mcp_pydantic_docs/source_extractor.py:337-396 | every record has the page path, site and page url, with `#anchor` exactly when the anchor is truthy, the file stem as title fallback, and a heading level 0 exactly when there is no anchor; records exist only for a valid site |
| SourceExtractor.ProcessMarkdownEmpty | mcp_pydantic_docs/source_extractor.py:330-334 | an unreadable file and an empty file give no records |
| SourceExtractor.FlushRejoin | mcp_pydantic_docs/source_extractor.py:358-371 | with the encoder, a section's record texts joined with "\n\n" give back its stripped text |
| SourceExtractor.EmptyFile | mcp_pydantic_docs/source_extractor.py:382-384 | the single empty line of an empty file emits nothing |
| Utils.MarkdownTail | mcp_pydantic_docs/indexer.py:125-126 | after the replacements: stripped, single plain spaces only, no pipe character and no backtick |
| Utils.ToMarkdown | mcp_pydantic_docs/utils.py:98-127 | `to_markdown` output is stripped, with single plain spaces and no pipe character, backtick, newline or tab, whatever the conversion gives |
| Utils.MarkdownTailIdempotent | mcp_pydantic_docs/utils.py:122-125 | cleaning already-cleaned markdown changes nothing |
| Utils.CleanLine | mcp_pydantic_docs/utils.py:173-175 | a cleaned line is stripped with single plain spaces, and it is empty exactly when the raw line is blank |
| Utils.KeepCleanLines | mcp_pydantic_docs/utils.py:169-178 | the line loop cleans every line and keeps an empty one only after a kept non-empty one |
| Utils.KeptLinesSingle | mcp_pydantic_docs/utils.py:177-178 | the kept lines never start with an empty line and never hold two empty lines in a row |
| Utils.KeptLinesFilter | mcp_pydantic_docs/utils.py:169-178 | every non-empty line is kept, in order |
| Utils.CapBlankRuns | mcp_pydantic_docs/utils.py:183-184 | the `while "\n\n\n"` loop terminates, caps every newline run at two, and leaves no three newlines in a row |
| Utils.CapAfterReplace | mcp_pydantic_docs/utils.py:184 | one pass of the replacement does not change what capping newline runs at two gives, so the loop computes that cap |
| Utils.NormalizeText | mcp_pydantic_docs/utils.py:131-193 | `normalize_text` computes the specified text |
| Utils.NormalizedTextShape | mcp_pydantic_docs/utils.py:169-191 | the result is stripped, has no three newlines in a row and no space or tab beside a newline; its lines are stripped with single plain spaces, an empty line never first, last or twice in a row; its non-empty lines are the non-empty cleaned input lines in order |
| Utils.NormalizedTextNoControl | mcp_pydantic_docs/utils.py:155-156 | the result contains no carriage return and no NUL character |
| Utils.NormalizedTextBlank | mcp_pydantic_docs/utils.py:148-152 | empty or whitespace-only text normalizes to "" |
| Tokens.Tokenize | mcp_pydantic_docs/mcp.py:254-257 | every token is at least two characters long and made of `[a-z0-9_#-]` only, so it is lowercase |
| Tokens.TokenizeEmpty | mcp_pydantic_docs/mcp.py:254-257 | the empty query has no tokens |
| Tokens.TokenizeLower | mcp_pydantic_docs/mcp.py:255 | the tokens depend only on the lowercased input |
| Tokens.TokenizeJoin | mcp_pydantic_docs/mcp.py:262-266 | tokenizing the space-joined tokens gives the same tokens back, so the snippet query carries exactly the query's tokens |
| Normalize.SectionTitle | mcp_pydantic_docs/normalize.py:224 | the title is stripped and no longer than the line |
| Normalize.SectionAnchor | mcp_pydantic_docs/normalize.py:225 | the anchor is no longer than the title and made of `[a-z0-9-]` only |
| Normalize.AnchorOfSlug | mcp_pydantic_docs/normalize.py:225 | a title that is already an anchor is its own anchor: nothing is collapsed or trimmed |
| Normalize.OtherHeadingsStay | mcp_pydantic_docs/normalize.py:221-233 | lines opening with `# ` or `#### ` open no section |
| Normalize.PushSpec | mcp_pydantic_docs/normalize.py:181-219 | `push` emits chunks exactly when the title is truthy and the body has a line, each under the section's title and anchor |
| Normalize.Push | mcp_pydantic_docs/normalize.py:181-219 | the `push` closure appends exactly the section's specified chunks |
| Normalize.ParagraphRuns | mcp_pydantic_docs/normalize.py:196-219 | the `acc`/`count` loop emits one labelled chunk per greedy run, joined with "\n\n" |
| Normalize.SplitLine | mcp_pydantic_docs/normalize.py:222-233 | one line: an H2 or H3 pushes the open section and opens a new one; any other line joins the body |
| Normalize.SplitLoop | mcp_pydantic_docs/normalize.py:221-233 | the line loop computes the specified state |
| Normalize.AttachUrls | mcp_pydantic_docs/normalize.py:237-238 | every chunk gets its url in order |
| Normalize.WithUrl | mcp_pydantic_docs/normalize.py:238 | attaching the url changes no other field |
| Normalize.SplitBySections | mcp_pydantic_docs/normalize.py:175-239 | `split_by_sections` computes the specified sections |
| Normalize.SplitScanOk | mcp_pydantic_docs/normalize.py:221-234 | the loop keeps every chunk, and the open section unless it is the preamble, tied to an H2/H3 heading of the page |
| Normalize.LineChunksFromHeadings | mcp_pydantic_docs/normalize.py:221-234 | every chunk has the non-empty title of an H2/H3 heading of the page and the anchor made from it |
| Normalize.NoHeadingNoChunks | mcp_pydantic_docs/normalize.py:221-234 | a page without an H2 or H3 line gives no chunk |
| Normalize.PreambleDropped | mcp_pydantic_docs/normalize.py:179-234 | the lines before the first H2/H3 appear in no record: the page gives the same chunks without them |
| Normalize.PushRejoin | mcp_pydantic_docs/normalize.py:183-219 | the texts of a section joined with "\n\n" are its stripped body; a body within `MAX_TOK` is one chunk; a longer one is cut into well-grouped runs partitioning its paragraphs |
| Normalize.BlankBodyOneRecord | mcp_pydantic_docs/normalize.py:182-193 | a titled section whose body lines are all blank still gives one record, with empty text |
| Normalize.Tag | mcp_pydantic_docs/normalize.py:263-264 | tagging sets the page and the site and changes no other field |
| Normalize.TagLoop | mcp_pydantic_docs/normalize.py:261-265 | the loop tags every section in order |
| Normalize.ProcessSingleFile | mcp_pydantic_docs/normalize.py:242-267 | `_process_single_file` computes the specified records |
| Normalize.SingleFileRecords | mcp_pydantic_docs/normalize.py:248-265 | every record has `page = rel` and the site, the title and anchor of an H2/H3 heading, and the url `base_url.rstrip("/") + "/" + rel` with `#anchor` exactly when the anchor is non-empty |
| Pages.UrlScheme | mcp_pydantic_docs/mcp.py:158 | a non-empty scheme is the lowercased text before the first `:` |
| Pages.RemoteDeniedCases | mcp_pydantic_docs/mcp.py:155-162 | the guard never stops the two documentation bases, stops nothing when not offline, and stops only http(s) urls |
| Pages.LocalNotDenied | mcp_pydantic_docs/mcp.py:155-162 | a `local://` url is never denied |
| Pages.CleanRel | mcp_pydantic_docs/mcp.py:188-189 | the cleaned path has no `#` and no `..` |
| Pages.ReplaceDotsClean | mcp_pydantic_docs/mcp.py:189 | leftmost non-overlapping removal of `..` cannot create a new `..` |
| Pages.SafeRelFromUrl | mcp_pydantic_docs/mcp.py:164-190 | it fails exactly when the remote guard denies the stripped input; otherwise the path has no `#` and no `..` |
| Pages.SafeRelBasePydantic | mcp_pydantic_docs/mcp.py:167-168 | the Pydantic base maps to the Pydantic root and is cut off |
| Pages.SafeRelBasePydanticAi | mcp_pydantic_docs/mcp.py:169-170 | the Pydantic-AI base maps to the Pydantic-AI root and is cut off |
| Pages.SafeRelLocalPydantic | mcp_pydantic_docs/mcp.py:171-172 | the local Pydantic base maps to the Pydantic root and is cut off |
| Pages.SafeRelLocalPydanticAi | mcp_pydantic_docs/mcp.py:173-174 | the local Pydantic-AI base maps to the Pydantic-AI root and is cut off |
| Pages.DotDotSlash | mcp_pydantic_docs/mcp.py:175-190 | `../x` becomes `/x`, because `/` is stripped before `..` is removed |
| Pages.ReadSlashX | mcp_pydantic_docs/mcp.py:196 | `_read_page` strips `/x` again to `x` |
| Pages.ReadRel | mcp_pydantic_docs/mcp.py:196 | the path `_read_page` opens has no `..` |
| Pages.ReadRelOfSafe | mcp_pydantic_docs/mcp.py:196 | on a path `_safe_rel_from_url` returned, the second cleaning only strips leading slashes |
| Pages.ReadPage | mcp_pydantic_docs/mcp.py:195-200 | it fails exactly when no file is at the cleaned path, with that path as the error |
| Pages.DisplayUrlRoundTrip | mcp_pydantic_docs/mcp.py:192-193 | a displayed url reads back through `_safe_rel_from_url` as the root and path it was made from |
| Pages.TargetLevel | mcp_pydantic_docs/mcp.py:207-209 | the level is the number after `h` of a numbered tag, and 2 otherwise |
| Pages.StopIndex | mcp_pydantic_docs/mcp.py:211-215 | the first later element that is a heading of the same or a higher rank, and no earlier one is |
| Pages.FindId | mcp_pydantic_docs/mcp.py:204 | the first element with the anchor as id, or none exactly when no element has it |
| Pages.CollectSection | mcp_pydantic_docs/mcp.py:210-216 | the collecting loop gathers the target's text, then the texts of the following elements up to the first closing heading |
| Pages.ExtractSection | mcp_pydantic_docs/mcp.py:202-218 | `_extract_section` computes the specified text |
| Pages.ExtractSectionShape | mcp_pydantic_docs/mcp.py:202-218 | a missing anchor gives ""; any section is at most 4000 characters; a found one is the start of the non-empty collected texts joined with newlines, and all of them when they fit |
| Pages.SectionTextsCollect | mcp_pydantic_docs/mcp.py:211-216 | an element after the target is collected whenever no heading of the target's rank or higher comes between them |
| Pages.SectionAnswer | mcp_pydantic_docs/mcp.py:615-617 | the answer is flagged truncated exactly when the section reached 4000 characters, with the display url plus `#anchor` |
| Pages.TSectionShape | mcp_pydantic_docs/mcp.py:611-619 | `t_section` fails by the remote guard exactly when it denies the input; an answer has a clean path, the display url with `#anchor`, and the truncated flag exactly at 4000 characters |
| Search.CleanSnippet | mcp_pydantic_docs/mcp.py:240-251 | at most 420 characters, no pipe character or backtick, no two adjacent spaces and only plain ones, no leading space, and a prefix of the whitespace-collapsed cleaned text |
| Search.CleanSnippetCut | mcp_pydantic_docs/mcp.py:249-251 | a cleaned text that fits is returned whole and stripped; one that is cut may end in a space |
| Search.SnippetFitsHit | mcp_pydantic_docs/mcp.py:83 | a cleaned snippet always fits the 1200-character limit of `SearchHit` |
| Search.SnippetWindow | mcp_pydantic_docs/mcp.py:269-271 | the raw window is at most 800 characters |
| Search.WindowHoldsMatch | mcp_pydantic_docs/mcp.py:270-271 | when the query is found, the lowercased window contains it (queries of at most 200 characters) |
| Search.RankOrder | mcp_pydantic_docs/mcp.py:264 | the sorted order holds every index below `n` exactly once |
| Search.RankOrderRanked | mcp_pydantic_docs/mcp.py:264 | the sorted order is descending by score with ties in index order, as Python's stable reverse sort gives |
| Search.TopKShape | mcp_pydantic_docs/mcp.py:264 | the top `k` are `min(k, n)` distinct ranked indices, zero scores included, and no index left out scores above one kept |
| Search.RankHitsBm25 | mcp_pydantic_docs/mcp.py:260-287 | the hit loop computes the specified BM25 hits |
| Search.RankBm25Shape | mcp_pydantic_docs/mcp.py:263-286 | `min(k, len(records))` hits, in descending score order with ties in record order, hit `j` made from the `j`-th ranked record |
| Search.MkdocsScore | mcp_pydantic_docs/mcp.py:296 | an empty query scores every page above zero; otherwise a page scores exactly when its lowercased title or text contains the query |
| Search.Scored | mcp_pydantic_docs/mcp.py:292-298 | exactly the scoring pages are kept: every kept page scores, every scoring page is kept, and page order is preserved |
| Search.ScoreDocs | mcp_pydantic_docs/mcp.py:292-298 | the scoring loop keeps exactly the scoring pages, in order |
| Search.MkdocsHit | mcp_pydantic_docs/mcp.py:302-320 | a hit has the page's title, no anchor, no heading, the display url of the page and a snippet of at most 420 characters |
| Search.RankHitsMkdocs | mcp_pydantic_docs/mcp.py:289-321 | `_rank_hits_mkdocs` computes the specified hits |
| Search.RankMkdocsShape | mcp_pydantic_docs/mcp.py:289-321 | `min(k, #scoring pages)` hits in descending score order with ties in page order; an empty query keeps every page |
| Search.ClampK | mcp_pydantic_docs/mcp.py:486-489 | k is within 1 to 50: values in range are kept, larger ones become 50, smaller ones 1, and a failed conversion gives 10 |
| Search.SiteFilter | mcp_pydantic_docs/mcp.py:497-501 | the kept hits are exactly those whose urls start with the site's local base, as an order-preserving subsequence; every hit is kept when the site names neither site |
| Search.MatchTitle | mcp_pydantic_docs/mcp.py:526-530 | a match is a heading title containing the lowercased heading text; none means no title contains it |
| Search.FirstHeading | mcp_pydantic_docs/mcp.py:527-530 | the loop that stops at the first match gives the first matching title |
| Search.HitMatch | mcp_pydantic_docs/mcp.py:508-530 | a matched heading of the hit's page contains the heading text |
| Search.HeadingFilter | mcp_pydantic_docs/mcp.py:504-535 | the heading loop keeps the specified hits and records the matched heading in each |
| Search.HeadingFilterShape | mcp_pydantic_docs/mcp.py:504-535 | the filter keeps hits in order and changes only their heading; each kept hit matched a heading or holds the heading text in its snippet; every hit passing the heading test is kept, annotated with its matched heading; the site filter's guarantee is kept |
| Search.KeywordFilter | mcp_pydantic_docs/mcp.py:538-545 | the kept hits are exactly those in which every whitespace-separated keyword, lowercased, occurs in the lowercased title and snippet, as an order-preserving subsequence |
| Search.HeadingStage | mcp_pydantic_docs/mcp.py:504-535 | with a heading, the kept hits keep the site guarantee, each passes the heading test, and every passing hit is kept with its matched heading; without one, the hits come back unchanged |
| Search.KeywordStage | mcp_pydantic_docs/mcp.py:538-546 | with keywords, the kept hits are an order-preserving subsequence holding exactly the hits that pass the keyword test; without them, the hits come back unchanged |
| Search.Front | mcp_pydantic_docs/mcp.py:548 | `hits[:k]` is a prefix of at most `k` hits |
| Search.SearchShape | mcp_pydantic_docs/mcp.py:497-548 | at most `k` results, in the ranker's order, taken from its hits up to the recorded heading, each passing every filter that was asked for |
| Search.TSearch | mcp_pydantic_docs/mcp.py:478-549 | `t_search` clamps k, asks the ranker for `3k` hits and returns the specified filtered, trimmed results |

## Left out

- HTML parsing, markdownify and CSS selectors are not modelled. `iter_sections`
  and `_extract_section` work on a flattened node or element sequence.
  `_clean_html_for_text`, `_html_to_markdown` and `_extract_headings` are
  represented by their output.
- The regular-expression passes outside the core are function parameters. These
  are the fence, table-row and line-number-burst passes of `to_markdown` and
  `_clean_snippet`, and the artifact and newline passes of `normalize_text`.
  `Utils.NormalizedTextNoControl` and `Utils.NormalizedTextBlank` require only
  what those passes do: they add no NUL, and they leave "" empty.
- Strings are ASCII. Unicode `\w`, `\s` and `str.lower()` are not modelled.
- tiktoken is an `Encoder`: an uninterpreted token count, or unavailable. The
  `RuntimeError` of `tok_len` and the fallback of `chunk_text` follow from that.
- rank_bm25's `BM25Okapi` and its floating-point scores are not modelled. The
  BM25 ranker takes the scores as a sequence of reals.
- File and persistence I/O are represented by their results or by oracles:
  - `rglob`;
  - page reads and writes, including the docs_md snapshots;
  - JSONL writing, and `json.loads` as `parse`;
  - the pickling of the index;
  - the loading of the MkDocs index (`headingsOf`, `docs`);
  - `is_file`, `resolve` and `_is_within` (`aiHas`, `files`).
- The page-level markdown written by `process_file` and `_process_single_file` is
  output only, and is not modelled.
- `process_site` is not modelled. Its `ProcessPoolExecutor` fan-out returns
  results out of order.
- `urlparse` is approximated: the scheme is the text before the first `:` when it
  has the form of a scheme.
- The environment variables behind `DOC_ROOT`, `DOC_ROOT_AI` and `_OFFLINE_ONLY`
  are not read. The two roots are a datatype, and the offline switch is a
  parameter.
- `_HAS_BM25`, which chooses the ranker, is not modelled. `t_search` takes the
  ranker in use as `ranker(n)`.
- Search.ClampK: takes `int(k)` as already converted (`None` when it raises).
  Python's truncation of a float `k` is not modelled.
- Search.TSearch: hits are values. The `h["heading_title"]` assignment on the
  ranker's dicts becomes a new hit, so aliasing of those dicts is not modelled.
  The extra `page` and `source_site` keys of BM25 hits are dropped, since
  `SearchHit` ignores them.
- `SearchHit`'s validation of the snippet length is not modelled. No snippet
  reaches the limit (`Search.SnippetFitsHit`).
- Search.RankHitsBm25: every pickled record is taken to be a `Records.Record`.
  That means it carries all seven keys, with `md_text` a string. The `.get`
  defaults and the `or ""` of `_rank_hits_bm25` are not modelled. A record
  without `md_text`, or one where it is null, is not covered.
- Pages.FindId: models only `soup.find(id=anchor)`, as an exact match on the
  id. Three behaviours of `_extract_section` are not captured:
  - The fallback `select_one("h1#a,h2#a,h3#a")` is not modelled. It can find
    a heading that `find` misses: for the anchor "a.b", an `h1` with id "a"
    and class "b".
  - For an anchor that is not a CSS identifier, such as "1x" or "a b",
    `select_one` raises a selector error, and so `t_section` raises. The
    model answers "" for these.
  - Some bs4 versions let `id=""` match an element with no id at all. The
    model looks for an id equal to "".
- `_rank_hits_mkdocs` reads `d["location"]`, `d.get("title", "")` and
  `d.get("text", "")`. In the model these are always-present fields of `Doc`.
- In `split_by_sections`, the preamble's `None` title is written "". `push`
  treats both the same way.
- The following are not modelled, since none of them is part of the indexing
  pipeline or the query logic:
  - `t_get`, `t_api` and the other server tools;
  - FastMCP registration and logging;
  - `clone_or_update_repo`, `parse_python_file`, `extract_python_docstrings` and
    `extract_markdown_docs`'s directory walk.
