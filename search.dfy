/** The search side of the documentation server (mcp.py): snippet cleaning
    and windowing, the two rankers (BM25 scores over the index records, and
    substring counts over the MkDocs search index) and the filter pipeline of
    the search tool. */
module Search {
  import opened Wrappers
  import opened Strings
  import opened Seqs
  import opened Tokens
  import opened Utils
  import opened Records
  import opened Pages

  /** `MAX_SNIPPET`: the window taken when the query is not found. */
  const MaxSnippet := 800

  /** `_SNIP_MAX`: the longest cleaned snippet. */
  const SnipMax := 420

  /** The longest snippet a `SearchHit` accepts. */
  const HitSnippetLimit := 1200

  /** One search result, `SearchHit`: the keys of a hit dict it keeps. */
  datatype Hit = Hit(title: string, url: string, anchor: Option<string>, snippet: string, headingTitle: Option<string>)

  // ---------------------------------------------------------------- snippets

  /** A prefix keeps single plain spaces and characters it lacks. */
  lemma PrefixKeeps(m: string, n: nat)
    requires n <= |m|
    ensures NoAdjacentSpaces(m) ==> NoAdjacentSpaces(m[..n])
    ensures OnlyPlainSpaces(m) ==> OnlyPlainSpaces(m[..n])
    ensures forall c :: c !in m ==> c !in m[..n]
  {
    var p := m[..n];
    assert forall i :: 0 <= i < n ==> p[i] == m[i];
    if NoAdjacentSpaces(m) {
      forall i | 0 <= i < |p| - 1 ensures !SpacePair(p, i) {
        assert !SpacePair(m, i);
      }
    }
  }

  /** `_clean_snippet(s)`: `noise` stands for the three regular-expression
      passes (fenced blocks, table rows and line-number bursts become spaces);
      then pipes and backticks become spaces, whitespace runs collapse, the
      ends are stripped and the text is cut to `_SNIP_MAX`. */
  function CleanSnippet(noise: string -> string, s: string): (r: string)
    ensures |r| <= SnipMax
    ensures '|' !in r && '`' !in r
    ensures NoAdjacentSpaces(r) && OnlyPlainSpaces(r)
    ensures |r| > 0 ==> !IsSpace(r[0])
    ensures |r| == if |MarkdownTail(noise(s))| <= SnipMax then |MarkdownTail(noise(s))| else SnipMax
    ensures r == MarkdownTail(noise(s))[..|r|]
  {
    var m := MarkdownTail(noise(s));
    PrefixKeeps(m, |Take(m, SnipMax)|);
    Take(m, SnipMax)
  }

  /** A cleaned text that fits is returned whole and stripped; one that is cut
      may end in the space before the cut. */
  lemma CleanSnippetCut(noise: string -> string, s: string)
    ensures var m := MarkdownTail(noise(s));
      |m| <= SnipMax ==> CleanSnippet(noise, s) == m && IsStripped(CleanSnippet(noise, s))
    ensures var m := MarkdownTail(noise(s));
      |m| > SnipMax && m[SnipMax - 1] == ' ' ==> CleanSnippet(noise, s)[SnipMax - 1] == ' '
  {
  }

  /** A cleaned snippet always fits the `SearchHit` limit. */
  lemma SnippetFitsHit(noise: string -> string, s: string)
    ensures |CleanSnippet(noise, s)| < HitSnippetLimit
  {
  }

  /** `max(0, n)`. */
  function NonNeg(n: int): nat {
    if n < 0 then 0 else n
  }

  /** The raw snippet around the first match of `q` in the lowercased text:
      from 120 characters before it to 200 after its start, or the first
      `MAX_SNIPPET` characters when `q` is empty or absent. The MkDocs
      ranker also turns newlines of a match window into spaces (`flatten`). */
  function SnippetWindow(text: string, q: string, searchEmpty: bool, flatten: bool): (raw: string)
    ensures |raw| <= MaxSnippet
  {
    var pos := if q != "" || searchEmpty then Find(Lower(text), q) else -1;
    if pos != -1 then
      var w := Slice(text, NonNeg(pos - 120), pos + 200);
      if flatten then ReplaceChar(w, '\n', ' ') else w
    else Take(text, MaxSnippet)
  }

  /** A match at `i` makes `p` occur in `s`. */
  lemma {:induction false} ContainsAt(s: string, p: string, i: nat)
    requires i + |p| <= |s| && s[i..i + |p|] == p
    ensures Contains(s, p)
    decreases i
  {
    if i == 0 {
      assert s[..|p|] == p;
    } else {
      assert s[1..][i - 1..i - 1 + |p|] == s[i..i + |p|];
      ContainsAt(s[1..], p, i - 1);
    }
  }

  /** Lowercasing commutes with slicing. */
  lemma LowerSlice(s: string, lo: nat, hi: nat)
    requires lo <= hi <= |s|
    ensures Lower(s[lo..hi]) == Lower(s)[lo..hi]
  {
    assert forall k :: 0 <= k < hi - lo ==> Lower(s[lo..hi])[k] == LowerChar(s[lo + k]);
  }

  /** The match window of the text, before any newline replacement. */
  lemma WindowIsSlice(text: string, q: string, pos: int)
    requires q != "" && pos == Find(Lower(text), q) && pos >= 0
    ensures var hi := if pos + 200 <= |text| then pos + 200 else |text|;
      NonNeg(pos - 120) <= pos <= hi <= |text| &&
      SnippetWindow(text, q, false, false) == text[NonNeg(pos - 120)..hi]
  {
  }

  /** The BM25 window holds the match it was cut around when the query is
      at most 200 characters long. */
  lemma WindowHoldsMatch(text: string, q: string)
    requires q != "" && |q| <= 200 && Find(Lower(text), q) >= 0
    ensures Contains(Lower(SnippetWindow(text, q, false, false)), q)
  {
    var lt := Lower(text);
    var pos := Find(lt, q);
    assert pos + |q| <= |lt| && lt[pos..pos + |q|] == q;
    var lo := NonNeg(pos - 120);
    var hi := if pos + 200 <= |text| then pos + 200 else |text|;
    WindowIsSlice(text, q, pos);
    SliceHoldsMatch(text, q, pos, lo, hi);
  }

  /** A slice around a match of `q` in the lowercased text holds it. */
  lemma SliceHoldsMatch(text: string, q: string, pos: nat, lo: nat, hi: nat)
    requires lo <= pos && pos + |q| <= hi <= |text|
    requires Lower(text)[pos..pos + |q|] == q
    ensures Contains(Lower(text[lo..hi]), q)
  {
    var lt := Lower(text);
    LowerSlice(text, lo, hi);
    SliceOfSlice(lt, lo, hi, pos - lo, pos - lo + |q|);
    ContainsAt(lt[lo..hi], q, pos - lo);
  }

  // ---------------------------------------------------------------- stable descending order

  /** Indices into `scores`. */
  predicate InRange(idx: seq<nat>, n: nat) {
    forall a :: 0 <= a < |idx| ==> idx[a] < n
  }

  /** Descending by score, ties in index order: the order of
      `sorted(range(n), key=scores.__getitem__, reverse=True)`, Python's sort
      being stable also in reverse. */
  predicate Ranked(idx: seq<nat>, scores: seq<real>)
    requires InRange(idx, |scores|)
  {
    forall a, b :: 0 <= a < b < |idx| ==>
      scores[idx[a]] > scores[idx[b]] || (scores[idx[a]] == scores[idx[b]] && idx[a] < idx[b])
  }

  /** Inserts the index `i` after every index whose score is at least its own. */
  function Insert(idx: seq<nat>, i: nat, scores: seq<real>): (r: seq<nat>)
    requires InRange(idx, |scores|) && i < |scores|
    ensures |r| == |idx| + 1 && InRange(r, |scores|)
    ensures forall x :: x in r <==> x in idx || x == i
    decreases |idx|
  {
    if |idx| == 0 then [i]
    else if scores[idx[0]] < scores[i] then [i] + idx
    else [idx[0]] + Insert(idx[1..], i, scores)
  }

  /** The stable descending order of the first `n` indices. */
  function RankOrder(scores: seq<real>, n: nat): (r: seq<nat>)
    requires n <= |scores|
    ensures |r| == n && InRange(r, |scores|)
    ensures forall x :: x in r <==> 0 <= x < n
    decreases n
  {
    if n == 0 then [] else Insert(RankOrder(scores, n - 1), n - 1, scores)
  }

  /** The tail of a ranked list is ranked. */
  lemma RankedTail(idx: seq<nat>, scores: seq<real>)
    requires InRange(idx, |scores|) && Ranked(idx, scores) && |idx| > 0
    ensures InRange(idx[1..], |scores|) && Ranked(idx[1..], scores)
  {
    var tail := idx[1..];
    forall a, b | 0 <= a < b < |tail|
      ensures scores[tail[a]] > scores[tail[b]] || (scores[tail[a]] == scores[tail[b]] && tail[a] < tail[b])
    {
      assert tail[a] == idx[a + 1] && tail[b] == idx[b + 1];
    }
  }

  /** An index scoring above the head of a ranked list can go first. */
  lemma ConsRanked(idx: seq<nat>, i: nat, scores: seq<real>)
    requires InRange(idx, |scores|) && i < |scores| && Ranked(idx, scores)
    requires |idx| > 0 && scores[idx[0]] < scores[i]
    ensures InRange([i] + idx, |scores|) && Ranked([i] + idx, scores)
  {
    var r := [i] + idx;
    forall a, b | 0 <= a < b < |r|
      ensures scores[r[a]] > scores[r[b]] || (scores[r[a]] == scores[r[b]] && r[a] < r[b])
    {
      assert r[b] == idx[b - 1];
      if a == 0 {
        assert b - 1 == 0 || scores[idx[0]] >= scores[idx[b - 1]];
      } else {
        assert r[a] == idx[a - 1];
      }
    }
  }

  /** The head of a ranked list stays first before a ranked rest that holds
      only its later indices and a larger index scoring at most its own. */
  lemma KeepHeadRanked(idx: seq<nat>, i: nat, scores: seq<real>, rest: seq<nat>)
    requires InRange(idx, |scores|) && i < |scores| && Ranked(idx, scores) && |idx| > 0
    requires forall a :: 0 <= a < |idx| ==> idx[a] < i
    requires scores[idx[0]] >= scores[i]
    requires InRange(rest, |scores|) && Ranked(rest, scores)
    requires forall x :: x in rest <==> x in idx[1..] || x == i
    ensures InRange([idx[0]] + rest, |scores|) && Ranked([idx[0]] + rest, scores)
  {
    var r := [idx[0]] + rest;
    forall a, b | 0 <= a < b < |r|
      ensures scores[r[a]] > scores[r[b]] || (scores[r[a]] == scores[r[b]] && r[a] < r[b])
    {
      assert r[b] == rest[b - 1];
      if a == 0 {
        assert rest[b - 1] in rest;
        if rest[b - 1] != i {
          var c :| 0 <= c < |idx| - 1 && idx[1..][c] == rest[b - 1];
          assert idx[1..][c] == idx[c + 1];
        }
      } else {
        assert r[a] == rest[a - 1];
      }
    }
  }

  /** Inserting an index larger than all present keeps the order. */
  lemma {:induction false} InsertRanked(idx: seq<nat>, i: nat, scores: seq<real>)
    requires InRange(idx, |scores|) && i < |scores| && Ranked(idx, scores)
    requires forall a :: 0 <= a < |idx| ==> idx[a] < i
    ensures Ranked(Insert(idx, i, scores), scores)
    decreases |idx|
  {
    if |idx| > 0 {
      if scores[idx[0]] < scores[i] {
        ConsRanked(idx, i, scores);
      } else {
        RankedTail(idx, scores);
        assert forall a :: 0 <= a < |idx| - 1 ==> idx[1..][a] == idx[a + 1];
        InsertRanked(idx[1..], i, scores);
        KeepHeadRanked(idx, i, scores, Insert(idx[1..], i, scores));
      }
    }
  }

  /** `RankOrder` is a stable descending order of all the indices. */
  lemma {:induction false} RankOrderRanked(scores: seq<real>, n: nat)
    requires n <= |scores|
    ensures Ranked(RankOrder(scores, n), scores)
    decreases n
  {
    if n > 0 {
      var prev := RankOrder(scores, n - 1);
      RankOrderRanked(scores, n - 1);
      forall a | 0 <= a < |prev| ensures prev[a] < n - 1 {
        assert prev[a] in prev;
      }
      InsertRanked(prev, n - 1, scores);
    }
  }

  /** The first `k` of the ranked indices (`[:k]`). */
  function TopK(scores: seq<real>, k: nat): (idx: seq<nat>)
    ensures |idx| == if k <= |scores| then k else |scores|
    ensures InRange(idx, |scores|)
  {
    var all := RankOrder(scores, |scores|);
    if k <= |all| then all[..k] else all
  }

  /** The top `k` are ranked, each index at most once, and no index left out
      scores higher than one kept: `min(k, n)` hits, zero scores included. */
  lemma TopKShape(scores: seq<real>, k: nat)
    ensures Ranked(TopK(scores, k), scores)
    ensures forall a, b :: 0 <= a < b < |TopK(scores, k)| ==> TopK(scores, k)[a] != TopK(scores, k)[b]
    ensures forall j :: 0 <= j < |scores| && j !in TopK(scores, k) ==>
      forall a :: 0 <= a < |TopK(scores, k)| ==> scores[TopK(scores, k)[a]] >= scores[j]
  {
    var all := RankOrder(scores, |scores|);
    RankOrderRanked(scores, |scores|);
    var top := TopK(scores, k);
    assert forall a :: 0 <= a < |top| ==> top[a] == all[a];
    assert forall a :: 0 <= a < |top| ==> all[a] in top;
    forall j | 0 <= j < |scores| && j !in top
      ensures forall a :: 0 <= a < |top| ==> scores[top[a]] >= scores[j]
    {
      assert j in all;
      var c :| 0 <= c < |all| && all[c] == j;
      assert c >= |top|;
      forall a | 0 <= a < |top| ensures scores[top[a]] >= scores[j] {
        assert a < c;
      }
    }
  }

  // ---------------------------------------------------------------- _rank_hits_bm25

  /** Which root a record's page is displayed under. */
  function SiteRoot(site: string): Root {
    if site == "pydantic_ai" then DocRootAi else DocRoot
  }

  /** The hit for one index record: its title, its display url, its anchor
      and the cleaned window around the space-joined query tokens `q`. */
  function Bm25Hit(r: Record, q: string, noise: string -> string): Hit {
    Hit(r.title, DisplayUrl(SiteRoot(r.sourceSite), r.page), r.anchor,
        CleanSnippet(noise, SnippetWindow(r.mdText, q, false, false)), None)
  }

  /** The hit maker of one query, as a value. */
  function Bm25Maker(q: string, noise: string -> string): Record -> Hit {
    (r: Record) => Bm25Hit(r, q, noise)
  }

  /** `_rank_hits_bm25(query, k)`: `scores` are the BM25 scores of the
      query's tokens, one per record. */
  function RankBm25Spec(query: string, scores: seq<real>, records: seq<Record>, k: nat, noise: string -> string): seq<Hit>
    requires |scores| == |records|
  {
    Pick(TopK(scores, k), records, Bm25Maker(Join(Tokenize(query), " "), noise))
  }

  /** `_rank_hits_bm25`: the loop over the top indices. */
  method RankHitsBm25(query: string, scores: seq<real>, records: seq<Record>, k: nat, noise: string -> string)
    returns (out: seq<Hit>)
    requires |scores| == |records|
    ensures out == RankBm25Spec(query, scores, records, k, noise)
  {
    var toks := Tokenize(query);
    var idxs := TopK(scores, k);
    var q := Join(toks, " ");
    out := [];
    for j := 0 to |idxs|
      invariant out == Pick(idxs[..j], records, Bm25Maker(q, noise))
    {
      PickSnoc(idxs, records, Bm25Maker(q, noise), j);
      var hit := Bm25Hit(records[idxs[j]], q, noise);
      out := out + [hit];
    }
    assert idxs[..|idxs|] == idxs;
  }

  /** The BM25 hits are `min(k, len(records))` distinct records in
      descending score order, ties in record order. */
  lemma RankBm25Shape(query: string, scores: seq<real>, records: seq<Record>, k: nat, noise: string -> string)
    requires |scores| == |records|
    ensures var out := RankBm25Spec(query, scores, records, k, noise);
      var idx := TopK(scores, k);
      |out| == (if k <= |records| then k else |records|) &&
      Ranked(idx, scores) &&
      (forall j :: 0 <= j < |out| ==> out[j] == Bm25Hit(records[idx[j]], Join(Tokenize(query), " "), noise))
  {
    TopKShape(scores, k);
  }

  // ---------------------------------------------------------------- _rank_hits_mkdocs

  /** A page of the MkDocs search index. */
  datatype Doc = Doc(location: string, title: string, text: string, headings: seq<string>)

  /** `3 * title.count(q) + text.count(q)` on the lowercased title and text. */
  function MkdocsScore(d: Doc, q: string): (n: nat)
    ensures q == "" ==> n > 0
    ensures q != "" ==> (n > 0 <==> Contains(Lower(d.title), q) || Contains(Lower(d.text), q))
  {
    3 * Count(Lower(d.title), q) + Count(Lower(d.text), q)
  }

  /** `if score:` — the test that keeps a page. */
  function Scoring(q: string): Doc -> bool {
    (d: Doc) => MkdocsScore(d, q) > 0
  }

  /** The pages that score, in page order. */
  function Scored(docs: seq<Doc>, q: string): (r: seq<Doc>)
    ensures forall i :: 0 <= i < |r| ==> MkdocsScore(r[i], q) > 0
    ensures forall d :: d in docs && MkdocsScore(d, q) > 0 ==> d in r
    ensures IsSubsequence(r, docs)
  {
    FilterIsSubsequence(docs, Scoring(q));
    Filter(docs, Scoring(q))
  }

  /** The score of a page as the sort key. */
  function ScoreKey(q: string): Doc -> real {
    (d: Doc) => MkdocsScore(d, q) as real
  }

  /** The hit for one page: `aiHas(rel)` says whether the Pydantic-AI root
      holds the page's location. */
  function MkdocsHit(d: Doc, q: string, aiHas: string -> bool, noise: string -> string): (h: Hit)
    ensures h.title == d.title && h.anchor == None && h.headingTitle == None
    ensures h.url == DisplayUrl(if aiHas(d.location) then DocRootAi else DocRoot, d.location)
    ensures |h.snippet| <= SnipMax
  {
    var root := if aiHas(d.location) then DocRootAi else DocRoot;
    Hit(d.title, DisplayUrl(root, d.location), None, CleanSnippet(noise, SnippetWindow(d.text, q, true, true)), None)
  }

  /** The hit maker of one query, as a value. */
  function MkdocsMaker(q: string, aiHas: string -> bool, noise: string -> string): Doc -> Hit {
    (d: Doc) => MkdocsHit(d, q, aiHas, noise)
  }

  /** `_rank_hits_mkdocs(query, k)`. */
  function RankMkdocsSpec(query: string, docs: seq<Doc>, k: nat, aiHas: string -> bool, noise: string -> string): seq<Hit> {
    var q := Lower(query);
    var scored := Scored(docs, q);
    var idx := TopK(Map(scored, ScoreKey(q)), k);
    Pick(idx, scored, MkdocsMaker(q, aiHas, noise))
  }

  /** The scoring loop of `_rank_hits_mkdocs`. */
  method ScoreDocs(docs: seq<Doc>, q: string) returns (scored: seq<Doc>)
    ensures scored == Scored(docs, q)
  {
    scored := [];
    for i := 0 to |docs|
      invariant scored == Filter(docs[..i], Scoring(q))
    {
      TakeSnoc(docs, i);
      FilterSnoc(docs[..i], docs[i], Scoring(q));
      var d := docs[i];
      var score := 3 * Count(Lower(d.title), q) + Count(Lower(d.text), q);
      if score != 0 {
        scored := scored + [d];
      }
    }
    TakeAll(docs);
  }

  /** `_rank_hits_mkdocs`: scoring, the stable sort, and the hit loop. */
  method RankHitsMkdocs(query: string, docs: seq<Doc>, k: nat, aiHas: string -> bool, noise: string -> string)
    returns (out: seq<Hit>)
    ensures out == RankMkdocsSpec(query, docs, k, aiHas, noise)
  {
    var q := Lower(query);
    var scored := ScoreDocs(docs, q);
    var idx := TopK(Map(scored, ScoreKey(q)), k);
    out := [];
    for j := 0 to |idx|
      invariant out == Pick(idx[..j], scored, MkdocsMaker(q, aiHas, noise))
    {
      PickSnoc(idx, scored, MkdocsMaker(q, aiHas, noise), j);
      var hit := MkdocsHit(scored[idx[j]], q, aiHas, noise);
      out := out + [hit];
    }
    assert idx[..|idx|] == idx;
  }

  /** Only pages that score are hits, in descending score order with ties in
      page order, `min(k, #scoring pages)` of them; an empty query is counted
      `len + 1` times in every text, so every page scores. */
  lemma RankMkdocsShape(query: string, docs: seq<Doc>, k: nat, aiHas: string -> bool, noise: string -> string)
    ensures var q := Lower(query);
      var scored := Scored(docs, q);
      var out := RankMkdocsSpec(query, docs, k, aiHas, noise);
      |out| == (if k <= |scored| then k else |scored|) &&
      Ranked(TopK(Map(scored, ScoreKey(q)), k), Map(scored, ScoreKey(q))) &&
      (query == "" ==> scored == docs)
  {
    var q := Lower(query);
    TopKShape(Map(Scored(docs, q), ScoreKey(q)), k);
    if query == "" {
      Seqs.FilterAll(docs, Scoring(q));
    }
  }

  // ---------------------------------------------------------------- t_search

  /** `max(1, min(50, int(k)))`, or 10 when `int(k)` raises (`None`). */
  function ClampK(k: Option<int>): (r: nat)
    ensures 1 <= r <= 50
    ensures k.None? ==> r == 10
    ensures k.Some? && 1 <= k.value <= 50 ==> r == k.value
    ensures k.Some? && k.value > 50 ==> r == 50
    ensures k.Some? && k.value < 1 ==> r == 1
  {
    if k.None? then 10
    else if k.value > 50 then 50
    else if k.value < 1 then 1
    else k.value
  }

  /** The url prefix of a site filter; only the two site names filter. */
  function SitePrefix(site: Option<string>): Option<string> {
    if site == Some("pydantic_ai") then Some(LocalBaseAi)
    else if site == Some("pydantic") then Some(LocalBaseP)
    else None
  }

  /** A hit passes the site filter. */
  predicate SiteOk(h: Hit, site: Option<string>) {
    SitePrefix(site).Some? ==> StartsWith(h.url, SitePrefix(site).value)
  }

  /** The site test as a value. */
  function SiteTest(site: Option<string>): Hit -> bool {
    (h: Hit) => SiteOk(h, site)
  }

  /** The site filter: the hits whose url starts with the site's local base,
      in order; every hit when `site` names neither site. */
  function SiteFilter(hits: seq<Hit>, site: Option<string>): (r: seq<Hit>)
    ensures forall i :: 0 <= i < |r| ==> SiteOk(r[i], site)
    ensures forall h :: h in hits && SiteOk(h, site) ==> h in r
    ensures IsSubsequence(r, hits)
    ensures SitePrefix(site).None? ==> r == hits
  {
    FilterIsSubsequence(hits, SiteTest(site));
    if SitePrefix(site).None? then
      Seqs.FilterAll(hits, SiteTest(site));
      hits
    else Filter(hits, SiteTest(site))
  }

  /** The page path the heading filter looks up: what follows the last local
      base in the url. */
  function HitPage(url: string): string {
    var parts := if Contains(url, "pydantic-ai") then Split(url, LocalBaseAi) else Split(url, LocalBaseP);
    if |parts| == 0 then "" else parts[|parts| - 1]
  }

  /** The first heading title containing `hq`, lowercased. */
  function MatchTitle(titles: seq<string>, hq: string): (r: Option<string>)
    ensures r.Some? ==> r.value in titles && Contains(Lower(r.value), hq)
    ensures r.None? ==> forall i :: 0 <= i < |titles| ==> !Contains(Lower(titles[i]), hq)
    decreases |titles|
  {
    if |titles| == 0 then None
    else if Contains(Lower(titles[0]), hq) then Some(titles[0])
    else MatchTitle(titles[1..], hq)
  }

  /** The loop over a page's headings that stops at the first match. */
  method FirstHeading(titles: seq<string>, hq: string) returns (m: Option<string>)
    ensures m == MatchTitle(titles, hq)
  {
    m := None;
    var i := 0;
    while i < |titles|
      invariant 0 <= i <= |titles|
      invariant MatchTitle(titles[i..], hq) == MatchTitle(titles, hq)
    {
      if Contains(Lower(titles[i]), hq) {
        m := Some(titles[i]);
        return;
      }
      assert titles[i..][1..] == titles[i + 1..];
      i := i + 1;
    }
  }

  /** The heading matched for a hit: `headingsOf(rel)` gives the heading
      titles of the index page at `rel`, `None` when there is no index or
      no such page. */
  function HitMatch(h: Hit, hq: string, headingsOf: string -> Option<seq<string>>): (m: Option<string>)
    ensures m.Some? ==> Contains(Lower(m.value), hq)
  {
    var hs := headingsOf(HitPage(h.url));
    if hs.None? then None else MatchTitle(hs.value, hq)
  }

  /** A hit passes the heading filter when a heading matched (a non-empty
      title) or its lowercased snippet contains `hq`. */
  predicate HeadingKeep(h: Hit, hq: string, headingsOf: string -> Option<seq<string>>) {
    var m := HitMatch(h, hq, headingsOf);
    (m.Some? && m.value != "") || Contains(Lower(h.snippet), hq)
  }

  /** The heading test as a value. */
  function HeadingTest(hq: string, headingsOf: string -> Option<seq<string>>): Hit -> bool {
    (h: Hit) => HeadingKeep(h, hq, headingsOf)
  }

  /** `h["heading_title"] = match_title`. */
  function Annotate(hq: string, headingsOf: string -> Option<seq<string>>): Hit -> Hit {
    (h: Hit) => h.(headingTitle := HitMatch(h, hq, headingsOf))
  }

  /** The heading filter, which records the matched heading in each hit it keeps. */
  function HeadingFilterSpec(hits: seq<Hit>, hq: string, headingsOf: string -> Option<seq<string>>): seq<Hit> {
    Map(Filter(hits, HeadingTest(hq, headingsOf)), Annotate(hq, headingsOf))
  }

  /** One hit more for the heading filter. */
  lemma HeadingFilterSnoc(hits: seq<Hit>, i: nat, hq: string, headingsOf: string -> Option<seq<string>>)
    requires i < |hits|
    ensures HeadingFilterSpec(hits[..i + 1], hq, headingsOf) ==
      HeadingFilterSpec(hits[..i], hq, headingsOf) +
      (if HeadingKeep(hits[i], hq, headingsOf) then [hits[i].(headingTitle := HitMatch(hits[i], hq, headingsOf))] else [])
  {
    var h := hits[i];
    TakeSnoc(hits, i);
    FilterSnoc(hits[..i], h, HeadingTest(hq, headingsOf));
    var tail := if HeadingKeep(h, hq, headingsOf) then [h] else [];
    MapAppend(Filter(hits[..i], HeadingTest(hq, headingsOf)), tail, Annotate(hq, headingsOf));
    if HeadingKeep(h, hq, headingsOf) {
      assert Map(tail, Annotate(hq, headingsOf)) == [h.(headingTitle := HitMatch(h, hq, headingsOf))];
    } else {
      assert Map(tail, Annotate(hq, headingsOf)) == [];
    }
  }

  /** The loop of the heading filter. */
  method HeadingFilter(hits: seq<Hit>, hq: string, headingsOf: string -> Option<seq<string>>) returns (filtered: seq<Hit>)
    ensures filtered == HeadingFilterSpec(hits, hq, headingsOf)
  {
    filtered := [];
    for i := 0 to |hits|
      invariant filtered == HeadingFilterSpec(hits[..i], hq, headingsOf)
    {
      HeadingFilterSnoc(hits, i, hq, headingsOf);
      var h := hits[i];
      var page := headingsOf(HitPage(h.url));
      var matchTitle: Option<string> := None;
      if page.Some? {
        matchTitle := FirstHeading(page.value, hq);
      }
      if (matchTitle.Some? && matchTitle.value != "") || Contains(Lower(h.snippet), hq) {
        filtered := filtered + [h.(headingTitle := matchTitle)];
      }
    }
    TakeAll(hits);
  }

  /** Forgets the heading a filter recorded. */
  function Unheaded(h: Hit): Hit { h.(headingTitle := None) }

  /** What the heading filter leaves says why it was kept. */
  predicate HeadingOk(h: Hit, hq: string) {
    ((h.headingTitle.Some? && h.headingTitle.value != "") || Contains(Lower(h.snippet), hq)) &&
    (h.headingTitle.Some? ==> Contains(Lower(h.headingTitle.value), hq))
  }

  /** The heading filter keeps hits in order, changes nothing but their
      heading, keeps the site filter's guarantee, and every hit it keeps
      matched a heading or holds the heading text in its snippet. */
  lemma HeadingFilterShape(hits: seq<Hit>, hq: string, headingsOf: string -> Option<seq<string>>, site: Option<string>)
    ensures var r := HeadingFilterSpec(hits, hq, headingsOf);
      IsSubsequence(Map(r, Unheaded), Map(hits, Unheaded)) &&
      (forall i :: 0 <= i < |r| ==> HeadingOk(r[i], hq)) &&
      (forall h :: h in hits && HeadingKeep(h, hq, headingsOf) ==> Annotate(hq, headingsOf)(h) in r) &&
      ((forall i :: 0 <= i < |hits| ==> SiteOk(hits[i], site)) ==> forall i :: 0 <= i < |r| ==> SiteOk(r[i], site))
  {
    var kept := Filter(hits, HeadingTest(hq, headingsOf));
    var r := HeadingFilterSpec(hits, hq, headingsOf);
    FilterIsSubsequence(hits, HeadingTest(hq, headingsOf));
    assert Map(r, Unheaded) == Map(kept, Unheaded);
    MapSubsequence(kept, hits, Unheaded);
    forall i | 0 <= i < |r| ensures HeadingOk(r[i], hq) {
      assert HeadingKeep(kept[i], hq, headingsOf);
    }
    forall h | h in hits && HeadingKeep(h, hq, headingsOf) ensures Annotate(hq, headingsOf)(h) in r {
      assert h in kept;
      var j :| 0 <= j < |kept| && kept[j] == h;
      assert r[j] == Annotate(hq, headingsOf)(h);
    }
    if forall i :: 0 <= i < |hits| ==> SiteOk(hits[i], site) {
      FilterPreserves(hits, HeadingTest(hq, headingsOf), SiteTest(site));
    }
  }

  /** Every whitespace-separated keyword, lowercased, occurs in the lowercased
      title and snippet. */
  predicate KeywordsOk(h: Hit, toks: seq<string>) {
    forall i :: 0 <= i < |toks| ==> Contains(Lower(h.title + " " + h.snippet), Lower(toks[i]))
  }

  /** The keyword test as a value. */
  function KeywordTest(toks: seq<string>): Hit -> bool {
    (h: Hit) => KeywordsOk(h, toks)
  }

  /** The keyword filter: `re.split(r"\s+", keywords.strip())` without its
      empty pieces is the list of whitespace-separated words. */
  function KeywordFilter(hits: seq<Hit>, keywords: string): (r: seq<Hit>)
    ensures forall i :: 0 <= i < |r| ==> KeywordsOk(r[i], SplitWhitespace(keywords))
    ensures forall h :: h in hits && KeywordsOk(h, SplitWhitespace(keywords)) ==> h in r
    ensures IsSubsequence(r, hits)
  {
    FilterIsSubsequence(hits, KeywordTest(SplitWhitespace(keywords)));
    Filter(hits, KeywordTest(SplitWhitespace(keywords)))
  }

  /** A truthy optional string. */
  predicate Given(o: Option<string>) { o.Some? && o.value != "" }

  /** The heading stage of `t_search`: the heading filter when a heading is given. */
  function HeadingStage(hits: seq<Hit>, heading: Option<string>, headingsOf: string -> Option<seq<string>>, site: Option<string>): (r: seq<Hit>)
    ensures IsSubsequence(Map(r, Unheaded), Map(hits, Unheaded))
    ensures Given(heading) ==> forall i :: 0 <= i < |r| ==> HeadingOk(r[i], Lower(heading.value))
    ensures Given(heading) ==> forall h :: h in hits && HeadingKeep(h, Lower(heading.value), headingsOf) ==>
      Annotate(Lower(heading.value), headingsOf)(h) in r
    ensures !Given(heading) ==> r == hits
    ensures (forall i :: 0 <= i < |hits| ==> SiteOk(hits[i], site)) ==> forall i :: 0 <= i < |r| ==> SiteOk(r[i], site)
  {
    if Given(heading) then
      HeadingFilterShape(hits, Lower(heading.value), headingsOf, site);
      HeadingFilterSpec(hits, Lower(heading.value), headingsOf)
    else
      SubsequenceRefl(Map(hits, Unheaded));
      hits
  }

  /** The keyword stage of `t_search`: the keyword filter when keywords are given. */
  function KeywordStage(hits: seq<Hit>, keywords: Option<string>): (r: seq<Hit>)
    ensures IsSubsequence(r, hits)
    ensures forall i :: 0 <= i < |r| ==> r[i] in hits
    ensures Given(keywords) ==> forall i :: 0 <= i < |r| ==> KeywordsOk(r[i], SplitWhitespace(keywords.value))
    ensures Given(keywords) ==> forall h :: h in hits && KeywordsOk(h, SplitWhitespace(keywords.value)) ==> h in r
    ensures !Given(keywords) ==> r == hits
  {
    if Given(keywords) then
      var r := KeywordFilter(hits, keywords.value);
      SubsequenceMembers(r, hits);
      r
    else
      SubsequenceRefl(hits);
      hits
  }

  /** `hits[:k]`. */
  function Front(hits: seq<Hit>, k: nat): (r: seq<Hit>)
    ensures |r| == if |hits| <= k then |hits| else k
    ensures r == hits[..|r|]
  {
    if |hits| <= k then hits else hits[..k]
  }

  /** What `t_search` returns for the hits `ranked` of the ranker. */
  function SearchSpec(ranked: seq<Hit>, kk: nat, site: Option<string>, heading: Option<string>,
                      keywords: Option<string>, headingsOf: string -> Option<seq<string>>): seq<Hit>
  {
    Front(KeywordStage(HeadingStage(SiteFilter(ranked, site), heading, headingsOf, site), keywords), kk)
  }

  /** What every hit `t_search` returns satisfies. */
  predicate ResultOk(h: Hit, site: Option<string>, heading: Option<string>, keywords: Option<string>) {
    SiteOk(h, site) &&
    (Given(heading) ==> HeadingOk(h, Lower(heading.value))) &&
    (Given(keywords) ==> KeywordsOk(h, SplitWhitespace(keywords.value)))
  }

  /** At most `k` results, in the ranker's order and taken from its hits (up
      to the recorded heading), each passing every filter that was asked for. */
  lemma SearchShape(ranked: seq<Hit>, kk: nat, site: Option<string>, heading: Option<string>,
                    keywords: Option<string>, headingsOf: string -> Option<seq<string>>)
    ensures var r := SearchSpec(ranked, kk, site, heading, keywords, headingsOf);
      |r| <= kk &&
      IsSubsequence(Map(r, Unheaded), Map(ranked, Unheaded)) &&
      forall i :: 0 <= i < |r| ==> ResultOk(r[i], site, heading, keywords)
  {
    var s1 := SiteFilter(ranked, site);
    var s2 := HeadingStage(s1, heading, headingsOf, site);
    var s3 := KeywordStage(s2, keywords);
    var r := Front(s3, kk);
    MapSubsequence(s1, ranked, Unheaded);
    SubsequenceTrans(Map(s2, Unheaded), Map(s1, Unheaded), Map(ranked, Unheaded));
    MapSubsequence(s3, s2, Unheaded);
    SubsequenceTrans(Map(s3, Unheaded), Map(s2, Unheaded), Map(ranked, Unheaded));
    PrefixIsSubsequence(s3, |r|);
    MapSubsequence(r, s3, Unheaded);
    SubsequenceTrans(Map(r, Unheaded), Map(s3, Unheaded), Map(ranked, Unheaded));
    forall i | 0 <= i < |r| ensures ResultOk(r[i], site, heading, keywords) {
      assert r[i] == s3[i];
      var j :| 0 <= j < |s2| && s2[j] == s3[i];
      assert SiteOk(s2[j], site);
    }
  }

  /** `t_search`: `ranker(n)` stands for the ranker in use asked for `n` hits. */
  method TSearch(k: Option<int>, ranker: nat -> seq<Hit>, site: Option<string>, heading: Option<string>,
                 keywords: Option<string>, headingsOf: string -> Option<seq<string>>)
    returns (results: seq<Hit>)
    ensures results == SearchSpec(ranker(3 * ClampK(k)), ClampK(k), site, heading, keywords, headingsOf)
  {
    var kk := ClampK(k);
    var ranked := ranker(kk * 3);
    var hits := SiteFilter(ranked, site);
    if heading.Some? && heading.value != "" {
      var hq := Lower(heading.value);
      hits := HeadingFilter(hits, hq, headingsOf);
    }
    if keywords.Some? && keywords.value != "" {
      hits := KeywordFilter(hits, keywords.value);
    }
    results := Front(hits, kk);
  }
}
