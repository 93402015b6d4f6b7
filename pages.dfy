/** The page side of the documentation server (mcp.py): the remote-url guard,
    the mapping of a url or path to a documentation root and a clean relative
    path, the display url, and the extraction of one section of an HTML page
    by its anchor. */
module Pages {
  import opened Wrappers
  import opened Strings
  import opened Seqs

  /** The two documentation roots, `DOC_ROOT` and `DOC_ROOT_AI`. */
  datatype Root = DocRoot | DocRootAi

  /** The exceptions the page tools raise: the `ValueError` of the remote
      guard and the `FileNotFoundError` of `_read_page`. */
  datatype PageError = RemoteDisabled | PageNotFound(rel: string)

  const BasePydantic: string := "https://docs.pydantic.dev/latest/"
  const BasePydanticAi: string := "https://ai.pydantic.dev/"
  const LocalBaseP: string := "local://pydantic/"
  const LocalBaseAi: string := "local://pydantic-ai/"

  /** `MAX_SECTION`: the longest section `_extract_section` returns. */
  const MaxSection := 4000

  // ---------------------------------------------------------------- _deny_remote

  /** The characters `urlparse` accepts in a scheme. */
  predicate IsSchemeChar(c: char) {
    IsAsciiUpper(c) || IsAsciiLower(c) || IsDigit(c) || c == '+' || c == '-' || c == '.'
  }

  /** `urlparse(s).scheme`: the lowercased text before the first `:` when it
      starts with an ASCII letter and is made of scheme characters, else "". */
  function UrlScheme(s: string): (r: string)
    ensures r != "" ==> var i := Find(s, ":"); 0 < i && r == Lower(s[..i]) && s[i] == ':'
  {
    var i := Find(s, ":");
    if 0 < i && (IsAsciiUpper(s[0]) || IsAsciiLower(s[0])) && forall j :: 0 <= j < i ==> IsSchemeChar(s[j])
    then Lower(s[..i]) else ""
  }

  /** `_deny_remote(s)` raises: offline, an http or https url outside the two
      known documentation bases. */
  predicate RemoteDenied(offline: bool, s: string) {
    offline && (UrlScheme(s) == "http" || UrlScheme(s) == "https") &&
    !StartsWith(s, BasePydantic) && !StartsWith(s, BasePydanticAi)
  }

  /** The guard lets the two documentation bases through, lets everything
      through when not offline, and stops only http and https urls. */
  lemma RemoteDeniedCases(offline: bool, s: string)
    ensures StartsWith(s, BasePydantic) || StartsWith(s, BasePydanticAi) ==> !RemoteDenied(offline, s)
    ensures !offline ==> !RemoteDenied(offline, s)
    ensures RemoteDenied(offline, s) ==> offline && |s| > 4 && Lower(s[..4]) == "http"
  {
    if RemoteDenied(offline, s) {
      var i := Find(s, ":");
      assert Lower(s[..i])[..4] == "http";
      assert Lower(s[..4]) == Lower(s[..i])[..4];
    }
  }

  /** A url with the scheme `local` is never denied. */
  lemma LocalNotDenied(offline: bool, s: string, base: string)
    requires base == LocalBaseP || base == LocalBaseAi
    requires StartsWith(s, base)
    ensures !RemoteDenied(offline, s)
  {
    RemoteDeniedCases(offline, s);
    PrefixChar(s, base, 0);
    if |s| > 4 {
      assert Lower(s[..4])[0] == LowerChar(s[0]);
    }
  }

  /** A string that starts with `p` has the characters of `p` in front. */
  lemma PrefixChar(s: string, p: string, i: nat)
    requires StartsWith(s, p) && i < |p|
    ensures s[i] == p[i]
  {
    assert s[..|p|][i] == s[i];
  }

  // ---------------------------------------------------------------- _safe_rel_from_url

  /** No `..` anywhere in `s`. */
  predicate NoDoubleDot(s: string) {
    forall i :: 0 <= i < |s| - 1 ==> !(s[i] == '.' && s[i + 1] == '.')
  }

  /** `rel.split("#", 1)[0].lstrip("/").replace("..", "")`. */
  function CleanRel(rel: string): (r: string)
    ensures '#' !in r && NoDoubleDot(r)
  {
    var a := Split(rel, "#")[0];
    var b := LStripChar(a, '/');
    SplitFirstLacks(rel, '#');
    SuffixLacks(a, |a| - |b|, '#');
    ReplaceLacks(b, "..", '#');
    ReplaceDotsClean(b);
    Replace(b, "..", "")
  }

  /** Leftmost, non-overlapping removal of `..` leaves no `..` behind: a kept
      `.` is never followed by another `.` of the result. */
  lemma {:induction false} ReplaceDotsClean(s: string)
    ensures NoDoubleDot(Replace(s, "..", ""))
    ensures |Replace(s, "..", "")| > 0 && !StartsWith(s, "..") ==> Replace(s, "..", "")[0] == s[0]
    decreases |s|
  {
    if StartsWith(s, "..") {
      ReplaceDotsClean(s[2..]);
    } else if |s| > 0 {
      var rest := Replace(s[1..], "..", "");
      ReplaceDotsClean(s[1..]);
      assert Replace(s, "..", "") == [s[0]] + rest;
      if s[0] == '.' && |rest| > 0 {
        assert |s| >= 2;
        assert s[..2] == [s[0], s[1]];
        assert !StartsWith(s[1..], "..");
        assert rest[0] == s[1];
      }
      ConsNoDoubleDot(s[0], rest);
    }
  }

  /** Putting a character in front of a string without `..` makes one only
      with two dots. */
  lemma ConsNoDoubleDot(c: char, r: string)
    requires NoDoubleDot(r) && (c == '.' && |r| > 0 ==> r[0] != '.')
    ensures NoDoubleDot([c] + r)
  {
    var s := [c] + r;
    forall i | 0 <= i < |s| - 1 ensures !(s[i] == '.' && s[i + 1] == '.') {
      if i > 0 {
        assert s[i] == r[i - 1] && s[i + 1] == r[i];
      }
    }
  }

  /** Removing `..` from a string without one changes nothing. */
  lemma {:induction false} ReplaceDotsAbsent(s: string)
    requires NoDoubleDot(s)
    ensures Replace(s, "..", "") == s
    decreases |s|
  {
    if |s| > 0 {
      if |s| >= 2 {
        assert s[..2] == [s[0], s[1]];
        assert !(s[0] == '.' && s[1] == '.');
      }
      assert NoDoubleDot(s[1..]) by {
        forall i | 0 <= i < |s[1..]| - 1 ensures !(s[1..][i] == '.' && s[1..][i + 1] == '.') {
          assert s[1..][i] == s[i + 1] && s[1..][i + 1] == s[i + 2];
        }
      }
      ReplaceDotsAbsent(s[1..]);
      HeadTail(s);
    }
  }

  /** Where a relative path that matches none of the four bases is served
      from: the Pydantic-AI root when the path, cleaned, names a file inside
      it (`aiHas`), else the Pydantic root. The check of the Pydantic root
      cannot change the outcome: both of its branches choose that root. */
  function FallbackRoot(s: string, aiHas: string -> bool): Root {
    if aiHas(CleanRel(s)) then DocRootAi else DocRoot
  }

  /** `_safe_rel_from_url(path_or_url)`. */
  function SafeRelFromUrl(pathOrUrl: string, offline: bool, aiHas: string -> bool): (r: Result<(Root, string), PageError>)
    ensures r.Ok? ==> '#' !in r.value.1 && NoDoubleDot(r.value.1)
    ensures r.Err? <==> RemoteDenied(offline, Strip(pathOrUrl))
  {
    var s := Strip(pathOrUrl);
    if RemoteDenied(offline, s) then Err(RemoteDisabled)
    else if StartsWith(s, BasePydantic) then Ok((DocRoot, CleanRel(s[|BasePydantic|..])))
    else if StartsWith(s, BasePydanticAi) then Ok((DocRootAi, CleanRel(s[|BasePydanticAi|..])))
    else if StartsWith(s, LocalBaseP) then Ok((DocRoot, CleanRel(s[|LocalBaseP|..])))
    else if StartsWith(s, LocalBaseAi) then Ok((DocRootAi, CleanRel(s[|LocalBaseAi|..])))
    else Ok((FallbackRoot(s, aiHas), CleanRel(s)))
  }

  /** The Pydantic base maps to the Pydantic root and is cut off. */
  lemma SafeRelBasePydantic(pathOrUrl: string, offline: bool, aiHas: string -> bool)
    requires StartsWith(Strip(pathOrUrl), BasePydantic)
    ensures SafeRelFromUrl(pathOrUrl, offline, aiHas) ==
      Ok((DocRoot, CleanRel(Strip(pathOrUrl)[|BasePydantic|..])))
  {
    RemoteDeniedCases(offline, Strip(pathOrUrl));
  }

  /** The Pydantic-AI base maps to the Pydantic-AI root and is cut off. */
  lemma SafeRelBasePydanticAi(pathOrUrl: string, offline: bool, aiHas: string -> bool)
    requires StartsWith(Strip(pathOrUrl), BasePydanticAi)
    ensures SafeRelFromUrl(pathOrUrl, offline, aiHas) ==
      Ok((DocRootAi, CleanRel(Strip(pathOrUrl)[|BasePydanticAi|..])))
  {
    var s := Strip(pathOrUrl);
    RemoteDeniedCases(offline, s);
    PrefixChar(s, BasePydanticAi, 8);
    assert !StartsWith(s, BasePydantic) by {
      if StartsWith(s, BasePydantic) {
        PrefixChar(s, BasePydantic, 8);
      }
    }
  }

  /** The local Pydantic base maps to the Pydantic root and is cut off. */
  lemma SafeRelLocalPydantic(pathOrUrl: string, offline: bool, aiHas: string -> bool)
    requires StartsWith(Strip(pathOrUrl), LocalBaseP)
    ensures SafeRelFromUrl(pathOrUrl, offline, aiHas) ==
      Ok((DocRoot, CleanRel(Strip(pathOrUrl)[|LocalBaseP|..])))
  {
    var s := Strip(pathOrUrl);
    LocalNotDenied(offline, s, LocalBaseP);
    NotRemoteBases(s, LocalBaseP);
  }

  /** The local Pydantic-AI base maps to the Pydantic-AI root and is cut off. */
  lemma SafeRelLocalPydanticAi(pathOrUrl: string, offline: bool, aiHas: string -> bool)
    requires StartsWith(Strip(pathOrUrl), LocalBaseAi)
    ensures SafeRelFromUrl(pathOrUrl, offline, aiHas) ==
      Ok((DocRootAi, CleanRel(Strip(pathOrUrl)[|LocalBaseAi|..])))
  {
    var s := Strip(pathOrUrl);
    LocalNotDenied(offline, s, LocalBaseAi);
    NotRemoteBases(s, LocalBaseAi);
    PrefixChar(s, LocalBaseAi, 16);
    assert !StartsWith(s, LocalBaseP) by {
      if StartsWith(s, LocalBaseP) {
        PrefixChar(s, LocalBaseP, 16);
      }
    }
  }

  /** A local url starts with neither remote base. */
  lemma NotRemoteBases(s: string, base: string)
    requires base == LocalBaseP || base == LocalBaseAi
    requires StartsWith(s, base)
    ensures !StartsWith(s, BasePydantic) && !StartsWith(s, BasePydanticAi)
  {
    PrefixChar(s, base, 0);
    if StartsWith(s, BasePydantic) {
      PrefixChar(s, BasePydantic, 0);
    }
    if StartsWith(s, BasePydanticAi) {
      PrefixChar(s, BasePydanticAi, 0);
    }
  }

  /** `"../x"` is an unknown relative path whose `/` is stripped before the
      `..` is removed, so it becomes `/x`. */
  lemma DotDotSlash(offline: bool, aiHas: string -> bool)
    ensures SafeRelFromUrl("../x", offline, aiHas) == Ok((FallbackRoot("../x", aiHas), "/x"))
  {
    var s := "../x";
    assert IsStripped(s) by {
      assert s[0] == '.' && s[3] == 'x';
    }
    StripStripped(s);
    assert !RemoteDenied(offline, s) by {
      assert !(IsAsciiUpper(s[0]) || IsAsciiLower(s[0]));
    }
    CleanDotDot();
  }

  /** The cleaning of `"../x"`. */
  lemma CleanDotDot()
    ensures CleanRel("../x") == "/x"
  {
    var s := "../x";
    SplitLacking(s, '#');
    assert LStripChar(s, '/') == s;
    assert s[..2] == "..";
    assert s[2..] == "/x";
    assert "/x"[1..] == "x";
    assert Replace("x", "..", "") == "x";
    assert Replace("/x", "..", "") == "/x";
  }

  /** `_read_page` then strips the leading `/` of `"/x"`. */
  lemma ReadSlashX()
    ensures ReadRel("/x") == "x"
  {
    assert LStripChar("/x", '/') == "x" by {
      assert "/x"[1..] == "x";
    }
    assert Replace("x", "..", "") == "x";
  }

  // ---------------------------------------------------------------- _display_url and _read_page

  /** `_display_url(root, rel)`: the local base of the root, then `rel`. */
  function DisplayUrl(root: Root, rel: string): string {
    (if root == DocRoot then LocalBaseP else LocalBaseAi) + rel
  }

  /** A relative path `_safe_rel_from_url` leaves unchanged. */
  predicate IsCleanRel(rel: string) {
    '#' !in rel && NoDoubleDot(rel) && (|rel| > 0 ==> rel[0] != '/' && !IsSpace(rel[|rel| - 1]))
  }

  /** A displayed url reads back as the root and path it was made from. */
  lemma DisplayUrlRoundTrip(root: Root, rel: string, offline: bool, aiHas: string -> bool)
    requires IsCleanRel(rel)
    ensures SafeRelFromUrl(DisplayUrl(root, rel), offline, aiHas) == Ok((root, rel))
  {
    var base := if root == DocRoot then LocalBaseP else LocalBaseAi;
    var s := base + rel;
    assert s[0] == 'l';
    assert IsStripped(s) by {
      if |rel| > 0 {
        assert s[|s| - 1] == rel[|rel| - 1];
      }
    }
    StripStripped(s);
    assert s[..|base|] == base;
    assert s[|base|..] == rel;
    if root == DocRoot {
      SafeRelLocalPydantic(s, offline, aiHas);
    } else {
      SafeRelLocalPydanticAi(s, offline, aiHas);
    }
    CleanRelOfClean(rel);
  }

  /** A clean relative path is its own cleaning. */
  lemma CleanRelOfClean(rel: string)
    requires IsCleanRel(rel)
    ensures CleanRel(rel) == rel
  {
    SplitLacking(rel, '#');
    assert LStripChar(rel, '/') == rel;
    ReplaceDotsAbsent(rel);
  }

  /** The path `_read_page` opens: `rel.lstrip("/").replace("..", "")`. */
  function ReadRel(rel: string): (r: string)
    ensures NoDoubleDot(r)
  {
    ReplaceDotsClean(LStripChar(rel, '/'));
    Replace(LStripChar(rel, '/'), "..", "")
  }

  /** On a path that `_safe_rel_from_url` returned, the second cleaning only
      strips leading slashes. */
  lemma ReadRelOfSafe(rel: string)
    requires NoDoubleDot(rel)
    ensures ReadRel(rel) == LStripChar(rel, '/')
  {
    var b := LStripChar(rel, '/');
    var k := |rel| - |b|;
    assert NoDoubleDot(b) by {
      forall i | 0 <= i < |b| - 1 ensures !(b[i] == '.' && b[i + 1] == '.') {
        assert b[i] == rel[k + i] && b[i + 1] == rel[k + i + 1];
      }
    }
    ReplaceDotsAbsent(b);
  }

  /** `_read_page`: `files(root, path)` stands for the file system and the
      HTML parser, giving the parsed elements of the file at `path` inside
      `root` when there is one. */
  function ReadPage<D>(root: Root, rel: string, files: (Root, string) -> Option<D>): (r: Result<D, PageError>)
    ensures r.Err? <==> files(root, ReadRel(rel)).None?
    ensures r.Err? ==> r.error == PageNotFound(ReadRel(rel))
  {
    var path := ReadRel(rel);
    match files(root, path)
    case None => Err(PageNotFound(path))
    case Some(d) => Ok(d)
  }

  // ---------------------------------------------------------------- _extract_section

  /** A parsed HTML element in document order: its tag name, its `id` and its
      `get_text(" ", strip=True)`. */
  datatype Elem = Elem(name: string, id: Option<string>, text: string)

  /** The number a string of ASCII digits spells, as `int` reads it. */
  function DecimalValue(s: string): (n: nat)
    requires forall i :: 0 <= i < |s| ==> IsDigit(s[i])
    decreases |s|
  {
    if |s| == 0 then 0
    else
      assert IsDigit(s[|s| - 1]);
      10 * DecimalValue(s[..|s| - 1]) + (s[|s| - 1] as int - '0' as int)
  }

  /** `name[1:].isdigit()` after a leading `h`. */
  predicate IsNumberedTag(name: string) {
    |name| >= 2 && name[0] == 'h' && forall i :: 1 <= i < |name| ==> IsDigit(name[i])
  }

  /** The level of the target: the number after the `h` of a numbered tag,
      else 2. */
  function TargetLevel(name: string): (l: nat)
    ensures !IsNumberedTag(name) ==> l == 2
  {
    if IsNumberedTag(name) then
      assert forall i :: 0 <= i < |name[1..]| ==> name[1..][i] == name[i + 1];
      DecimalValue(name[1..])
    else 2
  }

  /** A heading `h1`…`h6` of level at most `level`: the element that ends the
      section. */
  predicate StopsSection(e: Elem, level: nat) {
    |e.name| == 2 && e.name[0] == 'h' && '1' <= e.name[1] <= '6' &&
    e.name[1] as int - '0' as int <= level
  }

  /** The first element of `rest` that ends a section of level `level`, or
      `|rest|` when none does. */
  function StopIndex(rest: seq<Elem>, level: nat): (n: nat)
    ensures n <= |rest|
    ensures forall j :: 0 <= j < n ==> !StopsSection(rest[j], level)
    ensures n < |rest| ==> StopsSection(rest[n], level)
    decreases |rest|
  {
    if |rest| == 0 || StopsSection(rest[0], level) then 0
    else 1 + StopIndex(rest[1..], level)
  }

  /** The first element whose id is `anchor`: `soup.find(id=anchor)`. The
      `select_one` fallback tried after it is not modelled. */
  function FindId(elems: seq<Elem>, anchor: string): (r: Option<nat>)
    ensures r.None? <==> forall j :: 0 <= j < |elems| ==> elems[j].id != Some(anchor)
    ensures r.Some? ==> r.value < |elems| && elems[r.value].id == Some(anchor)
    ensures r.Some? ==> forall j :: 0 <= j < r.value ==> elems[j].id != Some(anchor)
    decreases |elems|
  {
    if |elems| == 0 then None
    else if elems[0].id == Some(anchor) then Some(0)
    else
      var r := FindId(elems[1..], anchor);
      if r.None? then None else Some(r.value + 1)
  }

  /** The texts of some elements. */
  function Texts(es: seq<Elem>): (ts: seq<string>)
    ensures |ts| == |es|
    ensures forall i :: 0 <= i < |es| ==> ts[i] == es[i].text
  {
    Map(es, (e: Elem) => e.text)
  }

  /** The texts the section collects: the target's, then those of the
      elements after it up to the first heading that ends it. */
  function SectionTexts(elems: seq<Elem>, t: nat): seq<string>
    requires t < |elems|
  {
    var rest := elems[t + 1..];
    [elems[t].text] + Texts(rest[..StopIndex(rest, TargetLevel(elems[t].name))])
  }

  /** `_extract_section(html, anchor)` on the parsed elements of the page. */
  function ExtractSectionSpec(elems: seq<Elem>, anchor: string): string {
    match FindId(elems, anchor)
    case None => ""
    case Some(t) => Take(Join(Filter(SectionTexts(elems, t), NonEmpty), "\n"), MaxSection)
  }

  /** `filter(None, …)` keeps the non-empty strings. */
  predicate NonEmpty(s: string) { s != "" }

  /** The collecting loop of `_extract_section`, from the target `t`. */
  method CollectSection(elems: seq<Elem>, t: nat) returns (out: seq<string>)
    requires t < |elems|
    ensures out == SectionTexts(elems, t)
  {
    var level := 2;
    var name := elems[t].name;
    if |name| >= 2 && name[0] == 'h' && forall i :: 1 <= i < |name| ==> IsDigit(name[i]) {
      level := TargetLevel(name);
    }
    assert level == TargetLevel(name);
    out := [elems[t].text];
    var rest := elems[t + 1..];
    var n := StopIndex(rest, level);
    var i := 0;
    while i < |rest|
      invariant 0 <= i <= n
      invariant out == [elems[t].text] + Texts(rest[..i])
      decreases |rest| - i
    {
      var sib := rest[i];
      if |sib.name| == 2 && sib.name[0] == 'h' && '1' <= sib.name[1] <= '6' && sib.name[1] as int - '0' as int <= level {
        break;
      }
      TakeSnoc(rest, i);
      MapAppend(rest[..i], [sib], (e: Elem) => e.text);
      out := out + [sib.text];
      i := i + 1;
    }
  }

  /** `_extract_section`: the target, the collecting loop, the join and the cut. */
  method ExtractSection(elems: seq<Elem>, anchor: string) returns (text: string)
    ensures text == ExtractSectionSpec(elems, anchor)
  {
    var target := FindId(elems, anchor);
    if target.None? {
      return "";
    }
    var out := CollectSection(elems, target.value);
    text := Take(Join(Filter(out, NonEmpty), "\n"), MaxSection);
  }

  /** A missing anchor gives "", any section is at most `MAX_SECTION` long, and
      a found section is the start of the non-empty texts from the target up
      to the first heading of the same or a higher rank, one per line. */
  lemma ExtractSectionShape(elems: seq<Elem>, anchor: string)
    ensures (forall j :: 0 <= j < |elems| ==> elems[j].id != Some(anchor)) ==> ExtractSectionSpec(elems, anchor) == ""
    ensures |ExtractSectionSpec(elems, anchor)| <= MaxSection
    ensures FindId(elems, anchor).Some? ==> (
      var t := FindId(elems, anchor).value;
      var full := Join(Filter(SectionTexts(elems, t), NonEmpty), "\n");
      ExtractSectionSpec(elems, anchor) == full[..|ExtractSectionSpec(elems, anchor)|] &&
      (|full| <= MaxSection ==> ExtractSectionSpec(elems, anchor) == full))
  {
  }

  /** The section runs over deeper headings: an element after the target is
      collected exactly when no heading of the target's rank or higher comes
      between them. */
  lemma SectionTextsCollect(elems: seq<Elem>, t: nat, j: nat)
    requires t < j < |elems|
    requires forall m :: t < m <= j ==> !StopsSection(elems[m], TargetLevel(elems[t].name))
    ensures elems[j].text in SectionTexts(elems, t)
  {
    var rest := elems[t + 1..];
    var level := TargetLevel(elems[t].name);
    var n := StopIndex(rest, level);
    assert forall k :: 0 <= k < |rest| ==> rest[k] == elems[t + 1 + k];
    assert j - t - 1 < n;
    assert Texts(rest[..n])[j - t - 1] == elems[j].text;
  }

  // ---------------------------------------------------------------- t_section

  /** The tool's answer: `SectionResponse`. */
  datatype SectionResponse = SectionResponse(url: string, path: string, anchor: string, section: string, truncated: bool)

  /** The answer for the page `rel` of `root` once it has been read. */
  function SectionAnswer(root: Root, rel: string, anchor: string, elems: seq<Elem>): (r: SectionResponse)
    ensures r.truncated <==> |r.section| == MaxSection
    ensures r.url == DisplayUrl(root, rel) + "#" + anchor && r.path == rel && r.anchor == anchor
  {
    var section := ExtractSectionSpec(elems, anchor);
    ExtractSectionShape(elems, anchor);
    SectionResponse(DisplayUrl(root, rel) + "#" + anchor, rel, anchor, section, |section| >= MaxSection)
  }

  /** `t_section(path_or_url, anchor)`: the page's root and path, the parsed
      page, the section and its flag. */
  function TSection(pathOrUrl: string, anchor: string, offline: bool, aiHas: string -> bool,
                    files: (Root, string) -> Option<seq<Elem>>): Result<SectionResponse, PageError>
  {
    var sr := SafeRelFromUrl(pathOrUrl, offline, aiHas);
    if sr.Err? then Err(sr.error)
    else
      var page := ReadPage(sr.value.0, sr.value.1, files);
      if page.Err? then Err(page.error)
      else Ok(SectionAnswer(sr.value.0, sr.value.1, anchor, page.value))
  }

  /** `t_section` fails only by the remote guard or a missing file; its
      answer has a clean path, the display url with `#anchor`, and is flagged
      truncated exactly when the section reached `MAX_SECTION`. */
  lemma TSectionShape(pathOrUrl: string, anchor: string, offline: bool, aiHas: string -> bool,
                      files: (Root, string) -> Option<seq<Elem>>)
    ensures var r := TSection(pathOrUrl, anchor, offline, aiHas, files);
      r.Err? && r.error == RemoteDisabled <==> RemoteDenied(offline, Strip(pathOrUrl))
    ensures var r := TSection(pathOrUrl, anchor, offline, aiHas, files);
      var sr := SafeRelFromUrl(pathOrUrl, offline, aiHas);
      r.Ok? ==> (sr.Ok? && r.value.path == sr.value.1 && '#' !in r.value.path && NoDoubleDot(r.value.path) &&
                 r.value.url == DisplayUrl(sr.value.0, sr.value.1) + "#" + anchor &&
                 (r.value.truncated <==> |r.value.section| == MaxSection))
  {
    var sr := SafeRelFromUrl(pathOrUrl, offline, aiHas);
    if sr.Ok? {
      var page := ReadPage(sr.value.0, sr.value.1, files);
      assert page.Err? ==> page.error.PageNotFound?;
    }
  }
}
