/** The text cleaners of the shared utilities: the tail of `to_markdown` and
    `normalize_text`. */
module Utils {
  import opened Strings
  import opened Seqs

  // ---------------------------------------------------------------- to_markdown

  /** Slices, and so `Strip`, only ever keep characters of the original and
      keep the single-plain-space shape. */
  lemma StripKeeps(s: string)
    ensures forall i :: 0 <= i < |Strip(s)| ==> Strip(s)[i] in s
    ensures NoAdjacentSpaces(s) ==> NoAdjacentSpaces(Strip(s))
    ensures OnlyPlainSpaces(s) ==> OnlyPlainSpaces(Strip(s))
  {
    var r := Strip(s);
    if r != "" {
      var a := SpaceRun(s);
      assert forall i :: 0 <= i < |r| ==> r[i] == s[a + i];
      if NoAdjacentSpaces(s) {
        forall i | 0 <= i < |r| - 1 ensures !SpacePair(r, i) {
          assert !SpacePair(s, a + i);
        }
      }
    }
  }

  /** The last steps of `to_markdown`, after the markdown conversion and the
      regular-expression passes: pipes and backticks become spaces, every
      whitespace run becomes one space, and the ends are stripped. */
  function MarkdownTail(m: string): (r: string)
    ensures IsStripped(r) && NoAdjacentSpaces(r) && OnlyPlainSpaces(r)
    ensures '|' !in r && '`' !in r
  {
    var noMarks := ReplaceChar(ReplaceChar(m, '|', ' '), '`', ' ');
    ReplacedMarks(m);
    var collapsed := CollapseWhitespace(noMarks);
    CollapseLacks(noMarks, '|');
    CollapseLacks(noMarks, '`');
    StripKeeps(collapsed);
    StripLacks(collapsed, '|');
    StripLacks(collapsed, '`');
    Strip(collapsed)
  }

  /** Pipes and backticks are gone after their replacement by spaces. */
  lemma ReplacedMarks(m: string)
    ensures var n := ReplaceChar(ReplaceChar(m, '|', ' '), '`', ' '); '|' !in n && '`' !in n
  {
    var n1 := ReplaceChar(m, '|', ' ');
    var n := ReplaceChar(n1, '`', ' ');
    forall i | 0 <= i < |n| ensures n[i] != '|' && n[i] != '`' {
      assert n1[i] != '|';
    }
  }

  /** Collapsing whitespace adds no character other than a space. */
  lemma CollapseLacks(s: string, c: char)
    requires c !in s && !IsSpace(c)
    ensures c !in CollapseWhitespace(s)
  {
    var r := CollapseWhitespace(s);
    forall i | 0 <= i < |r| ensures r[i] != c {
      if !IsSpace(r[i]) {
        assert r[i] in s;
      }
    }
  }

  /** Stripping adds no character. */
  lemma StripLacks(s: string, c: char)
    requires c !in s
    ensures c !in Strip(s)
  {
    StripKeeps(s);
    var r := Strip(s);
    forall i | 0 <= i < |r| ensures r[i] != c {
      assert r[i] in s;
    }
  }

  /** `to_markdown`: `convert` stands for the HTML-to-markdown conversion and
      the four regular-expression passes that precede the tail. */
  function ToMarkdown(convert: string -> string, html: string): (r: string)
    ensures IsStripped(r) && NoAdjacentSpaces(r) && OnlyPlainSpaces(r)
    ensures '|' !in r && '`' !in r && '\n' !in r && '\t' !in r
  {
    var r := MarkdownTail(convert(html));
    assert IsSpace('\n') && IsSpace('\t');
    r
  }

  /** Cleaning already-cleaned markdown changes nothing. */
  lemma MarkdownTailIdempotent(m: string)
    ensures MarkdownTail(MarkdownTail(m)) == MarkdownTail(m)
  {
    var r := MarkdownTail(m);
    assert ReplaceChar(r, '|', ' ') == r;
    assert ReplaceChar(ReplaceChar(r, '|', ' '), '`', ' ') == r;
    CollapseCollapsed(r);
    StripStripped(r);
  }

  // ---------------------------------------------------------------- normalize_text: lines

  /** A line as `normalize_text` leaves it: stripped, with single plain spaces. */
  predicate IsCleanLine(l: string) {
    IsStripped(l) && NoAdjacentSpaces(l) && OnlyPlainSpaces(l)
  }

  predicate NonEmpty(l: string) { l != "" }

  /** `re.sub(r"\s+", " ", line.strip())`. */
  function CleanLine(l: string): (r: string)
    ensures IsCleanLine(r)
    ensures r == "" <==> IsBlank(l)
  {
    CollapseWhitespace(Strip(l))
  }

  function CleanEach(ls: seq<string>): (r: seq<string>)
    ensures |r| == |ls|
    ensures forall i :: 0 <= i < |ls| ==> r[i] == CleanLine(ls[i])
  {
    seq(|ls|, i requires 0 <= i < |ls| => CleanLine(ls[i]))
  }

  /** The lines the line loop keeps: a line is dropped when it is empty and
      is either first or follows an empty line. */
  function KeptLines(ls: seq<string>): seq<string>
    decreases |ls|
  {
    if |ls| == 0 then []
    else
      var k := KeptLines(ls[..|ls| - 1]);
      var l := ls[|ls| - 1];
      if l != "" || (|k| > 0 && k[|k| - 1] != "") then k + [l] else k
  }

  /** The line loop's step: one more line is kept unless it is empty and
      nothing or an empty line was kept before it. */
  lemma KeptLinesSnoc(ls: seq<string>, l: string)
    ensures var k := KeptLines(ls);
      KeptLines(ls + [l]) == if l != "" || (|k| > 0 && k[|k| - 1] != "") then k + [l] else k
  {
    SnocInit(ls, l);
  }

  /** No empty line first and never two empty lines in a row. */
  predicate SingleBlankLines(ls: seq<string>) {
    (|ls| > 0 ==> ls[0] != "") &&
    forall i :: 0 <= i < |ls| - 1 ==> NotTwoBlank(ls, i)
  }

  /** Lines `i` and `i + 1` are not both empty. */
  predicate NotTwoBlank(ls: seq<string>, i: int)
    requires 0 <= i < |ls| - 1
  {
    ls[i] != "" || ls[i + 1] != ""
  }

  /** The line loop leaves no empty line first and single empty lines only. */
  lemma {:induction false} KeptLinesSingle(ls: seq<string>)
    ensures SingleBlankLines(KeptLines(ls))
    decreases |ls|
  {
    if |ls| > 0 {
      var init := ls[..|ls| - 1];
      var l := ls[|ls| - 1];
      KeptLinesSingle(init);
      var k := KeptLines(init);
      if l != "" || (|k| > 0 && k[|k| - 1] != "") {
        var k' := k + [l];
        assert KeptLines(ls) == k';
        forall i | 0 <= i < |k'| - 1 ensures NotTwoBlank(k', i) {
          if i < |k| - 1 {
            assert NotTwoBlank(k, i);
          }
        }
      }
    }
  }

  /** The line loop keeps every non-empty line, in order. */
  lemma {:induction false} KeptLinesFilter(ls: seq<string>)
    ensures Filter(KeptLines(ls), NonEmpty) == Filter(ls, NonEmpty)
    decreases |ls|
  {
    if |ls| > 0 {
      var init := ls[..|ls| - 1];
      var l := ls[|ls| - 1];
      KeptLinesFilter(init);
      TakeAll(ls);
      assert ls == init + [l];
      FilterSnoc(init, l, NonEmpty);
      FilterSnoc(KeptLines(init), l, NonEmpty);
    }
  }

  /** The line loop keeps only lines it was given, so clean lines stay clean. */
  lemma {:induction false} KeptLinesClean(ls: seq<string>)
    requires forall i :: 0 <= i < |ls| ==> IsCleanLine(ls[i])
    ensures forall i :: 0 <= i < |KeptLines(ls)| ==> IsCleanLine(KeptLines(ls)[i])
    decreases |ls|
  {
    if |ls| > 0 {
      var init := ls[..|ls| - 1];
      assert forall i :: 0 <= i < |init| ==> init[i] == ls[i];
      KeptLinesClean(init);
    }
  }

  /** Drops one empty line at the end. */
  function DropTrailingBlank(ls: seq<string>): (r: seq<string>)
    ensures |r| <= |ls| && r == ls[..|r|]
  {
    if |ls| > 0 && ls[|ls| - 1] == "" then ls[..|ls| - 1] else ls
  }

  // ---------------------------------------------------------------- normalize_text: newline runs

  /** The newlines capping at two re-emits after `run` newlines. */
  function Pending(run: nat): string {
    if run == 0 then "\n\n" else if run == 1 then "\n" else ""
  }

  lemma CapTwoNewlines(x: string, run: nat)
    requires run <= 2
    ensures CapNewlinesFrom("\n\n" + x, 2, run) == Pending(run) + CapNewlinesFrom(x, 2, 2)
  {
    assert ("\n\n" + x)[1..] == "\n" + x;
    assert ("\n" + x)[1..] == x;
  }

  lemma CapThreeNewlines(x: string, run: nat)
    requires run <= 2
    ensures CapNewlinesFrom("\n\n\n" + x, 2, run) == Pending(run) + CapNewlinesFrom(x, 2, 2)
  {
    assert ("\n\n\n" + x)[1..] == "\n\n" + x;
    CapTwoNewlines(x, if run < 2 then run + 1 else 2);
  }

  /** One pass of `text.replace("\n\n\n", "\n\n")` does not change what
      capping newline runs at two gives. */
  lemma {:induction false} CapAfterReplace(t: string, run: nat)
    requires run <= 2
    ensures CapNewlinesFrom(Replace(t, "\n\n\n", "\n\n"), 2, run) == CapNewlinesFrom(t, 2, run)
    decreases |t|
  {
    if StartsWith(t, "\n\n\n") {
      var u := t[3..];
      assert t == "\n\n\n" + u;
      CapAfterReplace(u, 2);
      CapTwoNewlines(Replace(u, "\n\n\n", "\n\n"), run);
      CapThreeNewlines(u, run);
    } else if |t| > 0 {
      var rest := Replace(t[1..], "\n\n\n", "\n\n");
      assert ([t[0]] + rest)[1..] == rest;
      CapAfterReplace(t[1..], if t[0] != '\n' then 0 else if run < 2 then run + 1 else run);
    }
  }

  /** Newline prefixes of a string that starts with a newline. */
  lemma NewlinePrefixes(t: string)
    requires |t| > 0 && t[0] == '\n'
    ensures StartsWith(t[1..], "\n\n") ==> StartsWith(t, "\n\n\n")
    ensures StartsWith(t[1..], "\n") ==> StartsWith(t, "\n\n")
  {
    if StartsWith(t[1..], "\n") {
      assert t[..2] == [t[0], t[1..][0]];
    }
    if StartsWith(t[1..], "\n\n") {
      assert t[..3] == [t[0], t[1..][0], t[1..][1]];
    }
  }

  /** Text without three newlines in a row is its own cap at two. */
  lemma {:induction false} CapFixpoint(t: string, run: nat)
    requires run <= 2 && !Contains(t, "\n\n\n")
    requires run >= 1 ==> !StartsWith(t, "\n\n")
    requires run == 2 ==> !StartsWith(t, "\n")
    ensures CapNewlinesFrom(t, 2, run) == t
    decreases |t|
  {
    if |t| > 0 {
      assert !StartsWith(t, "\n\n\n");
      assert !Contains(t[1..], "\n\n\n");
      if t[0] == '\n' {
        NewlinePrefixes(t);
        CapFixpoint(t[1..], run + 1);
      } else {
        CapFixpoint(t[1..], 0);
      }
      HeadTail(t);
    }
  }

  lemma NoNewlineInCleanLine(l: string)
    requires OnlyPlainSpaces(l)
    ensures forall i :: 0 <= i < |l| ==> l[i] != '\n'
  {
    assert IsSpace('\n');
  }

  /** A non-empty piece without newlines resets the newline run. */
  lemma {:induction false} CapThroughWord(w: string, t: string, run: nat)
    requires |w| > 0 && '\n' !in w
    ensures CapNewlinesFrom(w + t, 2, run) == w + CapNewlinesFrom(t, 2, 0)
    decreases |w|
  {
    assert (w + t)[1..] == w[1..] + t;
    assert w[0] in w;
    if |w| > 1 {
      assert forall c :: c in w[1..] ==> c in w;
      CapThroughWord(w[1..], t, 0);
    }
    HeadTail(w);
  }

  /** Capping through one line and the newline after it. */
  lemma CapLineThenRest(w: string, rest: string, run: nat)
    requires '\n' !in w && run <= 2 && (w == "" ==> run < 2)
    ensures CapNewlinesFrom(w + "\n" + rest, 2, run)
         == w + "\n" + CapNewlinesFrom(rest, 2, if w != "" then 1 else run + 1)
  {
    assert ("\n" + rest)[1..] == rest;
    if w != "" {
      CapThroughWord(w, "\n" + rest, run);
      assert w + "\n" + rest == w + ("\n" + rest);
    } else {
      assert w + "\n" + rest == "\n" + rest;
    }
  }

  /** Lines without two empty ones in a row, joined with newlines, hold no
      run of three newlines. */
  lemma {:induction false} CapJoinedLines(ls: seq<string>, run: nat)
    requires forall i :: 0 <= i < |ls| ==> '\n' !in ls[i]
    requires forall i :: 0 <= i < |ls| - 1 ==> NotTwoBlank(ls, i)
    requires run <= 2
    requires run == 2 && |ls| > 1 ==> ls[0] != ""
    ensures CapNewlinesFrom(Join(ls, "\n"), 2, run) == Join(ls, "\n")
    decreases |ls|
  {
    if |ls| == 1 {
      if ls[0] != "" {
        CapThroughWord(ls[0], "", run);
        assert ls[0] + "" == ls[0];
      }
    } else if |ls| > 1 {
      forall i | 0 <= i < |ls[1..]| - 1 ensures NotTwoBlank(ls[1..], i) {
        assert NotTwoBlank(ls, i + 1);
      }
      assert NotTwoBlank(ls, 0);
      CapJoinedLines(ls[1..], if ls[0] != "" then 1 else run + 1);
      CapLineThenRest(ls[0], Join(ls[1..], "\n"), run);
    }
  }

  // ---------------------------------------------------------------- normalize_text: stripping

  lemma JoinHeadChar(ls: seq<string>)
    requires |ls| > 0 && ls[0] != ""
    ensures |Join(ls, "\n")| > 0 && Join(ls, "\n")[0] == ls[0][0]
  {
  }

  lemma JoinLastChar(ls: seq<string>)
    requires |ls| > 0 && ls[|ls| - 1] != ""
    ensures |Join(ls, "\n")| > 0
    ensures Join(ls, "\n")[|Join(ls, "\n")| - 1] == ls[|ls| - 1][|ls[|ls| - 1]| - 1]
  {
    if |ls| > 1 {
      JoinAppend(ls[..|ls| - 1], [ls[|ls| - 1]], "\n");
      assert ls == ls[..|ls| - 1] + [ls[|ls| - 1]];
    }
  }

  lemma StripTrailingNewline(a: string)
    requires |a| > 0 && IsStripped(a)
    ensures Strip(a + "\n") == a
  {
    var s := a + "\n";
    assert s[..|s| - 1] == a;
    assert TrailingSpaceRun(a) == 0;
    assert TrailingSpaceRun(s) == 1;
    assert SpaceRun(s) == 0;
  }

  /** Joined lines whose first and last lines are non-empty and stripped are stripped. */
  lemma JoinedLinesStripped(ls: seq<string>)
    requires |ls| > 0 && ls[0] != "" && ls[|ls| - 1] != ""
    requires IsStripped(ls[0]) && IsStripped(ls[|ls| - 1])
    ensures |Join(ls, "\n")| > 0 && IsStripped(Join(ls, "\n"))
  {
    JoinHeadChar(ls);
    JoinLastChar(ls);
  }

  /** Stripping the joined kept lines removes exactly a final empty line. */
  lemma StripJoinedLines(ls: seq<string>)
    requires forall i :: 0 <= i < |ls| ==> IsStripped(ls[i])
    requires SingleBlankLines(ls)
    ensures Strip(Join(ls, "\n")) == Join(DropTrailingBlank(ls), "\n")
  {
    if |ls| > 0 {
      if ls[|ls| - 1] != "" {
        JoinedLinesStripped(ls);
        StripStripped(Join(ls, "\n"));
      } else {
        StripAfterBlankLine(ls);
      }
    }
  }

  lemma StripAfterBlankLine(ls: seq<string>)
    requires forall i :: 0 <= i < |ls| ==> IsStripped(ls[i])
    requires SingleBlankLines(ls)
    requires |ls| > 0 && ls[|ls| - 1] == ""
    ensures Strip(Join(ls, "\n")) == Join(ls[..|ls| - 1], "\n")
  {
    var init := ls[..|ls| - 1];
    assert NotTwoBlank(ls, |ls| - 2);
    JoinedLinesStripped(init);
    JoinBlankLast(ls);
    StripTrailingNewline(Join(init, "\n"));
  }

  lemma JoinBlankLast(ls: seq<string>)
    requires |ls| > 1 && ls[|ls| - 1] == ""
    ensures Join(ls, "\n") == Join(ls[..|ls| - 1], "\n") + "\n"
  {
    var init := ls[..|ls| - 1];
    JoinAppend(init, [""], "\n");
    assert ls == init + [""];
  }

  // ---------------------------------------------------------------- normalize_text: the last passes

  predicate IsHSpace(c: char) { c == ' ' || c == '\t' }

  /** Length of the longest prefix of spaces and tabs. */
  function HSpaceRun(s: string): (n: nat)
    ensures n <= |s|
    ensures forall i :: 0 <= i < n ==> IsHSpace(s[i])
    decreases |s|
  {
    if |s| > 0 && IsHSpace(s[0]) then 1 + HSpaceRun(s[1..]) else 0
  }

  /** `re.sub(r"[ \t]+\n", "\n", s)`. */
  function DropSpaceBeforeNewline(s: string): string
    decreases |s|
  {
    if |s| == 0 then ""
    else
      var n := HSpaceRun(s);
      if n > 0 && n < |s| && s[n] == '\n' then "\n" + DropSpaceBeforeNewline(s[n + 1..])
      else [s[0]] + DropSpaceBeforeNewline(s[1..])
  }

  /** `re.sub(r"\n[ \t]+", "\n", s)`. */
  function DropSpaceAfterNewline(s: string): string
    decreases |s|
  {
    if |s| == 0 then ""
    else if s[0] == '\n' && HSpaceRun(s[1..]) > 0 then
      "\n" + DropSpaceAfterNewline(s[1 + HSpaceRun(s[1..])..])
    else [s[0]] + DropSpaceAfterNewline(s[1..])
  }

  /** No space or tab touches a newline. */
  predicate NoSpaceBesideNewline(s: string) {
    forall i :: 0 <= i < |s| - 1 ==>
      !(IsHSpace(s[i]) && s[i + 1] == '\n') && !(s[i] == '\n' && IsHSpace(s[i + 1]))
  }

  lemma {:induction false} DropBeforeNoop(s: string)
    requires NoSpaceBesideNewline(s)
    ensures DropSpaceBeforeNewline(s) == s
    decreases |s|
  {
    if |s| > 0 {
      var n := HSpaceRun(s);
      if n > 0 && n < |s| {
        assert IsHSpace(s[n - 1]);
      }
      DropBeforeNoop(s[1..]);
      HeadTail(s);
    }
  }

  lemma {:induction false} DropAfterNoop(s: string)
    requires NoSpaceBesideNewline(s)
    ensures DropSpaceAfterNewline(s) == s
    decreases |s|
  {
    if |s| > 0 {
      if |s| > 1 {
        assert HSpaceRun(s[1..]) > 0 ==> IsHSpace(s[1]);
      }
      DropAfterNoop(s[1..]);
      HeadTail(s);
    }
  }

  predicate EndsNotHSpace(s: string) {
    |s| > 0 ==> !IsHSpace(s[0]) && !IsHSpace(s[|s| - 1])
  }

  lemma JoinAroundNewline(a: string, b: string)
    requires NoSpaceBesideNewline(a) && NoSpaceBesideNewline(b)
    requires EndsNotHSpace(a) && EndsNotHSpace(b)
    ensures NoSpaceBesideNewline(a + "\n" + b) && EndsNotHSpace(a + "\n" + b)
  {
    var s := a + "\n" + b;
    forall i | 0 <= i < |s| - 1
      ensures !(IsHSpace(s[i]) && s[i + 1] == '\n') && !(s[i] == '\n' && IsHSpace(s[i + 1]))
    {
      if i < |a| - 1 {
        assert s[i] == a[i] && s[i + 1] == a[i + 1];
      } else if i == |a| - 1 {
        assert s[i] == a[i] && s[i + 1] == '\n';
      } else if i == |a| {
        assert s[i] == '\n' && s[i + 1] == b[0];
      } else {
        assert s[i] == b[i - |a| - 1] && s[i + 1] == b[i - |a|];
      }
    }
  }

  /** Clean lines joined with newlines have no space or tab next to a newline. */
  lemma {:induction false} JoinedLinesNoSpaceBeside(ls: seq<string>)
    requires forall i :: 0 <= i < |ls| ==> IsCleanLine(ls[i])
    ensures NoSpaceBesideNewline(Join(ls, "\n")) && EndsNotHSpace(Join(ls, "\n"))
    decreases |ls|
  {
    if |ls| == 1 {
      CleanLineNoSpaceBeside(ls[0]);
    } else if |ls| > 1 {
      CleanLineNoSpaceBeside(ls[0]);
      JoinedLinesNoSpaceBeside(ls[1..]);
      JoinAroundNewline(ls[0], Join(ls[1..], "\n"));
    }
  }

  lemma CleanLineNoSpaceBeside(l: string)
    requires IsCleanLine(l)
    ensures NoSpaceBesideNewline(l) && EndsNotHSpace(l)
  {
    assert forall i :: 0 <= i < |l| ==> l[i] != '\n' by {
      forall i | 0 <= i < |l| ensures l[i] != '\n' {
        assert IsSpace('\n');
      }
    }
  }

  // ---------------------------------------------------------------- normalize_text

  /** The lines the line loop receives: the text stripped, with carriage returns
      and NUL characters removed, after `passes` — the artifact and newline
      regular expressions — split on newlines. */
  function RawLines(text: string, passes: string -> string): seq<string> {
    Split(passes(RemoveChar(RemoveChar(Strip(text), '\r'), '\0')), "\n")
  }

  /** What `normalize_text` returns: the cleaned, kept lines, without a final
      empty one, joined with newlines. */
  function NormalizedText(text: string, passes: string -> string): string {
    if text == "" then ""
    else Join(DropTrailingBlank(KeptLines(CleanEach(RawLines(text, passes)))), "\n")
  }

  /** The kept lines without a final empty line. */
  predicate WellKept(d: seq<string>) {
    (forall i :: 0 <= i < |d| ==> IsCleanLine(d[i])) &&
    SingleBlankLines(d) && (|d| > 0 ==> d[|d| - 1] != "")
  }

  lemma KeptLinesWellKept(c: seq<string>)
    requires forall i :: 0 <= i < |c| ==> IsCleanLine(c[i])
    ensures WellKept(DropTrailingBlank(KeptLines(c)))
    ensures Filter(DropTrailingBlank(KeptLines(c)), NonEmpty) == Filter(c, NonEmpty)
  {
    var k := KeptLines(c);
    var d := DropTrailingBlank(k);
    KeptLinesSingle(c);
    KeptLinesFilter(c);
    KeptLinesClean(c);
    DropTrailingBlankShape(k);
    forall i | 0 <= i < |d| ensures IsCleanLine(d[i]) {
      assert d[i] == k[i];
    }
  }

  lemma DropTrailingBlankShape(k: seq<string>)
    requires SingleBlankLines(k)
    ensures var d := DropTrailingBlank(k);
      SingleBlankLines(d) && (|d| > 0 ==> d[|d| - 1] != "") &&
      Filter(d, NonEmpty) == Filter(k, NonEmpty)
  {
    var d := DropTrailingBlank(k);
    if |k| > 0 && k[|k| - 1] == "" {
      assert k == d + [""];
      FilterSnoc(d, "", NonEmpty);
      if |d| > 0 {
        assert NotTwoBlank(k, |d| - 1);
      }
      forall i | 0 <= i < |d| - 1 ensures NotTwoBlank(d, i) {
        assert NotTwoBlank(k, i);
      }
    }
  }

  lemma NoNewlineInLines(d: seq<string>)
    requires forall i :: 0 <= i < |d| ==> IsCleanLine(d[i])
    ensures forall i :: 0 <= i < |d| ==> '\n' !in d[i]
  {
    forall i | 0 <= i < |d| ensures '\n' !in d[i] {
      NoNewlineInCleanLine(d[i]);
    }
  }

  /** Well-kept lines joined with newlines: stripped, no three newlines in a
      row, no space or tab beside a newline, and split back into the same lines. */
  lemma JoinedWellKept(d: seq<string>)
    requires WellKept(d)
    ensures var r := Join(d, "\n");
      IsStripped(r) && CapNewlines(r, 2) == r && NoSpaceBesideNewline(r) &&
      (r == "" <==> |d| == 0) && (|d| > 0 ==> Split(r, "\n") == d)
  {
    NoNewlineInLines(d);
    CapJoinedLines(d, 0);
    JoinedLinesNoSpaceBeside(d);
    if |d| > 0 {
      JoinedLinesStripped(d);
      SplitJoinChar(d, '\n');
    }
  }

  /** The shape `normalize_text` gives its result: stripped, never three
      newlines in a row, never a space or tab next to a newline, and its lines
      every one stripped with single plain spaces, with an empty line never
      first, last or twice in a row. */
  predicate IsNormalized(r: string) {
    IsStripped(r) && CapNewlines(r, 2) == r && NoSpaceBesideNewline(r) &&
    (r != "" ==> WellKept(Split(r, "\n")))
  }

  lemma WellKeptShape(d: seq<string>)
    requires WellKept(d)
    ensures IsNormalized(Join(d, "\n"))
    ensures Filter(Split(Join(d, "\n"), "\n"), NonEmpty) == Filter(d, NonEmpty)
  {
    JoinedWellKept(d);
    if |d| == 0 {
      assert Split("", "\n") == [""];
    }
  }

  /** The promises of `normalize_text`: the result has the normalized shape,
      and its non-empty lines are the non-empty cleaned input lines in their
      original order. */
  lemma NormalizedTextShape(text: string, passes: string -> string)
    ensures IsNormalized(NormalizedText(text, passes))
    ensures text != "" ==>
      Filter(Split(NormalizedText(text, passes), "\n"), NonEmpty)
        == Filter(CleanEach(RawLines(text, passes)), NonEmpty)
  {
    if text != "" {
      var c := CleanEach(RawLines(text, passes));
      var d := DropTrailingBlank(KeptLines(c));
      KeptLinesWellKept(c);
      WellKeptShape(d);
    } else {
      assert NormalizedText(text, passes) == "";
    }
  }

  /** The line loop keeps only lines it was given. */
  lemma {:induction false} KeptLinesMembers(ls: seq<string>)
    ensures forall i :: 0 <= i < |KeptLines(ls)| ==> KeptLines(ls)[i] in ls
    decreases |ls|
  {
    if |ls| > 0 {
      var init := ls[..|ls| - 1];
      KeptLinesMembers(init);
      assert forall x :: x in init ==> x in ls;
    }
  }

  /** A cleaned line holds neither a carriage return nor a NUL its raw line lacked. */
  lemma CleanLineNoControl(l: string)
    requires '\0' !in l
    ensures '\r' !in CleanLine(l) && '\0' !in CleanLine(l)
  {
    StripLacks(l, '\0');
    CollapseLacks(Strip(l), '\0');
    var r := CleanLine(l);
    forall i | 0 <= i < |r| ensures r[i] != '\r' {
      assert IsSpace(r[i]) ==> r[i] == ' ';
    }
  }

  /** `normalize_text` leaves no carriage return and no NUL character, given
      that the regular-expression passes, which only delete text or write
      newlines, add no NUL. */
  lemma NormalizedTextNoControl(text: string, passes: string -> string)
    requires forall s :: '\0' !in s ==> '\0' !in passes(s)
    ensures '\r' !in NormalizedText(text, passes) && '\0' !in NormalizedText(text, passes)
  {
    if text != "" {
      var raw := passes(RemoveChar(RemoveChar(Strip(text), '\r'), '\0'));
      SplitPiecesLack(raw, '\n', '\0');
      var c := CleanEach(RawLines(text, passes));
      forall i | 0 <= i < |c| ensures '\r' !in c[i] && '\0' !in c[i] {
        CleanLineNoControl(RawLines(text, passes)[i]);
      }
      var k := KeptLines(c);
      KeptLinesMembers(c);
      var d := DropTrailingBlank(k);
      assert forall i :: 0 <= i < |d| ==> d[i] == k[i];
      JoinLacks(d, "\n", '\r');
      JoinLacks(d, "\n", '\0');
    }
  }

  /** Text made only of whitespace normalizes to the empty string (the
      regular-expression passes leave the empty string empty). */
  lemma NormalizedTextBlank(text: string, passes: string -> string)
    requires IsBlank(text) && passes("") == ""
    ensures NormalizedText(text, passes) == ""
  {
    if text != "" {
      assert Strip(text) == "";
      assert RawLines(text, passes) == [""] by {
        assert Split("", "\n") == [""];
      }
      assert CleanEach([""]) == [""];
      assert KeptLines([""]) == [];
    }
  }

  /** Stripping the joined kept lines removes only a final empty line. */
  lemma StripKept(c: seq<string>)
    requires forall i :: 0 <= i < |c| ==> IsCleanLine(c[i])
    ensures Strip(Join(KeptLines(c), "\n")) == Join(DropTrailingBlank(KeptLines(c)), "\n")
  {
    KeptLinesSingle(c);
    KeptLinesClean(c);
    StripJoinedLines(KeptLines(c));
  }

  /** The two space-beside-newline passes change nothing on well-kept lines. */
  lemma DropsNoop(d: seq<string>)
    requires WellKept(d)
    ensures DropSpaceAfterNewline(DropSpaceBeforeNewline(Join(d, "\n"))) == Join(d, "\n")
  {
    JoinedLinesNoSpaceBeside(d);
    DropBeforeNoop(Join(d, "\n"));
    DropAfterNoop(Join(d, "\n"));
  }

  /** The passes after the line loop change nothing on the joined kept lines
      but a final empty line. */
  lemma FinishNormalize(c: seq<string>, t: string)
    requires forall i :: 0 <= i < |c| ==> IsCleanLine(c[i])
    requires t == Join(KeptLines(c), "\n")
    ensures DropSpaceAfterNewline(DropSpaceBeforeNewline(Strip(t))) == Join(DropTrailingBlank(KeptLines(c)), "\n")
  {
    StripKept(c);
    KeptLinesWellKept(c);
    DropsNoop(DropTrailingBlank(KeptLines(c)));
  }

  /** The joined kept lines are their own cap at two newlines. */
  lemma KeptLinesCapped(c: seq<string>)
    requires forall i :: 0 <= i < |c| ==> IsCleanLine(c[i])
    ensures var j := Join(KeptLines(c), "\n"); CapNewlines(j, 2) == j
  {
    var k := KeptLines(c);
    KeptLinesSingle(c);
    KeptLinesClean(c);
    NoNewlineInLines(k);
    CapJoinedLines(k, 0);
  }

  /** The line loop of `normalize_text`: every line is cleaned, and an empty
      line is kept only after a non-empty one. */
  method KeepCleanLines(lines: seq<string>) returns (cleaned: seq<string>)
    ensures cleaned == KeptLines(CleanEach(lines))
  {
    ghost var cleanedAll := CleanEach(lines);
    cleaned := [];
    for i := 0 to |lines|
      invariant cleaned == KeptLines(cleanedAll[..i])
    {
      TakeSnoc(cleanedAll, i);
      var line := CleanLine(lines[i]);
      KeptLinesSnoc(cleanedAll[..i], line);
      if line != "" || (|cleaned| > 0 && cleaned[|cleaned| - 1] != "") {
        cleaned := cleaned + [line];
      }
    }
    TakeAll(cleanedAll);
  }

  /** `while "\n\n\n" in text: text = text.replace("\n\n\n", "\n\n")`: every
      run of three or more newlines becomes two. */
  method CapBlankRuns(s: string) returns (t: string)
    ensures t == CapNewlines(s, 2)
    ensures !Contains(t, "\n\n\n")
  {
    t := s;
    while Contains(t, "\n\n\n")
      invariant CapNewlines(t, 2) == CapNewlines(s, 2)
      decreases |t|
    {
      ReplaceShrinks(t, "\n\n\n", "\n\n");
      CapAfterReplace(t, 0);
      t := Replace(t, "\n\n\n", "\n\n");
    }
    CapFixpoint(t, 0);
  }

  /** `normalize_text(text)`, with the artifact and newline regular
      expressions given as `passes`. */
  method NormalizeText(text: string, passes: string -> string) returns (r: string)
    ensures r == NormalizedText(text, passes)
  {
    if text == "" {
      return "";
    }
    var t := Strip(text);
    t := RemoveChar(t, '\r');
    t := RemoveChar(t, '\0');
    t := passes(t);
    var lines := Split(t, "\n");
    assert lines == RawLines(text, passes);
    var cleaned := KeepCleanLines(lines);
    var joined := Join(cleaned, "\n");
    KeptLinesCapped(CleanEach(lines));
    t := CapBlankRuns(joined);
    FinishNormalize(CleanEach(lines), t);
    t := Strip(t);
    t := DropSpaceBeforeNewline(t);
    t := DropSpaceAfterNewline(t);
    r := t;
  }
}
