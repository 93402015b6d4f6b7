/** The Python `str` operations the pipeline is built from, on ASCII text.
    Whitespace is Python's `str.isspace()` restricted to ASCII, which is also
    what `str.split()`, `str.strip()` and the regular expression `\s` use. */
module Strings {
  import opened Seqs

  // ---------------------------------------------------------------- characters

  /** ' ', '\t', '\n', '\v', '\f', '\r' and the separators '\x1c'..'\x1f'. */
  predicate IsSpace(c: char) {
    c == ' ' || ('\t' <= c <= '\r') || ('\U{1C}' <= c <= '\U{1F}')
  }

  /** Every character of `s` is whitespace (vacuously true of ""). */
  predicate IsBlank(s: string) {
    forall i :: 0 <= i < |s| ==> IsSpace(s[i])
  }

  /** No whitespace character is next to another one. */
  predicate NoAdjacentSpaces(s: string) {
    forall i :: 0 <= i < |s| - 1 ==> !SpacePair(s, i)
  }

  /** Characters `i` and `i + 1` of `s` are both whitespace. */
  predicate SpacePair(s: string, i: int)
    requires 0 <= i < |s| - 1
  {
    IsSpace(s[i]) && IsSpace(s[i + 1])
  }

  /** The only whitespace character in `s` is the plain space. */
  predicate OnlyPlainSpaces(s: string) {
    forall i :: 0 <= i < |s| ==> IsSpace(s[i]) ==> s[i] == ' '
  }

  /** Neither end of `s` is whitespace: what `str.strip()` produces. */
  predicate IsStripped(s: string) {
    |s| > 0 ==> !IsSpace(s[0]) && !IsSpace(s[|s| - 1])
  }

  predicate IsAsciiUpper(c: char) { 'A' <= c <= 'Z' }
  predicate IsAsciiLower(c: char) { 'a' <= c <= 'z' }
  predicate IsDigit(c: char) { '0' <= c <= '9' }
  /** The regular expression class `\w` on ASCII. */
  predicate IsWordChar(c: char) { IsAsciiUpper(c) || IsAsciiLower(c) || IsDigit(c) || c == '_' }

  /** `str.lower()` on one ASCII character. */
  function LowerChar(c: char): (r: char)
    ensures !IsAsciiUpper(r)
    ensures IsAsciiUpper(c) || r == c
  {
    if IsAsciiUpper(c) then (c as int + 32) as char else c
  }

  // ---------------------------------------------------------------- basic queries

  predicate StartsWith(s: string, p: string) {
    |p| <= |s| && s[..|p|] == p
  }

  /** Python's `p in s`. */
  predicate Contains(s: string, p: string)
    decreases |s|
  {
    StartsWith(s, p) || (|s| > 0 && Contains(s[1..], p))
  }

  /** Python's `s.find(p)`: the first index where `p` occurs, or -1. */
  function Find(s: string, p: string): (r: int)
    ensures -1 <= r <= |s|
    ensures r == -1 <==> !Contains(s, p)
    ensures r >= 0 ==> r + |p| <= |s| && s[r..r + |p|] == p
    ensures r >= 0 ==> forall j :: 0 <= j < r ==> !StartsWith(s[j..], p)
    decreases |s|
  {
    if StartsWith(s, p) then 0
    else if |s| == 0 then -1
    else
      var k := Find(s[1..], p);
      if k < 0 then -1
      else
        assert forall j :: 1 <= j < k + 1 ==> s[j..] == s[1..][j - 1..];
        k + 1
  }

  /** Python's `s.count(p)`: non-overlapping occurrences, left to right;
      an empty `p` is counted `|s| + 1` times. */
  function Count(s: string, p: string): (r: nat)
    ensures |p| > 0 ==> (r > 0 <==> Contains(s, p))
    ensures |p| == 0 ==> r == |s| + 1
    decreases |s|
  {
    if |p| == 0 then |s| + 1
    else if StartsWith(s, p) then 1 + Count(s[|p|..], p)
    else if |s| == 0 then 0
    else Count(s[1..], p)
  }

  /** Python's `s.replace(pat, rep)` for a non-empty `pat`: leftmost,
      non-overlapping occurrences are replaced. */
  function Replace(s: string, pat: string, rep: string): string
    requires |pat| > 0
    decreases |s|
  {
    if StartsWith(s, pat) then rep + Replace(s[|pat|..], pat, rep)
    else if |s| == 0 then []
    else [s[0]] + Replace(s[1..], pat, rep)
  }

  /** Python's `s.replace(a, b)` for single characters a and b. */
  function ReplaceChar(s: string, a: char, b: char): (r: string)
    ensures |r| == |s|
    ensures forall i :: 0 <= i < |s| ==> r[i] == (if s[i] == a then b else s[i])
  {
    seq(|s|, i requires 0 <= i < |s| => if s[i] == a then b else s[i])
  }

  /** Python's `s.replace(c, "")`: every occurrence of `c` removed. */
  function RemoveChar(s: string, c: char): (r: string)
    ensures |r| <= |s|
    ensures c !in r
    ensures forall i :: 0 <= i < |r| ==> r[i] in s
    decreases |s|
  {
    if |s| == 0 then ""
    else if s[0] == c then RemoveChar(s[1..], c)
    else [s[0]] + RemoveChar(s[1..], c)
  }

  /** Replacing a pattern by something shorter shortens every string that
      contains the pattern, so `while pat in s: s = s.replace(pat, rep)` stops. */
  lemma {:induction false} ReplaceShrinks(s: string, pat: string, rep: string)
    requires |pat| > 0 && |rep| < |pat|
    ensures |Replace(s, pat, rep)| <= |s|
    ensures Contains(s, pat) ==> |Replace(s, pat, rep)| < |s|
    decreases |s|
  {
    if StartsWith(s, pat) {
      ReplaceShrinks(s[|pat|..], pat, rep);
    } else if |s| > 0 {
      ReplaceShrinks(s[1..], pat, rep);
    }
  }

  /** Python's `s.lower()` on ASCII. */
  function Lower(s: string): (r: string)
    ensures |r| == |s|
    ensures forall i :: 0 <= i < |s| ==> r[i] == LowerChar(s[i])
  {
    seq(|s|, i requires 0 <= i < |s| => LowerChar(s[i]))
  }

  /** Python's `s[:n]` for `n >= 0`. */
  function Take(s: string, n: nat): (r: string)
    ensures |r| == if n <= |s| then n else |s|
    ensures r == s[..|r|]
  {
    if n <= |s| then s[..n] else s
  }

  /** Python's `s[a:b]` for `0 <= a`: both ends are clamped to the string. */
  function Slice(s: string, a: nat, b: int): (r: string)
    ensures |r| <= |s|
  {
    var lo := if a <= |s| then a else |s|;
    var hi := if b < lo then lo else if b <= |s| then b else |s|;
    s[lo..hi]
  }

  // ---------------------------------------------------------------- stripping

  /** Length of the longest whitespace suffix of `s`. */
  function TrailingSpaceRun(s: string): (n: nat)
    ensures n <= |s|
    ensures forall i :: |s| - n <= i < |s| ==> IsSpace(s[i])
    ensures n < |s| ==> !IsSpace(s[|s| - n - 1])
    decreases |s|
  {
    if |s| > 0 && IsSpace(s[|s| - 1]) then 1 + TrailingSpaceRun(s[..|s| - 1]) else 0
  }

  /** Stripping a stripped string changes nothing. */
  lemma StripStripped(s: string)
    requires IsStripped(s)
    ensures Strip(s) == s
  {
    if |s| > 0 {
      assert SpaceRun(s) == 0;
      assert TrailingSpaceRun(s) == 0;
    }
  }

  /** Python's `s.strip()`: the text between the first and the last
      non-whitespace character, or "" when there is none. */
  function Strip(s: string): (r: string)
    ensures |r| <= |s|
    ensures IsStripped(r)
    ensures r == "" <==> IsBlank(s)
    ensures r == "" || r == s[SpaceRun(s)..|s| - TrailingSpaceRun(s)]
  {
    var a := SpaceRun(s);
    if a == |s| then "" else s[a..|s| - TrailingSpaceRun(s)]
  }

  /** `Strip` of a string whose first and last non-whitespace characters are
      at `i` and `j`. */
  lemma StripBetween(s: string, i: nat, j: nat)
    requires i <= j < |s| && !IsSpace(s[i]) && !IsSpace(s[j])
    requires forall k :: 0 <= k < i ==> IsSpace(s[k])
    requires forall k :: j < k < |s| ==> IsSpace(s[k])
    ensures Strip(s) == s[i..j + 1]
  {
    assert SpaceRun(s) == i;
    assert TrailingSpaceRun(s) == |s| - 1 - j;
  }

  /** Cutting whitespace off both ends does not change the stripped text. */
  lemma StripInner(s: string, w: nat, e: nat)
    requires w <= e <= |s|
    requires forall k :: 0 <= k < w ==> IsSpace(s[k])
    requires forall k :: e <= k < |s| ==> IsSpace(s[k])
    ensures Strip(s[w..e]) == Strip(s)
  {
    var m := s[w..e];
    assert forall k :: 0 <= k < |m| ==> m[k] == s[w + k];
    if IsBlank(m) {
      forall k | 0 <= k < |s| ensures IsSpace(s[k]) {
        if w <= k < e {
          assert s[k] == m[k - w];
        }
      }
    } else {
      var i := SpaceRun(m);
      var j := |m| - TrailingSpaceRun(m) - 1;
      assert s[w + i] == m[i] && s[w + j] == m[j];
      forall k | 0 <= k < w + i ensures IsSpace(s[k]) {
        if w <= k {
          assert s[k] == m[k - w];
        }
      }
      forall k | w + j < k < |s| ensures IsSpace(s[k]) {
        if k < e {
          assert s[k] == m[k - w];
        }
      }
      StripInnerSolid(s, w, e, i, j);
    }
  }

  /** `StripInner` when the text between the cuts has a non-whitespace
      character, with the first and the last one at `w + i` and `w + j`. */
  lemma StripInnerSolid(s: string, w: nat, e: nat, i: nat, j: nat)
    requires w + i <= w + j < e <= |s|
    requires !IsSpace(s[w + i]) && !IsSpace(s[w + j])
    requires forall k :: 0 <= k < w + i ==> IsSpace(s[k])
    requires forall k :: w + j < k < |s| ==> IsSpace(s[k])
    ensures Strip(s[w..e]) == Strip(s)
  {
    StripSliceBetween(s, w, e, i, j);
    StripBetween(s, w + i, w + j);
  }

  /** The stripped cut is the text from its first to its last
      non-whitespace character. */
  lemma StripSliceBetween(s: string, w: nat, e: nat, i: nat, j: nat)
    requires w + i <= w + j < e <= |s|
    requires !IsSpace(s[w + i]) && !IsSpace(s[w + j])
    requires forall k :: w <= k < w + i ==> IsSpace(s[k])
    requires forall k :: w + j < k < e ==> IsSpace(s[k])
    ensures Strip(s[w..e]) == s[w + i..w + j + 1]
  {
    var m := s[w..e];
    assert m[i] == s[w + i] && m[j] == s[w + j];
    forall k | 0 <= k < i ensures IsSpace(m[k]) {
      assert m[k] == s[w + k];
    }
    forall k | j < k < |m| ensures IsSpace(m[k]) {
      assert m[k] == s[w + k];
    }
    StripBetween(m, i, j);
    SliceOfSlice(s, w, e, i, j + 1);
  }

  /** Python's `s.lstrip(c)` for one character. */
  function LStripChar(s: string, c: char): (r: string)
    ensures |r| <= |s| && r == s[|s| - |r|..]
    ensures |r| > 0 ==> r[0] != c
    ensures forall i :: 0 <= i < |s| - |r| ==> s[i] == c
    decreases |s|
  {
    if |s| > 0 && s[0] == c then LStripChar(s[1..], c) else s
  }

  /** Python's `s.rstrip(c)` for one character. */
  function RStripChar(s: string, c: char): (r: string)
    ensures |r| <= |s| && r == s[..|r|]
    ensures |r| > 0 ==> r[|r| - 1] != c
    ensures forall i :: |r| <= i < |s| ==> s[i] == c
    decreases |s|
  {
    if |s| > 0 && s[|s| - 1] == c then RStripChar(s[..|s| - 1], c) else s
  }

  // ---------------------------------------------------------------- split and join

  /** Python's `sep.join(parts)`. */
  function Join(parts: seq<string>, sep: string): string
    decreases |parts|
  {
    if |parts| == 0 then ""
    else if |parts| == 1 then parts[0]
    else parts[0] + sep + Join(parts[1..], sep)
  }

  /** Splitting on a character `c`: a piece free of `c` followed by `c`
      becomes the first piece. */
  lemma {:induction false} SplitAfterPiece(w: string, c: char, rest: string)
    requires c !in w
    ensures Split(w + [c] + rest, [c]) == [w] + Split(rest, [c])
    ensures Split(w, [c]) == [w]
    decreases |w|
  {
    if |w| == 0 {
      assert w + [c] + rest == [c] + rest;
      assert ([c] + rest)[1..] == rest;
    } else {
      SplitAfterPiece(w[1..], c, rest);
      assert (w + [c] + rest)[1..] == w[1..] + [c] + rest;
      assert [w[0]] + w[1..] == w;
    }
  }

  /** Joining pieces free of `c` with `c` and splitting on `c` gives the pieces back. */
  lemma {:induction false} SplitJoinChar(parts: seq<string>, c: char)
    requires |parts| > 0
    requires forall i :: 0 <= i < |parts| ==> c !in parts[i]
    ensures Split(Join(parts, [c]), [c]) == parts
    decreases |parts|
  {
    SplitAfterPiece(parts[0], c, "");
    if |parts| > 1 {
      SplitJoinChar(parts[1..], c);
      SplitAfterPiece(parts[0], c, Join(parts[1..], [c]));
      HeadTail(parts);
    }
  }

  /** Python's `s.split(sep)` for a non-empty separator: always at least one piece. */
  function Split(s: string, sep: string): (r: seq<string>)
    requires |sep| > 0
    ensures |r| >= 1
    decreases |s|
  {
    if StartsWith(s, sep) then [""] + Split(s[|sep|..], sep)
    else if |s| == 0 then [""]
    else
      var rest := Split(s[1..], sep);
      [[s[0]] + rest[0]] + rest[1..]
  }

  /** The first piece of a split on a character does not contain it:
      `s.split(c, 1)[0]` is the text before the first `c`. */
  lemma {:induction false} SplitFirstLacks(s: string, c: char)
    ensures c !in Split(s, [c])[0]
    decreases |s|
  {
    if !StartsWith(s, [c]) && |s| > 0 {
      SplitFirstLacks(s[1..], c);
      assert s[..1] == [s[0]];
    }
  }

  /** Splitting a string on a character it lacks gives the string itself. */
  lemma {:induction false} SplitLacking(s: string, c: char)
    requires c !in s
    ensures Split(s, [c]) == [s]
    decreases |s|
  {
    if |s| > 0 {
      assert s[..1] != [c] by {
        assert s[..1][0] == s[0];
      }
      SplitLacking(s[1..], c);
      HeadTail(s);
    }
  }

  /** Replacing by nothing adds no character. */
  lemma {:induction false} ReplaceLacks(s: string, pat: string, c: char)
    requires |pat| > 0 && c !in s
    ensures c !in Replace(s, pat, "")
    decreases |s|
  {
    if StartsWith(s, pat) {
      ReplaceLacks(s[|pat|..], pat, c);
    } else if |s| > 0 {
      ReplaceLacks(s[1..], pat, c);
    }
  }

  /** A suffix lacks every character its string lacks. */
  lemma SuffixLacks(s: string, k: nat, c: char)
    requires k <= |s| && c !in s
    ensures c !in s[k..]
  {
    assert forall i :: 0 <= i < |s| - k ==> s[k..][i] == s[k + i];
  }

  /** Splitting adds no character: every piece lacks what the string lacks. */
  lemma {:induction false} SplitPiecesLack(s: string, sep: char, c: char)
    requires c !in s
    ensures forall i :: 0 <= i < |Split(s, [sep])| ==> c !in Split(s, [sep])[i]
    decreases |s|
  {
    if |s| > 0 {
      SuffixLacks(s, 1, c);
      SplitPiecesLack(s[1..], sep, c);
      if !StartsWith(s, [sep]) {
        var rest := Split(s[1..], [sep]);
        assert c !in [s[0]] + rest[0];
        assert forall i :: 1 <= i < |rest| ==> ([[s[0]] + rest[0]] + rest[1..])[i] == rest[i];
      }
    }
  }

  /** Joining adds no character but the separator's. */
  lemma {:induction false} JoinLacks(parts: seq<string>, sep: string, c: char)
    requires c !in sep
    requires forall i :: 0 <= i < |parts| ==> c !in parts[i]
    ensures c !in Join(parts, sep)
    decreases |parts|
  {
    if |parts| > 1 {
      assert forall i :: 0 <= i < |parts| - 1 ==> parts[1..][i] == parts[i + 1];
      JoinLacks(parts[1..], sep, c);
    }
  }

  lemma JoinCons(p: string, ps: seq<string>, sep: string)
    requires |ps| > 0
    ensures Join([p] + ps, sep) == p + sep + Join(ps, sep)
  {
    assert ([p] + ps)[1..] == ps;
  }

  /** Joining two non-empty lists: the separator goes between their joins. */
  lemma {:induction false} JoinAppend(a: seq<string>, b: seq<string>, sep: string)
    requires |a| > 0 && |b| > 0
    ensures Join(a + b, sep) == Join(a, sep) + sep + Join(b, sep)
    decreases |a|
  {
    if |a| == 1 {
      JoinCons(a[0], b, sep);
      assert a + b == [a[0]] + b;
    } else {
      var x := a[1..];
      HeadTail(a);
      assert a + b == [a[0]] + (x + b);
      JoinAppend(x, b, sep);
      JoinCons(a[0], x + b, sep);
      JoinCons(a[0], x, sep);
      var jx, jb := Join(x, sep), Join(b, sep);
      assert Join(a + b, sep) == a[0] + sep + (jx + sep + jb);
      assert Join(a, sep) == a[0] + sep + jx;
    }
  }

  /** Blank pieces joined with a blank separator give a blank string. */
  lemma {:induction false} JoinBlank(parts: seq<string>, sep: string)
    requires forall i :: 0 <= i < |parts| ==> IsBlank(parts[i])
    requires IsBlank(sep)
    ensures IsBlank(Join(parts, sep))
    decreases |parts|
  {
    if |parts| > 1 {
      JoinBlank(parts[1..], sep);
      var a := parts[0] + sep;
      var b := Join(parts[1..], sep);
      assert IsBlank(parts[0]);
      forall k | 0 <= k < |a + b| ensures IsSpace((a + b)[k]) {
        if k < |parts[0]| {
          assert (a + b)[k] == parts[0][k];
        } else if k < |a| {
          assert (a + b)[k] == sep[k - |parts[0]|];
        } else {
          assert (a + b)[k] == b[k - |a|];
        }
      }
    } else if |parts| == 1 {
      assert IsBlank(parts[0]);
    }
  }

  /** Prepending a character to the first piece prepends it to the join. */
  lemma JoinConsHead(c: char, parts: seq<string>, sep: string)
    requires |parts| > 0
    ensures Join([[c] + parts[0]] + parts[1..], sep) == [c] + Join(parts, sep)
  {
    if |parts| > 1 {
      JoinCons([c] + parts[0], parts[1..], sep);
      JoinCons(parts[0], parts[1..], sep);
      HeadTail(parts);
    }
  }

  /** Joining the pieces of a split with the same separator gives the string back. */
  lemma {:induction false} JoinSplit(s: string, sep: string)
    requires |sep| > 0
    ensures Join(Split(s, sep), sep) == s
    decreases |s|
  {
    if StartsWith(s, sep) {
      JoinSplit(s[|sep|..], sep);
      JoinSplitAtSep(s, sep);
    } else if |s| > 0 {
      JoinSplit(s[1..], sep);
      JoinSplitAtChar(s, sep);
    }
  }

  /** The empty string is a left unit of concatenation. */
  lemma EmptyPrefix(a: string)
    ensures "" + a == a
  {
  }

  lemma JoinSplitAtSep(s: string, sep: string)
    requires |sep| > 0 && StartsWith(s, sep)
    requires Join(Split(s[|sep|..], sep), sep) == s[|sep|..]
    ensures Join(Split(s, sep), sep) == s
  {
    var tail := s[|sep|..];
    var rest := Split(tail, sep);
    assert s[..|sep|] == sep;
    assert s == s[..|sep|] + tail;
    assert Split(s, sep) == [""] + rest;
    JoinCons("", rest, sep);
    EmptyPrefix(sep);
  }

  lemma JoinSplitAtChar(s: string, sep: string)
    requires |sep| > 0 && !StartsWith(s, sep) && |s| > 0
    requires Join(Split(s[1..], sep), sep) == s[1..]
    ensures Join(Split(s, sep), sep) == s
  {
    var rest := Split(s[1..], sep);
    assert Split(s, sep) == [[s[0]] + rest[0]] + rest[1..];
    JoinConsHead(s[0], rest, sep);
    HeadTail(s);
  }

  /** Length of the longest whitespace prefix of `s`. */
  function SpaceRun(s: string): (n: nat)
    ensures n <= |s|
    ensures forall i :: 0 <= i < n ==> IsSpace(s[i])
    ensures n < |s| ==> !IsSpace(s[n])
    decreases |s|
  {
    if |s| > 0 && IsSpace(s[0]) then 1 + SpaceRun(s[1..]) else 0
  }

  /** Length of the longest prefix of `s` without whitespace. */
  function WordRun(s: string): (n: nat)
    ensures n <= |s|
    ensures forall i :: 0 <= i < n ==> !IsSpace(s[i])
    ensures n < |s| ==> IsSpace(s[n])
    decreases |s|
  {
    if |s| > 0 && !IsSpace(s[0]) then 1 + WordRun(s[1..]) else 0
  }

  /** Python's `s.split()`: the maximal runs of non-whitespace characters. */
  function SplitWhitespace(s: string): (r: seq<string>)
    ensures forall i :: 0 <= i < |r| ==> |r[i]| > 0 && forall j :: 0 <= j < |r[i]| ==> !IsSpace(r[i][j])
    decreases |s|
  {
    if |s| == 0 then []
    else if IsSpace(s[0]) then SplitWhitespace(s[1..])
    else
      var n := WordRun(s);
      [s[..n]] + SplitWhitespace(s[n..])
  }

  /** `SplitWhitespace` of a blank string is empty. */
  lemma {:induction false} SplitWhitespaceBlank(s: string)
    requires IsBlank(s)
    ensures SplitWhitespace(s) == []
    decreases |s|
  {
    if |s| > 0 {
      SplitWhitespaceBlank(s[1..]);
    }
  }

  /** Python's `re.sub(r"\s+", " ", s)`: every whitespace run becomes one space. */
  function CollapseWhitespace(s: string): (r: string)
    ensures |r| == 0 <==> |s| == 0
    ensures |r| > 0 ==> (IsSpace(r[0]) <==> IsSpace(s[0]))
    ensures |r| > 0 ==> (IsSpace(r[|r| - 1]) <==> IsSpace(s[|s| - 1]))
    ensures NoAdjacentSpaces(r) && OnlyPlainSpaces(r)
    ensures forall i :: 0 <= i < |r| && !IsSpace(r[i]) ==> r[i] in s
    decreases |s|
  {
    if |s| == 0 then ""
    else if IsSpace(s[0]) then
      var n := SpaceRun(s);
      var rest := CollapseWhitespace(s[n..]);
      ConsNoAdjacent(' ', rest);
      " " + rest
    else
      var rest := CollapseWhitespace(s[1..]);
      ConsNoAdjacent(s[0], rest);
      [s[0]] + rest
  }

  /** Putting a character in front keeps whitespace runs single when it is not
      whitespace or the string does not start with whitespace. */
  lemma ConsNoAdjacent(c: char, r: string)
    requires NoAdjacentSpaces(r) && (IsSpace(c) && |r| > 0 ==> !IsSpace(r[0]))
    ensures NoAdjacentSpaces([c] + r)
  {
    var s := [c] + r;
    forall i | 0 <= i < |s| - 1 ensures !SpacePair(s, i) {
      if i > 0 {
        assert !SpacePair(r, i - 1);
      }
    }
  }

  /** A string that already has single plain spaces only is left unchanged. */
  lemma {:induction false} CollapseCollapsed(s: string)
    requires NoAdjacentSpaces(s) && OnlyPlainSpaces(s)
    ensures CollapseWhitespace(s) == s
    decreases |s|
  {
    if |s| > 0 {
      CleanTail(s);
      CollapseCollapsed(s[1..]);
      if IsSpace(s[0]) {
        CollapseSpaceHead(s);
      } else {
        CollapsePlainHead(s);
      }
    }
  }

  /** A single plain space followed by collapsed text is collapsed text. */
  lemma CollapseSpaceHead(s: string)
    requires |s| > 0 && IsSpace(s[0]) && NoAdjacentSpaces(s) && OnlyPlainSpaces(s)
    requires CollapseWhitespace(s[1..]) == s[1..]
    ensures CollapseWhitespace(s) == s
  {
    assert |s| == 1 || !SpacePair(s, 0);
    assert SpaceRun(s) == 1;
    CollapseStep(s);
    assert " " == [s[0]];
    HeadTail(s);
  }

  /** A non-space character followed by collapsed text is collapsed text. */
  lemma CollapsePlainHead(s: string)
    requires |s| > 0 && !IsSpace(s[0])
    requires CollapseWhitespace(s[1..]) == s[1..]
    ensures CollapseWhitespace(s) == s
  {
    CollapseStep(s);
    HeadTail(s);
  }

  /** Dropping the first character keeps single plain spaces. */
  lemma CleanTail(s: string)
    requires |s| > 0 && NoAdjacentSpaces(s) && OnlyPlainSpaces(s)
    ensures NoAdjacentSpaces(s[1..]) && OnlyPlainSpaces(s[1..])
  {
    forall i | 0 <= i < |s[1..]| - 1 ensures !SpacePair(s[1..], i) {
      assert !SpacePair(s, i + 1);
    }
  }

  /** One step of `CollapseWhitespace`. */
  lemma CollapseStep(s: string)
    requires |s| > 0
    ensures IsSpace(s[0]) ==> CollapseWhitespace(s) == " " + CollapseWhitespace(s[SpaceRun(s)..])
    ensures !IsSpace(s[0]) ==> CollapseWhitespace(s) == [s[0]] + CollapseWhitespace(s[1..])
  {
  }

  // ---------------------------------------------------------------- line structure

  /** Python's line boundaries for `str.splitlines()`, restricted to ASCII. */
  predicate IsLineBreak(c: char) {
    c == '\n' || c == '\r' || c == '\U{0B}' || c == '\U{0C}' || ('\U{1C}' <= c <= '\U{1E}')
  }

  /** Index of the first line boundary in `s`, or `|s|`. */
  function LineEnd(s: string): (n: nat)
    ensures n <= |s|
    ensures forall i :: 0 <= i < n ==> !IsLineBreak(s[i])
    ensures n < |s| ==> IsLineBreak(s[n])
    decreases |s|
  {
    if |s| > 0 && !IsLineBreak(s[0]) then 1 + LineEnd(s[1..]) else 0
  }

  /** Python's `s.splitlines()`: lines without their terminators; "\r\n" is one
      terminator, and a final terminator does not start an empty line. */
  function SplitLines(s: string): (r: seq<string>)
    ensures forall i :: 0 <= i < |r| ==> forall j :: 0 <= j < |r[i]| ==> !IsLineBreak(r[i][j])
    decreases |s|
  {
    if |s| == 0 then []
    else
      var n := LineEnd(s);
      if n == |s| then [s]
      else
        var w := if s[n] == '\r' && n + 1 < |s| && s[n + 1] == '\n' then 2 else 1;
        [s[..n]] + SplitLines(s[n + w..])
  }

  /** Replaces every maximal run of more than `k` newlines by exactly `k`
      newlines, where `run` newlines were already emitted just before `s`. */
  function CapNewlinesFrom(s: string, k: nat, run: nat): string
    decreases |s|
  {
    if |s| == 0 then ""
    else if s[0] == '\n' then
      if run < k then "\n" + CapNewlinesFrom(s[1..], k, run + 1) else CapNewlinesFrom(s[1..], k, run)
    else [s[0]] + CapNewlinesFrom(s[1..], k, 0)
  }

  /** Every maximal run of more than `k` newlines becomes exactly `k` newlines:
      `re.sub(r"\n{k+1,}", "\n" * k, s)`. */
  function CapNewlines(s: string, k: nat): string {
    CapNewlinesFrom(s, k, 0)
  }

  /** `n` newlines: `"\n" * n`. */
  function Newlines(n: nat): (r: string)
    ensures |r| == n && forall i :: 0 <= i < n ==> r[i] == '\n'
  {
    seq(n, _ => '\n')
  }

  /** No run of newlines in `s` is longer than `k`, counting the `run`
      newlines that come just before `s`. */
  predicate RunsAtMost(s: string, k: nat, run: nat)
    decreases |s|
  {
    |s| == 0 ||
    if s[0] == '\n' then run < k && RunsAtMost(s[1..], k, run + 1) else RunsAtMost(s[1..], k, 0)
  }

  /** Capping leaves no run longer than `k`. */
  lemma {:induction false} CapRunsAtMost(s: string, k: nat, run: nat)
    requires run <= k
    ensures RunsAtMost(CapNewlinesFrom(s, k, run), k, run)
    decreases |s|
  {
    if |s| > 0 {
      var t := CapNewlinesFrom(s, k, run);
      if s[0] == '\n' && run < k {
        CapRunsAtMost(s[1..], k, run + 1);
        assert t[0] == '\n' && t[1..] == CapNewlinesFrom(s[1..], k, run + 1);
      } else if s[0] == '\n' {
        CapRunsAtMost(s[1..], k, run);
      } else {
        CapRunsAtMost(s[1..], k, 0);
        assert t[0] == s[0] && t[1..] == CapNewlinesFrom(s[1..], k, 0);
      }
    }
  }

  /** Fewer newlines before `s` can only help. */
  lemma {:induction false} RunsAtMostLower(s: string, k: nat, run: nat, fewer: nat)
    requires RunsAtMost(s, k, run) && fewer <= run
    ensures RunsAtMost(s, k, fewer)
    decreases |s|
  {
    if |s| > 0 && s[0] == '\n' {
      RunsAtMostLower(s[1..], k, run + 1, fewer + 1);
    }
  }

  /** After `run` newlines, `s` does not start with the `k + 1 - run` more
      that would make a run longer than `k`. */
  lemma {:induction false} RunsAtMostNoStart(s: string, k: nat, run: nat)
    requires run <= k && RunsAtMost(s, k, run)
    ensures !StartsWith(s, Newlines(k + 1 - run))
    decreases |s|
  {
    var p := Newlines(k + 1 - run);
    if |s| > 0 {
      StartsWithCons(s, p);
      if s[0] == '\n' {
        RunsAtMostNoStart(s[1..], k, run + 1);
        assert p[1..] == Newlines(k + 1 - (run + 1));
      }
    }
  }

  /** `s.startswith(p)` one character at a time. */
  lemma StartsWithCons(s: string, p: string)
    requires |s| > 0 && |p| > 0
    ensures StartsWith(s, p) <==> s[0] == p[0] && StartsWith(s[1..], p[1..])
  {
    if |p| <= |s| {
      assert s[..|p|] == [s[0]] + s[1..][..|p| - 1];
      assert p == [p[0]] + p[1..];
    }
  }

  /** A string whose runs are at most `k` holds no `k + 1` newlines in a row. */
  lemma {:induction false} RunsAtMostNoRun(s: string, k: nat, run: nat)
    requires RunsAtMost(s, k, run)
    ensures !Contains(s, Newlines(k + 1))
    decreases |s|
  {
    RunsAtMostLower(s, k, run, 0);
    RunsAtMostNoStart(s, k, 0);
    if |s| > 0 {
      RunsAtMostNoRun(s[1..], k, if s[0] == '\n' then run + 1 else 0);
    }
  }

  /** `re.sub(r"\n{k+1,}", "\n" * k, s)` leaves no `k + 1` newlines in a row. */
  lemma CapNewlinesBound(s: string, k: nat)
    ensures !Contains(CapNewlines(s, k), Newlines(k + 1))
  {
    CapRunsAtMost(s, k, 0);
    RunsAtMostNoRun(CapNewlines(s, k), k, 0);
  }

  /** An occurrence of `p` at index `i` makes `p in s` true. */
  lemma {:induction false} ContainsAt(s: string, p: string, i: nat)
    requires i + |p| <= |s| && s[i..i + |p|] == p
    ensures Contains(s, p)
    decreases i
  {
    if i == 0 {
      assert s[..|p|] == s[0..|p|];
    } else {
      assert s[1..][i - 1..i - 1 + |p|] == s[i..i + |p|];
      ContainsAt(s[1..], p, i - 1);
    }
  }

  /** What a slice contains, the whole string contains. */
  lemma ContainsOfSlice(s: string, p: string, i: nat, j: nat)
    requires i <= j <= |s| && Contains(s[i..j], p)
    ensures Contains(s, p)
  {
    var r := Find(s[i..j], p);
    SliceOfSlice(s, i, j, r, r + |p|);
    ContainsAt(s, p, i + r);
  }

  /** Stripping never brings `p` about. */
  lemma StripKeepsAbsent(s: string, p: string)
    requires !Contains(s, p)
    ensures !Contains(Strip(s), p)
  {
    if Strip(s) == "" {
      assert !StartsWith(s, p);
    } else {
      var a, b := SpaceRun(s), |s| - TrailingSpaceRun(s);
      if Contains(s[a..b], p) {
        ContainsOfSlice(s, p, a, b);
      }
    }
  }
}
