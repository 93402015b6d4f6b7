/** The word tokenizer shared by the BM25 index builder (`tokenize` inside
    `build_index` in indexer.py) and the query side (`_tokenize` in mcp.py):
    lowercase, blank out every character outside `[a-z0-9_#-]` and whitespace,
    split on whitespace and keep the words longer than one character. */
module Tokens {
  import opened Strings
  import opened Seqs

  /** The characters a token may consist of: `[a-z0-9_#-]`. */
  predicate IsTokenChar(c: char) {
    IsAsciiLower(c) || IsDigit(c) || c == '_' || c == '#' || c == '-'
  }

  /** `re.sub(r"[^a-z0-9_#\-\s]", " ", s)`. */
  function Mask(s: string): (r: string)
    ensures |r| == |s|
    ensures forall i :: 0 <= i < |s| ==> r[i] == (if IsTokenChar(s[i]) || IsSpace(s[i]) then s[i] else ' ')
  {
    seq(|s|, i requires 0 <= i < |s| => if IsTokenChar(s[i]) || IsSpace(s[i]) then s[i] else ' ')
  }

  /** A word is kept when it is longer than one character. */
  predicate LongWord(t: string) { |t| > 1 }

  /** A string made of token characters only. */
  predicate IsTokenWord(t: string) {
    forall j :: 0 <= j < |t| ==> IsTokenChar(t[j])
  }

  /** The tokens of `s`, in order. */
  function Tokenize(s: string): (r: seq<string>)
    ensures forall i :: 0 <= i < |r| ==> |r[i]| >= 2 && IsTokenWord(r[i])
  {
    var m := Mask(Lower(s));
    WordsFrom(m);
    FilterIsSubsequence(SplitWhitespace(m), LongWord);
    SubsequenceMembers(Filter(SplitWhitespace(m), LongWord), SplitWhitespace(m));
    Filter(SplitWhitespace(m), LongWord)
  }

  /** Every word of a string whose non-whitespace characters are token
      characters is a token word. */
  lemma {:induction false} WordsFrom(m: string)
    requires forall i :: 0 <= i < |m| ==> IsTokenChar(m[i]) || IsSpace(m[i])
    ensures forall i :: 0 <= i < |SplitWhitespace(m)| ==> IsTokenWord(SplitWhitespace(m)[i])
    decreases |m|
  {
    if |m| > 0 {
      if IsSpace(m[0]) {
        WordsFrom(m[1..]);
      } else {
        var n := WordRun(m);
        WordsFrom(m[n..]);
        assert SplitWhitespace(m) == [m[..n]] + SplitWhitespace(m[n..]);
      }
    }
  }

  /** The empty query has no tokens. */
  lemma TokenizeEmpty()
    ensures Tokenize("") == []
  {
    assert Mask(Lower("")) == "";
  }

  /** Lowercasing twice is lowercasing once. */
  lemma LowerLower(s: string)
    ensures Lower(Lower(s)) == Lower(s)
  {
  }

  /** The tokens depend only on the lowercased input. */
  lemma TokenizeLower(s: string)
    ensures Tokenize(Lower(s)) == Tokenize(s)
  {
    LowerLower(s);
  }

  /** A word free of whitespace followed by nothing or by whitespace is read
      as one whole word. */
  lemma {:induction false} WordRunOfWord(t: string, u: string)
    requires forall j :: 0 <= j < |t| ==> !IsSpace(t[j])
    requires |u| > 0 ==> IsSpace(u[0])
    ensures WordRun(t + u) == |t|
    decreases |t|
  {
    if |t| > 0 {
      WordRunOfWord(t[1..], u);
      assert (t + u)[1..] == t[1..] + u;
    }
  }

  /** `" ".join(ts).split() == ts` for non-empty words without whitespace. */
  lemma {:induction false} SplitJoinWords(ts: seq<string>)
    requires forall i :: 0 <= i < |ts| ==> |ts[i]| > 0 && forall j :: 0 <= j < |ts[i]| ==> !IsSpace(ts[i][j])
    ensures SplitWhitespace(Join(ts, " ")) == ts
    decreases |ts|
  {
    if |ts| == 1 {
      var t := ts[0];
      WordRunOfWord(t, "");
      assert t + "" == t;
      assert t[|t|..] == "";
    } else if |ts| > 1 {
      var t := ts[0];
      var rest := Join(ts[1..], " ");
      SplitJoinWords(ts[1..]);
      var s := t + " " + rest;
      assert Join(ts, " ") == s;
      WordRunOfWord(t, " " + rest);
      assert s == t + (" " + rest);
      assert s[..|t|] == t;
      assert s[|t|..] == " " + rest;
      assert (" " + rest)[1..] == rest;
      assert SplitWhitespace(" " + rest) == SplitWhitespace(rest);
      assert ts == [t] + ts[1..];
    }
  }

  /** A string of token characters and whitespace is unchanged by the
      lowercasing and the masking. */
  lemma MaskLowerFixed(s: string)
    requires forall i :: 0 <= i < |s| ==> IsTokenChar(s[i]) || s[i] == ' '
    ensures Mask(Lower(s)) == s
  {
  }

  /** Every character of `" ".join(ts)` is a space or comes from a word. */
  lemma {:induction false} JoinTokenChars(ts: seq<string>)
    requires forall i :: 0 <= i < |ts| ==> IsTokenWord(ts[i])
    ensures forall i :: 0 <= i < |Join(ts, " ")| ==> IsTokenChar(Join(ts, " ")[i]) || Join(ts, " ")[i] == ' '
    decreases |ts|
  {
    if |ts| > 1 {
      JoinTokenChars(ts[1..]);
      var t := ts[0];
      var rest := Join(ts[1..], " ");
      assert Join(ts, " ") == t + " " + rest;
      forall i | 0 <= i < |t + " " + rest| ensures IsTokenChar((t + " " + rest)[i]) || (t + " " + rest)[i] == ' ' {
        if i < |t| {
          assert (t + " " + rest)[i] == t[i];
        } else if i > |t| {
          assert (t + " " + rest)[i] == rest[i - |t| - 1];
        }
      }
    }
  }

  /** Filtering a list all of whose elements pass changes nothing. */
  lemma {:induction false} FilterAll(ts: seq<string>)
    requires forall i :: 0 <= i < |ts| ==> LongWord(ts[i])
    ensures Filter(ts, LongWord) == ts
    decreases |ts|
  {
    if |ts| > 0 {
      FilterAll(ts[1..]);
      HeadTail(ts);
    }
  }

  /** Tokenizing the space-joined tokens gives the same tokens back: the query
      string `" ".join(_tokenize(query))` that the snippet search looks for
      carries exactly the query's tokens. */
  lemma TokenizeJoin(s: string)
    ensures Tokenize(Join(Tokenize(s), " ")) == Tokenize(s)
  {
    var ts := Tokenize(s);
    var j := Join(ts, " ");
    JoinTokenChars(ts);
    MaskLowerFixed(j);
    forall i | 0 <= i < |ts| ensures |ts[i]| > 0 && forall k :: 0 <= k < |ts[i]| ==> !IsSpace(ts[i][k]) {
      assert IsTokenWord(ts[i]);
    }
    SplitJoinWords(ts);
    FilterAll(ts);
  }
}
