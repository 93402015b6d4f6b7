/** The greedy paragraph grouping shared by the three token-budget chunkers
    (`chunk_markdown` in indexer.py, `chunk_text` in source_extractor.py and the
    splitter inside `push` in normalize.py): paragraphs are accumulated into the
    current run until the next one would take the run's token count over the
    budget, and a non-empty run is then closed. */
module Chunking {
  import opened Strings
  import opened Seqs

  /** The token counter: the cl100k_base encoder, which may be unavailable.
      Only the number of tokens a string has matters to the chunkers. */
  datatype Encoder = Unavailable | Available(count: string -> nat)

  /** The paragraph separator, Python's "\n\n". */
  const ParaSep: string := "\n\n"

  /** Token count of a run of paragraphs, summed the way the loops do. */
  function Sum(ps: seq<string>, tok: string -> nat): nat
    decreases |ps|
  {
    if |ps| == 0 then 0 else Sum(ps[..|ps| - 1], tok) + tok(ps[|ps| - 1])
  }

  /** The runs of paragraphs the chunking loops produce, defined on ever longer
      prefixes exactly as those loops see the paragraphs. */
  function Runs(paras: seq<string>, tok: string -> nat, budget: int): (rs: seq<seq<string>>)
    ensures |rs| == 0 <==> |paras| == 0
    decreases |paras|
  {
    if |paras| == 0 then []
    else
      var rs := Runs(paras[..|paras| - 1], tok, budget);
      var p := paras[|paras| - 1];
      if |rs| == 0 then [[p]]
      else if Sum(rs[|rs| - 1], tok) + tok(p) > budget then rs + [[p]]
      else rs[..|rs| - 1] + [rs[|rs| - 1] + [p]]
  }

  /** Concatenation of the runs. */
  function Flatten(rs: seq<seq<string>>): seq<string>
    decreases |rs|
  {
    if |rs| == 0 then [] else Flatten(rs[..|rs| - 1]) + rs[|rs| - 1]
  }

  /** Each run joined with `sep`. */
  function JoinEach(rs: seq<seq<string>>, sep: string): (r: seq<string>)
    ensures |r| == |rs|
  {
    seq(|rs|, j requires 0 <= j < |rs| => Join(rs[j], sep))
  }

  /** No run is empty. */
  ghost predicate NonEmptyRuns(rs: seq<seq<string>>) {
    forall j :: 0 <= j < |rs| ==> |rs[j]| > 0
  }

  /** A run of two or more paragraphs fits the budget; a single paragraph may not. */
  ghost predicate RunsFit(rs: seq<seq<string>>, tok: string -> nat, budget: int) {
    forall j :: 0 <= j < |rs| && |rs[j]| >= 2 ==> Sum(rs[j], tok) <= budget
  }

  /** A run is closed only because the next paragraph would have taken it over the budget. */
  ghost predicate RunsMaximal(rs: seq<seq<string>>, tok: string -> nat, budget: int)
    requires NonEmptyRuns(rs)
  {
    forall j :: 0 <= j < |rs| - 1 ==> Sum(rs[j], tok) + tok(rs[j + 1][0]) > budget
  }

  /** The three facts the chunkers promise of their runs. */
  ghost predicate WellGrouped(rs: seq<seq<string>>, tok: string -> nat, budget: int) {
    NonEmptyRuns(rs) && RunsFit(rs, tok, budget) && RunsMaximal(rs, tok, budget)
  }

  lemma SumSnoc(ps: seq<string>, p: string, tok: string -> nat)
    ensures Sum(ps + [p], tok) == Sum(ps, tok) + tok(p)
  {
    SnocInit(ps, p);
  }

  /** Joining one run more appends its join. */
  lemma JoinEachSnoc(rs: seq<seq<string>>, run: seq<string>, sep: string)
    ensures JoinEach(rs + [run], sep) == JoinEach(rs, sep) + [Join(run, sep)]
  {
  }

  /** The runs of a list with one more paragraph at the end: the greedy step. */
  lemma RunsSnoc(ps: seq<string>, p: string, tok: string -> nat, budget: int)
    ensures var rs := Runs(ps, tok, budget);
      Runs(ps + [p], tok, budget) ==
        if |rs| == 0 then [[p]]
        else if Sum(rs[|rs| - 1], tok) + tok(p) > budget then rs + [[p]]
        else rs[..|rs| - 1] + [rs[|rs| - 1] + [p]]
  {
    SnocInit(ps, p);
  }

  /** The greedy step seen from the last run `acc` of the runs so far: the next
      paragraph opens a new run when it would push `acc` over the budget, and
      joins `acc` otherwise. */
  lemma RunsStep(ps: seq<string>, p: string, tok: string -> nat, budget: int, done: seq<seq<string>>, acc: seq<string>)
    requires Runs(ps, tok, budget) == done + [acc]
    ensures Sum(acc, tok) + tok(p) > budget ==> Runs(ps + [p], tok, budget) == (done + [acc]) + [[p]]
    ensures Sum(acc, tok) + tok(p) <= budget ==> Runs(ps + [p], tok, budget) == done + [acc + [p]]
  {
    RunsSnoc(ps, p, tok, budget);
    SnocInit(done, acc);
  }

  /** The runs partition the paragraphs in order and are well grouped. */
  lemma {:induction false} RunsPartition(paras: seq<string>, tok: string -> nat, budget: int)
    ensures Flatten(Runs(paras, tok, budget)) == paras
    ensures WellGrouped(Runs(paras, tok, budget), tok, budget)
    decreases |paras|
  {
    if |paras| > 0 {
      var init := paras[..|paras| - 1];
      var p := paras[|paras| - 1];
      RunsPartition(init, tok, budget);
      assert paras == init + [p];
      RunsSnoc(init, p, tok, budget);
      GrowRuns(Runs(init, tok, budget), init, p, tok, budget);
    }
  }

  /** One greedy step keeps the runs a well-grouped partition. */
  lemma GrowRuns(rs: seq<seq<string>>, init: seq<string>, p: string, tok: string -> nat, budget: int)
    requires Flatten(rs) == init && WellGrouped(rs, tok, budget)
    ensures var rs' :=
        if |rs| == 0 then [[p]]
        else if Sum(rs[|rs| - 1], tok) + tok(p) > budget then rs + [[p]]
        else rs[..|rs| - 1] + [rs[|rs| - 1] + [p]];
      Flatten(rs') == init + [p] && WellGrouped(rs', tok, budget)
  {
    if |rs| == 0 {
      assert Flatten([[p]]) == Flatten([]) + [p];
    } else if Sum(rs[|rs| - 1], tok) + tok(p) > budget {
      OpenRun(rs, p, tok, budget);
    } else {
      ExtendRun(rs, p, tok, budget);
    }
  }

  /** Closing the last run and opening a new one with `p`. */
  lemma OpenRun(rs: seq<seq<string>>, p: string, tok: string -> nat, budget: int)
    requires |rs| > 0 && WellGrouped(rs, tok, budget)
    requires Sum(rs[|rs| - 1], tok) + tok(p) > budget
    ensures Flatten(rs + [[p]]) == Flatten(rs) + [p]
    ensures WellGrouped(rs + [[p]], tok, budget)
  {
    var rs' := rs + [[p]];
    SnocInit(rs, [p]);
    assert forall j :: 0 <= j < |rs| ==> rs'[j] == rs[j];
    assert NonEmptyRuns(rs');
    assert RunsFit(rs', tok, budget);
    forall j | 0 <= j < |rs'| - 1 ensures Sum(rs'[j], tok) + tok(rs'[j + 1][0]) > budget {
      if j < |rs| - 1 {
        assert rs'[j + 1] == rs[j + 1];
      }
    }
  }

  /** Adding `p` to the last run, which then still fits the budget. */
  lemma ExtendRun(rs: seq<seq<string>>, p: string, tok: string -> nat, budget: int)
    requires |rs| > 0 && WellGrouped(rs, tok, budget)
    requires Sum(rs[|rs| - 1], tok) + tok(p) <= budget
    ensures Flatten(rs[..|rs| - 1] + [rs[|rs| - 1] + [p]]) == Flatten(rs) + [p]
    ensures WellGrouped(rs[..|rs| - 1] + [rs[|rs| - 1] + [p]], tok, budget)
  {
    var last := rs[|rs| - 1];
    var rs' := rs[..|rs| - 1] + [last + [p]];
    ExtendFlatten(rs, p);
    SumSnoc(last, p, tok);
    ExtendFit(rs, p, tok, budget);
    ExtendMaximal(rs, p, tok, budget);
  }

  lemma ExtendFlatten(rs: seq<seq<string>>, p: string)
    requires |rs| > 0
    ensures Flatten(rs[..|rs| - 1] + [rs[|rs| - 1] + [p]]) == Flatten(rs) + [p]
  {
    var init := rs[..|rs| - 1];
    var last := rs[|rs| - 1];
    var rs' := init + [last + [p]];
    assert rs'[..|rs'| - 1] == init;
    calc {
      Flatten(rs');
      Flatten(init) + (last + [p]);
      (Flatten(init) + last) + [p];
      Flatten(rs) + [p];
    }
  }

  lemma ExtendFit(rs: seq<seq<string>>, p: string, tok: string -> nat, budget: int)
    requires |rs| > 0 && RunsFit(rs, tok, budget)
    requires Sum(rs[|rs| - 1] + [p], tok) <= budget
    ensures RunsFit(rs[..|rs| - 1] + [rs[|rs| - 1] + [p]], tok, budget)
  {
    var rs' := rs[..|rs| - 1] + [rs[|rs| - 1] + [p]];
    forall j | 0 <= j < |rs'| && |rs'[j]| >= 2 ensures Sum(rs'[j], tok) <= budget {
      if j < |rs| - 1 {
        assert rs'[j] == rs[j];
      }
    }
  }

  lemma ExtendMaximal(rs: seq<seq<string>>, p: string, tok: string -> nat, budget: int)
    requires |rs| > 0 && NonEmptyRuns(rs) && RunsMaximal(rs, tok, budget)
    ensures NonEmptyRuns(rs[..|rs| - 1] + [rs[|rs| - 1] + [p]])
    ensures RunsMaximal(rs[..|rs| - 1] + [rs[|rs| - 1] + [p]], tok, budget)
  {
    var last := rs[|rs| - 1];
    var rs' := rs[..|rs| - 1] + [last + [p]];
    assert forall j :: 0 <= j < |rs| - 1 ==> rs'[j] == rs[j];
    assert rs'[|rs| - 1][0] == last[0];
  }

  /** Joining the joined runs gives the join of all paragraphs. */
  lemma {:induction false} JoinJoinEach(rs: seq<seq<string>>, sep: string)
    requires forall j :: 0 <= j < |rs| ==> |rs[j]| > 0
    ensures |rs| > 0 ==> |Flatten(rs)| > 0
    ensures Join(JoinEach(rs, sep), sep) == Join(Flatten(rs), sep)
    decreases |rs|
  {
    if |rs| > 0 {
      var init := rs[..|rs| - 1];
      var last := rs[|rs| - 1];
      JoinJoinEach(init, sep);
      assert JoinEach(rs, sep) == JoinEach(init, sep) + [Join(last, sep)];
      if |init| > 0 {
        JoinAppend(JoinEach(init, sep), [Join(last, sep)], sep);
        JoinAppend(Flatten(init), last, sep);
      } else {
        assert Flatten(rs) == last;
      }
    }
  }

  /** The paragraph path of a chunker loses nothing: joining its chunks with
      "\n\n" gives the text back. */
  lemma RunsRoundTrip(text: string, tok: string -> nat, budget: int)
    ensures Join(JoinEach(Runs(Split(text, ParaSep), tok, budget), ParaSep), ParaSep) == text
  {
    var paras := Split(text, ParaSep);
    RunsPartition(paras, tok, budget);
    JoinJoinEach(Runs(paras, tok, budget), ParaSep);
    JoinSplit(text, ParaSep);
  }
}
