/** Order-preserving filtering of lists, as Python's `[x for x in xs if keep(x)]`. */
module Seqs {

  /** The elements of `xs` that satisfy `keep`, in their original order. */
  function Filter<T>(xs: seq<T>, keep: T -> bool): (r: seq<T>)
    ensures |r| <= |xs|
    ensures forall i :: 0 <= i < |r| ==> keep(r[i])
    decreases |xs|
  {
    if |xs| == 0 then []
    else if keep(xs[0]) then [xs[0]] + Filter(xs[1..], keep)
    else Filter(xs[1..], keep)
  }

  /** A prefix one element longer. */
  lemma TakeSnoc<T>(xs: seq<T>, k: nat)
    requires k < |xs|
    ensures xs[..k + 1] == xs[..k] + [xs[k]]
  {
  }

  /** The prefix of the whole list is the list. */
  lemma TakeAll<T>(xs: seq<T>)
    ensures xs[..|xs|] == xs
  {
  }

  /** A non-empty list is its head followed by its tail. */
  lemma HeadTail<T>(xs: seq<T>)
    requires |xs| > 0
    ensures xs == [xs[0]] + xs[1..]
  {
  }

  /** A prefix of `b` one element longer, after `a`. */
  lemma AppendTakeSnoc<T>(a: seq<T>, b: seq<T>, i: nat)
    requires i < |b|
    ensures a + b[..i + 1] == (a + b[..i]) + [b[i]]
    ensures a + b[..0] == a
    ensures a + b == (a + b[..i + 1]) + b[i + 1..]
  {
    assert b == b[..i + 1] + b[i + 1..];
  }

  /** Concatenation is associative. */
  lemma ConcatAssoc<T>(a: seq<T>, b: seq<T>, c: seq<T>)
    ensures (a + b) + c == a + (b + c)
  {
  }

  /** Dropping the element just appended. */
  lemma SnocInit<T>(xs: seq<T>, x: T)
    ensures (xs + [x])[..|xs|] == xs
  {
  }

  /** A non-empty sequence is its prefix without the last element, plus that
      element. */
  lemma InitLast<T>(xs: seq<T>)
    requires |xs| > 0
    ensures xs[..|xs| - 1] + [xs[|xs| - 1]] == xs
  {
  }

  /** A slice of a slice is a slice. */
  lemma SliceOfSlice<T>(xs: seq<T>, w: nat, e: nat, i: nat, j: nat)
    requires w <= e <= |xs| && i <= j <= e - w
    ensures xs[w..e][i..j] == xs[w + i..w + j]
  {
    forall k | 0 <= k < j - i ensures xs[w..e][i..j][k] == xs[w + i..w + j][k] {
      assert xs[w..e][i..j][k] == xs[w..e][i + k];
      assert xs[w..e][i + k] == xs[w + i + k];
    }
  }

  /** `[f(x) for x in xs]`. */
  function Map<A, B>(xs: seq<A>, f: A -> B): (r: seq<B>)
    ensures |r| == |xs|
    ensures forall i :: 0 <= i < |xs| ==> r[i] == f(xs[i])
  {
    seq(|xs|, i requires 0 <= i < |xs| => f(xs[i]))
  }

  /** `[f(xs[i]) for i in idx]`: the elements at the indices `idx`, mapped. */
  function Pick<A, B>(idx: seq<nat>, xs: seq<A>, f: A -> B): (r: seq<B>)
    requires forall a :: 0 <= a < |idx| ==> idx[a] < |xs|
    ensures |r| == |idx|
    ensures forall j :: 0 <= j < |idx| ==> r[j] == f(xs[idx[j]])
  {
    seq(|idx|, j requires 0 <= j < |idx| => f(xs[idx[j]]))
  }

  /** Picking one index more appends its mapped element. */
  lemma PickSnoc<A, B>(idx: seq<nat>, xs: seq<A>, f: A -> B, n: nat)
    requires forall a :: 0 <= a < |idx| ==> idx[a] < |xs|
    requires n < |idx|
    ensures Pick(idx[..n + 1], xs, f) == Pick(idx[..n], xs, f) + [f(xs[idx[n]])]
  {
    var l := Pick(idx[..n + 1], xs, f);
    var r := Pick(idx[..n], xs, f) + [f(xs[idx[n]])];
    forall j | 0 <= j < n + 1 ensures l[j] == r[j] {
      assert idx[..n + 1][j] == idx[j];
      if j < n {
        assert idx[..n][j] == idx[j];
      }
    }
  }

  /** Mapping distributes over concatenation. */
  lemma MapAppend<A, B>(xs: seq<A>, ys: seq<A>, f: A -> B)
    ensures Map(xs + ys, f) == Map(xs, f) + Map(ys, f)
  {
    var r := Map(xs + ys, f);
    forall i | 0 <= i < |xs + ys| ensures r[i] == (Map(xs, f) + Map(ys, f))[i] {
      if i < |xs| {
        assert (xs + ys)[i] == xs[i];
      } else {
        assert (xs + ys)[i] == ys[i - |xs|];
      }
    }
  }

  /** Filtering a list with one more element at the end. */
  lemma {:induction false} FilterSnoc<T>(xs: seq<T>, x: T, keep: T -> bool)
    ensures Filter(xs + [x], keep) == Filter(xs, keep) + (if keep(x) then [x] else [])
    decreases |xs|
  {
    if |xs| == 0 {
      assert xs + [x] == [x];
    } else {
      FilterSnoc(xs[1..], x, keep);
      assert (xs + [x])[1..] == xs[1..] + [x];
    }
  }

  /** Filtering distributes over concatenation. */
  lemma {:induction false} FilterAppend<T>(xs: seq<T>, ys: seq<T>, keep: T -> bool)
    ensures Filter(xs + ys, keep) == Filter(xs, keep) + Filter(ys, keep)
    decreases |xs|
  {
    if |xs| == 0 {
      assert xs + ys == ys;
    } else {
      FilterAppend(xs[1..], ys, keep);
      assert (xs + ys)[1..] == xs[1..] + ys;
    }
  }

  /** `a` is `b` with some elements left out, the rest in order. */
  predicate IsSubsequence<T(==)>(a: seq<T>, b: seq<T>)
    decreases |b|
  {
    if |a| == 0 then true
    else if |b| == 0 then false
    else if a[0] == b[0] then IsSubsequence(a[1..], b[1..])
    else IsSubsequence(a, b[1..])
  }

  /** Every list is a subsequence of itself. */
  lemma {:induction false} SubsequenceRefl<T>(xs: seq<T>)
    ensures IsSubsequence(xs, xs)
    decreases |xs|
  {
    if |xs| > 0 {
      SubsequenceRefl(xs[1..]);
    }
  }

  /** Filtering keeps order and drops only elements that fail `keep`;
      every element of `xs` that passes appears in the result. */
  lemma {:induction false} FilterIsSubsequence<T>(xs: seq<T>, keep: T -> bool)
    ensures IsSubsequence(Filter(xs, keep), xs)
    ensures forall x :: x in xs && keep(x) ==> x in Filter(xs, keep)
    decreases |xs|
  {
    if |xs| > 0 {
      FilterIsSubsequence(xs[1..], keep);
      assert forall x :: x in xs ==> x == xs[0] || x in xs[1..];
    }
  }

  /** Every element of `xs` that passes `keep` appears in the result. */
  lemma FilterKeepsIndex<T>(xs: seq<T>, keep: T -> bool)
    ensures forall i :: 0 <= i < |xs| && keep(xs[i]) ==> xs[i] in Filter(xs, keep)
  {
    FilterIsSubsequence(xs, keep);
    forall i | 0 <= i < |xs| && keep(xs[i]) ensures xs[i] in Filter(xs, keep) {
      assert xs[i] in xs;
    }
  }

  /** A property of every element of `xs` holds of every element kept. */
  lemma FilterPreserves<T>(xs: seq<T>, keep: T -> bool, p: T -> bool)
    requires forall i :: 0 <= i < |xs| ==> p(xs[i])
    ensures forall i :: 0 <= i < |Filter(xs, keep)| ==> p(Filter(xs, keep)[i])
  {
    FilterIsSubsequence(xs, keep);
    SubsequenceMembers(Filter(xs, keep), xs);
    forall i | 0 <= i < |Filter(xs, keep)| ensures p(Filter(xs, keep)[i]) {
      assert Filter(xs, keep)[i] in xs;
    }
  }

  /** Filtering drops a list none of whose elements pass. */
  lemma {:induction false} FilterNone<T>(xs: seq<T>, keep: T -> bool)
    requires forall i :: 0 <= i < |xs| ==> !keep(xs[i])
    ensures Filter(xs, keep) == []
    decreases |xs|
  {
    if |xs| > 0 {
      FilterNone(xs[1..], keep);
    }
  }

  /** Filtering keeps a list all of whose elements pass. */
  lemma {:induction false} FilterAll<T>(xs: seq<T>, keep: T -> bool)
    requires forall i :: 0 <= i < |xs| ==> keep(xs[i])
    ensures Filter(xs, keep) == xs
    decreases |xs|
  {
    if |xs| > 0 {
      var init := xs[..|xs| - 1];
      FilterAll(init, keep);
      FilterSnoc(init, xs[|xs| - 1], keep);
      InitLast(xs);
    }
  }

  /** Mapping keeps a subsequence a subsequence. */
  lemma {:induction false} MapSubsequence<A, B>(a: seq<A>, b: seq<A>, f: A -> B)
    requires IsSubsequence(a, b)
    ensures IsSubsequence(Map(a, f), Map(b, f))
    decreases |b|
  {
    if |a| > 0 {
      assert Map(b, f)[1..] == Map(b[1..], f);
      if a[0] == b[0] {
        MapSubsequence(a[1..], b[1..], f);
        assert Map(a, f)[1..] == Map(a[1..], f);
      } else {
        MapSubsequence(a, b[1..], f);
        if f(a[0]) == f(b[0]) {
          DropHead(Map(a, f), Map(b[1..], f));
        }
      }
    }
  }

  /** A prefix of a list is a subsequence of it. */
  lemma {:induction false} PrefixIsSubsequence<T>(xs: seq<T>, n: nat)
    requires n <= |xs|
    ensures IsSubsequence(xs[..n], xs)
    decreases n
  {
    if n > 0 {
      PrefixIsSubsequence(xs[1..], n - 1);
      assert xs[..n][1..] == xs[1..][..n - 1];
    }
  }

  /** Subsequences compose. */
  lemma {:induction false} SubsequenceTrans<T>(a: seq<T>, b: seq<T>, c: seq<T>)
    requires IsSubsequence(a, b) && IsSubsequence(b, c)
    ensures IsSubsequence(a, c)
    decreases |c|
  {
    if |a| > 0 && |c| > 0 {
      if b[0] == c[0] {
        if a[0] == b[0] {
          SubsequenceTrans(a[1..], b[1..], c[1..]);
        } else {
          SubsequenceTrans(a, b[1..], c[1..]);
        }
      } else {
        SubsequenceTrans(a, b, c[1..]);
        if a[0] == c[0] {
          DropHead(a, c[1..]);
        }
      }
    }
  }

  /** Dropping the first element of a subsequence keeps it a subsequence. */
  lemma {:induction false} DropHead<T>(a: seq<T>, b: seq<T>)
    requires |a| > 0 && IsSubsequence(a, b)
    ensures IsSubsequence(a[1..], b)
    decreases |b|
  {
    if a[0] != b[0] {
      DropHead(a, b[1..]);
      if |a| > 1 && a[1] == b[0] {
        DropHead(a[1..], b[1..]);
        assert a[1..][1..] == a[2..];
      }
    } else if |a| > 1 && a[1] == b[0] {
      DropHead(a[1..], b[1..]);
      assert a[1..][1..] == a[2..];
    }
  }

  /** A subsequence stays one when the original grows at the end, and grows
      with it when both get the same last element. */
  lemma {:induction false} SubsequenceSnoc<T>(a: seq<T>, b: seq<T>, x: T)
    requires IsSubsequence(a, b)
    ensures IsSubsequence(a, b + [x])
    ensures IsSubsequence(a + [x], b + [x])
    decreases |b|
  {
    if |b| == 0 {
      assert a + [x] == [x];
      assert ([x] + [])[1..] == [];
    } else {
      assert (b + [x])[1..] == b[1..] + [x];
      if |a| > 0 && a[0] == b[0] {
        SubsequenceSnoc(a[1..], b[1..], x);
        assert (a + [x])[1..] == a[1..] + [x];
      } else if |a| > 0 {
        SubsequenceSnoc(a, b[1..], x);
      } else {
        assert a + [x] == [x];
        SingleSnoc(b, x);
      }
    }
  }

  /** The last element alone is a subsequence. */
  lemma {:induction false} SingleSnoc<T>(b: seq<T>, x: T)
    ensures IsSubsequence([x], b + [x])
    decreases |b|
  {
    if |b| > 0 {
      SingleSnoc(b[1..], x);
      assert (b + [x])[1..] == b[1..] + [x];
    } else {
      assert b + [x] == [x];
    }
  }

  /** Every element of a subsequence occurs in the original. */
  lemma {:induction false} SubsequenceMembers<T>(a: seq<T>, b: seq<T>)
    requires IsSubsequence(a, b)
    ensures forall x :: x in a ==> x in b
    decreases |b|
  {
    if |a| > 0 {
      if a[0] == b[0] {
        SubsequenceMembers(a[1..], b[1..]);
        assert forall x :: x in a ==> x == a[0] || x in a[1..];
      } else {
        SubsequenceMembers(a, b[1..]);
      }
    }
  }
}
