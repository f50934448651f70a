/** The ranking step shared by both lexical retrievers: keep the items with
    a positive score, sort by score from high to low (JavaScript's sort is
    stable) and keep the first `topK`. */
module Ranking {

  datatype Scored<T> = Scored(item: T, score: real)

  predicate SortedDesc<T>(xs: seq<Scored<T>>)
  {
    forall i, j :: 0 <= i < j < |xs| ==> xs[i].score >= xs[j].score
  }

  /** No score in `xs` exceeds `v`. */
  predicate AtMost<T>(v: real, xs: seq<Scored<T>>)
  {
    forall k :: 0 <= k < |xs| ==> xs[k].score <= v
  }

  /** `.filter((item) => item.score > 0)`. */
  function Positive<T>(xs: seq<Scored<T>>): (r: seq<Scored<T>>)
    ensures forall k :: 0 <= k < |r| ==> r[k].score > 0.0
    ensures |r| <= |xs|
  {
    if |xs| == 0 then []
    else if xs[0].score > 0.0 then [xs[0]] + Positive(xs[1..])
    else Positive(xs[1..])
  }

  /** The filter keeps exactly the positively scored items, nothing else. */
  lemma {:induction false} PositiveSpec<T>(xs: seq<Scored<T>>)
    ensures multiset(Positive(xs)) <= multiset(xs)
    ensures forall k :: 0 <= k < |xs| && xs[k].score > 0.0 ==> xs[k] in Positive(xs)
  {
    if |xs| > 0 {
      PositiveSpec(xs[1..]);
      assert xs == [xs[0]] + xs[1..];
      assert forall k :: 1 <= k < |xs| ==> xs[k] == xs[1..][k - 1];
    }
  }

  /** Places `x` before the first element whose score is not above its
      own, so that earlier items stay ahead of later ones of equal score. */
  function Insert<T>(x: Scored<T>, s: seq<Scored<T>>): (r: seq<Scored<T>>)
    ensures multiset(r) == multiset(s) + multiset{x}
    ensures |r| == |s| + 1
  {
    if |s| == 0 || s[0].score <= x.score then [x] + s
    else
      assert s == [s[0]] + s[1..];
      [s[0]] + Insert(x, s[1..])
  }

  /** Inserting keeps a list sorted. */
  lemma {:induction false} InsertSorted<T>(x: Scored<T>, s: seq<Scored<T>>)
    requires SortedDesc(s)
    ensures SortedDesc(Insert(x, s))
  {
    if |s| == 0 || s[0].score <= x.score {
      assert AtMost(x.score, s);
      ConsSorted(x, s);
    } else {
      InsertSorted(x, s[1..]);
      InsertAtMost(s[0].score, x, s[1..]);
      ConsSorted(s[0], Insert(x, s[1..]));
    }
  }

  lemma {:induction false} InsertAtMost<T>(v: real, x: Scored<T>, s: seq<Scored<T>>)
    requires AtMost(v, s) && x.score <= v
    ensures AtMost(v, Insert(x, s))
  {
    if |s| > 0 && s[0].score > x.score {
      InsertAtMost(v, x, s[1..]);
    }
  }

  lemma ConsSorted<T>(a: Scored<T>, s: seq<Scored<T>>)
    requires SortedDesc(s) && AtMost(a.score, s)
    ensures SortedDesc([a] + s)
  {
    forall i, j | 0 <= i < j < |s| + 1
      ensures ([a] + s)[i].score >= ([a] + s)[j].score
    {
      if i > 0 {
        assert ([a] + s)[i] == s[i - 1];
      }
      assert ([a] + s)[j] == s[j - 1];
    }
  }

  /** `.sort((a, b) => b.score - a.score)`: a stable insertion sort. */
  function SortDesc<T>(xs: seq<Scored<T>>): (r: seq<Scored<T>>)
    ensures SortedDesc(r)
    ensures multiset(r) == multiset(xs)
    ensures |r| == |xs|
  {
    if |xs| == 0 then []
    else
      assert xs == [xs[0]] + xs[1..];
      var rest := SortDesc(xs[1..]);
      InsertSorted(xs[0], rest);
      Insert(xs[0], rest)
  }

  /** How many items `.slice(0, end)` keeps of `n`. */
  function SliceLength(n: nat, end: int): nat
  {
    if end >= 0 then (if end < n then end else n)
    else if n + end > 0 then n + end
    else 0
  }

  /** `.slice(0, end)`: a negative end counts from the back. */
  function SliceTo<T>(xs: seq<T>, end: int): (r: seq<T>)
    ensures end >= 0 ==> |r| <= end
    ensures |r| == SliceLength(|xs|, end)
    ensures |r| <= |xs| && r == xs[..|r|]
  {
    if end >= 0 then (if end < |xs| then xs[..end] else xs)
    else if |xs| + end > 0 then xs[..|xs| + end]
    else []
  }

  /** Whatever of `pool` was left out of `kept` scores no more than any
      item of `kept`. */
  ghost predicate KeepsTop<T>(kept: seq<Scored<T>>, pool: seq<Scored<T>>)
  {
    forall x, k :: x in multiset(pool) - multiset(kept) && 0 <= k < |kept| ==> x.score <= kept[k].score
  }

  /** The ranking pipeline: filter, sort, slice. The result holds as many
      of the positively scored items as the slice keeps, best first (see
      `RankKeepsTop` for which ones). */
  function Rank<T>(xs: seq<Scored<T>>, topK: int): (r: seq<Scored<T>>)
    ensures topK >= 0 ==> |r| <= topK
    ensures |r| == SliceLength(|Positive(xs)|, topK)
    ensures forall k :: 0 <= k < |r| ==> r[k].score > 0.0
    ensures SortedDesc(r)
    ensures multiset(r) <= multiset(xs)
  {
    var p := Positive(xs);
    PositiveSpec(xs);
    var sorted := SortDesc(p);
    var r := SliceTo(sorted, topK);
    PrefixOfSorted(p, sorted, |r|);
    r
  }

  /** The ranking keeps the best of the positively scored items: whatever
      it leaves out scores no more than anything it keeps. */
  lemma RankKeepsTop<T>(xs: seq<Scored<T>>, topK: int)
    ensures KeepsTop(Rank(xs, topK), Positive(xs))
  {
    var p := Positive(xs);
    var sorted := SortDesc(p);
    assert Rank(xs, topK) == sorted[..|Rank(xs, topK)|];
    TopOfSorted(p, sorted, |Rank(xs, topK)|);
  }

  lemma PrefixOfSorted<T>(p: seq<Scored<T>>, sorted: seq<Scored<T>>, n: nat)
    requires forall k :: 0 <= k < |p| ==> p[k].score > 0.0
    requires multiset(sorted) == multiset(p) && SortedDesc(sorted) && n <= |sorted|
    ensures forall k :: 0 <= k < n ==> sorted[k].score > 0.0
    ensures SortedDesc(sorted[..n])
    ensures multiset(sorted[..n]) <= multiset(p)
  {
    forall k | 0 <= k < n
      ensures sorted[k].score > 0.0
    {
      assert sorted[k] in multiset(p);
    }
    assert sorted == sorted[..n] + sorted[n..];
  }

  /** A prefix of a sorted permutation keeps the top of the pool. */
  lemma TopOfSorted<T>(p: seq<Scored<T>>, sorted: seq<Scored<T>>, n: nat)
    requires multiset(sorted) == multiset(p) && SortedDesc(sorted) && n <= |sorted|
    ensures KeepsTop(sorted[..n], p)
  {
    var kept, rest := sorted[..n], sorted[n..];
    assert sorted == kept + rest;
    assert multiset(p) - multiset(kept) == multiset(rest);
    TailBelowPrefix(sorted, n);
    forall x, k | x in multiset(p) - multiset(kept) && 0 <= k < |kept|
      ensures x.score <= kept[k].score
    {
      assert x in rest;
    }
  }

  lemma TailBelowPrefix<T>(sorted: seq<Scored<T>>, n: nat)
    requires SortedDesc(sorted) && n <= |sorted|
    ensures forall x, k :: x in sorted[n..] && 0 <= k < n ==> x.score <= sorted[k].score
  {
    forall x, k | x in sorted[n..] && 0 <= k < n
      ensures x.score <= sorted[k].score
    {
      var j :| 0 <= j < |sorted| - n && sorted[n..][j] == x;
      assert sorted[n + j] == x;
    }
  }

  /** A positively scored item that is not ranked scores no more than
      any ranked item. */
  lemma LeftOutScoresNoMore<T>(xs: seq<Scored<T>>, topK: int, i: int)
    requires 0 <= i < |xs| && xs[i].score > 0.0 && xs[i] !in Rank(xs, topK)
    ensures forall k :: 0 <= k < |Rank(xs, topK)| ==> xs[i].score <= Rank(xs, topK)[k].score
  {
    var r := Rank(xs, topK);
    PositiveSpec(xs);
    RankKeepsTop(xs, topK);
    assert xs[i] in multiset(Positive(xs));
    assert xs[i] !in multiset(r);
    assert xs[i] in multiset(Positive(xs)) - multiset(r);
  }

  /** Without a positive score nothing survives the filter. */
  lemma PositiveOfNonPositive<T>(xs: seq<Scored<T>>)
    requires forall k :: 0 <= k < |xs| ==> xs[k].score <= 0.0
    ensures Positive(xs) == []
  {
    PositiveSpec(xs);
  }

  /** Every positively scored item is ranked when `topK` is at least the
      number of them. */
  lemma RankKeepsAllPositive<T>(xs: seq<Scored<T>>, topK: int)
    requires topK >= |Positive(xs)|
    ensures multiset(Rank(xs, topK)) == multiset(Positive(xs))
  {
    var p := Positive(xs);
    var sorted := SortDesc(p);
    assert Rank(xs, topK) == SliceTo(sorted, topK);
    assert SliceTo(sorted, topK) == sorted;
  }

  /** A positively scored item is left out only when the ranking is full. */
  lemma LeftOutMeansFull<T>(xs: seq<Scored<T>>, topK: int, i: int)
    requires 0 <= i < |xs| && xs[i].score > 0.0 && xs[i] !in Rank(xs, topK) && topK >= 0
    ensures |Rank(xs, topK)| == topK
  {
    PositiveSpec(xs);
    assert xs[i] in multiset(Positive(xs));
    if topK >= |Positive(xs)| {
      RankKeepsAllPositive(xs, topK);
      assert false;
    }
  }

  /** With no positive score there is nothing to rank. */
  lemma RankNothingPositive<T>(xs: seq<Scored<T>>, topK: int)
    requires forall k :: 0 <= k < |xs| ==> xs[k].score <= 0.0
    ensures Rank(xs, topK) == []
  {
    var p := Positive(xs);
    PositiveSpec(xs);
  }
}
