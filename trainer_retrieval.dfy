/** The trainer variant's lexical retriever: a chunk scores two points for
    every whole-token hit of every query token (repeated query tokens count
    again), and the search keeps the positively scored chunks, best first,
    up to `topK`. The chunk list, the 200 newest rows of the knowledge
    table, is an input. */
module TrainerRetrieval {
  import opened JsText
  import opened TrainerTokens
  import opened Ranking

  /** `hay.filter((t) => t === token).length`. */
  function Hits(hay: seq<string>, token: string): (n: nat)
    ensures n <= |hay|
    ensures n > 0 <==> token in hay
  {
    if |hay| == 0 then 0
    else
      assert forall t :: t in hay <==> t == hay[0] || t in hay[1..];
      (if hay[0] == token then 1 else 0) + Hits(hay[1..], token)
  }

  /** The score `scoreText` accumulates over the first query tokens. */
  function TokenScore(queryTokens: seq<string>, hay: seq<string>): (score: nat)
    ensures score % 2 == 0
    ensures score > 0 <==> exists i :: 0 <= i < |queryTokens| && queryTokens[i] in hay
  {
    if |queryTokens| == 0 then 0
    else
      var init := queryTokens[..|queryTokens| - 1];
      var last := queryTokens[|queryTokens| - 1];
      assert forall i :: 0 <= i < |init| ==> init[i] == queryTokens[i];
      TokenScore(init, hay) + 2 * Hits(hay, last)
  }

  /** `scoreText`. */
  method ScoreText(queryTokens: seq<string>, text: string) returns (score: int)
    ensures score == TokenScore(queryTokens, Tokens(text))
  {
    var hay := Tokens(text);
    score := 0;
    for i := 0 to |queryTokens|
      invariant score == TokenScore(queryTokens[..i], hay)
    {
      var hits := Hits(hay, queryTokens[i]);
      if hits > 0 {
        score := score + hits * 2;
      }
      assert queryTokens[..i + 1][..i] == queryTokens[..i];
    }
    assert queryTokens[..|queryTokens|] == queryTokens;
  }

  /** A query token that occurs `n` times in the chunk adds exactly `2n`,
      however many other tokens the query has. */
  lemma {:induction false} TokenScoreAppend(a: seq<string>, b: seq<string>, hay: seq<string>)
    ensures TokenScore(a + b, hay) == TokenScore(a, hay) + TokenScore(b, hay)
    decreases |b|
  {
    if |b| > 0 {
      var b' := b[..|b| - 1];
      assert (a + b)[..|a + b| - 1] == a + b';
      TokenScoreAppend(a, b', hay);
    } else {
      assert a + b == a;
    }
  }

  /** Repeating a query token counts its hits again. */
  lemma RepeatedTokenCountsTwice(queryTokens: seq<string>, t: string, hay: seq<string>)
    ensures TokenScore(queryTokens + [t, t], hay) == TokenScore(queryTokens, hay) + 4 * Hits(hay, t)
  {
    TokenScoreAppend(queryTokens, [t, t], hay);
    assert [t, t][..1] == [t];
    assert [t][..0] == [];
  }

  datatype KnowledgeChunk = KnowledgeChunk(id: string, docTitle: string, text: string)

  datatype RetrievedChunk = RetrievedChunk(id: string, docTitle: string, text: string, score: int, snippet: string)

  /** `text.slice(0, 240)`. */
  function Snippet(text: string): (r: string)
    ensures |r| <= 240 && |r| <= |text| && r == text[..|r|]
    ensures |text| <= 240 ==> r == text
  {
    if |text| <= 240 then text else text[..240]
  }

  function Retrieved(c: KnowledgeChunk, queryTokens: seq<string>): RetrievedChunk
  {
    RetrievedChunk(c.id, c.docTitle, c.text, TokenScore(queryTokens, Tokens(c.text)), Snippet(c.text))
  }

  function ScoreAll(queryTokens: seq<string>, chunks: seq<KnowledgeChunk>): (r: seq<Scored<RetrievedChunk>>)
    ensures |r| == |chunks|
    ensures forall i :: 0 <= i < |r| ==> r[i].item == Retrieved(chunks[i], queryTokens) && r[i].score == r[i].item.score as real
  {
    seq(|chunks|, i requires 0 <= i < |chunks| =>
      var item := Retrieved(chunks[i], queryTokens); Scored(item, item.score as real))
  }

  /** `lexicalProvider.search` over the given chunks. */
  function Search(query: string, chunks: seq<KnowledgeChunk>, topK: int := 5): (r: seq<RetrievedChunk>)
    ensures Tokens(query) == [] ==> r == []
    ensures topK >= 0 ==> |r| <= topK
    ensures |r| == SliceLength(|Positive(ScoreAll(Tokens(query), chunks))|, topK)
  {
    var queryTokens := Tokens(query);
    if |queryTokens| == 0 then
      var xs := ScoreAll(queryTokens, chunks);
      assert forall k :: 0 <= k < |xs| ==> xs[k].score <= 0.0;
      PositiveOfNonPositive(xs);
      []
    else RankChunks(queryTokens, chunks, topK)
  }

  /** The map/filter/sort/slice pipeline for a non-empty token list. */
  function RankChunks(queryTokens: seq<string>, chunks: seq<KnowledgeChunk>, topK: int): (r: seq<RetrievedChunk>)
    ensures topK >= 0 ==> |r| <= topK
    ensures |r| == SliceLength(|Positive(ScoreAll(queryTokens, chunks))|, topK)
  {
    var ranked := Rank(ScoreAll(queryTokens, chunks), topK);
    seq(|ranked|, k requires 0 <= k < |ranked| => ranked[k].item)
  }

  /** Every result is one of the chunks with its score and 240-character
      snippet, every score is positive and even, and the scores do not
      increase down the list; the results are the best `topK` of the
      positively scored chunks: as many as `slice(0, topK)` keeps of them,
      and a positively scored chunk left out scores no more than any
      result. */
  lemma SearchSpec(query: string, chunks: seq<KnowledgeChunk>, topK: int)
    ensures var r := Search(query, chunks, topK);
      (forall k :: 0 <= k < |r| ==> r[k].score > 0 && r[k].score % 2 == 0)
      && (forall k :: 0 <= k < |r| ==> exists i :: 0 <= i < |chunks| && r[k] == Retrieved(chunks[i], Tokens(query)))
      && (forall k :: 0 <= k < |r| ==> r[k].snippet == Snippet(r[k].text))
      && (forall j, k :: 0 <= j < k < |r| ==> r[j].score >= r[k].score)
      && |r| == SliceLength(|Positive(ScoreAll(Tokens(query), chunks))|, topK)
      && LeftOutScoreNoMore(r, Tokens(query), chunks)
  {
    var queryTokens := Tokens(query);
    if |queryTokens| > 0 {
      RankChunksSpec(queryTokens, chunks, topK);
    } else {
      var xs := ScoreAll(queryTokens, chunks);
      assert forall k :: 0 <= k < |xs| ==> xs[k].score <= 0.0;
      PositiveOfNonPositive(xs);
    }
  }

  /** A chunk with a positive score that is not among the results scores
      no more than any result. */
  predicate LeftOutScoreNoMore(r: seq<RetrievedChunk>, queryTokens: seq<string>, chunks: seq<KnowledgeChunk>)
  {
    forall i, k :: 0 <= i < |chunks| && Retrieved(chunks[i], queryTokens).score > 0
      && Retrieved(chunks[i], queryTokens) !in r && 0 <= k < |r|
      ==> Retrieved(chunks[i], queryTokens).score <= r[k].score
  }

  lemma RankChunksSpec(queryTokens: seq<string>, chunks: seq<KnowledgeChunk>, topK: int)
    ensures var r := RankChunks(queryTokens, chunks, topK);
      (forall k :: 0 <= k < |r| ==> r[k].score > 0 && r[k].score % 2 == 0)
      && (forall k :: 0 <= k < |r| ==> exists i :: 0 <= i < |chunks| && r[k] == Retrieved(chunks[i], queryTokens))
      && (forall k :: 0 <= k < |r| ==> r[k].snippet == Snippet(r[k].text))
      && (forall j, k :: 0 <= j < k < |r| ==> r[j].score >= r[k].score)
      && |r| == SliceLength(|Positive(ScoreAll(queryTokens, chunks))|, topK)
      && LeftOutScoreNoMore(r, queryTokens, chunks)
  {
    RankChunksFrom(queryTokens, chunks, topK);
    RankChunksTop(queryTokens, chunks, topK);
  }

  lemma RankChunksFrom(queryTokens: seq<string>, chunks: seq<KnowledgeChunk>, topK: int)
    ensures var r := RankChunks(queryTokens, chunks, topK);
      (forall k :: 0 <= k < |r| ==> r[k].score > 0 && r[k].score % 2 == 0)
      && (forall k :: 0 <= k < |r| ==> exists i :: 0 <= i < |chunks| && r[k] == Retrieved(chunks[i], queryTokens))
      && (forall k :: 0 <= k < |r| ==> r[k].snippet == Snippet(r[k].text))
      && (forall j, k :: 0 <= j < k < |r| ==> r[j].score >= r[k].score)
  {
    var xs := ScoreAll(queryTokens, chunks);
    var ranked := Rank(xs, topK);
    RankedFromChunks(queryTokens, chunks, ranked);
    var r := RankChunks(queryTokens, chunks, topK);
    assert |r| == |ranked| && forall k :: 0 <= k < |ranked| ==> r[k] == ranked[k].item;
    assert forall k :: 0 <= k < |ranked| ==> FromChunk(ranked[k], queryTokens, chunks);
  }

  lemma RankChunksTop(queryTokens: seq<string>, chunks: seq<KnowledgeChunk>, topK: int)
    ensures LeftOutScoreNoMore(RankChunks(queryTokens, chunks, topK), queryTokens, chunks)
  {
    var r := RankChunks(queryTokens, chunks, topK);
    forall i, k | 0 <= i < |chunks| && Retrieved(chunks[i], queryTokens).score > 0
      && Retrieved(chunks[i], queryTokens) !in r && 0 <= k < |r|
      ensures Retrieved(chunks[i], queryTokens).score <= r[k].score
    {
      LeftOutChunk(queryTokens, chunks, topK, i, k);
    }
  }

  lemma LeftOutChunk(queryTokens: seq<string>, chunks: seq<KnowledgeChunk>, topK: int, i: int, k: int)
    requires 0 <= i < |chunks| && Retrieved(chunks[i], queryTokens).score > 0
    requires Retrieved(chunks[i], queryTokens) !in RankChunks(queryTokens, chunks, topK)
    requires 0 <= k < |RankChunks(queryTokens, chunks, topK)|
    ensures Retrieved(chunks[i], queryTokens).score <= RankChunks(queryTokens, chunks, topK)[k].score
  {
    var xs := ScoreAll(queryTokens, chunks);
    var ranked := Rank(xs, topK);
    var r := RankChunks(queryTokens, chunks, topK);
    assert |r| == |ranked| && forall m :: 0 <= m < |ranked| ==> r[m] == ranked[m].item;
    assert xs[i].item == Retrieved(chunks[i], queryTokens);
    assert xs[i] !in ranked;
    LeftOutScoresNoMore(xs, topK, i);
    assert ranked[k] in multiset(xs);
    assert ranked[k].score == ranked[k].item.score as real;
  }

  /** A ranked entry that is one of the scored chunks. */
  predicate FromChunk(x: Scored<RetrievedChunk>, queryTokens: seq<string>, chunks: seq<KnowledgeChunk>)
  {
    (exists i :: 0 <= i < |chunks| && x.item == Retrieved(chunks[i], queryTokens))
    && x.score == x.item.score as real
    && x.item.score % 2 == 0
    && x.item.snippet == Snippet(x.item.text)
  }

  lemma RankedFromChunks(queryTokens: seq<string>, chunks: seq<KnowledgeChunk>, ranked: seq<Scored<RetrievedChunk>>)
    requires multiset(ranked) <= multiset(ScoreAll(queryTokens, chunks))
    ensures forall k :: 0 <= k < |ranked| ==> FromChunk(ranked[k], queryTokens, chunks)
  {
    var xs := ScoreAll(queryTokens, chunks);
    forall k | 0 <= k < |ranked|
      ensures FromChunk(ranked[k], queryTokens, chunks)
    {
      assert ranked[k] in multiset(xs);
      var i :| 0 <= i < |xs| && xs[i] == ranked[k];
      assert xs[i].item == Retrieved(chunks[i], queryTokens);
    }
  }

  /** A chunk that shares a token with the query scores above zero, so it
      is returned unless all five results score at least as much. */
  lemma SharedTokenIsFound(query: string, chunks: seq<KnowledgeChunk>, i: int, t: string)
    requires 0 <= i < |chunks| && t in Tokens(query) && t in Tokens(chunks[i].text)
    ensures var c, r := Retrieved(chunks[i], Tokens(query)), Search(query, chunks);
      c in r || (|r| == 5 && forall k :: 0 <= k < |r| ==> c.score <= r[k].score)
  {
    SharedTokenIsRanked(Tokens(query), chunks, i, t, 5);
  }

  lemma SharedTokenIsRanked(queryTokens: seq<string>, chunks: seq<KnowledgeChunk>, i: int, t: string, topK: int)
    requires 0 <= i < |chunks| && t in queryTokens && t in Tokens(chunks[i].text) && topK >= 0
    ensures var c, r := Retrieved(chunks[i], queryTokens), RankChunks(queryTokens, chunks, topK);
      c in r || (|r| == topK && forall k :: 0 <= k < |r| ==> c.score <= r[k].score)
  {
    var j :| 0 <= j < |queryTokens| && queryTokens[j] == t;
    assert TokenScore(queryTokens, Tokens(chunks[i].text)) > 0;
    PositiveChunkIsRanked(queryTokens, chunks, i, topK);
  }

  /** A positively scored chunk is ranked, or the ranking is full of
      chunks that score at least as much. */
  lemma PositiveChunkIsRanked(queryTokens: seq<string>, chunks: seq<KnowledgeChunk>, i: int, topK: int)
    requires 0 <= i < |chunks| && Retrieved(chunks[i], queryTokens).score > 0 && topK >= 0
    ensures var c, r := Retrieved(chunks[i], queryTokens), RankChunks(queryTokens, chunks, topK);
      c in r || (|r| == topK && forall k :: 0 <= k < |r| ==> c.score <= r[k].score)
  {
    var c := Retrieved(chunks[i], queryTokens);
    var r := RankChunks(queryTokens, chunks, topK);
    if c !in r {
      var xs := ScoreAll(queryTokens, chunks);
      var ranked := Rank(xs, topK);
      assert |r| == |ranked| && forall m :: 0 <= m < |ranked| ==> r[m] == ranked[m].item;
      assert xs[i].item == c;
      assert xs[i] !in ranked;
      LeftOutMeansFull(xs, topK, i);
      RankChunksTop(queryTokens, chunks, topK);
    }
  }
}
