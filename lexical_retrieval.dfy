/** Knowledge chunking and lexical retrieval of the root app: fixed windows
    of `chunkSize` characters that overlap by `overlap` characters, a
    lexical relevance score, and the ranking of stored chunks. */
module LexicalRetrieval {
  import opened JsText
  import opened Types
  import opened Ranking

  datatype Chunk = Chunk(text: string, index: nat)

  function Min(a: int, b: int): int { if a < b then a else b }
  function Max(a: int, b: int): int { if a < b then b else a }

  /** Where window `k` starts: windows advance by `chunkSize - overlap`. */
  function WindowStart(k: nat, cs: int, ov: int): (s: int)
    requires ov < cs
    ensures s >= 0
  {
    k * (cs - ov)
  }

  /** The bounds `[lo, hi)` of one window of the content. */
  datatype Window = Window(lo: nat, hi: nat)

  /** The windows of a content of length `len` from `start` on: each spans
      `[start, min(len, start + chunkSize))`; the window reaching the end is
      the last, and the next one starts `overlap` characters before the end
      of the current one. */
  function WindowsFrom(len: nat, chunkSize: int, overlap: int, start: nat): (r: seq<Window>)
    requires 0 < chunkSize && overlap < chunkSize
    ensures |r| == 0 <==> start >= len
    decreases len - start
  {
    if start >= len then []
    else
      var end := Min(len, start + chunkSize);
      [Window(start, end)]
      + (if end == len then [] else WindowsFrom(len, chunkSize, overlap, Max(0, end - overlap)))
  }

  predicate InBounds(ws: seq<Window>, len: nat)
  {
    forall k :: 0 <= k < |ws| ==> ws[k].lo <= ws[k].hi <= len
  }

  /** Every window is a non-empty piece of the content. */
  predicate NonEmptyPieces(ws: seq<Window>, len: nat)
  {
    forall k :: 0 <= k < |ws| ==> ws[k].lo < ws[k].hi <= len
  }

  lemma {:induction false} WindowsInBounds(len: nat, chunkSize: int, overlap: int, start: nat)
    requires 0 < chunkSize && overlap < chunkSize
    ensures NonEmptyPieces(WindowsFrom(len, chunkSize, overlap, start), len)
    decreases len - start
  {
    var r := WindowsFrom(len, chunkSize, overlap, start);
    var end := Min(len, start + chunkSize);
    if start < len && end != len {
      var next := Max(0, end - overlap);
      var rest := WindowsFrom(len, chunkSize, overlap, next);
      WindowsInBounds(len, chunkSize, overlap, next);
      assert r == [Window(start, end)] + rest;
      assert forall k :: 1 <= k < |r| ==> r[k] == rest[k - 1];
    } else if start < len {
      assert r == [Window(start, end)];
    }
  }

  /** The chunks of the given windows: each window's text trimmed, numbered
      by position. */
  function ChunksOf(c: string, ws: seq<Window>): (r: seq<Chunk>)
    requires InBounds(ws, |c|)
    ensures |r| == |ws|
  {
    seq(|ws|, k requires 0 <= k < |ws| => Chunk(Trim(c[ws[k].lo..ws[k].hi]), k))
  }

  /** What `chunkText` returns: the windows of the whole content, trimmed
      and numbered in order. */
  function Windows(c: string, chunkSize: int, overlap: int): (r: seq<Chunk>)
    requires 0 < chunkSize && overlap < chunkSize
    ensures |r| == |WindowsFrom(|c|, chunkSize, overlap, 0)|
  {
    WindowsInBounds(|c|, chunkSize, overlap, 0);
    var ws := WindowsFrom(|c|, chunkSize, overlap, 0);
    assert InBounds(ws, |c|);
    ChunksOf(c, ws)
  }

  lemma ChunksOfSnoc(c: string, ws: seq<Window>, w: Window)
    requires InBounds(ws, |c|) && w.lo <= w.hi <= |c|
    ensures InBounds(ws + [w], |c|)
    ensures ChunksOf(c, ws + [w]) == ChunksOf(c, ws) + [Chunk(Trim(c[w.lo..w.hi]), |ws|)]
  {
  }

  /** One turn of `chunkText`'s loop keeps its invariant: the window
      `[start, end)` is taken off the front of the remaining ones. */
  lemma ChunkLoopStep(content: string, cs: int, ov: int, start: nat, end: nat,
                      done: seq<Window>, all: seq<Window>, chunks: seq<Chunk>)
    requires 0 < cs && ov < cs && start < |content| && end == Min(|content|, start + cs)
    requires InBounds(done, |content|) && chunks == ChunksOf(content, done)
    requires done + WindowsFrom(|content|, cs, ov, start) == all
    ensures InBounds(done + [Window(start, end)], |content|)
    ensures chunks + [Chunk(Trim(content[start..end]), |done|)] == ChunksOf(content, done + [Window(start, end)])
    ensures end < |content| ==> (done + [Window(start, end)]) + WindowsFrom(|content|, cs, ov, Max(0, end - ov)) == all
    ensures end == |content| ==> done + [Window(start, end)] == all
  {
    if end == |content| {
      WindowsTakeLast(|content|, cs, ov, start, done, all);
    } else {
      WindowsTakeMore(|content|, cs, ov, start, end, done, all);
    }
    ChunksOfSnoc(content, done, Window(start, end));
  }

  lemma WindowsTakeLast(len: nat, cs: int, ov: int, start: nat, done: seq<Window>, all: seq<Window>)
    requires 0 < cs && ov < cs && start < len && Min(len, start + cs) == len
    requires done + WindowsFrom(len, cs, ov, start) == all
    ensures done + [Window(start, len)] == all
  {
    assert WindowsFrom(len, cs, ov, start) == [Window(start, len)];
  }

  lemma WindowsTakeMore(len: nat, cs: int, ov: int, start: nat, end: nat, done: seq<Window>, all: seq<Window>)
    requires 0 < cs && ov < cs && start < len && end == start + cs && end < len
    requires done + WindowsFrom(len, cs, ov, start) == all
    ensures (done + [Window(start, end)]) + WindowsFrom(len, cs, ov, Max(0, end - ov)) == all
  {
    var w := Window(start, end);
    var rest := WindowsFrom(len, cs, ov, Max(0, end - ov));
    assert WindowsFrom(len, cs, ov, start) == [w] + rest;
    assert done + ([w] + rest) == (done + [w]) + rest;
  }

  /** `chunkText`. The loop ends for every content only when `chunkSize`
      exceeds `overlap` (see `NoProgressWithoutStep`); a chunk size of zero
      or less, where `slice` would count from the end, is excluded too. */
  method ChunkText(content: string, chunkSize: int := 1000, overlap: int := 120) returns (chunks: seq<Chunk>)
    requires 0 < chunkSize && overlap < chunkSize
    ensures chunks == Windows(content, chunkSize, overlap)
  {
    ghost var all := WindowsFrom(|content|, chunkSize, overlap, 0);
    ghost var done: seq<Window> := [];
    chunks := [];
    var idx := 0;
    var start := 0;
    while start < |content|
      invariant idx == |done| && InBounds(done, |content|)
      invariant chunks == ChunksOf(content, done)
      invariant done + WindowsFrom(|content|, chunkSize, overlap, start) == all
      decreases |content| - start
    {
      var end := Min(|content|, start + chunkSize);
      var text := content[start..end];
      ChunkLoopStep(content, chunkSize, overlap, start, end, done, all, chunks);
      chunks := chunks + [Chunk(Trim(text), idx)];
      done := done + [Window(start, end)];
      idx := idx + 1;
      if end == |content| {
        break;
      }
      start := Max(0, end - overlap);
    }
  }

  /** Where `chunkSize` does not exceed `overlap`, the next window would not
      start after the current one, so the loop would run forever. */
  lemma NoProgressWithoutStep(len: int, chunkSize: int, overlap: int, start: nat)
    requires 0 < chunkSize <= overlap && start + chunkSize < len
    ensures Max(0, Min(len, start + chunkSize) - overlap) <= start
  {
  }

  /** Window `k` in closed form: it starts `k` steps of
      `chunkSize - overlap` after `start` and is `chunkSize` long or cut at
      the end; only a window ending before the end has a successor. */
  lemma {:induction false} WindowAt(len: nat, cs: int, ov: int, start: nat, k: nat)
    requires 0 < cs && ov < cs && k < |WindowsFrom(len, cs, ov, start)|
    ensures var s := start + WindowStart(k, cs, ov);
            && s < len
            && WindowsFrom(len, cs, ov, start)[k] == Window(s, Min(len, s + cs))
            && (k + 1 < |WindowsFrom(len, cs, ov, start)| ==> s + cs < len)
            && (0 <= ov && k + 1 == |WindowsFrom(len, cs, ov, start)| ==> s + cs >= len)
    decreases k
  {
    var r := WindowsFrom(len, cs, ov, start);
    var end := Min(len, start + cs);
    assert WindowStart(0, cs, ov) == 0;
    if end < len {
      var next := start + (cs - ov);
      var rest := WindowsFrom(len, cs, ov, next);
      assert r == [r[0]] + rest;
      if k > 0 {
        WindowAt(len, cs, ov, next, k - 1);
        WindowStartNext(k - 1, cs, ov);
        assert r[k] == rest[k - 1];
      } else if 0 <= ov {
        assert next < len;
      }
    }
  }

  /** Chunk `k` is the trimmed window `k`, at most `chunkSize` long. */
  lemma ChunkAt(c: string, cs: int, ov: int, k: nat)
    requires 0 < cs && ov < cs && k < |Windows(c, cs, ov)|
    ensures var s := WindowStart(k, cs, ov);
            && 0 <= s < |c|
            && Windows(c, cs, ov)[k] == Chunk(Trim(c[s..Min(|c|, s + cs)]), k)
            && |Windows(c, cs, ov)[k].text| <= cs
  {
    var ws := WindowsFrom(|c|, cs, ov, 0);
    var s := WindowStart(k, cs, ov);
    var e := Min(|c|, s + cs);
    WindowsAreChunks(c, cs, ov);
    WindowPosition(|c|, cs, ov, k);
    ChunkOfWindow(c, cs, ws, k, s, e);
    assert Windows(c, cs, ov)[k] == ChunksOf(c, ws)[k];
  }

  lemma WindowPosition(len: nat, cs: int, ov: int, k: nat)
    requires 0 < cs && ov < cs && k < |WindowsFrom(len, cs, ov, 0)|
    ensures WindowStart(k, cs, ov) < len
    ensures WindowsFrom(len, cs, ov, 0)[k] == Window(WindowStart(k, cs, ov), Min(len, WindowStart(k, cs, ov) + cs))
  {
    WindowAt(len, cs, ov, 0, k);
  }

  lemma WindowsAreChunks(c: string, cs: int, ov: int)
    requires 0 < cs && ov < cs
    ensures InBounds(WindowsFrom(|c|, cs, ov, 0), |c|)
    ensures Windows(c, cs, ov) == ChunksOf(c, WindowsFrom(|c|, cs, ov, 0))
  {
    WindowsInBounds(|c|, cs, ov, 0);
  }

  lemma ChunkOfWindow(c: string, cs: int, ws: seq<Window>, k: nat, s: nat, e: nat)
    requires InBounds(ws, |c|) && k < |ws| && ws[k] == Window(s, e) && e - s <= cs
    ensures ChunksOf(c, ws)[k] == Chunk(Trim(c[s..e]), k)
    ensures |ChunksOf(c, ws)[k].text| <= cs
  {
  }

  /** The properties of `chunkText` on a whole content: no chunks for
      empty content, consecutive indices, windows in order, chunks no longer
      than `chunkSize`, and the last window ending at the end of the content. */
  lemma WindowsSpec(c: string, cs: int, ov: int)
    requires 0 <= ov < cs
    ensures var r := Windows(c, cs, ov);
            && (|r| == 0 <==> |c| == 0)
            && (forall k: nat :: k < |r| ==>
                  WindowStart(k, cs, ov) < |c| && r[k].index == k && |r[k].text| <= cs
                  && r[k].text == Trim(c[WindowStart(k, cs, ov)..Min(|c|, WindowStart(k, cs, ov) + cs)]))
            && (forall k: nat :: k + 1 < |r| ==> WindowStart(k, cs, ov) + cs < |c|)
            && (|r| > 0 ==> Min(|c|, WindowStart(|r| - 1, cs, ov) + cs) == |c|)
  {
    WindowsEach(c, cs, ov);
    WindowsEnd(c, cs, ov);
  }

  lemma WindowsEach(c: string, cs: int, ov: int)
    requires 0 <= ov < cs
    ensures var r := Windows(c, cs, ov);
            forall k: nat :: k < |r| ==>
              WindowStart(k, cs, ov) < |c| && r[k].index == k && |r[k].text| <= cs
              && r[k].text == Trim(c[WindowStart(k, cs, ov)..Min(|c|, WindowStart(k, cs, ov) + cs)])
  {
    var r := Windows(c, cs, ov);
    forall k: nat | k < |r|
      ensures WindowStart(k, cs, ov) < |c| && r[k].index == k && |r[k].text| <= cs
      ensures r[k].text == Trim(c[WindowStart(k, cs, ov)..Min(|c|, WindowStart(k, cs, ov) + cs)])
    {
      ChunkAt(c, cs, ov, k);
    }
  }

  lemma WindowsEnd(c: string, cs: int, ov: int)
    requires 0 <= ov < cs
    ensures var n := |WindowsFrom(|c|, cs, ov, 0)|;
            && (forall k: nat :: k + 1 < n ==> WindowStart(k, cs, ov) + cs < |c|)
            && (n > 0 ==> Min(|c|, WindowStart(n - 1, cs, ov) + cs) == |c|)
  {
    var n := |WindowsFrom(|c|, cs, ov, 0)|;
    forall k: nat | k + 1 < n
      ensures WindowStart(k, cs, ov) + cs < |c|
    {
      WindowAt(|c|, cs, ov, 0, k);
    }
    if n > 0 {
      WindowAt(|c|, cs, ov, 0, n - 1);
    }
  }

  /** Consecutive windows share exactly `overlap` characters: the next one
      starts `overlap` characters before the end of the current one. */
  lemma WindowsOverlap(c: string, cs: int, ov: int, k: nat)
    requires 0 <= ov < cs && k + 1 < |Windows(c, cs, ov)|
    ensures var end := WindowStart(k, cs, ov) + cs;
            end < |c| && WindowStart(k + 1, cs, ov) == end - ov
  {
    WindowAt(|c|, cs, ov, 0, k);
    WindowStartNext(k, cs, ov);
  }

  lemma WindowStartNext(k: nat, cs: int, ov: int)
    requires ov < cs
    ensures WindowStart(k + 1, cs, ov) == WindowStart(k, cs, ov) + (cs - ov)
  {
    assert (k + 1) * (cs - ov) == k * (cs - ov) + (cs - ov);
  }

  // ---------------------------------------------------------------------
  // Lexical score

  /** The separator class of `split(/[^a-zа-я0-9]+/)` on a lower-cased text. */
  predicate IsQuerySeparator(c: char)
  {
    !(IsAsciiLower(c) || IsCyrillicLower(c) || IsDigit(c))
  }

  /** `query.toLowerCase().split(/[^a-zа-я0-9]+/).filter(Boolean)`. */
  function QueryTokens(query: string): (r: seq<string>)
    ensures forall k :: 0 <= k < |r| ==> |r[k]| > 0
  {
    Words(Lower(query), IsQuerySeparator)
  }

  /** The number of non-overlapping occurrences of `w` in `s` from `from`
      on, as `s.split(w).length - 1` counts them. */
  function OccurrencesFrom(s: string, w: string, from: nat): (n: nat)
    requires |w| > 0
    decreases |s| - from
  {
    match IndexOfFrom(s, w, from)
    case None => 0
    case Some(i) => 1 + OccurrencesFrom(s, w, i + |w|)
  }

  function Occurrences(s: string, w: string): (n: nat)
    requires |w| > 0
    ensures n > 0 <==> Contains(s, w)
  {
    OccurrencesFrom(s, w, 0)
  }

  /** The positive weight `1 + log(occurrences + 1)`, abstracted: any weight
      of at least 1 for a positive count. */
  ghost predicate ValidWeight(weight: nat -> real)
  {
    forall n: nat :: n >= 1 ==> weight(n) >= 1.0
  }

  /** The score of a list of tokens, summed in list order. */
  function TokenScore(tokens: seq<string>, text: string, weight: nat -> real): real
    requires forall k :: 0 <= k < |tokens| ==> |tokens[k]| > 0
  {
    if |tokens| == 0 then 0.0
    else
      var t := tokens[|tokens| - 1];
      var n := Occurrences(text, t);
      TokenScore(tokens[..|tokens| - 1], text, weight) + (if n > 0 then weight(n) else 0.0)
  }

  /** The score `lexicalScore` computes: each distinct query token found in
      the lower-cased text adds its weight. */
  function ScoreOf(query: string, text: string, weight: nat -> real): real
  {
    var tokens := Distinct(QueryTokens(query));
    assert forall k :: 0 <= k < |tokens| ==> tokens[k] in QueryTokens(query);
    TokenScore(tokens, Lower(text), weight)
  }

  /** `lexicalScore`: the loop over the set of distinct query tokens. */
  method LexicalScore(query: string, text: string, weight: nat -> real) returns (score: real)
    ensures score == ScoreOf(query, text, weight)
  {
    var qTokens := QueryTokens(query);
    var tTokens := Lower(text);
    var uniq := Distinct(qTokens);
    assert forall k :: 0 <= k < |uniq| ==> uniq[k] in qTokens;
    score := 0.0;
    for i := 0 to |uniq|
      invariant score == TokenScore(uniq[..i], tTokens, weight)
    {
      var token := uniq[i];
      TokenScoreStep(uniq, i, tTokens, weight);
      var occurrences := Occurrences(tTokens, token);
      if occurrences > 0 {
        score := score + weight(occurrences);
      }
    }
    assert uniq[..|uniq|] == uniq;
  }

  lemma TokenScoreStep(tokens: seq<string>, i: nat, text: string, weight: nat -> real)
    requires i < |tokens| && forall k :: 0 <= k < |tokens| ==> |tokens[k]| > 0
    ensures var n := Occurrences(text, tokens[i]);
      TokenScore(tokens[..i + 1], text, weight) == TokenScore(tokens[..i], text, weight) + (if n > 0 then weight(n) else 0.0)
  {
    assert tokens[..i + 1][..i] == tokens[..i];
  }

  /** A token score is never negative, and is positive exactly when some
      token occurs in the text. */
  lemma {:induction false} TokenScorePositive(tokens: seq<string>, text: string, weight: nat -> real)
    requires forall k :: 0 <= k < |tokens| ==> |tokens[k]| > 0
    requires ValidWeight(weight)
    ensures TokenScore(tokens, text, weight) >= 0.0
    ensures TokenScore(tokens, text, weight) > 0.0 <==> exists k :: 0 <= k < |tokens| && Contains(text, tokens[k])
    decreases |tokens|
  {
    if |tokens| > 0 {
      var init := tokens[..|tokens| - 1];
      TokenScorePositive(init, text, weight);
      assert forall k :: 0 <= k < |init| ==> init[k] == tokens[k];
      var t := tokens[|tokens| - 1];
      if Occurrences(text, t) > 0 {
        assert weight(Occurrences(text, t)) >= 1.0;
      }
    }
  }

  /** `lexicalScore` is positive exactly when some query token occurs in
      the lower-cased text; repeated tokens count once. */
  lemma ScorePositiveIff(query: string, text: string, weight: nat -> real)
    requires ValidWeight(weight)
    ensures ScoreOf(query, text, weight) >= 0.0
    ensures ScoreOf(query, text, weight) > 0.0 <==> exists t :: t in QueryTokens(query) && Contains(Lower(text), t)
  {
    var tokens := Distinct(QueryTokens(query));
    assert forall k :: 0 <= k < |tokens| ==> tokens[k] in QueryTokens(query);
    TokenScorePositive(tokens, Lower(text), weight);
    if ScoreOf(query, text, weight) > 0.0 {
      var k :| 0 <= k < |tokens| && Contains(Lower(text), tokens[k]);
      assert tokens[k] in QueryTokens(query);
    }
    if exists t :: t in QueryTokens(query) && Contains(Lower(text), t) {
      var t :| t in QueryTokens(query) && Contains(Lower(text), t);
      assert t in tokens;
      var k :| 0 <= k < |tokens| && tokens[k] == t;
    }
  }

  /** A token already in the list adds nothing when it is repeated. */
  lemma RepeatedTokenCountsOnce(tokens: seq<string>, t: string)
    requires t in tokens
    ensures Distinct(tokens + [t]) == Distinct(tokens)
  {
    var all := tokens + [t];
    assert all[..|all| - 1] == tokens && all[|all| - 1] == t;
  }

  // ---------------------------------------------------------------------
  // Ranking of stored chunks

  /** A stored chunk with the title of its document. */
  datatype KnowledgeChunk = KnowledgeChunk(id: int, docId: int, chunkText: string, docTitle: string)

  /** `Number(score.toFixed(3))`: rounded to three decimals. */
  function Round3(x: real): (r: real)
    ensures x >= 1.0 ==> r >= 1.0
  {
    assert x >= 1.0 ==> JsRound(x * 1000.0) >= 1000 by {
      if x >= 1.0 {
        JsRoundMonotone(1000.0, x * 1000.0);
        JsRoundInt(1000);
      }
    }
    JsRound(x * 1000.0) as real / 1000.0
  }

  lemma Round3Monotone(x: real, y: real)
    requires x <= y
    ensures Round3(x) <= Round3(y)
  {
    JsRoundMonotone(x * 1000.0, y * 1000.0);
  }

  function ToItem(s: Scored<KnowledgeChunk>): RetrievalItem
  {
    RetrievalItem(s.item.docId, s.item.id, s.item.chunkText, Round3(s.score), Some(s.item.docTitle), None)
  }

  /** Every stored chunk with its lexical score. */
  function ScoreAll(query: string, chunks: seq<KnowledgeChunk>, weight: nat -> real): (r: seq<Scored<KnowledgeChunk>>)
    ensures |r| == |chunks|
    ensures forall i :: 0 <= i < |r| ==> r[i] == Scored(chunks[i], ScoreOf(query, chunks[i].chunkText, weight))
  {
    seq(|chunks|, i requires 0 <= i < |chunks| => Scored(chunks[i], ScoreOf(query, chunks[i].chunkText, weight)))
  }

  /** The ranking pipeline of `retrieveChunks`, over the stored chunks. */
  function RetrieveChunks(query: string, chunks: seq<KnowledgeChunk>, weight: nat -> real, topK: int := 4)
    : (r: seq<RetrievalItem>)
    ensures topK >= 0 ==> |r| <= topK
    ensures |r| == SliceLength(|Positive(ScoreAll(query, chunks, weight))|, topK)
  {
    var ranked := Rank(ScoreAll(query, chunks, weight), topK);
    seq(|ranked|, k requires 0 <= k < |ranked| => ToItem(ranked[k]))
  }

  /** What `retrieveChunks` returns: the best `topK` stored chunks with a
      positive score (at least 1, a single found token), ordered from the
      highest score to the lowest: as many as `slice(0, topK)` keeps of
      them, and a positively scored chunk left out scores, rounded, no more
      than any result. */
  lemma RetrieveChunksSpec(query: string, chunks: seq<KnowledgeChunk>, weight: nat -> real, topK: int)
    requires ValidWeight(weight)
    ensures var r := RetrieveChunks(query, chunks, weight, topK);
            && (topK >= 0 ==> |r| <= topK)
            && |r| == SliceLength(|Positive(ScoreAll(query, chunks, weight))|, topK)
            && LeftOutScoreNoMore(r, query, chunks, weight)
            && (forall k :: 0 <= k < |r| ==> r[k].score >= 1.0)
            && (forall i, j :: 0 <= i < j < |r| ==> r[i].score >= r[j].score)
            && (forall k :: 0 <= k < |r| ==> exists c :: c in chunks && r[k].chunkId == c.id && r[k].text == c.chunkText
                                                  && ScoreOf(query, c.chunkText, weight) > 0.0)
  {
    var scored := ScoreAll(query, chunks, weight);
    var ranked := Rank(scored, topK);
    var r := RetrieveChunks(query, chunks, weight, topK);
    forall k | 0 <= k < |r|
      ensures r[k].score >= 1.0
      ensures exists c :: c in chunks && r[k].chunkId == c.id && r[k].text == c.chunkText
                          && ScoreOf(query, c.chunkText, weight) > 0.0
    {
      RankedIsPositiveChunk(query, chunks, weight, ranked, k);
    }
    forall i, j | 0 <= i < j < |r|
      ensures r[i].score >= r[j].score
    {
      Round3Monotone(ranked[j].score, ranked[i].score);
    }
    RetrieveChunksTop(query, chunks, weight, topK);
  }

  /** A stored chunk with a positive score whose item is not among the
      results scores, rounded, no more than any result. */
  predicate LeftOutScoreNoMore(r: seq<RetrievalItem>, query: string, chunks: seq<KnowledgeChunk>, weight: nat -> real)
  {
    forall i, k :: 0 <= i < |chunks| && ScoreOf(query, chunks[i].chunkText, weight) > 0.0
      && ToItem(Scored(chunks[i], ScoreOf(query, chunks[i].chunkText, weight))) !in r && 0 <= k < |r|
      ==> Round3(ScoreOf(query, chunks[i].chunkText, weight)) <= r[k].score
  }

  lemma RetrieveChunksTop(query: string, chunks: seq<KnowledgeChunk>, weight: nat -> real, topK: int)
    ensures LeftOutScoreNoMore(RetrieveChunks(query, chunks, weight, topK), query, chunks, weight)
  {
    var r := RetrieveChunks(query, chunks, weight, topK);
    forall i, k | 0 <= i < |chunks| && ScoreOf(query, chunks[i].chunkText, weight) > 0.0
        && ToItem(Scored(chunks[i], ScoreOf(query, chunks[i].chunkText, weight))) !in r && 0 <= k < |r|
      ensures Round3(ScoreOf(query, chunks[i].chunkText, weight)) <= r[k].score
    {
      LeftOutItem(query, chunks, weight, topK, i, k);
    }
  }

  lemma LeftOutItem(query: string, chunks: seq<KnowledgeChunk>, weight: nat -> real, topK: int, i: int, k: int)
    requires 0 <= i < |chunks| && ScoreOf(query, chunks[i].chunkText, weight) > 0.0
    requires ToItem(Scored(chunks[i], ScoreOf(query, chunks[i].chunkText, weight))) !in RetrieveChunks(query, chunks, weight, topK)
    requires 0 <= k < |RetrieveChunks(query, chunks, weight, topK)|
    ensures Round3(ScoreOf(query, chunks[i].chunkText, weight)) <= RetrieveChunks(query, chunks, weight, topK)[k].score
  {
    var xs := ScoreAll(query, chunks, weight);
    var ranked := Rank(xs, topK);
    var r := RetrieveChunks(query, chunks, weight, topK);
    assert |r| == |ranked| && forall m :: 0 <= m < |ranked| ==> r[m] == ToItem(ranked[m]);
    assert xs[i] == Scored(chunks[i], ScoreOf(query, chunks[i].chunkText, weight));
    assert xs[i] !in ranked;
    LeftOutScoresNoMore(xs, topK, i);
    Round3Monotone(xs[i].score, ranked[k].score);
  }

  lemma RankedIsPositiveChunk(query: string, chunks: seq<KnowledgeChunk>, weight: nat -> real,
                              ranked: seq<Scored<KnowledgeChunk>>, k: nat)
    requires ValidWeight(weight)
    requires multiset(ranked) <= multiset(ScoreAll(query, chunks, weight))
    requires forall i :: 0 <= i < |ranked| ==> ranked[i].score > 0.0
    requires k < |ranked|
    ensures ranked[k].item in chunks && ranked[k].score == ScoreOf(query, ranked[k].item.chunkText, weight)
    ensures ranked[k].score >= 1.0 && Round3(ranked[k].score) >= 1.0
  {
    var scored := ScoreAll(query, chunks, weight);
    assert ranked[k] in multiset(scored);
    var i :| 0 <= i < |scored| && scored[i] == ranked[k];
    TokenScorePositiveAtLeastOne(query, chunks[i].chunkText, weight);
  }

  /** A positive score is at least 1, the weight of a single found token. */
  lemma TokenScorePositiveAtLeastOne(query: string, text: string, weight: nat -> real)
    requires ValidWeight(weight)
    ensures ScoreOf(query, text, weight) > 0.0 ==> ScoreOf(query, text, weight) >= 1.0
  {
    var tokens := Distinct(QueryTokens(query));
    assert forall k :: 0 <= k < |tokens| ==> tokens[k] in QueryTokens(query);
    TokenScoreAtLeastOne(tokens, Lower(text), weight);
  }

  lemma {:induction false} TokenScoreAtLeastOne(tokens: seq<string>, text: string, weight: nat -> real)
    requires forall k :: 0 <= k < |tokens| ==> |tokens[k]| > 0
    requires ValidWeight(weight)
    ensures TokenScore(tokens, text, weight) == 0.0 || TokenScore(tokens, text, weight) >= 1.0
    decreases |tokens|
  {
    if |tokens| > 0 {
      var init := tokens[..|tokens| - 1];
      TokenScoreAtLeastOne(init, text, weight);
      TokenScorePositive(init, text, weight);
    }
  }

  /** A query without any `[a-zа-я0-9]` character retrieves nothing. */
  lemma NoTokensNoResults(query: string, chunks: seq<KnowledgeChunk>, weight: nat -> real, topK: int)
    requires ValidWeight(weight)
    requires forall i :: 0 <= i < |query| ==> IsQuerySeparator(LowerChar(query[i]))
    ensures RetrieveChunks(query, chunks, weight, topK) == []
  {
    WordsEmptyIff(Lower(query), IsQuerySeparator);
    assert QueryTokens(query) == [];
    var scored := ScoreAll(query, chunks, weight);
    forall k | 0 <= k < |scored|
      ensures scored[k].score <= 0.0
    {
      ScorePositiveIff(query, chunks[k].chunkText, weight);
    }
    RankNothingPositive(scored, topK);
  }
}
