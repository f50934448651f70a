/** The duplicate filter of the trainer's scenario factory
    (`isTooSimilar`): a text is too similar to a list of others when its
    token set overlaps one of theirs with a Jaccard index above 0.75. */
module ScenarioDedup {
  import opened TrainerTokens
  import opened IntentMiner

  /** `score > 0.75`: the comparison is strict. */
  const DuplicateThreshold: real := 0.75

  /** The score of one comparison: shared tokens over all tokens, and 0
      when neither text has a token. */
  function DedupScore(a: set<string>, b: set<string>): (r: real)
    ensures 0.0 <= r <= 1.0
  {
    if |a + b| == 0 then 0.0
    else
      assert |a - b| + |b - a| + |a * b| == |a + b|;
      Ratio(|a * b|, |a + b|)
  }

  /** The duplicate filter's score and the miner's similarity agree, although
      the first guards only against an empty union and the second against
      either set being empty. */
  lemma DedupScoreIsJaccard(a: set<string>, b: set<string>)
    ensures DedupScore(a, b) == Jaccard(a, b)
  {
    if |a| == 0 || |b| == 0 {
      assert a * b == {};
    }
  }

  lemma DedupScoreSymmetric(a: set<string>, b: set<string>)
    ensures DedupScore(a, b) == DedupScore(b, a)
  {
    assert a * b == b * a && a + b == b + a;
  }

  /** `isTooSimilar(text, others)`, on the token set of `text`. */
  predicate TooSimilarTo(tokens: set<string>, others: seq<string>)
    ensures TooSimilarTo(tokens, others) ==> others != []
    ensures tokens == {} ==> !TooSimilarTo(tokens, others)
  {
    |others| > 0 && (DedupScore(tokens, TokenSet(others[0])) > DuplicateThreshold || TooSimilarTo(tokens, others[1..]))
  }

  predicate TooSimilar(text: string, others: seq<string>)
    ensures TooSimilar(text, others) ==> others != [] && LongTokens(text) != []
  {
    TooSimilarTo(TokenSet(text), others)
  }

  /** One of the others scores above the threshold. */
  predicate SomeAbove(tokens: set<string>, others: seq<string>)
  {
    exists k :: 0 <= k < |others| && DedupScore(tokens, TokenSet(others[k])) > DuplicateThreshold
  }

  /** The early-exit loop finds a text scoring above 0.75 exactly when
      there is one, so an empty list is never too similar. */
  lemma {:induction false} TooSimilarToSpec(tokens: set<string>, others: seq<string>)
    ensures TooSimilarTo(tokens, others) <==> SomeAbove(tokens, others)
  {
    if |others| > 0 {
      TooSimilarToSpec(tokens, others[1..]);
      if SomeAbove(tokens, others[1..]) {
        var k :| 0 <= k < |others[1..]| && DedupScore(tokens, TokenSet(others[1..][k])) > DuplicateThreshold;
        assert others[k + 1] == others[1..][k];
      }
      if SomeAbove(tokens, others) && DedupScore(tokens, TokenSet(others[0])) <= DuplicateThreshold {
        var k :| 0 <= k < |others| && DedupScore(tokens, TokenSet(others[k])) > DuplicateThreshold;
        assert others[1..][k - 1] == others[k];
      }
    }
  }

  lemma TooSimilarSpec(text: string, others: seq<string>)
    ensures TooSimilar(text, others) <==>
      exists k :: 0 <= k < |others| && DedupScore(TokenSet(text), TokenSet(others[k])) > DuplicateThreshold
    ensures !TooSimilar(text, [])
  {
    TooSimilarToSpec(TokenSet(text), others);
  }

  /** A text without tokens, such as a Cyrillic one, is never too similar
      to anything: it shares no token with any other text. */
  lemma TokenlessNeverTooSimilar(text: string, others: seq<string>)
    requires LongTokens(text) == []
    ensures !TooSimilar(text, others)
  {
    var a := TokenSet(text);
    assert a == {};
    TooSimilarToSpec(a, others);
    forall k | 0 <= k < |others|
      ensures DedupScore(a, TokenSet(others[k])) == 0.0
    {
      assert a * TokenSet(others[k]) == {};
    }
  }

  /** Appending texts to either end of the list can only turn "not too
      similar" into "too similar". */
  lemma TooSimilarMonotone(text: string, before: seq<string>, others: seq<string>, after: seq<string>)
    requires TooSimilar(text, others)
    ensures TooSimilar(text, before + others + after)
  {
    var a := TokenSet(text);
    TooSimilarToSpec(a, others);
    TooSimilarToSpec(a, before + others + after);
    var k :| 0 <= k < |others| && DedupScore(a, TokenSet(others[k])) > DuplicateThreshold;
    assert (before + others + after)[|before| + k] == others[k];
  }

  /** A text with a token is too similar to itself. */
  lemma TooSimilarToItself(text: string)
    requires LongTokens(text) != []
    ensures TooSimilar(text, [text])
  {
    var a := TokenSet(text);
    assert LongTokens(text)[0] in a;
    assert a * a == a && a + a == a;
  }
}
