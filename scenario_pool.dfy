/** The trainer's scenario pool builder (`buildScenarioPool`): for every
    intent it makes a fixed number of attempts, each generating a scenario
    from the next seed, and keeps those that pass validation and are not
    too similar to a scenario kept before. */
module ScenarioPool {
  import opened JsText
  import opened Types
  import opened ScenarioValidation
  import opened ScenarioFactory
  import opened ScenarioDedup
  import IntentMiner
  import TrainerRetrieval
  import TrainerTokens

  datatype PoolIntent = PoolIntent(id: string, title: string)

  datatype PoolScenario = PoolScenario(
    intentId: string, difficulty: Difficulty, persona: string, channel: string,
    difficultyScore: int, jsonBlob: ScenarioJson)

  /** What the builder uses from the scenario factory: `generateScenario`,
      `validateScenario` and `isTooSimilar`. */
  datatype Factory = Factory(
    generate: (string, Difficulty, nat) -> ScenarioJson,
    validate: ScenarioJson -> Validation,
    tooSimilar: (string, seq<string>) -> bool)

  /** The trainer's own factory, given the paraphrasing model and the
      knowledge base. */
  function TrainerFactory(paraphrase: Paraphrase, chunks: seq<TrainerRetrieval.KnowledgeChunk>): (f: Factory)
    ensures f.validate == Validate && f.tooSimilar == TooSimilar
  {
    Factory((t: string, d: Difficulty, seed: nat) => Generate(t, d, seed, paraphrase, chunks), Validate, TooSimilar)
  }

  /** The loop's two growing arrays: the kept scenarios and their texts. */
  datatype Pool = Pool(scenarios: seq<PoolScenario>, existingTexts: seq<string>)

  const PoolDifficulties: seq<Difficulty> := [Simple, Hard, Intolerant]

  /** `difficultyScore`. */
  function DifficultyScore(d: Difficulty): int
  {
    match d
    case Simple => 30
    case Hard => 60
    case Intolerant => 80
  }

  /** A harder difficulty has a higher score, all within [0,100]. */
  lemma HarderScoresHigher(i: nat, j: nat)
    requires i < j < |PoolDifficulties|
    ensures 0 <= DifficultyScore(PoolDifficulties[i]) < DifficultyScore(PoolDifficulties[j]) <= 100
  {
  }

  /** `textForDedup`: the texts of all steps joined with single spaces. */
  function DedupText(s: ScenarioJson): string
  {
    Join(seq(|s.steps|, k requires 0 <= k < |s.steps| => s.steps[k].text), " ")
  }

  /** How often the inner loop runs: `i < countPerIntent` from 0. */
  function AttemptCount(countPerIntent: int): nat
  {
    if countPerIntent > 0 then countPerIntent else 0
  }

  /** One pass of the inner loop, for the generator seed `seed`. */
  function Attempt(p: Pool, intent: PoolIntent, seed: nat, f: Factory): (r: Pool)
    ensures f.validate(f.generate(intent.title, PoolDifficulties[seed % 3], seed)) != Ok ==> r == p
    ensures r != p ==>
      && |r.scenarios| == |p.scenarios| + 1 && |r.existingTexts| == |p.existingTexts| + 1
      && r.scenarios[|p.scenarios|].intentId == intent.id
      && f.validate(r.scenarios[|p.scenarios|].jsonBlob) == Ok
      && !f.tooSimilar(r.existingTexts[|p.existingTexts|], p.existingTexts)
  {
    var difficulty := PoolDifficulties[seed % |PoolDifficulties|];
    var scenario := f.generate(intent.title, difficulty, seed);
    if f.validate(scenario) != Ok then p
    else
      var text := DedupText(scenario);
      if f.tooSimilar(text, p.existingTexts) then p
      else Pool(
        p.scenarios + [PoolScenario(intent.id, difficulty, scenario.persona, scenario.channel, DifficultyScore(difficulty), scenario)],
        p.existingTexts + [text])
  }

  /** The first `count` attempts for one intent, whose first seed is `base`. */
  function Attempts(p: Pool, intent: PoolIntent, base: nat, count: nat, f: Factory): Pool
  {
    if count == 0 then p
    else Attempt(Attempts(p, intent, base, count - 1, f), intent, base + count - 1, f)
  }

  /** The pool after the outer loop has seen `intents`; the seed starts at
      0 and grows by 3 per intent. */
  function BuildPool(intents: seq<PoolIntent>, countPerIntent: int, f: Factory): (r: Pool)
    ensures forall k :: 0 <= k < |r.scenarios| ==> exists j :: 0 <= j < |intents| && r.scenarios[k].intentId == intents[j].id
  {
    if |intents| == 0 then Pool([], [])
    else
      var n := |intents| - 1;
      var before := BuildPool(intents[..n], countPerIntent, f);
      AttemptsAppend(before, intents[n], 3 * n, AttemptCount(countPerIntent), f);
      var r := Attempts(before, intents[n], 3 * n, AttemptCount(countPerIntent), f);
      assert forall k :: 0 <= k < |before.scenarios| ==> r.scenarios[k] == before.scenarios[k];
      assert forall j :: 0 <= j < n ==> intents[..n][j] == intents[j];
      r
  }

  /** `buildScenarioPool`, with the factory it calls as a parameter. */
  method BuildScenarioPool(intents: seq<PoolIntent>, countPerIntent: int, f: Factory)
    returns (scenarios: seq<PoolScenario>)
    ensures scenarios == BuildPool(intents, countPerIntent, f).scenarios
  {
    scenarios := [];
    var existingTexts: seq<string> := [];
    var seed: nat := 0;
    for n := 0 to |intents|
      invariant seed == 3 * n
      invariant Pool(scenarios, existingTexts) == BuildPool(intents[..n], countPerIntent, f)
    {
      var intent := intents[n];
      ghost var start := Pool(scenarios, existingTexts);
      for i := 0 to AttemptCount(countPerIntent)
        invariant Pool(scenarios, existingTexts) == Attempts(start, intent, seed, i, f)
      {
        ghost var before := Pool(scenarios, existingTexts);
        AttemptsNext(start, intent, seed, i, f);
        var difficulty := PoolDifficulties[(seed + i) % |PoolDifficulties|];
        var scenario := f.generate(intent.title, difficulty, seed + i);
        var validation := f.validate(scenario);
        if validation != Ok {
          assert Attempt(before, intent, seed + i, f) == before;
          continue;
        }
        var textForDedup := DedupText(scenario);
        if f.tooSimilar(textForDedup, existingTexts) {
          assert Attempt(before, intent, seed + i, f) == before;
          continue;
        }
        existingTexts := existingTexts + [textForDedup];
        scenarios := scenarios + [PoolScenario(intent.id, difficulty, scenario.persona, scenario.channel, DifficultyScore(difficulty), scenario)];
        assert Pool(scenarios, existingTexts) == Attempt(before, intent, seed + i, f);
      }
      assert intents[..n + 1][..n] == intents[..n];
      assert BuildPool(intents[..n + 1], countPerIntent, f) == Attempts(start, intent, seed, AttemptCount(countPerIntent), f);
      seed := seed + 3;
    }
    assert intents[..|intents|] == intents;
  }

  // ----- What every pool keeps -----

  /** The persona the generator gives a scenario of each difficulty. */
  function PersonaOf(d: Difficulty): string
  {
    match d
    case Simple => "calm"
    case Hard => "anxious"
    case Intolerant => "impatient"
  }

  /** A kept scenario: valid, with its score and persona following from its
      difficulty. */
  predicate WellKept(s: PoolScenario, f: Factory)
  {
    && f.validate(s.jsonBlob) == Ok
    && s.difficultyScore == DifficultyScore(s.difficulty)
    && s.persona == s.jsonBlob.persona == PersonaOf(s.difficulty)
    && s.channel == s.jsonBlob.channel && (s.channel == Channels[0] || s.channel == Channels[1])
  }

  /** The arrays grow in lockstep, every kept scenario passed validation,
      and no kept text is too similar to the ones kept before it. */
  predicate PoolInvariant(p: Pool, f: Factory)
  {
    && |p.scenarios| == |p.existingTexts|
    && (forall k :: 0 <= k < |p.scenarios| ==> WellKept(p.scenarios[k], f))
    && (forall k :: 0 <= k < |p.scenarios| ==> p.existingTexts[k] == DedupText(p.scenarios[k].jsonBlob))
    && (forall k :: 0 <= k < |p.existingTexts| ==> !f.tooSimilar(p.existingTexts[k], p.existingTexts[..k]))
  }

  /** The generator picks the persona by the seed alone, and the channel
      from its table. */
  ghost predicate PersonaBySeed(f: Factory)
  {
    forall t, d, seed: nat :: f.generate(t, d, seed).persona == Personas[seed % 3] && f.generate(t, d, seed).channel == Channels[(seed + 1) % 2]
  }

  lemma TrainerPersonaBySeed(paraphrase: Paraphrase, chunks: seq<TrainerRetrieval.KnowledgeChunk>)
    ensures PersonaBySeed(TrainerFactory(paraphrase, chunks))
  {
    forall t, d, seed: nat
      ensures TrainerFactory(paraphrase, chunks).generate(t, d, seed).persona == Personas[seed % 3]
      ensures TrainerFactory(paraphrase, chunks).generate(t, d, seed).channel == Channels[(seed + 1) % 2]
    {
      GenerateSpec(t, d, seed, paraphrase, chunks);
    }
  }

  lemma AttemptKeeps(p: Pool, intent: PoolIntent, seed: nat, f: Factory)
    requires PoolInvariant(p, f) && PersonaBySeed(f)
    ensures PoolInvariant(Attempt(p, intent, seed, f), f)
  {
    var difficulty := PoolDifficulties[seed % 3];
    var scenario := f.generate(intent.title, difficulty, seed);
    var q := Attempt(p, intent, seed, f);
    if q != p {
      assert scenario.persona == Personas[seed % 3] == PersonaOf(difficulty);
      assert q.existingTexts[..|p.existingTexts|] == p.existingTexts;
      assert forall k :: 0 <= k < |p.existingTexts| ==> q.existingTexts[..k] == p.existingTexts[..k];
    }
  }

  lemma {:induction false} AttemptsKeep(p: Pool, intent: PoolIntent, base: nat, count: nat, f: Factory)
    requires PoolInvariant(p, f) && PersonaBySeed(f)
    ensures PoolInvariant(Attempts(p, intent, base, count, f), f)
  {
    if count > 0 {
      var i := count - 1;
      AttemptsKeep(p, intent, base, i, f);
      AttemptsNext(p, intent, base, i, f);
      assert i + 1 == count;
      AttemptKeepsInto(Attempts(p, intent, base, i, f), Attempts(p, intent, base, i + 1, f), intent, base + i, f);
    }
  }

  lemma AttemptsNext(p: Pool, intent: PoolIntent, base: nat, i: nat, f: Factory)
    ensures Attempts(p, intent, base, i + 1, f) == Attempt(Attempts(p, intent, base, i, f), intent, base + i, f)
  {
  }

  /** `AttemptKeeps` with the pool after the attempt named by the caller. */
  lemma AttemptKeepsInto(r: Pool, q: Pool, intent: PoolIntent, seed: nat, f: Factory)
    requires q == Attempt(r, intent, seed, f) && PoolInvariant(r, f) && PersonaBySeed(f)
    ensures PoolInvariant(q, f)
  {
    AttemptKeeps(r, intent, seed, f);
  }

  lemma {:induction false} BuildPoolKeepsWith(intents: seq<PoolIntent>, countPerIntent: int, f: Factory)
    requires PersonaBySeed(f)
    ensures PoolInvariant(BuildPool(intents, countPerIntent, f), f)
  {
    if |intents| > 0 {
      var n := |intents| - 1;
      BuildPoolKeepsWith(intents[..n], countPerIntent, f);
      AttemptsKeep(BuildPool(intents[..n], countPerIntent, f), intents[n], 3 * n, AttemptCount(countPerIntent), f);
    }
  }

  /** In a pool kept by the duplicate filter, no two texts overlap with a
      Jaccard index above 0.75, whichever order they were kept in. */
  lemma NoNearDuplicates(texts: seq<string>)
    requires forall k :: 0 <= k < |texts| ==> !TooSimilar(texts[k], texts[..k])
    ensures forall j, k :: 0 <= j < |texts| && 0 <= k < |texts| && j != k ==>
      DedupScore(IntentMiner.TokenSet(texts[j]), IntentMiner.TokenSet(texts[k])) <= DuplicateThreshold
  {
    forall j, k | 0 <= j < |texts| && 0 <= k < |texts| && j != k
      ensures DedupScore(IntentMiner.TokenSet(texts[j]), IntentMiner.TokenSet(texts[k])) <= DuplicateThreshold
    {
      var lo, hi := if j < k then j else k, if j < k then k else j;
      TooSimilarSpec(texts[hi], texts[..hi]);
      assert texts[..hi][lo] == texts[lo];
      DedupScoreSymmetric(IntentMiner.TokenSet(texts[j]), IntentMiner.TokenSet(texts[k]));
    }
  }

  /** What the trainer's pool promises: one text per scenario, every
      scenario valid (so it has evidence and no personal data in its client
      lines), its score and persona set by its difficulty, and no two texts
      overlapping with a Jaccard index above 0.75. */
  lemma BuildPoolKeeps(intents: seq<PoolIntent>, countPerIntent: int, paraphrase: Paraphrase, chunks: seq<TrainerRetrieval.KnowledgeChunk>)
    ensures var p := BuildPool(intents, countPerIntent, TrainerFactory(paraphrase, chunks));
      && |p.scenarios| == |p.existingTexts|
      && (forall k :: 0 <= k < |p.scenarios| ==>
            && Validate(p.scenarios[k].jsonBlob) == Ok
            && p.scenarios[k].difficultyScore == DifficultyScore(p.scenarios[k].difficulty)
            && p.scenarios[k].persona == PersonaOf(p.scenarios[k].difficulty)
            && p.scenarios[k].channel in Channels)
      && (forall j, k :: 0 <= j < |p.existingTexts| && 0 <= k < |p.existingTexts| && j != k ==>
            DedupScore(IntentMiner.TokenSet(p.existingTexts[j]), IntentMiner.TokenSet(p.existingTexts[k])) <= DuplicateThreshold)
  {
    var f := TrainerFactory(paraphrase, chunks);
    TrainerPersonaBySeed(paraphrase, chunks);
    BuildPoolKeepsWith(intents, countPerIntent, f);
    var p := BuildPool(intents, countPerIntent, f);
    assert forall k :: 0 <= k < |p.scenarios| ==> WellKept(p.scenarios[k], f);
    NoNearDuplicates(p.existingTexts);
  }

  // ----- Size and order -----

  /** The attempts for one intent keep what was there and add at most one
      scenario each, all for that intent. */
  lemma {:induction false} AttemptsAppend(p: Pool, intent: PoolIntent, base: nat, count: nat, f: Factory)
    ensures var q := Attempts(p, intent, base, count, f);
      && |p.scenarios| <= |q.scenarios| <= |p.scenarios| + count
      && q.scenarios[..|p.scenarios|] == p.scenarios
      && forall k :: |p.scenarios| <= k < |q.scenarios| ==> q.scenarios[k].intentId == intent.id
  {
    if count > 0 {
      AttemptsAppend(p, intent, base, count - 1, f);
      var r := Attempts(p, intent, base, count - 1, f);
      var q := Attempt(r, intent, base + count - 1, f);
      assert q.scenarios[..|r.scenarios|] == r.scenarios;
      assert q.scenarios[..|p.scenarios|] == r.scenarios[..|p.scenarios|];
    }
  }

  /** The pool holds at most `countPerIntent` scenarios per intent. */
  lemma {:induction false} BuildPoolSize(intents: seq<PoolIntent>, countPerIntent: int, f: Factory)
    ensures |BuildPool(intents, countPerIntent, f).scenarios| <= |intents| * AttemptCount(countPerIntent)
  {
    if |intents| > 0 {
      var n := |intents| - 1;
      BuildPoolSize(intents[..n], countPerIntent, f);
      AttemptsAppend(BuildPool(intents[..n], countPerIntent, f), intents[n], 3 * n, AttemptCount(countPerIntent), f);
      MulSucc(n, AttemptCount(countPerIntent));
    }
  }

  lemma MulSucc(n: nat, c: nat)
    ensures (n + 1) * c == n * c + c
  {
  }

  /** The scenarios are ordered by intent: the pool for a prefix of the
      intents is a prefix of the pool, and whatever follows it belongs to
      the next intent. */
  lemma BuildPoolOrder(intents: seq<PoolIntent>, n: int, countPerIntent: int, f: Factory)
    requires 0 <= n < |intents|
    ensures var before := BuildPool(intents[..n], countPerIntent, f).scenarios;
      var after := BuildPool(intents[..n + 1], countPerIntent, f).scenarios;
      && before <= after
      && forall k :: |before| <= k < |after| ==> after[k].intentId == intents[n].id
  {
    assert intents[..n + 1][..n] == intents[..n];
    AttemptsAppend(BuildPool(intents[..n], countPerIntent, f), intents[n], 3 * n, AttemptCount(countPerIntent), f);
  }

  // ----- Intents without tokens -----

  lemma {:induction false} RejectedAttempts(p: Pool, intent: PoolIntent, base: nat, count: nat, f: Factory)
    requires forall d, seed: nat :: f.validate(f.generate(intent.title, d, seed)) != Ok
    ensures Attempts(p, intent, base, count, f) == p
  {
    if count > 0 {
      RejectedAttempts(p, intent, base, count - 1, f);
    }
  }

  lemma {:induction false} RejectedIntents(intents: seq<PoolIntent>, countPerIntent: int, f: Factory)
    requires forall k, d, seed: nat :: 0 <= k < |intents| ==> f.validate(f.generate(intents[k].title, d, seed)) != Ok
    ensures BuildPool(intents, countPerIntent, f).scenarios == []
  {
    if |intents| > 0 {
      var n := |intents| - 1;
      RejectedIntents(intents[..n], countPerIntent, f);
      RejectedAttempts(BuildPool(intents[..n], countPerIntent, f), intents[n], 3 * n, AttemptCount(countPerIntent), f);
    }
  }

  /** Intent titles without tokens, such as Cyrillic ones, never find
      evidence, so the pool built for them is empty. */
  lemma TokenlessIntentsGiveEmptyPool(intents: seq<PoolIntent>, countPerIntent: int, paraphrase: Paraphrase, chunks: seq<TrainerRetrieval.KnowledgeChunk>)
    requires forall k :: 0 <= k < |intents| ==> TrainerTokens.Tokens(intents[k].title) == []
    ensures BuildPool(intents, countPerIntent, TrainerFactory(paraphrase, chunks)).scenarios == []
  {
    var f := TrainerFactory(paraphrase, chunks);
    forall k, d, seed: nat | 0 <= k < |intents|
      ensures f.validate(f.generate(intents[k].title, d, seed)) != Ok
    {
      TokenlessTitleHasNoEvidence(intents[k].title, d, seed, paraphrase, chunks);
    }
    RejectedIntents(intents, countPerIntent, f);
  }
}
