/** The trainer's database seed script: it stores every parsed question as
    it is, then stores the scenario pool with each persona and channel
    clamped to the values the schema allows. */
module SeedScript {
  import opened QuestionCsv
  import opened ScenarioPool
  import opened ScenarioFactory
  import TrainerRetrieval

  /** The record the seed script creates for a row: `count: q.count`, with
      no default and no check for an empty question. */
  function AsIs(row: CsvRow): StoredQuestion
  {
    StoredQuestion(row.question, row.count, row.domain)
  }

  /** The question loop of the seed script: one record per row, in order. */
  method SeedQuestions(rows: seq<CsvRow>) returns (created: seq<StoredQuestion>)
    ensures |created| == |rows|
    ensures forall k :: 0 <= k < |rows| ==> created[k] == AsIs(rows[k])
  {
    created := [];
    for i := 0 to |rows|
      invariant |created| == i
      invariant forall k :: 0 <= k < i ==> created[k] == AsIs(rows[k])
    {
      created := created + [AsIs(rows[i])];
    }
  }

  /** The seed script stores the same records as the import route exactly
      when every row has a question and a count that is neither 0 nor NaN. */
  lemma SeedAgreesWithImport(rows: seq<CsvRow>)
    ensures (seq(|rows|, k requires 0 <= k < |rows| => AsIs(rows[k])) == Imported(rows)) <==>
      forall k :: 0 <= k < |rows| ==> rows[k].question != "" && Truthy(rows[k].count)
  {
    var asIs := seq(|rows|, k requires 0 <= k < |rows| => AsIs(rows[k]));
    ImportedSpec(rows);
    if forall k :: 0 <= k < |rows| ==> rows[k].question != "" && Truthy(rows[k].count) {
      AllStored(rows);
    } else {
      var k :| 0 <= k < |rows| && !(rows[k].question != "" && Truthy(rows[k].count));
      assert AsIs(rows[k]) !in Imported(rows);
      assert asIs[k] == AsIs(rows[k]);
    }
  }

  lemma {:induction false} AllStored(rows: seq<CsvRow>)
    requires forall k :: 0 <= k < |rows| ==> rows[k].question != "" && Truthy(rows[k].count)
    ensures Imported(rows) == seq(|rows|, k requires 0 <= k < |rows| => AsIs(rows[k]))
  {
    if |rows| > 0 {
      AllStored(rows[..|rows| - 1]);
    }
  }

  const PersonaAllowed: set<string> := {"calm", "anxious", "impatient"}
  const ChannelAllowed: set<string> := {"chat", "call"}

  /** The payload stored for a pool scenario: an unknown persona becomes
      "calm" and an unknown channel "chat"; everything else passes through. */
  function Clamp(s: PoolScenario): (r: PoolScenario)
    ensures r.persona in PersonaAllowed && r.channel in ChannelAllowed
    ensures s.persona in PersonaAllowed ==> r.persona == s.persona
    ensures s.channel in ChannelAllowed ==> r.channel == s.channel
    ensures r.(persona := s.persona, channel := s.channel) == s
  {
    var persona := if s.persona in PersonaAllowed then s.persona else "calm";
    var channel := if s.channel in ChannelAllowed then s.channel else "chat";
    s.(persona := persona, channel := channel)
  }

  lemma ClampIdempotent(s: PoolScenario)
    ensures Clamp(Clamp(s)) == Clamp(s)
  {
  }

  /** The scenario loop of the seed script, with the payloads it stores as
      its result. */
  method SeedScenarios(scenarios: seq<PoolScenario>) returns (created: seq<PoolScenario>)
    ensures |created| == |scenarios|
    ensures forall k :: 0 <= k < |scenarios| ==> created[k] == Clamp(scenarios[k])
  {
    created := [];
    for i := 0 to |scenarios|
      invariant |created| == i
      invariant forall k :: 0 <= k < i ==> created[k] == Clamp(scenarios[k])
    {
      created := created + [Clamp(scenarios[i])];
    }
  }

  /** The clamp never changes a scenario of the trainer's own pool: every
      persona and channel the generator picks is already allowed. */
  lemma PoolNeedsNoClamp(intents: seq<PoolIntent>, countPerIntent: int, paraphrase: Paraphrase, chunks: seq<TrainerRetrieval.KnowledgeChunk>)
    ensures var pool := BuildPool(intents, countPerIntent, TrainerFactory(paraphrase, chunks)).scenarios;
      forall k :: 0 <= k < |pool| ==> Clamp(pool[k]) == pool[k]
  {
    BuildPoolKeeps(intents, countPerIntent, paraphrase, chunks);
    var pool := BuildPool(intents, countPerIntent, TrainerFactory(paraphrase, chunks)).scenarios;
    forall k | 0 <= k < |pool|
      ensures Clamp(pool[k]) == pool[k]
    {
      assert pool[k].persona in PersonaAllowed by {
        match pool[k].difficulty
        case Simple =>
        case Hard =>
        case Intolerant =>
      }
    }
  }
}
