/** The trainer's scenario generator (`generateScenario`): the seed picks
    the persona, channel, context and opening template by position, the
    model paraphrases the opening line, and the retriever supplies up to
    three pieces of evidence for the intent. */
module ScenarioFactory {
  import opened JsText
  import opened ScenarioValidation
  import opened Types
  import TrainerRetrieval
  import TrainerTokens

  const Personas: seq<string> := ["calm", "anxious", "impatient"]
  const Channels: seq<string> := ["chat", "call"]
  const Contexts: seq<string> := ["first_time", "already_tried", "urgent"]

  const Placeholder: string := "{intent}"

  /** `TEMPLATES`, each split around its placeholder: "Hello, I have a
      question about {intent}.", "I urgently need help with {intent}." and
      "I already tried to resolve {intent}, but it did not work.". */
  const TemplateHeads: seq<string> := ["Hello, I have a question about ", "I urgently need help with ", "I already tried to resolve "]
  const TemplateTails: seq<string> := [".", ".", ", but it did not work."]

  const Templates: seq<string> := [
    TemplateHeads[0] + Placeholder + TemplateTails[0],
    TemplateHeads[1] + Placeholder + TemplateTails[1],
    TemplateHeads[2] + Placeholder + TemplateTails[2]
  ]

  const ExpectedActions: seq<string> := ["clarify", "check", "explain", "offer"]

  /** The paraphrasing model, which is not part of this model: it maps the
      text, the persona and the channel to the client's line. */
  type Paraphrase = (string, string, string) -> string

  /** `complianceTraps`: one pair for intolerant clients, another for the
      rest. */
  function ComplianceTraps(d: Difficulty): (r: seq<string>)
  {
    if d == Intolerant then ["client asks for a code", "client pressures for a promise"]
    else ["client is rushing", "client asks for an exception"]
  }

  /** `template.replace("{intent}", intentTitle)` for the template the seed
      picks: the intent title stands in for the placeholder, with its "$"
      patterns expanded against the template. */
  function BaseLine(intentTitle: string, seed: nat): (r: string)
    ensures var k := seed % 3;
      r == TemplateHeads[k] + Substitution(intentTitle, Placeholder, TemplateHeads[k], TemplateTails[k]) + TemplateTails[k]
    ensures var k := seed % 3;
      '$' !in intentTitle ==> r == TemplateHeads[k] + intentTitle + TemplateTails[k]
  {
    BaseLineShape(intentTitle, seed);
    ReplaceFirst(Templates[seed % |Templates|], Placeholder, intentTitle)
  }

  function EvidenceOf(c: TrainerRetrieval.RetrievedChunk): Evidence
  {
    Evidence(c.id, c.docTitle, c.snippet)
  }

  /** `generateScenario` for a seed of at least 0, with the model's
      paraphrase and the knowledge base as parameters; the retriever's
      domain argument is `undefined` and its provider ignores it. */
  function Generate(intentTitle: string, difficulty: Difficulty, seed: nat, paraphrase: Paraphrase, chunks: seq<TrainerRetrieval.KnowledgeChunk>): (r: ScenarioJson)
    ensures |r.evidencePack| <= 3
    ensures r.persona in Personas && r.channel in Channels && r.context in Contexts
  {
    var persona := Personas[seed % |Personas|];
    var channel := Channels[(seed + 1) % |Channels|];
    var context := Contexts[(seed + 2) % |Contexts|];
    var clientLine := paraphrase(BaseLine(intentTitle, seed), persona, channel);
    ScenarioJson(
      persona, channel, context,
      [Step(Client, clientLine), Step(Manager, "")],
      ExpectedActions, ComplianceTraps(difficulty),
      EvidencePack(intentTitle, chunks))
  }

  /** The evidence: the retriever's top three chunks for the intent title. */
  function EvidencePack(intentTitle: string, chunks: seq<TrainerRetrieval.KnowledgeChunk>): (r: seq<Evidence>)
    ensures |r| <= 3
  {
    var found := TrainerRetrieval.Search(intentTitle, chunks, 3);
    seq(|found|, k requires 0 <= k < |found| => EvidenceOf(found[k]))
  }

  /** Replacing the first occurrence of a word that starts after a prefix
      without its first character. */
  lemma ReplaceAfterHead(head: string, w: string, tail: string, rep: string)
    requires |w| > 0 && w[0] !in head
    ensures ReplaceFirst(head + w + tail, w, rep) == head + Substitution(rep, w, head, tail) + tail
  {
    var s := head + w + tail;
    assert s[|head|..|head| + |w|] == w;
    assert StartsAt(s, |head|, w);
    ContainsAt(s, |head|, w);
    var r := IndexOf(s, w);
    assert r.Some?;
    var i := r.value;
    assert i == |head|;
    assert s[..i] == head && s[i + |w|..] == tail;
  }

  lemma HeadsHaveNoBrace(k: int)
    requires 0 <= k < 3
    ensures '{' !in TemplateHeads[k]
  {
  }

  /** Replacing the placeholder of a template, even when the title itself
      holds "{intent}". */
  lemma BaseLineShape(intentTitle: string, seed: nat)
    ensures var k := seed % 3;
      ReplaceFirst(Templates[k], Placeholder, intentTitle) == TemplateHeads[k] + Substitution(intentTitle, Placeholder, TemplateHeads[k], TemplateTails[k]) + TemplateTails[k]
  {
    var k := seed % 3;
    HeadsHaveNoBrace(k);
    ReplaceAfterHead(TemplateHeads[k], Placeholder, TemplateTails[k], intentTitle);
  }

  /** A title that is itself a "$" pattern is expanded: "$&" puts the
      placeholder back, so the first template comes out unchanged. */
  lemma MatchPatternTitle()
    ensures BaseLine("$&", 0) == Templates[0]
  {
    assert Substitution("$&", Placeholder, TemplateHeads[0], TemplateTails[0]) == Placeholder;
  }

  /** What `generateScenario` promises: the persona and the template are
      picked by the same position, so they always go together; the steps
      are the paraphrased client line and an empty manager line; the
      actions are fixed, the traps depend only on the difficulty, and the
      evidence is at most three of the knowledge base's chunks. */
  lemma GenerateSpec(intentTitle: string, difficulty: Difficulty, seed: nat, paraphrase: Paraphrase, chunks: seq<TrainerRetrieval.KnowledgeChunk>)
    ensures var r := Generate(intentTitle, difficulty, seed, paraphrase, chunks);
      var k := seed % 3;
      && r.persona == Personas[k]
      && r.channel == Channels[(seed + 1) % 2]
      && r.context == Contexts[(seed + 2) % 3]
      && r.steps == [Step(Client, paraphrase(TemplateHeads[k] + Substitution(intentTitle, Placeholder, TemplateHeads[k], TemplateTails[k]) + TemplateTails[k], Personas[k], r.channel)), Step(Manager, "")]
      && ('$' !in intentTitle ==> r.steps[0].text == paraphrase(TemplateHeads[k] + intentTitle + TemplateTails[k], Personas[k], r.channel))
      && r.expectedActions == ExpectedActions
      && r.complianceTraps == ComplianceTraps(difficulty)
      && (forall e :: e in r.evidencePack ==> exists c :: c in chunks && e.chunkId == c.id && e.docTitle == c.docTitle)
  {
    var k := seed % 3;
    var line := BaseLine(intentTitle, seed);
    assert line == TemplateHeads[k] + Substitution(intentTitle, Placeholder, TemplateHeads[k], TemplateTails[k]) + TemplateTails[k];
    EvidenceFromChunks(intentTitle, chunks);
  }

  /** Every piece of evidence names a chunk of the knowledge base. */
  lemma EvidenceFromChunks(intentTitle: string, chunks: seq<TrainerRetrieval.KnowledgeChunk>)
    ensures forall e :: e in EvidencePack(intentTitle, chunks) ==>
      exists c :: c in chunks && e.chunkId == c.id && e.docTitle == c.docTitle
  {
    var found := TrainerRetrieval.Search(intentTitle, chunks, 3);
    TrainerRetrieval.SearchSpec(intentTitle, chunks, 3);
    var pack := EvidencePack(intentTitle, chunks);
    forall k | 0 <= k < |pack|
      ensures exists c :: c in chunks && pack[k].chunkId == c.id && pack[k].docTitle == c.docTitle
    {
      var i :| 0 <= i < |chunks| && found[k] == TrainerRetrieval.Retrieved(chunks[i], TrainerTokens.Tokens(intentTitle));
      assert pack[k] == EvidenceOf(found[k]);
      assert chunks[i] in chunks;
    }
  }

  /** An intent title without tokens, such as a Cyrillic one, finds no
      evidence, so its scenario is always rejected. */
  lemma TokenlessTitleHasNoEvidence(intentTitle: string, difficulty: Difficulty, seed: nat, paraphrase: Paraphrase, chunks: seq<TrainerRetrieval.KnowledgeChunk>)
    requires TrainerTokens.Tokens(intentTitle) == []
    ensures Validate(Generate(intentTitle, difficulty, seed, paraphrase, chunks)) == Rejected(NoEvidence)
  {
  }
}
