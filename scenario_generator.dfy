/** `generateScenario` of the root app: pick an archetype (or the built-in
    fallback), a persona and a difficulty, keep the retrieved knowledge
    chunks that are relevant to the archetype as cleaned facts, and let an
    optional language-model plan override some fields. The archetype list,
    the retrieval, the language model's answer and the random picks are
    inputs. */
module ScenarioGenerator {
  import opened JsText
  import opened Types
  import opened Ranking
  import opened FactCleaning

  /** The personas `generateScenario` draws from; `zoomer` is not among
      them. */
  const Personas: seq<Persona> := [Calm, Anxious, Aggressive, Slangy, Elderly, Corporate, Impatient, Gopnik]

  const Difficulties: seq<Difficulty> := [Simple, Hard, Intolerant]

  const ExamDifficulties: seq<Difficulty> := [Hard, Intolerant]

  function PersonaTone(p: Persona): string
  {
    match p
    case Calm => "говорит спокойно и вежливо"
    case Anxious => "нервничает и переживает, но готов слушать"
    case Aggressive => "говорит резко, перебивает и обвиняет"
    case Slangy => "использует молодежный сленг и шуточки"
    case Elderly => "говорит медленно, иногда отвлекается на детали"
    case Corporate => "держится официально, требует регламентов"
    case Impatient => "торопится, не любит долгих объяснений"
    case Zoomer => "говорит коротко, молодежно, но по делу"
    case Gopnik => "коротко, холодно, без лишних извинений"
  }

  function DifficultyHint(d: Difficulty): string
  {
    match d
    case Simple => "начинает с простой формулировки проблемы"
    case Hard => "задает уточняющие вопросы, ищет несостыковки"
    case Intolerant => "реагирует жестко на малейшие ошибки, может обострять диалог"
  }

  const OpenerStart: string := "Сценарий: "

  /** The opener's text around its three parts. */
  function Opener(title: string, tone: string, hint: string): (r: string)
    ensures |OpenerStart + title| <= |r| && r[..|OpenerStart + title|] == OpenerStart + title
    ensures Contains(r, tone)
    ensures |hint| + 1 <= |r| && r[|r| - |hint| - 1..] == hint + "."
  {
    var head := OpenerStart + title + ". Клиент ";
    var r := head + tone + ", " + hint + ".";
    assert r[..|OpenerStart + title|] == OpenerStart + title;
    assert StartsAt(r, |head|, tone);
    assert r[|r| - |hint| - 1..] == hint + ".";
    r
  }

  /** `buildOpener`: the scenario title, then the persona's manner and the
      difficulty's hint. */
  function BuildOpener(title: string, p: Persona, d: Difficulty): (r: string)
    ensures |OpenerStart + title| <= |r| && r[..|OpenerStart + title|] == OpenerStart + title
    ensures Contains(r, PersonaTone(p))
    ensures |DifficultyHint(d)| + 1 <= |r| && r[|r| - |DifficultyHint(d)| - 1..] == DifficultyHint(d) + "."
  {
    Opener(title, PersonaTone(p), DifficultyHint(d))
  }

  /** Two openers with the same manner and hint are equal only for the same
      title. */
  lemma OpenerDeterminesTitle(t1: string, t2: string, tone: string, hint: string)
    requires Opener(t1, tone, hint) == Opener(t2, tone, hint)
    ensures t1 == t2
  {
    var tail := ". Клиент " + tone + ", " + hint + ".";
    assert Opener(t1, tone, hint) == OpenerStart + t1 + tail;
    assert Opener(t2, tone, hint) == OpenerStart + t2 + tail;
    assert |t1| == |t2|;
    assert t1 == (OpenerStart + t1 + tail)[|OpenerStart|..|OpenerStart| + |t1|];
    assert t2 == (OpenerStart + t2 + tail)[|OpenerStart|..|OpenerStart| + |t2|];
  }

  /** The archetype used when none is loaded. */
  const FallbackArchetype: ScenarioArchetype := ScenarioArchetype(
    "fallback", "Generic angry customer", "Клиент недоволен комиссией и скоростью ответа",
    ["комиссии", "поддержка", "обслуживание"],
    ["Почему взяли комиссию?", "Сколько ждать решения?", "Кто отвечает за ошибку?"],
    ["требует конкретные сроки", "недоволен отсутствием прозрачности", "перебивает оператора"],
    ["объяснить комиссию и дать срок решения", "извиниться и предложить компенсацию"],
    None)

  /** `archetypes.length > 0 ? randomFrom(archetypes) : fallbackArchetype`. */
  function ChosenArchetype(archetypes: seq<ScenarioArchetype>, pick: nat): (a: ScenarioArchetype)
    requires pick < |archetypes| || archetypes == []
    ensures archetypes == [] ==> a == FallbackArchetype
    ensures archetypes != [] ==> a in archetypes
  {
    if |archetypes| > 0 then archetypes[pick] else FallbackArchetype
  }

  /** The difficulties a mode draws from: `hard` or `intolerant` in an
      exam, any of the three otherwise. */
  function DifficultiesFor(mode: string): (ds: seq<Difficulty>)
    ensures |ds| > 0
    ensures mode == "exam" ==> Simple !in ds
  {
    if mode == "exam" then ExamDifficulties else Difficulties
  }

  /** `factsQuery`: the title, the topics and the summary. */
  function FactsQuery(a: ScenarioArchetype): (q: string)
    ensures |q| == |a.title| + |Join(a.topics, " ")| + |a.summary| + 2
    ensures q[..|a.title|] == a.title && q[|q| - |a.summary|..] == a.summary
  {
    a.title + " " + Join(a.topics, " ") + " " + a.summary
  }

  /** `archetypeKeywords`: every lower-cased topic, then the lower-cased
      words of the title longer than four characters. */
  function Keywords(a: ScenarioArchetype): (r: seq<string>)
    ensures |r| >= |a.topics|
    ensures forall k :: 0 <= k < |a.topics| ==> r[k] == Lower(a.topics[k])
    ensures forall k :: |a.topics| <= k < |r| ==> |r[k]| > 4 && r[k] in Split(Lower(a.title), ' ')
  {
    var topics := seq(|a.topics|, k requires 0 <= k < |a.topics| => Lower(a.topics[k]));
    topics + LongWords(Split(Lower(a.title), ' '))
  }

  /** Every word of the lower-cased title longer than four characters is a
      keyword, after the topics. */
  lemma KeywordsHoldLongTitleWords(a: ScenarioArchetype)
    ensures forall w :: w in Split(Lower(a.title), ' ') && |w| > 4 ==> w in Keywords(a)[|a.topics|..]
  {
    var topics := seq(|a.topics|, k requires 0 <= k < |a.topics| => Lower(a.topics[k]));
    assert Keywords(a)[|a.topics|..] == LongWords(Split(Lower(a.title), ' '));
  }

  /** `.filter(w => w.length > 4)`. */
  function LongWords(ws: seq<string>): (r: seq<string>)
    ensures forall k :: 0 <= k < |r| ==> |r[k]| > 4 && r[k] in ws
    ensures forall w :: w in ws && |w| > 4 ==> w in r
  {
    if |ws| == 0 then []
    else
      var rest := LongWords(ws[1..]);
      assert forall w :: w in ws ==> w == ws[0] || w in ws[1..];
      if |ws[0]| > 4 then [ws[0]] + rest else rest
  }

  const InstructionWords: seq<string> := ["рекомендации", "кросс-функциональные", "для злых", "уменьшить скорость"]

  /** The relevance filter: a score of at least 0.5, some keyword longer
      than four characters in the lower-cased text, and no instruction
      phrase. */
  predicate IsRelevant(c: RetrievalItem, keywords: seq<string>)
    ensures IsRelevant(c, keywords) ==> c.score >= 0.5
    ensures IsRelevant(c, keywords) ==> exists k :: 0 <= k < |keywords| && |keywords[k]| > 4
    ensures (forall k :: 0 <= k < |keywords| ==> |keywords[k]| <= 4) ==> !IsRelevant(c, keywords)
  {
    var text := Lower(c.text);
    !(c.score < 0.5)
    && (exists k :: 0 <= k < |keywords| && |keywords[k]| > 4 && Contains(text, keywords[k]))
    && !ContainsAny(text, InstructionWords)
  }

  /** The relevant chunks, each cleaned and cut to 200 characters. */
  function RelevantFacts(chunks: seq<RetrievalItem>, keywords: seq<string>): (r: seq<string>)
    ensures |r| <= |chunks|
  {
    if |chunks| == 0 then []
    else
      (if IsRelevant(chunks[0], keywords) then [CleanAndTrim(chunks[0].text, 200)] else [])
      + RelevantFacts(chunks[1..], keywords)
  }

  /** Every fact is the cleaned text of a relevant chunk, and every relevant
      chunk gives a fact. */
  lemma {:induction false} RelevantFactsSpec(chunks: seq<RetrievalItem>, keywords: seq<string>)
    ensures forall f :: f in RelevantFacts(chunks, keywords) ==>
              exists i :: 0 <= i < |chunks| && IsRelevant(chunks[i], keywords) && f == CleanAndTrim(chunks[i].text, 200)
    ensures forall i :: 0 <= i < |chunks| && IsRelevant(chunks[i], keywords) ==>
              CleanAndTrim(chunks[i].text, 200) in RelevantFacts(chunks, keywords)
    decreases |chunks|
  {
    if |chunks| > 0 {
      var rest := RelevantFacts(chunks[1..], keywords);
      RelevantFactsSpec(chunks[1..], keywords);
      assert forall i :: 1 <= i < |chunks| ==> chunks[i] == chunks[1..][i - 1];
    }
  }

  /** A chunk scored below 0.5, or one with an instruction phrase, never
      becomes a fact. */
  lemma LowScoreDropped(chunks: seq<RetrievalItem>, keywords: seq<string>)
    requires forall i :: 0 <= i < |chunks| ==> chunks[i].score < 0.5
    ensures RelevantFacts(chunks, keywords) == []
  {
    RelevantFactsSpec(chunks, keywords);
  }

  /** The random draws of one `generateScenario` call. */
  datatype Picks = Picks(archetype: nat, persona: nat, difficulty: nat, goal: nat)

  /** Draws that `randomFrom` can make: each an index of its list. */
  predicate ValidPicks(mode: string, archetypes: seq<ScenarioArchetype>, picks: Picks)
  {
    (picks.archetype < |archetypes| || archetypes == [])
    && picks.persona < |Personas|
    && picks.difficulty < |DifficultiesFor(mode)|
    && var a := ChosenArchetype(archetypes, picks.archetype);
       picks.goal < |a.outcomes| || a.outcomes == []
  }

  /** The plan before the language model: archetype id, persona,
      difficulty, facts, opener, a random outcome as goal, and the first
      three gotchas as both escalation triggers and pitfalls. */
  function DeterministicPlan(mode: string, archetypes: seq<ScenarioArchetype>, retrieved: seq<RetrievalItem>, picks: Picks)
    : (p: ScenarioPlan)
    requires ValidPicks(mode, archetypes, picks)
    ensures var a := ChosenArchetype(archetypes, picks.archetype);
      && p.persona != Zoomer
      && (mode == "exam" ==> p.difficulty == Hard || p.difficulty == Intolerant)
      && p.escalationTriggers == p.pitfalls && |p.escalationTriggers| <= 3
      && |p.escalationTriggers| <= |a.gotchas| && p.escalationTriggers == a.gotchas[..|p.escalationTriggers|]
      && p.escalationTriggers == a.gotchas[..if |a.gotchas| < 3 then |a.gotchas| else 3]
      && (p.goal.Some? <==> a.outcomes != [])
      && (p.goal.Some? ==> p.goal.value in a.outcomes)
      && |p.facts| <= |retrieved|
  {
    PersonaPick(picks.persona);
    DifficultyPick(mode, picks.difficulty);
    var a := ChosenArchetype(archetypes, picks.archetype);
    var persona := Personas[picks.persona];
    var difficulty := DifficultiesFor(mode)[picks.difficulty];
    var triggers := SliceTo(a.gotchas, 3);
    assert triggers == a.gotchas[..if |a.gotchas| < 3 then |a.gotchas| else 3];
    ScenarioPlan(a.id, persona, difficulty, RelevantFacts(retrieved, Keywords(a)),
                 BuildOpener(a.title, persona, difficulty), RandomFrom(a.outcomes, picks.goal),
                 triggers, triggers)
  }

  /** The fields of the language model's JSON answer that the merge reads;
      `None` is a missing field. */
  datatype LlmPlan = LlmPlan(opener: Option<string>, goal: Option<string>,
                             escalationTriggers: Option<seq<string>>, pitfalls: Option<seq<string>>)

  /** `x || fallback` for a string field: only a non-empty string wins. */
  function OrString(x: Option<string>, fallback: string): string
  {
    if x.Some? && x.value != "" then x.value else fallback
  }

  /** The merge: with the model on and an answer, its truthy opener, goal,
      triggers and pitfalls replace the plan's; a failed call (`None`)
      leaves the plan. */
  function Merge(plan: ScenarioPlan, useLlm: bool, llm: Option<LlmPlan>): (r: ScenarioPlan)
    ensures r.archetypeId == plan.archetypeId && r.persona == plan.persona
    ensures r.difficulty == plan.difficulty && r.facts == plan.facts
    ensures !useLlm || llm.None? ==> r == plan
  {
    if !useLlm || llm.None? then plan
    else
      var l := llm.value;
      plan.(opener := OrString(l.opener, plan.opener),
            goal := if l.goal.Some? && l.goal.value != "" then l.goal else plan.goal,
            escalationTriggers := if l.escalationTriggers.Some? then l.escalationTriggers.value else plan.escalationTriggers,
            pitfalls := if l.pitfalls.Some? then l.pitfalls.value else plan.pitfalls)
  }

  /** An answer whose fields are all missing or empty changes nothing. */
  lemma EmptyAnswerKeepsPlan(plan: ScenarioPlan, l: LlmPlan)
    requires l.opener.None? || l.opener == Some("")
    requires l.goal.None? || l.goal == Some("")
    requires l.escalationTriggers.None? && l.pitfalls.None?
    ensures Merge(plan, true, Some(l)) == plan
  {
  }

  /** An answer's non-empty opener and goal and its lists, even empty ones
      (an array is truthy), replace the plan's. */
  lemma AnswerOverrides(plan: ScenarioPlan, l: LlmPlan)
    requires l.opener.Some? && l.opener.value != "" && l.goal.Some? && l.goal.value != ""
    requires l.escalationTriggers.Some? && l.pitfalls.Some?
    ensures var r := Merge(plan, true, Some(l));
      && r.opener == l.opener.value && r.goal == l.goal
      && r.escalationTriggers == l.escalationTriggers.value && r.pitfalls == l.pitfalls.value
  {
  }

  /** `generateScenario(mode)`. */
  function GenerateScenario(mode: string, archetypes: seq<ScenarioArchetype>, retrieve: string -> seq<RetrievalItem>,
                            useLlm: bool, llm: Option<LlmPlan>, picks: Picks): (p: ScenarioPlan)
    requires ValidPicks(mode, archetypes, picks)
    ensures p.persona != Zoomer
    ensures mode == "exam" ==> p.difficulty == Hard || p.difficulty == Intolerant
    ensures archetypes == [] ==> p.archetypeId == "fallback"
  {
    var a := ChosenArchetype(archetypes, picks.archetype);
    Merge(DeterministicPlan(mode, archetypes, retrieve(FactsQuery(a)), picks), useLlm, llm)
  }

  /** An exam never gets the simple difficulty, no scenario gets the
      zoomer persona, and the model never changes the archetype, persona,
      difficulty or facts. */
  lemma GeneratedChoices(mode: string, archetypes: seq<ScenarioArchetype>, retrieve: string -> seq<RetrievalItem>,
                         useLlm: bool, llm: Option<LlmPlan>, picks: Picks)
    requires ValidPicks(mode, archetypes, picks)
    ensures var p := GenerateScenario(mode, archetypes, retrieve, useLlm, llm, picks);
      && (mode == "exam" ==> p.difficulty == Hard || p.difficulty == Intolerant)
      && (mode != "exam" ==> p.difficulty == Difficulties[picks.difficulty])
      && p.persona != Zoomer
      && p.persona == Personas[picks.persona]
      && (archetypes == [] ==> p.archetypeId == "fallback")
      && (archetypes != [] ==> exists a :: a in archetypes && a.id == p.archetypeId)
  {
    var a := ChosenArchetype(archetypes, picks.archetype);
    var plan := DeterministicPlan(mode, archetypes, retrieve(FactsQuery(a)), picks);
    assert plan.archetypeId == a.id;
    assert plan.persona == Personas[picks.persona] && plan.difficulty == DifficultiesFor(mode)[picks.difficulty];
    PersonaPick(picks.persona);
    DifficultyPick(mode, picks.difficulty);
  }

  lemma PersonaPick(i: nat)
    requires i < |Personas|
    ensures Personas[i] != Zoomer
  {
  }

  lemma DifficultyPick(mode: string, i: nat)
    requires i < |DifficultiesFor(mode)|
    ensures mode == "exam" ==> DifficultiesFor(mode)[i] == Hard || DifficultiesFor(mode)[i] == Intolerant
  {
  }

  /** Without the model's answer, the triggers and the pitfalls are the
      same first three (or fewer) gotchas, and the goal is one of the
      outcomes, or undefined when there are none. */
  lemma PlanWithoutModel(mode: string, archetypes: seq<ScenarioArchetype>, retrieve: string -> seq<RetrievalItem>,
                         useLlm: bool, llm: Option<LlmPlan>, picks: Picks)
    requires ValidPicks(mode, archetypes, picks)
    requires !useLlm || llm.None?
    ensures var p := GenerateScenario(mode, archetypes, retrieve, useLlm, llm, picks);
      var a := ChosenArchetype(archetypes, picks.archetype);
      && p.escalationTriggers == p.pitfalls
      && |p.escalationTriggers| <= 3
      && p.escalationTriggers == a.gotchas[..|p.escalationTriggers|]
      && (|a.gotchas| >= 3 ==> |p.escalationTriggers| == 3)
      && p.escalationTriggers == a.gotchas[..if |a.gotchas| < 3 then |a.gotchas| else 3]
      && (p.goal.Some? <==> a.outcomes != [])
      && (p.goal.Some? ==> p.goal.value in a.outcomes)
      && p.opener == BuildOpener(a.title, p.persona, p.difficulty)
  {
  }

  /** The facts are the relevant retrieved chunks, cleaned, whatever the
      model answers. */
  lemma FactsAreRelevantChunks(mode: string, archetypes: seq<ScenarioArchetype>, retrieve: string -> seq<RetrievalItem>,
                               useLlm: bool, llm: Option<LlmPlan>, picks: Picks)
    requires ValidPicks(mode, archetypes, picks)
    ensures var p := GenerateScenario(mode, archetypes, retrieve, useLlm, llm, picks);
      var a := ChosenArchetype(archetypes, picks.archetype);
      var chunks := retrieve(FactsQuery(a));
      forall f :: f in p.facts ==>
        exists i :: 0 <= i < |chunks| && IsRelevant(chunks[i], Keywords(a)) && f == CleanAndTrim(chunks[i].text, 200)
  {
    var a := ChosenArchetype(archetypes, picks.archetype);
    RelevantFactsSpec(retrieve(FactsQuery(a)), Keywords(a));
  }
}
