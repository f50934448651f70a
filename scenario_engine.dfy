/** The root app's scripted client: the opening line of a scenario, and the
    next client line, which escalates after a weak answer and otherwise
    cycles through the archetype's sample questions. The archetype list,
    read from a file cache in the app, is an input, and so are the random
    picks. */
module ScenarioEngine {
  import opened JsText
  import opened Types

  /** `personaVoices`. */
  function PersonaVoice(p: Persona): string
  {
    match p
    case Calm => "Спокойный тон"
    case Anxious => "Взволнованный голос"
    case Aggressive => "Резкий голос"
    case Slangy => "Сленговый голос"
    case Elderly => "Неторопливый голос"
    case Corporate => "Официальный тон"
    case Impatient => "Торопливый голос"
    case Zoomer => "Молодёжный тон"
    case Gopnik => "Холодный, слегка раздраженный голос"
  }

  /** `escalationLines`: what an impatient client says when escalating. */
  const EscalationLines: seq<string> := [
    "Вы мне можете конкретно объяснить, что вы сейчас сделаете?",
    "Почему это не было сказано сразу? Это несерьезно.",
    "У меня нет времени слушать общие слова, отвечайте по делу."
  ]

  const DefaultOpening: string := "У меня есть проблема, помогите разобраться."

  const DefaultFollowUp: string := "И что вы предлагаете сделать дальше?"

  function ToneSuffix(d: Difficulty): string
  {
    match d
    case Intolerant => " и нетерпеливый"
    case Hard => " и требовательный"
    case Simple => ""
  }

  /** `tonePrefix`: the persona's voice, followed by a remark on the
      difficulty for every difficulty but `simple`. */
  function TonePrefix(p: Persona, d: Difficulty): (r: string)
    ensures |PersonaVoice(p)| <= |r| && r[..|PersonaVoice(p)|] == PersonaVoice(p)
    ensures r == PersonaVoice(p) <==> d == Simple
  {
    var v := PersonaVoice(p);
    assert (v + ToneSuffix(d))[..|v|] == v;
    v + ToneSuffix(d)
  }

  /** `loadArchetypes().find((a) => a.id === id)`: the first archetype with
      the id, if any. */
  function FindArchetype(archetypes: seq<ScenarioArchetype>, id: string): (r: Option<ScenarioArchetype>)
    ensures r.None? <==> forall k :: 0 <= k < |archetypes| ==> archetypes[k].id != id
    ensures r.Some? ==>
              exists k :: 0 <= k < |archetypes| && archetypes[k] == r.value && r.value.id == id
                          && forall j :: 0 <= j < k ==> archetypes[j].id != id
  {
    if |archetypes| == 0 then None
    else if archetypes[0].id == id then Some(archetypes[0])
    else
      var r := FindArchetype(archetypes[1..], id);
      assert forall k :: 1 <= k < |archetypes| ==> archetypes[k] == archetypes[1..][k - 1];
      r
  }

  /** `initialClientMessage`: the first sample question of the plan's
      archetype, or a fixed opening when the archetype is unknown or has no
      questions. `??` keeps an empty first question. */
  function InitialClientMessage(archetypes: seq<ScenarioArchetype>, plan: ScenarioPlan): (r: string)
    ensures r == DefaultOpening
            || exists a :: a in archetypes && a.id == plan.archetypeId && |a.sampleQuestions| > 0
                           && r == a.sampleQuestions[0]
    ensures (forall a :: a in archetypes ==> a.id != plan.archetypeId) ==> r == DefaultOpening
    ensures forall k :: 0 <= k < |archetypes| && archetypes[k].id == plan.archetypeId
                        && (forall j :: 0 <= j < k ==> archetypes[j].id != plan.archetypeId) ==>
              r == if |archetypes[k].sampleQuestions| > 0 then archetypes[k].sampleQuestions[0] else DefaultOpening
  {
    match FindArchetype(archetypes, plan.archetypeId)
    case Some(a) => if |a.sampleQuestions| > 0 then a.sampleQuestions[0] else DefaultOpening
    case None => DefaultOpening
  }

  /** JavaScript's `%` on integers: the remainder takes the sign of the
      dividend. */
  function TruncRem(a: int, n: int): (r: int)
    requires n > 0
    ensures -n < r < n
    ensures a >= 0 ==> r == a % n
    ensures r < 0 ==> a < 0
  {
    if a >= 0 then a % n else -((-a) % n)
  }

  /** `followUps[(step + 1) % followUps.length] || fallback`: a missing
      entry (no questions, so the index is `NaN`, or a negative index) and an
      empty question both give the fallback line. */
  function FollowUp(followUps: seq<string>, step: int): (r: string)
    ensures r == DefaultFollowUp || r in followUps
  {
    if |followUps| == 0 then DefaultFollowUp
    else
      var i := TruncRem(step + 1, |followUps|);
      if i < 0 || followUps[i] == "" then DefaultFollowUp else followUps[i]
  }

  /** The sample questions of the plan's archetype, or none. */
  function FollowUps(archetypes: seq<ScenarioArchetype>, plan: ScenarioPlan): (r: seq<string>)
    ensures r != [] ==> exists a :: a in archetypes && a.id == plan.archetypeId && r == a.sampleQuestions
  {
    match FindArchetype(archetypes, plan.archetypeId)
    case Some(a) => a.sampleQuestions
    case None => []
  }

  /** The escalation line: one of the fixed lines, a space and a random
      trigger (the text `undefined` when there is none), trimmed. */
  function Escalation(triggers: seq<string>, linePick: nat, triggerPick: nat): (r: string)
    requires linePick < |EscalationLines|
    requires triggerPick < |triggers| || |triggers| == 0
    ensures r != [] && EscalationLines[linePick] <= r
    ensures !IsSpace(r[0]) && !IsSpace(r[|r| - 1])
  {
    EscalationLineEdges(linePick);
    TrimKeepsLine(EscalationLines[linePick], Shown(RandomFrom(triggers, triggerPick)));
    Trim(EscalationLines[linePick] + " " + Shown(RandomFrom(triggers, triggerPick)))
  }

  /** `nextClientMessage`: below 55 points the client escalates, otherwise
      it asks the next sample question. */
  function NextClientMessage(archetypes: seq<ScenarioArchetype>, plan: ScenarioPlan, step: int,
                             evaluationScore: int, linePick: nat, triggerPick: nat): (r: string)
    requires linePick < |EscalationLines|
    requires triggerPick < |plan.escalationTriggers| || |plan.escalationTriggers| == 0
    ensures evaluationScore >= 55 ==> r == DefaultFollowUp || r in FollowUps(archetypes, plan)
  {
    if evaluationScore < 55 then Escalation(plan.escalationTriggers, linePick, triggerPick)
    else FollowUp(FollowUps(archetypes, plan), step)
  }

  /** No escalation line has white space at either end. */
  lemma EscalationLineEdges(i: nat)
    requires i < |EscalationLines|
    ensures var l := EscalationLines[i]; |l| > 0 && !IsSpace(l[0]) && !IsSpace(l[|l| - 1])
  {
    var l := EscalationLines[i];
    // A line's first character is reached through a short prefix of it.
    if i == 0 {
      assert "Вы мне можете конкретно"[0] == 'В';
      assert l[0] == 'В' && l[|l| - 1] == '?';
    } else if i == 1 {
      assert "Почему это не было"[0] == 'П';
      assert l[0] == 'П' && l[|l| - 1] == '.';
    } else {
      assert "У меня нет времени"[0] == 'У';
      assert l[0] == 'У' && l[|l| - 1] == '.';
    }
  }

  /** Trimming a line with no white space at its ends, a space and more
      text keeps the line. */
  lemma TrimKeepsLine(l: string, rest: string)
    requires l != [] && !IsSpace(l[0]) && !IsSpace(l[|l| - 1])
    ensures var r := Trim(l + " " + rest);
      r != [] && l <= r && !IsSpace(r[0]) && !IsSpace(r[|r| - 1])
  {
    var s := l + " " + rest;
    TrimSpec(s);
    assert s[0] == l[0];
    assert LeadingSpaces(s) == 0;
    var t := Trim(s);
    assert s[|l| - 1] == l[|l| - 1];
    assert s[0..|t|] == t;
    assert t[..|l|] == s[..|l|] == l;
  }

  /** After a weak answer the reply is an escalation line, a space and the
      picked trigger of the plan, when the trigger does not end in white
      space. */
  lemma EscalationUsesTrigger(archetypes: seq<ScenarioArchetype>, plan: ScenarioPlan, step: int,
                              evaluationScore: int, linePick: nat, triggerPick: nat)
    requires linePick < |EscalationLines| && triggerPick < |plan.escalationTriggers|
    requires evaluationScore < 55
    requires var t := plan.escalationTriggers[triggerPick]; t != [] && !IsSpace(t[|t| - 1])
    ensures NextClientMessage(archetypes, plan, step, evaluationScore, linePick, triggerPick)
            == EscalationLines[linePick] + " " + plan.escalationTriggers[triggerPick]
  {
    var s := EscalationLines[linePick] + " " + plan.escalationTriggers[triggerPick];
    EscalationLineEdges(linePick);
    assert s[0] == EscalationLines[linePick][0];
    TrimNoEdgeSpace(s);
  }

  /** A plan without escalation triggers makes the client say the literal
      text `undefined` after the escalation line. */
  lemma EscalationWithoutTriggers(archetypes: seq<ScenarioArchetype>, plan: ScenarioPlan, step: int,
                                  evaluationScore: int, linePick: nat, triggerPick: nat)
    requires linePick < |EscalationLines| && plan.escalationTriggers == []
    requires evaluationScore < 55
    ensures NextClientMessage(archetypes, plan, step, evaluationScore, linePick, triggerPick)
            == EscalationLines[linePick] + " undefined"
  {
    var s := EscalationLines[linePick] + " undefined";
    assert Shown(RandomFrom(plan.escalationTriggers, triggerPick)) == "undefined";
    EscalationLineEdges(linePick);
    assert s[0] == EscalationLines[linePick][0];
    assert s[|s| - 1] == 'd';
    TrimNoEdgeSpace(s);
  }

  /** From a step of -1 on, after a good answer the client asks question
      `(step + 1) mod n` of its archetype's `n` questions, unless that one
      is empty. */
  lemma FollowUpCycles(archetypes: seq<ScenarioArchetype>, plan: ScenarioPlan, step: int,
                       evaluationScore: int, linePick: nat, triggerPick: nat)
    requires linePick < |EscalationLines|
    requires triggerPick < |plan.escalationTriggers| || |plan.escalationTriggers| == 0
    requires evaluationScore >= 55 && step >= -1
    requires var qs := FollowUps(archetypes, plan); qs != [] && qs[(step + 1) % |qs|] != ""
    ensures var qs := FollowUps(archetypes, plan);
            NextClientMessage(archetypes, plan, step, evaluationScore, linePick, triggerPick)
            == qs[(step + 1) % |qs|]
  {
  }

  /** The questions repeat with the period of their number. */
  lemma FollowUpPeriodic(followUps: seq<string>, step: int)
    requires step >= -1
    ensures FollowUp(followUps, step + |followUps|) == FollowUp(followUps, step)
  {
    if |followUps| > 0 {
      ModShift(step + 1, |followUps|);
    }
  }

  lemma ModShift(a: nat, n: nat)
    requires n > 0
    ensures (a + n) % n == a % n
  {
    var q, r := a / n, a % n;
    var q', r' := (a + n) / n, (a + n) % n;
    assert n * (q + 1 - q') == r' - r;
    MulSmall(n, q + 1 - q');
  }

  /** A multiple of `n` strictly between `-n` and `n` is zero. */
  lemma MulSmall(n: int, k: int)
    requires n > 0 && -n < n * k < n
    ensures k == 0
  {
    if k >= 1 {
      MulAtLeast(n, k);
    } else if k <= -1 {
      MulAtLeast(n, -k);
      MulNeg(n, k);
    }
  }

  lemma MulAtLeast(n: int, m: int)
    requires n > 0 && m >= 1
    ensures n * m >= n
  {
    assert n * m == n + n * (m - 1);
  }

  lemma MulNeg(n: int, k: int)
    ensures n * k == -(n * -k)
  {
  }

  /** An unknown archetype, or one without questions, leaves only the
      fallback line after a good answer. */
  lemma NoQuestionsFallback(archetypes: seq<ScenarioArchetype>, plan: ScenarioPlan, step: int,
                            evaluationScore: int, linePick: nat, triggerPick: nat)
    requires linePick < |EscalationLines|
    requires triggerPick < |plan.escalationTriggers| || |plan.escalationTriggers| == 0
    requires evaluationScore >= 55
    requires forall a :: a in archetypes && a.id == plan.archetypeId ==> a.sampleQuestions == []
    ensures NextClientMessage(archetypes, plan, step, evaluationScore, linePick, triggerPick) == DefaultFollowUp
  {
  }

  /** A negative step whose successor is not a multiple of the number of
      questions indexes before the list and yields the fallback line. */
  lemma NegativeStepFallback(followUps: seq<string>, step: int)
    requires followUps != [] && step + 1 < 0 && (-(step + 1)) % |followUps| != 0
    ensures FollowUp(followUps, step) == DefaultFollowUp
  {
  }

  /** The client's lines never depend on the plan's knowledge facts. */
  lemma IgnoresFacts(archetypes: seq<ScenarioArchetype>, plan: ScenarioPlan, facts: seq<string>, step: int,
                     evaluationScore: int, linePick: nat, triggerPick: nat)
    requires linePick < |EscalationLines|
    requires triggerPick < |plan.escalationTriggers| || |plan.escalationTriggers| == 0
    ensures InitialClientMessage(archetypes, plan.(facts := facts)) == InitialClientMessage(archetypes, plan)
    ensures NextClientMessage(archetypes, plan.(facts := facts), step, evaluationScore, linePick, triggerPick)
            == NextClientMessage(archetypes, plan, step, evaluationScore, linePick, triggerPick)
  {
  }
}
