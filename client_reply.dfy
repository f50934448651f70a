/** The trainer variant's scripted client: the next client line after a
    manager's answer, chosen by a fixed priority of rules. */
module ClientReply {
  import opened JsText
  import opened TrainerScoring

  const AvatarPiiPatterns: seq<string> := ["passport", "card number", "cvv", "pin", "password"]

  const RefusalLine: string := "I cannot share that data. What can we do without it?"
  const UrgentLine: string := "I need a solution right now. What should I do next?"
  const WorriedLine: string := "I am worried this is urgent. Can you confirm the next step?"
  const ThanksLine: string := "Thanks. What should I do right now?"

  function ClarifyLine(action: string): string
  {
    "It is still unclear. Can you clarify " + action + "?"
  }

  datatype ScenarioShape = ScenarioShape(persona: string, channel: string, context: string, expectedActions: seq<string>)

  /** The kinds of line the client can answer with. */
  datatype Reply = Refuse | Clarify(action: string) | Urgent | Worried | Thank

  function ReplyText(k: Reply): string
  {
    match k
    case Refuse => RefusalLine
    case Clarify(action) => ClarifyLine(action)
    case Urgent => UrgentLine
    case Worried => WorriedLine
    case Thank => ThanksLine
  }

  /** The rule `nextClientReply` applies: a PII request is refused whatever
      else holds. */
  function NextReply(scenario: ScenarioShape, managerAnswer: string, turnCount: int): (k: Reply)
    ensures k.Refuse? <==> MatchesAny(managerAnswer, AvatarPiiPatterns)
  {
    if MatchesAny(managerAnswer, AvatarPiiPatterns) then Refuse
    else
      var missing := MissingExpectedActions(managerAnswer, scenario.expectedActions);
      if |missing| > 0 then Clarify(missing[0])
      else if scenario.persona == "impatient" && turnCount > 1 then Urgent
      else if scenario.persona == "anxious" then Worried
      else Thank
  }

  /** `nextClientReply`. */
  function NextClientReply(scenario: ScenarioShape, managerAnswer: string, turnCount: int): (r: string)
    ensures MatchesAny(managerAnswer, AvatarPiiPatterns) ==> r == RefusalLine
    ensures var missing := MissingExpectedActions(managerAnswer, scenario.expectedActions);
      !MatchesAny(managerAnswer, AvatarPiiPatterns) && missing != [] ==> r == ClarifyLine(missing[0])
    ensures !MatchesAny(managerAnswer, AvatarPiiPatterns) && MissingExpectedActions(managerAnswer, scenario.expectedActions) == []
      ==> r in {UrgentLine, WorriedLine, ThanksLine}
  {
    ReplyText(NextReply(scenario, managerAnswer, turnCount))
  }

  /** Without a PII request, a missing action makes the client ask about the
      first expected action, in list order, that the answer leaves out. */
  lemma AsksForFirstMissing(scenario: ScenarioShape, managerAnswer: string, turnCount: int)
    requires !MatchesAny(managerAnswer, AvatarPiiPatterns)
    requires exists i :: 0 <= i < |scenario.expectedActions|
                      && !Contains(Lower(managerAnswer), Lower(scenario.expectedActions[i]))
    ensures exists j :: 0 <= j < |scenario.expectedActions|
                     && NextReply(scenario, managerAnswer, turnCount) == Clarify(scenario.expectedActions[j])
                     && !Contains(Lower(managerAnswer), Lower(scenario.expectedActions[j]))
                     && forall i :: 0 <= i < j ==> Contains(Lower(managerAnswer), Lower(scenario.expectedActions[i]))
  {
    MissingStepsIff(managerAnswer, scenario.expectedActions);
    FirstMissing(managerAnswer, scenario.expectedActions);
  }

  /** Once every expected action is covered and no PII is asked for, the
      persona and the turn decide: an impatient client from the second turn
      on is urgent, an anxious one worried, everyone else thanks. */
  lemma PersonaLines(scenario: ScenarioShape, managerAnswer: string, turnCount: int)
    requires !MatchesAny(managerAnswer, AvatarPiiPatterns)
    requires forall i :: 0 <= i < |scenario.expectedActions|
                      ==> Contains(Lower(managerAnswer), Lower(scenario.expectedActions[i]))
    ensures var k := NextReply(scenario, managerAnswer, turnCount);
      && (k == Urgent <==> scenario.persona == "impatient" && turnCount > 1)
      && (k == Worried <==> scenario.persona == "anxious")
      && (k == Thank <==> scenario.persona != "anxious" && !(scenario.persona == "impatient" && turnCount > 1))
  {
    MissingStepsIff(managerAnswer, scenario.expectedActions);
  }

  /** On the first turn an impatient client is not yet urgent. */
  lemma ImpatientWaitsOneTurn(scenario: ScenarioShape, managerAnswer: string, turnCount: int)
    requires scenario.persona == "impatient" && turnCount <= 1
    requires !MatchesAny(managerAnswer, AvatarPiiPatterns)
    requires MissingExpectedActions(managerAnswer, scenario.expectedActions) == []
    ensures NextClientReply(scenario, managerAnswer, turnCount) == ThanksLine
  {
  }
}
