/** The live answer checker of the root app: hints about length,
    compliance warnings, the missing elements of a complete answer, a score
    bounded to [50,100] and a validity verdict. */
module AnswerValidation {
  import opened JsText

  const MinLength := 40
  const RecommendedLength := 80

  predicate HasEmpathy(t: string)
  {
    var l := Lower(t);
    ContainsAny(l, ["понимаю", "вижу", "сожалею", "простите", "извините"])
    || DotStar(l, "понимаю", "ситуацию") || DotStar(l, "вижу", "проблему")
  }

  predicate HasAction(t: string)
  {
    var l := Lower(t);
    ContainsAny(l, ["давайте", "сейчас", "проверю", "помогу", "решим"])
    || ContainsAny(l, ["сделаю", "выполню", "обработаю"])
    || ContainsAny(l, ["шаг", "действие", "план"])
  }

  /** A unit of `\d+\s*(минут|час|день|дня|дней)` at `k`, after a digit. */
  predicate DigitsThenUnit(l: string)
  {
    exists j :: 0 <= j < |l| && IsDigit(l[j])
      && StartsAny(l, SpaceRunEnd(l, j + 1), ["минут", "час", "день", "дня", "дней"])
  }

  /** The three timeframe patterns; `в течение.*часов?` and
      `в течение.*дней?` are subsumed by the literal `в течение`. */
  predicate HasTimeframe(t: string)
  {
    var l := Lower(t);
    ContainsAny(l, ["в течение", "через", "за", "до"])
    || DotStar(l, "в течение", "часо") || DotStar(l, "в течение", "дне")
    || DigitsThenUnit(l)
    || ContainsAny(l, ["сегодня", "завтра", "скоро"])
  }

  predicate HasEvidence(t: string)
  {
    var l := Lower(t);
    ContainsAny(l, ["регламент", "правила", "политика", "документ", "база знаний"])
    || ContainsAny(l, ["согласно", "в соответствии", "по правилам"])
  }

  /** The patterns of the compliance warning table, in table order. */
  datatype WarningPattern = CardNumber | Cvv | Pin | Otp | Passport | SurePromise | Guarantee

  /** `точно\s+(разблокир|откро|сдела)`. */
  predicate SurePromiseIn(l: string)
  {
    exists i :: 0 <= i <= |l| - 5 && StartsAt(l, i, "точно") && i + 5 < |l| && IsSpace(l[i + 5])
      && StartsAny(l, SpaceRunEnd(l, i + 5), ["разблокир", "откро", "сдела"])
  }

  predicate Fires(p: WarningPattern, t: string)
  {
    var l := Lower(t);
    match p
    case CardNumber => HasCardNumber(t)
    case Cvv => ContainsAny(l, ["cvv", "код безопасности"])
    case Pin => ContainsAny(l, ["pin", "пин"])
    case Otp => ContainsAny(l, ["otp", "одноразовый код", "смс код"])
    case Passport => ContainsAny(l, ["паспорт", "серия паспорта"])
    case SurePromise => SurePromiseIn(l)
    case Guarantee => Contains(l, "гарантирую") || DotStar(l, "обещаю", "точно")
  }

  datatype Warning = Warning(pattern: WarningPattern, message: string)

  const ComplianceWarnings: seq<Warning> := [
    Warning(CardNumber, "Не запрашивайте полный номер карты"),
    Warning(Cvv, "Не запрашивайте CVV код"),
    Warning(Pin, "Не запрашивайте PIN код"),
    Warning(Otp, "Не запрашивайте OTP/SMS коды"),
    Warning(Passport, "Не запрашивайте паспортные данные"),
    Warning(SurePromise, "Избегайте абсолютных обещаний без проверки"),
    Warning(Guarantee, "Не давайте гарантий без проверки фактов")
  ]

  /** The messages of the table entries whose pattern fires, in table order. */
  function FiredMessages(table: seq<Warning>, t: string): (r: seq<string>)
    ensures |r| <= |table|
    ensures forall m :: m in r ==> exists k :: 0 <= k < |table| && table[k].message == m && Fires(table[k].pattern, t)
  {
    if |table| == 0 then []
    else
      var init := FiredMessages(table[..|table| - 1], t);
      var last := table[|table| - 1];
      assert forall k :: 0 <= k < |table| - 1 ==> table[..|table| - 1][k] == table[k];
      init + (if Fires(last.pattern, t) then [last.message] else [])
  }

  /** The positions of the table entries whose pattern fires, in table
      order. */
  function FiredPositions(table: seq<Warning>, t: string): (ks: seq<nat>)
    ensures forall j :: 0 <= j < |ks| ==> ks[j] < |table| && Fires(table[ks[j]].pattern, t)
    ensures forall j, j' :: 0 <= j < j' < |ks| ==> ks[j] < ks[j']
    ensures forall k :: 0 <= k < |table| && Fires(table[k].pattern, t) ==> k in ks
  {
    if |table| == 0 then []
    else
      var init := FiredPositions(table[..|table| - 1], t);
      assert forall k :: 0 <= k < |table| - 1 ==> table[..|table| - 1][k] == table[k];
      init + (if Fires(table[|table| - 1].pattern, t) then [|table| - 1] else [])
  }

  /** The fired messages are those of the firing entries, each once, in
      table order; so every firing entry's message is among them. */
  lemma {:induction false} FiredInTableOrder(table: seq<Warning>, t: string)
    ensures var r := FiredMessages(table, t);
      var ks := FiredPositions(table, t);
      && |r| == |ks|
      && (forall j :: 0 <= j < |ks| ==> r[j] == table[ks[j]].message)
      && (forall k :: 0 <= k < |table| && Fires(table[k].pattern, t) ==> table[k].message in r)
  {
    if |table| > 0 {
      var init := table[..|table| - 1];
      FiredInTableOrder(init, t);
      assert forall k :: 0 <= k < |table| - 1 ==> init[k] == table[k];
      var r := FiredMessages(table, t);
      var ks := FiredPositions(table, t);
      var rInit := FiredMessages(init, t);
      var ksInit := FiredPositions(init, t);
      var fires := Fires(table[|table| - 1].pattern, t);
      assert r == rInit + (if fires then [table[|table| - 1].message] else []);
      assert ks == ksInit + (if fires then [|table| - 1] else []);
      forall j | 0 <= j < |ks|
        ensures r[j] == table[ks[j]].message
      {
        if j < |ksInit| {
          assert r[j] == rInit[j] && ks[j] == ksInit[j] && ksInit[j] < |init|;
        }
      }
      forall k | 0 <= k < |table| && Fires(table[k].pattern, t)
        ensures table[k].message in r
      {
        var j :| 0 <= j < |ks| && ks[j] == k;
        assert r[j] == table[k].message;
      }
    }
  }

  predicate Vague(t: string)
  {
    ContainsAny(Lower(t), ["не знаю", "затрудняюсь", "не уверен"])
  }

  predicate Directive(t: string)
  {
    ContainsAny(Lower(t), ["успокойтесь", "тише", "не кричите"])
  }

  const EmpathyMissing := "Признание проблемы клиента (например: \"Понимаю вашу ситуацию\", \"Вижу проблему\")"
  const ActionMissing := "Конкретные шаги или действия (например: \"Сейчас проверю\", \"Давайте решим это\")"
  const VagueWarning := "Избегайте неопределенных формулировок. Предложите конкретный план действий."
  const DirectiveWarning := "Избегайте директивных команд. Используйте более мягкие формулировки."
  const TimeframeSuggestion := "Укажите примерные сроки решения (например: \"в течение часа\", \"сегодня\")"
  const EvidenceSuggestion := "Ссылка на регламент или правила сервиса повысит качество ответа"

  function ShortHint(length: nat): string
  {
    "Ответ слишком короткий (" + NatToString(length) + " символов). Рекомендуется минимум "
    + NatToString(MinLength) + " символов для полноценного ответа."
  }

  function DetailSuggestion(length: nat): string
  {
    "Можно добавить больше деталей (сейчас " + NatToString(length) + " символов, рекомендуется "
    + NatToString(RecommendedLength) + "+)."
  }

  /** The warnings of a trimmed answer: the compliance table, then vagueness,
      then directive commands. */
  function Warnings(t: string): (r: seq<string>)
    ensures |r| <= |ComplianceWarnings| + 2
    ensures Vague(t) ==> VagueWarning in r
    ensures Directive(t) ==> DirectiveWarning in r
    ensures forall m :: m in r ==> (m == VagueWarning || m == DirectiveWarning
      || exists k :: 0 <= k < |ComplianceWarnings| && ComplianceWarnings[k].message == m && Fires(ComplianceWarnings[k].pattern, t))
  {
    FiredMessages(ComplianceWarnings, t) + (if Vague(t) then [VagueWarning] else [])
    + (if Directive(t) then [DirectiveWarning] else [])
  }

  /** The warnings in their order: the firing compliance messages in table
      order, then the vagueness warning, then the directive one. */
  lemma WarningsInOrder(t: string)
    ensures var r := Warnings(t);
      var ks := FiredPositions(ComplianceWarnings, t);
      && |r| == |ks| + (if Vague(t) then 1 else 0) + (if Directive(t) then 1 else 0)
      && (forall j :: 0 <= j < |ks| ==> r[j] == ComplianceWarnings[ks[j]].message)
      && (Vague(t) ==> r[|ks|] == VagueWarning)
      && (Directive(t) ==> r[|r| - 1] == DirectiveWarning)
      && (forall k :: 0 <= k < |ComplianceWarnings| && Fires(ComplianceWarnings[k].pattern, t) ==> ComplianceWarnings[k].message in r)
  {
    FiredInTableOrder(ComplianceWarnings, t);
  }

  /** The missing elements: empathy first, then action, each listed
      exactly when the answer lacks it. */
  function MissingElements(t: string): (r: seq<string>)
    ensures |r| <= 2
    ensures EmpathyMissing in r <==> !HasEmpathy(t)
    ensures ActionMissing in r <==> !HasAction(t)
    ensures !HasEmpathy(t) ==> r[0] == EmpathyMissing
  {
    (if HasEmpathy(t) then [] else [EmpathyMissing]) + (if HasAction(t) then [] else [ActionMissing])
  }

  /** The score before clamping; its maximum is 110. */
  function RawScore(t: string): (r: int)
    ensures 50 <= r <= 110
  {
    50 + (if |t| >= MinLength then 10 else 0) + (if |t| >= RecommendedLength then 5 else 0)
    + (if HasEmpathy(t) then 10 else 0) + (if HasAction(t) then 10 else 0)
    + (if HasTimeframe(t) then 5 else 0) + (if HasEvidence(t) then 10 else 0)
    + (if Warnings(t) == [] then 10 else 0)
  }

  datatype AnswerAnalysis = AnswerAnalysis(
    isValid: bool, score: int, hints: seq<string>, warnings: seq<string>,
    suggestions: seq<string>, missingElements: seq<string>)

  /** The compliance-table loop followed by the vagueness and directive
      checks. */
  method CollectWarnings(trimmed: string) returns (warnings: seq<string>)
    ensures warnings == Warnings(trimmed)
  {
    warnings := [];
    for i := 0 to |ComplianceWarnings|
      invariant warnings == FiredMessages(ComplianceWarnings[..i], trimmed)
    {
      var w := ComplianceWarnings[i];
      assert ComplianceWarnings[..i + 1][..i] == ComplianceWarnings[..i];
      if Fires(w.pattern, trimmed) {
        warnings := warnings + [w.message];
      }
    }
    assert ComplianceWarnings[..|ComplianceWarnings|] == ComplianceWarnings;
    if Vague(trimmed) {
      warnings := warnings + [VagueWarning];
    }
    if Directive(trimmed) {
      warnings := warnings + [DirectiveWarning];
    }
  }

  /** The step-by-step score, clamped to [0,100]. */
  method Score(trimmed: string, warnings: seq<string>) returns (score: int)
    requires warnings == Warnings(trimmed)
    ensures 50 <= score <= 100
    ensures score == (if RawScore(trimmed) > 100 then 100 else RawScore(trimmed))
  {
    var length := |trimmed|;
    score := 50;
    if length >= MinLength { score := score + 10; }
    if length >= RecommendedLength { score := score + 5; }
    if HasEmpathy(trimmed) { score := score + 10; }
    if HasAction(trimmed) { score := score + 10; }
    if HasTimeframe(trimmed) { score := score + 5; }
    if HasEvidence(trimmed) { score := score + 10; }
    if |warnings| == 0 { score := score + 10; }
    score := if 100 < (if 0 < score then score else 0) then 100 else (if 0 < score then score else 0);
  }

  /** The elements of a complete answer: missing empathy or action is
      listed, a missing timeframe or reference is suggested. */
  method Completeness(trimmed: string, suggestionsSoFar: seq<string>)
    returns (missingElements: seq<string>, suggestions: seq<string>)
    ensures missingElements == MissingElements(trimmed) && |missingElements| <= 2
    ensures suggestions == suggestionsSoFar + (if HasTimeframe(trimmed) then [] else [TimeframeSuggestion])
                           + (if HasEvidence(trimmed) then [] else [EvidenceSuggestion])
  {
    missingElements := [];
    suggestions := suggestionsSoFar;
    if !HasEmpathy(trimmed) {
      missingElements := missingElements + [EmpathyMissing];
    }
    if !HasAction(trimmed) {
      missingElements := missingElements + [ActionMissing];
    }
    if !HasTimeframe(trimmed) {
      suggestions := suggestions + [TimeframeSuggestion];
    }
    var beforeEvidence := suggestions;
    if !HasEvidence(trimmed) {
      suggestions := suggestions + [EvidenceSuggestion];
    }
    assert beforeEvidence == suggestionsSoFar + (if HasTimeframe(trimmed) then [] else [TimeframeSuggestion]);
  }

  /** `analyzeAnswer`. */
  method AnalyzeAnswer(text: string) returns (a: AnswerAnalysis)
    ensures var t := Trim(text);
            && 50 <= a.score <= 100
            && a.score == (if RawScore(t) > 100 then 100 else RawScore(t))
            && (a.hints != [] <==> |t| < MinLength)
            && (a.hints != [] ==> a.hints == [ShortHint(|t|)])
            && a.warnings == Warnings(t)
            && a.missingElements == MissingElements(t)
            && |a.missingElements| <= 2
            && (a.isValid <==> |t| >= MinLength && a.warnings == [] && |a.missingElements| <= 1)
            && a.suggestions == (if MinLength <= |t| < RecommendedLength then [DetailSuggestion(|t|)] else [])
                                + (if HasTimeframe(t) then [] else [TimeframeSuggestion])
                                + (if HasEvidence(t) then [] else [EvidenceSuggestion])
  {
    var trimmed := Trim(text);
    var length := |trimmed|;
    var hints: seq<string> := [];
    var lengthSuggestions: seq<string> := [];

    if length < MinLength {
      hints := hints + [ShortHint(length)];
    } else if length < RecommendedLength {
      lengthSuggestions := lengthSuggestions + [DetailSuggestion(length)];
    }
    assert lengthSuggestions == if MinLength <= length < RecommendedLength then [DetailSuggestion(length)] else [];

    var warnings := CollectWarnings(trimmed);

    var missingElements, suggestions := Completeness(trimmed, lengthSuggestions);
    var score := Score(trimmed, warnings);
    var isValid := length >= MinLength && |warnings| == 0 && |missingElements| <= 1;
    a := AnswerAnalysis(isValid, score, hints, warnings, suggestions, missingElements);
  }

  /** `getAnswerQualityColor`. */
  function QualityColor(score: int): (r: string)
    ensures r == "text-emerald-600" <==> score >= 80
    ensures r == "text-amber-600" <==> 60 <= score < 80
    ensures r == "text-rose-600" <==> score < 60
  {
    if score >= 80 then "text-emerald-600"
    else if score >= 60 then "text-amber-600"
    else "text-rose-600"
  }

  /** `getAnswerQualityLabel`. */
  function QualityLabel(score: int): (r: string)
    ensures r == "Отличный ответ" <==> score >= 80
    ensures r == "Хороший ответ" <==> 60 <= score < 80
    ensures r == "Требует улучшения" <==> 40 <= score < 60
    ensures r == "Неполный ответ" <==> score < 40
  {
    if score >= 80 then "Отличный ответ"
    else if score >= 60 then "Хороший ответ"
    else if score >= 40 then "Требует улучшения"
    else "Неполный ответ"
  }

  /** The colour and the label agree on the two upper bands, and a score
      of the checker, at least 50, is never labelled incomplete. */
  lemma ColourMatchesLabel(score: int)
    ensures QualityColor(score) == "text-emerald-600" <==> QualityLabel(score) == "Отличный ответ"
    ensures QualityColor(score) == "text-amber-600" <==> QualityLabel(score) == "Хороший ответ"
    ensures score >= 50 ==> QualityLabel(score) != "Неполный ответ"
  {
  }
}
