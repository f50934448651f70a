/** Rule-based answer scoring of the root app: regular-expression signals
    over the trainee's answer, one weighted rule list per metric with the
    hits and misses recorded, and the detection of a reference to a
    regulation or the knowledge base. */
module ScoringRules {
  import opened JsText
  import Profanity

  // The regular expressions all carry the `i` flag and are alternations of
  // literal words, so each is a substring test on the lower-cased text.
  const PlanWords: seq<string> := ["сейчас", "проверю", "проверим", "открою", "создам", "оформлю", "отправлю",
                                   "перезвоню", "подскажу", "помогу", "запущу", "запрос", "оформим", "решим"]
  /** `час(ов)?`: both the short and the long alternative are listed. */
  const TimelineWords: seq<string> := ["минут", "час", "часов", "день", "срок", "в течение", "до конца"]
  const ClarifyWords: seq<string> := ["уточни", "какой", "что именно", "когда", "куда", "какой тариф", "какую карту"]
  const EmpathyWords: seq<string> := ["понимаю", "сожалею", "извин", "вижу вашу ситуацию", "могу помочь", "постараюсь помочь"]
  const PoliteWords: seq<string> := ["пожалуйста", "будьте добры", "не волнуйтесь", "давайте", "могу предложить"]
  const CalmingWords: seq<string> := ["давайте я", "сделаем так", "возьму под контроль", "открою обращение", "зафиксирую", "помогу решить"]
  const NoAnswerWords: seq<string> := ["не знаю", "затрудняюсь", "сложно сказать", "обычно", "как правило"]
  const OverpromiseWords: seq<string> := ["гарантирую", "точно", "обещаю", "без проблем решу"]
  /** The single entry of `criticalPatterns`. */
  const PiiWords: seq<string> := ["pin", "cvv", "otp", "смс", "sms", "паспорт", "полный номер карты"]

  datatype Signals = Signals(
    hasPlan: bool, hasTimeline: bool, hasClarify: bool, hasEmpathy: bool,
    hasPoliteness: bool, hasCalming: bool, noAnswer: bool, noPlan: bool,
    noEmpathy: bool, pii: bool, overpromise: bool, abuse: Profanity.Abuse)

  /** `detectSignals`. The abuse verdict is the one `detectAbuse` returns
      (see `Profanity.DetectAbuse`). */
  function DetectSignals(text: string): (s: Signals)
    ensures s.noAnswer ==> !s.hasPlan
    ensures s.noAnswer <==> ContainsAny(Lower(text), NoAnswerWords) && !s.hasPlan
    ensures s.noPlan == !s.hasPlan && s.noEmpathy == !s.hasEmpathy
    ensures s.abuse == Profanity.Classify(Profanity.Normalize(text))
  {
    var l := Lower(text);
    var hasPlan := ContainsAny(l, PlanWords);
    var hasEmpathy := ContainsAny(l, EmpathyWords);
    Signals(hasPlan, ContainsAny(l, TimelineWords), ContainsAny(l, ClarifyWords), hasEmpathy,
            ContainsAny(l, PoliteWords), ContainsAny(l, CalmingWords),
            ContainsAny(l, NoAnswerWords) && !hasPlan, !hasPlan, !hasEmpathy,
            ContainsAny(l, PiiWords), ContainsAny(l, OverpromiseWords),
            Profanity.Classify(Profanity.Normalize(text)))
  }

  /** The timeline word `час` sits inside `сейчас`, a plan word, so one
      word gives an answer both a plan and a timeline. */
  lemma NowGivesPlanAndTimeline(text: string)
    requires Contains(Lower(text), "сейчас")
    ensures DetectSignals(text).hasPlan && DetectSignals(text).hasTimeline
  {
    var l := Lower(text);
    var i :| 0 <= i <= |l| - 6 && StartsAt(l, i, "сейчас");
    assert l[i + 3..i + 6] == l[i..i + 6][3..6];
    assert StartsAt(l, i + 3, "час");
    ContainsAnyAt(l, PlanWords, 0, i);
    ContainsAnyAt(l, TimelineWords, 1, i + 3);
  }

  // ---------------------------------------------------------------------
  // Weighted rules

  datatype Rule = Rule(desc: string, cond: bool, weight: nat)

  datatype RuleOutcome = RuleOutcome(score: int, maxScore: int, hits: seq<string>, misses: seq<string>, penalties: seq<string>)

  function CorrectnessRules(s: Signals): seq<Rule>
  {
    [Rule("Есть конкретный шаг", s.hasPlan, 35),
     Rule("Есть срок/таймлайн", s.hasTimeline, 20),
     Rule("Есть уточняющий вопрос", s.hasClarify, 15),
     Rule("Нет ответа \"не знаю\"", !s.noAnswer, 30)]
  }

  function ComplianceRules(s: Signals): seq<Rule>
  {
    [Rule("Не запрашивает ПДн/карты", !s.pii, 40),
     Rule("Нет хамства/оскорблений", !s.abuse.isAbusive, 40),
     Rule("Нет необоснованных обещаний", !s.overpromise, 20)]
  }

  function SoftRules(s: Signals): seq<Rule>
  {
    [Rule("Есть эмпатия/признание", s.hasEmpathy, 45),
     Rule("Вежливый тон", s.hasPoliteness, 30),
     Rule("Без грубости", !s.abuse.isAbusive, 25)]
  }

  function DeRules(s: Signals): seq<Rule>
  {
    [Rule("Берёт на себя следующий шаг/контроль", s.hasPlan || s.hasCalming, 45),
     Rule("Использует успокаивающие формулировки", s.hasCalming, 30),
     Rule("Не усугубляет конфликт", !s.abuse.isAbusive, 25)]
  }

  /** Sum of all weights. */
  function TotalWeight(rules: seq<Rule>): nat
  {
    if |rules| == 0 then 0 else TotalWeight(rules[..|rules| - 1]) + rules[|rules| - 1].weight
  }

  /** Sum of the weights of the satisfied rules. */
  function EarnedWeight(rules: seq<Rule>): nat
  {
    if |rules| == 0 then 0
    else EarnedWeight(rules[..|rules| - 1]) + (if rules[|rules| - 1].cond then rules[|rules| - 1].weight else 0)
  }

  function Hits(rules: seq<Rule>): seq<string>
  {
    if |rules| == 0 then []
    else Hits(rules[..|rules| - 1]) + (if rules[|rules| - 1].cond then [rules[|rules| - 1].desc] else [])
  }

  function Misses(rules: seq<Rule>): seq<string>
  {
    if |rules| == 0 then []
    else Misses(rules[..|rules| - 1]) + (if rules[|rules| - 1].cond then [] else [rules[|rules| - 1].desc])
  }

  function Descs(rules: seq<Rule>): seq<string>
  {
    seq(|rules|, i requires 0 <= i < |rules| => rules[i].desc)
  }

  /** The outcome of running one metric's rules from a zero record. */
  function Evaluate(rules: seq<Rule>): (o: RuleOutcome)
    ensures 0 <= o.score <= o.maxScore && o.penalties == []
    ensures |o.hits| + |o.misses| == |rules|
    ensures multiset(o.hits) + multiset(o.misses) == multiset(Descs(rules))
  {
    EarnedAtMostTotal(rules);
    HitsAndMissesPermute(rules);
    RuleOutcome(EarnedWeight(rules), TotalWeight(rules), Hits(rules), Misses(rules), [])
  }

  /** One metric's `forEach`: every rule adds its weight to `maxScore`, and
      a satisfied rule also to `score` and its description to `hits`, an
      unsatisfied one its description to `misses`. */
  method ApplyRuleList(rules: seq<Rule>) returns (o: RuleOutcome)
    ensures o == Evaluate(rules)
  {
    o := RuleOutcome(0, 0, [], [], []);
    for i := 0 to |rules|
      invariant o == Evaluate(rules[..i])
    {
      var r := rules[i];
      EvaluateStep(rules, i);
      o := o.(maxScore := o.maxScore + r.weight);
      if r.cond {
        o := o.(score := o.score + r.weight, hits := o.hits + [r.desc]);
      } else {
        o := o.(misses := o.misses + [r.desc]);
      }
    }
    assert rules[..|rules|] == rules;
  }

  /** One more rule adds its weight to the maximum, and to the score and
      the hits when satisfied, to the misses otherwise. */
  lemma EvaluateStep(rules: seq<Rule>, i: int)
    requires 0 <= i < |rules|
    ensures var o, r := Evaluate(rules[..i]), rules[i];
      Evaluate(rules[..i + 1]) == if r.cond
        then o.(score := o.score + r.weight, maxScore := o.maxScore + r.weight, hits := o.hits + [r.desc])
        else o.(maxScore := o.maxScore + r.weight, misses := o.misses + [r.desc])
  {
    assert rules[..i + 1][..i] == rules[..i];
  }

  /** The score never exceeds the maximum, and every rule's description is
      either a hit or a miss, the satisfied rules being exactly the hits. */
  lemma EvaluatePartition(rules: seq<Rule>)
    ensures 0 <= EarnedWeight(rules) <= TotalWeight(rules)
    ensures |Hits(rules)| + |Misses(rules)| == |rules|
    ensures multiset(Hits(rules)) + multiset(Misses(rules)) == multiset(Descs(rules))
    ensures forall k :: 0 <= k < |rules| && rules[k].cond ==> rules[k].desc in Hits(rules)
    ensures forall k :: 0 <= k < |rules| && !rules[k].cond ==> rules[k].desc in Misses(rules)
  {
    EarnedAtMostTotal(rules);
    HitsAndMissesPermute(rules);
    HitsAndMissesMembers(rules);
  }

  lemma {:induction false} EarnedAtMostTotal(rules: seq<Rule>)
    ensures EarnedWeight(rules) <= TotalWeight(rules)
  {
    if |rules| > 0 {
      EarnedAtMostTotal(rules[..|rules| - 1]);
    }
  }

  lemma {:induction false} HitsAndMissesPermute(rules: seq<Rule>)
    ensures |Hits(rules)| + |Misses(rules)| == |rules|
    ensures multiset(Hits(rules)) + multiset(Misses(rules)) == multiset(Descs(rules))
  {
    if |rules| > 0 {
      var init := rules[..|rules| - 1];
      var last := rules[|rules| - 1];
      HitsAndMissesPermute(init);
      DescsSnoc(rules);
      var h, m := Hits(init), Misses(init);
      if last.cond {
        assert Hits(rules) == h + [last.desc] && Misses(rules) == m;
        assert multiset(h + [last.desc]) == multiset(h) + multiset{last.desc};
      } else {
        assert Hits(rules) == h && Misses(rules) == m + [last.desc];
        assert multiset(m + [last.desc]) == multiset(m) + multiset{last.desc};
      }
      assert multiset(Descs(init) + [last.desc]) == multiset(Descs(init)) + multiset{last.desc};
    }
  }

  lemma DescsSnoc(rules: seq<Rule>)
    requires |rules| > 0
    ensures Descs(rules) == Descs(rules[..|rules| - 1]) + [rules[|rules| - 1].desc]
  {
  }

  lemma {:induction false} HitsAndMissesMembers(rules: seq<Rule>)
    ensures forall k :: 0 <= k < |rules| && rules[k].cond ==> rules[k].desc in Hits(rules)
    ensures forall k :: 0 <= k < |rules| && !rules[k].cond ==> rules[k].desc in Misses(rules)
  {
    if |rules| > 0 {
      var init := rules[..|rules| - 1];
      HitsAndMissesMembers(init);
      forall k | 0 <= k < |rules| - 1
        ensures rules[k].cond ==> rules[k].desc in Hits(rules)
        ensures !rules[k].cond ==> rules[k].desc in Misses(rules)
      {
        assert rules[k] == init[k];
      }
    }
  }

  /** Every metric's weights sum to 100. */
  lemma WeightsSumTo100(s: Signals)
    ensures TotalWeight(CorrectnessRules(s)) == 100
    ensures TotalWeight(ComplianceRules(s)) == 100
    ensures TotalWeight(SoftRules(s)) == 100
    ensures TotalWeight(DeRules(s)) == 100
  {
    var c := CorrectnessRules(s);
    TotalThree(c[..3]);
    assert c[..3] == c[..|c| - 1];
    TotalThree(ComplianceRules(s));
    TotalThree(SoftRules(s));
    TotalThree(DeRules(s));
  }

  lemma TotalThree(rules: seq<Rule>)
    requires |rules| == 3
    ensures TotalWeight(rules) == rules[0].weight + rules[1].weight + rules[2].weight
  {
    var r2 := rules[..2];
    var r1 := rules[..1];
    assert r2[..1] == r1 && r1[..0] == [];
    assert TotalWeight(r1) == rules[0].weight;
    assert TotalWeight(r2) == rules[0].weight + rules[1].weight;
  }

  /** The score of a three-rule metric, rule by rule. */
  lemma EarnedThree(rules: seq<Rule>)
    requires |rules| == 3
    ensures EarnedWeight(rules) == (if rules[0].cond then rules[0].weight else 0)
                                 + (if rules[1].cond then rules[1].weight else 0)
                                 + (if rules[2].cond then rules[2].weight else 0)
  {
    var r2 := rules[..2];
    var r1 := rules[..1];
    assert r2[..1] == r1 && r1[..0] == [];
    assert EarnedWeight(r1) == (if rules[0].cond then rules[0].weight else 0);
    assert EarnedWeight(r2) == EarnedWeight(r1) + (if rules[1].cond then rules[1].weight else 0);
  }

  /** `percentage`: the score as a rounded percentage of the maximum. */
  function Percentage(o: RuleOutcome): (p: int)
    ensures o.maxScore == 100 ==> p == o.score
  {
    if o.maxScore == 0 then 0
    else
      var x := (o.score as real / o.maxScore as real) * 100.0;
      assert o.maxScore == 100 ==> x == o.score as real;
      JsRound(x)
  }

  datatype Metrics = Metrics(correctness: RuleOutcome, compliance: RuleOutcome, softSkills: RuleOutcome, deEscalation: RuleOutcome)

  datatype Applied = Applied(abuse: Profanity.Abuse, result: Metrics, signals: Signals)

  /** `applyRules`: the signals of the answer, then the four rule loops. */
  method ApplyRules(answer: string) returns (a: Applied)
    ensures a.signals == DetectSignals(answer) && a.abuse == a.signals.abuse
    ensures a.result.correctness == Evaluate(CorrectnessRules(a.signals))
    ensures a.result.compliance == Evaluate(ComplianceRules(a.signals))
    ensures a.result.softSkills == Evaluate(SoftRules(a.signals))
    ensures a.result.deEscalation == Evaluate(DeRules(a.signals))
    ensures a.result.correctness.maxScore == 100 && a.result.compliance.maxScore == 100
    ensures a.result.softSkills.maxScore == 100 && a.result.deEscalation.maxScore == 100
    ensures Percentage(a.result.compliance) == a.result.compliance.score
    ensures a.abuse.isAbusive ==> a.result.compliance.score <= 60 && a.result.softSkills.score <= 75
                                  && a.result.deEscalation.score <= 75
    ensures a.signals.hasCalming ==> a.result.deEscalation.score >= 75
  {
    var s := DetectSignals(answer);
    var correctness := ApplyRuleList(CorrectnessRules(s));
    var compliance := ApplyRuleList(ComplianceRules(s));
    var soft := ApplyRuleList(SoftRules(s));
    var de := ApplyRuleList(DeRules(s));
    WeightsSumTo100(s);
    if s.abuse.isAbusive {
      AbuseCaps(s);
    }
    CalmingWorth75(s);
    a := Applied(s.abuse, Metrics(correctness, compliance, soft, de), s);
  }

  /** An abusive answer misses the abuse rule of three metrics. */
  lemma AbuseCaps(s: Signals)
    requires s.abuse.isAbusive
    ensures EarnedWeight(ComplianceRules(s)) <= 60
    ensures EarnedWeight(SoftRules(s)) <= 75
    ensures EarnedWeight(DeRules(s)) <= 75
  {
    EarnedThree(ComplianceRules(s));
    EarnedThree(SoftRules(s));
    EarnedThree(DeRules(s));
  }

  /** Calming words alone satisfy the first two de-escalation rules. */
  lemma CalmingWorth75(s: Signals)
    ensures s.hasCalming ==> EarnedWeight(DeRules(s)) >= 75
  {
    EarnedThree(DeRules(s));
  }

  /** A PII request costs exactly 40 compliance points. */
  lemma PiiCosts40(s: Signals)
    requires s.pii
    ensures EarnedWeight(ComplianceRules(s)) + 40 == EarnedWeight(ComplianceRules(s.(pii := false)))
    ensures EarnedWeight(ComplianceRules(s)) <= 60
  {
    EarnedThree(ComplianceRules(s));
    EarnedThree(ComplianceRules(s.(pii := false)));
  }

  // ---------------------------------------------------------------------
  // Reference to a regulation

  /** `(согласно|по|в)`. */
  const RegLeads: seq<string> := ["согласно", "по", "в"]
  /** The literal alternatives of `(регламент|инструкц|правил|kb|баз[еы]\s+знан)`. */
  const RegTargets: seq<string> := ["регламент", "инструкц", "правил", "kb"]

  /** End of `\s+` at `i`, if at least one white space character is there. */
  function Spaces(s: string, i: nat): (r: Option<nat>)
    ensures r.Some? ==> i < r.value <= |s|
    ensures r.Some? ==> r.value == |s| || !IsSpace(s[r.value])
  {
    if i < |s| && IsSpace(s[i]) then Some(SpaceRunEnd(s, i)) else None
  }

  /** The first alternative among `words` that starts at `i`; the words
      handled here start with distinct letters, so at most one applies. */
  function WordAt(s: string, i: nat, words: seq<string>): (r: Option<nat>)
    ensures r.Some? ==> exists k :: 0 <= k < |words| && StartsAt(s, i, words[k]) && r.value == i + |words[k]|
    ensures r.None? ==> forall k :: 0 <= k < |words| ==> !StartsAt(s, i, words[k])
  {
    if |words| == 0 then None
    else if StartsAt(s, i, words[0]) then Some(i + |words[0]|)
    else
      var r := WordAt(s, i, words[1..]);
      assert forall k :: 1 <= k < |words| ==> words[k] == words[1..][k - 1];
      r
  }

  /** The target group at `k`: one of the literal words `targets`, or
      `баз[еы]\s+знан`. */
  function TargetAt(l: string, k: nat, targets: seq<string>): (r: Option<nat>)
  {
    match WordAt(l, k, targets)
    case Some(e) => Some(e)
    case None =>
      if StartsAt(l, k, "баз") && k + 3 < |l| && (l[k + 3] == 'е' || l[k + 3] == 'ы') then
        match Spaces(l, k + 4)
        case Some(m) => if StartsAt(l, m, "знан") then Some(m + 4) else None
        case None => None
      else None
  }

  /** The end of a match starting at `i` of a lead word from `leads`, white
      space and a target. Backtracking into a shorter `\s+` would leave a
      space where a letter is needed, so the greedy run decides. */
  function RegMatchWith(l: string, i: nat, leads: seq<string>, targets: seq<string>): Option<nat>
  {
    match WordAt(l, i, leads)
    case None => None
    case Some(j) =>
      match Spaces(l, j)
      case None => None
      case Some(k) => TargetAt(l, k, targets)
  }

  /** The end of a match of the whole expression starting at `i` of the
      lower-cased text. */
  function RegMatchAt(l: string, i: nat): Option<nat>
  {
    RegMatchWith(l, i, RegLeads, RegTargets)
  }

  /** The leftmost match at or after `from`. */
  function FirstRegMatch(l: string, from: nat): (r: Option<(nat, nat)>)
    ensures r.Some? ==> from <= r.value.0 && RegMatchAt(l, r.value.0) == Some(r.value.1)
    ensures r.Some? ==> forall i :: from <= i < r.value.0 ==> RegMatchAt(l, i).None?
    ensures r.None? ==> forall i :: from <= i <= |l| ==> RegMatchAt(l, i).None?
    decreases |l| + 1 - from
  {
    if from > |l| then None
    else match RegMatchAt(l, from)
      case Some(e) => Some((from, e))
      case None => FirstRegMatch(l, from + 1)
  }

  datatype Reference = Reference(quote: string, reason: string)

  /** `detectRegulationReference`: the leftmost match, quoted from the
      original text, with a fixed reason; no match gives no reference. */
  function DetectRegulationReference(text: string): (r: Option<Reference>)
    ensures r.None? <==> forall i :: 0 <= i <= |text| ==> RegMatchAt(Lower(text), i).None?
    ensures r.Some? ==> r.value.reason == "Ссылка на регламент/KB"
    ensures r.Some? ==> exists i: nat, e: nat :: i <= e <= |text| && RegMatchAt(Lower(text), i) == Some(e)
                          && r.value.quote == text[i..e]
                          && forall j :: 0 <= j < i ==> RegMatchAt(Lower(text), j).None?
  {
    var l := Lower(text);
    match FirstRegMatch(l, 0)
    case None => None
    case Some((i, e)) =>
      RegMatchBounds(l, i);
      Some(Reference(text[i..e], "Ссылка на регламент/KB"))
  }

  /** A match lies inside the text, and has the shape of the expression: a
      lead word, white space right after it, and a target ending the match. */
  lemma RegMatchBounds(l: string, i: nat)
    requires RegMatchAt(l, i).Some?
    ensures i < RegMatchAt(l, i).value <= |l|
  {
  }

  lemma RegMatchShape(l: string, i: nat)
    requires RegMatchAt(l, i).Some?
    ensures exists k :: 0 <= k < |RegLeads| && StartsAt(l, i, RegLeads[k]) && i + |RegLeads[k]| < |l| && IsSpace(l[i + |RegLeads[k]|])
    ensures var e := RegMatchAt(l, i).value;
            (exists k :: 0 <= k < |RegTargets| && StartsAt(l, e - |RegTargets[k]|, RegTargets[k]))
            || StartsAt(l, e - 4, "знан")
  {
    MatchShapeWith(l, i, RegLeads, RegTargets);
  }

  lemma MatchShapeWith(l: string, i: nat, leads: seq<string>, targets: seq<string>)
    requires RegMatchWith(l, i, leads, targets).Some?
    ensures exists k :: 0 <= k < |leads| && StartsAt(l, i, leads[k]) && i + |leads[k]| < |l| && IsSpace(l[i + |leads[k]|])
    ensures var e := RegMatchWith(l, i, leads, targets).value;
            (exists k :: 0 <= k < |targets| && StartsAt(l, e - |targets[k]|, targets[k]))
            || StartsAt(l, e - 4, "знан")
  {
    var j := WordAt(l, i, leads).value;
    var k := Spaces(l, j).value;
    assert j < |l| && IsSpace(l[j]);
    TargetAtShape(l, k, targets);
  }

  /** A target group ends with one of the targets or with `знан`. */
  lemma TargetAtShape(l: string, k: nat, targets: seq<string>)
    requires TargetAt(l, k, targets).Some?
    ensures var e := TargetAt(l, k, targets).value;
            (exists t :: 0 <= t < |targets| && StartsAt(l, e - |targets[t]|, targets[t]))
            || StartsAt(l, e - 4, "знан")
  {
    var e := TargetAt(l, k, targets).value;
    match WordAt(l, k, targets)
    case Some(_) =>
      var t :| 0 <= t < |targets| && StartsAt(l, k, targets[t]) && e == k + |targets[t]|;
      assert StartsAt(l, e - |targets[t]|, targets[t]);
    case None =>
      var m := Spaces(l, k + 4).value;
      assert e == m + 4;
  }

  /** No word is empty and no two words start with the same letter. */
  predicate FirstLettersDistinct(words: seq<string>)
  {
    forall a, b :: 0 <= a < b < |words| ==> |words[a]| > 0 && |words[b]| > 0 && words[a][0] != words[b][0]
  }

  /** Distinct first letters: an alternative that starts at `i` is the one
      `WordAt` picks. */
  lemma WordAtPicks(s: string, i: nat, words: seq<string>, k: int)
    requires 0 <= k < |words| && StartsAt(s, i, words[k])
    requires FirstLettersDistinct(words)
    ensures WordAt(s, i, words) == Some(i + |words[k]|)
    decreases k
  {
    if k > 0 {
      assert |words[0]| > 0 && |words[k]| > 0 && words[0][0] != words[k][0];
      assert s[i..i + |words[k]|][0] == s[i];
      assert words[1..][k - 1] == words[k];
      assert !StartsAt(s, i, words[0]);
      assert forall a :: 0 <= a < |words| - 1 ==> words[1..][a] == words[a + 1];
      WordAtPicks(s, i, words[1..], k - 1);
    }
  }

  /** Conversely to `RegMatchShape`, a lead word, white space and a target
      word form a match ending after the target. */
  lemma RegMatchOfParts(l: string, i: nat, lead: int, target: int)
    requires 0 <= lead < |RegLeads| && StartsAt(l, i, RegLeads[lead])
    requires i + |RegLeads[lead]| < |l| && IsSpace(l[i + |RegLeads[lead]|])
    requires 0 <= target < |RegTargets|
    requires StartsAt(l, SpaceRunEnd(l, i + |RegLeads[lead]|), RegTargets[target])
    ensures RegMatchAt(l, i) == Some(SpaceRunEnd(l, i + |RegLeads[lead]|) + |RegTargets[target]|)
  {
    LeadsDistinct();
    TargetsDistinct();
    MatchOfPartsWith(l, i, RegLeads, RegTargets, lead, target);
  }

  lemma MatchOfPartsWith(l: string, i: nat, leads: seq<string>, targets: seq<string>, lead: int, target: int)
    requires FirstLettersDistinct(leads)
    requires FirstLettersDistinct(targets)
    requires 0 <= lead < |leads| && StartsAt(l, i, leads[lead])
    requires i + |leads[lead]| < |l| && IsSpace(l[i + |leads[lead]|])
    requires 0 <= target < |targets|
    requires StartsAt(l, SpaceRunEnd(l, i + |leads[lead]|), targets[target])
    ensures RegMatchWith(l, i, leads, targets) == Some(SpaceRunEnd(l, i + |leads[lead]|) + |targets[target]|)
  {
    var j := i + |leads[lead]|;
    WordAtPicks(l, i, leads, lead);
    var k := SpaceRunEnd(l, j);
    assert Spaces(l, j) == Some(k);
    WordAtPicks(l, k, targets, target);
    MatchOfGroups(l, i, leads, targets, j, k, k + |targets[target]|);
  }

  lemma MatchOfGroups(l: string, i: nat, leads: seq<string>, targets: seq<string>, j: nat, k: nat, e: nat)
    requires WordAt(l, i, leads) == Some(j) && Spaces(l, j) == Some(k) && WordAt(l, k, targets) == Some(e)
    ensures RegMatchWith(l, i, leads, targets) == Some(e)
  {
  }

  lemma LeadsDistinct()
    ensures FirstLettersDistinct(RegLeads)
  {
  }

  lemma TargetsDistinct()
    ensures FirstLettersDistinct(RegTargets)
  {
  }
}
