/** The rule-based judge of the root app: each score is a base value plus
    adjustments clamped to [0,100], followed by a weighted total, a pass
    rule and the feedback lists. */
module Judge {
  import opened JsText
  import opened Types

  /** `clamp` on an integer score (on a fractional one it is
      `JsText.ClampReal`). */
  function Clamp(n: int): (r: int)
    ensures 0 <= r <= 100
    ensures 0 <= n <= 100 ==> r == n
    ensures n < 0 ==> r == 0
    ensures n > 100 ==> r == 100
  {
    if n < 0 then 0 else if n > 100 then 100 else n
  }

  /** `bannedPatterns`: a card number or, case-insensitively, cvv, pin or otp. */
  predicate Banned(answer: string)
  {
    HasCardNumber(answer) || ContainsAny(Lower(answer), ["cvv", "pin", "otp"])
  }

  predicate Overpromise(answer: string)
  {
    ContainsAny(Lower(answer), ["обещаю", "гарантирую"])
  }

  /** `не (видит|запрашиваем|нужны) данные`. */
  predicate Disclaimer(answer: string)
  {
    ContainsAny(Lower(answer), ["не видит данные", "не запрашиваем данные", "не нужны данные"])
  }

  /** `complianceScore`. */
  method ComplianceScore(answer: string) returns (score: int, flags: seq<string>)
    ensures 0 <= score <= 90
    ensures Banned(answer) ==> score <= 35
    ensures score >= 85 <==> !Banned(answer) && !Overpromise(answer)
    ensures flags == (if Banned(answer) then ["PII_DETECTED"] else [])
                     + (if Overpromise(answer) then ["OVERPROMISE"] else [])
    ensures score == (if Banned(answer) then 35 else 90) - (if Overpromise(answer) then 15 else 0)
                     - (if Disclaimer(answer) then 0 else 5)
  {
    score := 90;
    flags := [];
    if Banned(answer) {
      score := 35;
      flags := flags + ["PII_DETECTED"];
    }
    if Overpromise(answer) {
      score := score - 15;
      flags := flags + ["OVERPROMISE"];
    }
    if !Disclaimer(answer) {
      score := score - 5;
    }
    score := Clamp(score);
  }

  predicate Empathic(answer: string)
  {
    ContainsAny(Lower(answer), ["понимаю", "вижу", "сожалею", "простите", "давайте"])
  }

  predicate Polite(answer: string)
  {
    ContainsAny(Lower(answer), ["пожалуйста", "можете", "готов"])
  }

  /** `softSkillsScore`. */
  method SoftSkillsScore(answer: string) returns (score: int)
    ensures 60 <= score <= 85
    ensures score == 70 + (if Empathic(answer) then 10 else 0) + (if Polite(answer) then 5 else 0)
                     - (if |answer| < 40 then 10 else 0)
  {
    score := 70;
    if Empathic(answer) {
      score := score + 10;
    }
    if Polite(answer) {
      score := score + 5;
    }
    if |answer| < 40 {
      score := score - 10;
    }
    score := Clamp(score);
  }

  /** `давайте.*решим|я помогу|держу вас в курсе|сейчас проверю`. */
  predicate Calming(answer: string)
  {
    var l := Lower(answer);
    DotStar(l, "давайте", "решим") || ContainsAny(l, ["я помогу", "держу вас в курсе", "сейчас проверю"])
  }

  predicate Directive(answer: string)
  {
    ContainsAny(Lower(answer), ["успокойтесь", "тише"])
  }

  /** `deEscalationScore`. */
  method DeEscalationScore(answer: string, plan: ScenarioPlan) returns (score: int)
    ensures 40 <= score <= 75
    ensures score == 60 - (if plan.difficulty == Intolerant then 10 else 0)
                     + (if Calming(answer) then 15 else 0) - (if Directive(answer) then 10 else 0)
  {
    score := 60;
    if plan.difficulty == Intolerant {
      score := score - 10;
    }
    if Calming(answer) {
      score := score + 15;
    }
    if Directive(answer) {
      score := score - 10;
    }
    score := Clamp(score);
  }

  predicate Hedging(answer: string)
  {
    ContainsAny(Lower(answer), ["не знаю", "затрудняюсь"])
  }

  datatype Scores = Scores(correctness: real, compliance: int, softSkills: int, deEscalation: int)

  datatype Evaluation = Evaluation(
    scores: Scores, flags: seq<string>, positives: seq<string>, mistakes: seq<string>,
    suggested: string, evidence: seq<RetrievalItem>, total: int, pass: bool)

  /** The weighted total of the four scores. */
  function Total(s: Scores): (t: int)
    ensures 0 <= t <= 100
  {
    Clamp(JsRound(s.correctness * 0.35 + s.compliance as real * 0.35 + s.softSkills as real * 0.2
                  + s.deEscalation as real * 0.1))
  }

  /** The suggested wording, naming the plan's first fact or the service rules. */
  function Suggested(plan: ScenarioPlan): (r: string)
    ensures |plan.facts| > 0 && plan.facts[0] != "" ==> Contains(r, plan.facts[0])
    ensures |plan.facts| == 0 || plan.facts[0] == "" ==> Contains(r, "правила сервиса")
  {
    var fact := if |plan.facts| > 0 && plan.facts[0] != "" then plan.facts[0] else "правила сервиса";
    var r := "Сошлитесь на регламент (" + fact
             + "), предложите шаги и предупредите, что не запрашиваете коды/карты.";
    assert r[24..24 + |fact|] == fact;
    assert StartsAt(r, 24, fact);
    r
  }

  /** The correctness score: 70 plus the top evidence score capped at 20,
      or 35 without evidence, less 15 for hedging. */
  method CorrectnessScore(answer: string, evidence: seq<RetrievalItem>) returns (correctness: real)
    ensures 0.0 <= correctness <= 100.0
    ensures |evidence| == 0 ==> correctness == (if Hedging(answer) then 20.0 else 35.0)
    ensures |evidence| > 0 ==>
      correctness == ClampReal(70.0 + (if evidence[0].score < 20.0 then evidence[0].score else 20.0)
                               - (if Hedging(answer) then 15.0 else 0.0))
  {
    if |evidence| > 0 {
      var top := evidence[0].score;
      correctness := 70.0 + (if top < 20.0 then top else 20.0);
    } else {
      correctness := 35.0;
    }
    if Hedging(answer) {
      correctness := correctness - 15.0;
    }
    correctness := ClampReal(correctness);
  }

  /** The feedback lists: praise for soft skills of 75 or more and for
      evidence; without evidence a mistake and the `INSUFFICIENT_EVIDENCE`
      flag, appended after the compliance flags; a mistake for a PII flag. */
  method Feedback(softSkills: int, hasEvidence: bool, complianceFlags: seq<string>)
    returns (flags: seq<string>, positives: seq<string>, mistakes: seq<string>)
    ensures flags == complianceFlags + (if hasEvidence then [] else ["INSUFFICIENT_EVIDENCE"])
    ensures positives == (if softSkills >= 75 then ["Хорошая эмпатия и структура ответа"] else [])
                         + (if hasEvidence then ["Ссылается на регламент"] else [])
    ensures mistakes == (if hasEvidence then [] else ["Недостаточно ссылок на базу знаний"])
                        + (if "PII_DETECTED" in flags then ["Запрос конфиденциальных данных недопустим"] else [])
  {
    flags := complianceFlags;
    positives := [];
    if softSkills >= 75 {
      positives := positives + ["Хорошая эмпатия и структура ответа"];
    }
    var praise := positives;
    if hasEvidence {
      positives := positives + ["Ссылается на регламент"];
    }
    assert positives == praise + (if hasEvidence then ["Ссылается на регламент"] else []);

    mistakes := [];
    if !hasEvidence {
      mistakes := mistakes + ["Недостаточно ссылок на базу знаний"];
      flags := flags + ["INSUFFICIENT_EVIDENCE"];
    }
    var shortage := mistakes;
    assert shortage == (if hasEvidence then [] else ["Недостаточно ссылок на базу знаний"]);
    if "PII_DETECTED" in flags {
      mistakes := mistakes + ["Запрос конфиденциальных данных недопустим"];
    }
  }

  /** The PII flag is present exactly when the PII check fired, whatever
      else was flagged. */
  lemma PiiFlagIff(banned: bool, overpromise: bool, hasEvidence: bool)
    ensures var flags := (if banned then ["PII_DETECTED"] else []) + (if overpromise then ["OVERPROMISE"] else []);
            ("PII_DETECTED" in flags <==> banned)
            && ("PII_DETECTED" in flags + (if hasEvidence then [] else ["INSUFFICIENT_EVIDENCE"]) <==> banned)
  {
    assert "PII_DETECTED"[0] != "OVERPROMISE"[0] && "PII_DETECTED"[0] != "INSUFFICIENT_EVIDENCE"[0];
  }

  /** The four scores of `judgeAnswer`, its total and its pass verdict,
      with the compliance flags. */
  method JudgeScores(answer: string, plan: ScenarioPlan, evidence: seq<RetrievalItem>)
    returns (scores: Scores, total: int, pass: bool, flags: seq<string>)
    ensures 0.0 <= scores.correctness <= 100.0 && 0 <= total <= 100
    ensures 0 <= scores.compliance <= 90
    ensures 60 <= scores.softSkills <= 85 && 40 <= scores.deEscalation <= 75
    ensures |evidence| == 0 ==> scores.correctness == (if Hedging(answer) then 20.0 else 35.0)
    ensures |evidence| > 0 ==>
      scores.correctness == ClampReal(70.0 + (if evidence[0].score < 20.0 then evidence[0].score else 20.0)
                                      - (if Hedging(answer) then 15.0 else 0.0))
    ensures Banned(answer) ==> scores.compliance <= 35
    ensures total == Total(scores)
    ensures pass <==> !Banned(answer) && !Overpromise(answer) && total >= 70
    ensures flags == (if Banned(answer) then ["PII_DETECTED"] else [])
                     + (if Overpromise(answer) then ["OVERPROMISE"] else [])
  {
    var correctness := CorrectnessScore(answer, evidence);
    var compliance, complianceFlags := ComplianceScore(answer);
    var softSkills := SoftSkillsScore(answer);
    var deEscalation := DeEscalationScore(answer, plan);
    scores := Scores(correctness, compliance, softSkills, deEscalation);
    total := Total(scores);
    flags := complianceFlags;
    PiiFlagIff(Banned(answer), Overpromise(answer), true);
    pass := compliance >= 85 && total >= 70 && "PII_DETECTED" !in flags;
  }

  /** `judgeAnswer`, given the chunks retrieved for the answer (at most
      three in the source). */
  method JudgeAnswer(answer: string, plan: ScenarioPlan, evidence: seq<RetrievalItem>) returns (e: Evaluation)
    ensures 0.0 <= e.scores.correctness <= 100.0 && 0 <= e.total <= 100
    ensures 0 <= e.scores.compliance <= 90
    ensures 60 <= e.scores.softSkills <= 85 && 40 <= e.scores.deEscalation <= 75
    ensures |evidence| == 0 ==> e.scores.correctness == (if Hedging(answer) then 20.0 else 35.0)
    ensures |evidence| > 0 ==>
      e.scores.correctness == ClampReal(70.0 + (if evidence[0].score < 20.0 then evidence[0].score else 20.0)
                                        - (if Hedging(answer) then 15.0 else 0.0))
    ensures Banned(answer) ==> e.scores.compliance <= 35
    ensures e.total == Total(e.scores)
    ensures e.pass <==> !Banned(answer) && !Overpromise(answer) && e.total >= 70
    ensures e.flags == (if Banned(answer) then ["PII_DETECTED"] else [])
                       + (if Overpromise(answer) then ["OVERPROMISE"] else [])
                       + (if |evidence| == 0 then ["INSUFFICIENT_EVIDENCE"] else [])
    ensures e.positives == (if e.scores.softSkills >= 75 then ["Хорошая эмпатия и структура ответа"] else [])
                           + (if |evidence| > 0 then ["Ссылается на регламент"] else [])
    ensures e.mistakes == (if |evidence| == 0 then ["Недостаточно ссылок на базу знаний"] else [])
                          + (if Banned(answer) then ["Запрос конфиденциальных данных недопустим"] else [])
    ensures e.suggested == Suggested(plan) && e.evidence == evidence
  {
    var scores, total, pass, flags := JudgeScores(answer, plan, evidence);
    var hasEvidence := |evidence| > 0;
    PiiFlagIff(Banned(answer), Overpromise(answer), hasEvidence);
    var allFlags, positives, mistakes := Feedback(scores.softSkills, hasEvidence, flags);
    e := Evaluation(scores, allFlags, positives, mistakes, Suggested(plan), evidence, total, pass);
  }
}
