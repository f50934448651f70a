/** The trainer variant's answer scoring: pattern flags, the expected-action
    check and the correctness and compliance arithmetic. The knowledge chunks
    the evidence search reads and the language model's soft-skill verdict
    are inputs. */
module TrainerScoring {
  import opened JsText
  import opened TrainerRetrieval

  const PiiPatterns: seq<string> := ["passport", "card number", "cvv", "cvc", "pin", "password", "sms", "code"]
  const PromisePatterns: seq<string> := ["guarantee", "promise", "certain", "no problem"]
  const DontKnow: string := "i don't know"
  const AddStepsHint: string := "Add required steps and a clear structure."

  /** `containsAny`: one of the case-insensitive literal patterns occurs
      somewhere in the text, inside a longer word too. */
  predicate MatchesAny(text: string, patterns: seq<string>)
  {
    ContainsAny(Lower(text), patterns)
  }

  /** The patterns are plain substrings: "pin" fires inside "Spinning" and
      "code" inside "Barcode". */
  lemma PatternsMatchInsideWords()
    ensures MatchesAny("Spinning", PiiPatterns)
    ensures MatchesAny("Barcode", PiiPatterns)
  {
    assert Lower("Spinning")[1..4] == "pin";
    ContainsAnyAt(Lower("Spinning"), PiiPatterns, 4, 1);
    assert Lower("Barcode")[3..7] == "code";
    ContainsAnyAt(Lower("Barcode"), PiiPatterns, 7, 3);
  }

  /** `missingExpectedActions`: the expected items the lower-cased answer
      does not contain (compared lower-cased), in their original order. */
  function MissingExpectedActions(answer: string, expected: seq<string>): (r: seq<string>)
    ensures forall x :: x in r <==> x in expected && !Contains(Lower(answer), Lower(x))
    ensures |r| <= |expected|
  {
    if |expected| == 0 then []
    else
      var rest := MissingExpectedActions(answer, expected[1..]);
      assert forall x :: x in expected <==> x == expected[0] || x in expected[1..];
      if Contains(Lower(answer), Lower(expected[0])) then rest else [expected[0]] + rest
  }

  /** The missing items of a list are those of its first part followed by
      those of the rest, and a single item is missing exactly when the
      answer lacks it: the list filtered in order, each occurrence kept. */
  lemma {:induction false} MissingKeepsListOrder(answer: string, front: seq<string>, back: seq<string>)
    ensures MissingExpectedActions(answer, front + back)
            == MissingExpectedActions(answer, front) + MissingExpectedActions(answer, back)
    ensures forall x :: MissingExpectedActions(answer, [x]) == if Contains(Lower(answer), Lower(x)) then [] else [x]
  {
    if |front| > 0 {
      assert (front + back)[1..] == front[1..] + back;
      MissingKeepsListOrder(answer, front[1..], back);
      var h := if Contains(Lower(answer), Lower(front[0])) then [] else [front[0]];
      assert MissingExpectedActions(answer, front + back) == h + MissingExpectedActions(answer, front[1..] + back);
      assert MissingExpectedActions(answer, front) == h + MissingExpectedActions(answer, front[1..]);
    } else {
      assert front + back == back;
    }
    forall x
      ensures MissingExpectedActions(answer, [x]) == if Contains(Lower(answer), Lower(x)) then [] else [x]
    {
      assert [x][1..] == [];
    }
  }

  /** The first missing item is the first expected item, in list order,
      that the answer does not contain. */
  lemma {:induction false} FirstMissing(answer: string, expected: seq<string>)
    requires MissingExpectedActions(answer, expected) != []
    ensures exists j :: 0 <= j < |expected| && MissingExpectedActions(answer, expected)[0] == expected[j]
                   && !Contains(Lower(answer), Lower(expected[j]))
                   && forall i :: 0 <= i < j ==> Contains(Lower(answer), Lower(expected[i]))
  {
    if Contains(Lower(answer), Lower(expected[0])) {
      FirstMissing(answer, expected[1..]);
      var j :| 0 <= j < |expected[1..]| && MissingExpectedActions(answer, expected[1..])[0] == expected[1..][j]
        && !Contains(Lower(answer), Lower(expected[1..][j]))
        && forall i :: 0 <= i < j ==> Contains(Lower(answer), Lower(expected[1..][i]));
      assert MissingExpectedActions(answer, expected) == MissingExpectedActions(answer, expected[1..]);
      assert expected[j + 1] == expected[1..][j];
      forall i | 0 <= i < j + 1
        ensures Contains(Lower(answer), Lower(expected[i]))
      {
        if i > 0 {
          assert expected[i] == expected[1..][i - 1];
        }
      }
    } else {
      assert MissingExpectedActions(answer, expected)[0] == expected[0];
    }
  }

  datatype FlagCode = PiiRequest | PromiseMade | MissingSteps | InsufficientEvidence

  datatype Severity = Low | Med | High

  datatype Flag = Flag(code: FlagCode, severity: Severity, message: string)

  /** Position of a flag code in the order `scoreAnswer` raises them. */
  function CodeRank(c: FlagCode): nat
  {
    match c
    case PiiRequest => 0
    case PromiseMade => 1
    case MissingSteps => 2
    case InsufficientEvidence => 3
  }

  predicate HasCode(flags: seq<Flag>, c: FlagCode)
  {
    c in Codes(flags)
  }

  function PiiFlag(): Flag { Flag(PiiRequest, High, "Potential PII request detected.") }

  function PromiseFlag(): Flag { Flag(PromiseMade, Med, "Inappropriate promise of outcome.") }

  function MissingFlag(missing: seq<string>): Flag
  {
    Flag(MissingSteps, Med, "Missing required steps: " + Join(missing, ", "))
  }

  function EvidenceFlag(): Flag { Flag(InsufficientEvidence, Med, "Insufficient evidence from knowledge base.") }

  function OptFlag(raised: bool, f: Flag): seq<Flag>
  {
    if raised then [f] else []
  }

  /** The flag list for the detected conditions, in the order they are
      raised. */
  function Flags(pii: bool, promise: bool, missing: seq<string>, noEvidence: bool): seq<Flag>
  {
    OptFlag(pii, PiiFlag()) + OptFlag(promise, PromiseFlag())
    + OptFlag(missing != [], MissingFlag(missing)) + OptFlag(noEvidence, EvidenceFlag())
  }

  /** One flag per detected condition, and the first one raised is the
      most severe condition present in the order PII, promise, missing
      steps, evidence. */
  lemma FlagsShape(pii: bool, promise: bool, missing: seq<string>, noEvidence: bool)
    ensures var r := Flags(pii, promise, missing, noEvidence);
      && |r| == (if pii then 1 else 0) + (if promise then 1 else 0)
        + (if missing != [] then 1 else 0) + (if noEvidence then 1 else 0)
      && (r != [] ==> r[0] == (if pii then PiiFlag() else if promise then PromiseFlag()
        else if missing != [] then MissingFlag(missing) else EvidenceFlag()))
  {
  }

  /** Each flag is raised exactly when its condition holds. */
  lemma FlagsRaisedIff(pii: bool, promise: bool, missing: seq<string>, noEvidence: bool)
    ensures HasCode(Flags(pii, promise, missing, noEvidence), PiiRequest) <==> pii
    ensures HasCode(Flags(pii, promise, missing, noEvidence), PromiseMade) <==> promise
    ensures HasCode(Flags(pii, promise, missing, noEvidence), MissingSteps) <==> missing != []
    ensures HasCode(Flags(pii, promise, missing, noEvidence), InsufficientEvidence) <==> noEvidence
  {
    FlagCodes(pii, promise, missing, noEvidence);
  }

  /** The flag codes, in order: PII_REQUEST, PROMISE, MISSING_STEPS,
      INSUFFICIENT_EVIDENCE, each at most once and only when raised. */
  lemma FlagCodes(pii: bool, promise: bool, missing: seq<string>, noEvidence: bool)
    ensures Codes(Flags(pii, promise, missing, noEvidence)) == OptCode(pii, PiiRequest) + OptCode(promise, PromiseMade)
      + OptCode(missing != [], MissingSteps) + OptCode(noEvidence, InsufficientEvidence)
  {
    CodesOfFour(OptFlag(pii, PiiFlag()), OptFlag(promise, PromiseFlag()),
      OptFlag(missing != [], MissingFlag(missing)), OptFlag(noEvidence, EvidenceFlag()));
    CodesOpt(pii, PiiFlag());
    CodesOpt(promise, PromiseFlag());
    CodesOpt(missing != [], MissingFlag(missing));
    CodesOpt(noEvidence, EvidenceFlag());
  }

  lemma CodesOfFour(x: seq<Flag>, y: seq<Flag>, z: seq<Flag>, w: seq<Flag>)
    ensures Codes(x + y + z + w) == Codes(x) + Codes(y) + Codes(z) + Codes(w)
  {
    CodesAppend(x + y + z, w);
    CodesAppend(x + y, z);
    CodesAppend(x, y);
  }

  lemma CodesOpt(raised: bool, f: Flag)
    ensures Codes(OptFlag(raised, f)) == OptCode(raised, f.code)
  {
  }

  lemma CodesAppend(x: seq<Flag>, y: seq<Flag>)
    ensures Codes(x + y) == Codes(x) + Codes(y)
  {
  }

  function OptCode(raised: bool, c: FlagCode): seq<FlagCode>
  {
    if raised then [c] else []
  }

  function Codes(fs: seq<Flag>): (r: seq<FlagCode>)
    ensures |r| == |fs| && forall i :: 0 <= i < |fs| ==> r[i] == fs[i].code
  {
    seq(|fs|, i requires 0 <= i < |fs| => fs[i].code)
  }

  /** The correctness score as a table: without evidence it is 30 when the
      answer admits not knowing and leaves steps out, else 40; with evidence
      it is 70, plus 10 when no step is missing, minus 10 for "i don't know". */
  function Correctness(hasEvidence: bool, dontKnow: bool, noneMissing: bool): (c: int)
    ensures !hasEvidence ==> c == 30 || c == 40
    ensures hasEvidence ==> c == 60 || c == 70 || c == 80
  {
    if !hasEvidence then (if dontKnow && !noneMissing then 30 else 40)
    else 70 + (if noneMissing then 10 else 0) - (if dontKnow then 10 else 0)
  }

  /** The compliance score: 20 with a PII request (replacing the 100 start),
      minus 20 for a promise and 15 for missing steps, never below 0. */
  function Compliance(pii: bool, promise: bool, missing: bool): (c: int)
    ensures 0 <= c <= 100
    ensures c == 100 <==> !pii && !promise && !missing
    ensures c == 0 <==> pii && promise
    ensures pii ==> c <= 20
  {
    var raw := (if pii then 20 else 100) - (if promise then 20 else 0) - (if missing then 15 else 0);
    if raw < 0 then 0 else raw
  }

  datatype ScenarioShape = ScenarioShape(intentTitle: string, expectedActions: seq<string>, complianceTraps: seq<string>)

  /** The language model's soft-skill verdict. */
  datatype SoftSkills = SoftSkills(softSkillsScore: real, deEscalationScore: real,
    positives: seq<string>, improvements: seq<string>, suggestedAnswer: Option<string>)

  datatype Scores = Scores(correctness: int, compliance: int, softSkills: real, deEscalation: real)

  datatype Evidence = Evidence(chunkId: string, docTitle: string, snippet: string)

  datatype Evaluation = Evaluation(scores: Scores, flags: seq<Flag>, positives: seq<string>,
    improvements: seq<string>, suggestedAnswer: string, evidence: seq<Evidence>)

  function EvidenceOf(hits: seq<RetrievedChunk>): (r: seq<Evidence>)
    ensures |r| == |hits|
    ensures forall k :: 0 <= k < |r| ==> r[k] == Evidence(hits[k].id, hits[k].docTitle, hits[k].snippet)
  {
    seq(|hits|, k requires 0 <= k < |hits| => Evidence(hits[k].id, hits[k].docTitle, hits[k].snippet))
  }

  /** The evidence search `scoreAnswer` runs: intent title and answer, top 3. */
  function EvidenceSearch(answer: string, scenario: ScenarioShape, chunks: seq<KnowledgeChunk>): (r: seq<RetrievedChunk>)
    ensures |r| <= 3
  {
    Search(scenario.intentTitle + " " + answer, chunks, 3)
  }

  /** The schema's range check on the four scores. */
  predicate InRange(s: Scores)
  {
    0 <= s.correctness <= 100 && 0 <= s.compliance <= 100
    && 0.0 <= s.softSkills <= 100.0 && 0.0 <= s.deEscalation <= 100.0
  }

  /** `scoreAnswer`: the pattern tests, the expected-action check and the
      evidence search, followed by the arithmetic of `Judge`. */
  method ScoreAnswer(answer: string, scenario: ScenarioShape, chunks: seq<KnowledgeChunk>, soft: SoftSkills)
    returns (ev: Evaluation)
    ensures var missing := MissingExpectedActions(answer, scenario.expectedActions);
      var hits := EvidenceSearch(answer, scenario, chunks);
      ev == Expected(MatchesAny(answer, PiiPatterns), MatchesAny(answer, PromisePatterns),
        Contains(Lower(answer), DontKnow), missing, hits, soft)
    ensures InRange(ev.scores) && |ev.evidence| <= 3
  {
    var pii := MatchesAny(answer, PiiPatterns);
    var promise := MatchesAny(answer, PromisePatterns);
    var missing := MissingExpectedActions(answer, scenario.expectedActions);
    var hits := EvidenceSearch(answer, scenario, chunks);
    var dontKnow := Contains(Lower(answer), DontKnow);
    ev := Judge(pii, promise, dontKnow, missing, hits, soft);
  }

  /** The evaluation `scoreAnswer` promises, stated through the flag list,
      the correctness table and the compliance formula. */
  function Expected(pii: bool, promise: bool, dontKnow: bool, missing: seq<string>, hits: seq<RetrievedChunk>, soft: SoftSkills): (ev: Evaluation)
    ensures InRange(ev.scores)
  {
    Evaluation(
      Scores(Correctness(hits != [], dontKnow, missing == []), Compliance(pii, promise, missing != []),
        ClampReal(soft.softSkillsScore), ClampReal(soft.deEscalationScore)),
      Flags(pii, promise, missing, hits == []),
      soft.positives,
      (if missing != [] then [AddStepsHint] else []) + soft.improvements,
      if soft.suggestedAnswer.Some? then soft.suggestedAnswer.value else "",
      EvidenceOf(hits))
  }

  /** The arithmetic of `scoreAnswer` once the answer's tests are done:
      flags in the order they are raised, the correctness and compliance
      scores, the clamped soft-skill scores and the improvement list. */
  method Judge(pii: bool, promise: bool, dontKnow: bool, missing: seq<string>, hits: seq<RetrievedChunk>, soft: SoftSkills)
    returns (ev: Evaluation)
    ensures ev == Expected(pii, promise, dontKnow, missing, hits, soft)
  {
    var flags, improvements := RaiseFlags(pii, promise, missing);
    var evidence := EvidenceOf(hits);
    var correctness := ScoreCorrectness(|evidence| > 0, dontKnow, |missing| == 0);
    if |evidence| == 0 {
      flags := flags + [EvidenceFlag()];
    }
    assert flags == Flags(pii, promise, missing, hits == []);
    FlagsRaisedIff(pii, promise, missing, hits == []);
    var compliance := ScoreCompliance(flags);
    var suggested := if soft.suggestedAnswer.Some? then soft.suggestedAnswer.value else "";
    ev := Evaluation(Scores(correctness, compliance, ClampReal(soft.softSkillsScore), ClampReal(soft.deEscalationScore)),
      flags, soft.positives, improvements + soft.improvements, suggested, evidence);
  }

  /** The PII, promise and missing-step checks of `scoreAnswer`, in order. */
  method RaiseFlags(pii: bool, promise: bool, missing: seq<string>) returns (flags: seq<Flag>, improvements: seq<string>)
    ensures flags == OptFlag(pii, PiiFlag()) + OptFlag(promise, PromiseFlag()) + OptFlag(missing != [], MissingFlag(missing))
    ensures improvements == if missing != [] then [AddStepsHint] else []
  {
    flags := [];
    improvements := [];
    if pii {
      flags := flags + [PiiFlag()];
    }
    assert flags == OptFlag(pii, PiiFlag());
    if promise {
      flags := flags + [PromiseFlag()];
    }
    assert flags == OptFlag(pii, PiiFlag()) + OptFlag(promise, PromiseFlag());
    if |missing| > 0 {
      flags := flags + [MissingFlag(missing)];
      improvements := improvements + [AddStepsHint];
    }
  }

  /** The correctness arithmetic of `scoreAnswer`. */
  method ScoreCorrectness(hasEvidence: bool, dontKnow: bool, noneMissing: bool) returns (correctness: int)
    ensures correctness == Correctness(hasEvidence, dontKnow, noneMissing)
  {
    correctness := if hasEvidence then 70 else 40;
    if dontKnow {
      correctness := correctness - 10;
    }
    if noneMissing {
      correctness := correctness + 10;
    }
    if !hasEvidence {
      correctness := if correctness < 40 then correctness else 40;
    }
    correctness := if correctness < 0 then 0 else if correctness > 100 then 100 else correctness;
  }

  /** The compliance arithmetic of `scoreAnswer`, read off the flags. */
  method ScoreCompliance(flags: seq<Flag>) returns (compliance: int)
    ensures compliance == Compliance(HasCode(flags, PiiRequest), HasCode(flags, PromiseMade), HasCode(flags, MissingSteps))
  {
    compliance := 100;
    if HasCode(flags, PiiRequest) {
      compliance := 20;
    }
    if HasCode(flags, PromiseMade) {
      compliance := compliance - 20;
    }
    if HasCode(flags, MissingSteps) {
      compliance := compliance - 15;
    }
    compliance := if compliance < 0 then 0 else if compliance > 100 then 100 else compliance;
  }

  /** Some expected action is missing exactly when the list of improvements
      opens with the structure hint, provided the model's own suggestions do
      not open with it. */
  lemma ImprovementsOpenWithHint(answer: string, expected: seq<string>, soft: seq<string>)
    requires soft == [] || soft[0] != AddStepsHint
    ensures var missing := MissingExpectedActions(answer, expected);
      var imp := (if missing != [] then [AddStepsHint] else []) + soft;
      (imp != [] && imp[0] == AddStepsHint) <==> missing != []
  {
  }

  /** Missing steps are flagged exactly when some expected action is absent
      from the answer. */
  lemma MissingStepsIff(answer: string, expected: seq<string>)
    ensures MissingExpectedActions(answer, expected) != []
      <==> exists i :: 0 <= i < |expected| && !Contains(Lower(answer), Lower(expected[i]))
  {
    var r := MissingExpectedActions(answer, expected);
    if r != [] {
      assert r[0] in r;
    }
  }
}
