/** The scenario produced by the trainer's scenario factory and its
    validator (`validateScenario`): a scenario needs evidence, and its
    client lines must not ask for personal data. */
module ScenarioValidation {
  import opened JsText

  datatype Role = Client | Manager

  datatype Step = Step(role: Role, text: string)

  datatype Evidence = Evidence(chunkId: string, docTitle: string, snippet: string)

  datatype ScenarioJson = ScenarioJson(
    persona: string,
    channel: string,
    context: string,
    steps: seq<Step>,
    expectedActions: seq<string>,
    complianceTraps: seq<string>,
    evidencePack: seq<Evidence>)

  datatype Validation = Ok | Rejected(reason: string)

  const NoEvidence: string := "NO_EVIDENCE"
  const PiiInClient: string := "PII_IN_CLIENT"

  /** `PII_PATTERNS`: literal words tested with the `i` flag. Lower-casing
      the text first is the same test, since the words are ASCII and only
      `A`-`Z` lower-case to ASCII letters. */
  const PiiPatterns: seq<string> := ["passport", "card number", "cvv", "pin", "password"]

  /** The texts of the client steps, in order. */
  function ClientTexts(steps: seq<Step>): (r: seq<string>)
    ensures |r| <= |steps|
  {
    if |steps| == 0 then []
    else
      var init := ClientTexts(steps[..|steps| - 1]);
      if steps[|steps| - 1].role == Client then init + [steps[|steps| - 1].text] else init
  }

  /** Every client text is the text of a client step, every client step's
      text is among them, and with only client steps there is one per step. */
  lemma {:induction false} ClientTextsSpec(steps: seq<Step>)
    ensures var r := ClientTexts(steps);
      && (forall i :: 0 <= i < |r| ==> exists k :: 0 <= k < |steps| && steps[k].role == Client && steps[k].text == r[i])
      && (forall k :: 0 <= k < |steps| && steps[k].role == Client ==> steps[k].text in r)
      && ((forall k :: 0 <= k < |steps| ==> steps[k].role == Client) ==> |r| == |steps|)
  {
    if |steps| > 0 {
      var n := |steps| - 1;
      var front := steps[..n];
      ClientTextsSpec(front);
      assert forall k :: 0 <= k < n ==> front[k] == steps[k];
      var init := ClientTexts(front);
      var r := ClientTexts(steps);
      if steps[n].role == Client {
        assert r == init + [steps[n].text];
        forall i | 0 <= i < |r|
          ensures exists k :: 0 <= k < |steps| && steps[k].role == Client && steps[k].text == r[i]
        {
          if i < |init| {
            var k :| 0 <= k < n && front[k].role == Client && front[k].text == init[i];
            assert steps[k] == front[k];
          } else {
            assert steps[n].text == r[i];
          }
        }
      } else {
        assert r == init;
        forall i | 0 <= i < |r|
          ensures exists k :: 0 <= k < |steps| && steps[k].role == Client && steps[k].text == r[i]
        {
          var k :| 0 <= k < n && front[k].role == Client && front[k].text == init[i];
          assert steps[k] == front[k];
        }
      }
    }
  }

  /** `clientLines`: the client texts joined with single spaces. */
  function ClientLines(steps: seq<Step>): string
  {
    Join(ClientTexts(steps), " ")
  }

  predicate HasPii(text: string)
  {
    ContainsAny(Lower(text), PiiPatterns)
  }

  /** `validateScenario`. */
  function Validate(s: ScenarioJson): (r: Validation)
    ensures r == Rejected(NoEvidence) <==> |s.evidencePack| == 0
    ensures r == Rejected(PiiInClient) <==> |s.evidencePack| > 0 && HasPii(ClientLines(s.steps))
    ensures r == Ok <==> |s.evidencePack| > 0 && !HasPii(ClientLines(s.steps))
  {
    if |s.evidencePack| == 0 then Rejected(NoEvidence)
    else if HasPii(ClientLines(s.steps)) then Rejected(PiiInClient)
    else Ok
  }

  lemma {:induction false} ClientTextsAppend(a: seq<Step>, b: seq<Step>)
    ensures ClientTexts(a + b) == ClientTexts(a) + ClientTexts(b)
    decreases |b|
  {
    if |b| == 0 {
      assert a + b == a;
    } else {
      var b' := b[..|b| - 1];
      assert (a + b)[..|a + b| - 1] == a + b';
      ClientTextsAppend(a, b');
    }
  }

  /** Manager steps are never inspected: inserting one anywhere does not
      change the verdict. */
  lemma ManagerStepsIgnored(s: ScenarioJson, before: seq<Step>, text: string, after: seq<Step>)
    requires s.steps == before + after
    ensures Validate(s.(steps := before + [Step(Manager, text)] + after)) == Validate(s)
  {
    ClientTextsAppend(before + [Step(Manager, text)], after);
    ClientTextsAppend(before, [Step(Manager, text)]);
    ClientTextsAppend(before, after);
    assert ClientTexts([Step(Manager, text)]) == [];
  }

  /** Missing evidence is reported before personal data is looked for. */
  lemma NoEvidenceFirst(s: ScenarioJson)
    requires |s.evidencePack| == 0 && HasPii(ClientLines(s.steps))
    ensures Validate(s) == Rejected(NoEvidence)
  {
  }

  /** The patterns match inside longer words in any letter case: a client
      talking about "Shipping" is taken to ask for a PIN. */
  lemma PatternsMatchInsideWords(s: ScenarioJson)
    requires |s.evidencePack| > 0 && s.steps == [Step(Client, "Shipping"), Step(Manager, "")]
    ensures Validate(s) == Rejected(PiiInClient)
  {
    assert ClientTexts(s.steps[..1]) == ["Shipping"];
    assert ClientLines(s.steps) == "Shipping";
    assert Lower("Shipping")[4..7] == "pin";
    ContainsAnyAt(Lower("Shipping"), PiiPatterns, 3, 4);
  }

  /** A joined list holds each of its parts between some prefix and some
      suffix. */
  lemma {:induction false} JoinHoldsPart(parts: seq<string>, sep: string, k: int)
    requires 0 <= k < |parts|
    ensures exists a, b :: Join(parts, sep) == a + parts[k] + b
  {
    if |parts| == 1 {
      assert Join(parts, sep) == "" + parts[0] + "";
    } else if k == 0 {
      assert Join(parts, sep) == "" + parts[0] + (sep + Join(parts[1..], sep));
    } else {
      JoinHoldsPart(parts[1..], sep, k - 1);
      var a, b :| Join(parts[1..], sep) == a + parts[1..][k - 1] + b;
      assert Join(parts, sep) == (parts[0] + sep + a) + parts[k] + b;
    }
  }

  lemma {:induction false} ClientTextIn(steps: seq<Step>, k: int)
    requires 0 <= k < |steps| && steps[k].role == Client
    ensures steps[k].text in ClientTexts(steps)
  {
    var init := steps[..|steps| - 1];
    if k < |steps| - 1 {
      assert init[k] == steps[k];
      ClientTextIn(init, k);
    }
  }

  /** A pattern in any client step, in any letter case, rejects a scenario
      that has evidence. */
  lemma PiiInAnyClientStep(s: ScenarioJson, k: int, w: string)
    requires |s.evidencePack| > 0 && 0 <= k < |s.steps| && s.steps[k].role == Client
    requires w in PiiPatterns && Contains(Lower(s.steps[k].text), w)
    ensures Validate(s) == Rejected(PiiInClient)
  {
    var texts := ClientTexts(s.steps);
    ClientTextIn(s.steps, k);
    var i :| 0 <= i < |texts| && texts[i] == s.steps[k].text;
    JoinHoldsPart(texts, " ", i);
    var a, b :| ClientLines(s.steps) == a + texts[i] + b;
    LowerAppend(a, texts[i]);
    LowerAppend(a + texts[i], b);
    ContainsInfix(Lower(a), Lower(texts[i]), Lower(b), w);
    var p :| 0 <= p < |PiiPatterns| && PiiPatterns[p] == w;
  }

  /** The client lines are tested joined, so a pattern can straddle two
      client steps: "my card" then "number please" is rejected. */
  lemma PatternAcrossClientSteps(s: ScenarioJson)
    requires |s.evidencePack| > 0
    requires s.steps == [Step(Client, "my card"), Step(Manager, "ok"), Step(Client, "number please")]
    ensures Validate(s) == Rejected(PiiInClient)
  {
    CardNumberLine(s.steps);
    CardNumberHasPii();
  }

  lemma CardNumberLine(steps: seq<Step>)
    requires steps == [Step(Client, "my card"), Step(Manager, "ok"), Step(Client, "number please")]
    ensures ClientLines(steps) == "my " + "card number" + " please"
  {
    CardNumberTexts(steps);
    JoinTwo("my card", "number please", " ");
  }

  lemma CardNumberTexts(steps: seq<Step>)
    requires steps == [Step(Client, "my card"), Step(Manager, "ok"), Step(Client, "number please")]
    ensures ClientTexts(steps) == ["my card", "number please"]
  {
    assert ClientTexts(steps[..1]) == ["my card"];
    assert ClientTexts(steps[..2]) == ["my card"];
  }

  lemma JoinTwo(a: string, b: string, sep: string)
    ensures Join([a, b], sep) == a + sep + b
  {
    assert [a, b][1..] == [b];
  }

  lemma CardNumberHasPii()
    ensures HasPii("my " + "card number" + " please")
  {
    LowerAppend("my ", "card number");
    LowerAppend("my " + "card number", " please");
    assert Lower("card number") == "card number";
    var low := Lower("my " + "card number" + " please");
    assert low == Lower("my ") + "card number" + Lower(" please");
    assert low[3..14] == "card number";
    ContainsAnyAt(low, PiiPatterns, 1, 3);
  }
}
