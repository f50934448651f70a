/** The intent miner of the trainer's scenario factory: imported questions
    are clustered greedily, each joining the first cluster whose title is
    similar enough (Jaccard index of their token sets at least 0.4), and the
    clusters are then sorted by their total frequency. */
module IntentMiner {
  import opened JsText
  import opened TrainerTokens

  datatype QuestionInput = QuestionInput(question: string, count: int, domain: Option<string>)

  datatype MinedIntent = MinedIntent(title: string, exampleQuestions: seq<string>, frequencyScore: int, domain: Option<string>)

  /** `new Set(tokenize(text))`: the distinct ASCII tokens longer than two
      characters. */
  function TokenSet(text: string): (r: set<string>)
    ensures forall t :: t in r <==> t in LongTokens(text)
  {
    set t | t in LongTokens(text)
  }

  /** `similarity` on two token sets: shared tokens over all tokens, and 0
      when either set is empty. */
  function Jaccard(a: set<string>, b: set<string>): (r: real)
    ensures 0.0 <= r <= 1.0
    ensures r > 0.0 <==> a * b != {}
  {
    if |a| == 0 || |b| == 0 then
      assert a * b == {};
      0.0
    else
      assert |a - b| + |b - a| + |a * b| == |a + b|;
      assert a * b != {} ==> |a * b| > 0;
      Ratio(|a * b|, |a + b|)
  }

  /** `n / d` for `0 <= n <= d`. */
  function Ratio(n: nat, d: nat): (r: real)
    requires 0 < d && n <= d
    ensures 0.0 <= r <= 1.0
    ensures r > 0.0 <==> n > 0
    ensures r == 1.0 <==> n == d
  {
    n as real / d as real
  }

  /** The index is 1 exactly for two equal, non-empty sets. */
  lemma JaccardOne(a: set<string>, b: set<string>)
    ensures Jaccard(a, b) == 1.0 <==> a == b && a != {}
  {
    if a == b && a != {} {
      assert a * b == a && a + b == a;
    }
    if Jaccard(a, b) == 1.0 {
      assert |a - b| + |b - a| + |a * b| == |a + b|;
      assert |a - b| == 0 && |b - a| == 0;
      assert a - b == {} && b - a == {};
      assert forall x :: x in a <==> x in b by {
        forall x ensures x in a <==> x in b {
          assert x !in a - b && x !in b - a;
        }
      }
    }
  }

  /** `similarity(a, b)` on two texts. */
  function Similarity(a: string, b: string): (r: real)
    ensures 0.0 <= r <= 1.0
    ensures r > 0.0 <==> exists t :: t in LongTokens(a) && t in LongTokens(b)
    ensures r == 1.0 <==> TokenSet(a) == TokenSet(b) && TokenSet(a) != {}
  {
    var x, y := TokenSet(a), TokenSet(b);
    JaccardOne(x, y);
    assert x * y != {} ==> exists t :: t in LongTokens(a) && t in LongTokens(b) by {
      if x * y != {} {
        var t :| t in x * y;
        assert t in LongTokens(a) && t in LongTokens(b);
      }
    }
    assert (exists t :: t in LongTokens(a) && t in LongTokens(b)) ==> x * y != {} by {
      if exists t :: t in LongTokens(a) && t in LongTokens(b) {
        var t :| t in LongTokens(a) && t in LongTokens(b);
        assert t in x * y;
      }
    }
    Jaccard(x, y)
  }

  /** The similarity at which a question joins an intent (`score >= 0.4`). */
  const MatchThreshold: real := 0.4

  /** The similarity does not depend on the order of its arguments. */
  lemma SimilaritySymmetric(a: string, b: string)
    ensures Similarity(a, b) == Similarity(b, a)
  {
    var x, y := TokenSet(a), TokenSet(b);
    assert x * y == y * x;
    assert x + y == y + x;
  }

  /** A text without tokens, such as one written in Cyrillic, is similar to
      nothing, not even to itself. */
  lemma NoTokensNoSimilarity(a: string, b: string)
    requires LongTokens(a) == []
    ensures Similarity(a, b) == 0.0 && Similarity(b, a) == 0.0
  {
    assert TokenSet(a) == {};
  }

  /** Whether `question` joins the intent titled `title`. */
  predicate Joins(question: string, title: string)
  {
    Similarity(question, title) >= MatchThreshold
  }

  /** The first intent, in creation order, from `from` on whose title
      `question` joins. The clustering below is stated for any join test
      and is used with `Joins`. */
  function FirstMatchFrom(intents: seq<MinedIntent>, question: string, joins: (string, string) -> bool, from: nat): (r: Option<nat>)
    decreases |intents| - from
    ensures r.Some? ==> from <= r.value < |intents|
  {
    if from >= |intents| then None
    else if joins(question, intents[from].title) then Some(from)
    else FirstMatchFrom(intents, question, joins, from + 1)
  }

  /** The inner loop's search with its `break`. */
  function FirstMatch(intents: seq<MinedIntent>, question: string, joins: (string, string) -> bool): (r: Option<nat>)
    ensures r.Some? ==> r.value < |intents|
  {
    FirstMatchFrom(intents, question, joins, 0)
  }

  lemma {:induction false} FirstMatchFromSpec(intents: seq<MinedIntent>, question: string, joins: (string, string) -> bool, from: nat)
    decreases |intents| - from
    ensures var r := FirstMatchFrom(intents, question, joins, from);
      && (r.Some? ==> joins(question, intents[r.value].title))
      && (r.Some? ==> forall j :: from <= j < r.value ==> !joins(question, intents[j].title))
      && (r.None? ==> forall j :: from <= j < |intents| ==> !joins(question, intents[j].title))
  {
    if from < |intents| && !joins(question, intents[from].title) {
      FirstMatchFromSpec(intents, question, joins, from + 1);
    }
  }

  /** A question goes to the first intent, in creation order, that it
      joins, and to none when it joins none. */
  lemma FirstMatchSpec(intents: seq<MinedIntent>, question: string, joins: (string, string) -> bool)
    ensures var r := FirstMatch(intents, question, joins);
      && (r.Some? ==> joins(question, intents[r.value].title))
      && (r.Some? ==> forall j :: 0 <= j < r.value ==> !joins(question, intents[j].title))
      && (r.None? ==> forall j :: 0 <= j < |intents| ==> !joins(question, intents[j].title))
  {
    FirstMatchFromSpec(intents, question, joins, 0);
  }

  /** The intent a question starts when nothing matches: titled by itself. */
  function Fresh(q: QuestionInput): MinedIntent
  {
    MinedIntent(q.question, [q.question], q.count, q.domain)
  }

  /** The matched intent after it absorbed a question. */
  function Absorb(intent: MinedIntent, q: QuestionInput): MinedIntent
  {
    intent.(exampleQuestions := intent.exampleQuestions + [q.question], frequencyScore := intent.frequencyScore + q.count)
  }

  /** One pass of the outer loop. */
  function Place(intents: seq<MinedIntent>, q: QuestionInput, joins: (string, string) -> bool): (r: seq<MinedIntent>)
    ensures |intents| <= |r| <= |intents| + 1
  {
    match FirstMatch(intents, q.question, joins)
    case None => intents + [Fresh(q)]
    case Some(j) => intents[j := Absorb(intents[j], q)]
  }

  /** The intents after the outer loop has seen all of `qs`, in creation
      order. */
  function Cluster(qs: seq<QuestionInput>, joins: (string, string) -> bool): (r: seq<MinedIntent>)
    ensures |r| <= |qs|
  {
    if |qs| == 0 then [] else Place(Cluster(qs[..|qs| - 1], joins), qs[|qs| - 1], joins)
  }

  predicate FrequencySorted(xs: seq<MinedIntent>)
  {
    forall i, j :: 0 <= i < j < |xs| ==> xs[i].frequencyScore >= xs[j].frequencyScore
  }

  /** Places `x` before the first intent whose frequency is not above its
      own, so that intents of equal frequency keep their order. */
  function Insert(x: MinedIntent, s: seq<MinedIntent>): (r: seq<MinedIntent>)
    ensures multiset(r) == multiset(s) + multiset{x}
    ensures |r| == |s| + 1
  {
    if |s| == 0 || s[0].frequencyScore <= x.frequencyScore then [x] + s
    else
      assert s == [s[0]] + s[1..];
      [s[0]] + Insert(x, s[1..])
  }

  /** `.sort((a, b) => b.frequencyScore - a.frequencyScore)`, which is
      stable: an insertion sort. */
  function ByFrequency(xs: seq<MinedIntent>): (r: seq<MinedIntent>)
    ensures multiset(r) == multiset(xs)
    ensures |r| == |xs|
  {
    if |xs| == 0 then []
    else
      assert xs == [xs[0]] + xs[1..];
      Insert(xs[0], ByFrequency(xs[1..]))
  }

  /** `mineIntents`: at most one intent per question, sorted by frequency,
      every question in exactly one intent, the counts summed and every
      intent titled by its first question. */
  function Mine(qs: seq<QuestionInput>): (r: seq<MinedIntent>)
    ensures |r| <= |qs|
    ensures FrequencySorted(r)
    ensures ExampleBag(r) == multiset(Questions(qs))
    ensures Total(r) == Sum(Counts(qs))
    ensures TitledByFirst(r)
  {
    var c := Cluster(qs, Joins);
    ClusterKeeps(qs, Joins);
    ByFrequencyKeeps(c);
    ByFrequencySorted(c);
    TitledPermutation(c, ByFrequency(c));
    ByFrequency(c)
  }

  /** The inner loop of `mineIntents`: a scan for the first intent that
      the question joins, which breaks when it finds one. `MineIntents`
      runs it with the test `Joins`. */
  method FindMatch(intents: seq<MinedIntent>, question: string, joins: (string, string) -> bool) returns (matched: Option<nat>)
    ensures matched == FirstMatch(intents, question, joins)
  {
    matched := None;
    var j := 0;
    while j < |intents|
      invariant 0 <= j <= |intents| && matched.None?
      invariant forall k :: 0 <= k < j ==> !joins(question, intents[k].title)
    {
      if joins(question, intents[j].title) {
        matched := Some(j);
        break;
      }
      j := j + 1;
    }
    FirstMatchSpec(intents, question, joins);
  }

  /** `mineIntents`: the outer loop appends a new intent or extends the
      matched one, then the intents are sorted. */
  method MineIntents(questions: seq<QuestionInput>) returns (result: seq<MinedIntent>)
    ensures result == Mine(questions)
  {
    var intents: seq<MinedIntent> := [];
    for i := 0 to |questions|
      invariant intents == Cluster(questions[..i], Joins)
    {
      var q := questions[i];
      var matched := FindMatch(intents, q.question, Joins);
      match matched {
        case None =>
          intents := intents + [Fresh(q)];
        case Some(m) =>
          intents := intents[m := Absorb(intents[m], q)];
      }
      assert questions[..i + 1][..i] == questions[..i];
    }
    assert questions[..|questions|] == questions;
    result := ByFrequency(intents);
  }

  // ----- What the miner keeps: titles, questions and total frequency -----

  /** Every intent has example questions, the first of which is its title. */
  predicate TitledByFirst(xs: seq<MinedIntent>)
  {
    forall k :: 0 <= k < |xs| ==> Titled(xs[k])
  }

  predicate Titled(x: MinedIntent)
  {
    |x.exampleQuestions| > 0 && x.exampleQuestions[0] == x.title
  }

  /** Reordering keeps every intent titled by its first question. */
  lemma TitledPermutation(xs: seq<MinedIntent>, ys: seq<MinedIntent>)
    requires TitledByFirst(xs) && multiset(xs) == multiset(ys)
    ensures TitledByFirst(ys)
  {
    forall k | 0 <= k < |ys|
      ensures Titled(ys[k])
    {
      assert ys[k] in multiset(xs);
      var i :| 0 <= i < |xs| && xs[i] == ys[k];
    }
  }

  /** All example questions of all intents, counted with multiplicity. */
  function ExampleBag(xs: seq<MinedIntent>): multiset<string>
  {
    if |xs| == 0 then multiset{} else multiset(xs[0].exampleQuestions) + ExampleBag(xs[1..])
  }

  /** The sum of the intents' frequencies. */
  function Total(xs: seq<MinedIntent>): int
  {
    if |xs| == 0 then 0 else xs[0].frequencyScore + Total(xs[1..])
  }

  function Questions(qs: seq<QuestionInput>): (r: seq<string>)
    ensures |r| == |qs|
  {
    seq(|qs|, k requires 0 <= k < |qs| => qs[k].question)
  }

  function Counts(qs: seq<QuestionInput>): (r: seq<int>)
    ensures |r| == |qs|
  {
    seq(|qs|, k requires 0 <= k < |qs| => qs[k].count)
  }

  lemma {:induction false} TotalAppend(a: seq<MinedIntent>, b: seq<MinedIntent>)
    ensures Total(a + b) == Total(a) + Total(b)
  {
    if |a| > 0 {
      assert (a + b)[0] == a[0];
      assert (a + b)[1..] == a[1..] + b;
      TotalAppend(a[1..], b);
    } else {
      assert a + b == b;
    }
  }

  lemma {:induction false} TotalUpdate(xs: seq<MinedIntent>, j: nat, v: MinedIntent)
    requires j < |xs|
    ensures Total(xs[j := v]) == Total(xs) - xs[j].frequencyScore + v.frequencyScore
  {
    if j > 0 {
      assert xs[j := v][1..] == xs[1..][j - 1 := v];
      TotalUpdate(xs[1..], j - 1, v);
    } else {
      assert xs[j := v][1..] == xs[1..];
    }
  }

  lemma {:induction false} BagAppend(a: seq<MinedIntent>, b: seq<MinedIntent>)
    ensures ExampleBag(a + b) == ExampleBag(a) + ExampleBag(b)
  {
    if |a| > 0 {
      assert (a + b)[0] == a[0];
      assert (a + b)[1..] == a[1..] + b;
      BagAppend(a[1..], b);
    } else {
      assert a + b == b;
    }
  }

  lemma {:induction false} BagAbsorb(xs: seq<MinedIntent>, j: nat, q: QuestionInput)
    requires j < |xs|
    ensures ExampleBag(xs[j := Absorb(xs[j], q)]) == ExampleBag(xs) + multiset{q.question}
  {
    var v := Absorb(xs[j], q);
    if j > 0 {
      assert xs[j := v][0] == xs[0];
      assert xs[1..][j - 1] == xs[j];
      assert xs[j := v][1..] == xs[1..][j - 1 := v];
      BagAbsorb(xs[1..], j - 1, q);
    } else {
      assert xs[j := v][1..] == xs[1..];
      assert multiset(v.exampleQuestions) == multiset(xs[0].exampleQuestions) + multiset{q.question};
    }
  }

  /** Placing a question adds its count to the total and the question to
      the examples, and every intent stays titled by its first question. */
  lemma PlaceKeeps(intents: seq<MinedIntent>, q: QuestionInput, joins: (string, string) -> bool)
    requires TitledByFirst(intents)
    ensures Total(Place(intents, q, joins)) == Total(intents) + q.count
    ensures ExampleBag(Place(intents, q, joins)) == ExampleBag(intents) + multiset{q.question}
    ensures TitledByFirst(Place(intents, q, joins))
  {
    match FirstMatch(intents, q.question, joins)
    case None =>
      TotalAppend(intents, [Fresh(q)]);
      BagAppend(intents, [Fresh(q)]);
      assert ExampleBag([Fresh(q)]) == multiset{q.question};
    case Some(j) =>
      var v := Absorb(intents[j], q);
      TotalUpdate(intents, j, v);
      BagAbsorb(intents, j, q);
      assert Titled(intents[j]);
      assert v.exampleQuestions[0] == intents[j].exampleQuestions[0];
  }

  /** Clustering keeps every question in exactly one intent and the total
      of the counts, and each intent is titled by its first question. */
  lemma {:induction false} ClusterKeeps(qs: seq<QuestionInput>, joins: (string, string) -> bool)
    ensures Total(Cluster(qs, joins)) == Sum(Counts(qs))
    ensures ExampleBag(Cluster(qs, joins)) == multiset(Questions(qs))
    ensures TitledByFirst(Cluster(qs, joins))
  {
    if |qs| > 0 {
      var init := qs[..|qs| - 1];
      ClusterKeeps(init, joins);
      PlaceKeeps(Cluster(init, joins), qs[|qs| - 1], joins);
      assert Counts(qs)[..|qs| - 1] == Counts(init);
      assert Questions(qs) == Questions(init) + [qs[|qs| - 1].question];
    }
  }

  lemma {:induction false} InsertKeeps(x: MinedIntent, s: seq<MinedIntent>)
    ensures Total(Insert(x, s)) == x.frequencyScore + Total(s)
    ensures ExampleBag(Insert(x, s)) == multiset(x.exampleQuestions) + ExampleBag(s)
  {
    if |s| > 0 && s[0].frequencyScore > x.frequencyScore {
      InsertKeeps(x, s[1..]);
    }
  }

  /** The sort keeps the total and the example questions. */
  lemma {:induction false} ByFrequencyKeeps(xs: seq<MinedIntent>)
    ensures Total(ByFrequency(xs)) == Total(xs)
    ensures ExampleBag(ByFrequency(xs)) == ExampleBag(xs)
  {
    if |xs| > 0 {
      ByFrequencyKeeps(xs[1..]);
      InsertKeeps(xs[0], ByFrequency(xs[1..]));
    }
  }

  /** No frequency in `xs` exceeds `v`. */
  predicate AtMost(v: int, xs: seq<MinedIntent>)
  {
    forall k :: 0 <= k < |xs| ==> xs[k].frequencyScore <= v
  }

  lemma ConsSorted(a: MinedIntent, s: seq<MinedIntent>)
    requires FrequencySorted(s) && AtMost(a.frequencyScore, s)
    ensures FrequencySorted([a] + s)
  {
    forall i, j | 0 <= i < j < |s| + 1
      ensures ([a] + s)[i].frequencyScore >= ([a] + s)[j].frequencyScore
    {
      if i > 0 {
        assert ([a] + s)[i] == s[i - 1];
      }
      assert ([a] + s)[j] == s[j - 1];
    }
  }

  lemma {:induction false} InsertAtMost(v: int, x: MinedIntent, s: seq<MinedIntent>)
    requires AtMost(v, s) && x.frequencyScore <= v
    ensures AtMost(v, Insert(x, s))
  {
    if |s| > 0 && s[0].frequencyScore > x.frequencyScore {
      InsertAtMost(v, x, s[1..]);
    }
  }

  lemma {:induction false} InsertSorted(x: MinedIntent, s: seq<MinedIntent>)
    requires FrequencySorted(s)
    ensures FrequencySorted(Insert(x, s))
  {
    if |s| == 0 || s[0].frequencyScore <= x.frequencyScore {
      assert AtMost(x.frequencyScore, s);
      ConsSorted(x, s);
    } else {
      InsertSorted(x, s[1..]);
      InsertAtMost(s[0].frequencyScore, x, s[1..]);
      ConsSorted(s[0], Insert(x, s[1..]));
    }
  }

  /** The sort orders by frequency, highest first. */
  lemma {:induction false} ByFrequencySorted(xs: seq<MinedIntent>)
    ensures FrequencySorted(ByFrequency(xs))
  {
    if |xs| > 0 {
      ByFrequencySorted(xs[1..]);
      InsertSorted(xs[0], ByFrequency(xs[1..]));
    }
  }

  /** Questions that join no title each become an intent of their own, in
      input order. */
  lemma {:induction false} UnjoinedStayApart(qs: seq<QuestionInput>, joins: (string, string) -> bool)
    requires forall k, t :: 0 <= k < |qs| ==> !joins(qs[k].question, t)
    ensures Cluster(qs, joins) == seq(|qs|, k requires 0 <= k < |qs| => Fresh(qs[k]))
  {
    if |qs| > 0 {
      var init := qs[..|qs| - 1];
      UnjoinedStayApart(init, joins);
      FirstMatchSpec(Cluster(init, joins), qs[|qs| - 1].question, joins);
    }
  }

  /** Questions without tokens, such as Cyrillic ones, never cluster: each
      becomes an intent of its own, in input order. */
  lemma TokenlessQuestionsStayApart(qs: seq<QuestionInput>)
    requires forall k :: 0 <= k < |qs| ==> LongTokens(qs[k].question) == []
    ensures Cluster(qs, Joins) == seq(|qs|, k requires 0 <= k < |qs| => Fresh(qs[k]))
  {
    forall k, t | 0 <= k < |qs|
      ensures !Joins(qs[k].question, t)
    {
      NoTokensNoSimilarity(qs[k].question, t);
    }
    UnjoinedStayApart(qs, Joins);
  }
}
