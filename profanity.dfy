/** The abuse detector of the root app: a text is normalised (lower-cased,
    Latin look-alike letters mapped to Cyrillic, white space and some
    punctuation deleted) and then tested against a fixed table of patterns,
    each with a category and a severity. */
module Profanity {
  import opened JsText

  /** The domain of `letterMap`: Latin letters that look like Cyrillic ones. */
  predicate IsLookalike(c: char)
  {
    c == 'a' || c == 'e' || c == 'o' || c == 'p' || c == 'c' || c == 'x' || c == 'y'
    || c == 'k' || c == 'm' || c == 'h' || c == 't' || c == 'b' || c == 'u'
  }

  /** `letterMap[ch] ?? ch`. */
  function MapLetter(c: char): (r: char)
    ensures IsLookalike(c) ==> IsCyrillicLower(r)
    ensures !IsLookalike(c) ==> r == c
  {
    if c == 'a' then 'а'
    else if c == 'e' then 'е'
    else if c == 'o' then 'о'
    else if c == 'p' then 'р'
    else if c == 'c' then 'с'
    else if c == 'x' then 'х'
    else if c == 'y' then 'у'
    else if c == 'k' then 'к'
    else if c == 'm' then 'м'
    else if c == 'h' then 'н'
    else if c == 't' then 'т'
    else if c == 'b' then 'в'
    else if c == 'u' then 'и'
    else c
  }

  /** The class `[\s\.\,\-\_\*\!\?]` that normalisation deletes. */
  predicate IsSeparator(c: char)
  {
    IsSpace(c) || c == '.' || c == ',' || c == '-' || c == '_' || c == '*' || c == '!' || c == '?'
  }

  /** What one input character becomes after normalisation (nothing, if it
      is deleted). */
  function NormalizeChar(c: char): string
  {
    var m := MapLetter(LowerChar(c));
    if IsSeparator(m) then [] else [m]
  }

  function MapLetters(s: string): (r: string)
    ensures |r| == |s|
    ensures forall i :: 0 <= i < |s| ==> r[i] == MapLetter(s[i])
  {
    seq(|s|, i requires 0 <= i < |s| => MapLetter(s[i]))
  }

  function StripSeparators(s: string): (r: string)
    ensures |r| <= |s|
    ensures forall i :: 0 <= i < |r| ==> !IsSeparator(r[i]) && r[i] in s
  {
    if |s| == 0 then []
    else (if IsSeparator(s[0]) then [] else [s[0]]) + StripSeparators(s[1..])
  }

  /** `normalize`: lower-case, map look-alikes, delete separators. */
  function Normalize(text: string): (r: string)
    ensures |r| <= |text|
    ensures forall i :: 0 <= i < |r| ==> !IsSeparator(r[i]) && !IsLookalike(r[i]) && !('A' <= r[i] <= 'Z')
  {
    var lower := Lower(text);
    var mapped := MapLetters(lower);
    var r := StripSeparators(mapped);
    assert forall i :: 0 <= i < |r| ==> !IsLookalike(r[i]) && !('A' <= r[i] <= 'Z') by {
      forall i | 0 <= i < |r| ensures !IsLookalike(r[i]) && !('A' <= r[i] <= 'Z') {
        var j :| 0 <= j < |mapped| && mapped[j] == r[i];
      }
    }
    r
  }

  lemma {:induction false} StripAppend(a: string, b: string)
    ensures StripSeparators(a + b) == StripSeparators(a) + StripSeparators(b)
    decreases |a|
  {
    if |a| > 0 {
      assert (a + b)[0] == a[0];
      assert (a + b)[1..] == a[1..] + b;
      StripAppend(a[1..], b);
      calc {
        StripSeparators(a + b);
        (if IsSeparator(a[0]) then [] else [a[0]]) + StripSeparators(a[1..] + b);
        (if IsSeparator(a[0]) then [] else [a[0]]) + (StripSeparators(a[1..]) + StripSeparators(b));
      }
    } else {
      assert a + b == b;
    }
  }

  /** Normalisation works character by character: it distributes over
      concatenation, and one character is lower-cased, mapped through
      `letterMap`, and deleted exactly when it is white space or one of
      `. , - _ * ! ?` -- every other character, other punctuation included,
      survives. */
  lemma NormalizeAppend(a: string, b: string)
    ensures Normalize(a + b) == Normalize(a) + Normalize(b)
  {
    LowerAppend(a, b);
    MapLettersAppend(Lower(a), Lower(b));
    StripAppend(MapLetters(Lower(a)), MapLetters(Lower(b)));
  }

  lemma MapLettersAppend(a: string, b: string)
    ensures MapLetters(a + b) == MapLetters(a) + MapLetters(b)
  {
  }

  lemma NormalizeOne(c: char)
    ensures Normalize([c]) == NormalizeChar(c)
  {
    assert MapLetters(Lower([c])) == [MapLetter(LowerChar(c))];
  }

  lemma NormalizeCons(s: string)
    requires |s| > 0
    ensures Normalize(s) == NormalizeChar(s[0]) + Normalize(s[1..])
  {
    assert s == [s[0]] + s[1..];
    NormalizeAppend([s[0]], s[1..]);
    NormalizeOne(s[0]);
  }

  lemma {:induction false} NormalizeByChar(s: string, t: string)
    requires |s| == |t|
    requires forall i :: 0 <= i < |s| ==> NormalizeChar(s[i]) == NormalizeChar(t[i])
    ensures Normalize(s) == Normalize(t)
    decreases |s|
  {
    if |s| > 0 {
      NormalizeByChar(s[1..], t[1..]);
      NormalizeCons(s);
      NormalizeCons(t);
    }
  }

  /** `t` is `s` with some Latin look-alike letters, of either case,
      replaced by their Cyrillic images. */
  predicate Obfuscates(s: string, t: string)
  {
    |s| == |t| &&
    forall i :: 0 <= i < |s| ==>
      s[i] == t[i] || (IsLookalike(LowerChar(s[i])) && t[i] == MapLetter(LowerChar(s[i])))
  }

  /** Obfuscation invariance: substituting look-alike letters does not
      change the normalised text. */
  lemma NormalizeObfuscationInvariant(s: string, t: string)
    requires Obfuscates(s, t)
    ensures Normalize(s) == Normalize(t)
  {
    forall i | 0 <= i < |s| ensures NormalizeChar(s[i]) == NormalizeChar(t[i]) {
      if s[i] != t[i] {
        var m := MapLetter(LowerChar(s[i]));
        assert IsCyrillicLower(m);
        assert LowerChar(m) == m && MapLetter(m) == m;
      }
    }
    NormalizeByChar(s, t);
  }

  datatype Category = ProfanityCategory | Insult | HateOrThreat | Rude
  datatype Severity = Critical | Major

  /** The shape of one pattern of the table, as a predicate on the
      normalised text. */
  datatype Form =
    | AnyOf(words: seq<string>)             // a literal alternation `(w1|w2|...)`
    | LookalikeThenU                        // `(х|x|k|к|\\*)у(й|е|я|и)`
    | Gapped(parts: seq<seq<string>>)       // alternations joined by `[^а-я0-9]*`

  datatype Pattern = Pattern(source: string, form: Form, category: Category, severity: Severity)

  /** The prefix alternatives of the first pattern. Its last alternative
      `\\*` is a run of zero or more backslashes, so it matches the empty
      string. */
  predicate LookalikePrefix(p: string)
  {
    p == "х" || p == "x" || p == "k" || p == "к" || forall i :: 0 <= i < |p| ==> p[i] == '\\'
  }

  const UVowels: seq<string> := ["уй", "уе", "уя", "уи"]

  predicate UVowelAt(s: string, j: int)
  {
    exists k :: 0 <= k < |UVowels| && StartsAt(s, j, UVowels[k])
  }

  predicate MatchesLookalikeThenU(s: string)
  {
    exists i, j :: 0 <= i <= j <= |s| && LookalikePrefix(s[i..j]) && UVowelAt(s, j)
  }

  /** The class `[^а-я0-9]`, written without the `i` flag. */
  predicate IsGapChar(c: char) { !IsCyrillicLower(c) && !IsDigit(c) }

  predicate AllGap(s: string) { forall i :: 0 <= i < |s| ==> IsGapChar(s[i]) }

  /** The alternations `parts` match in turn from position `i`, separated
      by runs of `[^а-я0-9]`. */
  predicate GappedAt(s: string, i: int, parts: seq<seq<string>>)
    decreases |parts|
  {
    |parts| > 0 && 0 <= i <= |s| &&
    exists k :: 0 <= k < |parts[0]| && StartsAt(s, i, parts[0][k]) &&
      (|parts| == 1 ||
       exists g :: i + |parts[0][k]| <= g <= |s| && AllGap(s[i + |parts[0][k]|..g]) && GappedAt(s, g, parts[1..]))
  }

  /** `re.test(s)`. */
  predicate Matches(form: Form, s: string)
  {
    match form
    case AnyOf(words) => ContainsAny(s, words)
    case LookalikeThenU => MatchesLookalikeThenU(s)
    case Gapped(parts) => exists i :: 0 <= i <= |s| && GappedAt(s, i, parts)
  }

  const FirstPattern := Pattern("(х|x|k|к|\\\\*)у(й|е|я|и)", LookalikeThenU, ProfanityCategory, Critical)
  const NahPattern := Pattern("(нах|nax|nah)", AnyOf(["нах", "nax", "nah"]), ProfanityCategory, Critical)
  const HatePattern := Pattern("(ненавижу вас)", AnyOf(["ненавижу вас"]), Insult, Critical)

  /** `patterns`, in table order. */
  const Patterns: seq<Pattern> := [
    FirstPattern,
    Pattern("(п|p)изд", AnyOf(["пизд", "pизд"]), ProfanityCategory, Critical),
    Pattern("(бля|blya|бл[яа]д)", AnyOf(["бля", "blya", "бляд", "блад"]), ProfanityCategory, Critical),
    Pattern("(сука|сук|су4ка)", AnyOf(["сука", "сук", "су4ка"]), ProfanityCategory, Critical),
    Pattern("(ебан|ёбан|ебл|еба)", AnyOf(["ебан", "ёбан", "ебл", "еба"]), ProfanityCategory, Critical),
    NahPattern,
    Pattern("(идиот|дебил|кретин|тупиц|дурак)", AnyOf(["идиот", "дебил", "кретин", "тупиц", "дурак"]), Insult, Critical),
    Pattern("(мразь|скотина|тварь)", AnyOf(["мразь", "скотина", "тварь"]), Insult, Critical),
    Pattern("(убью|прикончу|зарежу|подорву)", AnyOf(["убью", "прикончу", "зарежу", "подорву"]), HateOrThreat, Critical),
    HatePattern,
    Pattern("пош(ел|ла)[^а-я0-9]*(вон|нах|отсюда)", Gapped([["пошел", "пошла"], ["вон", "нах", "отсюда"]]), Rude, Major),
    Pattern("иди[^а-я0-9]*(вон|отсюда|кчерту|кчертям)", Gapped([["иди"], ["вон", "отсюда", "кчерту", "кчертям"]]), Rude, Major),
    Pattern("заткнись", AnyOf(["заткнись"]), Rude, Major),
    Pattern("(отвали|отстань)", AnyOf(["отвали", "отстань"]), Rude, Major),
    Pattern("фиг[^а-я0-9]*тебе", Gapped([["фиг"], ["тебе"]]), Rude, Major),
    Pattern("мне[^а-я0-9]*плевать", Gapped([["мне"], ["плевать"]]), Rude, Major),
    Pattern("небуду[^а-я0-9]*стобой[^а-я0-9]*говорить", Gapped([["небуду"], ["стобой"], ["говорить"]]), Rude, Major)
  ]

  /** The running state of the scan over the table. */
  datatype ScanState = ScanState(matched: seq<string>, categories: seq<Category>, severity: Option<Severity>)

  /** The result of `detectAbuse`. */
  datatype Abuse = Abuse(isAbusive: bool, severity: Option<Severity>, categories: seq<Category>, matched: seq<string>)

  /** One iteration of the scan: a matching pattern is recorded, its
      category added once, and the severity replaced unless it is already
      critical. */
  function ScanStep(st: ScanState, p: Pattern, norm: string): ScanState
  {
    if Matches(p.form, norm) then
      ScanState(st.matched + [p.source],
                if p.category in st.categories then st.categories else st.categories + [p.category],
                if st.severity == Some(Critical) then st.severity else Some(p.severity))
    else st
  }

  /** The scan records at most one source per pattern and one category per
      source, and it has a severity exactly when it recorded a source. */
  function Scan(norm: string, table: seq<Pattern>): (st: ScanState)
    ensures |st.categories| <= |st.matched| <= |table|
    ensures st.severity.None? <==> st.matched == []
  {
    if |table| == 0 then ScanState([], [], None)
    else ScanStep(Scan(norm, table[..|table| - 1]), table[|table| - 1], norm)
  }

  lemma ScanNext(norm: string, table: seq<Pattern>, i: nat)
    requires i < |table|
    ensures Scan(norm, table[..i + 1]) == ScanStep(Scan(norm, table[..i]), table[i], norm)
  {
    assert table[..i + 1][..i] == table[..i];
  }

  /** The verdict on an already normalised text. */
  function Classify(norm: string): (r: Abuse)
    ensures r.isAbusive <==> r.matched != []
    ensures r.isAbusive <==> r.severity.Some?
    ensures !r.isAbusive ==> r.categories == []
    ensures |r.matched| <= |Patterns|
  {
    var st := Scan(norm, Patterns);
    Abuse(|st.matched| > 0, st.severity, st.categories, st.matched)
  }

  /** `detectAbuse`: normalise, then scan the pattern table in order. */
  method DetectAbuse(text: string) returns (r: Abuse)
    ensures r == Classify(Normalize(text))
  {
    var norm := Normalize(text);
    var matched, categories, severity := ScanTable(norm, Patterns);
    r := Abuse(|matched| > 0, severity, categories, matched);
  }

  /** The loop of `detectAbuse` over a pattern table: each matching pattern
      is recorded, its category added once, and the severity replaced
      unless it is already critical. */
  method ScanTable(norm: string, table: seq<Pattern>)
    returns (matched: seq<string>, categories: seq<Category>, severity: Option<Severity>)
    ensures ScanState(matched, categories, severity) == Scan(norm, table)
  {
    matched, categories, severity := [], [], None;
    for i := 0 to |table|
      invariant ScanState(matched, categories, severity) == Scan(norm, table[..i])
    {
      var p := table[i];
      ghost var before := ScanState(matched, categories, severity);
      ScanNext(norm, table, i);
      if Matches(p.form, norm) {
        matched := matched + [p.source];
        if p.category !in categories {
          categories := categories + [p.category];
        }
        if severity != Some(Critical) {
          severity := Some(p.severity);
        }
      }
      assert ScanState(matched, categories, severity) == ScanStep(before, p, norm);
    }
    assert table[..|table|] == table;
  }

  /** The sources of the matching patterns, in table order. */
  function MatchingSources(norm: string, table: seq<Pattern>): seq<string>
  {
    if |table| == 0 then []
    else (if Matches(table[0].form, norm) then [table[0].source] else []) + MatchingSources(norm, table[1..])
  }

  /** The categories of the matching patterns, in table order, repeats kept. */
  function MatchingCategories(norm: string, table: seq<Pattern>): seq<Category>
  {
    if |table| == 0 then []
    else (if Matches(table[0].form, norm) then [table[0].category] else []) + MatchingCategories(norm, table[1..])
  }

  predicate SomeMatch(norm: string, table: seq<Pattern>)
  {
    exists i :: 0 <= i < |table| && Matches(table[i].form, norm)
  }

  predicate SomeMatchOf(norm: string, table: seq<Pattern>, sev: Severity)
  {
    exists i :: 0 <= i < |table| && Matches(table[i].form, norm) && table[i].severity == sev
  }

  lemma {:induction false} MatchingSourcesSnoc(norm: string, table: seq<Pattern>, p: Pattern)
    ensures MatchingSources(norm, table + [p]) == MatchingSources(norm, table) + (if Matches(p.form, norm) then [p.source] else [])
    ensures MatchingCategories(norm, table + [p]) == MatchingCategories(norm, table) + (if Matches(p.form, norm) then [p.category] else [])
    decreases |table|
  {
    if |table| > 0 {
      assert (table + [p])[1..] == table[1..] + [p];
      MatchingSourcesSnoc(norm, table[1..], p);
    }
  }

  lemma SomeMatchSnoc(norm: string, init: seq<Pattern>, p: Pattern)
    ensures SomeMatch(norm, init + [p]) <==> SomeMatch(norm, init) || Matches(p.form, norm)
  {
    var table := init + [p];
    if SomeMatch(norm, table) {
      var i :| 0 <= i < |table| && Matches(table[i].form, norm);
      if i < |init| { assert table[i] == init[i]; }
    }
    if SomeMatch(norm, init) {
      var i :| 0 <= i < |init| && Matches(init[i].form, norm);
      assert table[i] == init[i];
    }
    if Matches(p.form, norm) {
      assert table[|init|] == p;
    }
  }

  lemma SomeMatchOfSnoc(norm: string, init: seq<Pattern>, p: Pattern, sev: Severity)
    ensures SomeMatchOf(norm, init + [p], sev) <==> SomeMatchOf(norm, init, sev) || (Matches(p.form, norm) && p.severity == sev)
  {
    var table := init + [p];
    if SomeMatchOf(norm, table, sev) {
      var i :| 0 <= i < |table| && Matches(table[i].form, norm) && table[i].severity == sev;
      if i < |init| { assert table[i] == init[i]; }
    }
    if SomeMatchOf(norm, init, sev) {
      var i :| 0 <= i < |init| && Matches(init[i].form, norm) && init[i].severity == sev;
      assert table[i] == init[i];
    }
    if Matches(p.form, norm) && p.severity == sev {
      assert table[|init|] == p;
    }
  }

  /** The scan lists the sources of the matching patterns in table order. */
  lemma {:induction false} ScanMatched(norm: string, table: seq<Pattern>)
    ensures Scan(norm, table).matched == MatchingSources(norm, table)
    decreases |table|
  {
    if |table| > 0 {
      var init := table[..|table| - 1];
      assert table == init + [table[|table| - 1]];
      ScanMatched(norm, init);
      MatchingSourcesSnoc(norm, init, table[|table| - 1]);
    }
  }

  /** The scan keeps the categories of the matching patterns, each once, in
      order of first match. */
  lemma {:induction false} ScanCategories(norm: string, table: seq<Pattern>)
    ensures Scan(norm, table).categories == Distinct(MatchingCategories(norm, table))
    decreases |table|
  {
    if |table| > 0 {
      var init := table[..|table| - 1];
      var p := table[|table| - 1];
      assert table == init + [p];
      ScanCategories(norm, init);
      MatchingSourcesSnoc(norm, init, p);
      assert Scan(norm, table) == ScanStep(Scan(norm, init), p, norm);
      if Matches(p.form, norm) {
        var cats := MatchingCategories(norm, init);
        var all := cats + [p.category];
        assert all[..|all| - 1] == cats;
        assert Distinct(all) == if p.category in Distinct(cats) then Distinct(cats) else Distinct(cats) + [p.category];
        assert MatchingCategories(norm, table) == all;
        assert Scan(norm, table).categories == Distinct(all);
      } else {
        assert MatchingCategories(norm, table) == MatchingCategories(norm, init);
      }
    }
  }

  /** Critical overrides major: the severity is critical iff a critical
      pattern matched, major iff only major ones matched, absent iff
      nothing matched. */
  lemma {:induction false} ScanSeverity(norm: string, table: seq<Pattern>)
    ensures Scan(norm, table).severity == Some(Critical) <==> SomeMatchOf(norm, table, Critical)
    ensures Scan(norm, table).severity == Some(Major) <==> SomeMatch(norm, table) && !SomeMatchOf(norm, table, Critical)
    ensures Scan(norm, table).severity == None <==> !SomeMatch(norm, table)
    decreases |table|
  {
    if |table| > 0 {
      var init := table[..|table| - 1];
      var p := table[|table| - 1];
      assert table == init + [p];
      ScanSeverity(norm, init);
      SomeMatchSnoc(norm, init, p);
      SomeMatchOfSnoc(norm, init, p, Critical);
      SomeMatchOfSnoc(norm, init, p, Major);
    }
  }

  /** The contract of `detectAbuse` on a normalised text: abusive iff some
      pattern of the table matches; `matched` in table order; categories
      without repeats in first-match order; critical overrides major. */
  lemma ClassifySpec(norm: string)
    ensures Classify(norm).isAbusive <==> SomeMatch(norm, Patterns)
    ensures Classify(norm).matched == MatchingSources(norm, Patterns)
    ensures Classify(norm).categories == Distinct(MatchingCategories(norm, Patterns))
    ensures Classify(norm).severity == Some(Critical) <==> SomeMatchOf(norm, Patterns, Critical)
    ensures Classify(norm).severity == Some(Major) <==> SomeMatch(norm, Patterns) && !SomeMatchOf(norm, Patterns, Critical)
    ensures Classify(norm).severity == None <==> !SomeMatch(norm, Patterns)
  {
    ScanMatched(norm, Patterns);
    ScanCategories(norm, Patterns);
    ScanSeverity(norm, Patterns);
    MatchingSourcesNonEmpty(norm, Patterns);
  }

  lemma {:induction false} MatchingSourcesNonEmpty(norm: string, table: seq<Pattern>)
    ensures |MatchingSources(norm, table)| > 0 <==> SomeMatch(norm, table)
    decreases |table|
  {
    if |table| > 0 {
      MatchingSourcesNonEmpty(norm, table[1..]);
      if SomeMatch(norm, table) && !Matches(table[0].form, norm) {
        var i :| 0 <= i < |table| && Matches(table[i].form, norm);
        assert table[1..][i - 1] == table[i];
      }
      if SomeMatch(norm, table[1..]) {
        var i :| 0 <= i < |table[1..]| && Matches(table[1..][i].form, norm);
        assert table[i + 1] == table[1..][i];
      }
    }
  }

  /** Obfuscation invariance of the whole detector. */
  lemma DetectionObfuscationInvariant(s: string, t: string)
    requires Obfuscates(s, t)
    ensures Classify(Normalize(s)) == Classify(Normalize(t))
  {
    NormalizeObfuscationInvariant(s, t);
  }

  /** The `\\*` alternative matches the empty string, so the first pattern
      fires on any "у" followed by й, е, я or и, whatever precedes it. */
  lemma LookalikeThenUQuirk(s: string)
    ensures MatchesLookalikeThenU(s) <==> exists j :: 0 <= j <= |s| && UVowelAt(s, j)
  {
    if exists j :: 0 <= j <= |s| && UVowelAt(s, j) {
      var j :| 0 <= j <= |s| && UVowelAt(s, j);
      assert LookalikePrefix(s[j..j]);
    }
  }

  lemma CyrillicSurvives(c: char)
    requires IsCyrillicLower(c)
    ensures NormalizeChar(c) == [c]
  {
  }

  /** The polite word "пожалуйста" is flagged as critical profanity. */
  lemma PleaseIsCriticalProfanity(s: string)
    requires s == "пожалуйста"
    ensures Classify(Normalize(s)).isAbusive
    ensures Classify(Normalize(s)).severity == Some(Critical)
  {
    forall i | 0 <= i < |s| ensures NormalizeChar(s[i]) == [s[i]] {
      CyrillicSurvives(s[i]);
    }
    NormalizeByCharIdentity(s);
    assert StartsAt(s, 5, UVowels[0]);
    assert LookalikePrefix(s[5..5]);
    assert Matches(FirstPattern.form, s);
    assert Patterns[0] == FirstPattern;
    ClassifySpec(s);
  }

  lemma {:induction false} NormalizeByCharIdentity(s: string)
    requires forall i :: 0 <= i < |s| ==> NormalizeChar(s[i]) == [s[i]]
    ensures Normalize(s) == s
    decreases |s|
  {
    if |s| > 0 {
      var t := s[1..];
      assert forall i :: 0 <= i < |t| ==> t[i] == s[i + 1];
      NormalizeByCharIdentity(t);
      NormalizeCons(s);
      assert NormalizeChar(s[0]) == [s[0]];
      assert s == [s[0]] + t;
    }
  }

  /** White space is deleted before matching, so patterns match across
      word boundaries: "на хорошем" reads as "нахорошем", which holds "нах". */
  lemma MatchAcrossWords(text: string)
    requires text == "на хорошем"
    ensures Normalize(text) == "нахорошем"
    ensures Classify(Normalize(text)).isAbusive
    ensures Classify(Normalize(text)).severity == Some(Critical)
  {
    NormalizeJoinsWords(text, "на", "хорошем");
    assert "на" + "хорошем" == "нахорошем";
    NahFires("нахорошем");
  }

  lemma NormalizeJoinsWords(text: string, a: string, b: string)
    requires text == a + [' '] + b
    requires forall i :: 0 <= i < |a| ==> IsCyrillicLower(a[i])
    requires forall i :: 0 <= i < |b| ==> IsCyrillicLower(b[i])
    ensures Normalize(text) == a + b
  {
    CyrillicIsKept(a);
    CyrillicIsKept(b);
    var sp := [' '];
    NormalizeOne(' ');
    assert Normalize(sp) == [];
    assert text == (a + sp) + b;
    NormalizeAppend(a + sp, b);
    NormalizeAppend(a, sp);
    assert Normalize(a + sp) == a;
  }

  lemma CyrillicIsKept(a: string)
    requires forall i :: 0 <= i < |a| ==> IsCyrillicLower(a[i])
    ensures Normalize(a) == a
  {
    forall i | 0 <= i < |a| ensures NormalizeChar(a[i]) == [a[i]] { CyrillicSurvives(a[i]); }
    NormalizeByCharIdentity(a);
  }

  lemma NahFires(s: string)
    requires StartsAt(s, 0, "нах")
    ensures Classify(s).isAbusive
    ensures Classify(s).severity == Some(Critical)
  {
    assert StartsAt(s, 0, NahPattern.form.words[0]);
    assert Matches(NahPattern.form, s);
    assert Patterns[5] == NahPattern;
    ClassifySpec(s);
  }

  /** The pattern "(ненавижу вас)" holds a space, and normalisation deletes
      every space, so it never fires. */
  lemma HatePhraseNeverMatches(text: string)
    ensures !Matches(HatePattern.form, Normalize(text))
    ensures Patterns[9] == HatePattern
  {
    var s := Normalize(text);
    var w := HatePattern.form.words[0];
    forall j | 0 <= j <= |s| - |w| ensures !StartsAt(s, j, w) {
      assert w[8] == ' ';
    }
  }
}
