# Avatar trainer: verified model of the scoring and scenario core

The avatar trainer is a web application in which a bank's support staff
practise conversations with a simulated client. It exists in two variants:
the root Next.js app (`lib/`, `components/`, `app/`) and the
`avatar-client-trainer/` app. This project models, in Dafny, the
deterministic logic both variants are built on:

- the abuse detector (normalisation and the pattern table);
- the rule-based answer scoring and judging of the root app, and its live
  answer checker;
- the trainer variant's answer scoring and scripted client replies;
- knowledge chunking (fixed overlapping windows, and markdown sections) and
  the two lexical retrievers with their shared ranking step;
- the root app's scripted client and scenario generator, including the
  markdown cleaning of facts and the merge with a language-model plan;
- the trainer's scenario factory: the seed-indexed generator, the
  validator, the Jaccard duplicate filter, intent mining and the pool
  builder;
- the question CSV parser and its storing loops, the seed script's
  allow-list clamp, the report CSV export;
- the back button's navigation stack and the admin panel's web-source
  form.

Every module corresponds to one source file or component. Pure code is
modelled by functions with lemmas; code that updates variables step by step
(accumulating scores, pushing flags, chunking loops, the stack in session
storage, the panel's state) is modelled by methods with loop invariants or
by classes, each proved against a specification function whose properties
are lemmas. Databases, the language model, the network, the clock and
random picks are parameters of the operations that use them.

## Model

| member | source | states |
|---|---|---|
| Profanity.MapLetter | lib/moderation/profanity.ts:1-15 | Each of the 13 Latin look-alikes in `letterMap` becomes a lower-case Cyrillic letter; every other character is kept. |
| Profanity.Normalize | lib/moderation/profanity.ts:38-45 | The normalised text is no longer than the input and holds no separator (white space, `. , - _ * ! ?`), no Latin look-alike and no upper-case ASCII letter. |
| Profanity.StripSeparators | lib/moderation/profanity.ts:44 | Deleting the separator class keeps only characters of the input, none of them a separator. |
| Profanity.MapLetters | lib/moderation/profanity.ts:40-43 | The mapping is character by character and keeps the length. |
| Profanity.NormalizeAppend | lib/moderation/profanity.ts:38-45 | Normalisation distributes over concatenation. |
| Profanity.NormalizeByChar | lib/moderation/profanity.ts:38-45 | Two texts whose characters normalise alike, position by position, normalise to the same text. |
| Profanity.NormalizeObfuscationInvariant | lib/moderation/profanity.ts:1-15 | Replacing Latin look-alike letters, of either case, by their Cyrillic images leaves the normalised text unchanged. |
| Profanity.DetectionObfuscationInvariant | lib/moderation/profanity.ts:47-59 | The same substitution leaves the whole verdict of `detectAbuse` unchanged. |
| Profanity.DetectAbuse | lib/moderation/profanity.ts:47-59 | The loop over the pattern table returns the verdict `Classify` gives on the normalised text. |
| Profanity.ScanTable | lib/moderation/profanity.ts:48-57 | The loop over a pattern table computes the scan `Scan` describes. |
| Profanity.Scan | lib/moderation/profanity.ts:48-57 | At most one source per pattern and at most one category per source are recorded, and a severity is set exactly when some source was recorded. |
| Profanity.Classify | lib/moderation/profanity.ts:47-59 | `isAbusive` holds iff some source was matched, iff a severity is set; a clean text has no category; never more sources than patterns. |
| Profanity.ScanMatched | lib/moderation/profanity.ts:52-54 | The scan lists the sources of exactly the matching patterns, in table order. |
| Profanity.ScanCategories | lib/moderation/profanity.ts:50-55 | The categories are those of the matching patterns, each once, in order of first match. |
| Profanity.ScanSeverity | lib/moderation/profanity.ts:51-56 | Severity is critical iff some critical pattern matched, major iff only major ones matched, and none iff nothing matched. |
| Profanity.MatchingSourcesNonEmpty | lib/moderation/profanity.ts:59 | `matched` is non-empty iff some pattern matches. |
| Profanity.ClassifySpec | lib/moderation/profanity.ts:47-59 | `isAbusive` iff some pattern matches the normalised text, together with the order, category and severity laws above. |
| Profanity.LookalikeThenUQuirk | lib/moderation/profanity.ts:18 | Because `\\*` matches the empty string, the first pattern matches exactly when some "у" is followed by й, е, я or и. |
| Profanity.CyrillicSurvives | lib/moderation/profanity.ts:38-45 | A lower-case Cyrillic letter passes through normalisation unchanged. |
| Profanity.CyrillicIsKept | lib/moderation/profanity.ts:38-45 | A text of lower-case Cyrillic letters is its own normal form. |
| Profanity.NormalizeByCharIdentity | lib/moderation/profanity.ts:38-45 | A text whose every character is kept as it is normalises to itself. |
| Profanity.PleaseIsCriticalProfanity | lib/moderation/profanity.ts:18 | The polite word "пожалуйста" is reported as abusive with critical severity. |
| Profanity.NormalizeJoinsWords | lib/moderation/profanity.ts:44 | Two Cyrillic words separated by a space normalise to their concatenation. |
| Profanity.MatchAcrossWords | lib/moderation/profanity.ts:23 | "на хорошем" normalises to "нахорошем", which contains "нах" and is reported as critical. |
| Profanity.NahFires | lib/moderation/profanity.ts:23 | A normalised text starting with "нах" is abusive with critical severity. |
| Profanity.HatePhraseNeverMatches | lib/moderation/profanity.ts:27 | The pattern "(ненавижу вас)" holds a space that normalisation always deletes, so it never matches. |
| ScoringRules.DetectSignals | lib/scoring/rules.ts:38-53 | `noAnswer` holds iff a no-answer phrase occurs and there is no plan (so it implies `!hasPlan`); `noPlan` and `noEmpathy` are the negations; `abuse` is the abuse detector's verdict. |
| ScoringRules.NowGivesPlanAndTimeline | lib/scoring/rules.ts:28-29 | An answer containing "сейчас" has both a plan and a timeline, because `час` matches inside it. |
| ScoringRules.ApplyRuleList | lib/scoring/rules.ts:72-80 | The forEach loop over one metric's rules yields the outcome `Evaluate` gives on that rule list. |
| ScoringRules.Evaluate | lib/scoring/rules.ts:72-80 | One metric's outcome has a score between 0 and its maximum and no penalty, and its hits and misses together are exactly the rule descriptions, each rule counted once. |
| ScoringRules.EvaluateStep | lib/scoring/rules.ts:73-79 | Each rule adds its weight to the maximum, and also to the score with its description among the hits when its condition holds, or its description to the misses when it does not. |
| ScoringRules.EvaluatePartition | lib/scoring/rules.ts:72-128 | The score lies between 0 and the total weight; hits and misses partition the rule descriptions, every holding rule a hit and every failing one a miss. |
| ScoringRules.WeightsSumTo100 | lib/scoring/rules.ts:66-71 | Each of the four rule lists has weights summing to 100. |
| ScoringRules.Percentage | lib/scoring/rules.ts:130-131 | With a maximum of 100 the percentage equals the score. |
| ScoringRules.ApplyRules | lib/scoring/rules.ts:55-134 | Every metric is evaluated from the detected signals, each maximum is 100, an abusive answer caps compliance at 60 and soft skills and de-escalation at 75, and calming alone earns de-escalation at least 75. |
| ScoringRules.AbuseCaps | lib/scoring/rules.ts:85-118 | An abusive answer fails the abuse rule of three metrics: compliance at most 60, soft skills and de-escalation at most 75. |
| ScoringRules.CalmingWorth75 | lib/scoring/rules.ts:116-117 | Calming wording satisfies the first two de-escalation rules, worth 75 points. |
| ScoringRules.PiiCosts40 | lib/scoring/rules.ts:36-84 | A PII request costs exactly 40 compliance points. |
| ScoringRules.Spaces | lib/scoring/rules.ts:137 | The `\s+` step consumes at least one white-space character and stops at a non-space or the end. |
| ScoringRules.WordAt | lib/scoring/rules.ts:137 | An alternation group matches at a position iff one of its words starts there, and the match ends after that word. |
| ScoringRules.FirstRegMatch | lib/scoring/rules.ts:138 | The search returns the leftmost position where the regulation pattern matches, or nothing when it matches nowhere. |
| ScoringRules.DetectRegulationReference | lib/scoring/rules.ts:136-141 | No result iff the pattern matches nowhere (case-insensitively); otherwise the quote is the text of the leftmost match and the reason is fixed. |
| ScoringRules.RegMatchShape | lib/scoring/rules.ts:137 | Every match is a lead word, white space, then a target word. |
| ScoringRules.RegMatchOfParts | lib/scoring/rules.ts:137 | Conversely, a lead word, white space and a target word at a position make a match there. |
| Judge.Clamp | lib/scoring/judge.ts:30-32 | The result lies in [0,100], equals the input inside that range and the nearer bound outside it. |
| JsText.ClampReal | lib/scoring/judge.ts:30-32 | A fractional score is clamped into [0,100]: kept when inside, 0 below, 100 above. The trainer's `Math.max(0, Math.min(100, x))` at avatar-client-trainer/src/lib/providers/scoring.ts:120-121 is the same function. |
| Judge.ComplianceScore | lib/scoring/judge.ts:36-51 | Compliance lies in [0,90], is at most 35 on a banned pattern, is at least 85 iff there is neither a banned pattern nor an over-promise, and the flags are PII_DETECTED then OVERPROMISE, each only when its pattern fires. |
| Judge.SoftSkillsScore | lib/scoring/judge.ts:53-59 | Soft skills lie in [60,85]: 70, plus 10 for empathy, plus 5 for politeness, minus 10 under 40 characters. |
| Judge.DeEscalationScore | lib/scoring/judge.ts:61-67 | De-escalation lies in [40,75]: 60, minus 10 for an intolerant client, plus 15 for calming wording, minus 10 for a directive. |
| Judge.Total | lib/scoring/judge.ts:80 | The weighted, rounded total lies in [0,100]. |
| Judge.Suggested | lib/scoring/judge.ts:94 | The suggestion names the plan's first fact when it is non-empty, and "правила сервиса" (the service rules) when there is no fact or the first one is empty. |
| Judge.CorrectnessScore | lib/scoring/judge.ts:70-74 | Without evidence correctness is 35, or 20 when the answer hedges; with evidence it is the clamp of 70 plus the top score capped at 20, minus 15 for hedging. |
| Judge.Feedback | lib/scoring/judge.ts:83-92 | INSUFFICIENT_EVIDENCE is appended after the compliance flags when there is no evidence; positives and mistakes follow the fixed order of the source. |
| Judge.PiiFlagIff | lib/scoring/judge.ts:81-90 | PII_DETECTED is among the flags iff a banned pattern fired, before and after INSUFFICIENT_EVIDENCE is appended. |
| Judge.JudgeScores | lib/scoring/judge.ts:69-81 | All scores are in their ranges, the total is the clamped weighted sum, and `pass` holds iff there is no banned pattern, no over-promise and a total of at least 70. |
| Judge.JudgeAnswer | lib/scoring/judge.ts:69-113 | The whole evaluation: the score laws above, flags in the order PII_DETECTED, OVERPROMISE, INSUFFICIENT_EVIDENCE, the positives, mistakes and suggestion, with the evidence passed through. |
| AnswerValidation.FiredMessages | lib/utils/answerValidation.ts:67-71 | Every warning collected from the table is the message of a pattern that fires on the answer, and there are at most as many as table rows. |
| AnswerValidation.FiredPositions | lib/utils/answerValidation.ts:67-71 | The positions of the firing table entries: strictly increasing, each in range with its pattern firing, and every firing entry among them. |
| AnswerValidation.FiredInTableOrder | lib/utils/answerValidation.ts:67-71 | The collected messages are exactly those of the firing entries, one per entry, in table order; so every firing entry's message is collected. |
| AnswerValidation.Warnings | lib/utils/answerValidation.ts:67-103 | At most the table size plus two warnings; the vagueness warning (`/не знаю|затрудняюсь|не уверен/i`) and the directive warning (`/успокойтесь|тише|не кричите/i`) are present whenever their patterns match, and every other warning is the message of a compliance pattern that fires. |
| AnswerValidation.WarningsInOrder | lib/utils/answerValidation.ts:67-103 | The warnings are the firing compliance messages in table order, then the vagueness warning if it matches, then the directive warning last if it matches; every firing compliance message is present. |
| AnswerValidation.MissingElements | lib/utils/answerValidation.ts:79-85 | At most two missing elements; the empathy element is listed iff the answer shows no empathy, the action element iff it names no action, and empathy comes first. |
| AnswerValidation.RawScore | lib/utils/answerValidation.ts:106-114 | The unclamped score lies in [50,110]. |
| AnswerValidation.CollectWarnings | lib/utils/answerValidation.ts:66-103 | The loop yields `Warnings`: the compliance-table messages in table order, then the vagueness warning, then the directive warning (the order is `WarningsInOrder`). |
| AnswerValidation.Score | lib/utils/answerValidation.ts:105-116 | The score lies in [50,100]: the raw score with its maximum of 110 clamped to 100. |
| AnswerValidation.Completeness | lib/utils/answerValidation.ts:73-93 | At most two missing elements, for empathy and for action; the timeframe and evidence suggestions are appended when those are absent. |
| AnswerValidation.AnalyzeAnswer | lib/utils/answerValidation.ts:50-128 | On the trimmed text: score in [50,100]; hints non-empty iff shorter than 40 characters; warnings and missing elements as above; `isValid` iff at least 40 characters, no warning and at most one missing element; suggestions in the source's order. |
| AnswerValidation.QualityColor | lib/utils/answerValidation.ts:130-134 | Emerald iff the score is at least 80, amber iff in [60,80), rose iff below 60. |
| AnswerValidation.QualityLabel | lib/utils/answerValidation.ts:136-141 | Each label holds exactly on its band: 80 and above, [60,80), [40,60), below 40. |
| AnswerValidation.ColourMatchesLabel | lib/utils/answerValidation.ts:130-141 | The colour and the label agree on the two upper bands, and an analysed score (at least 50) is never labelled incomplete. |
| LexicalRetrieval.WindowStart | lib/providers/retrieval.ts:14 | With overlap below chunk size, the k-th window start `k·(chunkSize − overlap)` is never negative. |
| LexicalRetrieval.WindowsFrom | lib/providers/retrieval.ts:8-15 | The windows from a start are empty exactly when the start is at or past the end of the content. |
| LexicalRetrieval.WindowsInBounds | lib/providers/retrieval.ts:9-10 | Every window is a non-empty slice inside the content. |
| LexicalRetrieval.ChunksOf | lib/providers/retrieval.ts:10-12 | One chunk per window. |
| LexicalRetrieval.Windows | lib/providers/retrieval.ts:4-17 | The chunker emits as many chunks as there are windows. |
| LexicalRetrieval.ChunkLoopStep | lib/providers/retrieval.ts:8-15 | One loop iteration appends the trimmed window with the next index and leaves exactly the remaining windows to do. |
| LexicalRetrieval.ChunkText | lib/providers/retrieval.ts:4-17 | The while loop, with defaults 1000 and 120, returns the chunks of the window sequence; it is proved to terminate when chunkSize > overlap. |
| LexicalRetrieval.NoProgressWithoutStep | lib/providers/retrieval.ts:13-14 | With chunkSize ≤ overlap and the end not reached, the next start does not advance, so the source loop would not terminate. |
| LexicalRetrieval.WindowAt | lib/providers/retrieval.ts:9-14 | The k-th window starts at `start + k·(chunkSize − overlap)` and ends at `min(len, start + chunkSize)`; only the last reaches the end. |
| LexicalRetrieval.ChunkAt | lib/providers/retrieval.ts:9-11 | The k-th chunk is the trim of its window, carries index k and is at most chunkSize long. |
| LexicalRetrieval.WindowsSpec | prisma/seed.js:7-20 | The copy of the chunker: empty content gives no chunks; chunk k is the trimmed window k, of at most chunkSize characters, with index k; every window but the last stops short of the end and the last ends at the content's length. |
| LexicalRetrieval.WindowsEach | prisma/seed.js:12-15 | Each chunk is the trimmed slice of its window, indices run 0, 1, 2, … |
| LexicalRetrieval.WindowsEnd | prisma/seed.js:16-17 | The loop stops after the window that reaches the end of the content. |
| LexicalRetrieval.WindowsOverlap | lib/providers/retrieval.ts:13-14 | Consecutive windows overlap by exactly `overlap` characters. |
| LexicalRetrieval.WindowStartNext | prisma/seed.js:17 | Successive window starts differ by chunkSize − overlap. |
| LexicalRetrieval.QueryTokens | lib/providers/retrieval.ts:20 | The query tokens are the non-empty runs between `[^a-zа-я0-9]` separators of the lower-cased query. |
| LexicalRetrieval.Occurrences | lib/providers/retrieval.ts:25 | `split(token).length − 1` is positive iff the token occurs in the text. |
| LexicalRetrieval.LexicalScore | lib/providers/retrieval.ts:19-31 | The forEach over the distinct tokens computes the score `ScoreOf`. |
| LexicalRetrieval.TokenScorePositive | lib/providers/retrieval.ts:24-29 | The score is non-negative, and positive iff some token occurs in the text. |
| LexicalRetrieval.ScorePositiveIff | lib/providers/retrieval.ts:19-31 | `lexicalScore` is positive iff some query token occurs in the lower-cased text. |
| LexicalRetrieval.RepeatedTokenCountsOnce | lib/providers/retrieval.ts:22 | A repeated query token adds nothing: the set of distinct tokens is unchanged. |
| LexicalRetrieval.Round3 | lib/providers/retrieval.ts:48 | Rounding to three decimals keeps a score of at least 1 at least 1. |
| LexicalRetrieval.Round3Monotone | lib/providers/retrieval.ts:48 | Rounding to three decimals preserves order. |
| LexicalRetrieval.ScoreAll | lib/providers/retrieval.ts:35-39 | Each chunk is paired with its lexical score, in order. |
| LexicalRetrieval.RetrieveChunks | lib/providers/retrieval.ts:33-51 | The ranking returns at most topK items, exactly as many as `slice(0, topK)` keeps of the positively scored chunks. |
| LexicalRetrieval.RetrieveChunksSpec | lib/providers/retrieval.ts:35-49 | The top topK chunks: as many items as `slice(0, topK)` keeps of the positively scored chunks, each with score at least 1, sorted non-increasing, each taken from a chunk whose lexical score is positive; a positively scored chunk left out scores, rounded, no more than any result. |
| LexicalRetrieval.RetrieveChunksTop | lib/providers/retrieval.ts:40-49 | A positively scored chunk whose item is not among the results has a rounded score no higher than every result's. |
| LexicalRetrieval.LeftOutItem | lib/providers/retrieval.ts:40-49 | The same for one left-out chunk and one result. |
| LexicalRetrieval.TokenScoreAtLeastOne | lib/providers/retrieval.ts:26-27 | A token score is 0 or at least 1, since each occurring token adds at least 1. |
| LexicalRetrieval.NoTokensNoResults | lib/providers/retrieval.ts:20-40 | A query made only of separators returns no results. |
| Ranking.Positive | lib/providers/retrieval.ts:40 | `filter(score > 0)` keeps only positive scores and never grows the list. |
| Ranking.PositiveSpec | lib/providers/retrieval.ts:40 | The filter keeps a sub-multiset of its input, including every positively scored item. |
| Ranking.Insert | lib/providers/retrieval.ts:41 | An insertion step adds exactly one item. |
| Ranking.InsertSorted | lib/providers/retrieval.ts:41 | Inserting into a non-increasing list keeps it non-increasing. |
| Ranking.SortDesc | lib/providers/retrieval.ts:41 | `sort((a, b) => b.score − a.score)` yields a non-increasing permutation of its input. |
| Ranking.SliceTo | lib/providers/retrieval.ts:42 | `slice(0, topK)` is a prefix of at most topK items whose length follows JavaScript's rule for a possibly negative end. |
| Ranking.Rank | lib/providers/retrieval.ts:40-42 | The pipeline returns at most topK items, exactly as many as `slice(0, topK)` keeps of the positive ones, all positive, sorted non-increasing, drawn from the input. |
| Ranking.RankKeepsTop | lib/providers/retrieval.ts:40-42 | The ranking keeps the top: every positive item not kept scores no more than each kept item. |
| Ranking.TopOfSorted | lib/providers/retrieval.ts:41-42 | A prefix of a non-increasing permutation keeps the top of the permuted items. |
| Ranking.TailBelowPrefix | lib/providers/retrieval.ts:41-42 | In a non-increasing list every item after position n scores no more than each item before it. |
| Ranking.LeftOutScoresNoMore | lib/providers/retrieval.ts:40-42 | An input item with positive score that is not ranked scores no more than every ranked item. |
| Ranking.LeftOutMeansFull | lib/providers/retrieval.ts:40-42 | If a positive item is left out, the ranking holds exactly topK items. |
| Ranking.PositiveOfNonPositive | lib/providers/retrieval.ts:40 | With no positive score the filter yields the empty list. |
| Ranking.PrefixOfSorted | avatar-client-trainer/src/lib/providers/retrieval.ts:53-55 | A prefix of the sorted positive items is sorted, positive and drawn from them. |
| Ranking.RankKeepsAllPositive | avatar-client-trainer/src/lib/providers/retrieval.ts:53-55 | When topK is at least the number of positive items, the ranking holds exactly the positive ones. |
| Ranking.RankNothingPositive | avatar-client-trainer/src/lib/providers/retrieval.ts:53 | With no positive score the ranking is empty. |
| TrainerRetrieval.Hits | avatar-client-trainer/src/lib/providers/retrieval.ts:27 | The hit count is at most the number of text tokens, and positive iff the token occurs among them. |
| TrainerRetrieval.TokenScore | avatar-client-trainer/src/lib/providers/retrieval.ts:23-33 | The score is always even, and positive iff some query token occurs among the text tokens. |
| TrainerRetrieval.ScoreText | avatar-client-trainer/src/lib/providers/retrieval.ts:23-33 | The loop over the query tokens computes `TokenScore` of the tokenised text. |
| TrainerRetrieval.TokenScoreAppend | avatar-client-trainer/src/lib/providers/retrieval.ts:26-31 | The score is additive over the query tokens. |
| TrainerRetrieval.RepeatedTokenCountsTwice | avatar-client-trainer/src/lib/providers/retrieval.ts:26-29 | Repeated query tokens are counted every time: a token twice more adds four times its hits. |
| TrainerRetrieval.Snippet | avatar-client-trainer/src/lib/providers/retrieval.ts:51 | The snippet is the prefix of at most 240 characters, the whole text when it is that short. |
| TrainerRetrieval.ScoreAll | avatar-client-trainer/src/lib/providers/retrieval.ts:45-52 | Each chunk is mapped to its result record with its score, in order. |
| TrainerRetrieval.Search | avatar-client-trainer/src/lib/providers/retrieval.ts:36-58 | A query with no tokens returns []; otherwise at most topK (default 5) results, exactly as many as `slice(0, topK)` keeps of the positively scored chunks. |
| TrainerRetrieval.RankChunks | avatar-client-trainer/src/lib/providers/retrieval.ts:45-55 | The ranking returns at most topK results, exactly as many as `slice(0, topK)` keeps of the positively scored chunks. |
| TrainerRetrieval.SearchSpec | avatar-client-trainer/src/lib/providers/retrieval.ts:36-58 | The top topK chunks: every result has a positive even score and is the record of one of the chunks with its 240-character snippet, results are sorted non-increasing, there are as many as `slice(0, topK)` keeps of the positively scored chunks, and a positively scored chunk left out scores no more than any result. |
| TrainerRetrieval.RankChunksSpec | avatar-client-trainer/src/lib/providers/retrieval.ts:45-55 | The same laws (including the top-k length and the left-out bound) for given query tokens. |
| TrainerRetrieval.RankChunksFrom | avatar-client-trainer/src/lib/providers/retrieval.ts:45-55 | Results are positive even-scored chunk records with their snippets, sorted non-increasing, as many as `slice(0, topK)` keeps. |
| TrainerRetrieval.RankChunksTop | avatar-client-trainer/src/lib/providers/retrieval.ts:45-55 | A positively scored chunk not among the results scores no more than every result. |
| TrainerRetrieval.LeftOutChunk | avatar-client-trainer/src/lib/providers/retrieval.ts:45-55 | The same for one left-out chunk and one result. |
| TrainerRetrieval.RankedFromChunks | avatar-client-trainer/src/lib/providers/retrieval.ts:45-52 | Everything ranked comes from some chunk. |
| TrainerRetrieval.SharedTokenIsFound | avatar-client-trainer/src/lib/providers/retrieval.ts:36-57 | A chunk sharing a token with the query is among the results, or the results are a full five that each score at least as much as it. |
| TrainerRetrieval.SharedTokenIsRanked | avatar-client-trainer/src/lib/providers/retrieval.ts:45-55 | The same for given query tokens and any topK. |
| TrainerRetrieval.PositiveChunkIsRanked | avatar-client-trainer/src/lib/providers/retrieval.ts:53-55 | A positively scored chunk is ranked, or the ranking is a full topK results that each score at least as much as it. |
| TrainerTokens.Scrub | avatar-client-trainer/src/lib/scenarioFactory/intentMiner.ts:17 | Replacing every non-alphanumeric, non-space character by a space keeps the length. |
| TrainerTokens.Prepared | avatar-client-trainer/src/lib/scenarioFactory/intentMiner.ts:16-17 | After lower-casing and scrubbing, a position is white space exactly when the original character was not an ASCII letter or digit. |
| TrainerTokens.LongOnlySpec | avatar-client-trainer/src/lib/scenarioFactory/intentMiner.ts:19 | `filter((t) => t.length > 2)` keeps exactly the tokens longer than two characters. |
| TrainerTokens.Tokens | avatar-client-trainer/src/lib/providers/retrieval.ts:15-21 | Every token is non-empty and made only of lower-case ASCII letters and digits. |
| TrainerTokens.NoTokensIff | avatar-client-trainer/src/lib/providers/retrieval.ts:15-21 | A text has no tokens iff it holds no ASCII letter or digit. |
| TrainerTokens.CyrillicHasNoTokens | avatar-client-trainer/src/lib/scenarioFactory/intentMiner.ts:14-20 | Purely Cyrillic text has no tokens at all, long or short. |
| IntentMiner.TokenSet | avatar-client-trainer/src/lib/scenarioFactory/intentMiner.ts:23-24 | The token set holds exactly the tokens longer than two characters. |
| IntentMiner.Jaccard | avatar-client-trainer/src/lib/scenarioFactory/intentMiner.ts:25-28 | The similarity lies in [0,1] and is positive iff the two sets share a token (0 when either is empty). |
| IntentMiner.Ratio | avatar-client-trainer/src/lib/scenarioFactory/intentMiner.ts:28 | The quotient lies in [0,1], is positive iff the numerator is, and is 1 iff the two are equal. |
| IntentMiner.JaccardOne | avatar-client-trainer/src/lib/scenarioFactory/intentMiner.ts:25-28 | Similarity is 1 exactly for equal non-empty token sets. |
| IntentMiner.SimilaritySymmetric | avatar-client-trainer/src/lib/scenarioFactory/intentMiner.ts:22-29 | `similarity` is symmetric. |
| IntentMiner.Similarity | avatar-client-trainer/src/lib/scenarioFactory/intentMiner.ts:22-29 | The similarity lies in [0,1]; it is positive iff the texts share a qualifying token, and 1 iff their token sets are equal and non-empty. |
| IntentMiner.NoTokensNoSimilarity | avatar-client-trainer/src/lib/scenarioFactory/intentMiner.ts:25 | A text without long tokens has similarity 0 with anything, both ways round. |
| IntentMiner.FirstMatch | avatar-client-trainer/src/lib/scenarioFactory/intentMiner.ts:35-41 | The match found is an index of an existing intent. |
| IntentMiner.FirstMatchSpec | avatar-client-trainer/src/lib/scenarioFactory/intentMiner.ts:35-41 | The question joins the first intent, in creation order, it is similar enough to; no earlier intent qualifies; with no match, none does. |
| IntentMiner.FindMatch | avatar-client-trainer/src/lib/scenarioFactory/intentMiner.ts:34-41 | The inner loop with its `break` finds exactly that first match. |
| IntentMiner.Place | avatar-client-trainer/src/lib/scenarioFactory/intentMiner.ts:43-53 | Placing a question adds at most one intent. |
| IntentMiner.Cluster | avatar-client-trainer/src/lib/scenarioFactory/intentMiner.ts:33-54 | There are never more intents than questions. |
| IntentMiner.ByFrequency | avatar-client-trainer/src/lib/scenarioFactory/intentMiner.ts:56 | The sort is a permutation of the intents. |
| IntentMiner.MineIntents | avatar-client-trainer/src/lib/scenarioFactory/intentMiner.ts:31-57 | The nested loops and the final sort compute `Mine`. |
| IntentMiner.TitledPermutation | avatar-client-trainer/src/lib/scenarioFactory/intentMiner.ts:44-56 | Reordering the intents keeps every title equal to its first example question. |
| IntentMiner.PlaceKeeps | avatar-client-trainer/src/lib/scenarioFactory/intentMiner.ts:43-53 | Placing a question adds its count to the total frequency, its text to the example questions, and keeps titles equal to first examples. |
| IntentMiner.ClusterKeeps | avatar-client-trainer/src/lib/scenarioFactory/intentMiner.ts:33-54 | After clustering, the frequencies sum to the input counts and the example questions are exactly the input questions. |
| IntentMiner.ByFrequencyKeeps | avatar-client-trainer/src/lib/scenarioFactory/intentMiner.ts:56 | Sorting keeps the total frequency and the example questions. |
| IntentMiner.ByFrequencySorted | avatar-client-trainer/src/lib/scenarioFactory/intentMiner.ts:56 | The result is sorted by frequency, non-increasing. |
| IntentMiner.Mine | avatar-client-trainer/src/lib/scenarioFactory/intentMiner.ts:31-57 | No more intents than questions; sorted by frequency; every question in exactly one intent's examples; frequencies sum to the input counts; each title is its first example. |
| IntentMiner.UnjoinedStayApart | avatar-client-trainer/src/lib/scenarioFactory/intentMiner.ts:43-49 | When no question joins any title, each question becomes its own intent, in input order, before sorting. |
| IntentMiner.TokenlessQuestionsStayApart | avatar-client-trainer/src/lib/scenarioFactory/intentMiner.ts:14-25 | Questions without ASCII tokens longer than two characters, such as Cyrillic ones, never cluster. |
| ScenarioDedup.DedupScore | avatar-client-trainer/src/lib/scenarioFactory/dedup.ts:18-20 | The score lies in [0,1], with 0 when the union is empty. |
| ScenarioDedup.DedupScoreIsJaccard | avatar-client-trainer/src/lib/scenarioFactory/dedup.ts:18-20 | The dedup score is the same Jaccard similarity the intent miner uses. |
| ScenarioDedup.DedupScoreSymmetric | avatar-client-trainer/src/lib/scenarioFactory/dedup.ts:18-20 | The dedup score is symmetric. |
| ScenarioDedup.TooSimilarTo | avatar-client-trainer/src/lib/scenarioFactory/dedup.ts:10-24 | The loop can only return true when there is another text, and never for a text without tokens. |
| ScenarioDedup.TooSimilar | avatar-client-trainer/src/lib/scenarioFactory/dedup.ts:1-25 | `isTooSimilar` is true only for a text with a qualifying token and a non-empty list of others. |
| ScenarioDedup.TooSimilarToSpec | avatar-client-trainer/src/lib/scenarioFactory/dedup.ts:10-24 | The early-exit loop returns true iff some other text scores above the threshold. |
| ScenarioDedup.TooSimilarSpec | avatar-client-trainer/src/lib/scenarioFactory/dedup.ts:1-25 | `isTooSimilar` holds iff some other text has Jaccard similarity strictly above 0.75; it is false for no others. |
| ScenarioDedup.TokenlessNeverTooSimilar | avatar-client-trainer/src/lib/scenarioFactory/dedup.ts:20 | A text without qualifying tokens, such as an all-Cyrillic one, is never too similar. |
| ScenarioDedup.TooSimilarMonotone | avatar-client-trainer/src/lib/scenarioFactory/dedup.ts:10-22 | Adding texts before or after can only turn false into true. |
| ScenarioDedup.TooSimilarToItself | avatar-client-trainer/src/lib/scenarioFactory/dedup.ts:18-21 | A text with a qualifying token is too similar to itself. |
| ScenarioValidation.ClientTexts | avatar-client-trainer/src/lib/scenarioFactory/validators.ts:10-12 | There are never more client texts than steps. |
| ScenarioValidation.ClientTextsSpec | avatar-client-trainer/src/lib/scenarioFactory/validators.ts:10-12 | `filter(role === "client").map(text)`: every client text is the text of some client step, every client step's text is among them, and with only client steps there is exactly one per step. |
| ScenarioValidation.Validate | avatar-client-trainer/src/lib/scenarioFactory/validators.ts:5-20 | NO_EVIDENCE iff the evidence pack is empty; PII_IN_CLIENT iff there is evidence and a PII pattern occurs in the joined client lines; ok otherwise. |
| ScenarioValidation.ClientTextsAppend | avatar-client-trainer/src/lib/scenarioFactory/validators.ts:10-12 | Filtering the client steps distributes over concatenation. |
| ScenarioValidation.ManagerStepsIgnored | avatar-client-trainer/src/lib/scenarioFactory/validators.ts:10-12 | Inserting a manager step anywhere never changes the verdict. |
| ScenarioValidation.NoEvidenceFirst | avatar-client-trainer/src/lib/scenarioFactory/validators.ts:6-8 | The evidence check comes before the PII check. |
| ScenarioValidation.PatternsMatchInsideWords | avatar-client-trainer/src/lib/scenarioFactory/validators.ts:3 | "pin" fires inside "Shipping": the patterns are case-insensitive substrings. |
| ScenarioValidation.PiiInAnyClientStep | avatar-client-trainer/src/lib/scenarioFactory/validators.ts:10-17 | A PII pattern in any client step rejects the scenario. |
| ScenarioValidation.PatternAcrossClientSteps | avatar-client-trainer/src/lib/scenarioFactory/validators.ts:10-16 | Joining client lines with a space lets "card number" match across two client steps with a manager step between them. |
| ScenarioFactory.Generate | avatar-client-trainer/src/lib/scenarioFactory/generator.ts:28-74 | The evidence pack holds at most 3 entries, and persona, channel and context come from their fixed lists. |
| JsText.Substitution | avatar-client-trainer/src/lib/scenarioFactory/generator.ts:37 | The replacement text JavaScript inserts for a string pattern: "$$", "$&", "$`" and "$'" expand to "$", the match, the text before and the text after; a replacement without "$" is inserted as written. |
| JsText.ReplaceFirst | avatar-client-trainer/src/lib/scenarioFactory/generator.ts:37 | `replace` with a string pattern: unchanged when the pattern is absent; otherwise its first occurrence, and no earlier one, is replaced by the expanded replacement. |
| ScenarioFactory.BaseLine | avatar-client-trainer/src/lib/scenarioFactory/generator.ts:36-37 | The base line is the template picked by `seed % 3` with the expanded intent title in place of "{intent}"; a title without "$" goes in as written. |
| ScenarioFactory.MatchPatternTitle | avatar-client-trainer/src/lib/scenarioFactory/generator.ts:37 | A title "$&" is expanded to the placeholder itself, so seed 0 gives the first template unchanged. |
| ScenarioFactory.ReplaceAfterHead | avatar-client-trainer/src/lib/scenarioFactory/generator.ts:37 | `replace` of the first occurrence puts the expanded replacement in place of the word when the text before it cannot start one. |
| ScenarioFactory.BaseLineShape | avatar-client-trainer/src/lib/scenarioFactory/generator.ts:36-37 | Each template's "{intent}" is replaced by the expanded intent title, even when the title itself holds "{intent}". |
| ScenarioFactory.GenerateSpec | avatar-client-trainer/src/lib/scenarioFactory/generator.ts:33-70 | Persona and template both use `seed % 3`, so they always correspond; channel is `(seed+1) % 2`, context `(seed+2) % 3`; steps are exactly the paraphrased base line (the template with the expanded intent title, the title itself when it has no "$") then an empty manager line; expected actions are clarify, check, explain, offer; the traps are `ComplianceTraps`: asking for a code and pressing for a promise when intolerant, rushing and asking for an exception otherwise; every evidence entry comes from a knowledge chunk. |
| ScenarioFactory.EvidencePack | avatar-client-trainer/src/lib/scenarioFactory/generator.ts:53-54 | The evidence pack comes from a search for the intent title limited to the top 3 chunks, so it holds at most 3 entries. |
| ScenarioFactory.EvidenceFromChunks | avatar-client-trainer/src/lib/scenarioFactory/generator.ts:53-70 | Every evidence entry carries the id and document title of some chunk in the knowledge base. |
| ScenarioFactory.TokenlessTitleHasNoEvidence | avatar-client-trainer/src/lib/scenarioFactory/generator.ts:53-54 | An intent title without ASCII tokens finds no evidence, so the scenario fails validation with NO_EVIDENCE. |
| ScenarioPool.TrainerFactory | avatar-client-trainer/src/lib/scenarioFactory/index.ts:1-3 | The pool builder uses the trainer's own `validateScenario` and `isTooSimilar`. |
| ScenarioPool.Attempt | avatar-client-trainer/src/lib/scenarioFactory/index.ts:28-49 | One attempt keeps the pool when the generated scenario fails validation; when it changes the pool it appends exactly one scenario for this intent, validated, and one text not too similar to the texts kept before. |
| ScenarioPool.BuildPool | avatar-client-trainer/src/lib/scenarioFactory/index.ts:26-52 | Every scenario in the pool belongs to one of the given intents. |
| ScenarioPool.BuildScenarioPool | avatar-client-trainer/src/lib/scenarioFactory/index.ts:5-55 | The nested loops, with `seed` growing by 3 per intent, return the scenarios of `BuildPool`. |
| ScenarioPool.TrainerPersonaBySeed | avatar-client-trainer/src/lib/scenarioFactory/index.ts:29-33 | The trainer's generator picks persona `seed % 3` and channel `(seed+1) % 2` for every title and difficulty. |
| ScenarioPool.AttemptKeeps | avatar-client-trainer/src/lib/scenarioFactory/index.ts:28-49 | One attempt keeps the pool invariant: scenarios and texts grow in lockstep; every accepted scenario validated, has the score of its difficulty and the persona and channel of its JSON; no text is too similar to an earlier one. |
| ScenarioPool.AttemptsKeep | avatar-client-trainer/src/lib/scenarioFactory/index.ts:27-50 | The inner loop keeps the pool invariant. |
| ScenarioPool.BuildPoolKeepsWith | avatar-client-trainer/src/lib/scenarioFactory/index.ts:26-52 | The whole build keeps the pool invariant for any generator with seed-indexed personas. |
| ScenarioPool.NoNearDuplicates | avatar-client-trainer/src/lib/scenarioFactory/index.ts:39-41 | Texts each not too similar to the earlier ones are pairwise at most 0.75 similar. |
| ScenarioPool.BuildPoolKeeps | avatar-client-trainer/src/lib/scenarioFactory/index.ts:25-52 | Every accepted scenario passed validation, has difficultyScore 30/60/80 for simple/hard/intolerant, the persona matching its difficulty and a channel of chat or call; `existingTexts` and `scenarios` grow in lockstep; no two accepted texts are near-duplicates. |
| ScenarioPool.HarderScoresHigher | avatar-client-trainer/src/lib/scenarioFactory/index.ts:47 | `difficultyScore` (30, 60, 80 for simple, hard, intolerant) grows with the difficulty and stays within [0,100]. |
| ScenarioPool.AttemptsAppend | avatar-client-trainer/src/lib/scenarioFactory/index.ts:27-50 | One intent's loop only appends, at most countPerIntent scenarios, all for that intent. |
| ScenarioPool.BuildPoolSize | avatar-client-trainer/src/lib/scenarioFactory/index.ts:26-50 | The pool holds at most intents × countPerIntent scenarios. |
| ScenarioPool.BuildPoolOrder | avatar-client-trainer/src/lib/scenarioFactory/index.ts:26-52 | Scenarios are ordered by intent: each intent's scenarios follow those of the intents before it. |
| ScenarioPool.RejectedAttempts | avatar-client-trainer/src/lib/scenarioFactory/index.ts:35-36 | When no generated scenario validates, the inner loop leaves the pool unchanged. |
| ScenarioPool.RejectedIntents | avatar-client-trainer/src/lib/scenarioFactory/index.ts:26-52 | When no scenario of any intent validates, the pool is empty. |
| ScenarioPool.TokenlessIntentsGiveEmptyPool | avatar-client-trainer/src/lib/scenarioFactory/index.ts:29-36 | Intents whose titles have no ASCII tokens, such as Cyrillic ones, yield an empty pool. |
| QuestionCsv.NumberOfIntString | avatar-client-trainer/src/app/api/admin/questions/import/route.ts:10 | `Number` of an integer's decimal text gives back that integer. |
| QuestionCsv.ParseNumber | avatar-client-trainer/src/app/api/admin/questions/import/route.ts:10 | `Number(count)` is an integer only for a blank text or one ending in a digit; a negative value comes only from a leading minus; an all-digit text gives a non-negative integer. |
| QuestionCsv.NumberIgnoresSpace | avatar-client-trainer/src/app/api/admin/questions/import/route.ts:10 | `Number` ignores white space around its text: trimming it first gives the same value. |
| QuestionCsv.DigitsValueOfString | avatar-client-trainer/src/app/api/admin/questions/import/route.ts:10 | The decimal text of a natural number is all digits and its digit value is the number. |
| QuestionCsv.SplitLines | avatar-client-trainer/src/app/api/admin/questions/import/route.ts:6 | `split(/\r?\n/)` yields at least one line. |
| QuestionCsv.SplitLinesWithoutCr | avatar-client-trainer/src/lib/db/ensure.ts:134 | On text without a carriage return before a newline, splitting on `\r?\n` is splitting on `\n`. |
| QuestionCsv.ParseCsv | avatar-client-trainer/src/app/api/admin/questions/import/route.ts:5-13 | Empty lines and then the header are dropped, so there is one row per remaining line; no question holds a comma and no domain is blank. |
| QuestionCsv.RowOf | avatar-client-trainer/src/app/api/admin/questions/import/route.ts:8-12 | A line without commas gives count 1 (`count ?? "1"`) and no domain; the question and any domain have no white space at either end, and a domain is never empty. |
| QuestionCsv.NumberOfOne | avatar-client-trainer/src/app/api/admin/questions/import/route.ts:10 | The default count text `"1"` reads as 1. |
| QuestionCsv.OptionalField | avatar-client-trainer/src/app/api/admin/questions/import/route.ts:11 | `domain?.trim() \|\| undefined`: a present domain is non-empty and trimmed; none only when the field is all white space. |
| QuestionCsv.LineRoundTrip | avatar-client-trainer/src/lib/db/ensure.ts:135-140 | A line written from a question, count and domain without commas parses back to the trimmed question, the number and the trimmed domain, absent when empty. |
| QuestionCsv.LineShape | avatar-client-trainer/src/lib/db/ensure.ts:134-135 | Such a line is non-empty and holds no line break. |
| QuestionCsv.CsvLines | avatar-client-trainer/src/lib/db/ensure.ts:134 | The non-empty lines of a written file are its header and then one line per question. |
| QuestionCsv.ParseCsvRoundTrip | avatar-client-trainer/prisma/seed.ts:8-16 | Parsing a file written as a header plus one line per question gives back one row per question, in order. |
| QuestionCsv.StoreQuestions | avatar-client-trainer/src/app/api/admin/questions/import/route.ts:27-36 | The import loop creates exactly the records `Imported` describes. |
| QuestionCsv.ImportedSpec | avatar-client-trainer/src/lib/db/ensure.ts:174-186 | Every stored record has a non-empty question and a count that is neither 0 nor NaN, each comes from a row with a question, every such row is stored, and all rows are stored iff none has an empty question. |
| QuestionCsv.Imported | avatar-client-trainer/src/app/api/admin/questions/import/route.ts:27-36 | No more records than rows, and every record has a non-empty question and a count that is neither 0 nor NaN. |
| QuestionCsv.Store | avatar-client-trainer/src/lib/db/ensure.ts:178-185 | `count: row.count \|\| 1`: the question and domain are kept; the stored count is truthy, and is the row's own count unless that was 0 or NaN, in which case it is 1. |
| QuestionCsv.ImportQuestions | avatar-client-trainer/src/app/api/admin/questions/import/route.ts:15-39 | A missing or string file gives 400 and stores nothing; otherwise the reported `imported` is the number of parsed rows, skipped ones included, and the stored records are those of the loop. |
| SeedScript.SeedQuestions | avatar-client-trainer/prisma/seed.ts:56-64 | The seed loop stores one record per row, in order, with the question and count as parsed: no skip and no default. |
| SeedScript.SeedAgreesWithImport | avatar-client-trainer/prisma/seed.ts:56-64 | The seed script stores the same records as the import route exactly when every row has a question and a truthy count. |
| SeedScript.AllStored | avatar-client-trainer/src/lib/db/ensure.ts:175-186 | When every row has a question and a truthy count, the skip-and-default loop stores every row as it is. |
| SeedScript.Clamp | avatar-client-trainer/prisma/seed.ts:97-108 | Persona and channel end up allowed; allowed ones are kept (others become calm and chat); all other fields pass through. |
| SeedScript.ClampIdempotent | avatar-client-trainer/prisma/seed.ts:101-102 | Clamping twice is clamping once. |
| SeedScript.SeedScenarios | avatar-client-trainer/prisma/seed.ts:100-110 | The scenario loop stores the clamped payload of every scenario, in order. |
| SeedScript.PoolNeedsNoClamp | avatar-client-trainer/prisma/seed.ts:92-110 | The clamp never changes a scenario of the trainer's own pool. |
| ReportsExport.Keys | avatar-client-trainer/src/app/api/reports/export/route.ts:5 | One header per key of the first row, in insertion order. |
| ReportsExport.Cells | avatar-client-trainer/src/app/api/reports/export/route.ts:8 | One cell per header. |
| ReportsExport.CsvLines | avatar-client-trainer/src/app/api/reports/export/route.ts:6-9 | The header line plus one line per row: rows + 1 lines. |
| ReportsExport.ToCsv | avatar-client-trainer/src/app/api/reports/export/route.ts:4-11 | The loop joins those lines with "\n"; no rows give "". |
| ReportsExport.IntStringHasNoSeparator | avatar-client-trainer/src/app/api/reports/export/route.ts:8 | `String` of a number contains no comma and no newline. |
| ReportsExport.Cell | avatar-client-trainer/src/app/api/reports/export/route.ts:8 | `String(row[h] ?? "")`: a missing value gives "", and a cell holds no comma (no line feed) when the record's keys and texts hold none, since a number's text never does. |
| ReportsExport.LookupFree | avatar-client-trainer/src/app/api/reports/export/route.ts:8 | A text value found under a key of a record whose texts are free of a character is free of it. |
| ReportsExport.RowSplitsIntoCells | avatar-client-trainer/src/app/api/reports/export/route.ts:8 | With no comma in the values, splitting a data line on commas gives back its cells, one per header: values are joined in header order with no quoting. |
| ReportsExport.CsvLineCount | avatar-client-trainer/src/app/api/reports/export/route.ts:6-10 | With no newline in the values, the output splits back into exactly rows + 1 lines. |
| ReportsExport.Values | avatar-client-trainer/src/app/api/reports/export/route.ts:21-29 | One fractional score per evaluation: a missing `scores` object counts as all zeros, and a missing metric inside it as 0 (`s[key] ?? 0`). |
| ReportsExport.ScoresOf | avatar-client-trainer/src/app/api/reports/export/route.ts:25 | `json.scores ?? {all zero}`: an evaluation without scores reads 0 on every metric; one with scores reads its own. |
| ReportsExport.Avg | avatar-client-trainer/src/app/api/reports/export/route.ts:27-30 | The rounded mean is 0 without evaluations, and lies in [0,100] when every score does, fractional scores included. |
| ReportsExport.SumBounds | avatar-client-trainer/src/app/api/reports/export/route.ts:29 | A sum of n fractional values in [lo,hi] lies between n·lo and n·hi. |
| ReportsExport.AvgBounds | avatar-client-trainer/src/app/api/reports/export/route.ts:27-30 | The rounded average of scores in [lo,hi] (0 among them, as missing scores count as 0) stays in [lo,hi]. |
| ReportsExport.MeanBounds | avatar-client-trainer/src/app/api/reports/export/route.ts:29 | The mean lies between the bounds of its terms. |
| ReportsExport.RoundedMeanBounds | avatar-client-trainer/src/app/api/reports/export/route.ts:29 | `Math.round` of the mean of values within integer bounds stays within those bounds. |
| ReportsExport.AvgOfEqual | avatar-client-trainer/src/app/api/reports/export/route.ts:27-30 | When every evaluation has the same score v, the average is v rounded half up (0 without evaluations). |
| ReportsExport.ReportValues | avatar-client-trainer/src/app/api/reports/export/route.ts:32-41 | One value per report column. |
| ReportsExport.Zip | avatar-client-trainer/src/app/api/reports/export/route.ts:32-41 | The record's keys are the columns, in order. |
| ReportsExport.LookupZip | avatar-client-trainer/src/app/api/reports/export/route.ts:8 | Looking up a column of such a record gives its value. |
| ReportsExport.CellsOfZip | avatar-client-trainer/src/app/api/reports/export/route.ts:8 | The cells of such a record are its values shown as text. |
| ReportsExport.ReportCells | avatar-client-trainer/src/app/api/reports/export/route.ts:32-41 | A session's row (`ReportRow`, the headers zipped with the values) gives, in column order, its id, mode, intent title, creation time and the text of its four rounded averages. |
| ReportsExport.ReportLines | avatar-client-trainer/src/app/api/reports/export/route.ts:20-44 | The first line lists the eight columns; line k+1 is session k's id, mode, intent title, creation time and its four rounded averages, joined by commas. |
| SectionChunking.SplitHeaders | avatar-client-trainer/src/lib/chunking.ts:10 | `split(/\n(?=#)/)` yields at least one piece, the first a prefix of the text. |
| SectionChunking.SplitHeadersJoin | avatar-client-trainer/src/lib/chunking.ts:10 | Joining the pieces with "\n" gives back the text: only the newline before a '#' is removed. |
| SectionChunking.SplitHeadersCutsEveryBreak | avatar-client-trainer/src/lib/chunking.ts:10 | No piece contains a newline immediately followed by '#'. |
| SectionChunking.TrimEach | avatar-client-trainer/src/lib/chunking.ts:11 | Each section is the trim of its piece. |
| SectionChunking.Sections | avatar-client-trainer/src/lib/chunking.ts:9-12 | Every section is non-empty and has no white space at either end. |
| SectionChunking.TrimmedPieces | avatar-client-trainer/src/lib/chunking.ts:11-12 | Trimming each piece and dropping the empty ones leaves only non-empty texts with no white space at either end. |
| SectionChunking.SpaceHasNoSections | avatar-client-trainer/src/lib/chunking.ts:9-12 | White-space-only content has no sections. |
| SectionChunking.BufferTrim | avatar-client-trainer/src/lib/chunking.ts:18-19 | The buffer is already trimmed, and `buffer.trim().length > 0` holds exactly when a section is waiting in it. |
| SectionChunking.Push | avatar-client-trainer/src/lib/chunking.ts:17-22 | Pushing a pending buffer adds a chunk made of exactly the waiting sections. |
| SectionChunking.Merge | avatar-client-trainer/src/lib/chunking.ts:31 | Appending a section with the "\n\n" separator keeps the buffer a valid chunk: a merged buffer is at most 1202 characters, since the separator is not counted in the overflow check. |
| SectionChunking.FlattenLength | avatar-client-trainer/src/lib/chunking.ts:24-37 | Chunks built from non-empty groups of sections are no more numerous than the sections. |
| SectionChunking.PushBuffer | avatar-client-trainer/src/lib/chunking.ts:17-22 | `pushBuffer` with sections waiting appends the buffer (its own trim) as a chunk and empties the buffer; with none waiting it changes nothing; no section is lost or repeated. |
| SectionChunking.MergeSections | avatar-client-trainer/src/lib/chunking.ts:14-38 | The loop over trimmed sections puts every section into exactly one chunk, in order; every chunk is non-empty and trimmed, the join of its sections by "\n\n"; a merged chunk is at most 1202 characters and holds no section over 1200; every chunk but the last was closed for cause (it reached 800 characters, or the next section would have taken it over 1200); a chunk takes a third section only while it is below 800; no sections, no chunks. |
| SectionChunking.ChunkDocument | avatar-client-trainer/src/lib/chunking.ts:8-39 | The same laws for the sections of the document: the chunks split the sections in order, each chunk is well formed, closed for cause and merged only below 800; a document with no sections gives no chunks. |
| SectionChunking.MergeStep | avatar-client-trainer/src/lib/chunking.ts:24-35 | One turn of the loop: a section that would take the buffer over 1200 pushes the buffer (if any) and starts a new one with the section; otherwise the section joins the buffer after "\n\n", and the buffer is pushed as soon as it reaches 800; the loop invariant is kept and sections keep their order. |
| SectionChunking.PushForCause | avatar-client-trainer/src/lib/chunking.ts:25-33 | Pushing a buffer that opened after a chunk closed for cause, and grew only below 800, keeps every chunk but the last closed for cause and merged only below 800. |
| SectionChunking.PushFlushed | avatar-client-trainer/src/lib/chunking.ts:25-33 | Pushing the buffer keeps every earlier chunk closed for cause when the last one was. |
| SectionChunking.OverflowKeepsBetween | avatar-client-trainer/src/lib/chunking.ts:25-28 | After an overflow the pushed buffer was closed for cause and the new buffer holds exactly the section. |
| SectionChunking.MergeKeepsBetween | avatar-client-trainer/src/lib/chunking.ts:31-34 | Merging a section that leaves the buffer below 800 keeps the loop invariant. |
| SectionChunking.MergeThenPushKeepsBetween | avatar-client-trainer/src/lib/chunking.ts:31-33 | Merging a section that brings the buffer to 800 and pushing it leaves an empty buffer with the invariant kept and the sections in order. |
| SectionChunking.LastPushKeepsChunks | avatar-client-trainer/src/lib/chunking.ts:37 | The final push leaves well-formed chunks, each but the last closed for cause. |
| ClientReply.NextReply | avatar-client-trainer/src/lib/session/avatar.ts:15-39 | The reply is the refusal line iff a PII pattern matches the manager's answer. |
| ClientReply.NextClientReply | avatar-client-trainer/src/lib/session/avatar.ts:15-39 | A PII request gets the refusal line; otherwise a missing expected action gets the clarifying question about the first one missing; with nothing missing the line is the urgency, worry or thanks line. |
| ClientReply.AsksForFirstMissing | avatar-client-trainer/src/lib/session/avatar.ts:10-28 | Otherwise, with an expected action missing, the reply asks to clarify the first missing one in expected order. |
| ClientReply.PersonaLines | avatar-client-trainer/src/lib/session/avatar.ts:30-38 | With nothing missing: the urgency line iff the persona is impatient and turnCount > 1, the worried line iff anxious, the thanks line otherwise. |
| ClientReply.ImpatientWaitsOneTurn | avatar-client-trainer/src/lib/session/avatar.ts:30-32 | An impatient client on turn 1 or earlier falls through to the thanks line. |
| ScenarioEngine.TonePrefix | lib/scenario/engine.ts:23-27 | The prefix starts with the persona's voice and is exactly that voice iff the difficulty is simple. |
| ScenarioEngine.FindArchetype | lib/scenario/engine.ts:30 | `find` returns the first archetype with the plan's id, or none when no archetype has it. |
| ScenarioEngine.InitialClientMessage | lib/scenario/engine.ts:29-35 | The opening is the first sample question of the first archetype with the plan's id, or the fixed default when there is no such archetype or it has no questions. |
| ScenarioEngine.TruncRem | lib/scenario/engine.ts:46 | JavaScript's `%` truncates: the remainder has the sign of the dividend and equals Dafny's `%` on non-negative operands. |
| ScenarioEngine.FollowUp | lib/scenario/engine.ts:46 | A follow-up is one of the sample questions or the fixed default. |
| ScenarioEngine.FollowUps | lib/scenario/engine.ts:38-39 | Non-empty follow-ups are the sample questions of the plan's archetype. |
| ScenarioEngine.NextClientMessage | lib/scenario/engine.ts:37-50 | With a score of at least 55 the message is a follow-up question or the default. |
| ScenarioEngine.Escalation | lib/scenario/engine.ts:41-43 | The trimmed escalation message is non-empty, starts with the chosen escalation line and has no white space at either end. |
| ScenarioEngine.TrimKeepsLine | lib/scenario/engine.ts:43 | Trimming a line with no white space at its ends followed by a space and more text keeps the line at the front. |
| ScenarioEngine.EscalationUsesTrigger | lib/scenario/engine.ts:41-43 | Below 55, when the picked trigger is non-empty and does not end in white space, the message is the escalation line, a space and that trigger; a trigger ending in white space would lose it to the final trim. |
| ScenarioEngine.EscalationWithoutTriggers | lib/scenario/engine.ts:43 | With no triggers the escalation line is followed by the literal "undefined". |
| ScenarioEngine.FollowUpCycles | lib/scenario/engine.ts:46 | From 55 on, the message is `followUps[(step+1) mod len]`. |
| ScenarioEngine.FollowUpPeriodic | lib/scenario/engine.ts:46 | The follow-ups cycle with the number of sample questions. |
| ScenarioEngine.NoQuestionsFallback | lib/scenario/engine.ts:46 | An archetype without sample questions gives the fixed default follow-up. |
| ScenarioEngine.NegativeStepFallback | lib/scenario/engine.ts:46 | A step below −1 gives a negative index, so the default follow-up unless the remainder is 0. |
| ScenarioEngine.IgnoresFacts | lib/scenario/engine.ts:33-48 | Client messages never read the plan's facts. |
| ScenarioGenerator.Opener | lib/scenario/generator.ts:33 | The opener starts with "Сценарий: " and the title, contains the persona's tone and ends with the difficulty hint and a full stop. |
| ScenarioGenerator.BuildOpener | lib/scenario/generator.ts:16-34 | The same shape with the tone and hint tables of `buildOpener`. |
| ScenarioGenerator.OpenerDeterminesTitle | lib/scenario/generator.ts:33 | For a fixed tone and hint the opener determines the title: different titles give different openers. |
| ScenarioGenerator.ChosenArchetype | lib/scenario/generator.ts:38-47 | The built-in fallback archetype is used iff the loaded list is empty; otherwise the pick is one of the loaded archetypes. |
| ScenarioGenerator.DifficultiesFor | lib/scenario/generator.ts:49 | Exam mode never offers the simple difficulty. |
| ScenarioGenerator.FactsQuery | lib/scenario/generator.ts:52 | The retrieval query is the title, a space, the topics joined by spaces, a space and the summary: it starts with the title and ends with the summary. |
| ScenarioGenerator.Keywords | lib/scenario/generator.ts:92-95 | The keywords are the lower-cased topics, in order, followed by words of the lower-cased title longer than 4 characters. |
| ScenarioGenerator.KeywordsHoldLongTitleWords | lib/scenario/generator.ts:94 | Every word of the lower-cased title longer than 4 characters is among the keywords after the topics. |
| ScenarioGenerator.LongWords | lib/scenario/generator.ts:94 | Exactly the words longer than 4 characters are kept. |
| ScenarioGenerator.IsRelevant | lib/scenario/generator.ts:97-111 | A chunk is relevant only with a score of at least 0.5 and only when some keyword is longer than 4 characters; with no such keyword nothing is relevant. |
| ScenarioGenerator.RelevantFacts | lib/scenario/generator.ts:97-113 | There are never more facts than retrieved chunks. |
| ScenarioGenerator.RelevantFactsSpec | lib/scenario/generator.ts:97-113 | A fact is the cleaned and trimmed text (200 characters) of a chunk with score ≥ 0.5, containing a keyword longer than 4 characters and not matching the instruction pattern; every such chunk gives a fact. |
| ScenarioGenerator.LowScoreDropped | lib/scenario/generator.ts:100 | Chunks scoring below 0.5 never become facts. |
| ScenarioGenerator.Merge | lib/scenario/generator.ts:155-179 | archetypeId, persona, difficulty and facts always come from the deterministic plan; without the model, or when it fails, the plan itself is returned. |
| ScenarioGenerator.EmptyAnswerKeepsPlan | lib/scenario/generator.ts:168-174 | A model answer with only empty or missing fields leaves the plan unchanged. |
| ScenarioGenerator.AnswerOverrides | lib/scenario/generator.ts:168-174 | Non-empty opener and goal and present trigger and pitfall lists from the model replace the plan's. |
| ScenarioGenerator.GeneratedChoices | lib/scenario/generator.ts:36-49 | Exam mode yields hard or intolerant; other modes the picked difficulty; the persona is the picked one and never "zoomer"; the archetype is the fallback iff none is loaded, else a loaded one. |
| ScenarioGenerator.PersonaPick | lib/scenario/generator.ts:6 | The persona list does not contain "zoomer". |
| ScenarioGenerator.DifficultyPick | lib/scenario/generator.ts:49 | A difficulty picked in exam mode is hard or intolerant. |
| ScenarioGenerator.PlanWithoutModel | lib/scenario/generator.ts:155-164 | Without the model, triggers and pitfalls are both exactly `gotchas.slice(0, 3)` (all gotchas when fewer than 3), the goal is one of the outcomes (absent iff there are none), and the opener is `buildOpener`'s. |
| ScenarioGenerator.DeterministicPlan | lib/scenario/generator.ts:155-164 | The plan without the model: never the zoomer persona; hard or intolerant in exam mode; triggers and pitfalls are both exactly `gotchas.slice(0, 3)`; a goal iff the archetype has outcomes and then one of them; no more facts than retrieved chunks. |
| ScenarioGenerator.GenerateScenario | lib/scenario/generator.ts:36-180 | The generated plan never has the zoomer persona, is hard or intolerant in exam mode, and uses the built-in fallback archetype when no archetypes are loaded. |
| ScenarioGenerator.FactsAreRelevantChunks | lib/scenario/generator.ts:51-116 | Every fact of the plan is the cleaned text of a relevant chunk retrieved for the archetype's query. |
| FactCleaning.RunWhile | lib/scenario/generator.ts:59-60 | A run of matching characters ends at the first non-matching one or at the end. |
| FactCleaning.StripLeads | lib/scenario/generator.ts:59-60 | Stripping a marker at line starts never lengthens the text. |
| FactCleaning.StripLeadsNone | lib/scenario/generator.ts:59-60 | Without the marker at any line start, the text is unchanged. |
| FactCleaning.StripLeadsKeepsText | lib/scenario/generator.ts:59-60 | Only the markers and the white space after them are deleted: every other character occurs in the result exactly as often as in the text. |
| FactCleaning.StripLeadsKeepsOrder | lib/scenario/generator.ts:59-60 | The rest of the text keeps its order: with the marker and all white space dropped, the result reads exactly as the text. |
| FactCleaning.Without | lib/scenario/generator.ts:62-63 | Deleting a character leaves none of it. |
| FactCleaning.WithoutAbsent | lib/scenario/generator.ts:62-63 | Deleting an absent character changes nothing. |
| FactCleaning.WithoutKeepsOrder | lib/scenario/generator.ts:62-63 | Deleting a character works piece by piece in order: the result for a text split in two is the two results joined, and a single character goes iff it is the deleted one; so the rest of the text is kept, in order. |
| FactCleaning.WithoutPairs | lib/scenario/generator.ts:61 | Deleting `**` pairs never lengthens the text. |
| FactCleaning.WithoutPairsKeepsText | lib/scenario/generator.ts:61 | Only asterisks are deleted: every other character occurs in the result exactly as often as in the text. |
| FactCleaning.WithoutPairsAbsent | lib/scenario/generator.ts:61 | A text without asterisks is unchanged. |
| FactCleaning.BoldThenItalic | lib/scenario/generator.ts:61-62 | Deleting `**` and then `*` deletes every asterisk. |
| FactCleaning.CollapseBlankLines | lib/scenario/generator.ts:64 | Replacing runs of two or more newlines never lengthens the text. |
| FactCleaning.CollapseLeavesNoBlankLine | lib/scenario/generator.ts:64 | Afterwards no two newlines are adjacent. |
| FactCleaning.CollapseKeepsText | lib/scenario/generator.ts:64 | Only newlines are replaced, by spaces: every other character occurs in the result exactly as often as in the text. |
| FactCleaning.CollapseKeepsOrder | lib/scenario/generator.ts:64 | The rest of the text keeps its order: with line feeds and spaces dropped, the result reads exactly as the text. |
| FactCleaning.CollapseWithoutBlankLine | lib/scenario/generator.ts:64 | A text without two adjacent newlines is unchanged. |
| FactCleaning.Clean | lib/scenario/generator.ts:58-65 | The cleaned text has no white space at either end. |
| FactCleaning.CleanSpec | lib/scenario/generator.ts:58-65 | The cleaned text holds no asterisk, no backquote and no two adjacent newlines. |
| FactCleaning.CleanPlain | lib/scenario/generator.ts:58-65 | A text with no asterisk, no backquote, no "#" or "-" at a line start and no blank line is only trimmed. |
| FactCleaning.SentencesCover | lib/scenario/generator.ts:69 | `match(/[^.!?]+[.!?]+/g) || []` (`SentencesFrom`, with `Sentences` from position 0) covers the text after its leading terminators, up to a tail without terminator. |
| FactCleaning.SentencesEndClosed | lib/scenario/generator.ts:69 | Every matched sentence is non-empty and ends with a terminator. |
| FactCleaning.Kept | lib/scenario/generator.ts:71-77 | The loop keeps at most all the sentences. |
| FactCleaning.KeptSpec | lib/scenario/generator.ts:71-77 | The kept sentences fit in maxLength, and one more would not. |
| FactCleaning.KeepSentences | lib/scenario/generator.ts:70-77 | The loop with `break` concatenates exactly the kept sentences. |
| FactCleaning.CleanAndTrim | lib/scenario/generator.ts:68-88 | A cleaned text of at most maxLength characters is returned unchanged. |
| FactCleaning.CleanAndTrimFact | lib/scenario/generator.ts:56-89 | The method computes `CleanAndTrim`. |
| FactCleaning.SentencePath | lib/scenario/generator.ts:69-86 | When the kept sentences reach half of maxLength, the result is their trimmed concatenation, at most maxLength long. |
| FactCleaning.KeptText | lib/scenario/generator.ts:69-77 | The concatenated kept sentences fit in maxLength when it is not negative. |
| FactCleaning.Shorten | lib/scenario/generator.ts:68-86 | The shortened fact has no white space at either end; when the kept sentences reach half of maxLength it is their trimmed text and fits in maxLength. |
| FactCleaning.FirstWords | lib/scenario/generator.ts:79-84 | The word fallback is the first floor(maxLength/10) words of `split(/\s+/)` (`SplitSpaceRuns`), as `slice` counts them and never more than maxLength/10 for a non-negative maxLength, joined by single spaces and possibly followed by "..."; when words were dropped the "..." is always there. |
| FactCleaning.DroppedWordsShorter | lib/scenario/generator.ts:80-83 | Joining fewer words than the text has gives a shorter text than the cleaned fact. |
| FactCleaning.JoinLength | lib/scenario/generator.ts:80 | Joining words with a one-character separator gives the total word length plus one per gap. |
| FactCleaning.SplitWhereLength | lib/scenario/generator.ts:80 | Splitting at separator characters loses exactly one character per gap. |
| FactCleaning.FallbackUnbounded | lib/scenario/generator.ts:79-86 | The word fallback is not bounded by maxLength: a single long word without terminator is returned whole. |
| TrainerScoring.PatternsMatchInsideWords | avatar-client-trainer/src/lib/providers/scoring.ts:11-26 | The PII patterns are unanchored, case-insensitive substrings: "Spinning" and "Barcode" both raise the PII flag. |
| TrainerScoring.MissingExpectedActions | avatar-client-trainer/src/lib/providers/scoring.ts:28-31 | An item is missing iff it is expected and the lower-cased answer does not contain it lower-cased; there are never more missing items than expected ones. |
| TrainerScoring.MissingKeepsListOrder | avatar-client-trainer/src/lib/providers/scoring.ts:28-31 | The filter keeps order and multiplicity: the missing items of a list split in two are those of the first part followed by those of the second, and a single item is missing iff the answer lacks it. |
| TrainerScoring.FirstMissing | avatar-client-trainer/src/lib/providers/scoring.ts:30 | The filter keeps order: the first missing item is the first expected item the answer lacks. |
| TrainerScoring.MissingStepsIff | avatar-client-trainer/src/lib/providers/scoring.ts:62-63 | Some item is missing iff some expected item is absent from the answer. |
| TrainerScoring.FlagsRaisedIff | avatar-client-trainer/src/lib/providers/scoring.ts:44-99 | Each of the four flags is raised iff its condition holds: PII pattern, promise pattern, missing steps, no evidence. |
| TrainerScoring.FlagCodes | avatar-client-trainer/src/lib/providers/scoring.ts:44-99 | The flags come in the order PII, promise, missing steps, insufficient evidence, each at most once. |
| TrainerScoring.FlagsShape | avatar-client-trainer/src/lib/providers/scoring.ts:44-99 | One flag per detected condition; the first flag is the earliest condition present in the order PII, promise, missing steps, insufficient evidence, and the missing-steps flag lists the missing items. |
| TrainerScoring.RaiseFlags | avatar-client-trainer/src/lib/providers/scoring.ts:40-71 | The first three flags are pushed in order, and the steps hint is pushed iff something is missing. |
| TrainerScoring.Correctness | avatar-client-trainer/src/lib/providers/scoring.ts:86-90 | Without evidence correctness is 30 or 40; with evidence it is 60, 70 or 80. |
| TrainerScoring.ScoreCorrectness | avatar-client-trainer/src/lib/providers/scoring.ts:86-90 | The statement sequence with its clamps computes `Correctness`. |
| TrainerScoring.Compliance | avatar-client-trainer/src/lib/providers/scoring.ts:101-105 | Compliance is within 0..100; it is 100 iff no PII, promise or missing-steps flag; 0 iff both PII and promise; at most 20 with PII. |
| TrainerScoring.ScoreCompliance | avatar-client-trainer/src/lib/providers/scoring.ts:101-105 | The statements compute `Compliance` of the flags present in the list. |
| TrainerScoring.EvidenceOf | avatar-client-trainer/src/lib/providers/scoring.ts:80-84 | Each hit becomes one evidence entry with its id, document title and snippet, in order. |
| TrainerScoring.EvidenceSearch | avatar-client-trainer/src/lib/providers/scoring.ts:74-78 | The search for "title answer" returns at most 3 chunks. |
| TrainerScoring.Expected | avatar-client-trainer/src/lib/providers/scoring.ts:86-128 | Every score of the evaluation lies in 0..100. |
| TrainerScoring.Judge | avatar-client-trainer/src/lib/providers/scoring.ts:40-128 | The imperative scoring computes `Expected` from the pattern tests, missing items, hits and soft-skill verdict. |
| TrainerScoring.ScoreAnswer | avatar-client-trainer/src/lib/providers/scoring.ts:33-131 | `scoreAnswer` is `Expected` of the answer's pattern matches, missing items and evidence search; all scores are in 0..100 and at most 3 evidence entries are returned. |
| TrainerScoring.ImprovementsOpenWithHint | avatar-client-trainer/src/lib/providers/scoring.ts:70-114 | When the model's own improvements do not start with the hint, the list starts with the steps hint iff some expected action is missing. |
| Types.RandomFrom | lib/utils.ts:8-10 | The pick is an element of the list; an empty list yields nothing (`undefined`). |
| BackButton.LastFifty | components/back-button.tsx:24 | `slice(-50)`: at most 50 entries, the whole stack when short enough, otherwise its last 50. |
| BackButton.NavStore.constructor | components/back-button.tsx:20-21 | The stack starts from the stored `navStack` entry and whether storage accepts writes. |
| BackButton.NavStore.UpdateStack | components/back-button.tsx:17-29 | Without a window or pathname, with an unparsable entry or a failing write nothing changes; otherwise the path is pushed unless it is already on top, and the last 50 entries are stored. |
| BackButton.NavStore.GoBack | components/back-button.tsx:32-50 | Without a window or when storage fails the target is "/" and the store is unchanged; otherwise the current screen is popped if on top, the previous one is popped and is the target ("/" if none), and the rest is stored. |
| BackButton.NavStore.Render | components/back-button.tsx:11-30 | The button is shown iff the path is not hidden; a hidden button records nothing; a shown one records the visit. |
| BackButton.Visit | components/back-button.tsx:22-24 | A path already on top leaves the stack as it is; otherwise the path is pushed and the stack keeps its last 50 entries, so its new length is the old one plus one, capped at 50, with the old stack's newest entries below the path. |
| BackButton.VisitKeepsOrder | components/back-button.tsx:22-24 | A visit keeps the old stack from position d on, in order, and appends the path unless it was already on top; d is 0 unless the push exceeds 50, and then exactly the overflow. |
| BackButton.VisitIdempotent | components/back-button.tsx:22 | Visiting the same screen twice is visiting it once. |
| BackButton.Back | components/back-button.tsx:43-45 | Going back leaves a prefix of the stack shorter by at most two; the previous screen is the entry just after that prefix; there is none iff the stack was empty or held only the current path. |
| BackButton.BackUndoesVisit | components/back-button.tsx:43-46 | Going back right after visiting a new screen drops it and returns to the previous top, or to nothing on an empty stack. |
| BackButton.BackFromUnrecordedScreen | components/back-button.tsx:43-44 | From a screen not on top, going back pops and returns the top entry. |
| WebSources.SchemeLength | app/admin/web-sources-panel.tsx:43 | Something is dropped iff the text starts with `http://` or `https://` in any case, and then exactly that prefix (7 or 8 characters); otherwise nothing. |
| WebSources.CutAtFirstSlash | app/admin/web-sources-panel.tsx:43 | On a single line, `/\/.*$/` first matches at the first slash. |
| WebSources.CleanDomain | app/admin/web-sources-panel.tsx:43 | The cleaned domain is a prefix of the trimmed text with its scheme removed. |
| WebSources.CleanDomainSpec | app/admin/web-sources-panel.tsx:43 | The cleaned domain is the trimmed text without its scheme, cut before its first slash: a prefix with no slash, followed by a slash or the end. |
| WebSources.SchemeDropped | app/admin/web-sources-panel.tsx:43 | "HTTPS://" followed by a bare host cleans to the host. |
| WebSources.LastDot | app/admin/web-sources-panel.tsx:48 | The index found is a dot with no dot after it; with none found the text has no dot. |
| WebSources.IsDomain | app/admin/web-sources-panel.tsx:48-51 | An accepted domain has at least four characters, contains a dot, starts with a host character and ends with a letter. |
| WebSources.IsDomainMatchesPattern | app/admin/web-sources-panel.tsx:48-51 | Splitting at the last dot accepts exactly the texts `/^[a-z0-9.-]+\.[a-z]{2,}$/i` matches. |
| WebSources.SetEnabled | app/admin/web-sources-panel.tsx:69 | Exactly the entries with the id get the new switch value; the others and the order are unchanged. |
| WebSources.SetEnabledTwice | app/admin/web-sources-panel.tsx:69-79 | Setting the switch twice is setting it to the last value. |
| WebSources.RollbackRestores | app/admin/web-sources-panel.tsx:79 | A refused toggle of entries that all held the opposite value restores the list. |
| WebSources.RollbackOfNoChange | app/admin/web-sources-panel.tsx:69-79 | A refused toggle to the value the entry already had ends with it flipped: the rollback writes `!enabled`, not the previous value. |
| WebSources.Panel.constructor | app/admin/web-sources-panel.tsx:22-27 | The panel starts with no sources, web search on, an empty form with priority 1 and no error. |
| WebSources.Panel.AddSource | app/admin/web-sources-panel.tsx:41-66 | A blank cleaned domain or one failing the pattern sets its message and sends nothing; otherwise the form goes out with the cleaned domain, is reset on success, and on failure the server's error or the default message is shown. |
| WebSources.Panel.ToggleSource | app/admin/web-sources-panel.tsx:68-82 | Accepted: the entries with the id take the new value. Refused: they take the opposite value and the toggle error is shown. |
| WebSources.Panel.ToggleWeb | app/admin/web-sources-panel.tsx:89-104 | The web switch changes only when the server accepts; otherwise the toggle error is shown; the saving flag ends off. |

## Left out

- Lower-casing covers ASCII and the Cyrillic capitals U+0400–U+042F only; other characters are left unchanged, with no full Unicode case mapping.
- String lengths are counted in Unicode scalar values, not in UTF-16 code units as JavaScript counts them; the two differ only outside the Basic Multilingual Plane.
- `Number()` is modelled for optionally signed decimal integers and blank text: surrounding white space is trimmed first, as in JavaScript, blank text gives 0, and fractions, exponents and hexadecimal become NaN.
- Floating-point arithmetic is modelled with `real` (exact), and `Math.round` on it; rounding error of IEEE doubles is not modelled.
- The weight `1 + Math.log(occ + 1)` of the root retriever is an abstract parameter, required to be at least 1 for every positive occurrence count; logarithms are not modelled.
- The language-model calls (plan generation, paraphrase, soft-skill verdict) are parameters or optional inputs: their prompts, timeouts and JSON parsing are not modelled.
- Prisma queries (chunk lists, question and scenario tables, session lists with their ordering), the HTTP requests of the panels, the Tavily client and the archetype file cache are replaced by their results, passed in as parameters.
- `randomFrom` and `crypto.randomUUID` are replaced by caller-supplied picks; the random number generator is not modelled.
- The scenario factory's `Factory` of generated scenarios and the intent miner's similarity test are passed into the pool builder and the miner as function parameters, tied to the concrete definitions by lemmas.
- Seeds in the trainer's scenario generator are natural numbers: the pool builder only produces seeds from 0 upward, and negative seeds (where JavaScript's `%` is negative and the table lookups give `undefined`) are not modelled.
- Session storage: a failing `setItem` is the `writable` flag of the store. JSON that is not an array is modelled (`NotArray`, read as the empty stack, as `Array.isArray` decides); an array holding values other than strings is not represented, because the model's stack holds strings only, whereas the source casts it to `string[]` and keeps those values.
- Report export: `createdAt` is a string already formatted by the caller; the per-session query and its ordering are not modelled.
- Web-sources panel: `load` and `deleteSource` only refetch the list from the server and are not modelled; the `loading` flag is only stated to end off or unchanged, since the request itself is a parameter.
- The schema creation, reset and the `ensureDbReady` promise memo of `avatar-client-trainer/src/lib/db/ensure.ts` are database set-up and concurrency, not modelled.
- The trainee session handler, rendering and UI components, audio and lip-sync numerics and the server video pipeline are outside this model.
- LexicalRetrieval.ChunkText: requires `0 < chunkSize` and `overlap < chunkSize`; with `overlap >= chunkSize` the source's loop never ends (the lemma beside it shows the start does not advance), and a non-positive chunk size is not modelled.
- Intents, scenarios and chunks are values: the in-place updates of a matched intent's `exampleQuestions` and `frequencyScore` and the in-place sort are modelled as functions returning the new list.
- RetrieveChunks: its own contract gives the exact number of results; that they are the top-scored chunks is stated beside it by RetrieveChunksSpec and RetrieveChunksTop, which keeps the function's contract small for its callers.
- Search: its own contract gives the number of results and the empty-query case; the top-k selection is stated by SearchSpec.
- RankChunks: its own contract gives the number of results; the top-k selection is stated by RankChunksSpec and RankChunksTop.
- ClientTexts: its own contract only bounds the number of texts; that each is the text of a client step and every client step's text is among them is stated by ClientTextsSpec; their order is not stated.
- FiredMessages: its own contract gives membership and the bound; the table order and the converse (every firing entry's message is collected) are stated by FiredInTableOrder and WarningsInOrder.
- MissingExpectedActions: its own contract gives membership both ways and the bound; order and multiplicity are stated by MissingKeepsListOrder and FirstMissing.
- Generate: its own contract bounds the evidence pack and fixes persona, channel and context to their lists; the steps, with JavaScript's `$` patterns in the title expanded, are stated by GenerateSpec.
- Keywords: its own contract gives the topics and that every later keyword is a long title word; that every long title word is present is stated by KeywordsHoldLongTitleWords.
- Without: its own contract says the character is gone and the text is not longer; that the rest is kept in order is stated by WithoutKeepsOrder.
- StripLeads: its own contract bounds the length; that every other character keeps its count is stated by StripLeadsKeepsText, that they keep their order by StripLeadsKeepsOrder (both with white space set aside), and that a text without markers is unchanged by StripLeadsNone.
- WithoutPairs: its own contract bounds the length; that every other character keeps its count is stated by WithoutPairsKeepsText, that they keep their order by BoldThenItalic with WithoutKeepsOrder, and that a text without asterisks is unchanged by WithoutPairsAbsent.
- CollapseBlankLines: its own contract bounds the length and the first character; that every other character keeps its count is stated by CollapseKeepsText, that they keep their order by CollapseKeepsOrder (both with line feeds and spaces set aside), and that a text without blank lines is unchanged by CollapseWithoutBlankLine.
