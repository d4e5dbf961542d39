# Idea insight engine — a verified model

This project models the computational core of a startup-idea analysis tool.
A founder submits five free-text fields: problem, solution, audience,
alternatives and technology. The tool does four things with them:

- It scores the idea on six metrics in 0..100, using keyword and length
  heuristics. Optionally a text-generation service does the scoring, and the
  tool clamps what that service returns.
- It drafts a ten-field lean canvas.
- It compares two revisions of an idea by per-metric deltas and explains
  those deltas in templated English.
- In the browser, it escapes and formats values and derives a short mentor
  readout from the scores.

The model is written in Dafny and has five modules:

- `Js` (`js.dfy`): JavaScript values and the built-ins the core relies on.
  - JSON values are a datatype. An object is its entries in `Object.entries` order.
  - It covers truthiness, `||` defaults, `split('.')[0]`, `replace` of one character and `trim`'s whitespace set.
  - It includes UTF-16 length, `Math.round` of a ratio (computed exactly, halves rounded up) and decimal rendering of integers.
- `Metrics` (`metrics.dfy`): the six canonical metric keys, their labels, and the `typeof x === 'number' ? x : 0` lookup.
- `InsightEngine` (`insight_engine.dfy`): the tokenizer, the presence and length scores, `normalize`, `generateScores` and `draftLeanCanvas`. It also covers what the generation-backed variants do once the service has answered.
- `VersionUtils` (`version_utils.dfy`): `computeDeltas` and `explainDeltas`.
- `AppView` (`app_view.dfy`): `escapeHtml`, `nl2br` and `formatInsightValue`, plus the mentor readout of `updateMentorFromInsights` and the rows of the comparison table.

These loops are `method`s proved against specification functions:

- `scorePresence`'s counting loop;
- `computeDeltas`'s `forEach`;
- `explainDeltas`' line loop;
- the compare-table loop.

Two more steps are `method`s too:

- the summary of `updateMentorFromInsights`, built by two conditional appends;
- the head of `explainDeltas`' sort, found by a scan equal to the first entry of a stable sort.

The DOM text the mentor dashboard writes is a class whose fields the update method assigns.

## Model

| member | source | states |
|---|---|---|
| Js.OrElse | lib/insightEngine.js:12 | `s \|\| fallback` on an optional string. The fallback is taken exactly when the value is absent or empty, or equals the fallback. |
| Js.BeforeFirst | lib/insightEngine.js:71 | `split('.')[0]` is the longest prefix without the separator. The next character, if any, is the separator. A text without the separator is returned whole. |
| Js.RoundRatio | lib/insightEngine.js:18 | `Math.round(num/den)` lies within half of the exact ratio. |
| Js.RoundRatioUnique | lib/insightEngine.js:8 | Only one integer lies within half of the ratio, so the rounding is determined. |
| Js.RoundRatioScaledBounds | lib/insightEngine.js:8 | `Math.round(p/q*k)` stays in [0, k] when 0 <= p <= q. |
| Js.Utf16Length | lib/insightEngine.js:12 | A length counts UTF-16 code units. One character counts 2 exactly when it lies outside the Basic Multilingual Plane, and 1 otherwise. The length lies between \|s\| and 2\|s\|. |
| Js.Utf16LengthAppend | lib/insightEngine.js:12 | The length of a concatenation is the sum of the lengths. With the one-character case, every text's length is determined. |
| Js.ReplaceChar | lib/insightEngine.js:62 | A global one-character replace removes that character when the replacement lacks it. It adds no character that is not in the text or the replacement. |
| Js.Join | lib/versionUtils.js:61 | `parts.join(sep)`: an empty list gives `""` and one part gives that part. `JoinAvoids` states that a joined text holds no character absent from the parts and the separator. |
| Js.NatToStringRoundTrip | lib/versionUtils.js:45 | The decimal rendering used in templates reads back as the same number. |
| Js.IntToString | lib/versionUtils.js:45 | `${n}`: the text starts with `-` exactly when n is negative, and the rest is the decimal form of \|n\|. |
| Metrics.KeysDistinct | lib/versionUtils.js:4-11 | There are six distinct canonical keys, and each has a label. |
| Metrics.LabelsDistinct | lib/versionUtils.js:31-38 | The six labels are pairwise different. |
| Metrics.LabelOr | lib/versionUtils.js:56 | `labels[k] \|\| k`. |
| Metrics.MetricValue | lib/versionUtils.js:14-15 | A metric is the snapshot's number under the key, and 0 when the key is missing or not a number. |
| InsightEngine.LowerChar | lib/insightEngine.js:1 | An ASCII capital becomes the small letter at the same position of the alphabet. Characters other than the two special capitals are kept. No ASCII capital remains. |
| InsightEngine.LowerAppend | lib/insightEngine.js:1 | Lower-casing works character by character: it distributes over concatenation. |
| InsightEngine.LowerOfWord | lib/insightEngine.js:1 | A run of word characters keeps its length, each character lower-cased, and stays a run of word characters. |
| InsightEngine.SplitWordsSound | lib/insightEngine.js:1 | Splitting on non-word runs and dropping empties gives non-empty word-character tokens. Their concatenation is exactly the word characters of the text. |
| InsightEngine.SplitWordsAtSeparator | lib/insightEngine.js:1 | A non-word character ends a token: the pieces of `a + [c] + b` are those of `a` followed by those of `b`. |
| InsightEngine.SplitWordsOfWord | lib/insightEngine.js:1 | A non-empty run of word characters is one piece, whole. |
| InsightEngine.Tokenize | lib/insightEngine.js:1 | Every token is a non-empty run of lower-case word characters. Together the tokens hold all the word characters of the lower-cased text, in order. `TokenizeAtSeparator` and `WordIsOneToken` state that the tokens are whole runs. |
| InsightEngine.SingleWordIsOneToken | lib/insightEngine.js:1 | A text that is one lower-case word tokenizes to exactly that word. |
| InsightEngine.WordIsOneToken | lib/insightEngine.js:1 | A text that is one word, in any case, tokenizes to exactly that word lower-cased. |
| InsightEngine.TokenizeAtSeparator | lib/insightEngine.js:1 | A character that stays outside `\w` after lower-casing splits the text. The tokens are those of each side, so no token reaches across it. |
| InsightEngine.CapitalisedWordMatches | lib/insightEngine.js:1 | The text `Problem` tokenizes to `problem`, so it hits that keyword. |
| InsightEngine.Hits | lib/insightEngine.js:6-7 | The hit count never exceeds the number of keywords. |
| InsightEngine.HitsCountsMatches | lib/insightEngine.js:7 | The hit count is the number of keyword positions whose keyword is a whole token. |
| InsightEngine.PresenceScore | lib/insightEngine.js:3-9 | The presence score is in [0, 100]. It is 0 with no hit and 100 when every keyword hits. |
| InsightEngine.PresenceIsRoundedMatchRatio | lib/insightEngine.js:8 | The presence score equals round(matches / max(1, n) × 100), and the cap at 100 never applies. |
| InsightEngine.OnlyWholeTokensMatch | lib/insightEngine.js:5-7 | A keyword that differs from the single word of the text never hits. |
| InsightEngine.StemDoesNotMatch | lib/insightEngine.js:31 | The stem `alternativ` gets no hit from the text `alternatives`. |
| InsightEngine.ScorePresence | lib/insightEngine.js:3-9 | The counting loop over a token set computes the presence score, and the result is in [0, 100]. |
| InsightEngine.LengthScore | lib/insightEngine.js:11-15 | The length score equals max(0, 100 − \|ideal − len\|) and lies in [0, 100]. It is 100 exactly when len = ideal. |
| InsightEngine.Normalize | lib/insightEngine.js:17-19 | `normalize` lands in [0, 100]. It equals the rounded value when that is in range, and is the identity on in-range integers. |
| InsightEngine.NormalizeIdempotent | lib/insightEngine.js:17-19 | Normalizing twice gives the same result as normalizing once. |
| InsightEngine.ScoresObject | lib/insightEngine.js:49-56 | The returned object holds each metric under its canonical key. |
| InsightEngine.SubScore | lib/insightEngine.js:25-28 | A sub-score is the larger of the presence and length scores, and it is in [0, 100]. |
| InsightEngine.RiskIsRounded | lib/insightEngine.js:47 | For a sum in [0, 300], the risk is the integer nearest to (300 − sum)/3. |
| InsightEngine.GenerateScores | lib/insightEngine.js:23-57 | Every metric is in [0, 100]. Competition density is 100 − market maturity. Risk is the integer nearest to 100 − (problem + feasibility + differentiation)/3. |
| InsightEngine.GenerateScoresFields | lib/insightEngine.js:25-45 | Each independent metric is the sub-score of its own field, with that field's keywords and ideal length. |
| InsightEngine.SuggestedSolutionText | lib/insightEngine.js:61-63 | The template embeds the problem with newlines turned into spaces, and the audience or `target customers`. It ends with a period. |
| InsightEngine.DraftLeanCanvas | lib/insightEngine.js:59-79 | With no non-blank solution, the suggestion is the template and also the solution. Otherwise there is no suggestion and the solution is kept verbatim. The value proposition is the solution's prefix before its first `.`. Problem and segments fall back to `—`. The advantage is `Compared to: …` or `—`, and the other fields are fixed boilerplate. |
| InsightEngine.NoSolution | lib/insightEngine.js:61 | `!solution \|\| solution.trim() === ''`. `DraftLeanCanvas` states what each outcome drafts. |
| InsightEngine.FreelancerScenario | lib/insightEngine.js:59-79 | With an empty solution, a suggestion is drafted and mirrored as the solution. |
| InsightEngine.Aliases | lib/insightEngine.js:95-100 | The primary key is tried first. |
| InsightEngine.FirstTruthy | lib/insightEngine.js:95-100 | The `\|\|` chain yields a truthy value, or 0. |
| InsightEngine.ReplyMetric | lib/insightEngine.js:95-100 | A metric taken from a reply is in [0, 100]. |
| InsightEngine.ScoresFromReply | lib/insightEngine.js:94-101 | Every metric from a reply is the clamped value of its own spelling chain, in [0, 100]. |
| InsightEngine.PrimaryValueClamped | lib/insightEngine.js:95 | A truthy primary value is clamped into [0, 100]. |
| InsightEngine.FalsyPrimaryFallsToAlias | lib/insightEngine.js:95-100 | A missing or falsy primary value, 0 included, gives way to the alias. |
| InsightEngine.NoTruthySpellingIsZero | lib/insightEngine.js:95-100 | With no truthy spelling, the metric is 0. |
| InsightEngine.NoTruthyGivesZero | lib/insightEngine.js:95-100 | An `\|\|` chain with no truthy operand ends in its `0`. |
| InsightEngine.ClampingExample | lib/insightEngine.js:94-101 | The reply {150, −10, 50, 75, 0, 101} becomes {100, 0, 50, 75, 0, 100}. |
| InsightEngine.GenerateScoresLlm | lib/insightEngine.js:82-110 | The heuristic scores are returned when the provider is not `ollama` or the reply is empty. A parsed reply is returned clamped. A failure returns the heuristic scores plus the warning `LLM scoring failed: <message>`. |
| InsightEngine.UsesOllama | lib/insightEngine.js:83 | The provider switch: the generation service is used only when `LLM_PROVIDER` is set and lower-cases to `ollama`. `GenerateScoresLlm` and `DraftLeanCanvasLlm` state both outcomes. |
| InsightEngine.DraftLeanCanvasLlm | lib/insightEngine.js:112-132 | The heuristic canvas is returned when the provider is not `ollama` or the reply is empty. A parsed reply is returned as is. A failure returns the heuristic canvas plus `LLM lean canvas failed: <message>`. |
| VersionUtils.LookupMissing | lib/versionUtils.js:41 | `deltas[k]` is undefined exactly when no entry has that name. |
| VersionUtils.Lookup | lib/versionUtils.js:41 | `deltas[k]`. `LookupMissing`, `LookupFound` and `LookupFirst` state when it is undefined and which entry it reads. |
| VersionUtils.Put | lib/versionUtils.js:16 | `deltas[k] = e`. `PutThenLookup` and `PutNewKey` state the read-back and the position of a new key. |
| VersionUtils.LookupFound | lib/versionUtils.js:41 | A defined `deltas[k]` is the value of an entry named k. |
| VersionUtils.PutThenLookup | lib/versionUtils.js:16 | After `deltas[k] = e`, `deltas[k]` is `e`. |
| VersionUtils.PutNewKey | lib/versionUtils.js:16 | Assigning a key that is not yet present appends its entry at the end. |
| VersionUtils.EntryFor | lib/versionUtils.js:14-16 | `from` and `to` are the snapshot values (0 when not numbers), and delta = to − from. |
| VersionUtils.DeltasFor | lib/versionUtils.js:12-17 | The object the `forEach` builds over a list of keys. `DeltasForShape` and `ComputedDeltas` state its keys, order and entries. |
| VersionUtils.DeltasForShape | lib/versionUtils.js:12-17 | The object has one entry per key, in key order. |
| VersionUtils.KeyNotYetPresent | lib/versionUtils.js:13-16 | Each assignment in the `forEach` adds a new key. |
| VersionUtils.ComputeDeltas | lib/versionUtils.js:3-19 | The loop over the canonical keys builds exactly the deltas that `DeltasFor` defines. |
| VersionUtils.ComputedDeltas | lib/versionUtils.js:3-19 | The result has exactly the six canonical keys, in canonical order. Each entry holds the two snapshot values (0 when a value is not a number) and their difference. |
| VersionUtils.DeltasForStep | lib/versionUtils.js:13-17 | Each round of the loop appends the next key's entry. |
| VersionUtils.DeltasAntisymmetric | lib/versionUtils.js:14-16 | Swapping the snapshots swaps from and to and negates every delta. |
| VersionUtils.ScoreDeltasBounded | lib/versionUtils.js:16 | Between two generated score sets, each delta is in [−100, 100]. |
| VersionUtils.ComputeDeltasExample | lib/versionUtils.js:3-19 | 50→75 gives delta 25, 50→25 gives −25, and missing metrics give 0→0. |
| VersionUtils.ChangeLinesEmptyIff | lib/versionUtils.js:40-49 | No line is pushed exactly when every key is missing or unchanged. |
| VersionUtils.ChangeLines | lib/versionUtils.js:40-49 | The pushed lines, in key order. `ChangeLinesEmptyIff`, `ChangedKeyHasLine` and `LineHasChangedKey` state which keys get a line. |
| VersionUtils.Sentence | lib/versionUtils.js:44-48 | The improved/decreased sentence with the absolute delta and both values. It is the line of each changed key (`ChangedKeyHasLine`). |
| VersionUtils.ChangeLinesStep | lib/versionUtils.js:40-49 | Each key appends its sentence after those of the earlier keys, so the lines follow canonical order. |
| VersionUtils.ChangedKeyHasLine | lib/versionUtils.js:40-49 | Every changed key gets its sentence. |
| VersionUtils.LineHasChangedKey | lib/versionUtils.js:40-49 | Every line is the sentence of a changed key. |
| VersionUtils.TopIndex | lib/versionUtils.js:54-55 | The head of the stable sort by descending \|delta\| has the largest \|delta\|, and every earlier entry has a strictly smaller one. |
| VersionUtils.ExplainDeltas | lib/versionUtils.js:21-62 | The line loop and the top-entry scan compute the templated explanation. |
| VersionUtils.TopEntry | lib/versionUtils.js:54-55 | The scan finds the entry that a stable sort by descending absolute delta puts first: the earliest entry with the largest absolute delta. |
| VersionUtils.AdviceEnding | lib/versionUtils.js:57-59 | Both advice sentences end unlike the no-change sentence. |
| VersionUtils.Advice | lib/versionUtils.js:56-59 | The praise sentence for a positive top delta, and the warning otherwise. `AdviceEnding` states that neither can be mistaken for the no-change sentence. |
| VersionUtils.ExplanationShape | lib/versionUtils.js:51-61 | With no line, the result is the fixed sentence. Otherwise it is the lines joined by spaces, a space, and the advice about the top entry. |
| VersionUtils.Explanation | lib/versionUtils.js:21-62 | The text `explainDeltas` returns. `ExplanationShape`, `NoChangeExactly` and `TopChangeIsNonZero` state its two shapes and when each occurs. |
| VersionUtils.NoChangeExactly | lib/versionUtils.js:42-51 | The result is `No measurable changes between revisions.` exactly when every canonical entry is missing or has delta 0. |
| VersionUtils.TopChangeIsNonZero | lib/versionUtils.js:54-59 | When something changed, the advised entry changed too. So the advice is `Good progress` for a gain and `Attention` for a drop. |
| VersionUtils.SelfComparisonIsNoChange | lib/versionUtils.js:3-62 | Comparing a snapshot with itself explains that nothing changed. |
| VersionUtils.LookupFirst | lib/versionUtils.js:41 | With distinct names, `deltas[k]` finds the entry named k. |
| AppView.EscapeHtml | public/app.js:211-213 | null, undefined and other falsy values give `""`. The output holds no `<`, `>` or `"`. |
| AppView.EscapeText | public/app.js:212 | The four chained replaces. `EscapeTextSafe`, `EscapeIsSinglePass` and `UnescapeEscape` state that the output is safe, escapes each character once, and is lossless. |
| AppView.JsString | public/app.js:212 | `String(v)` for a JSON value. A string is kept, and a number is rendered by `IntToString`. `Nl2brRoundTrip` reads it back through the escapes. |
| AppView.EscapeTextSafe | public/app.js:212 | Escaped text holds no `<`, `>` or `"`. |
| AppView.EscapeOneChar | public/app.js:212 | The chain turns each special character into its entity and leaves others alone. |
| AppView.EscapeTextAppend | public/app.js:212 | Escaping distributes over concatenation. |
| AppView.EscapeIsSinglePass | public/app.js:212 | Because `&` goes first, the chain equals escaping each character once, so no entity is escaped again. |
| AppView.UnescapeEntity | public/app.js:212 | Each entity decodes back to its character. |
| AppView.UnescapeChars | public/app.js:212 | Decoding a per-character escape gives the text back. |
| AppView.UnescapeEscape | public/app.js:212 | Escaping is lossless: decoding the entities gives back the text that was escaped. |
| AppView.Nl2br | public/app.js:215-217 | The output holds no newline. |
| AppView.UnbreakBreaks | public/app.js:216 | In a text without `<`, the inserted `<br>`s can be turned back into the newlines. |
| AppView.Nl2brRoundTrip | public/app.js:215-217 | `nl2br` is the escaped text with newlines turned into `<br>`. Undoing both gives back `String(v \|\| '')`. |
| AppView.FormatHasNoQuote | public/app.js:219-230 | A formatted value never holds `"`, since every piece of text is escaped. |
| AppView.FormatInsightValue | public/app.js:219-230 | `formatInsightValue`. `FormatHasNoQuote` states that every piece is escaped. `FormatShowsFalsyScalars` states the dash for null and `{}`, the empty text for `[]`, and that 0 and false are shown. |
| AppView.FormatShowsFalsyScalars | public/app.js:219-230 | null and `{}` show `—`, and `[]` shows nothing. 0 and false are shown, unlike in `escapeHtml`. |
| AppView.MentorValues | public/app.js:60 | The six values are the snapshot's numbers, with non-numbers as 0. |
| AppView.SumBounds | public/app.js:61 | A sum of n scores lies in [0, 100n]. |
| AppView.Average | public/app.js:61 | avg is the integer nearest to sum/6. |
| AppView.AverageInRange | public/app.js:61-62 | avg is in [0, 100], so the awareness delta is in [−50, 50]. |
| AppView.AwarenessText | public/app.js:62-63 | The text starts with `+` exactly when avg >= 50, and with `-` exactly when avg < 50. |
| AppView.LabelsInExactly | public/app.js:66 | A metric is listed exactly when its value is in the band: below 40 for blind spots, 65 or above for strengths. |
| AppView.LabelsInSound | public/app.js:70-71 | Every listed label belongs to a metric in the band. |
| AppView.LabelsInEmpty | public/app.js:66-71 | A list is empty exactly when no metric is in its band. |
| AppView.BlindSpotsAndStrengthsDisjoint | public/app.js:66-71 | No metric is both a blind spot and a strength. |
| AppView.BalancedExactly | public/app.js:72-75 | The summary is the balanced sentence exactly when every metric lies in [40, 65). |
| AppView.Summary | public/app.js:69-75 | The weekly summary. `BalancedExactly` states when it is the balanced sentence, and `BuildSummary` builds it. |
| AppView.BlindSpotsText | public/app.js:66-67 | The blind-spot list or `None detected`. `LabelsInExactly` and `LabelsInEmpty` state which labels it lists. |
| AppView.BuildSummary | public/app.js:72-75 | Appending the non-empty sections, then defaulting, gives the summary. |
| AppView.MentorReadout | public/app.js:43-75 | The three texts the panel shows: a dash each for a falsy snapshot, otherwise awareness, blind spots and summary. `MentorPanel.Update` sets the fields to it. |
| AppView.MentorPanel.Update | public/app.js:43-77 | A falsy snapshot sets all three texts to `—`. Otherwise they are set to the awareness text, the blind-spot list or `None detected`, and the summary. |
| AppView.EntryOrZero | public/app.js:178 | A missing entry reads as {0, 0, 0}. |
| AppView.RowFor | public/app.js:178-182 | ▲ and green exactly for delta > 0, ▼ and red exactly for delta < 0, and no arrow in grey for 0. The delta cell is the arrow, a space and the delta. |
| AppView.CompareRows | public/app.js:177-183 | One row per canonical metric, in canonical order. |
| AppView.MissingMetricRow | public/app.js:178 | A missing metric shows from 0, to 0 and no arrow. |
| AppView.ArrowFollowsSnapshots | public/app.js:177-183 | On computed deltas, the arrow points up exactly when the later value is higher and down exactly when it is lower. |

## Left out

- The HTTP layer is not part of this model. That covers routes/ideas.js, persistence and mode switching, lib/ollamaClient.js, public/charts.js, scripts/, server.js, config/db.js, routes/admin.js and models/Idea.js.
- Several inputs of the generation-backed variants become parameters:
  - the `LLM_PROVIDER` environment variable becomes the `provider` argument;
  - the `queryOllama` call, together with `JSON.parse`, becomes the `reply` argument (no text, a parsed value, or a failure message).
  
  The prompt text and the `console.error` logging are left out.
- Numbers are integers. The model has no fractional values, NaN or Infinity. Every `Math.round` of a ratio is computed exactly rather than in floating point.
- GenerateScoresLlm: a parsed score reply is a map from names to null, boolean or integer values. Two cases are not represented:
  - string, array and object values, which JavaScript would coerce to a number or NaN;
  - a reply that parses to `null`, where property access throws and `generateScoresLLM` falls back with a warning.
- `toLowerCase` is modelled only as far as it can create or change word characters: ASCII capitals, KELVIN SIGN and LATIN CAPITAL LETTER I WITH DOT ABOVE. Other characters are left unchanged. `\W` is the ASCII word-character set. `trim` uses the ECMAScript whitespace and line-terminator set.
- `null` and `undefined` are one value, because every modelled function treats them alike.
- VersionUtils.ExplainDeltas: entries are `{from, to, delta}` records with integer fields. A payload entry that is falsy, or whose delta is not a number, is not represented.
- AppView.CompareRows: the same assumption holds for `payload.deltas`. The HTML markup around the rows is left out; the model keeps only each row's cell texts and colour.
- runCompare after the table (public/app.js:188-202) is left out: the average change magnitude, the blind spots of the latest snapshot, and copying the explanation into the summary.
- DOM effects are left out:
  - the null checks on missing elements;
  - `innerHTML`/`textContent` writes other than the mentor panel's three texts;
  - `fetch`, `alert` and event wiring.
- Two tests disagree with the code, and the model follows the code:
  - tests/insightEngine.test.js:48-52 expects a malformed reply to raise an error. lib/insightEngine.js:102-109 catches it and falls back with a warning, which `GenerateScoresLlm` models.
  - tests/versionUtils.test.js:32-52 expects an asynchronous, service-backed `explainDeltas` that fails without a configured provider. lib/versionUtils.js:21-62 is synchronous and templated, and for an empty object it returns the no-change sentence (`NoChangeExactly`).
