/** The heuristic scoring engine and lean-canvas drafter, and what the
    generation-backed variants do with a reply once it has been parsed. */
module InsightEngine {
  import opened Js
  import opened Metrics

  // ---------------------------------------------------------------------
  // Tokenizer: (text || '').toLowerCase().split(/\W+/).filter(Boolean)

  /** A character of the regular-expression class \w (ASCII letters, digits, '_'). */
  predicate IsWordChar(c: char) {
    ('a' <= c <= 'z') || ('A' <= c <= 'Z') || ('0' <= c <= '9') || c == '_'
  }

  predicate IsUpper(c: char) { 'A' <= c <= 'Z' }

  /** toLowerCase of one character as far as \w can see it: ASCII capitals,
      KELVIN SIGN (which lowercases to 'k') and LATIN CAPITAL LETTER I WITH
      DOT ABOVE (which lowercases to 'i' and a combining dot). Every other
      character is kept; its lowercase form is outside \w either way. */
  function LowerChar(c: char): (r: string)
    ensures forall x :: x in r && IsWordChar(x) ==> !IsUpper(x)
    ensures IsUpper(c) ==> |r| == 1 && 'a' <= r[0] <= 'z' && r[0] as int - 'a' as int == c as int - 'A' as int
    ensures !IsUpper(c) && c != '\U{212A}' && c != '\U{0130}' ==> r == [c]
  {
    if IsUpper(c) then [(c as int + 32) as char]
    else if c == '\U{212A}' then "k"
    else if c == '\U{0130}' then "i\U{0307}"
    else [c]
  }

  function Lower(s: string): (r: string)
    ensures forall x :: x in r && IsWordChar(x) ==> !IsUpper(x)
  {
    if s == [] then "" else LowerChar(s[0]) + Lower(s[1..])
  }

  lemma {:induction false} LowerAppend(a: string, b: string)
    ensures Lower(a + b) == Lower(a) + Lower(b)
  {
    if a == [] {
      assert a + b == b;
    } else {
      assert (a + b)[0] == a[0] && (a + b)[1..] == a[1..] + b;
      LowerAppend(a[1..], b);
    }
  }

  /** Lower-casing a run of word characters turns each capital into its
      small letter and keeps every other character, so the run stays a run. */
  lemma {:induction false} LowerOfWord(w: string)
    requires forall i :: 0 <= i < |w| ==> IsWordChar(w[i])
    ensures |Lower(w)| == |w|
    ensures forall i :: 0 <= i < |w| ==> Lower(w)[i] == LowerChar(w[i])[0] && IsWordChar(Lower(w)[i])
  {
    if w != [] {
      LowerOfWord(w[1..]);
      var head := LowerChar(w[0]);
      assert |head| == 1;
      assert Lower(w) == head + Lower(w[1..]);
      forall i | 0 <= i < |w|
        ensures Lower(w)[i] == LowerChar(w[i])[0] && IsWordChar(Lower(w)[i])
      {
        if i > 0 {
          assert w[1..][i - 1] == w[i];
        }
      }
    }
  }

  /** Length of the run of word characters at the start of `s`. */
  function WordRun(s: string): (n: nat)
    ensures n <= |s|
    ensures forall i :: 0 <= i < n ==> IsWordChar(s[i])
    ensures n < |s| ==> !IsWordChar(s[n])
  {
    if s == [] || !IsWordChar(s[0]) then 0 else 1 + WordRun(s[1..])
  }

  /** The maximal runs of word characters of `s`, in order. */
  function SplitWords(s: string): seq<string>
    decreases |s|
  {
    if s == [] then []
    else if !IsWordChar(s[0]) then SplitWords(s[1..])
    else
      var n := WordRun(s);
      [s[..n]] + SplitWords(s[n..])
  }

  /** A run stops at the first non-word character. */
  lemma {:induction false} WordRunAtSeparator(a: string, c: char, b: string)
    requires !IsWordChar(c)
    ensures WordRun(a + [c] + b) == WordRun(a)
  {
    if a == [] {
      assert a + [c] + b == [c] + b;
    } else {
      assert (a + [c] + b)[0] == a[0] && (a + [c] + b)[1..] == a[1..] + [c] + b;
      WordRunAtSeparator(a[1..], c, b);
    }
  }

  /** A non-word character ends a token: splitting around it is splitting each
      side on its own, so no token reaches across it. */
  lemma {:induction false} SplitWordsAtSeparator(a: string, c: char, b: string)
    requires !IsWordChar(c)
    ensures SplitWords(a + [c] + b) == SplitWords(a) + SplitWords(b)
    decreases |a|
  {
    var s := a + [c] + b;
    if a == [] {
      assert s == [c] + b && s[1..] == b;
    } else if !IsWordChar(a[0]) {
      assert s[0] == a[0] && s[1..] == a[1..] + [c] + b;
      SplitWordsAtSeparator(a[1..], c, b);
    } else {
      assert s[0] == a[0];
      WordRunAtSeparator(a, c, b);
      var m := WordRun(a);
      assert s[..m] == a[..m];
      assert s[m..] == a[m..] + [c] + b;
      SplitWordsAtSeparator(a[m..], c, b);
    }
  }

  /** A non-empty run of word characters is one token, whole. */
  lemma SplitWordsOfWord(w: string)
    requires w != [] && forall i :: 0 <= i < |w| ==> IsWordChar(w[i])
    ensures SplitWords(w) == [w]
  {
    WordRunOfWord(w);
    assert w[..|w|] == w && w[|w|..] == [];
  }

  /** The word characters of `s`, in order. */
  function WordChars(s: string): string {
    if s == [] then "" else (if IsWordChar(s[0]) then [s[0]] else "") + WordChars(s[1..])
  }

  function Concat(parts: seq<string>): string {
    if parts == [] then "" else parts[0] + Concat(parts[1..])
  }

  lemma {:induction false} WordCharsAppend(a: string, b: string)
    ensures WordChars(a + b) == WordChars(a) + WordChars(b)
  {
    if a == [] {
      assert a + b == b;
    } else {
      var head := if IsWordChar(a[0]) then [a[0]] else "";
      assert (a + b)[0] == a[0] && (a + b)[1..] == a[1..] + b;
      assert WordChars(a + b) == head + WordChars(a[1..] + b);
      WordCharsAppend(a[1..], b);
      assert WordChars(a) == head + WordChars(a[1..]);
    }
  }

  lemma {:induction false} WordCharsOfWord(s: string)
    requires forall i :: 0 <= i < |s| ==> IsWordChar(s[i])
    ensures WordChars(s) == s
  {
    if s != [] {
      WordCharsOfWord(s[1..]);
    }
  }

  /** Splitting keeps every word character, in order, and nothing else, and
      every piece is a non-empty run of word characters of `s`. */
  lemma {:induction false} SplitWordsSound(s: string)
    ensures forall t :: t in SplitWords(s) ==> t != "" && forall c :: c in t ==> IsWordChar(c) && c in s
    ensures Concat(SplitWords(s)) == WordChars(s)
    decreases |s|
  {
    if s == [] {
    } else if !IsWordChar(s[0]) {
      SplitWordsSound(s[1..]);
      assert forall c :: c in s[1..] ==> c in s;
    } else {
      var n := WordRun(s);
      var rest := SplitWords(s[n..]);
      SplitWordsSound(s[n..]);
      assert forall c :: c in s[n..] ==> c in s;
      assert forall c :: c in s[..n] ==> c in s;
      assert ([s[..n]] + rest)[1..] == rest;
      assert s == s[..n] + s[n..];
      WordCharsAppend(s[..n], s[n..]);
      WordCharsOfWord(s[..n]);
    }
  }

  /** simpleTokenizer: every token is a non-empty run of lower-case word
      characters, and together the tokens hold exactly the word characters
      of the lower-cased text, in order. */
  function Tokenize(text: Option<string>): (tokens: seq<string>)
    ensures forall t :: t in tokens ==> t != "" && forall c :: c in t ==> IsWordChar(c) && !IsUpper(c)
    ensures Concat(tokens) == WordChars(Lower(OrElse(text, "")))
  {
    var s := Lower(OrElse(text, ""));
    SplitWordsSound(s);
    SplitWords(s)
  }

  /** A text made of one lower-case word is one token. */
  lemma {:induction false} SingleWordIsOneToken(w: string)
    requires w != ""
    requires forall i :: 0 <= i < |w| ==> ('a' <= w[i] <= 'z') || ('0' <= w[i] <= '9') || w[i] == '_'
    ensures Tokenize(Some(w)) == [w]
  {
    assert OrElse(Some(w), "") == w;
    LowerOfLowerWord(w);
    WordRunOfWord(w);
    assert IsWordChar(w[0]);
    assert w[|w|..] == [];
    assert w[..|w|] == w;
    assert SplitWords(w) == [w[..|w|]] + SplitWords(w[|w|..]);
  }

  /** A word in any case is one token: the word lower-cased. */
  lemma WordIsOneToken(w: string)
    requires w != [] && forall i :: 0 <= i < |w| ==> IsWordChar(w[i])
    ensures Tokenize(Some(w)) == [Lower(w)]
  {
    assert OrElse(Some(w), "") == w;
    LowerOfWord(w);
    SplitWordsOfWord(Lower(w));
  }

  /** A separator that stays outside \w after lower-casing splits the text:
      the tokens are those of each side, so every token is a whole run. */
  lemma TokenizeAtSeparator(a: string, c: char, b: string)
    requires !IsWordChar(c) && c != '\U{212A}' && c != '\U{0130}'
    ensures Tokenize(Some(a + [c] + b)) == Tokenize(Some(a)) + Tokenize(Some(b))
  {
    assert OrElse(Some(a + [c] + b), "") == a + [c] + b;
    assert OrElse(Some(a), "") == a && OrElse(Some(b), "") == b;
    LowerAppend(a + [c], b);
    LowerAppend(a, [c]);
    assert Lower([c]) == [c] by {
      assert [c][1..] == [];
    }
    SplitWordsAtSeparator(Lower(a), c, Lower(b));
  }

  /** "Problem" in a text hits the keyword "problem". */
  lemma CapitalisedWordMatches(w: string)
    requires w == "Problem"
    ensures Tokenize(Some(w)) == ["problem"]
  {
    WordIsOneToken(w);
    LowerOfWord(w);
    assert Lower(w) == "problem";
  }

  lemma {:induction false} LowerOfLowerWord(w: string)
    requires forall i :: 0 <= i < |w| ==> ('a' <= w[i] <= 'z') || ('0' <= w[i] <= '9') || w[i] == '_'
    ensures Lower(w) == w
  {
    if w != [] {
      LowerOfLowerWord(w[1..]);
      assert w == [w[0]] + w[1..];
    }
  }

  lemma {:induction false} WordRunOfWord(w: string)
    requires forall i :: 0 <= i < |w| ==> IsWordChar(w[i])
    ensures WordRun(w) == |w|
  {
    if w != [] {
      WordRunOfWord(w[1..]);
    }
  }

  // ---------------------------------------------------------------------
  // scorePresence, lengthScore, normalize

  function TokenSet(text: Option<string>): set<string> {
    set t | t in Tokenize(text)
  }

  /** Number of keywords (counted with repetition) that are members of `tokens`. */
  function Hits(tokens: set<string>, keywords: seq<string>): (h: nat)
    ensures h <= |keywords|
  {
    if keywords == [] then 0
    else Hits(tokens, keywords[..|keywords| - 1]) + (if keywords[|keywords| - 1] in tokens then 1 else 0)
  }

  /** The positions of the keywords that occur as a whole token. */
  function MatchedPositions(tokens: set<string>, keywords: seq<string>): set<nat> {
    set i: nat | i < |keywords| && keywords[i] in tokens
  }

  /** Hits counts exactly the keyword positions whose keyword is a token. */
  lemma {:induction false} HitsCountsMatches(tokens: set<string>, keywords: seq<string>)
    ensures Hits(tokens, keywords) == |MatchedPositions(tokens, keywords)|
    decreases |keywords|
  {
    if keywords != [] {
      var n := |keywords| - 1;
      var init := keywords[..n];
      HitsCountsMatches(tokens, init);
      var before := MatchedPositions(tokens, init);
      var after := MatchedPositions(tokens, keywords);
      if keywords[n] in tokens {
        assert after == before + {n};
        assert n !in before;
      } else {
        assert after == before;
      }
    }
  }

  /** scorePresence as a value: Math.min(100, Math.round(hits / max(1, n) * 100)). */
  function PresenceScore(text: Option<string>, keywords: seq<string>): (score: int)
    ensures 0 <= score <= 100
    ensures Hits(TokenSet(text), keywords) == 0 ==> score == 0
    ensures keywords != [] && Hits(TokenSet(text), keywords) == |keywords| ==> score == 100
  {
    var h := Hits(TokenSet(text), keywords);
    var n := Max(1, |keywords|);
    RoundRatioScaledBounds(h, n, 100);
    assert h == 0 ==> RoundRatio(100 * h, n) == 0 by {
      if h == 0 { RoundRatioUnique(100 * h, n, 0); }
    }
    assert h == n ==> RoundRatio(100 * h, n) == 100 by {
      if h == n { RoundRatioUnique(100 * h, n, 100); }
    }
    Min(100, RoundRatio(100 * h, n))
  }

  /** scorePresence is Math.round(matches / max(1, n) * 100), where matches
      counts the keyword positions whose keyword equals a whole token; the
      cap at 100 never applies. */
  lemma PresenceIsRoundedMatchRatio(text: Option<string>, keywords: seq<string>)
    ensures PresenceScore(text, keywords)
            == RoundRatio(100 * |MatchedPositions(TokenSet(text), keywords)|, Max(1, |keywords|))
  {
    var h := Hits(TokenSet(text), keywords);
    HitsCountsMatches(TokenSet(text), keywords);
    RoundRatioScaledBounds(h, Max(1, |keywords|), 100);
  }

  /** A keyword is a hit only when it equals a whole token: a text that is
      one word different from the keyword gives no hit. */
  lemma OnlyWholeTokensMatch(w: string, keyword: string)
    requires w != "" && keyword != w
    requires forall i :: 0 <= i < |w| ==> ('a' <= w[i] <= 'z') || ('0' <= w[i] <= '9') || w[i] == '_'
    ensures Hits(TokenSet(Some(w)), [keyword]) == 0
  {
    SingleWordIsOneToken(w);
    assert TokenSet(Some(w)) == {w};
    assert [keyword][..0] == [];
  }

  /** The imperative scorePresence: the tokens go into a set, then a loop
      counts the keywords found in it. */
  method ScorePresence(text: Option<string>, keywords: seq<string>) returns (score: int)
    ensures score == PresenceScore(text, keywords)
    ensures 0 <= score <= 100
  {
    var tokens := Tokenize(text);
    var found := set t | t in tokens;
    var hits := 0;
    for i := 0 to |keywords|
      invariant hits == Hits(found, keywords[..i])
    {
      assert keywords[..i + 1][..i] == keywords[..i];
      if keywords[i] in found {
        hits := hits + 1;
      }
    }
    assert keywords[..|keywords|] == keywords;
    score := Min(100, RoundRatio(100 * hits, Max(1, |keywords|)));
  }

  /** lengthScore: 100 minus the distance of the length from `ideal`, floored
      at 0. It is 100 exactly at the ideal length. */
  function LengthScore(text: Option<string>, ideal: int): (score: int)
    ensures 0 <= score <= 100
    ensures score == Max(0, 100 - Abs(ideal - Utf16Length(OrElse(text, ""))))
    ensures score == 100 <==> Utf16Length(OrElse(text, "")) == ideal
  {
    var len := Utf16Length(OrElse(text, ""));
    Min(100, RoundRatio(Max(0, 100 - Abs(ideal - len)), 1))
  }

  /** normalize(num / den): round, then clamp to [0, 100]. On an integer
      already in range it is the identity. */
  function Normalize(num: int, den: int): (r: int)
    requires den > 0
    ensures 0 <= r <= 100
    ensures 0 <= RoundRatio(num, den) <= 100 ==> r == RoundRatio(num, den)
    ensures den == 1 && 0 <= num <= 100 ==> r == num
  {
    Max(0, Min(100, RoundRatio(num, den)))
  }

  lemma NormalizeIdempotent(num: int, den: int)
    requires den > 0
    ensures Normalize(Normalize(num, den), 1) == Normalize(num, den)
  {
  }

  // ---------------------------------------------------------------------
  // generateScores

  datatype IdeaInputs = IdeaInputs(
    problem: Option<string>,
    solution: Option<string>,
    audience: Option<string>,
    alternatives: Option<string>,
    technology: Option<string>)

  datatype Scores = Scores(
    problemValidationScore: int,
    marketMaturity: int,
    competitionDensity: int,
    differentiationPotential: int,
    technicalFeasibility: int,
    riskAndUncertainty: int)

  /** The six metrics in canonical key order. */
  function Values(s: Scores): (v: seq<int>)
    ensures |v| == |Keys|
  {
    [s.problemValidationScore, s.marketMaturity, s.competitionDensity,
     s.differentiationPotential, s.technicalFeasibility, s.riskAndUncertainty]
  }

  predicate InRange(s: Scores) {
    forall i :: 0 <= i < |Values(s)| ==> 0 <= Values(s)[i] <= 100
  }

  /** The scores as the JSON object returned to callers and stored in a version. */
  function ScoresObject(s: Scores): (v: Json)
    ensures forall i :: 0 <= i < |Keys| ==> MetricValue(v, Keys[i]) == Values(s)[i]
  {
    var vals := Values(s);
    var fields := seq(|Keys|, i requires 0 <= i < |Keys| => Field(Keys[i], JNum(vals[i])));
    KeysDistinct();
    forall i | 0 <= i < |Keys|
      ensures FindField(fields, Keys[i]) == Some(JNum(vals[i]))
    {
      FindFieldAt(fields, i);
    }
    JObj(fields)
  }

  lemma {:induction false} FindFieldAt(fields: seq<Field>, i: nat)
    requires i < |fields|
    requires forall j :: 0 <= j < i ==> fields[j].key != fields[i].key
    ensures FindField(fields, fields[i].key) == Some(fields[i].val)
  {
    if i > 0 {
      FindFieldAt(fields[1..], i - 1);
    }
  }

  const ProblemKeywords: seq<string> := ["problem", "need", "pain", "issue", "challenge"]
  const MarketKeywords: seq<string> := ["competitor", "alternativ", "incumbent", "existing"]
  const DifferentiationKeywords: seq<string> := ["unique", "different", "novel", "patent", "proprietary"]
  const TechnologyKeywords: seq<string> :=
    ["prototype", "api", "openai", "ml", "ai", "framework", "node", "react"]

  /** Math.max(scorePresence(text, keywords), lengthScore(text, ideal)) */
  function SubScore(text: Option<string>, keywords: seq<string>, ideal: int): (r: int)
    ensures 0 <= r <= 100
    ensures r >= PresenceScore(text, keywords) && r >= LengthScore(text, ideal)
    ensures r == PresenceScore(text, keywords) || r == LengthScore(text, ideal)
  {
    Max(PresenceScore(text, keywords), LengthScore(text, ideal))
  }

  /** generateScores: six metrics, each an integer in [0, 100]; competition
      density is the complement of market maturity and risk is the integer
      nearest to 100 minus the mean of problem clarity, technical
      feasibility and differentiation. */
  function GenerateScores(inputs: IdeaInputs): (r: Scores)
    ensures InRange(r)
    ensures r.competitionDensity == 100 - r.marketMaturity
    ensures var sum := r.problemValidationScore + r.technicalFeasibility + r.differentiationPotential;
            6 * r.riskAndUncertainty - 3 <= 2 * (300 - sum) < 6 * r.riskAndUncertainty + 3
  {
    var problemClarity := SubScore(inputs.problem, ProblemKeywords, 80);
    var marketMaturity := SubScore(inputs.alternatives, MarketKeywords, 40);
    var competitionDensity := Normalize(100 - marketMaturity, 1);
    var differentiation := SubScore(inputs.solution, DifferentiationKeywords, 60);
    var technicalFeasibility := SubScore(inputs.technology, TechnologyKeywords, 40);
    var risk := Normalize(300 - (problemClarity + technicalFeasibility + differentiation), 3);
    RiskIsRounded(problemClarity + technicalFeasibility + differentiation);
    var r := Scores(
      Normalize(problemClarity, 1),
      Normalize(marketMaturity, 1),
      Normalize(competitionDensity, 1),
      Normalize(differentiation, 1),
      Normalize(technicalFeasibility, 1),
      Normalize(risk, 1));
    assert r.problemValidationScore == problemClarity && r.technicalFeasibility == technicalFeasibility;
    assert r.differentiationPotential == differentiation && r.riskAndUncertainty == risk;
    assert r.marketMaturity == marketMaturity && r.competitionDensity == competitionDensity;
    ScoresInRange(r);
    r
  }

  /** For a sum of three scores, Math.round(100 - sum / 3) is already in
      [0, 100], so normalize only rounds. */
  lemma RiskIsRounded(sum: int)
    requires 0 <= sum <= 300
    ensures var risk := Normalize(300 - sum, 3);
            6 * risk - 3 <= 2 * (300 - sum) < 6 * risk + 3
  {
    var q := RoundRatio(300 - sum, 3);
    assert 6 * q - 3 <= 2 * (300 - sum) < 6 * q + 3;
  }

  lemma ScoresInRange(s: Scores)
    requires 0 <= s.problemValidationScore <= 100 && 0 <= s.marketMaturity <= 100
    requires 0 <= s.competitionDensity <= 100 && 0 <= s.differentiationPotential <= 100
    requires 0 <= s.technicalFeasibility <= 100 && 0 <= s.riskAndUncertainty <= 100
    ensures InRange(s)
  {
    var v := Values(s);
    assert v[0] == s.problemValidationScore && v[1] == s.marketMaturity;
    assert v[2] == s.competitionDensity && v[3] == s.differentiationPotential;
    assert v[4] == s.technicalFeasibility && v[5] == s.riskAndUncertainty;
  }

  /** The four independent metrics are the larger of the keyword and length
      sub-scores of their own text field. */
  lemma GenerateScoresFields(inputs: IdeaInputs)
    ensures var r := GenerateScores(inputs);
            && r.problemValidationScore == SubScore(inputs.problem, ProblemKeywords, 80)
            && r.marketMaturity == SubScore(inputs.alternatives, MarketKeywords, 40)
            && r.differentiationPotential == SubScore(inputs.solution, DifferentiationKeywords, 60)
            && r.technicalFeasibility == SubScore(inputs.technology, TechnologyKeywords, 40)
  {
  }

  /** The stem "alternativ" is not a whole token of "alternatives". */
  lemma StemDoesNotMatch()
    ensures Hits(TokenSet(Some("alternatives")), ["alternativ"]) == 0
  {
    var w := "alternatives";
    assert w == ['a', 'l', 't', 'e', 'r', 'n', 'a', 't', 'i', 'v', 'e', 's'];
    OnlyWholeTokensMatch(w, "alternativ");
  }

  // ---------------------------------------------------------------------
  // draftLeanCanvas

  datatype LeanCanvas = LeanCanvas(
    problem: string,
    solution: string,
    suggestedSolution: Option<string>,
    uniqueValueProposition: string,
    customerSegments: string,
    channels: string,
    revenueModel: string,
    costStructure: string,
    keyMetrics: string,
    advantage: string)

  const Channels := "Website, Social, Direct outreach"
  const RevenueModel := "Subscription / One-time / Freemium — choose suitable model"
  const CostStructure := "Dev, Hosting, Marketing"
  const KeyMetrics := "Activation, Retention, CAC, LTV"
  const Placeholder := "—"

  /** `!solution || solution.trim() === ''` */
  predicate NoSolution(solution: Option<string>) {
    solution.None? || IsBlank(solution.value)
  }

  const TemplateHead := "A product that addresses \""
  const TemplateMiddle := "\" for "
  const TemplateTail := " by offering a focused, easy-to-adopt service that reduces the stated pain."

  /** The templated solution: the problem with newlines turned into spaces,
      and the audience or "target customers". */
  function SuggestedSolutionText(problem: Option<string>, audience: Option<string>): (r: string)
    ensures r == TemplateHead + ReplaceChar(OrElse(problem, ""), '\n', " ")
                 + TemplateMiddle + OrElse(audience, "target customers") + TemplateTail
    ensures r != "" && r[|r| - 1] == '.'
  {
    var s := TemplateHead + ReplaceChar(OrElse(problem, ""), '\n', " ")
             + TemplateMiddle + OrElse(audience, "target customers") + TemplateTail;
    assert s[|s| - 1] == TemplateTail[|TemplateTail| - 1];
    s
  }

  /** draftLeanCanvas. Without a (non-blank) solution the suggested solution
      is the template and becomes the solution; with one, there is no
      suggestion and the solution is kept verbatim. The value proposition is
      the solution up to its first '.'. */
  function DraftLeanCanvas(inputs: IdeaInputs): (r: LeanCanvas)
    ensures NoSolution(inputs.solution) ==>
              r.suggestedSolution == Some(SuggestedSolutionText(inputs.problem, inputs.audience))
              && r.solution == r.suggestedSolution.value
    ensures !NoSolution(inputs.solution) ==>
              r.suggestedSolution == None && r.solution == inputs.solution.value
    ensures '.' !in r.uniqueValueProposition
    ensures |r.uniqueValueProposition| <= |r.solution|
    ensures r.uniqueValueProposition == r.solution[..|r.uniqueValueProposition|]
    ensures |r.uniqueValueProposition| < |r.solution| ==> r.solution[|r.uniqueValueProposition|] == '.'
    ensures r.problem == OrElse(inputs.problem, Placeholder)
    ensures r.customerSegments == OrElse(inputs.audience, Placeholder)
    ensures r.advantage == if inputs.alternatives.Some? && inputs.alternatives.value != ""
                           then "Compared to: " + inputs.alternatives.value else Placeholder
    ensures r.channels == Channels && r.revenueModel == RevenueModel
    ensures r.costStructure == CostStructure && r.keyMetrics == KeyMetrics
  {
    var suggested :=
      if NoSolution(inputs.solution) then Some(SuggestedSolutionText(inputs.problem, inputs.audience))
      else None;
    var final := if !NoSolution(inputs.solution) then inputs.solution.value else suggested.value;
    assert final != "" by {
      if !NoSolution(inputs.solution) {
        assert !IsBlank(final);
      }
    }
    LeanCanvas(
      OrElse(inputs.problem, Placeholder),
      if final != "" then final else Placeholder,
      suggested,
      if final != "" then BeforeFirst(final, '.') else Placeholder,
      OrElse(inputs.audience, Placeholder),
      Channels,
      RevenueModel,
      CostStructure,
      KeyMetrics,
      if inputs.alternatives.Some? && inputs.alternatives.value != ""
      then "Compared to: " + inputs.alternatives.value else Placeholder)
  }

  /** The scenario of a problem statement, an empty solution and an audience:
      a suggestion is drafted, mirrored as the solution, and the value
      proposition is the text before the first period. */
  lemma FreelancerScenario()
    ensures var c := DraftLeanCanvas(IdeaInputs(Some("Users face a real pain and challenge daily"),
                                                 Some(""), Some("freelancers"), Some(""), Some("")));
            c.suggestedSolution.Some? && c.suggestedSolution.value != ""
            && c.solution == c.suggestedSolution.value
            && c.uniqueValueProposition == BeforeFirst(c.solution, '.')
            && c.customerSegments == "freelancers" && c.advantage == Placeholder
  {
  }

  // ---------------------------------------------------------------------
  // Generation-backed variants, after the reply has been parsed

  /** `process.env.LLM_PROVIDER && LLM_PROVIDER.toLowerCase() === 'ollama'`.
      Only ASCII capitals can lowercase into the letters of "ollama". */
  predicate UsesOllama(provider: Option<string>) {
    provider.Some? && provider.value != "" && Lower(provider.value) == "ollama"
  }

  /** What the generation call produced: no text (`!text`), a parsed JSON
      value, or an exception (a transport error or a JSON.parse failure)
      with its message. */
  datatype LlmReply<T> = NoText | Parsed(value: T) | Failed(message: string)

  /** A field value in a parsed score reply. */
  datatype Scalar = Null | Bool(b: bool) | Num(n: int)

  predicate ScalarTruthy(v: Scalar) {
    match v
    case Null => false
    case Bool(b) => b
    case Num(n) => n != 0
  }

  /** What Math.round makes of the value: null is 0, booleans 0 or 1. */
  function ScalarNumber(v: Scalar): int {
    match v
    case Null => 0
    case Bool(b) => if b then 1 else 0
    case Num(n) => n
  }

  /** The accepted spellings of each metric in a reply, primary first. */
  function Aliases(k: string): (names: seq<string>)
    ensures names != [] && names[0] == k
  {
    if k == ProblemValidation then [k, "problemValidation"]
    else if k == CompetitionDensity then [k, "competition"]
    else if k == DifferentiationPotential then [k, "differentiation"]
    else if k == TechnicalFeasibility then [k, "techFeasibility"]
    else if k == RiskAndUncertainty then [k, "risk"]
    else [k]
  }

  /** `parsed[names[0]] || parsed[names[1]] || ... || 0` */
  function FirstTruthy(fields: map<string, Scalar>, names: seq<string>): (v: Scalar)
    ensures ScalarTruthy(v) || v == Num(0)
  {
    if names == [] then Num(0)
    else if names[0] in fields && ScalarTruthy(fields[names[0]]) then fields[names[0]]
    else FirstTruthy(fields, names[1..])
  }

  /** The metric `k` taken from a parsed reply. */
  function ReplyMetric(fields: map<string, Scalar>, k: string): (r: int)
    ensures 0 <= r <= 100
  {
    Normalize(ScalarNumber(FirstTruthy(fields, Aliases(k))), 1)
  }

  function ScoresFromReply(fields: map<string, Scalar>): (r: Scores)
    ensures InRange(r)
    ensures forall i :: 0 <= i < |Keys| ==> Values(r)[i] == ReplyMetric(fields, Keys[i])
  {
    var r := Scores(ReplyMetric(fields, ProblemValidation), ReplyMetric(fields, MarketMaturity),
                    ReplyMetric(fields, CompetitionDensity), ReplyMetric(fields, DifferentiationPotential),
                    ReplyMetric(fields, TechnicalFeasibility), ReplyMetric(fields, RiskAndUncertainty));
    ScoresInRange(r);
    ReplyValuesPerKey(fields, r);
    r
  }

  lemma ReplyValuesPerKey(fields: map<string, Scalar>, r: Scores)
    requires r == Scores(ReplyMetric(fields, ProblemValidation), ReplyMetric(fields, MarketMaturity),
                         ReplyMetric(fields, CompetitionDensity), ReplyMetric(fields, DifferentiationPotential),
                         ReplyMetric(fields, TechnicalFeasibility), ReplyMetric(fields, RiskAndUncertainty))
    ensures forall i :: 0 <= i < |Keys| ==> Values(r)[i] == ReplyMetric(fields, Keys[i])
  {
    var v := Values(r);
    forall i | 0 <= i < |Keys|
      ensures v[i] == ReplyMetric(fields, Keys[i])
    {
      if i == 0 {
        assert v[0] == r.problemValidationScore;
      } else if i == 1 {
        assert v[1] == r.marketMaturity;
      } else if i == 2 {
        assert v[2] == r.competitionDensity;
      } else if i == 3 {
        assert v[3] == r.differentiationPotential;
      } else if i == 4 {
        assert v[4] == r.technicalFeasibility;
      } else {
        assert v[5] == r.riskAndUncertainty;
      }
    }
  }

  /** A truthy primary value wins and is clamped into [0, 100]. */
  lemma PrimaryValueClamped(fields: map<string, Scalar>, k: string)
    requires k in fields && ScalarTruthy(fields[k])
    ensures ReplyMetric(fields, k) == Max(0, Min(100, ScalarNumber(fields[k])))
  {
  }

  /** A missing or falsy primary value (0 included) gives way to the alias. */
  lemma FalsyPrimaryFallsToAlias(fields: map<string, Scalar>, k: string)
    requires |Aliases(k)| == 2
    requires k !in fields || !ScalarTruthy(fields[k])
    requires Aliases(k)[1] in fields && ScalarTruthy(fields[Aliases(k)[1]])
    ensures ReplyMetric(fields, k) == Max(0, Min(100, ScalarNumber(fields[Aliases(k)[1]])))
  {
    var names := Aliases(k);
    assert names[1..][0] == names[1];
    assert FirstTruthy(fields, names) == FirstTruthy(fields, names[1..]);
  }

  /** When no spelling has a truthy value the metric is 0. */
  lemma NoTruthySpellingIsZero(fields: map<string, Scalar>, k: string)
    requires forall j :: 0 <= j < |Aliases(k)| && Aliases(k)[j] in fields ==> !ScalarTruthy(fields[Aliases(k)[j]])
    ensures ReplyMetric(fields, k) == 0
  {
    NoTruthyGivesZero(fields, Aliases(k));
  }

  lemma {:induction false} NoTruthyGivesZero(fields: map<string, Scalar>, names: seq<string>)
    requires forall j :: 0 <= j < |names| && names[j] in fields ==> !ScalarTruthy(fields[names[j]])
    ensures FirstTruthy(fields, names) == Num(0)
  {
    if names != [] {
      assert forall j :: 0 <= j < |names| - 1 ==> names[1..][j] == names[j + 1];
      NoTruthyGivesZero(fields, names[1..]);
    }
  }

  /** The reply {150, -10, 50, 75, 0, 101} maps to {100, 0, 50, 75, 0, 100}. */
  lemma ClampingExample()
    ensures ScoresFromReply(map[ProblemValidation := Num(150), MarketMaturity := Num(-10),
                                CompetitionDensity := Num(50), DifferentiationPotential := Num(75),
                                TechnicalFeasibility := Num(0), RiskAndUncertainty := Num(101)])
            == Scores(100, 0, 50, 75, 0, 100)
  {
    var f := map[ProblemValidation := Num(150), MarketMaturity := Num(-10),
                 CompetitionDensity := Num(50), DifferentiationPotential := Num(75),
                 TechnicalFeasibility := Num(0), RiskAndUncertainty := Num(101)];
    assert "techFeasibility" !in f;
    NoTruthySpellingIsZero(f, TechnicalFeasibility);
    PrimaryValueClamped(f, ProblemValidation);
    PrimaryValueClamped(f, MarketMaturity);
    PrimaryValueClamped(f, CompetitionDensity);
    PrimaryValueClamped(f, DifferentiationPotential);
    PrimaryValueClamped(f, RiskAndUncertainty);
  }

  datatype ScoreBundle = ScoreBundle(scores: Scores, llmWarning: Option<string>)

  /** generateScoresLLM after the call: heuristics when the provider is not
      ollama or the reply is empty, the clamped reply when it parsed, and
      heuristics with a warning naming the failure otherwise. */
  method GenerateScoresLlm(inputs: IdeaInputs, provider: Option<string>,
                           reply: LlmReply<map<string, Scalar>>) returns (bundle: ScoreBundle)
    ensures InRange(bundle.scores)
    ensures !UsesOllama(provider) || reply.NoText? ==>
              bundle == ScoreBundle(GenerateScores(inputs), None)
    ensures UsesOllama(provider) && reply.Parsed? ==>
              bundle == ScoreBundle(ScoresFromReply(reply.value), None)
    ensures UsesOllama(provider) && reply.Failed? ==>
              bundle == ScoreBundle(GenerateScores(inputs), Some("LLM scoring failed: " + reply.message))
  {
    if !UsesOllama(provider) {
      return ScoreBundle(GenerateScores(inputs), None);
    }
    match reply
    case NoText =>
      bundle := ScoreBundle(GenerateScores(inputs), None);
    case Parsed(fields) =>
      bundle := ScoreBundle(ScoresFromReply(fields), None);
    case Failed(msg) =>
      var fallback := ScoreBundle(GenerateScores(inputs), None);
      fallback := fallback.(llmWarning := Some("LLM scoring failed: " + msg));
      bundle := fallback;
  }

  /** A canvas as the drafter returns it: the heuristic record (with an
      optional warning) or whatever JSON the generation service produced. */
  datatype CanvasResult = Drafted(canvas: LeanCanvas, llmWarning: Option<string>) | FromModel(value: Json)

  /** draftLeanCanvasLLM after the call: the parsed value is returned as is. */
  method DraftLeanCanvasLlm(inputs: IdeaInputs, provider: Option<string>,
                            reply: LlmReply<Json>) returns (result: CanvasResult)
    ensures !UsesOllama(provider) || reply.NoText? ==>
              result == Drafted(DraftLeanCanvas(inputs), None)
    ensures UsesOllama(provider) && reply.Parsed? ==> result == FromModel(reply.value)
    ensures UsesOllama(provider) && reply.Failed? ==>
              result == Drafted(DraftLeanCanvas(inputs), Some("LLM lean canvas failed: " + reply.message))
  {
    if !UsesOllama(provider) {
      return Drafted(DraftLeanCanvas(inputs), None);
    }
    match reply
    case NoText =>
      result := Drafted(DraftLeanCanvas(inputs), None);
    case Parsed(value) =>
      result := FromModel(value);
    case Failed(msg) =>
      var fallback := Drafted(DraftLeanCanvas(inputs), None);
      fallback := fallback.(llmWarning := Some("LLM lean canvas failed: " + msg));
      result := fallback;
  }
}
