/** The browser script's computations: HTML escaping, the insight value
    formatter, the mentor dashboard readout and the rows of the compare
    table. Only the strings and values are modelled, not the DOM. */
module AppView {
  import opened Js
  import opened Metrics
  import VersionUtils

  // ---------------------------------------------------------------------
  // escapeHtml and nl2br

  /** String(v). Array.prototype.join turns null and undefined elements
      into "" and every other element into its own String. */
  function JsString(v: Json): string
    decreases v
  {
    match v
    case JNull => "null"
    case JBool(b) => if b then "true" else "false"
    case JNum(n) => IntToString(n)
    case JStr(s) => s
    case JArr(items) =>
      Join(seq(|items|, i requires 0 <= i < |items| =>
                 if items[i].JNull? then "" else JsString(items[i])), ",")
    case JObj(_) => "[object Object]"
  }

  /** The four chained replacements of escapeHtml, `&` first. */
  function EscapeText(s: string): string {
    var amp := ReplaceChar(s, '&', "&amp;");
    var lt := ReplaceChar(amp, '<', "&lt;");
    var gt := ReplaceChar(lt, '>', "&gt;");
    ReplaceChar(gt, '"', "&quot;")
  }

  /** escapeHtml(v): `String(v || '')`, escaped. */
  function EscapeHtml(v: Json): (r: string)
    ensures !Truthy(v) ==> r == ""
    ensures '<' !in r && '>' !in r && '"' !in r
  {
    var s := if Truthy(v) then JsString(v) else "";
    EscapeTextSafe(s);
    EscapeText(s)
  }

  /** What one character becomes. */
  function Entity(c: char): string {
    if c == '&' then "&amp;"
    else if c == '<' then "&lt;"
    else if c == '>' then "&gt;"
    else if c == '"' then "&quot;"
    else [c]
  }

  /** Escaping one character at a time. */
  function EscapeChars(s: string): string {
    if s == [] then "" else Entity(s[0]) + EscapeChars(s[1..])
  }

  lemma ReplaceSingle(c: char, x: char, rep: string)
    ensures ReplaceChar([c], x, rep) == if c == x then rep else [c]
  {
    assert [c][1..] == [];
  }

  /** The last three replacements leave text without '<', '>' and '"' as it is. */
  lemma EscapeTailPlain(s: string)
    requires '<' !in s && '>' !in s && '"' !in s
    ensures ReplaceChar(ReplaceChar(ReplaceChar(s, '<', "&lt;"), '>', "&gt;"), '"', "&quot;") == s
  {
    ReplaceCharAbsent(s, '<', "&lt;");
    ReplaceCharAbsent(s, '>', "&gt;");
    ReplaceCharAbsent(s, '"', "&quot;");
  }

  /** Text without any of the four special characters is left as it is. */
  lemma EscapePlain(s: string)
    requires '&' !in s && '<' !in s && '>' !in s && '"' !in s
    ensures EscapeText(s) == s
  {
    ReplaceCharAbsent(s, '&', "&amp;");
    EscapeTailPlain(s);
  }

  lemma EscapeAmp(c: char)
    requires c == '&'
    ensures EscapeText([c]) == "&amp;"
  {
    var amp := ReplaceChar([c], '&', "&amp;");
    ReplaceSingle(c, '&', "&amp;");
    EscapeTailPlain(amp);
  }

  lemma EscapeLt(c: char)
    requires c == '<'
    ensures EscapeText([c]) == "&lt;"
  {
    ReplaceSingle(c, '&', "&amp;");
    var lt := ReplaceChar([c], '<', "&lt;");
    ReplaceSingle(c, '<', "&lt;");
    ReplaceCharAbsent(lt, '>', "&gt;");
    ReplaceCharAbsent(lt, '"', "&quot;");
  }

  lemma EscapeGt(c: char)
    requires c == '>'
    ensures EscapeText([c]) == "&gt;"
  {
    ReplaceSingle(c, '&', "&amp;");
    ReplaceSingle(c, '<', "&lt;");
    var gt := ReplaceChar([c], '>', "&gt;");
    ReplaceSingle(c, '>', "&gt;");
    ReplaceCharAbsent(gt, '"', "&quot;");
  }

  lemma EscapeQuote(c: char)
    requires c == '"'
    ensures EscapeText([c]) == "&quot;"
  {
    ReplaceSingle(c, '&', "&amp;");
    ReplaceSingle(c, '<', "&lt;");
    ReplaceSingle(c, '>', "&gt;");
    ReplaceSingle(c, '"', "&quot;");
  }

  /** Escaping one character yields its entity. */
  lemma EscapeOneChar(c: char)
    ensures EscapeText([c]) == Entity(c)
  {
    if c == '&' {
      EscapeAmp(c);
    } else if c == '<' {
      EscapeLt(c);
    } else if c == '>' {
      EscapeGt(c);
    } else if c == '"' {
      EscapeQuote(c);
    } else {
      EscapePlain([c]);
    }
  }

  lemma EscapeTextAppend(a: string, b: string)
    ensures EscapeText(a + b) == EscapeText(a) + EscapeText(b)
  {
    ReplaceCharAppend(a, b, '&', "&amp;");
    var a1, b1 := ReplaceChar(a, '&', "&amp;"), ReplaceChar(b, '&', "&amp;");
    ReplaceCharAppend(a1, b1, '<', "&lt;");
    var a2, b2 := ReplaceChar(a1, '<', "&lt;"), ReplaceChar(b1, '<', "&lt;");
    ReplaceCharAppend(a2, b2, '>', "&gt;");
    var a3, b3 := ReplaceChar(a2, '>', "&gt;"), ReplaceChar(b2, '>', "&gt;");
    ReplaceCharAppend(a3, b3, '"', "&quot;");
  }

  /** Because `&` is replaced first, the chained replacements escape every
      character of the input exactly once: the entities they introduce are
      never escaped again. */
  lemma {:induction false} EscapeIsSinglePass(s: string)
    ensures EscapeText(s) == EscapeChars(s)
  {
    if s != [] {
      assert s == [s[0]] + s[1..];
      EscapeTextAppend([s[0]], s[1..]);
      EscapeOneChar(s[0]);
      EscapeIsSinglePass(s[1..]);
    }
  }

  /** Decoding the four entities back to their characters. */
  function Unescape(t: string): string
    decreases |t|
  {
    if t == [] then ""
    else if |t| >= 5 && t[..5] == "&amp;" then "&" + Unescape(t[5..])
    else if |t| >= 4 && t[..4] == "&lt;" then "<" + Unescape(t[4..])
    else if |t| >= 4 && t[..4] == "&gt;" then ">" + Unescape(t[4..])
    else if |t| >= 6 && t[..6] == "&quot;" then "\"" + Unescape(t[6..])
    else [t[0]] + Unescape(t[1..])
  }

  lemma UnescapeEntity(c: char, rest: string)
    ensures Unescape(Entity(c) + rest) == [c] + Unescape(rest)
  {
    var t := Entity(c) + rest;
    if c == '&' {
      assert t[..5] == "&amp;" && t[5..] == rest;
    } else if c == '<' {
      assert t[..4] == "&lt;" && t[4..] == rest;
      assert |t| >= 5 ==> t[..5] != "&amp;" by { assert t[1] == 'l'; }
    } else if c == '>' {
      assert t[..4] == "&gt;" && t[4..] == rest;
      assert |t| >= 5 ==> t[..5] != "&amp;" by { assert t[1] == 'g'; }
      assert t[..4] != "&lt;" by { assert t[1] == 'g'; }
    } else if c == '"' {
      assert t[..6] == "&quot;" && t[6..] == rest;
      assert t[..5] != "&amp;" by { assert t[1] == 'q'; }
      assert t[..4] != "&lt;" by { assert t[1] == 'q'; }
      assert t[..4] != "&gt;" by { assert t[1] == 'q'; }
    } else {
      assert t[0] == c && t[1..] == rest;
      assert |t| >= 5 ==> t[..5] != "&amp;" by {
        if |t| >= 5 { assert t[..5][0] == c; }
      }
      assert |t| >= 4 ==> t[..4] != "&lt;" && t[..4] != "&gt;" by {
        if |t| >= 4 { assert t[..4][0] == c; }
      }
      assert |t| >= 6 ==> t[..6] != "&quot;" by {
        if |t| >= 6 { assert t[..6][0] == c; }
      }
    }
  }

  /** Escaping loses nothing: decoding the entities gives the text back. */
  lemma {:induction false} UnescapeEscape(s: string)
    ensures Unescape(EscapeText(s)) == s
  {
    EscapeIsSinglePass(s);
    UnescapeChars(s);
  }

  lemma {:induction false} UnescapeChars(s: string)
    ensures Unescape(EscapeChars(s)) == s
  {
    if s != [] {
      UnescapeEntity(s[0], EscapeChars(s[1..]));
      UnescapeChars(s[1..]);
    }
  }

  /** nl2br(v): the escaped text with every newline turned into `<br>`. */
  function Nl2br(v: Json): (r: string)
    ensures '\n' !in r
  {
    ReplaceChar(EscapeHtml(v), '\n', "<br>")
  }

  /** Turning every `<br>` back into a newline. */
  function Unbreak(t: string): string
    decreases |t|
  {
    if t == [] then ""
    else if |t| >= 4 && t[..4] == "<br>" then "\n" + Unbreak(t[4..])
    else [t[0]] + Unbreak(t[1..])
  }

  lemma {:induction false} UnbreakBreaks(s: string)
    requires '<' !in s
    ensures Unbreak(ReplaceChar(s, '\n', "<br>")) == s
  {
    if s != [] {
      var rest := ReplaceChar(s[1..], '\n', "<br>");
      var t := ReplaceChar(s, '\n', "<br>");
      UnbreakBreaks(s[1..]);
      if s[0] == '\n' {
        assert t == "<br>" + rest;
        assert t[..4] == "<br>" && t[4..] == rest;
      } else {
        assert t == [s[0]] + rest;
        assert t[1..] == rest;
        assert |t| >= 4 ==> t[..4] != "<br>" by {
          if |t| >= 4 { assert t[..4][0] == s[0]; assert s[0] in s; }
        }
      }
    }
  }

  /** Since escaped text holds no `<`, the line breaks nl2br inserts can be
      told apart from the text: undoing them and then the entities gives
      back the string that was escaped. */
  lemma Nl2brRoundTrip(v: Json)
    ensures Unescape(Unbreak(Nl2br(v))) == (if Truthy(v) then JsString(v) else "")
  {
    UnbreakBreaks(EscapeHtml(v));
    UnescapeEscape(if Truthy(v) then JsString(v) else "");
  }

  // ---------------------------------------------------------------------
  // formatInsightValue

  const Dash := "\U{2014}"

  /** formatInsightValue(v) */
  function FormatInsightValue(v: Json): (r: string)
    decreases v
  {
    match v
    case JNull => Dash
    case JArr(items) =>
      Join(seq(|items|, i requires 0 <= i < |items| => FormatInsightValue(items[i])), ", ")
    case JObj(fields) =>
      if fields == [] then Dash
      else Join(seq(|fields|, i requires 0 <= i < |fields| =>
                      EscapeText(fields[i].key) + ": " + FormatInsightValue(fields[i].val)), "<br>")
    // escapeHtml(String(v)): String of a primitive is "" only for "", so `|| ''` changes nothing
    case _ => EscapeText(JsString(v))
  }

  lemma {:induction false} JoinAvoids(parts: seq<string>, sep: string, c: char)
    requires c !in sep
    requires forall i :: 0 <= i < |parts| ==> c !in parts[i]
    ensures c !in Join(parts, sep)
  {
    if |parts| > 1 {
      JoinAvoids(parts[1..], sep, c);
    }
  }

  /** Escaped text holds no '<', '>' or '"': markup cannot open or close
      a tag or an attribute. */
  lemma EscapeTextSafe(s: string)
    ensures '<' !in EscapeText(s) && '>' !in EscapeText(s) && '"' !in EscapeText(s)
  {
    var amp := ReplaceChar(s, '&', "&amp;");
    var lt := ReplaceChar(amp, '<', "&lt;");
    var gt := ReplaceChar(lt, '>', "&gt;");
    ReplaceCharKeepsAbsent(lt, '>', "&gt;", '<');
    ReplaceCharKeepsAbsent(gt, '"', "&quot;", '<');
    ReplaceCharKeepsAbsent(gt, '"', "&quot;", '>');
  }

  /** The formatted value never holds a double quote, whatever the insight
      object contains: every piece of text passes through escapeHtml. */
  lemma {:induction false} FormatHasNoQuote(v: Json)
    ensures '"' !in FormatInsightValue(v)
    decreases v
  {
    match v
    case JNull =>
    case JArr(items) =>
      var parts := seq(|items|, i requires 0 <= i < |items| => FormatInsightValue(items[i]));
      forall i | 0 <= i < |items|
        ensures '"' !in parts[i]
      {
        FormatHasNoQuote(items[i]);
      }
      JoinAvoids(parts, ", ", '"');
    case JObj(fields) =>
      if fields != [] {
        var parts := seq(|fields|, i requires 0 <= i < |fields| =>
                           EscapeText(fields[i].key) + ": " + FormatInsightValue(fields[i].val));
        forall i | 0 <= i < |fields|
          ensures '"' !in parts[i]
        {
          assert fields[i] in fields;
          FormatHasNoQuote(fields[i].val);
          EscapeTextSafe(fields[i].key);
        }
        JoinAvoids(parts, "<br>", '"');
      }
    case _ =>
      EscapeTextSafe(JsString(v));
  }

  /** Unlike escapeHtml, which drops falsy values, the formatter shows 0 and
      false; null, undefined and empty objects show as a dash and an empty
      array as nothing. */
  lemma FormatShowsZero()
    ensures FormatInsightValue(JNum(0)) == "0"
  {
    assert IntToString(0) == "0";
    EscapePlain("0");
  }

  lemma FormatShowsFalse()
    ensures FormatInsightValue(JBool(false)) == "false"
  {
    EscapePlain("false");
  }

  lemma FormatShowsFalsyScalars()
    ensures FormatInsightValue(JNum(0)) == "0" && EscapeHtml(JNum(0)) == ""
    ensures FormatInsightValue(JBool(false)) == "false" && EscapeHtml(JBool(false)) == ""
    ensures FormatInsightValue(JNull) == Dash && FormatInsightValue(JObj([])) == Dash
    ensures FormatInsightValue(JArr([])) == ""
  {
    FormatShowsZero();
    FormatShowsFalse();
  }

  // ---------------------------------------------------------------------
  // updateMentorFromInsights

  /** The six metric values, a non-number counting as 0. */
  function MentorValues(insights: Json): (vals: seq<int>)
    ensures |vals| == |Keys|
    ensures forall i :: 0 <= i < |Keys| ==> vals[i] == MetricValue(insights, Keys[i])
  {
    seq(|Keys|, i requires 0 <= i < |Keys| => MetricValue(insights, Keys[i]))
  }

  function Sum(vals: seq<int>): int {
    if vals == [] then 0 else Sum(vals[..|vals| - 1]) + vals[|vals| - 1]
  }

  predicate AllScores(vals: seq<int>) {
    forall i :: 0 <= i < |vals| ==> 0 <= vals[i] <= 100
  }

  lemma {:induction false} SumBounds(vals: seq<int>)
    requires AllScores(vals)
    ensures 0 <= Sum(vals) <= 100 * |vals|
  {
    if vals != [] {
      SumBounds(vals[..|vals| - 1]);
    }
  }

  /** Math.round(sum / 6) */
  function Average(vals: seq<int>): (avg: int)
    requires |vals| == |Keys|
    ensures 12 * avg - 6 <= 2 * Sum(vals) < 12 * avg + 6
  {
    RoundRatio(Sum(vals), |vals|)
  }

  /** Scores in [0, 100] average to a score in [0, 100], so the awareness
      delta lies in [-50, 50]. */
  lemma AverageInRange(vals: seq<int>)
    requires |vals| == |Keys| && AllScores(vals)
    ensures 0 <= Average(vals) <= 100
    ensures -50 <= Average(vals) - 50 <= 50
  {
    SumBounds(vals);
  }

  /** `${awarenessDelta >= 0 ? '+' : ''}${awarenessDelta} pts (avg ${avg})` */
  function AwarenessText(avg: int): (r: string)
    ensures r != []
    ensures r[0] == '+' <==> avg >= 50
    ensures r[0] == '-' <==> avg < 50
  {
    var delta := avg - 50;
    var sign := if delta >= 0 then "+" else "";
    var digits := IntToString(delta);
    var r := sign + digits + " pts (avg " + IntToString(avg) + ")";
    assert r[0] == (if delta >= 0 then '+' else digits[0]);
    r
  }

  datatype Band = Weak | Strong

  /** Below 40 is a blind spot, 65 and above a strength. */
  predicate InBand(v: int, band: Band) {
    if band == Weak then v < 40 else v >= 65
  }

  /** `keys.filter((k, i) => test(vals[i])).map(k => labels[k])` over the first n keys. */
  function LabelsIn(vals: seq<int>, band: Band, n: nat): seq<string>
    requires n <= |vals| == |Keys|
  {
    if n == 0 then []
    else LabelsIn(vals, band, n - 1) + (if InBand(vals[n - 1], band) then [LabelAt(n - 1)] else [])
  }

  /** A metric's label is listed exactly when its value is in the band. */
  lemma {:induction false} LabelsInExactly(vals: seq<int>, band: Band, n: nat, i: nat)
    requires n <= |vals| == |Keys| && i < |Keys|
    ensures LabelAt(i) in LabelsIn(vals, band, n) <==> i < n && InBand(vals[i], band)
  {
    if n > 0 {
      LabelsInExactly(vals, band, n - 1, i);
      LabelsDistinct();
    }
  }

  /** Every listed label belongs to a metric in the band. */
  lemma {:induction false} LabelsInSound(vals: seq<int>, band: Band, n: nat, l: string)
    requires n <= |vals| == |Keys| && l in LabelsIn(vals, band, n)
    ensures exists i :: 0 <= i < n && l == LabelAt(i) && InBand(vals[i], band)
  {
    if l !in LabelsIn(vals, band, n - 1) {
      assert l == LabelAt(n - 1);
    } else {
      LabelsInSound(vals, band, n - 1, l);
    }
  }

  function BlindSpots(vals: seq<int>): seq<string>
    requires |vals| == |Keys|
  {
    LabelsIn(vals, Weak, |Keys|)
  }

  function Strengths(vals: seq<int>): seq<string>
    requires |vals| == |Keys|
  {
    LabelsIn(vals, Strong, |Keys|)
  }

  /** No metric is both a blind spot and a strength. */
  lemma BlindSpotsAndStrengthsDisjoint(vals: seq<int>)
    requires |vals| == |Keys|
    ensures forall l :: l in BlindSpots(vals) ==> l !in Strengths(vals)
  {
    forall l | l in BlindSpots(vals)
      ensures l !in Strengths(vals)
    {
      LabelsInSound(vals, Weak, |Keys|, l);
      var i :| 0 <= i < |Keys| && l == LabelAt(i) && InBand(vals[i], Weak);
      LabelsInExactly(vals, Strong, |Keys|, i);
    }
  }

  /** `blind.length ? blind.join(', ') : 'None detected'` */
  function BlindSpotsText(vals: seq<int>): string
    requires |vals| == |Keys|
  {
    var blind := BlindSpots(vals);
    if blind != [] then Join(blind, ", ") else "None detected"
  }

  const Balanced := "Balanced profile " + Dash + " continue iterating to validate hypotheses."

  /** The summary the dashboard shows. */
  function Summary(vals: seq<int>): string
    requires |vals| == |Keys|
  {
    var strong := Strengths(vals);
    var weak := BlindSpots(vals);
    var s := (if strong != [] then "Strengths: " + Join(strong, ", ") + ". " else "")
             + (if weak != [] then "Needs attention: " + Join(weak, ", ") + ". " else "");
    if s == "" then Balanced else s
  }

  lemma {:induction false} LabelsInEmpty(vals: seq<int>, band: Band)
    requires |vals| == |Keys|
    ensures LabelsIn(vals, band, |Keys|) == [] <==> forall i :: 0 <= i < |Keys| ==> !InBand(vals[i], band)
  {
    if LabelsIn(vals, band, |Keys|) != [] {
      LabelsInSound(vals, band, |Keys|, LabelsIn(vals, band, |Keys|)[0]);
    }
    forall i | 0 <= i < |Keys| && InBand(vals[i], band)
      ensures LabelsIn(vals, band, |Keys|) != []
    {
      LabelsInExactly(vals, band, |Keys|, i);
    }
  }

  /** The profile is called balanced exactly when every metric lies in
      [40, 65); a listed section starts the summary otherwise. */
  lemma BalancedExactly(vals: seq<int>)
    requires |vals| == |Keys|
    ensures Summary(vals) == Balanced <==> forall i :: 0 <= i < |Keys| ==> 40 <= vals[i] < 65
  {
    LabelsInEmpty(vals, Weak);
    LabelsInEmpty(vals, Strong);
    var s := Summary(vals);
    assert Balanced[0] == 'B';
    if Strengths(vals) != [] {
      assert s[0] == 'S';
    } else if BlindSpots(vals) != [] {
      assert s[0] == 'N';
    }
  }

  /** The three texts updateMentorFromInsights writes. */
  datatype Readout = Readout(awareness: string, blindSpots: string, summary: string)

  function MentorReadout(insights: Json): Readout {
    if !Truthy(insights) then Readout(Dash, Dash, Dash)
    else
      var vals := MentorValues(insights);
      Readout(AwarenessText(Average(vals)), BlindSpotsText(vals), Summary(vals))
  }

  /** The summary as updateMentorFromInsights builds it: each non-empty
      section is appended in turn, and the balanced sentence replaces a
      summary that is still empty. */
  method BuildSummary(vals: seq<int>) returns (summary: string)
    requires |vals| == |Keys|
    ensures summary == Summary(vals)
  {
    var strong := Strengths(vals);
    var weak := BlindSpots(vals);
    summary := "";
    if strong != [] {
      summary := summary + ("Strengths: " + Join(strong, ", ") + ". ");
    }
    if weak != [] {
      summary := summary + ("Needs attention: " + Join(weak, ", ") + ". ");
    }
    if summary == "" {
      summary := Balanced;
    }
  }

  /** The mentor dashboard's three text elements. */
  class MentorPanel {
    var awarenessText: string
    var blindSpotsText: string
    var summaryText: string

    constructor ()
      ensures awarenessText == "" && blindSpotsText == "" && summaryText == ""
    {
      awarenessText := "";
      blindSpotsText := "";
      summaryText := "";
    }

    /** updateMentorFromInsights: the summary is built by appending its
        sections, then replaced by the balanced sentence if still empty. */
    method Update(insights: Json)
      modifies this
      ensures awarenessText == MentorReadout(insights).awareness
      ensures blindSpotsText == MentorReadout(insights).blindSpots
      ensures summaryText == MentorReadout(insights).summary
    {
      if !Truthy(insights) {
        awarenessText, blindSpotsText, summaryText := Dash, Dash, Dash;
        return;
      }
      var vals := MentorValues(insights);
      awarenessText := AwarenessText(Average(vals));
      blindSpotsText := BlindSpotsText(vals);
      summaryText := BuildSummary(vals);
    }
  }

  // ---------------------------------------------------------------------
  // runCompare: the rows of the comparison table

  const Up := "\U{25B2}"
  const Down := "\U{25BC}"

  /** One row: metric label, from, to, arrow, colour and the delta cell. */
  datatype Row = Row(metric: string, from: string, to: string, arrow: string, color: string, change: string)

  /** `deltas[k] || { from: 0, to: 0, delta: 0 }` */
  function EntryOrZero(deltas: VersionUtils.Deltas, k: string): (e: VersionUtils.DeltaEntry)
    ensures VersionUtils.Lookup(deltas, k).None? ==> e == VersionUtils.DeltaEntry(0, 0, 0)
    ensures VersionUtils.Lookup(deltas, k).Some? ==> e == VersionUtils.Lookup(deltas, k).value
  {
    match VersionUtils.Lookup(deltas, k)
    case Some(e) => e
    case None => VersionUtils.DeltaEntry(0, 0, 0)
  }

  /** The row for metric `k`: an up arrow in green for a gain, a down arrow
      in red for a loss, no arrow in grey for no change. */
  function RowFor(deltas: VersionUtils.Deltas, k: string): (row: Row)
    ensures var d := EntryOrZero(deltas, k).delta;
            && (row.arrow == Up <==> d > 0)
            && (row.arrow == Down <==> d < 0)
            && (row.arrow == "" <==> d == 0)
            && (row.color == "#86efac" <==> d > 0)
            && (row.color == "#fca5a5" <==> d < 0)
            && (row.color == "#cbd5e1" <==> d == 0)
            && row.change == row.arrow + " " + IntToString(d)
  {
    var d := EntryOrZero(deltas, k);
    // `d.delta || 0` leaves an integer delta as it is
    var delta := d.delta;
    var arrow := if delta > 0 then Up else if delta < 0 then Down else "";
    var color := if delta > 0 then "#86efac" else if delta < 0 then "#fca5a5" else "#cbd5e1";
    Row(LabelOr(k), IntToString(d.from), IntToString(d.to), arrow, color, arrow + " " + IntToString(delta))
  }

  /** The forEach over the canonical order that appends one row per metric. */
  method CompareRows(deltas: VersionUtils.Deltas) returns (rows: seq<Row>)
    ensures |rows| == |Keys|
    ensures forall i :: 0 <= i < |Keys| ==> rows[i] == RowFor(deltas, Keys[i])
  {
    rows := [];
    for i := 0 to |Keys|
      invariant |rows| == i
      invariant forall j :: 0 <= j < i ==> rows[j] == RowFor(deltas, Keys[j])
    {
      var row := RowFor(deltas, Keys[i]);
      assert (rows + [row])[i] == row;
      rows := rows + [row];
    }
  }

  /** A metric missing from the payload shows as 0 to 0 with no arrow. */
  lemma MissingMetricRow(deltas: VersionUtils.Deltas, k: string)
    requires VersionUtils.Lookup(deltas, k).None?
    ensures RowFor(deltas, k).from == "0" && RowFor(deltas, k).to == "0"
    ensures RowFor(deltas, k).arrow == "" && RowFor(deltas, k).change == " 0"
  {
    assert IntToString(0) == "0";
  }

  /** On the deltas computeDeltas produces, the arrow points up exactly
      when the latest snapshot's metric is higher than the first's, and the
      row shows both values. */
  lemma ArrowFollowsSnapshots(first: Json, latest: Json, i: nat)
    requires i < |Keys|
    ensures var row := RowFor(VersionUtils.DeltasFor(first, latest, Keys), Keys[i]);
            && row.from == IntToString(MetricValue(first, Keys[i]))
            && row.to == IntToString(MetricValue(latest, Keys[i]))
            && (row.arrow == Up <==> MetricValue(latest, Keys[i]) > MetricValue(first, Keys[i]))
            && (row.arrow == Down <==> MetricValue(latest, Keys[i]) < MetricValue(first, Keys[i]))
  {
    var d := VersionUtils.DeltasFor(first, latest, Keys);
    VersionUtils.DeltasForShape(first, latest, Keys);
    KeysDistinct();
    VersionUtils.LookupFirst(d, i);
  }
}
