/** The version delta engine: per-metric deltas between two insight
    snapshots, and the templated explanation of those deltas. */
module VersionUtils {
  import opened Js
  import opened Metrics
  import InsightEngine

  /** One metric's change: `{from, to, delta}`. */
  datatype DeltaEntry = DeltaEntry(from: int, to: int, delta: int)

  /** An object of delta entries, as its entries in insertion order. */
  type Deltas = seq<(string, DeltaEntry)>

  /** `deltas[k]`: the value of the first entry named `k`, None (undefined)
      when there is none. */
  function Lookup(deltas: Deltas, k: string): Option<DeltaEntry> {
    if deltas == [] then None
    else if deltas[0].0 == k then Some(deltas[0].1)
    else Lookup(deltas[1..], k)
  }

  /** `deltas[k]` is undefined exactly when no entry is named `k`. */
  lemma {:induction false} LookupMissing(deltas: Deltas, k: string)
    ensures Lookup(deltas, k).None? <==> forall i :: 0 <= i < |deltas| ==> deltas[i].0 != k
  {
    if deltas != [] && deltas[0].0 != k {
      LookupMissing(deltas[1..], k);
      assert forall i :: 0 < i < |deltas| ==> deltas[i] == deltas[1..][i - 1];
    }
  }

  /** A defined `deltas[k]` is the value of an entry named `k`. */
  lemma {:induction false} LookupFound(deltas: Deltas, k: string)
    requires Lookup(deltas, k).Some?
    ensures exists i :: 0 <= i < |deltas| && deltas[i] == (k, Lookup(deltas, k).value)
  {
    if deltas[0].0 != k {
      LookupFound(deltas[1..], k);
      var i :| 0 <= i < |deltas[1..]| && deltas[1..][i] == (k, Lookup(deltas, k).value);
      assert deltas[i + 1] == deltas[1..][i];
    }
  }

  /** `deltas[k] = e`: overwrite the entry named `k` in place, or add it at the
      end. An object lists integer-like keys first; only the canonical metric
      keys, none of which is integer-like, are ever assigned here, so a new key
      goes last. */
  function Put(deltas: Deltas, k: string, e: DeltaEntry): Deltas {
    if deltas == [] then [(k, e)]
    else if deltas[0].0 == k then [(k, e)] + deltas[1..]
    else [deltas[0]] + Put(deltas[1..], k, e)
  }

  /** After `deltas[k] = e`, `deltas[k]` is `e`. */
  lemma {:induction false} PutThenLookup(deltas: Deltas, k: string, e: DeltaEntry)
    ensures Lookup(Put(deltas, k, e), k) == Some(e)
  {
    if deltas != [] && deltas[0].0 != k {
      PutThenLookup(deltas[1..], k, e);
    }
  }

  /** Assigning a new key appends its entry at the end (for the canonical
      keys, which are not integer-like). */
  lemma {:induction false} PutNewKey(deltas: Deltas, k: string, e: DeltaEntry)
    requires forall i :: 0 <= i < |deltas| ==> deltas[i].0 != k
    ensures Put(deltas, k, e) == deltas + [(k, e)]
  {
    if deltas != [] {
      assert deltas[0].0 != k;
      assert forall i :: 0 <= i < |deltas[1..]| ==> deltas[1..][i] == deltas[i + 1];
      PutNewKey(deltas[1..], k, e);
      assert deltas == [deltas[0]] + deltas[1..];
    }
  }

  // ---------------------------------------------------------------------
  // computeDeltas

  /** The entry for metric `k`: non-numeric or missing values count as 0,
      and Math.round of the difference of two integers is that difference. */
  function EntryFor(first: Json, latest: Json, k: string): (e: DeltaEntry)
    ensures e.from == MetricValue(first, k) && e.to == MetricValue(latest, k)
    ensures e.delta == e.to - e.from
  {
    var a := MetricValue(first, k);
    var b := MetricValue(latest, k);
    DeltaEntry(a, b, RoundRatio(b - a, 1))
  }

  /** The deltas object after the forEach has visited `keys`. */
  function DeltasFor(first: Json, latest: Json, keys: seq<string>): Deltas {
    if keys == [] then []
    else DeltasFor(first, latest, keys[..|keys| - 1])
         + [(keys[|keys| - 1], EntryFor(first, latest, keys[|keys| - 1]))]
  }

  /** One entry per key, in the keys' order. */
  lemma {:induction false} DeltasForShape(first: Json, latest: Json, keys: seq<string>)
    ensures |DeltasFor(first, latest, keys)| == |keys|
    ensures forall i :: 0 <= i < |keys| ==>
              DeltasFor(first, latest, keys)[i] == (keys[i], EntryFor(first, latest, keys[i]))
  {
    if keys != [] {
      var n := |keys| - 1;
      var init := DeltasFor(first, latest, keys[..n]);
      DeltasForShape(first, latest, keys[..n]);
      assert DeltasFor(first, latest, keys) == init + [(keys[n], EntryFor(first, latest, keys[n]))];
      forall i | 0 <= i < n
        ensures DeltasFor(first, latest, keys)[i] == (keys[i], EntryFor(first, latest, keys[i]))
      {
        assert keys[..n][i] == keys[i];
      }
    }
  }

  /** The forEach body: the i-th key's entry goes at the end. */
  lemma DeltasForStep(first: Json, latest: Json, i: nat)
    requires i < |Keys|
    ensures DeltasFor(first, latest, Keys[..i + 1])
            == DeltasFor(first, latest, Keys[..i]) + [(Keys[i], EntryFor(first, latest, Keys[i]))]
  {
    assert Keys[..i + 1][..i] == Keys[..i];
  }

  /** computeDeltas: the forEach over the canonical keys assigns one entry
      per key; DeltasForShape and EntryFor say what the entries hold. */
  method ComputeDeltas(first: Json, latest: Json) returns (deltas: Deltas)
    ensures deltas == DeltasFor(first, latest, Keys)
  {
    deltas := [];
    for i := 0 to |Keys|
      invariant deltas == DeltasFor(first, latest, Keys[..i])
    {
      var k := Keys[i];
      // { from: a, to: b, delta: Math.round(b - a) }
      var e := EntryFor(first, latest, k);
      PutStep(first, latest, i);
      deltas := Put(deltas, k, e);
    }
    assert Keys[..|Keys|] == Keys;
  }

  /** Before the forEach reaches the i-th key, no entry has that name, so
      the assignment adds it at the end. */
  /** One round of the loop: assigning the next key extends the deltas by its entry. */
  lemma PutStep(first: Json, latest: Json, i: nat)
    requires i < |Keys|
    ensures Put(DeltasFor(first, latest, Keys[..i]), Keys[i], EntryFor(first, latest, Keys[i]))
            == DeltasFor(first, latest, Keys[..i + 1])
  {
    KeyNotYetPresent(first, latest, i);
    PutNewKey(DeltasFor(first, latest, Keys[..i]), Keys[i], EntryFor(first, latest, Keys[i]));
    DeltasForStep(first, latest, i);
  }

  lemma KeyNotYetPresent(first: Json, latest: Json, i: nat)
    requires i < |Keys|
    ensures forall j :: 0 <= j < |DeltasFor(first, latest, Keys[..i])| ==>
              DeltasFor(first, latest, Keys[..i])[j].0 != Keys[i]
  {
    DeltasForShape(first, latest, Keys[..i]);
    KeysDistinct();
  }

  /** computeDeltas yields exactly the six canonical keys, in canonical
      order, each with the two snapshot values (0 when not a number) and
      their difference. */
  lemma ComputedDeltas(first: Json, latest: Json)
    ensures var d := DeltasFor(first, latest, Keys);
            |d| == |Keys| &&
            forall i :: 0 <= i < |Keys| ==>
              && d[i].0 == Keys[i]
              && d[i].1.from == MetricValue(first, Keys[i])
              && d[i].1.to == MetricValue(latest, Keys[i])
              && d[i].1.delta == d[i].1.to - d[i].1.from
  {
    DeltasForShape(first, latest, Keys);
  }

  /** Swapping the snapshots swaps from and to and negates every delta. */
  lemma DeltasAntisymmetric(a: Json, b: Json)
    ensures |DeltasFor(a, b, Keys)| == |DeltasFor(b, a, Keys)| == |Keys|
    ensures forall i :: 0 <= i < |Keys| ==>
              && DeltasFor(b, a, Keys)[i].1.from == DeltasFor(a, b, Keys)[i].1.to
              && DeltasFor(b, a, Keys)[i].1.to == DeltasFor(a, b, Keys)[i].1.from
              && DeltasFor(b, a, Keys)[i].1.delta == -DeltasFor(a, b, Keys)[i].1.delta
  {
    DeltasForShape(a, b, Keys);
    DeltasForShape(b, a, Keys);
  }

  /** Between two score sets in [0, 100], every delta lies in [-100, 100]. */
  lemma ScoreDeltasBounded(s1: InsightEngine.Scores, s2: InsightEngine.Scores)
    requires InsightEngine.InRange(s1) && InsightEngine.InRange(s2)
    ensures var d := DeltasFor(InsightEngine.ScoresObject(s1), InsightEngine.ScoresObject(s2), Keys);
            |d| == |Keys| &&
            forall i :: 0 <= i < |Keys| ==>
              d[i].1.from == InsightEngine.Values(s1)[i] && d[i].1.to == InsightEngine.Values(s2)[i]
              && -100 <= d[i].1.delta <= 100
  {
    DeltasForShape(InsightEngine.ScoresObject(s1), InsightEngine.ScoresObject(s2), Keys);
  }

  /** The example of a revision that raises problem validation from 50 to 75
      and lowers market maturity from 50 to 25. */
  lemma ComputeDeltasExample(first: Json, latest: Json)
    requires first == JObj([Field(ProblemValidation, JNum(50)), Field(MarketMaturity, JNum(50))])
    requires latest == JObj([Field(ProblemValidation, JNum(75)), Field(MarketMaturity, JNum(25))])
    ensures var d := DeltasFor(first, latest, Keys);
            && |d| == 6
            && d[0] == (ProblemValidation, DeltaEntry(50, 75, 25))
            && d[1] == (MarketMaturity, DeltaEntry(50, 25, -25))
            && d[2] == (CompetitionDensity, DeltaEntry(0, 0, 0))
  {
    var d := DeltasFor(first, latest, Keys);
    DeltasForShape(first, latest, Keys);
    ExampleEntries(first, latest);
    assert d[0] == (Keys[0], EntryFor(first, latest, Keys[0]));
    assert d[1] == (Keys[1], EntryFor(first, latest, Keys[1]));
    assert d[2] == (Keys[2], EntryFor(first, latest, Keys[2]));
  }

  lemma ExampleEntries(first: Json, latest: Json)
    requires first == JObj([Field(ProblemValidation, JNum(50)), Field(MarketMaturity, JNum(50))])
    requires latest == JObj([Field(ProblemValidation, JNum(75)), Field(MarketMaturity, JNum(25))])
    ensures EntryFor(first, latest, ProblemValidation) == DeltaEntry(50, 75, 25)
    ensures EntryFor(first, latest, MarketMaturity) == DeltaEntry(50, 25, -25)
    ensures EntryFor(first, latest, CompetitionDensity) == DeltaEntry(0, 0, 0)
  {
    assert ProblemValidation[0] != MarketMaturity[0];
    assert FindField(first.fields, MarketMaturity) == Some(JNum(50));
    assert FindField(latest.fields, MarketMaturity) == Some(JNum(25));
    assert ProblemValidation[0] != CompetitionDensity[0] && MarketMaturity[0] != CompetitionDensity[0];
    assert FindField(first.fields, CompetitionDensity) == None;
    assert FindField(latest.fields, CompetitionDensity) == None;
  }

  // ---------------------------------------------------------------------
  // explainDeltas

  const NoChange := "No measurable changes between revisions."

  /** The sentence for one changed metric; the magnitude is printed without sign. */
  function Sentence(name: string, e: DeltaEntry): string {
    name + (if e.delta > 0 then " improved by " else " decreased by ")
    + IntToString(Abs(e.delta)) + " points (from " + IntToString(e.from)
    + " to " + IntToString(e.to) + ")."
  }

  /** A key whose entry is absent or has delta 0 contributes no sentence. */
  predicate Unchanged(deltas: Deltas, k: string) {
    Lookup(deltas, k).None? || Lookup(deltas, k).value.delta == 0
  }

  /** The lines pushed by the forEach over `keys`. */
  function ChangeLines(deltas: Deltas, keys: seq<string>): seq<string> {
    if keys == [] then []
    else
      var init := ChangeLines(deltas, keys[..|keys| - 1]);
      var k := keys[|keys| - 1];
      if Unchanged(deltas, k) then init else init + [LineFor(deltas, k)]
  }

  /** There is no line exactly when every key is unchanged. */
  lemma {:induction false} ChangeLinesEmptyIff(deltas: Deltas, keys: seq<string>)
    ensures ChangeLines(deltas, keys) == [] <==> forall j :: 0 <= j < |keys| ==> Unchanged(deltas, keys[j])
  {
    if keys != [] {
      var init := keys[..|keys| - 1];
      ChangeLinesEmptyIff(deltas, init);
      assert forall j :: 0 <= j < |init| ==> init[j] == keys[j];
    }
  }

  /** The sentence for a changed key `k`. */
  function LineFor(deltas: Deltas, k: string): string
    requires !Unchanged(deltas, k)
  {
    Sentence(LabelOr(k), Lookup(deltas, k).value)
  }

  /** The lines for a prefix of the keys come first. */
  lemma ChangeLinesStep(deltas: Deltas, keys: seq<string>)
    requires keys != []
    ensures var n := |keys| - 1;
            ChangeLines(deltas, keys) ==
              ChangeLines(deltas, keys[..n]) + (if Unchanged(deltas, keys[n]) then [] else [LineFor(deltas, keys[n])])
  {
  }

  /** Every changed key gets its sentence. */
  lemma {:induction false} ChangedKeyHasLine(deltas: Deltas, keys: seq<string>, j: nat)
    requires j < |keys| && !Unchanged(deltas, keys[j])
    ensures LineFor(deltas, keys[j]) in ChangeLines(deltas, keys)
  {
    var n := |keys| - 1;
    if j < n {
      assert keys[..n][j] == keys[j];
      ChangedKeyHasLine(deltas, keys[..n], j);
      LineKept(deltas, keys, LineFor(deltas, keys[j]));
    } else {
      LastLine(deltas, keys);
    }
  }

  lemma LastLine(deltas: Deltas, keys: seq<string>)
    requires keys != [] && !Unchanged(deltas, keys[|keys| - 1])
    ensures LineFor(deltas, keys[|keys| - 1]) in ChangeLines(deltas, keys)
  {
    var n := |keys| - 1;
    ChangeLinesStep(deltas, keys);
    var lines := ChangeLines(deltas, keys);
    assert lines == ChangeLines(deltas, keys[..n]) + [LineFor(deltas, keys[n])];
    assert lines[|lines| - 1] == LineFor(deltas, keys[n]);
  }

  lemma LineKept(deltas: Deltas, keys: seq<string>, line: string)
    requires keys != [] && line in ChangeLines(deltas, keys[..|keys| - 1])
    ensures line in ChangeLines(deltas, keys)
  {
    ChangeLinesStep(deltas, keys);
  }

  /** Every line is the sentence of a changed key. */
  lemma {:induction false} LineHasChangedKey(deltas: Deltas, keys: seq<string>, line: string)
    requires line in ChangeLines(deltas, keys)
    ensures exists j :: 0 <= j < |keys| && !Unchanged(deltas, keys[j]) && line == LineFor(deltas, keys[j])
  {
    var n := |keys| - 1;
    var init := keys[..n];
    if line in ChangeLines(deltas, init) {
      LineHasChangedKey(deltas, init, line);
      var j :| 0 <= j < |init| && !Unchanged(deltas, init[j]) && line == LineFor(deltas, init[j]);
      assert init[j] == keys[j];
    } else {
      assert line == LineFor(deltas, keys[n]);
    }
  }

  /** The index of the first entry of largest |delta|: the head of the
      stable descending sort of Object.entries(deltas). */
  function TopIndex(deltas: Deltas): (t: nat)
    requires deltas != []
    ensures t < |deltas|
    ensures forall j :: 0 <= j < |deltas| ==> Abs(deltas[j].1.delta) <= Abs(deltas[t].1.delta)
    ensures forall j :: 0 <= j < t ==> Abs(deltas[j].1.delta) < Abs(deltas[t].1.delta)
  {
    if |deltas| == 1 then 0
    else
      var init := deltas[..|deltas| - 1];
      var t := TopIndex(init);
      assert forall j :: 0 <= j < |init| ==> init[j] == deltas[j];
      if Abs(deltas[|deltas| - 1].1.delta) > Abs(deltas[t].1.delta) then |deltas| - 1 else t
  }

  /** The closing advice about the entry named `key`. */
  function Advice(key: string, e: DeltaEntry): string {
    if e.delta > 0 then
      "Good progress on " + LabelOr(key) + ". Consider doubling down on what caused this improvement."
    else
      "Attention: " + LabelOr(key) + " saw the largest drop. Re-check the proposed changes for clarity or feasibility."
  }

  lemma {:induction false} LinesNeedEntries(deltas: Deltas, keys: seq<string>)
    ensures ChangeLines(deltas, keys) != [] ==> deltas != []
  {
    ChangeLinesEmptyIff(deltas, keys);
  }

  /** explainDeltas as a value. */
  function Explanation(deltas: Deltas): string {
    var lines := ChangeLines(deltas, Keys);
    LinesNeedEntries(deltas, Keys);
    if lines == [] then NoChange
    else
      var t := TopIndex(deltas);
      Join(lines, " ") + " " + Advice(deltas[t].0, deltas[t].1)
  }

  /** explainDeltas: one loop pushes the change lines in canonical order,
      a second picks the head of the stable sort by |delta|. */
  method ExplainDeltas(deltas: Deltas) returns (text: string)
    ensures text == Explanation(deltas)
  {
    var lines: seq<string> := [];
    for i := 0 to |Keys|
      invariant lines == ChangeLines(deltas, Keys[..i])
    {
      var k := Keys[i];
      assert Keys[..i + 1][..i] == Keys[..i];
      var d := Lookup(deltas, k);
      if d.None? {
        continue;
      }
      if d.value.delta == 0 {
        continue;
      }
      lines := lines + [LineFor(deltas, k)];
    }
    assert Keys[..|Keys|] == Keys;
    if lines == [] {
      return NoChange;
    }
    LinesNeedEntries(deltas, Keys);
    var top := TopEntry(deltas);
    text := Join(lines, " ") + " " + Advice(deltas[top].0, deltas[top].1);
  }

  /** The advice ends in "improvement." or "feasibility.", never like the
      no-change sentence. */
  lemma AdviceEnding(key: string, e: DeltaEntry)
    ensures var a := Advice(key, e);
            |a| >= 2 && (a[|a| - 2] == 't' || a[|a| - 2] == 'y')
  {
    var good := ". Consider doubling down on what caused this improvement.";
    var bad := " saw the largest drop. Re-check the proposed changes for clarity or feasibility.";
    var a := Advice(key, e);
    if e.delta > 0 {
      assert a == ("Good progress on " + LabelOr(key)) + good;
      assert a[|a| - 2] == good[|good| - 2];
    } else {
      assert a == ("Attention: " + LabelOr(key)) + bad;
      assert a[|a| - 2] == bad[|bad| - 2];
    }
  }

  /** The two shapes of the explanation. */
  lemma ExplanationShape(deltas: Deltas)
    ensures ChangeLines(deltas, Keys) == [] ==> Explanation(deltas) == NoChange
    ensures ChangeLines(deltas, Keys) != [] ==>
              deltas != [] &&
              Explanation(deltas) == Join(ChangeLines(deltas, Keys), " ") + " "
                                     + Advice(deltas[TopIndex(deltas)].0, deltas[TopIndex(deltas)].1)
  {
    LinesNeedEntries(deltas, Keys);
  }

  /** The entry the advice is about. explainDeltas sorts the entries by
      descending |delta| and takes the head; a stable sort puts first the
      earliest entry of largest |delta|, which this scan finds. */
  method TopEntry(deltas: Deltas) returns (top: nat)
    requires deltas != []
    ensures top == TopIndex(deltas)
  {
    top := 0;
    for j := 1 to |deltas|
      invariant top == TopIndex(deltas[..j])
    {
      assert deltas[..j + 1][..j] == deltas[..j];
      if Abs(deltas[j].1.delta) > Abs(deltas[top].1.delta) {
        top := j;
      }
    }
    assert deltas[..|deltas|] == deltas;
  }

  /** The fixed sentence comes back exactly when every canonical metric is
      missing or unchanged. */
  lemma NoChangeExactly(deltas: Deltas)
    ensures Explanation(deltas) == NoChange <==> forall j :: 0 <= j < |Keys| ==> Unchanged(deltas, Keys[j])
  {
    ChangeLinesEmptyIff(deltas, Keys);
    ExplanationShape(deltas);
    var lines := ChangeLines(deltas, Keys);
    if lines != [] {
      var t := TopIndex(deltas);
      var advice := Advice(deltas[t].0, deltas[t].1);
      AdviceEnding(deltas[t].0, deltas[t].1);
      var text := Join(lines, " ") + " " + advice;
      assert text[|text| - 2] == advice[|advice| - 2];
      assert NoChange[|NoChange| - 2] == 's';
    }
  }

  /** When some canonical metric changed, the entry the advice names (the
      first of largest |delta|, see TopIndex) did change, so the advice is
      encouragement exactly when it improved. */
  lemma TopChangeIsNonZero(deltas: Deltas)
    requires exists j :: 0 <= j < |Keys| && !Unchanged(deltas, Keys[j])
    ensures deltas != [] && deltas[TopIndex(deltas)].1.delta != 0
  {
    var j :| 0 <= j < |Keys| && !Unchanged(deltas, Keys[j]);
    var e := Lookup(deltas, Keys[j]).value;
    LookupFound(deltas, Keys[j]);
    var i :| 0 <= i < |deltas| && deltas[i] == (Keys[j], e);
    var t := TopIndex(deltas);
    assert Abs(deltas[i].1.delta) <= Abs(deltas[t].1.delta);
  }

  /** Comparing a snapshot with itself explains that nothing changed. */
  lemma SelfComparisonIsNoChange(insights: Json)
    ensures Explanation(DeltasFor(insights, insights, Keys)) == NoChange
  {
    var d := DeltasFor(insights, insights, Keys);
    DeltasForShape(insights, insights, Keys);
    KeysDistinct();
    forall j | 0 <= j < |Keys|
      ensures Unchanged(d, Keys[j])
    {
      LookupFirst(d, j);
    }
    NoChangeExactly(d);
  }

  lemma {:induction false} LookupFirst(deltas: Deltas, i: nat)
    requires i < |deltas|
    requires forall j :: 0 <= j < i ==> deltas[j].0 != deltas[i].0
    ensures Lookup(deltas, deltas[i].0) == Some(deltas[i].1)
  {
    if i > 0 {
      LookupFirst(deltas[1..], i - 1);
    }
  }
}
