/** The six insight metrics, in the canonical order every core file uses,
    and their display labels. */
module Metrics {
  import opened Js

  const ProblemValidation := "problemValidationScore"
  const MarketMaturity := "marketMaturity"
  const CompetitionDensity := "competitionDensity"
  const DifferentiationPotential := "differentiationPotential"
  const TechnicalFeasibility := "technicalFeasibility"
  const RiskAndUncertainty := "riskAndUncertainty"

  /** The canonical key order (the `keys` / `order` arrays). */
  const Keys: seq<string> := [ProblemValidation, MarketMaturity, CompetitionDensity,
                              DifferentiationPotential, TechnicalFeasibility, RiskAndUncertainty]

  /** The `labels` object. */
  const Labels: map<string, string> := map[
    ProblemValidation := "Problem validation",
    MarketMaturity := "Market maturity",
    CompetitionDensity := "Competition density",
    DifferentiationPotential := "Differentiation",
    TechnicalFeasibility := "Technical feasibility",
    RiskAndUncertainty := "Risk / Uncertainty"]

  /** `labels[k] || k` */
  function LabelOr(k: string): (r: string)
    ensures k in Labels ==> r == Labels[k]
    ensures k !in Labels ==> r == k
  {
    if k in Labels then Labels[k] else k
  }

  /** `labels[Keys[i]]`, the label of the i-th canonical metric. */
  function LabelAt(i: nat): (r: string)
    requires i < |Keys|
    ensures r == Labels[Keys[i]]
  {
    Labels[Keys[i]]
  }

  lemma KeysDistinct()
    ensures |Keys| == 6
    ensures forall i, j :: 0 <= i < j < |Keys| ==> Keys[i] != Keys[j]
    ensures forall i :: 0 <= i < |Keys| ==> Keys[i] in Labels
  {
  }

  /** The six labels are pairwise different (their first letters already are). */
  lemma LabelsDistinct()
    ensures forall i, j :: 0 <= i < j < |Keys| ==> LabelAt(i) != LabelAt(j)
  {
    assert LabelAt(0)[0] == 'P' && LabelAt(1)[0] == 'M' && LabelAt(2)[0] == 'C';
    assert LabelAt(3)[0] == 'D' && LabelAt(4)[0] == 'T' && LabelAt(5)[0] == 'R';
  }

  /** `insights && typeof insights[k] === 'number' ? insights[k] : 0`:
      the metric when the snapshot holds a number under `k`, else 0. */
  function MetricValue(insights: Json, k: string): (r: int)
    ensures (Get(insights, k).Some? && Get(insights, k).value.JNum?) ==> r == Get(insights, k).value.n
    ensures !(Get(insights, k).Some? && Get(insights, k).value.JNum?) ==> r == 0
  {
    match Get(insights, k)
    case Some(JNum(n)) => n
    case _ => 0
  }
}
