/** The hybrid classifier: a 0.6/0.4 composite of ambiguity and overload with the
    thresholds 0.7 and 0.4, written over the `risk_level` column of the combined table. */
module HybridRiskModel {
  import opened Stats
  import opened SprintAnalysis
  import opened RequirementAnalysis
  import opened CombinedData

  function Composite(ambiguity: real, overload: real): (score: real)
    ensures 0.0 <= ambiguity <= 1.0 && 0.0 <= overload <= 1.0 ==> 0.0 <= score <= 1.0
  {
    ambiguity * 0.6 + overload * 0.4
  }

  /** `classify`: High above 0.7, Medium above 0.4, Low otherwise. */
  function Classify(ambiguity: real, overload: real): (level: RiskLevel)
    ensures level == High <==> Composite(ambiguity, overload) > 0.7
    ensures level == Medium <==> 0.4 < Composite(ambiguity, overload) <= 0.7
    ensures level == Low <==> Composite(ambiguity, overload) <= 0.4
  {
    var score := Composite(ambiguity, overload);
    if score > 0.7 then High
    else if score > 0.4 then Medium
    else Low
  }

  /** Raising either score never lowers the label. */
  lemma ClassifyMonotone(ambiguity1: real, overload1: real, ambiguity2: real, overload2: real)
    requires ambiguity1 <= ambiguity2 && overload1 <= overload2
    ensures Rank(Classify(ambiguity1, overload1)) <= Rank(Classify(ambiguity2, overload2))
  {
  }

  /** Ambiguity 0.8 with overload 0.2 gives the composite 0.56, a Medium risk, where
      the per-metric rule of the combined table says High. */
  lemma WorkedExample()
    ensures Composite(0.8, 0.2) == 0.56
    ensures Classify(0.8, 0.2) == Medium
    ensures RiskLabel(0.8, 0.2) == High
  {
  }

  /** `train_hybrid_model`: the `risk_level` column is overwritten with `classify`;
      the row count, the sprints and both scores are untouched. */
  method TrainHybridModel(df: RiskFrame)
    requires df.Valid()
    modifies df
    ensures df.Valid() && df.Labelled()
    ensures df.sprint == old(df.sprint)
    ensures df.ambiguityScore == old(df.ambiguityScore) && df.overloadScore == old(df.overloadScore)
    ensures forall i :: 0 <= i < |df.sprint| ==> df.riskLevel[i] == Classify(df.ambiguityScore[i], df.overloadScore[i])
  {
    df.ApplyLabels(Classify);
  }

  /** The two steps in sequence: the label the combined table assigned is replaced,
      so only the composite rule reaches the output. */
  method RunHybridModel(ambiguityScores: seq<real>, overload: seq<SprintMetrics>) returns (df: RiskFrame)
    requires |ambiguityScores| > 0
    ensures fresh(df) && df.Valid() && df.Labelled()
    ensures |df.sprint| == |overload|
    ensures forall i :: 0 <= i < |overload| ==>
      && df.sprint[i] == overload[i].sprint
      && df.ambiguityScore[i] == Mean(ambiguityScores)
      && df.overloadScore[i] == overload[i].overloadScore
      && df.riskLevel[i] == Classify(Mean(ambiguityScores), overload[i].overloadScore)
  {
    df := CreateCombinedDataset(ambiguityScores, overload);
    TrainHybridModel(df);
  }

  /** Both scores of every output row lie in [0, 1] whenever no task has negative
      actual hours, so the composite does too. */
  lemma {:induction false} PipelineCompositeInRange(
    requirements: seq<(seq<string>, nat, nat)>, df: seq<Task>, k: nat)
    requires |requirements| > 0
    requires forall i :: 0 <= i < |df| ==> df[i].actualHours >= 0.0
    requires k < |OverloadReport(df)|
    ensures var scores := AmbiguityScores(requirements);
      0.0 <= Composite(Mean(scores), OverloadReport(df)[k].overloadScore) <= 1.0
  {
    var scores := AmbiguityScores(requirements);
    MeanBounds(scores, 0.0, 1.0);
    var s := Sprints(df)[k];
    var rows := RowsOf(df, s);
    MetricsBounds(s, rows);
    ActualHoursNonNegative(df, s);
  }

  /** The per-requirement scores, one per line of the requirements file. */
  function AmbiguityScores(requirements: seq<(seq<string>, nat, nat)>): (scores: seq<real>)
    ensures |scores| == |requirements|
    ensures AllWithin(scores, 0.0, 1.0)
  {
    seq(|requirements|, i requires 0 <= i < |requirements| =>
      AmbiguityScore(AnalyzeRequirement(requirements[i].0, requirements[i].1, requirements[i].2)))
  }

  lemma {:induction false} ActualHoursNonNegative(df: seq<Task>, s: SprintId)
    requires forall i :: 0 <= i < |df| ==> df[i].actualHours >= 0.0
    ensures ActualHours(RowsOf(df, s)) >= 0.0
  {
    if df != [] {
      var init := df[..|df| - 1];
      ActualHoursNonNegative(init, s);
      var prev := RowsOf(init, s);
      if df[|df| - 1].sprint == s {
        assert RowsOf(df, s)[..|RowsOf(df, s)| - 1] == prev;
      } else {
        assert RowsOf(df, s) == prev;
      }
    }
  }
}
