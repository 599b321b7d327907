/** The combined risk table: one row per sprint of the overload report, each
    carrying the mean requirement ambiguity and a per-metric threshold label. */
module CombinedData {
  import opened Stats
  import opened SprintAnalysis

  datatype RiskLevel = Low | Medium | High

  /** The order Low < Medium < High. */
  function Rank(level: RiskLevel): nat {
    match level
    case Low => 0
    case Medium => 1
    case High => 2
  }

  /** `risk_label`: High above 0.5 ambiguity or 0.6 overload, else Medium above
      0.3 ambiguity or 0.4 overload, else Low. */
  function RiskLabel(ambiguity: real, overload: real): (level: RiskLevel)
    ensures level == High <==> ambiguity > 0.5 || overload > 0.6
    ensures level == Medium <==> !(ambiguity > 0.5 || overload > 0.6) && (ambiguity > 0.3 || overload > 0.4)
    ensures level == Low <==> ambiguity <= 0.3 && overload <= 0.4
  {
    if ambiguity > 0.5 || overload > 0.6 then High
    else if ambiguity > 0.3 || overload > 0.4 then Medium
    else Low
  }

  /** Raising either score never lowers the label. */
  lemma RiskLabelMonotone(ambiguity1: real, overload1: real, ambiguity2: real, overload2: real)
    requires ambiguity1 <= ambiguity2 && overload1 <= overload2
    ensures Rank(RiskLabel(ambiguity1, overload1)) <= Rank(RiskLabel(ambiguity2, overload2))
  {
  }

  /** A table with the columns `sprint`, `ambiguity_score`, `overload_score` and
      `risk_level`; the last is empty until a labeller has been applied. */
  class RiskFrame {
    var sprint: seq<SprintId>
    var ambiguityScore: seq<real>
    var overloadScore: seq<real>
    var riskLevel: seq<RiskLevel>

    ghost predicate Valid()
      reads this
    {
      |ambiguityScore| == |sprint| && |overloadScore| == |sprint|
    }

    ghost predicate Labelled()
      reads this
    {
      |riskLevel| == |sprint|
    }

    /** A table built from its three score columns, with no `risk_level` yet. */
    constructor (sprint: seq<SprintId>, ambiguityScore: seq<real>, overloadScore: seq<real>)
      requires |ambiguityScore| == |sprint| && |overloadScore| == |sprint|
      ensures Valid()
      ensures this.sprint == sprint && this.ambiguityScore == ambiguityScore
      ensures this.overloadScore == overloadScore && riskLevel == []
    {
      this.sprint := sprint;
      this.ambiguityScore := ambiguityScore;
      this.overloadScore := overloadScore;
      riskLevel := [];
    }

    /** `frame['risk_level'] = frame.apply(label, axis=1)`: the column is replaced by
        the label of every row; the other columns stay as they are. */
    method ApplyLabels(labeller: (real, real) -> RiskLevel)
      requires Valid()
      modifies this
      ensures Valid() && Labelled()
      ensures sprint == old(sprint) && ambiguityScore == old(ambiguityScore) && overloadScore == old(overloadScore)
      ensures forall i :: 0 <= i < |sprint| ==> riskLevel[i] == labeller(ambiguityScore[i], overloadScore[i])
    {
      var ambiguity, overload := ambiguityScore, overloadScore;
      var column: seq<RiskLevel> := [];
      for i := 0 to |sprint|
        invariant |column| == i
        invariant forall j :: 0 <= j < i ==> column[j] == labeller(ambiguity[j], overload[j])
      {
        column := column + [labeller(ambiguity[i], overload[i])];
      }
      riskLevel := column;
    }
  }

  function SprintColumn(report: seq<SprintMetrics>): (column: seq<SprintId>)
    ensures |column| == |report|
  {
    seq(|report|, i requires 0 <= i < |report| => report[i].sprint)
  }

  function OverloadColumn(report: seq<SprintMetrics>): (column: seq<real>)
    ensures |column| == |report|
  {
    seq(|report|, i requires 0 <= i < |report| => report[i].overloadScore)
  }

  /** A scalar assigned to a column: the same value in every row. */
  function Broadcast(x: real, n: nat): (column: seq<real>)
    ensures |column| == n
    ensures forall i :: 0 <= i < n ==> column[i] == x
  {
    seq(n, _ => x)
  }

  /** `create_combined_dataset`: the sprints and overload scores of the report, the
      mean ambiguity on every row, and the threshold label of each row. */
  method CreateCombinedDataset(ambiguityScores: seq<real>, overload: seq<SprintMetrics>) returns (combined: RiskFrame)
    requires |ambiguityScores| > 0
    ensures fresh(combined) && combined.Valid() && combined.Labelled()
    ensures |combined.sprint| == |overload|
    ensures forall i :: 0 <= i < |overload| ==>
      && combined.sprint[i] == overload[i].sprint
      && combined.ambiguityScore[i] == Mean(ambiguityScores)
      && combined.overloadScore[i] == overload[i].overloadScore
      && combined.riskLevel[i] == RiskLabel(Mean(ambiguityScores), overload[i].overloadScore)
  {
    var avgAmbiguity := Mean(ambiguityScores);
    combined := new RiskFrame(SprintColumn(overload), Broadcast(avgAmbiguity, |overload|), OverloadColumn(overload));
    combined.ApplyLabels(RiskLabel);
  }
}
