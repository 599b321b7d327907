/** The decisions the dashboard takes on top of the pipeline: the structural gate
    on the uploaded column names, the average risk, the sentiment badge and the
    governance plan. */
module Dashboard {
  import opened Text
  import opened Stats

  const ProjectVectors: seq<string> := ["sprint", "task", "hour", "capacity", "effort", "deadline"]

  /** `"".join(columns).lower()`: the column names joined with no separator and
      lower-cased, which is the lower-cased names joined. */
  function ColumnText(columns: seq<string>): (text: string)
    ensures text == Join(seq(|columns|, j requires 0 <= j < |columns| => Lower(columns[j])))
    ensures |text| == |Join(columns)|
    ensures forall i :: 0 <= i < |text| ==> !('A' <= text[i] <= 'Z')
  {
    LowerJoin(columns);
    Lower(Join(columns))
  }

  /** The gate passes when some project keyword occurs in the column text. Every
      keyword has at least four letters, so names that join to fewer characters are
      always turned away. */
  predicate LooksLikeProjectData(columns: seq<string>)
    ensures LooksLikeProjectData(columns) ==> |Join(columns)| >= 4
  {
    assert forall k :: 0 <= k < |ProjectVectors| ==> |ProjectVectors[k]| >= 4;
    exists k :: 0 <= k < |ProjectVectors| && IsSubstring(ProjectVectors[k], ColumnText(columns))
  }

  /** Lower-casing the joined names is joining the lower-cased names. */
  lemma {:induction false} LowerJoin(columns: seq<string>)
    ensures Lower(Join(columns)) == Join(seq(|columns|, j requires 0 <= j < |columns| => Lower(columns[j])))
  {
    var lowered := seq(|columns|, j requires 0 <= j < |columns| => Lower(columns[j]));
    if columns != [] {
      var init := columns[..|columns| - 1];
      LowerJoin(init);
      LowerAppend(Join(init), columns[|columns| - 1]);
      assert lowered[..|lowered| - 1] == seq(|init|, j requires 0 <= j < |init| => Lower(init[j]));
    }
  }

  /** Names that agree once lower-cased pass or fail the gate together: the gate
      ignores case. */
  lemma GateIgnoresCase(columns1: seq<string>, columns2: seq<string>)
    requires |columns1| == |columns2|
    requires forall j :: 0 <= j < |columns1| ==> Lower(columns1[j]) == Lower(columns2[j])
    ensures ColumnText(columns1) == ColumnText(columns2)
    ensures LooksLikeProjectData(columns1) <==> LooksLikeProjectData(columns2)
  {
    LowerJoin(columns1);
    LowerJoin(columns2);
    assert seq(|columns1|, j requires 0 <= j < |columns1| => Lower(columns1[j]))
        == seq(|columns2|, j requires 0 <= j < |columns2| => Lower(columns2[j]));
  }

  /** A part of the joined text starts where the previous names end. */
  lemma {:induction false} JoinSlice(columns: seq<string>, j: nat)
    requires j < |columns|
    ensures var start := |Join(columns[..j])|;
      start + |columns[j]| <= |Join(columns)| && Join(columns)[start..start + |columns[j]|] == columns[j]
  {
    var init := columns[..|columns| - 1];
    if j < |init| {
      assert init[..j] == columns[..j];
      JoinSlice(init, j);
      var start := |Join(columns[..j])|;
      assert Join(columns)[start..start + |columns[j]|] == Join(init)[start..start + |columns[j]|];
    } else {
      assert columns[..j] == init;
    }
  }

  /** A keyword inside any one column name, in any case, lets the data through. */
  lemma KeywordInColumnPasses(columns: seq<string>, j: nat, k: nat)
    requires j < |columns| && k < |ProjectVectors|
    requires IsSubstring(ProjectVectors[k], Lower(columns[j]))
    ensures LooksLikeProjectData(columns)
  {
    var lowered := seq(|columns|, i requires 0 <= i < |columns| => Lower(columns[i]));
    LowerJoin(columns);
    JoinSlice(lowered, j);
    var start := |Join(lowered[..j])|;
    SubstringOfSlice(ProjectVectors[k], Join(lowered), start, start + |lowered[j]|);
  }

  /** A column named `Sprint_ID` passes. */
  lemma CapitalisedSprintColumnPasses()
    ensures LooksLikeProjectData(["Sprint_ID"])
  {
    var text := ColumnText(["Sprint_ID"]);
    assert Join(["Sprint_ID"]) == "Sprint_ID";
    assert text[0..6] == "sprint";
    assert OccursAt(ProjectVectors[0], text, 0);
    assert IsSubstring(ProjectVectors[0], text);
  }

  /** The names are joined with no separator, so a keyword split across two
      adjacent names, in any case, lets the data through. */
  lemma KeywordAcrossColumnsPasses(columns: seq<string>, j: nat, k: nat)
    requires j + 1 < |columns| && k < |ProjectVectors|
    requires IsSubstring(ProjectVectors[k], Lower(columns[j]) + Lower(columns[j + 1]))
    ensures LooksLikeProjectData(columns)
  {
    var lowered := seq(|columns|, i requires 0 <= i < |columns| => Lower(columns[i]));
    LowerJoin(columns);
    JoinSlice(lowered, j);
    JoinSlice(lowered, j + 1);
    assert lowered[..j + 1][..j] == lowered[..j];
    var whole := Join(lowered);
    var start := |Join(lowered[..j])|;
    var mid := start + |lowered[j]|;
    var end := mid + |lowered[j + 1]|;
    assert whole[start..end] == whole[start..mid] + whole[mid..end];
    SubstringOfSlice(ProjectVectors[k], whole, start, end);
  }

  /** `Spr` followed by `int_no` reads as `sprint`. */
  lemma SplitSprintColumnsPass()
    ensures LooksLikeProjectData(["Spr", "int_no"])
  {
    var pair := Lower("Spr") + Lower("int_no");
    assert pair[0..6] == "sprint";
    assert OccursAt(ProjectVectors[0], pair, 0);
    KeywordAcrossColumnsPasses(["Spr", "int_no"], 0, 0);
  }

  /** A keyword whose first letter occurs nowhere it could start is absent. */
  lemma FirstLetterAbsent(needle: string, haystack: string)
    requires |needle| > 0
    requires forall i :: 0 <= i <= |haystack| - |needle| ==> haystack[i] != needle[0]
    ensures !IsSubstring(needle, haystack)
  {
    forall i | 0 <= i <= |haystack| ensures !OccursAt(needle, haystack, i) {
      if i <= |haystack| - |needle| {
        assert haystack[i..i + |needle|][0] != needle[0];
      }
    }
  }

  /** Column names that carry no project keyword are turned away. */
  lemma UnrelatedColumnsRejected()
    ensures !LooksLikeProjectData(["Name", "Age"])
  {
    var text := ColumnText(["Name", "Age"]);
    assert Join(["Name", "Age"]) == "NameAge" by {
      assert ["Name", "Age"][..1] == ["Name"];
      assert Join(["Name"]) == "Name" by { assert ["Name"][..0] == []; }
    }
    assert text == "nameage";
    forall k | 0 <= k < |ProjectVectors| ensures !IsSubstring(ProjectVectors[k], text) {
      FirstLetterAbsent(ProjectVectors[k], text);
    }
  }

  /** `avg_risk`: the mean of the `overload_score` column, which lies in [0, 1]
      when every score does. */
  function AverageRisk(overloadScores: seq<real>): (avg: real)
    requires |overloadScores| > 0
    ensures AllWithin(overloadScores, 0.0, 1.0) ==> 0.0 <= avg <= 1.0
  {
    if AllWithin(overloadScores, 0.0, 1.0) then MeanBounds(overloadScores, 0.0, 1.0); Mean(overloadScores)
    else Mean(overloadScores)
  }

  datatype Badge = Stable | Volatile

  /** The sentiment badge: STABLE only for a strictly positive polarity. */
  function SentimentBadge(sentiment: real): (badge: Badge)
    ensures badge == Stable <==> sentiment > 0.0
  {
    if sentiment > 0.0 then Stable else Volatile
  }

  datatype Plan = HighRiskPlan | ModeratePlan | OptimalPlan

  /** The governance plan: overload above 0.6 decides first, then a negative
      sentiment; anything else is the optimal state. */
  function SelectPlan(avgRisk: real, sentiment: real): (plan: Plan)
    ensures plan == HighRiskPlan <==> avgRisk > 0.6
    ensures plan == ModeratePlan <==> avgRisk <= 0.6 && sentiment < 0.0
    ensures plan == OptimalPlan <==> avgRisk <= 0.6 && sentiment >= 0.0
  {
    if avgRisk > 0.6 then HighRiskPlan
    else if sentiment < 0.0 then ModeratePlan
    else OptimalPlan
  }

  /** A neutral text shows the VOLATILE badge yet still gets the optimal plan. */
  lemma NeutralSentimentIsVolatileButOptimal(avgRisk: real)
    requires avgRisk <= 0.6
    ensures SentimentBadge(0.0) == Volatile
    ensures SelectPlan(avgRisk, 0.0) == OptimalPlan
  {
  }
}
