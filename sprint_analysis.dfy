/** The sprint overload analyser: per-sprint carry-over rate, largest per-assignee
    load, hours ratio and a capped overload score, computed from the task table. */
module SprintAnalysis {
  import opened Stats

  type SprintId = string

  /** One row of the task table. */
  datatype Task = Task(sprint: SprintId, assignee: string, status: string, estimatedHours: real, actualHours: real)

  /** One row of the overload report. */
  datatype SprintMetrics = SprintMetrics(
    sprint: SprintId,
    carryOverRate: real,
    maxTasksPerDev: nat,
    hoursRatio: real,
    overloadScore: real)

  const Done: string := "done"

  function Max(a: nat, b: nat): nat {
    if a < b then b else a
  }

  predicate Distinct<T(==)>(xs: seq<T>) {
    forall i, j :: 0 <= i < j < |xs| ==> xs[i] != xs[j]
  }

  predicate HasSprint(df: seq<Task>, s: SprintId) {
    exists i :: 0 <= i < |df| && df[i].sprint == s
  }

  // ---------------------------------------------------------------------------
  // Specification functions (one per pandas expression of `compute_overload_metrics`)
  // ---------------------------------------------------------------------------

  /** `df['sprint'].unique()`: every sprint id once, in order of first appearance. */
  function Sprints(df: seq<Task>): (ss: seq<SprintId>)
    ensures forall s :: s in ss <==> HasSprint(df, s)
    ensures Distinct(ss)
  {
    if df == [] then []
    else
      var init, last := df[..|df| - 1], df[|df| - 1];
      var prev := Sprints(init);
      assert forall s :: HasSprint(init, s) ==> HasSprint(df, s) by {
        forall s | HasSprint(init, s) ensures HasSprint(df, s) {
          var i :| 0 <= i < |init| && init[i].sprint == s;
          assert df[i].sprint == s;
        }
      }
      assert forall s :: HasSprint(df, s) ==> HasSprint(init, s) || s == last.sprint by {
        forall s | HasSprint(df, s) ensures HasSprint(init, s) || s == last.sprint {
          var i :| 0 <= i < |df| && df[i].sprint == s;
          if i < |init| { assert init[i].sprint == s; }
        }
      }
      if last.sprint in prev then prev else prev + [last.sprint]
  }

  /** `df[df['sprint'] == s]`: the rows of sprint `s`, in table order. */
  function RowsOf(df: seq<Task>, s: SprintId): (rows: seq<Task>)
    ensures |rows| <= |df|
    ensures forall t :: t in rows ==> t.sprint == s
    ensures forall i :: 0 <= i < |df| && df[i].sprint == s ==> df[i] in rows
    ensures |rows| > 0 <==> HasSprint(df, s)
  {
    if df == [] then []
    else
      var init, last := df[..|df| - 1], df[|df| - 1];
      var prev := RowsOf(init, s);
      assert HasSprint(init, s) ==> HasSprint(df, s) by {
        if HasSprint(init, s) {
          var i :| 0 <= i < |init| && init[i].sprint == s;
          assert df[i].sprint == s;
        }
      }
      assert HasSprint(df, s) ==> HasSprint(init, s) || last.sprint == s by {
        if HasSprint(df, s) {
          var i :| 0 <= i < |df| && df[i].sprint == s;
          if i < |init| { assert init[i].sprint == s; }
        }
      }
      var rows := prev + (if last.sprint == s then [last] else []);
      assert forall i :: 0 <= i < |df| && df[i].sprint == s ==> df[i] in rows by {
        forall i | 0 <= i < |df| && df[i].sprint == s ensures df[i] in rows {
          if i < |init| { assert init[i] == df[i]; }
        }
      }
      rows
  }

  predicate AllDone(rows: seq<Task>) {
    forall i :: 0 <= i < |rows| ==> rows[i].status == Done
  }

  /** The filter keeps each row of sprint `s` as many times as the table holds it,
      and no row of any other sprint. */
  lemma {:induction false} RowsOfMultiplicity(df: seq<Task>, s: SprintId, t: Task)
    ensures multiset(RowsOf(df, s))[t] == if t.sprint == s then multiset(df)[t] else 0
  {
    if df != [] {
      var init, last := df[..|df| - 1], df[|df| - 1];
      RowsOfMultiplicity(init, s, t);
      assert df == init + [last];
      assert RowsOf(df, s) == RowsOf(init, s) + (if last.sprint == s then [last] else []);
    }
  }

  predicate NoneDone(rows: seq<Task>) {
    forall i :: 0 <= i < |rows| ==> rows[i].status != Done
  }

  /** `len(rows[rows['status'] != 'done'])`. */
  function Incomplete(rows: seq<Task>): (n: nat)
    ensures n <= |rows|
    ensures n == 0 <==> AllDone(rows)
  {
    if rows == [] then 0
    else
      var init := rows[..|rows| - 1];
      assert forall i :: 0 <= i < |init| ==> init[i] == rows[i];
      assert AllDone(rows) <==> AllDone(init) && rows[|rows| - 1].status == Done;
      Incomplete(init) + (if rows[|rows| - 1].status != Done then 1 else 0)
  }

  /** Every task is incomplete exactly when none is `done`, so a carry-over rate of 1
      means that no task of the sprint was finished. */
  lemma {:induction false} AllIncompleteIffNoneDone(rows: seq<Task>)
    ensures Incomplete(rows) == |rows| <==> NoneDone(rows)
    ensures |rows| > 0 ==> (CarryOverRate(rows) == 1.0 <==> NoneDone(rows))
  {
    if rows != [] {
      var init := rows[..|rows| - 1];
      AllIncompleteIffNoneDone(init);
      assert forall i :: 0 <= i < |init| ==> init[i] == rows[i];
      assert NoneDone(rows) <==> NoneDone(init) && rows[|rows| - 1].status != Done;
    }
  }

  /** The number of rows assigned to `a`. */
  function AssigneeCount(rows: seq<Task>, a: string): nat {
    if rows == [] then 0
    else AssigneeCount(rows[..|rows| - 1], a) + (if rows[|rows| - 1].assignee == a then 1 else 0)
  }

  function Assignees(rows: seq<Task>): set<string> {
    set i | 0 <= i < |rows| :: rows[i].assignee
  }

  /** `rows.groupby('assignee').size().to_dict()`: a key for every assignee of the
      rows and no other, each mapped to a group size between 1 and the row count. */
  function TasksPerDev(rows: seq<Task>): (sizes: map<string, nat>)
    ensures forall a :: a in sizes <==> exists i :: 0 <= i < |rows| && rows[i].assignee == a
    ensures forall a :: a in sizes ==> 1 <= sizes[a] <= |rows|
  {
    assert forall i :: 0 <= i < |rows| ==> 1 <= AssigneeCount(rows, rows[i].assignee) <= |rows| by {
      forall i | 0 <= i < |rows| ensures 1 <= AssigneeCount(rows, rows[i].assignee) <= |rows| {
        AssigneeCountBounds(rows, i);
      }
    }
    map a | a in Assignees(rows) :: AssigneeCount(rows, a)
  }

  /** The largest `AssigneeCount` among the assignees of the first `n` rows. */
  function MaxCountUpTo(rows: seq<Task>, n: nat): nat
    requires n <= |rows|
  {
    if n == 0 then 0 else Max(MaxCountUpTo(rows, n - 1), AssigneeCount(rows, rows[n - 1].assignee))
  }

  /** `max(tasks_per_dev.values())`: no assignee holds more rows, and in a
      non-empty sprint some assignee holds exactly that many. */
  function MaxTasks(rows: seq<Task>): (n: nat)
    ensures forall i :: 0 <= i < |rows| ==> AssigneeCount(rows, rows[i].assignee) <= n
    ensures |rows| > 0 ==> exists i :: 0 <= i < |rows| && AssigneeCount(rows, rows[i].assignee) == n
  {
    MaxTasksIsLargestGroup(rows, |rows|);
    MaxCountUpTo(rows, |rows|)
  }

  function EstimateColumn(rows: seq<Task>): seq<real> {
    seq(|rows|, i requires 0 <= i < |rows| => rows[i].estimatedHours)
  }

  function ActualColumn(rows: seq<Task>): seq<real> {
    seq(|rows|, i requires 0 <= i < |rows| => rows[i].actualHours)
  }

  /** `rows['estimated_hours'].sum()`. */
  function EstimatedHours(rows: seq<Task>): (h: real)
    ensures h == Sum(EstimateColumn(rows))
    ensures (forall i :: 0 <= i < |rows| ==> rows[i].estimatedHours >= 0.0) ==> h >= 0.0
  {
    if rows == [] then 0.0
    else
      var init := rows[..|rows| - 1];
      assert EstimateColumn(rows)[..|rows| - 1] == EstimateColumn(init);
      assert forall i :: 0 <= i < |init| ==> init[i] == rows[i];
      EstimatedHours(init) + rows[|rows| - 1].estimatedHours
  }

  /** `rows['actual_hours'].sum()`. */
  function ActualHours(rows: seq<Task>): (h: real)
    ensures h == Sum(ActualColumn(rows))
    ensures (forall i :: 0 <= i < |rows| ==> rows[i].actualHours >= 0.0) ==> h >= 0.0
  {
    if rows == [] then 0.0
    else
      var init := rows[..|rows| - 1];
      assert ActualColumn(rows)[..|rows| - 1] == ActualColumn(init);
      assert forall i :: 0 <= i < |init| ==> init[i] == rows[i];
      ActualHours(init) + rows[|rows| - 1].actualHours
  }

  /** Incomplete tasks over total tasks. */
  function CarryOverRate(rows: seq<Task>): (r: real)
    requires |rows| > 0
    ensures 0.0 <= r <= 1.0
    ensures r == 0.0 <==> AllDone(rows)
    ensures r == 1.0 <==> Incomplete(rows) == |rows|
  {
    var n := |rows| as real;
    var k := Incomplete(rows) as real;
    DivideMonotone(k, n, n);
    DivideMonotone(0.0, k, n);
    assert n / n == 1.0;
    k / n
  }

  /** Actual over estimated hours, the denominator guarded by `max(estimated, 1)`. */
  function HoursRatio(estimated: real, actual: real): (r: real)
    ensures estimated < 1.0 ==> r == actual
    ensures estimated >= 1.0 ==> r * estimated == actual
    ensures actual >= 0.0 ==> r >= 0.0
  {
    actual / (if estimated < 1.0 then 1.0 else estimated)
  }

  /** The weighted overload score, capped at 1.0 by `min(score, 1.0)`. */
  function OverloadScore(carryOverRate: real, maxTasks: nat, hoursRatio: real): (r: real)
    ensures r <= 1.0
    ensures carryOverRate >= 0.0 && hoursRatio >= 0.0 ==> r >= 0.0
    ensures r <= 0.4 * carryOverRate + 0.3 * (maxTasks as real / 10.0) + 0.3 * hoursRatio
    ensures r < 1.0 ==> r == 0.4 * carryOverRate + 0.3 * (maxTasks as real / 10.0) + 0.3 * hoursRatio
  {
    var score := 0.4 * carryOverRate + 0.3 * (maxTasks as real / 10.0) + 0.3 * hoursRatio;
    if 1.0 < score then 1.0 else score
  }

  /** The report row of sprint `s`, whose rows are `rows`: it names the sprint, its
      rate lies in [0, 1], its largest group between 1 and the task count and its
      score is at most 1.0. */
  function MetricsOf(s: SprintId, rows: seq<Task>): (m: SprintMetrics)
    requires |rows| > 0
    ensures m.sprint == s
    ensures 0.0 <= m.carryOverRate <= 1.0
    ensures 1 <= m.maxTasksPerDev <= |rows|
    ensures m.overloadScore <= 1.0
  {
    MaxTasksBounds(rows);
    var carry := CarryOverRate(rows);
    var maxTasks := MaxTasks(rows);
    var ratio := HoursRatio(EstimatedHours(rows), ActualHours(rows));
    SprintMetrics(s, carry, maxTasks, ratio, OverloadScore(carry, maxTasks, ratio))
  }

  /** The whole overload report: one row per sprint, in order of first appearance. */
  function OverloadReport(df: seq<Task>): (report: seq<SprintMetrics>)
    ensures |report| == |Sprints(df)|
    ensures forall k :: 0 <= k < |report| ==> report[k].sprint == Sprints(df)[k]
  {
    var ss := Sprints(df);
    seq(|ss|, k requires 0 <= k < |ss| => MetricsOf(ss[k], RowsOf(df, ss[k])))
  }

  // ---------------------------------------------------------------------------
  // The analyser
  // ---------------------------------------------------------------------------

  /** `df['sprint'].unique()`, scanning the sprint column once. */
  method UniqueSprints(df: seq<Task>) returns (ss: seq<SprintId>)
    ensures ss == Sprints(df)
  {
    ss := [];
    for i := 0 to |df|
      invariant ss == Sprints(df[..i])
    {
      assert df[..i + 1][..i] == df[..i];
      if df[i].sprint !in ss {
        ss := ss + [df[i].sprint];
      }
    }
    assert df[..|df|] == df;
  }

  /** `rows.groupby('assignee').size().to_dict()`, one row at a time. */
  method GroupByAssignee(rows: seq<Task>) returns (sizes: map<string, nat>)
    ensures sizes == TasksPerDev(rows)
  {
    sizes := map[];
    for i := 0 to |rows|
      invariant sizes == TasksPerDev(rows[..i])
    {
      var a := rows[i].assignee;
      TasksPerDevExtend(rows, i);
      sizes := sizes[a := if a in sizes then sizes[a] + 1 else 1];
    }
    assert rows[..|rows|] == rows;
  }

  /** `max(sizes.values())`; Python raises on an empty dictionary, so one is excluded. */
  method LargestGroup(sizes: map<string, nat>) returns (best: nat)
    requires sizes.Keys != {}
    ensures forall a :: a in sizes ==> sizes[a] <= best
    ensures exists a :: a in sizes && sizes[a] == best
  {
    var todo := sizes.Keys;
    var first :| first in todo;
    best := sizes[first];
    todo := todo - {first};
    ghost var holder := first;
    while todo != {}
      invariant todo <= sizes.Keys
      invariant holder in sizes && sizes[holder] == best
      invariant forall a :: a in sizes && a !in todo ==> sizes[a] <= best
      decreases |todo|
    {
      var a :| a in todo;
      if sizes[a] > best {
        best := sizes[a];
        holder := a;
      }
      todo := todo - {a};
    }
  }

  /** `compute_overload_metrics`: the report row of every sprint, appended in the
      order `unique()` yields the sprints. */
  method ComputeOverloadMetrics(df: seq<Task>) returns (results: seq<SprintMetrics>)
    ensures results == OverloadReport(df)
  {
    var sprints := UniqueSprints(df);
    results := [];
    for k := 0 to |sprints|
      invariant |results| == k
      invariant forall j :: 0 <= j < k ==> results[j] == MetricsOf(sprints[j], RowsOf(df, sprints[j]))
    {
      var sprint := sprints[k];
      var sprintDf := RowsOf(df, sprint);
      assert |sprintDf| > 0 by { assert sprint in sprints; }
      var totalTasks := |sprintDf|;
      var incompleteTasks := Incomplete(sprintDf);
      var carryOverRate := incompleteTasks as real / totalTasks as real;

      var tasksPerDev := GroupByAssignee(sprintDf);
      assert sprintDf[0].assignee in tasksPerDev.Keys;
      var maxTasks := LargestGroup(tasksPerDev);
      LargestGroupIsMaxTasks(sprintDf, maxTasks);

      var estimatedHours := EstimatedHours(sprintDf);
      var actualHours := ActualHours(sprintDf);
      var hoursRatio := actualHours / (if estimatedHours < 1.0 then 1.0 else estimatedHours);

      var overloadScore := 0.4 * carryOverRate + 0.3 * (maxTasks as real / 10.0) + 0.3 * hoursRatio;
      if 1.0 < overloadScore {
        overloadScore := 1.0;
      }

      assert carryOverRate == CarryOverRate(sprintDf);
      assert hoursRatio == HoursRatio(estimatedHours, actualHours);
      assert overloadScore == OverloadScore(carryOverRate, maxTasks, hoursRatio);
      results := results + [SprintMetrics(sprint, carryOverRate, maxTasks, hoursRatio, overloadScore)];
    }
  }

  // ---------------------------------------------------------------------------
  // Lemmas
  // ---------------------------------------------------------------------------

  /** Appending one row to a group adds one to its assignee's size. */
  lemma TasksPerDevExtend(rows: seq<Task>, i: nat)
    requires i < |rows|
    ensures var before, a := TasksPerDev(rows[..i]), rows[i].assignee;
      TasksPerDev(rows[..i + 1]) == before[a := if a in before then before[a] + 1 else 1]
  {
    var prefix, next := rows[..i], rows[..i + 1];
    assert next[..i] == prefix;
    var a := rows[i].assignee;
    assert Assignees(next) == Assignees(prefix) + {a} by {
      assert forall j :: 0 <= j < i ==> next[j] == prefix[j];
    }
    assert a !in Assignees(prefix) ==> AssigneeCount(prefix, a) == 0 by {
      if a !in Assignees(prefix) { AssigneeCountAbsent(prefix, a); }
    }
  }

  lemma {:induction false} AssigneeCountAbsent(rows: seq<Task>, a: string)
    requires a !in Assignees(rows)
    ensures AssigneeCount(rows, a) == 0
  {
    if rows != [] {
      var init := rows[..|rows| - 1];
      assert Assignees(init) <= Assignees(rows) by {
        assert forall j :: 0 <= j < |init| ==> init[j] == rows[j];
      }
      AssigneeCountAbsent(init, a);
    }
  }

  /** Every assignee that holds a row holds at least one, and none holds more rows than there are. */
  lemma {:induction false} AssigneeCountBounds(rows: seq<Task>, i: nat)
    requires i < |rows|
    ensures 1 <= AssigneeCount(rows, rows[i].assignee) <= |rows|
  {
    var init := rows[..|rows| - 1];
    if i < |init| {
      assert init[i] == rows[i];
      AssigneeCountBounds(init, i);
    } else {
      AssigneeCountAtMost(init, rows[i].assignee);
    }
  }

  lemma {:induction false} AssigneeCountAtMost(rows: seq<Task>, a: string)
    ensures AssigneeCount(rows, a) <= |rows|
  {
    if rows != [] { AssigneeCountAtMost(rows[..|rows| - 1], a); }
  }

  /** `MaxTasks` is the size of the largest group: no assignee holds more rows, and
      (in a non-empty sprint) some assignee holds exactly that many. */
  lemma {:induction false} MaxTasksIsLargestGroup(rows: seq<Task>, n: nat)
    requires n <= |rows|
    ensures forall j :: 0 <= j < n ==> AssigneeCount(rows, rows[j].assignee) <= MaxCountUpTo(rows, n)
    ensures n > 0 ==> exists j :: 0 <= j < n && AssigneeCount(rows, rows[j].assignee) == MaxCountUpTo(rows, n)
  {
    if n > 0 {
      MaxTasksIsLargestGroup(rows, n - 1);
      if n - 1 > 0 && MaxCountUpTo(rows, n - 1) >= AssigneeCount(rows, rows[n - 1].assignee) {
        var j :| 0 <= j < n - 1 && AssigneeCount(rows, rows[j].assignee) == MaxCountUpTo(rows, n - 1);
        assert AssigneeCount(rows, rows[j].assignee) == MaxCountUpTo(rows, n);
      } else {
        assert AssigneeCount(rows, rows[n - 1].assignee) == MaxCountUpTo(rows, n);
      }
    }
  }

  /** `max_tasks_per_dev` lies between 1 and the sprint's task count. */
  lemma MaxTasksBounds(rows: seq<Task>)
    requires |rows| > 0
    ensures 1 <= MaxTasks(rows) <= |rows|
  {
    MaxTasksIsLargestGroup(rows, |rows|);
    var j :| 0 <= j < |rows| && AssigneeCount(rows, rows[j].assignee) == MaxTasks(rows);
    AssigneeCountBounds(rows, j);
  }

  /** The maximum over the group-size dictionary is `MaxTasks`. */
  lemma LargestGroupIsMaxTasks(rows: seq<Task>, best: nat)
    requires |rows| > 0
    requires forall a :: a in TasksPerDev(rows) ==> TasksPerDev(rows)[a] <= best
    requires exists a :: a in TasksPerDev(rows) && TasksPerDev(rows)[a] == best
    ensures best == MaxTasks(rows)
  {
    var sizes := TasksPerDev(rows);
    MaxTasksIsLargestGroup(rows, |rows|);
    var j :| 0 <= j < |rows| && AssigneeCount(rows, rows[j].assignee) == MaxTasks(rows);
    assert rows[j].assignee in sizes;
    var a :| a in sizes && sizes[a] == best;
    var k :| 0 <= k < |rows| && rows[k].assignee == a;
    assert AssigneeCount(rows, rows[k].assignee) <= MaxTasks(rows);
  }

  /** Every report row is well formed: its rate lies in [0, 1], its largest group
      between 1 and the task count, its score at most 1.0 and, when no hours are
      negative, at least 0. */
  lemma MetricsBounds(s: SprintId, rows: seq<Task>)
    requires |rows| > 0
    ensures var m := MetricsOf(s, rows);
      && m.sprint == s
      && 0.0 <= m.carryOverRate <= 1.0
      && 1 <= m.maxTasksPerDev <= |rows|
      && m.overloadScore <= 1.0
      && (ActualHours(rows) >= 0.0 ==> m.hoursRatio >= 0.0 && m.overloadScore >= 0.0)
  {
    MaxTasksBounds(rows);
  }

  /** A sprint whose tasks are all done has carry-over rate 0. */
  lemma AllDoneNoCarryOver(s: SprintId, rows: seq<Task>)
    requires |rows| > 0 && AllDone(rows)
    ensures MetricsOf(s, rows).carryOverRate == 0.0
  {
  }

  /** With an estimate below one hour the ratio is the actual hours themselves. */
  lemma SmallEstimateRatio(s: SprintId, rows: seq<Task>)
    requires |rows| > 0 && EstimatedHours(rows) < 1.0
    ensures MetricsOf(s, rows).hoursRatio == ActualHours(rows)
  {
  }

  /** The report holds one row per distinct sprint of the table, none twice, none missing,
      in order of first appearance. */
  lemma {:induction false} ReportOneRowPerSprint(df: seq<Task>)
    ensures |OverloadReport(df)| == |Sprints(df)|
    ensures forall s :: (exists k :: 0 <= k < |OverloadReport(df)| && OverloadReport(df)[k].sprint == s) <==> HasSprint(df, s)
    ensures forall j, k :: 0 <= j < k < |OverloadReport(df)| ==> OverloadReport(df)[j].sprint != OverloadReport(df)[k].sprint
  {
    var ss, report := Sprints(df), OverloadReport(df);
    assert forall k :: 0 <= k < |ss| ==> report[k].sprint == ss[k];
    forall s | HasSprint(df, s) ensures exists k :: 0 <= k < |report| && report[k].sprint == s {
      var k :| 0 <= k < |ss| && ss[k] == s;
      assert report[k].sprint == s;
    }
  }

  /** Sprints come in order of first appearance: every row of a later sprint is
      preceded by some row of each earlier sprint. */
  lemma {:induction false} SprintsInOrderOfFirstAppearance(df: seq<Task>, j: nat, k: nat, i: nat)
    requires j < k < |Sprints(df)|
    requires i < |df| && df[i].sprint == Sprints(df)[k]
    ensures exists p :: 0 <= p < i && df[p].sprint == Sprints(df)[j]
  {
    var init, last := df[..|df| - 1], df[|df| - 1];
    var prev := Sprints(init);
    assert forall p :: 0 <= p < |init| ==> init[p] == df[p];
    if i == |df| - 1 {
      if last.sprint in prev {
        var i' :| 0 <= i' < |init| && init[i'].sprint == prev[k];
        SprintsInOrderOfFirstAppearance(init, j, k, i');
      } else {
        assert HasSprint(init, prev[j]);
      }
    } else {
      if k < |prev| {
        SprintsInOrderOfFirstAppearance(init, j, k, i);
      } else {
        assert false;
      }
    }
  }

  /** Two views of one sprint that differ only in status, the second having every
      task the first leaves incomplete also incomplete. */
  ghost predicate MoreIncomplete(rows1: seq<Task>, rows2: seq<Task>) {
    && |rows1| == |rows2|
    && forall i :: 0 <= i < |rows1| ==>
         && rows2[i] == rows1[i].(status := rows2[i].status)
         && (rows1[i].status != Done ==> rows2[i].status != Done)
  }

  lemma {:induction false} MoreIncompleteInit(rows1: seq<Task>, rows2: seq<Task>)
    requires MoreIncomplete(rows1, rows2) && |rows1| > 0
    ensures MoreIncomplete(rows1[..|rows1| - 1], rows2[..|rows2| - 1])
  {
    var init1, init2 := rows1[..|rows1| - 1], rows2[..|rows2| - 1];
    forall i | 0 <= i < |init1|
      ensures init2[i] == init1[i].(status := init2[i].status)
      ensures init1[i].status != Done ==> init2[i].status != Done
    {
      assert init1[i] == rows1[i] && init2[i] == rows2[i];
    }
  }

  lemma {:induction false} StatusOnlyChangesIncomplete(rows1: seq<Task>, rows2: seq<Task>, a: string)
    requires MoreIncomplete(rows1, rows2)
    ensures Incomplete(rows1) <= Incomplete(rows2)
    ensures AssigneeCount(rows1, a) == AssigneeCount(rows2, a)
    ensures EstimatedHours(rows1) == EstimatedHours(rows2)
    ensures ActualHours(rows1) == ActualHours(rows2)
  {
    if |rows1| > 0 {
      MoreIncompleteInit(rows1, rows2);
      StatusOnlyChangesIncomplete(rows1[..|rows1| - 1], rows2[..|rows2| - 1], a);
    }
  }

  lemma {:induction false} StatusDoesNotChangeMaxCount(rows1: seq<Task>, rows2: seq<Task>, n: nat)
    requires MoreIncomplete(rows1, rows2) && n <= |rows1|
    ensures MaxCountUpTo(rows1, n) == MaxCountUpTo(rows2, n)
  {
    if n > 0 {
      StatusDoesNotChangeMaxCount(rows1, rows2, n - 1);
      StatusOnlyChangesIncomplete(rows1, rows2, rows1[n - 1].assignee);
    }
  }

  /** Monotonicity: marking more of a sprint's tasks incomplete, all else equal,
      never lowers its overload score. */
  lemma MoreIncompleteNeverLowersOverload(s: SprintId, rows1: seq<Task>, rows2: seq<Task>)
    requires |rows1| > 0 && MoreIncomplete(rows1, rows2)
    ensures MetricsOf(s, rows1).overloadScore <= MetricsOf(s, rows2).overloadScore
  {
    StatusOnlyChangesIncomplete(rows1, rows2, "");
    StatusDoesNotChangeMaxCount(rows1, rows2, |rows1|);
    CarryOverRateMonotone(rows1, rows2);
  }

  lemma CarryOverRateMonotone(rows1: seq<Task>, rows2: seq<Task>)
    requires |rows1| == |rows2| > 0 && Incomplete(rows1) <= Incomplete(rows2)
    ensures CarryOverRate(rows1) <= CarryOverRate(rows2)
  {
    DivideMonotone(Incomplete(rows1) as real, Incomplete(rows2) as real, |rows1| as real);
  }
}
