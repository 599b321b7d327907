# Software-project risk scoring, modelled in Dafny

This project models the risk-scoring pipeline behind the project-risk dashboards.
The pipeline has four stages:

- **Sprint overload analyser** (`compute_overload_metrics`). It groups the task table by sprint, in order of first appearance. For each sprint it computes:
  - the carry-over rate (tasks not `done` over all tasks);
  - the largest number of tasks held by one assignee;
  - the hours ratio (actual hours over `max(estimated, 1)`);
  - a weighted overload score capped at 1.0.
- **Requirement ambiguity scoring** (`analyze_requirement`, `compute_ambiguity_score`). It computes four metrics: the vague-word ratio, the average sentence length, the passive ratio and a missing-acceptance-criteria flag. It combines them into a weighted score capped at 1.0.
- **Combination and classification**:
  - `create_combined_dataset` builds one row per sprint. Each row carries the mean ambiguity score and a per-metric threshold label.
  - `train_hybrid_model` overwrites that label in place with the 0.6/0.4 composite rule, which has thresholds 0.7 and 0.4.
- **Dashboard decisions**. A case-insensitive substring gate on the uploaded column names decides whether the upload looks like project data (data/app.py:79-82). An upload that passes is saved under `data/`, and the dashboard runs `create_combined_dataset` and `train_hybrid_model` (data/app.py:88-93). It then shows the mean `overload_score` of the combined table, the sentiment badge and the governance plan chosen from them.

Note on the dashboard: `create_combined_dataset` reads the reports under `results/` (src/combined_data.py:9-13), and data/app.py never regenerates them. The mean overload shown after an upload is therefore the mean of whatever overload report was last written, not a function of the uploaded table. The model takes the overload report as a value, so it states what the dashboard shows for a given report.

All scores are exact `real`s. Sprint ids, assignees, statuses and column names are strings.

Modules:

| file | module | form |
|---|---|---|
| `sprint_analysis.dfy` | `SprintAnalysis` | A method with loops (`ComputeOverloadMetrics` and its helpers `UniqueSprints`, `GroupByAssignee`, `LargestGroup`). It is proved equal to the specification function `OverloadReport`, and lemmas state properties of that function. |
| `requirement_analysis.dfy` | `RequirementAnalysis` | Functions and lemmas. |
| `combined_data.dfy` | `CombinedData` | The threshold labeller as a function. The combined table is the class `RiskFrame`, whose `risk_level` field `ApplyLabels` replaces. |
| `hybrid_risk_model.dfy` | `HybridRiskModel` | The composite classifier as a function. `TrainHybridModel` overwrites the `risk_level` column of a `RiskFrame`. |
| `dashboard.dfy` | `Dashboard` | The gate, the average risk, the badge and the plan, as functions and lemmas. |
| `text.dfy`, `stats.dfy` | `Text`, `Stats` | `str.isalpha`, `str.lower`, `"".join`, substring, sum and mean. |

Behaviours of the code that the model keeps:

- A requirement with no words scores 0.1, not 0, because the missing-criteria flag is then 1 (`NoWordsScoresMissingCriteriaOnly`).
- The vague vocabulary is `fast`, `easy`, `simple`, `efficient`, `user-friendly`, `flexible` (src/requirement_analysis.py:6). Of these, `user-friendly` can never match a word, because only alphabetic tokens become words (`HyphenatedEntryNeverMatches`).
- The average sentence length is divided by 50 but never capped on its own. Only the final `min(score, 1.0)` bounds the score.
- Two labelling rules exist:
  - the combined table uses per-metric thresholds 0.5/0.3 on ambiguity and 0.6/0.4 on overload;
  - the hybrid model uses the composite 0.6·ambiguity + 0.4·overload with thresholds 0.7 and 0.4, and its label is the one that reaches the output.
- Ambiguity is document-global. The mean of the per-line scores is broadcast to every sprint row.
- The overload analyser needs the `status`, `assignee`, `estimated_hours` and `actual_hours` columns. There is no path for a table that has only task counts.

## Model

| member | source | states |
|---|---|---|
| `SprintAnalysis.ComputeOverloadMetrics` | src/sprint_analysis.py:10-37 | The report built by the loop over unique sprints equals `OverloadReport(df)`: for each sprint of `Sprints(df)`, in that order, the metrics of exactly that sprint's rows. |
| `SprintAnalysis.UniqueSprints` | src/sprint_analysis.py:13 | One scan of the sprint column yields `Sprints(df)`. |
| `SprintAnalysis.Sprints` | src/sprint_analysis.py:13 | A sprint id is in the list iff some row has it, and no id appears twice. |
| `SprintAnalysis.SprintsInOrderOfFirstAppearance` | src/sprint_analysis.py:13 | Sprints are ordered by first appearance: every row of a later-listed sprint is preceded by a row of each earlier-listed sprint. |
| `SprintAnalysis.ReportOneRowPerSprint` | src/sprint_analysis.py:13-35 | The report has one row per distinct sprint of the table, none missing and none duplicated. |
| `SprintAnalysis.RowsOf` | src/sprint_analysis.py:14 | A row is kept iff it belongs to the sprint: every kept row has the sprint id and every row of the table with that id is kept. The result is no longer than the table, and is non-empty iff the sprint occurs. |
| `SprintAnalysis.RowsOfMultiplicity` | src/sprint_analysis.py:14 | The filter keeps each row of the sprint exactly as many times as the table holds it, and no row of another sprint. |
| `SprintAnalysis.Incomplete` | src/sprint_analysis.py:16 | The count of tasks not `done` is at most the task count, and is 0 iff every task is `done`. |
| `SprintAnalysis.AllIncompleteIffNoneDone` | src/sprint_analysis.py:16-17 | Every task is counted incomplete iff no task is `done`, so the carry-over rate is 1 iff no task of the sprint is `done`. |
| `SprintAnalysis.CarryOverRate` | src/sprint_analysis.py:15-17 | The rate lies in [0, 1]. It is 0 iff all tasks are done, and 1 iff every task is counted incomplete (`AllIncompleteIffNoneDone` turns that into: iff none is done). |
| `SprintAnalysis.CarryOverRateMonotone` | src/sprint_analysis.py:15-17 | With the task count fixed, more incomplete tasks never lower the rate. |
| `SprintAnalysis.AllDoneNoCarryOver` | src/sprint_analysis.py:16-17 | A sprint whose tasks are all `done` has carry-over rate 0. |
| `SprintAnalysis.TasksPerDev` | src/sprint_analysis.py:19 | The group-size dictionary has a key for every assignee of the rows and no other key, and each size lies between 1 and the row count. |
| `SprintAnalysis.GroupByAssignee` | src/sprint_analysis.py:19 | The dictionary built row by row maps each assignee of the sprint to its number of tasks, and has no other keys. |
| `SprintAnalysis.LargestGroup` | src/sprint_analysis.py:20 | The result is at least every value of the dictionary and equals one of them. |
| `SprintAnalysis.MaxTasks` | src/sprint_analysis.py:19-20 | No assignee holds more rows than `MaxTasks`, and in a non-empty sprint some assignee holds exactly that many. |
| `SprintAnalysis.MaxTasksIsLargestGroup` | src/sprint_analysis.py:19-20 | No assignee holds more tasks than `MaxTasks`, and some assignee holds exactly that many. |
| `SprintAnalysis.LargestGroupIsMaxTasks` | src/sprint_analysis.py:19-20 | The maximum over the group-size dictionary is `MaxTasks` of the sprint's rows. |
| `SprintAnalysis.MaxTasksBounds` | src/sprint_analysis.py:19-20 | `max_tasks_per_dev` lies between 1 and the sprint's task count. |
| `SprintAnalysis.EstimatedHours` | src/sprint_analysis.py:22 | The estimate is the sum of the `estimated_hours` column, and is non-negative when every task's estimate is. |
| `SprintAnalysis.ActualHours` | src/sprint_analysis.py:23 | The actual hours are the sum of the `actual_hours` column, and are non-negative when every task's hours are. |
| `SprintAnalysis.HoursRatio` | src/sprint_analysis.py:22-24 | The divisor is never zero. Below a 1-hour estimate the ratio is the actual hours; otherwise ratio × estimate = actual. The ratio is non-negative for non-negative actual hours. |
| `SprintAnalysis.SmallEstimateRatio` | src/sprint_analysis.py:22-24 | When a sprint's summed estimate is below 1, its hours ratio equals its summed actual hours. |
| `SprintAnalysis.OverloadScore` | src/sprint_analysis.py:26-27 | The score is the smaller of 1.0 and the 0.4/0.3/0.3 weighted sum: it is at most both, and equal to the sum whenever it is below 1.0. It is at least 0 for non-negative inputs. |
| `SprintAnalysis.MetricsOf` | src/sprint_analysis.py:14-34 | A sprint's report row names that sprint, has a rate in [0, 1], a largest group between 1 and the task count, and a score at most 1.0. |
| `SprintAnalysis.OverloadReport` | src/sprint_analysis.py:13-35 | The report has one row per entry of `Sprints(df)`, and row k names the k-th sprint. |
| `SprintAnalysis.MetricsBounds` | src/sprint_analysis.py:14-27 | Every report row has a rate in [0, 1], a largest group between 1 and the task count, and a score at most 1.0. With non-negative actual hours, the ratio and the score are non-negative too. |
| `SprintAnalysis.MoreIncompleteNeverLowersOverload` | src/sprint_analysis.py:16-27 | Marking more of a sprint's tasks incomplete, all else equal, never lowers its overload score. |
| `RequirementAnalysis.Words` | src/requirement_analysis.py:10 | Every alphabetic token yields its lower-cased form as a word, and every word is the lower-cased form of some alphabetic token. Words are alphabetic and already lower-case, and there are no more words than tokens. |
| `RequirementAnalysis.WordsMultiplicity` | src/requirement_analysis.py:10 | Each word occurs among the words exactly as many times as there are alphabetic tokens that lower-case to it. So the word count and the vague count are counts over the tokens. |
| `RequirementAnalysis.WordsAppend` | src/requirement_analysis.py:10 | The words of two runs of tokens, one after the other, are the words of the first run followed by the words of the second. |
| `RequirementAnalysis.VagueCount` | src/requirement_analysis.py:13 | The vague-word count never exceeds the word count. |
| `RequirementAnalysis.HasCriteriaIffCriteriaToken` | src/requirement_analysis.py:10-15 | The criteria test passes iff some alphabetic token, in any case, is `shall`, `must`, `criteria` or `acceptance`. |
| `RequirementAnalysis.GuardedRatio` | src/requirement_analysis.py:18-20 | `count / max(total, 1)` is non-negative, is 0 for a zero count, is at most 1 when count ≤ total, and times the guarded denominator gives back the count. |
| `RequirementAnalysis.AnalyzeRequirement` | src/requirement_analysis.py:8-22 | The vague ratio lies in [0, 1] and equals the vague count over max(word count, 1). The other ratios are non-negative. `missing_criteria` is 0 iff a criteria word occurs and 1 otherwise. With no words, both the vague ratio and the average sentence length are 0. |
| `RequirementAnalysis.WeightedSum` | src/requirement_analysis.py:25-28 | The weighted sum is non-negative for non-negative metrics. The weights add up to 1, so ratios and flag at most 1 with sentences of at most 50 words give a sum of at most 1. |
| `RequirementAnalysis.AmbiguityScore` | src/requirement_analysis.py:24-29 | The score is the smaller of 1.0 and `WeightedSum`: it is at most both, and equal to the sum whenever it is below 1.0. It is at least 0 for non-negative metrics. |
| `RequirementAnalysis.AnalysedScoreInRange` | src/requirement_analysis.py:8-29 | The score of any analysed requirement lies in [0, 1]. |
| `RequirementAnalysis.AmbiguityScoreMonotone` | src/requirement_analysis.py:24-29 | The score is monotone non-decreasing in each metric. |
| `RequirementAnalysis.NoWordsScoresMissingCriteriaOnly` | src/requirement_analysis.py:15-29 | With no words and no passive tokens, the flag is 1 and the score is exactly 0.1. |
| `RequirementAnalysis.HyphenatedEntryNeverMatches` | src/requirement_analysis.py:6-13 | `user-friendly` is never one of the words, because words are alphabetic. |
| `RequirementAnalysis.VagueCountIgnoresHyphenatedEntry` | src/requirement_analysis.py:6-13 | The vague count equals the count over the five alphabetic entries alone. |
| `Stats.Mean` | src/combined_data.py:16 | The mean times the number of entries is the column's sum. |
| `Stats.MeanBounds` | src/combined_data.py:16 | The mean of values in [lo, hi] lies in [lo, hi]. |
| `CombinedData.RiskLabel` | src/combined_data.py:24-30 | The label is `High` iff ambiguity > 0.5 or overload > 0.6. It is `Medium` iff not High and (ambiguity > 0.3 or overload > 0.4). It is `Low` iff ambiguity ≤ 0.3 and overload ≤ 0.4. Exactly one applies. |
| `CombinedData.RiskLabelMonotone` | src/combined_data.py:24-30 | Raising either score never lowers the label in the order Low < Medium < High. |
| `CombinedData.RiskFrame.constructor` | src/combined_data.py:18-21 | The table holds the three given columns and has no `risk_level` column yet. |
| `CombinedData.RiskFrame.ApplyLabels` | src/combined_data.py:32 | The `risk_level` column becomes the labeller applied row by row. The sprint and score columns are unchanged. |
| `CombinedData.Broadcast` | src/combined_data.py:20 | A scalar assigned to a column gives a column of the requested length holding that scalar in every row. |
| `CombinedData.CreateCombinedDataset` | src/combined_data.py:7-32 | The table has as many rows as the overload report, with the same sprints in the same order and the same overload scores. Every row carries the mean ambiguity and `RiskLabel` of its two scores. |
| `HybridRiskModel.Composite` | src/hybrid_risk_model.py:9 | For scores in [0, 1], the composite 0.6·ambiguity + 0.4·overload lies in [0, 1]. |
| `HybridRiskModel.Classify` | src/hybrid_risk_model.py:8-16 | The label is `High` iff composite > 0.7, `Medium` iff 0.4 < composite ≤ 0.7, and `Low` iff composite ≤ 0.4. |
| `HybridRiskModel.ClassifyMonotone` | src/hybrid_risk_model.py:8-16 | The label is monotone non-decreasing in each score. |
| `HybridRiskModel.WorkedExample` | src/hybrid_risk_model.py:9-14 | Ambiguity 0.8 and overload 0.2 give composite 0.56 and `Medium`, while `risk_label` gives `High`. |
| `HybridRiskModel.TrainHybridModel` | src/hybrid_risk_model.py:18 | Only `risk_level` is replaced, with `classify` of each row. Sprints, both scores and the row count are unchanged. |
| `HybridRiskModel.RunHybridModel` | src/run_hybrid_model.py:5-8 | After both steps, each row's label is `Classify` of its scores. The label from the combined step has no effect on the output. |
| `HybridRiskModel.AmbiguityScores` | src/run_ambiguity_analysis.py:13-20 | Each requirement line yields one score, and every score lies in [0, 1]. |
| `HybridRiskModel.PipelineCompositeInRange` | src/hybrid_risk_model.py:9 | When no task has negative actual hours, the composite of any output row lies in [0, 1]. |
| `Dashboard.ColumnText` | data/app.py:79 | The joined, lower-cased names equal the lower-cased names joined. The text is as long as the joined names and holds no upper-case letter. |
| `Dashboard.LooksLikeProjectData` | data/app.py:79-82 | A passing upload's names join to at least four characters, the length of the shortest keyword. |
| `Dashboard.KeywordInColumnPasses` | data/app.py:79-82 | A project keyword inside any one column name, in any case, lets the upload through. |
| `Dashboard.GateIgnoresCase` | data/app.py:79 | Column names equal once lower-cased give the same joined text and the same gate verdict. |
| `Dashboard.CapitalisedSprintColumnPasses` | data/app.py:79-82 | A column named `Sprint_ID` passes. |
| `Dashboard.KeywordAcrossColumnsPasses` | data/app.py:79-82 | Names are joined with no separator, so a keyword inside the lower-cased concatenation of any two adjacent names lets the upload through. |
| `Dashboard.SplitSprintColumnsPass` | data/app.py:79-82 | `Spr` followed by `int_no` passes as `sprint`. |
| `Dashboard.UnrelatedColumnsRejected` | data/app.py:79-82 | Columns `Name` and `Age` contain no keyword and are turned away. |
| `Dashboard.AverageRisk` | data/app.py:95 | The mean overload lies in [0, 1] when every overload score does. |
| `Dashboard.SentimentBadge` | data/app.py:100 | The badge is `STABLE` iff the sentiment is strictly positive. |
| `Dashboard.SelectPlan` | data/app.py:110-121 | The High-risk plan is chosen iff avg_risk > 0.6, whatever the sentiment. Otherwise a negative sentiment gives the Moderate plan, and anything else gives the Optimal plan. |
| `Dashboard.NeutralSentimentIsVolatileButOptimal` | data/app.py:100-118 | A sentiment of exactly 0 shows `VOLATILE` but still yields the Optimal plan when avg_risk ≤ 0.6. |

## Left out

- Rounding: `round(x, 2)` on the report columns and on the per-line ambiguity scores is not modelled. The model keeps exact values.
- Floating point: scores and hours are exact rationals, not IEEE doubles.
- NLP models and sentiment are inputs, not computed:
  - the spaCy tokenizer, sentence splitter and dependency labels — the model takes the token texts, the sentence count and the `auxpass` count as parameters;
  - TextBlob sentiment — the polarity is a parameter.
- `RequirementAnalysis.Words`: `str.isalpha` and `str.lower` are modelled on ASCII letters only. Non-ASCII letters count as non-letters and are not case-folded.
- `Dashboard.LooksLikeProjectData`: the gate's `str.lower` is modelled on ASCII letters only. Python also folds other characters, so the model can reject names that Python accepts: `TAS` followed by the Kelvin sign U+212A lowers to `task` in Python but not in the model.
- `SprintAnalysis.RowsOf`: the contracts fix which rows are kept and how many times each, not their order. The body keeps table order, and every metric computed from the rows is a count or a sum, so order does not change them.
- pandas missing values are not modelled: NaN sprint ids, assignees or hours, and the NaN mean of an empty table. Means require a non-empty column, and `LargestGroup` requires a non-empty dictionary; Python's `max` raises on an empty one, and a sprint's group is never empty.
- File I/O is not modelled: reading and writing the CSV and text files, and the orchestration scripts that run the stages in order. Each stage takes the previous stage's result as a value. `RunHybridModel` stands for the two-step script.
- The dashboard UI is not modelled: uploads, styling, charts and the printed texts of the plans. The plans are the three values of `Plan`.
- `Dashboard.AverageRisk` takes the `overload_score` column as a sequence, not the table re-read from disk.
