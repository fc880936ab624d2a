# School analytics core, modelled in Dafny

This project models the analytics core of a tool server for school
assessment data. It receives a dataset of schools, students and exams.
Each exam carries a score and the number of items answered correctly in
each of the three domains A, B and C (ten questions each, thirty in all).
The server answers questions about that dataset with text reports.

The model covers:

- **Data access** (`Data`): finding a student across all schools (first
  match wins), finding a school, the global per-exam baseline (mean and
  population standard deviation of every score recorded under an exam id),
  and the abbreviation of long id lists.
- **The TypeScript tools**:
  - `StudentAnalysis`: one student's domain averages, overall
    percentage, strongest and weakest domain, domains below 50 % and the
    overall band;
  - `DomainComparison`: a school's domain averages over all its exams,
    including the NaN averages of a school whose students have no exams;
  - `SchoolOverview`: student and exam counts and averages;
  - `Struggling`: per-exam, per-domain records below a threshold, with the
    class statistics of every domain checked;
  - `Percentile`: a student's exam score against the global baseline;
  - `Prediction`: a least-squares trend of a student's scores, compared
    with the trend of the school's per-exam averages.
- **The older JavaScript server's four analysers** (`Legacy`). That server
  reads the domain counts under the lower-case keys `a`, `b` and `c`. Those
  are modelled as the same three domains. On a dataset that carries those
  keys, each analyser is proved equal to, or a stated variant of, the
  TypeScript tool it preceded.
- **The two evaluation scripts**:
  - `Metrics`: accuracy and macro precision, recall and F1 of tool choices;
  - `StatsParser`: the parser of the statistics file that the plotter reads.

Shared modules: `Js` holds JavaScript semantics the tools depend on
(division that gives NaN, `String()` of an integer and its round trip,
`slice` with negative indices, `toFixed(1)` followed by `Number()`).
`Stats` holds sums, mean, variance and their algebra. `Ranking` holds the
strongest/weakest domain choice.

Every report is a sequence of line values, one constructor per kind of
line, each holding the numbers that line prints. A tool is a `method`
that follows the source's loops. It is proved equal to a specification
function, and the properties are lemmas about that function.

Two facts of the code are worth stating:

- When two domains tie for strongest or weakest, the later domain wins
  (C over B over A). Three equal averages give C for both.
- Exams with (A, B, C) = (6, 7, 5) and (7, 8, 6) average 19.5 of 30
  questions, which is 65.0 %. `StudentAnalysis.WorkedExample` proves the
  whole report for that input.

## Model

| member | source | states |
|---|---|---|
| Data.FirstWithIdSpec | src/utils/data.ts:54-63 | the search answers None exactly when no enrolment has the id; otherwise it answers the first enrolment that has it |
| Data.EnrolmentsMembers | src/utils/data.ts:55-61 | a student is enrolled exactly when some school lists it, and is tagged with that school's id |
| Data.FindStudentById | src/utils/data.ts:54-63 | the nested loops return the first student with the id, tagged with its school id, or null |
| Data.FindStudentSomeIff | src/utils/data.ts:54-63 | a student is found exactly when some school lists a student with that id |
| Data.FindStudentFirst | src/utils/data.ts:54-63 | the student found has the id, sits in school i at position j, and no earlier school or position has the id |
| Data.FindSchool | src/utils/data.ts:69-71 | None exactly when no school has the id; otherwise the first school with that id |
| Data.ExamCountIsLength | src/tools/get-school-overview.ts:20-33 | the running exam count equals the number of exams of all students |
| Data.StudentsExamsHas | src/tools/get-school-overview.ts:20-33 | every exam of every student is in the school's exam list |
| Data.AllExamsHas | src/utils/data.ts:78-86 | every exam of every student of every school is in the dataset's exam list |
| Data.ItemTotalBounds | src/utils/data.ts:13-31 | with item counts in [0, 10], a domain total over n exams lies in [0, 10n] |
| Data.ItemTotalAppend | src/tools/analyze-student-performance.ts:31-36 | domain totals add up over concatenated exam lists |
| Data.ScoresForNonEmpty | src/utils/data.ts:78-86 | an exam id's score list is non-empty exactly when some exam has that key |
| Data.ScoresForMembers | src/utils/data.ts:82-83 | a score is in a key's list exactly when some exam with that key has that score |
| Data.FileScores | src/utils/data.ts:80-85 | the inner loops file every exam's score under `String(exam_id)`, keeping what was filed before |
| Data.GroupScoresByExam | src/utils/data.ts:78-86 | the grouping loops yield, for each key that occurs, the scores of its exams in dataset order |
| Data.ExamStats | src/utils/data.ts:77-94 | the baseline map has exactly the keys that occur, each with the mean and the square root of the population variance of its scores |
| Data.BaselineEntry | src/utils/data.ts:88-92 | a baseline entry's mean times the count is the sum of its scores; its variance is the mean squared deviation |
| Data.BaselineKeys | src/utils/data.ts:82 | an exam id has a baseline exactly when some exam of the dataset has that id |
| Data.BaselineStdDevZero | src/utils/data.ts:90-91 | the variance is zero exactly when every score of the key is the same; a single score gives sqrt(0) |
| Data.AbbreviateIds | src/utils/data.ts:104-109 | `abbreviateIds`: for a non-negative count at most one entry longer than the input, and holding nothing but the input's ids and "..." |
| Data.AbbreviateShort | src/utils/data.ts:105-107 | a list of at most 2·count ids is returned unchanged |
| Data.AbbreviateLong | src/utils/data.ts:108 | a longer list keeps the first and last count ids around "...", 2·count + 1 entries |
| Data.AbbreviateZero | src/utils/data.ts:108 | with count 0, `slice(-0)` is the whole list, so the result is "..." followed by every id |
| Js.Div | src/tools/compare-domain-performance.ts:33-35 | the quotient is NaN exactly when the count is zero; otherwise it times the count gives the sum |
| Js.Percent | src/tools/analyze-student-performance.ts:44-46 | (avg / 10) × 100 is ten times the average |
| Js.PercentOfTen | src/tools/compare-domain-performance.ts:36-38 | the percentage is NaN exactly when the average is; otherwise it is ten times the average |
| Js.Digits | src/utils/data.ts:82 | the decimal digits of a natural number are non-empty and all digits |
| Js.DigitsRoundTrip | src/utils/data.ts:82 | reading the digits back gives the number |
| Js.IntToStringRoundTrip | src/tools/get-exam-percentile.ts:21 | `String(n)` parses back to n |
| Js.IntToStringInjective | src/tools/get-exam-percentile.ts:21 | two ids print the same exactly when they are equal |
| Js.IntToString | src/utils/data.ts:82 | `String(n)`: non-empty, and starting with '-' exactly for a negative n |
| Js.Slice | src/utils/data.ts:108 | `slice(start, end)`: no longer than the list, the plain slice for indices in range, and only elements of the list |
| Js.SliceFrom | src/utils/data.ts:108 | `slice(start)`: the suffix from start, and the last -start elements for a negative start |
| Js.RelativeIndex | src/utils/data.ts:108 | a negative `slice` index counts from the end; the result stays within [0, len] |
| Js.RoundTenths | src/tools/predict-next-exam-scores.ts:42 | `Number(x.toFixed(1))` lies within 0.05 of x |
| Js.RoundTenthsOfWhole | src/tools/predict-next-exam-scores.ts:42 | a whole number is unchanged by rounding to tenths |
| Stats.Mean | src/utils/data.ts:89 | the mean times the count is the sum |
| Stats.SquaredDeviations | src/utils/data.ts:90 | the sum of squared deviations is never negative |
| Stats.Variance | src/utils/data.ts:90 | the population variance is non-negative and times the count gives the squared deviations from the mean |
| Stats.DeviationPositive | src/utils/data.ts:90 | one value away from the centre makes the squared deviations positive |
| Stats.DeviationZero | src/utils/data.ts:90 | values all equal to the centre give zero squared deviations |
| Stats.SquaredDeviationsZeroIff | src/utils/data.ts:90 | the squared deviations are zero exactly when every value equals the centre |
| Stats.SumOfConstant | src/utils/data.ts:89 | n equal values sum to n times that value |
| Stats.MeanOfConstant | src/utils/data.ts:89 | equal values have that value as their mean |
| Stats.VarianceZeroIffConstant | src/tools/get-exam-percentile.ts:30-32 | the variance is zero exactly when all scores are equal |
| Stats.SquaredDeviationsExpand | src/tools/predict-next-exam-scores.ts:37 | Σ(x − m)² = Σx² − 2mΣx + n·m² |
| Stats.SpreadIdentity | src/tools/predict-next-exam-scores.ts:37 | n·Σx² − (Σx)² is n times the squared deviations from the mean |
| Stats.SpreadZeroIffConstant | src/tools/predict-next-exam-scores.ts:37-38 | the fit's denominator is non-negative and zero exactly when all x are equal |
| Stats.SumOfSplit | src/tools/predict-next-exam-scores.ts:33-36 | a `reduce` sum splits over concatenation |
| Stats.SumOfRemove | src/tools/predict-next-exam-scores.ts:60-62 | removing one element from a sum subtracts its term |
| Stats.MultisetRemove | src/tools/predict-next-exam-scores.ts:60-62 | removing matching elements from two permutations leaves permutations |
| Stats.SumOfPermutation | src/tools/predict-next-exam-scores.ts:60-62 | a sum is the same in any order of its terms |
| Ranking.Weakest | src/tools/analyze-student-performance.ts:60 | with three numeric averages, the domain chosen has the smallest |
| Ranking.Strongest | src/tools/analyze-student-performance.ts:61 | with three numeric averages, the domain chosen has the largest |
| Ranking.WeakestIsLastMinimum | src/tools/analyze-student-performance.ts:60 | the weakest domain has the smallest average, and any later domain with a smaller or equal average wins |
| Ranking.StrongestIsLastMaximum | src/tools/analyze-student-performance.ts:61 | the strongest domain has the largest average, and ties go to the later domain |
| Ranking.AllEqualIsC | src/tools/analyze-student-performance.ts:60-61 | three equal averages make C both the strongest and the weakest |
| Ranking.AllNaNIsC | src/tools/compare-domain-performance.ts:48-49 | three NaN averages make C both the strongest and the weakest |
| Ranking.WeakestMirrorsStrongest | src/tools/analyze-student-performance.ts:60-61 | the weakest of the averages is the strongest of their negations |
| StudentAnalysis.AnalyzeStudentPerformance | src/tools/analyze-student-performance.ts:17-76 | the tool answers the report of the specification: not found, no exam data, or the analysis |
| StudentAnalysis.AnalyzeRecord | src/tools/analyze-student-performance.ts:26-74 | the accumulation loop and the pushes give the specified report for a found student |
| StudentAnalysis.NotFoundIff | src/tools/analyze-student-performance.ts:18-21 | "not found" exactly when no school lists the id |
| StudentAnalysis.NoExamDataIff | src/tools/analyze-student-performance.ts:23-25 | "no exam data" exactly when the student found has no exams, and it names that student |
| StudentAnalysis.OverallIsShareOfAllQuestions | src/tools/analyze-student-performance.ts:42-43 | the overall percentage is the share of correct items over all 30·n questions and the mean of the three domain percentages |
| StudentAnalysis.DomainPercentInRange | src/tools/analyze-student-performance.ts:44-46 | with item counts in [0, 10], every domain percentage lies in [0, 100] |
| StudentAnalysis.StrugglingExactly | src/tools/analyze-student-performance.ts:65-67 | a "struggling" line appears exactly for a domain below 50 % and carries its percentage |
| StudentAnalysis.ExactlyOneBand | src/tools/analyze-student-performance.ts:68-74 | exactly one band line closes the report, with the overall percentage |
| StudentAnalysis.BandThresholds | src/tools/analyze-student-performance.ts:68-74 | below 60 needs support, [60, 75) additional practice, 75 and above performing well |
| StudentAnalysis.WorkedExample | src/tools/analyze-student-performance.ts:37-74 | exams (6,7,5) and (7,8,6) give the full report: 65.0 %, strongest B, weakest C, additional practice |
| StudentAnalysis.WorkedExampleTotals | src/tools/analyze-student-performance.ts:31-36 | the two example exams total 13, 15 and 11 items and 170 points |
| DomainComparison.CompareDomainPerformance | src/tools/compare-domain-performance.ts:14-54 | the tool answers the specified reply: school not found, no students, or the comparison |
| DomainComparison.SumDomains | src/tools/compare-domain-performance.ts:21-32 | the loops total each domain over all exams of all students and count those exams |
| DomainComparison.NotFoundIff | src/tools/compare-domain-performance.ts:14-17 | "not found" exactly when no school has the id |
| DomainComparison.NoStudentsIff | src/tools/compare-domain-performance.ts:18-20 | "no students" exactly when the school found has an empty student list |
| DomainComparison.ExamCountIsAllExams | src/tools/compare-domain-performance.ts:39-40 | the count reported is the number of exams, not of students |
| DomainComparison.AverageDefinedIff | src/tools/compare-domain-performance.ts:33-35 | a domain average is a number exactly when there are exams, and then it is total / count |
| DomainComparison.AttentionExactly | src/tools/compare-domain-performance.ts:52-54 | a "needs attention" line appears exactly for a domain whose percentage is a number below 60 |
| DomainComparison.NoExamsAtAll | src/tools/compare-domain-performance.ts:33-54 | students without exams give NaN averages, C as strongest and weakest, and no attention line |
| DomainComparison.RankingWithExams | src/tools/compare-domain-performance.ts:48-51 | with exams, the strongest line names a largest average and the weakest line a smallest |
| SchoolOverview.Accumulate | src/tools/get-school-overview.ts:20-33 | the loops total scores and domain items over all exams and count the exams |
| SchoolOverview.GetSchoolOverview | src/tools/get-school-overview.ts:14-50 | the tool answers the specified overview, or "not found" |
| SchoolOverview.NotFoundIff | src/tools/get-school-overview.ts:14-17 | "not found" exactly when no school has the id |
| SchoolOverview.CountsAndGuard | src/tools/get-school-overview.ts:18-49 | the student count is the list's length; averages are printed exactly when the exam total is positive, else only the no-data line |
| SchoolOverview.DomainPercentFormula | src/tools/get-school-overview.ts:35-47 | each domain line carries total / exams and total / (10·exams) × 100 |
| Percentile.PercentileOf | src/tools/get-exam-percentile.ts:16-39 | the tool's reply: "student not found" exactly when no student has the id; a percentile reply has a non-zero deviation and is the CDF of its score, mean and deviation |
| Percentile.FindExam | src/tools/get-exam-percentile.ts:21-24 | None exactly when no exam has the key; otherwise an exam of the list with that key |
| Percentile.StudentGuard | src/tools/get-exam-percentile.ts:17-20 | "student not found" exactly when no school lists the id |
| Percentile.ExamGuard | src/tools/get-exam-percentile.ts:21-24 | "exam not found" exactly when the student found has no exam whose `String(exam_id)` matches |
| Percentile.BaselineAlwaysThere | src/tools/get-exam-percentile.ts:25-28 | the "no baseline" reply is never given: the exam found is part of the baseline |
| Percentile.IdenticalScoresIff | src/tools/get-exam-percentile.ts:29-32 | "identical scores" is answered exactly when every score under that exam id is the same |
| Percentile.PercentileValue | src/tools/get-exam-percentile.ts:29-37 | the CDF is applied to the first matching exam's score and the baseline's mean and non-zero deviation |
| Percentile.CdfOnlyAfterGuards | src/tools/get-exam-percentile.ts:17-33 | every reply except the percentile itself is the same whatever the CDF |
| Percentile.NumberOrString | src/tools/get-exam-percentile.ts:14-21 | a numeric exam id and its decimal string get the same reply |
| Percentile.NumberKeyFinds | src/tools/get-exam-percentile.ts:21 | a numeric key finds exactly the exams with that id |
| Percentile.BaselineUnderKey | src/tools/get-exam-percentile.ts:25-33 | the baseline used is the one for that exam id, whose mean times the count is the sum of its scores |
| Struggling.ClassMean | src/tools/identify-struggling-students.ts:87 | an empty bucket has mean 0; otherwise the mean times the count is the sum |
| Struggling.ClassVariance | src/tools/identify-struggling-students.ts:88 | the variance is non-negative, zero for an empty bucket, otherwise the mean squared deviation |
| Struggling.ResultLines | src/tools/identify-struggling-students.ts:98-101 | one result line per record, in order |
| Struggling.IdentifyStrugglingStudents | src/tools/identify-struggling-students.ts:32-104 | the tool answers the specified reply: not found, none found, or the report |
| Struggling.StrugglingIn | src/tools/identify-struggling-students.ts:40-101 | for a found school, the loops and the assembly give the specified report |
| Struggling.CollectRecords | src/tools/identify-struggling-students.ts:43-55 | the triple loop collects exactly the specified records, in student, exam, domain order |
| Struggling.CheckExam | src/tools/identify-struggling-students.ts:45-54 | one exam appends one record per checked domain below the threshold |
| Struggling.FillBuckets | src/tools/identify-struggling-students.ts:75-82 | every domain has a bucket, holding the items of every exam once per time that domain is checked |
| Struggling.FillStudent | src/tools/identify-struggling-students.ts:76-81 | one student's exams extend the buckets as specified |
| Struggling.PushScores | src/tools/identify-struggling-students.ts:77-80 | one exam pushes its domain items onto the buckets as specified |
| Struggling.ClassStatistics | src/tools/identify-struggling-students.ts:83-93 | the statistics lines are the heading and one line per checked domain, from that domain's bucket |
| Struggling.DomainsChecked | src/tools/identify-struggling-students.ts:40-42 | the given non-empty list is checked; otherwise all of A, B and C |
| Struggling.AbsentIsEmpty | src/tools/identify-struggling-students.ts:40-42 | leaving out the domains and passing an empty list give the same reply |
| Struggling.SuffixWording | src/tools/identify-struggling-students.ts:95-97 | the header names the domains exactly when some are given, in plural exactly when more than one |
| Struggling.ExamRecordsMembers | src/tools/identify-struggling-students.ts:45-54 | an exam's records are exactly those of the checked domains below the threshold |
| Struggling.StudentRecordsMembers | src/tools/identify-struggling-students.ts:44-54 | a student's records are exactly those of its exams and checked domains below the threshold |
| Struggling.RecordsMembers | src/tools/identify-struggling-students.ts:43-55 | a record is reported exactly when some student, exam and checked domain is below the threshold |
| Struggling.MonotonicInThreshold | src/tools/identify-struggling-students.ts:47 | raising the threshold keeps every record |
| Struggling.RecordsBelow | src/tools/identify-struggling-students.ts:47-48 | every record is below the threshold, for a checked domain, with ten times its score as percentage |
| Struggling.NoneFoundIff | src/tools/identify-struggling-students.ts:56-73 | "none found" exactly when there are no records; it does not depend on the square root and shows 10 × threshold |
| Struggling.ReportOrder | src/tools/identify-struggling-students.ts:98-101 | header, statistics heading, one line per checked domain, a blank line, then one line per record in order |
| Struggling.StatLinesShape | src/tools/identify-struggling-students.ts:83-93 | one statistics line per checked domain, from its own bucket |
| Struggling.ExamPushesShape | src/tools/identify-struggling-students.ts:77-80 | an exam pushes its item count once per time its domain is listed |
| Struggling.BucketSize | src/tools/identify-struggling-students.ts:75-82 | a bucket holds n exams × the number of times the domain is listed, so n when listed once |
| Struggling.BucketMembers | src/tools/identify-struggling-students.ts:75-82 | every bucket value is the item count of some exam |
| Struggling.DefaultBuckets | src/tools/identify-struggling-students.ts:40-42 | with the default domains, every bucket holds one value per exam |
| Legacy.AnalyzeStudentTool | src/mcp-server.js:78-100 | reading `a`/`b`/`c` as A/B/C, the older handler's reply equals the current analyser's reply |
| Legacy.AnalyzeStudentPerformance | src/mcp-server.js:165-216 | reading `a`/`b`/`c` as A/B/C, the older analyser gives the same report as the current one |
| Legacy.AnalyzeDomainPerformance | src/mcp-server.js:217-259 | reading `a`/`b`/`c` as A/B/C, the older comparator gives the same reply as the current one |
| Legacy.CountExams | src/mcp-server.js:226-235 | the loop totals each domain and counts the exams |
| Legacy.Entries | src/mcp-server.js:322-324 | one entry line per record, in order |
| Legacy.IdentifyStrugglingStudents | src/mcp-server.js:260-326 | the older tool answers the specified legacy reply |
| Legacy.StrugglingIn | src/mcp-server.js:266-324 | for a found school: the heading and then the entries, or the "none found" message |
| Legacy.PushEntries | src/mcp-server.js:321-324 | the heading followed by one entry per record |
| Legacy.CheckStudent | src/mcp-server.js:266-317 | a student's exams append exactly that student's records |
| Legacy.CheckExam | src/mcp-server.js:268-315 | one exam gives the records of the checked domain, or of all three, below the threshold |
| Legacy.SameRecordsAsTool | src/mcp-server.js:260-326 | reading `a`/`b`/`c` as A/B/C, the older tool and the current one agree on every kind of reply and on the records |
| Legacy.SameRecordsInSchool | src/mcp-server.js:266-324 | reading `a`/`b`/`c` as A/B/C, for one school both tools agree on the kind of reply and on the records |
| Legacy.SameEntriesInSchool | src/mcp-server.js:322-324 | reading `a`/`b`/`c` as A/B/C, the older entries are exactly the current result lines, after its statistics block |
| Legacy.MonotonicInThreshold | src/mcp-server.js:268-315 | raising the threshold keeps a report a report and keeps every entry |
| Legacy.EntryIn | src/mcp-server.js:322-324 | an entry is listed exactly when its record was found |
| Legacy.NoneFoundIff | src/mcp-server.js:318-320 | "none found" exactly when no exam is below the threshold in a checked domain; every entry is below it |
| Legacy.GetSchoolOverview | src/mcp-server.js:327-362 | the older overview answers the specified legacy overview |
| Legacy.OneMoreBlank | src/mcp-server.js:332 | reading `a`/`b`/`c` as A/B/C, the older overview is the current one with a blank line after the title |
| Legacy.DividesOnlyWithExams | src/mcp-server.js:346-360 | the no-data line ends the overview exactly when there are no exams; 4 lines then, 10 otherwise |
| Metrics.Correct | evaluation/compute_metrics.py:21 | at most the number of prompts, and equal exactly when every prediction is right |
| Metrics.Accuracy | evaluation/compute_metrics.py:21 | the accuracy lies in [0, 1] and is 1 exactly when every prediction is right |
| Metrics.GuardedRatio | evaluation/compute_metrics.py:37-38 | in [0, 1]; 0 exactly without hits, 1 exactly with hits and no misses |
| Metrics.F1 | evaluation/compute_metrics.py:39 | in [0, 1] for precision and recall in [0, 1]; 0 exactly when either is 0; the common value when they are equal |
| Metrics.F1Facts | evaluation/compute_metrics.py:39 | the same facts for the harmonic-mean branch |
| Metrics.Dedup | evaluation/compute_metrics.py:24 | no duplicates, and the same members as the input |
| Metrics.MetricsOf | evaluation/compute_metrics.py:16-51 | one model's entry: under its name, accuracy in [0, 1], and accuracy 1 exactly when every prompt has a prediction and it is the right tool |
| Metrics.ComputeMetrics | evaluation/compute_metrics.py:14-51 | one entry per model, in order, with that model's metrics |
| Metrics.PerClass | evaluation/compute_metrics.py:29-43 | the per-class lists hold each class's precision, recall and F1, in class order |
| Metrics.ScoresLength | evaluation/compute_metrics.py:41-43 | one score per class, each the score of that class |
| Metrics.ScoreBounds | evaluation/compute_metrics.py:37-39 | every per-class score lies in [0, 1] |
| Metrics.F1ZeroIffNoHit | evaluation/compute_metrics.py:30-39 | a class's F1 is zero exactly when it has no true positive |
| Metrics.CountsAddUp | evaluation/compute_metrics.py:30-35 | tp + fn counts the class among true labels, tp + fp among predicted ones |
| Metrics.SumTpLast | evaluation/compute_metrics.py:30-31 | the last prompt adds one true positive exactly when it is right and its label is a class |
| Metrics.SumTpIsCorrect | evaluation/compute_metrics.py:21-31 | over classes that include every true label, the true positives add up to the correct count |
| Metrics.SumTpOverClasses | evaluation/compute_metrics.py:21-31 | over the script's own classes, the true positives add up to the accuracy numerator |
| Metrics.ClassesAreTheUnion | evaluation/compute_metrics.py:24 | the classes are distinct and are exactly the true and predicted labels |
| Metrics.MissingPrediction | evaluation/compute_metrics.py:18 | a prompt without a prediction is wrong and adds a None class scoring 0 |
| Metrics.NoneNeverTrue | evaluation/compute_metrics.py:17 | None is never a true label |
| Metrics.SumBounds | evaluation/compute_metrics.py:48-50 | a sum of values in [0, 1] lies in [0, n] |
| Metrics.MetricsBounds | evaluation/compute_metrics.py:45-51 | every metric lies in [0, 1], under the model's name |
| Metrics.PerfectModel | evaluation/compute_metrics.py:15-51 | a model that predicts every prompt right scores 1 on every metric |
| Metrics.PerfectMean | evaluation/compute_metrics.py:48-50 | on perfect predictions, every macro mean is 1 |
| Metrics.MeanOfSum | evaluation/compute_metrics.py:48-50 | n values summing to n have mean 1 |
| Metrics.PerfectCounts | evaluation/compute_metrics.py:30-35 | on perfect predictions a class that occurs has hits and no misses |
| Metrics.NoMisses | evaluation/compute_metrics.py:32-35 | on perfect predictions no class has a false positive or negative |
| Metrics.ScoresSum | evaluation/compute_metrics.py:41-50 | the sum of the per-class list is the sum of the score over the classes |
| Metrics.MacroMeanOrderFree | evaluation/compute_metrics.py:24-29 | the macro means do not depend on the order in which the class set is visited |
| StatsParser.TrimStartShape | evaluation/plot_stats.py:33 | the left trim is a suffix, preceded only by whitespace, not starting with any |
| StatsParser.TrimEndShape | evaluation/plot_stats.py:33 | the right trim is a prefix, followed only by whitespace, not ending with any |
| StatsParser.StripSlice | evaluation/plot_stats.py:32-33 | `strip()` keeps a contiguous slice with only whitespace around it |
| StatsParser.StripEnds | evaluation/plot_stats.py:32-33 | neither end of a stripped string is whitespace |
| StatsParser.StripEmpty | evaluation/plot_stats.py:32 | a line strips to nothing exactly when it is all whitespace |
| StatsParser.Split | evaluation/plot_stats.py:33 | `split(',')` gives at least one part |
| StatsParser.SplitParts | evaluation/plot_stats.py:33 | no part holds the separator |
| StatsParser.Parts | evaluation/plot_stats.py:33 | one stripped part per split part |
| StatsParser.BlockEnd | evaluation/plot_stats.py:32 | the rows stop at the first blank or `System Prompt:` line, or at the end |
| StatsParser.BlockOf | evaluation/plot_stats.py:32-43 | a block has as many averages as names, at most one per row line |
| StatsParser.Averages | evaluation/plot_stats.py:48 | one averages list per block, in order |
| StatsParser.NextRow | evaluation/plot_stats.py:32-43 | one more row line extends the block by that row alone |
| StatsParser.ParseOutputStats | evaluation/plot_stats.py:14-51 | the loops answer the class names and the averages of the specified blocks |
| StatsParser.ReadRows | evaluation/plot_stats.py:32-43 | the inner loop stops at the block's end and reads the block of the lines it passed |
| StatsParser.ReadRow | evaluation/plot_stats.py:33-43 | a row with three parts and a third that parses appends its name and average; other rows add nothing |
| StatsParser.SplitJoin | evaluation/plot_stats.py:33 | joining the parts again gives the line |
| StatsParser.StripIdempotent | evaluation/plot_stats.py:33 | stripping twice is stripping once |
| StatsParser.NamesMatchAverages | evaluation/plot_stats.py:41-42 | within every block, as many averages as names |
| StatsParser.RowsOrigin | evaluation/plot_stats.py:33-42 | every name and average comes, together, from one row line that parses |
| StatsParser.SkippedRow | evaluation/plot_stats.py:34-40 | a row with fewer than three parts, or whose third part does not parse, adds nothing |
| StatsParser.ParsedRow | evaluation/plot_stats.py:35-42 | a row that parses appends its first part and its parsed third part |
| StatsParser.NoHeaderNoBlocks | evaluation/plot_stats.py:49-50 | lines without a header add no block |
| StatsParser.HeaderCountMonotone | evaluation/plot_stats.py:28 | fewer lines hold no more headers |
| StatsParser.BlocksPerHeader | evaluation/plot_stats.py:27-50 | at most one block per header line |
| StatsParser.OneBlockPerHeader | evaluation/plot_stats.py:27-50 | exactly one block per header when no header falls inside another block's rows |
| StatsParser.NoHeaderBetween | evaluation/plot_stats.py:28 | a stretch without headers does not change the header count |
| StatsParser.FirstNonEmptyNames | evaluation/plot_stats.py:44-45 | the class names are empty exactly when every block's are, and otherwise those of the first block that has any |
| StatsParser.ParserResult | evaluation/plot_stats.py:44-51 | the class names are the first non-empty block's, and that block's averages match them in length |
| Prediction.FitLine | src/tools/predict-next-exam-scores.ts:32-39 | the least-squares line: slope 0 when the denominator is 0, otherwise slope × denominator = nΣxy − ΣxΣy; the line passes through the mean point (n·intercept + slope·Σx = Σy) |
| Prediction.Xs | src/tools/predict-next-exam-scores.ts:33 | the ids of the points, in order |
| Prediction.FitPermutation | src/tools/predict-next-exam-scores.ts:60-71 | the least-squares fit does not depend on the order of the points |
| Prediction.DenominatorZeroIff | src/tools/predict-next-exam-scores.ts:37-38 | the denominator is non-negative and zero exactly when every id is the same |
| Prediction.FlatWhenIdsEqual | src/tools/predict-next-exam-scores.ts:38-39 | with all ids equal, the slope is 0 and the intercept is the mean score |
| Prediction.ExactOnLinear | src/tools/predict-next-exam-scores.ts:32-39 | points on a line y = a + bx with two distinct ids are fitted by exactly that line |
| Prediction.Swap | src/tools/predict-next-exam-scores.ts:31 | two elements change places and nothing else changes |
| Prediction.SortById | src/tools/predict-next-exam-scores.ts:31 | the array is sorted by id and is a permutation of its old contents |
| Prediction.MaxIdIsMax | src/tools/predict-next-exam-scores.ts:40 | the largest id is some point's id and no point's id exceeds it |
| Prediction.SortedLastIsMax | src/tools/predict-next-exam-scores.ts:40 | after sorting, the last point has the largest id |
| Prediction.Observations | src/tools/predict-next-exam-scores.ts:20 | one point per exam, its id and score, in order |
| Prediction.GroupsSpec | src/tools/predict-next-exam-scores.ts:50-59 | an id is grouped exactly when it has scores; its group holds their sum and count |
| Prediction.IdScoresOccur | src/tools/predict-next-exam-scores.ts:53-57 | an id has scores exactly when some exam has that id |
| Prediction.DistinctIdsSpec | src/tools/predict-next-exam-scores.ts:60 | the key list has no duplicates and holds exactly the grouped ids |
| Prediction.PointsOfSpec | src/tools/predict-next-exam-scores.ts:60-61 | one point per key, each the key and its group average, without duplicates |
| Prediction.SameElements | src/tools/predict-next-exam-scores.ts:60-62 | two duplicate-free lists with the same members are permutations |
| Prediction.SchoolPointIsAverage | src/tools/predict-next-exam-scores.ts:61 | every school point is the mean of the scores of its exam id, which occurs |
| Prediction.SchoolFitIff | src/tools/predict-next-exam-scores.ts:63-73 | the school has a trend exactly when at least two distinct exam ids occur |
| Prediction.FindPredictedSpec | src/tools/predict-next-exam-scores.ts:93 | None exactly when no prediction has the id; otherwise the first with it |
| Prediction.PredictNextExamScores | src/tools/predict-next-exam-scores.ts:15-143 | the tool answers the specified reply: not found, not enough data, or the prediction |
| Prediction.StudentTrend | src/tools/predict-next-exam-scores.ts:31-40 | after sorting, the sums give the least-squares fit and the last id is the largest id |
| Prediction.SchoolTrendOf | src/tools/predict-next-exam-scores.ts:45-74 | the school block gives the specified school trend, or none |
| Prediction.GroupByExamId | src/tools/predict-next-exam-scores.ts:50-59 | the loops give the sums and counts per exam id and the ids in first-seen order |
| Prediction.GroupExams | src/tools/predict-next-exam-scores.ts:52-58 | one student's exams extend the groups as specified |
| Prediction.GroupData | src/tools/predict-next-exam-scores.ts:60-62 | the points are sorted by id and are the grouped averages in some order |
| Prediction.ComposeLines | src/tools/predict-next-exam-scores.ts:76-142 | the pushes give the specified reply lines |
| Prediction.PushExamLines | src/tools/predict-next-exam-scores.ts:78-103 | one exam line per prediction, with the school figure when it has one |
| Prediction.PushCompLines | src/tools/predict-next-exam-scores.ts:106-125 | one advice line per prediction that has a school figure |
| Prediction.NotFoundIff | src/tools/predict-next-exam-scores.ts:16-19 | "not found" exactly when no school lists the id |
| Prediction.NotEnoughDataIff | src/tools/predict-next-exam-scores.ts:21-30 | "not enough data" exactly when the student found has fewer than two exams |
| Prediction.SchoolAlwaysFound | src/tools/predict-next-exam-scores.ts:45-49 | the student's own school is always found |
| Prediction.SchoolTrendIff | src/tools/predict-next-exam-scores.ts:63-73 | the school comparison is made exactly when the school has at least two distinct exam ids |
| Prediction.FindOwnPrediction | src/tools/predict-next-exam-scores.ts:93 | looking up either predicted id finds its own prediction |
| Prediction.CompLineBySign | src/tools/predict-next-exam-scores.ts:107-125 | no advice without a school figure; otherwise one below, above or matching line by the sign, with the positive gap |
| Prediction.GradeLabel | src/tools/predict-next-exam-scores.ts:79-92 | 9 and 10 are the 8th-grade exams, up to 2 4th grade, 3-4 5th, 5-6 6th, 7-8 7th, from 11 a future exam |
| Prediction.TwoPredictions | src/tools/predict-next-exam-scores.ts:78-128 | two predictions give two exam lines and their advice lines in order |
| Prediction.LinesWithoutSchool | src/tools/predict-next-exam-scores.ts:76-142 | without a school trend, six lines: heading, two plain exam lines, blank, advice heading, reminder |
| Prediction.LinesWithSchool | src/tools/predict-next-exam-scores.ts:76-142 | with a school trend, the exam lines carry the school figures, then the advice lines and the pace line |
| Prediction.NextIdsFollowLast | src/tools/predict-next-exam-scores.ts:40-41 | the predicted ids are one and two past the largest exam id |
| Prediction.PredictionsNearLine | src/tools/predict-next-exam-scores.ts:42 | each prediction is for its id and within 0.05 of the line at that id |
| Prediction.ReplyLines | src/tools/predict-next-exam-scores.ts:31-143 | the reply's lines use the student's fit, and the school's predictions exactly when it has a trend |
| Prediction.ReplyWithoutSchool | src/tools/predict-next-exam-scores.ts:76-142 | without a school trend the reply is the six lines with no comparison |
| Prediction.ReplyWithSchool | src/tools/predict-next-exam-scores.ts:129-139 | with a school trend: nine lines, and "at or above" exactly when the student's slope is at least the school's |
| Prediction.WorkedExample | src/tools/predict-next-exam-scores.ts:31-42 | scores 60, 70, 80 on exams 1-3 fit y = 50 + 10x and predict 90 and 100 for exams 4 and 5 |

## Left out

- Reading the JSON dataset, the files the scripts read and write, and the MCP transport: the dataset is a parameter of every tool, the evaluation inputs are sequences and maps.
- Text rendering: each report is a sequence of line values with the numbers they print; `toFixed` formatting is left out, except the `Number(x.toFixed(1))` of the predictor, modelled as rounding to tenths (`Js.RoundTenths`). Python's `round(·, 4)` is left out.
- Floating point: numbers are exact reals; JavaScript's NaN is modelled (`Js.Num`) where the comparator divides by zero.
- `Math.sqrt` and `normalCdf` are parameters of the tools that use them; the statistics helper that approximates the normal CDF is not part of this model.
- Input validation by the schema library: domain names reach the tools already validated and upper-cased, and the threshold arrives as a number (the schema's default of 5 is `Struggling.DefaultThreshold`).
- The older server's `findStudentById` is the same loop as `Data.FindStudentById` and is not modelled a second time.
- Exam ids are integers: `String(exam_id)` is the decimal form of an integer; ids that are not numerals are left out.
- Object key order (`Object.entries`) and Python set order: the school fit and the macro means are proved independent of that order (`Prediction.FitPermutation`, `Metrics.MacroMeanOrderFree`), and the classes are taken in order of first occurrence.
- The plotter, the `main` functions of the scripts, and the warning written to stderr for an inconsistent class order.
- Legacy.AnalyzeStudentTool: the older server reads `items_correct.a`, `.b` and `.c`. The model assumes the dataset it reads carries those keys, and reads them as domains A, B and C. The equality with the current tool therefore compares each server on the key set it looks up. On a dataset with only the upper-case keys `A`, `B` and `C`, the older server adds `undefined`, prints NaN averages, names C as strongest and weakest, and finds no struggling records. That case is not modelled.
- Legacy.AnalyzeStudentPerformance: equal to the current report only under the key reading of `Legacy.AnalyzeStudentTool` above; the NaN report on upper-case keys is not modelled.
- Legacy.AnalyzeDomainPerformance: equal to the current comparison only under the same key reading; on upper-case keys the older server's sums are NaN, which is not modelled.
- Legacy.SameRecordsAsTool: the agreement with the current tool holds under the same key reading; on upper-case keys `undefined < threshold` is false and the older tool finds nothing, which is not modelled.
- Legacy.SameRecordsInSchool: the same key reading as `Legacy.SameRecordsAsTool`.
- Legacy.SameEntriesInSchool: the same key reading as `Legacy.SameRecordsAsTool`.
- Legacy.OneMoreBlank: the domain lines the two overviews share rest on the same key reading; on upper-case keys the older overview's domain averages are NaN, which is not modelled.
- Metrics.MetricsOf: requires at least one prompt, since the script divides by the number of prompts and fails on none.
- StatsParser.ParseOutputStats: Python's `float` is a parameter (`parseFloat`); the trailing newline that `readlines` keeps is treated as whitespace.
- Metrics.ComputeMetrics: the model results arrive as a list of (model, predictions) pairs in dictionary order.
- The `key` field of a student and the `time` field of an exam: no tool of the core reads them.
- Prediction.SortById: JavaScript's sort is modelled by an insertion sort with the same result up to the order of equal ids; the sums that use the order are proved order-independent.
