/**
 * The exam percentile (`get-exam-percentile`): a chain of four guards — the
 * student exists, the student took that exam, the exam has a baseline, the
 * baseline's standard deviation is not zero — and then one call of the normal
 * CDF, which is the parameter `cdf` (score, mean, stdDev) ↦ probability.
 *
 * `examStats` is computed once from the same dataset the student is looked up
 * in; the model recomputes it as `Data.Baseline(schools, sqrt)`.
 */
module Percentile {
  import opened Js
  import opened Data
  import Stats

  /** The `exam_id` argument: a number or a string. */
  datatype ExamKey = NumberKey(n: int) | StringKey(s: string)

  /** `String(exam_id)` */
  function KeyString(k: ExamKey): string {
    match k
    case NumberKey(n) => IntToString(n)
    case StringKey(s) => s
  }

  /** `student.exams.find((e) => String(e.exam_id) === key)` */
  function FindExam(exams: seq<Exam>, key: string): (r: Option<Exam>)
    ensures r.None? <==> forall k :: 0 <= k < |exams| ==> KeyOf(exams[k]) != key
    ensures r.Some? ==> exists k :: && 0 <= k < |exams| && exams[k] == r.value && KeyOf(r.value) == key
                                    && forall j :: 0 <= j < k ==> KeyOf(exams[j]) != key
  {
    if exams == [] then None
    else if KeyOf(exams[0]) == key then Some(exams[0])
    else
      var r := FindExam(exams[1..], key);
      assert forall k :: 0 < k < |exams| ==> exams[k] == exams[1..][k - 1];
      if r.Some? then
        var k :| && 0 <= k < |exams[1..]| && exams[1..][k] == r.value && KeyOf(r.value) == key
                 && forall j :: 0 <= j < k ==> KeyOf(exams[1..][j]) != key;
        assert exams[k + 1] == r.value;
        r
      else r
  }

  /**
   * The replies; the exam is named by `String(exam_id)`, which is what the
   * messages print.
   */
  datatype Reply =
    | StudentNotFound(studentId: string)
    | ExamNotFound(exam: string, studentId: string)
    | NoBaseline(exam: string)
    | IdenticalScores(exam: string)
    | Percentile(studentId: string, score: real, exam: string, mean: real, stdDev: real, percentile: real)

  /** The tool's `run`. */
  function PercentileOf(schools: seq<School>, studentId: string, examId: ExamKey,
                        sqrt: real -> real, cdf: (real, real, real) -> real): (r: Reply)
    ensures r.StudentNotFound? <==> FindStudent(schools, studentId).None?
    ensures r.Percentile? ==> r.stdDev != 0.0 && r.percentile == cdf(r.score, r.mean, r.stdDev)
  {
    var key := KeyString(examId);
    match FindStudent(schools, studentId)
    case None => StudentNotFound(studentId)
    case Some(found) =>
      match FindExam(found.student.exams, key)
      case None => ExamNotFound(key, studentId)
      case Some(entry) =>
        var examStats := Baseline(schools, sqrt);
        if key !in examStats then NoBaseline(key)
        else
          var stats := examStats[key];
          if stats.stdDev == 0.0 then IdenticalScores(key)
          else Percentile(studentId, entry.score, key, stats.mean, stats.stdDev, cdf(entry.score, stats.mean, stats.stdDev))
  }

  // ---------------------------------------------------------------------------
  // Properties

  /** First guard: the student. */
  lemma StudentGuard(schools: seq<School>, studentId: string, examId: ExamKey, sqrt: real -> real, cdf: (real, real, real) -> real)
    ensures PercentileOf(schools, studentId, examId, sqrt, cdf).StudentNotFound?
        <==> forall i, j :: 0 <= i < |schools| && 0 <= j < |schools[i].students| ==> schools[i].students[j].id != studentId
  {
    FindStudentSomeIff(schools, studentId);
  }

  /** Second guard: the student found first has no exam whose `String(exam_id)` is the key. */
  lemma ExamGuard(schools: seq<School>, studentId: string, examId: ExamKey, sqrt: real -> real, cdf: (real, real, real) -> real)
    ensures PercentileOf(schools, studentId, examId, sqrt, cdf).ExamNotFound?
        <==> && FindStudent(schools, studentId).Some?
             && var exams := FindStudent(schools, studentId).value.student.exams;
                forall k :: 0 <= k < |exams| ==> KeyOf(exams[k]) != KeyString(examId)
  {
  }

  /**
   * Third guard: it never fires. The exam found belongs to a student of the
   * dataset, so its id is one the baseline was computed for.
   */
  lemma BaselineAlwaysThere(schools: seq<School>, studentId: string, examId: ExamKey, sqrt: real -> real, cdf: (real, real, real) -> real)
    ensures !PercentileOf(schools, studentId, examId, sqrt, cdf).NoBaseline?
  {
    var key := KeyString(examId);
    var found := FindStudent(schools, studentId);
    if found.Some? {
      var entry := FindExam(found.value.student.exams, key);
      if entry.Some? {
        FindStudentFirst(schools, studentId);
        var i, j :| && 0 <= i < |schools| && 0 <= j < |schools[i].students|
                    && found.value == FoundStudent(schools[i].students[j], schools[i].id);
        AllExamsHas(schools, i, j, entry.value);
        assert key in Keys(AllExams(schools));
      }
    }
  }

  /**
   * Fourth guard: with a square root that is zero exactly at zero, "identical
   * scores" is answered exactly when every score recorded for that exam id is the same.
   */
  lemma IdenticalScoresIff(schools: seq<School>, studentId: string, examId: ExamKey, sqrt: real -> real, cdf: (real, real, real) -> real)
    requires forall v :: v >= 0.0 ==> (sqrt(v) == 0.0 <==> v == 0.0)
    requires FindStudent(schools, studentId).Some?
    requires FindExam(FindStudent(schools, studentId).value.student.exams, KeyString(examId)).Some?
    ensures PercentileOf(schools, studentId, examId, sqrt, cdf).IdenticalScores?
        <==> Stats.Constant(ScoresFor(AllExams(schools), KeyString(examId)))
  {
    var key := KeyString(examId);
    BaselineAlwaysThere(schools, studentId, examId, sqrt, cdf);
    BaselineStdDevZero(schools, sqrt, key);
  }

  /**
   * When every guard passes, the CDF is applied to the score of the student's
   * first exam with that id and to the baseline's mean and standard deviation,
   * which are nonzero; the reply echoes that score, mean and deviation.
   */
  lemma PercentileValue(schools: seq<School>, studentId: string, examId: ExamKey, sqrt: real -> real, cdf: (real, real, real) -> real)
    requires PercentileOf(schools, studentId, examId, sqrt, cdf).Percentile?
    ensures var r := PercentileOf(schools, studentId, examId, sqrt, cdf);
            var key := KeyString(examId);
            var exams := FindStudent(schools, studentId).value.student.exams;
            && key in Baseline(schools, sqrt)
            && r.mean == Baseline(schools, sqrt)[key].mean
            && r.stdDev == Baseline(schools, sqrt)[key].stdDev != 0.0
            && r.percentile == cdf(r.score, r.mean, r.stdDev)
            && exists k :: && 0 <= k < |exams| && KeyOf(exams[k]) == key && r.score == exams[k].score
                           && forall j :: 0 <= j < k ==> KeyOf(exams[j]) != key
  {
  }

  /** Every reply but the last is the same whatever the CDF: it is only called once every guard has passed. */
  lemma CdfOnlyAfterGuards(schools: seq<School>, studentId: string, examId: ExamKey, sqrt: real -> real,
                           cdf: (real, real, real) -> real, cdf': (real, real, real) -> real)
    ensures !PercentileOf(schools, studentId, examId, sqrt, cdf).Percentile?
        ==> PercentileOf(schools, studentId, examId, sqrt, cdf) == PercentileOf(schools, studentId, examId, sqrt, cdf')
  {
  }

  /** The number 5 and the string "5" ask for the same exam and get the same reply. */
  lemma NumberOrString(schools: seq<School>, studentId: string, n: int, sqrt: real -> real, cdf: (real, real, real) -> real)
    ensures PercentileOf(schools, studentId, NumberKey(n), sqrt, cdf)
         == PercentileOf(schools, studentId, StringKey(IntToString(n)), sqrt, cdf)
  {
  }

  /** A numeric argument finds exactly the exams with that id. */
  lemma NumberKeyFinds(exams: seq<Exam>, n: int)
    ensures FindExam(exams, KeyString(NumberKey(n))).None? <==> forall k :: 0 <= k < |exams| ==> exams[k].examId != n
    ensures FindExam(exams, KeyString(NumberKey(n))).Some? ==> FindExam(exams, KeyString(NumberKey(n))).value.examId == n
  {
    forall k | 0 <= k < |exams| {
      IntToStringInjective(exams[k].examId, n);
    }
    var r := FindExam(exams, IntToString(n));
    if r.Some? {
      IntToStringInjective(r.value.examId, n);
    }
  }

  /** The baseline is looked up under the same key the exam was matched with. */
  lemma BaselineUnderKey(schools: seq<School>, studentId: string, n: int, sqrt: real -> real, cdf: (real, real, real) -> real)
    requires PercentileOf(schools, studentId, NumberKey(n), sqrt, cdf).Percentile?
    ensures var r := PercentileOf(schools, studentId, NumberKey(n), sqrt, cdf);
            && r.exam == IntToString(n)
            && r.mean == Baseline(schools, sqrt)[IntToString(n)].mean
            && Stats.Product(r.mean, |ScoresFor(AllExams(schools), IntToString(n))| as real)
               == Stats.Sum(ScoresFor(AllExams(schools), IntToString(n)))
  {
    BaselineAlwaysThere(schools, studentId, NumberKey(n), sqrt, cdf);
    BaselineEntry(schools, sqrt, IntToString(n));
  }
}
