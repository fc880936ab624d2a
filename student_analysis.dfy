/**
 * The per-student analyzer (`analyze-student-performance`): average exam score,
 * per-domain averages and percentages, the overall share of the 30 questions,
 * strongest and weakest domain, struggle flags and one of three bands.
 *
 * Report lines are values; the decimal rendering (`toFixed(1)`) is left to the
 * renderer and each line carries the exact number it renders.
 */
module StudentAnalysis {
  import opened Js
  import opened Data
  import Ranking

  datatype Band = NeedsSupport | AdditionalPractice | PerformingWell

  datatype Line =
    | Title(studentId: string, schoolId: string)
    | AverageScore(score: real)
    | OverallCorrect(correct: real, outOf: int, pct: real)
    | Blank
    | DomainHeading
    | DomainAverage(domain: Domain, avg: real, pct: real)
    | InsightsHeading
    | StrongestDomain(domain: Domain)
    | WeakestDomain(domain: Domain)
    | Struggling(domain: Domain, pct: real)
    | BandLine(band: Band, pct: real)

  datatype Reply =
    | StudentNotFound(studentId: string)
    | NoExamData(studentId: string)
    | Report(lines: seq<Line>)

  /** `(totalD / examCount)` */
  function Average(exams: seq<Exam>, d: Domain): real
    requires |exams| > 0
  {
    ItemTotal(exams, d) as real / |exams| as real
  }

  /** `((avgA + avgB + avgC) / TOTAL_QUESTIONS_PER_EXAM) * 100` */
  function OverallPct(exams: seq<Exam>): real
    requires |exams| > 0
  {
    (Average(exams, A) + Average(exams, B) + Average(exams, C)) / TotalQuestionsPerExam as real * 100.0
  }

  /** The three bands: below 60, below 75, and the rest. */
  function BandOf(pct: real): Band {
    if pct < 60.0 then NeedsSupport else if pct < 75.0 then AdditionalPractice else PerformingWell
  }

  function StruggleLine(exams: seq<Exam>, d: Domain): seq<Line>
    requires |exams| > 0
  {
    var pct := Percent(Average(exams, d));
    if pct < 50.0 then [Struggling(d, pct)] else []
  }

  /** The report for a student with at least one exam, line by line. */
  function ReportLines(f: FoundStudent): seq<Line>
    requires |f.student.exams| > 0
  {
    var exams := f.student.exams;
    var overall := OverallPct(exams);
    Summary(f)
    + StruggleLine(exams, A) + StruggleLine(exams, B) + StruggleLine(exams, C)
    + [BandLine(BandOf(overall), overall)]
  }

  /** The twelve lines every report starts with: title, averages, domain table, strongest and weakest. */
  function Summary(f: FoundStudent): seq<Line>
    requires |f.student.exams| > 0
  {
    var exams := f.student.exams;
    var a, b, c := Average(exams, A), Average(exams, B), Average(exams, C);
    [ Title(f.student.id, f.schoolId),
      AverageScore(ScoreTotal(exams) / |exams| as real),
      OverallCorrect(a + b + c, TotalQuestionsPerExam, OverallPct(exams)),
      Blank,
      DomainHeading,
      DomainAverage(A, a, Percent(a)),
      DomainAverage(B, b, Percent(b)),
      DomainAverage(C, c, Percent(c)),
      Blank,
      InsightsHeading,
      StrongestDomain(Ranking.Strongest(Fin(a), Fin(b), Fin(c))),
      WeakestDomain(Ranking.Weakest(Fin(a), Fin(b), Fin(c))) ]
  }

  /** What the analyzer answers for a student record that was found. */
  function ReportFor(f: FoundStudent): Reply {
    if |f.student.exams| == 0 then NoExamData(f.student.id) else Report(ReportLines(f))
  }

  /** What the tool answers for a student id. */
  function AnalysisOf(schools: seq<School>, studentId: string): Reply {
    match FindStudent(schools, studentId)
    case None => StudentNotFound(studentId)
    case Some(f) => ReportFor(f)
  }

  /** The tool's `run`: look the student up, then analyze the record found. */
  method AnalyzeStudentPerformance(schools: seq<School>, studentId: string) returns (r: Reply)
    ensures r == AnalysisOf(schools, studentId)
  {
    var found := FindStudentById(schools, studentId);
    if found.None? {
      return StudentNotFound(studentId);
    }
    r := AnalyzeRecord(found.value);
  }

  /** The body of `run` after the lookup: total the exams in one loop, then push the lines. */
  method AnalyzeRecord(found: FoundStudent) returns (r: Reply)
    ensures r == ReportFor(found)
  {
    var student := found.student;
    var exams := student.exams;
    if |exams| == 0 {
      return NoExamData(student.id);
    }
    var totalA, totalB, totalC, avgScore := 0, 0, 0, 0.0;
    var i := 0;
    while i < |exams|
      invariant 0 <= i <= |exams|
      invariant totalA == ItemTotal(exams[..i], A)
      invariant totalB == ItemTotal(exams[..i], B)
      invariant totalC == ItemTotal(exams[..i], C)
      invariant avgScore == ScoreTotal(exams[..i])
    {
      assert exams[..i + 1][..i] == exams[..i];
      totalA := totalA + exams[i].items.a;
      totalB := totalB + exams[i].items.b;
      totalC := totalC + exams[i].items.c;
      avgScore := avgScore + exams[i].score;
      i := i + 1;
    }
    assert exams[..i] == exams;
    ghost var a, b, c := Average(exams, A), Average(exams, B), Average(exams, C);
    var examCount := |exams| as real;
    avgScore := avgScore / examCount;
    var avgA := totalA as real / examCount;
    var avgB := totalB as real / examCount;
    var avgC := totalC as real / examCount;
    var totalCorrect := avgA + avgB + avgC;
    var overallPct := totalCorrect / TotalQuestionsPerExam as real * 100.0;
    var pctA, pctB, pctC := Percent(avgA), Percent(avgB), Percent(avgC);

    var insights := [Title(student.id, found.schoolId)];
    insights := insights + [AverageScore(avgScore)];
    insights := insights + [OverallCorrect(totalCorrect, TotalQuestionsPerExam, overallPct)];
    insights := insights + [Blank];
    insights := insights + [DomainHeading];
    insights := insights + [DomainAverage(A, avgA, pctA)];
    insights := insights + [DomainAverage(B, avgB, pctB)];
    insights := insights + [DomainAverage(C, avgC, pctC)];
    insights := insights + [Blank];
    var weakest := Ranking.Weakest(Fin(avgA), Fin(avgB), Fin(avgC));
    var strongest := Ranking.Strongest(Fin(avgA), Fin(avgB), Fin(avgC));
    insights := insights + [InsightsHeading];
    insights := insights + [StrongestDomain(strongest)];
    insights := insights + [WeakestDomain(weakest)];
    ghost var head := insights;
    assert avgA == a && avgB == b && avgC == c && overallPct == OverallPct(exams);
    assert head == Summary(found);
    if pctA < 50.0 { insights := insights + [Struggling(A, pctA)]; }
    assert insights == head + StruggleLine(exams, A);
    if pctB < 50.0 { insights := insights + [Struggling(B, pctB)]; }
    assert insights == head + StruggleLine(exams, A) + StruggleLine(exams, B);
    if pctC < 50.0 { insights := insights + [Struggling(C, pctC)]; }
    assert insights == head + StruggleLine(exams, A) + StruggleLine(exams, B) + StruggleLine(exams, C);
    if overallPct < 60.0 {
      insights := insights + [BandLine(NeedsSupport, overallPct)];
    } else if overallPct < 75.0 {
      insights := insights + [BandLine(AdditionalPractice, overallPct)];
    } else {
      insights := insights + [BandLine(PerformingWell, overallPct)];
    }
    return Report(insights);
  }

  // ---------------------------------------------------------------------------
  // Properties

  /** "not found" exactly when no school lists a student with that id. */
  lemma NotFoundIff(schools: seq<School>, studentId: string)
    ensures AnalysisOf(schools, studentId).StudentNotFound?
        <==> forall i, j :: 0 <= i < |schools| && 0 <= j < |schools[i].students| ==>
                              schools[i].students[j].id != studentId
  {
    FindStudentSomeIff(schools, studentId);
  }

  /** "no exam data" exactly when the student found first has an empty exam list; nothing is averaged then. */
  lemma NoExamDataIff(schools: seq<School>, studentId: string)
    ensures AnalysisOf(schools, studentId).NoExamData?
        <==> FindStudent(schools, studentId).Some? && FindStudent(schools, studentId).value.student.exams == []
    ensures AnalysisOf(schools, studentId).NoExamData? ==> AnalysisOf(schools, studentId).studentId == studentId
  {
    if FindStudent(schools, studentId).Some? {
      FindStudentFirst(schools, studentId);
    }
  }

  /**
   * The overall percentage is the share of all questions answered correctly over
   * all exams, and also the mean of the three domain percentages.
   */
  lemma OverallIsShareOfAllQuestions(exams: seq<Exam>)
    requires |exams| > 0
    ensures OverallPct(exams)
         == (ItemTotal(exams, A) + ItemTotal(exams, B) + ItemTotal(exams, C)) as real
            / (TotalQuestionsPerExam * |exams|) as real * 100.0
    ensures OverallPct(exams)
         == (Percent(Average(exams, A)) + Percent(Average(exams, B)) + Percent(Average(exams, C))) / 3.0
  {
    var n := |exams| as real;
    var ta, tb, tc := ItemTotal(exams, A) as real, ItemTotal(exams, B) as real, ItemTotal(exams, C) as real;
    assert Average(exams, A) + Average(exams, B) + Average(exams, C) == (ta + tb + tc) / n;
    assert (ta + tb + tc) / n / 30.0 == (ta + tb + tc) / (30.0 * n);
  }

  /** When every item count lies in [0, 10], each domain percentage lies in [0, 100]. */
  lemma DomainPercentInRange(exams: seq<Exam>, d: Domain)
    requires |exams| > 0 && ItemsInRange(exams)
    ensures 0.0 <= Percent(Average(exams, d)) <= 100.0
  {
    ItemTotalBounds(exams, d);
    var n := |exams| as real;
    var t := ItemTotal(exams, d) as real;
    Stats.QuotientBounds(t, n, 10.0);
  }

  predicate IsStruggling(l: Line) { l.Struggling? }

  /** A "Struggling in Domain D" line appears exactly for the domains below 50%, with that percentage. */
  lemma StrugglingExactly(f: FoundStudent, d: Domain, p: real)
    requires |f.student.exams| > 0
    ensures Struggling(d, p) in ReportLines(f)
        <==> var pct := Percent(Average(f.student.exams, d)); pct < 50.0 && p == pct
  {
    var lines := ReportLines(f);
    var exams := f.student.exams;
    var head := Summary(f);
    assert lines == head + StruggleLine(exams, A) + StruggleLine(exams, B) + StruggleLine(exams, C)
                   + [BandLine(BandOf(OverallPct(exams)), OverallPct(exams))];
    assert Struggling(d, p) !in head;
  }

  /** Exactly one band line is emitted, as the last line, and it carries the overall percentage. */
  lemma ExactlyOneBand(f: FoundStudent)
    requires |f.student.exams| > 0
    ensures var lines := ReportLines(f);
            && lines[|lines| - 1] == BandLine(BandOf(OverallPct(f.student.exams)), OverallPct(f.student.exams))
            && forall k :: 0 <= k < |lines| - 1 ==> !lines[k].BandLine?
  {
    var lines := ReportLines(f);
    var exams := f.student.exams;
    var body := lines[..|lines| - 1];
    assert body == Summary(f) + StruggleLine(exams, A) + StruggleLine(exams, B) + StruggleLine(exams, C);
    forall k | 0 <= k < |lines| - 1 ensures !lines[k].BandLine? {
      assert lines[k] == body[k];
    }
  }

  /** The band thresholds: below 60 needs support, [60, 75) additional practice, 75 and above performing well. */
  lemma BandThresholds(pct: real)
    ensures BandOf(pct) == NeedsSupport <==> pct < 60.0
    ensures BandOf(pct) == AdditionalPractice <==> 60.0 <= pct < 75.0
    ensures BandOf(pct) == PerformingWell <==> 75.0 <= pct
  {
  }

  /**
   * A worked example: exams with (A, B, C) = (6, 7, 5) and (7, 8, 6) average
   * 6.5 / 7.5 / 5.5, i.e. 19.5 of 30 questions or 65%, strongest B, weakest C, no
   * domain below 50%, and the "additional practice" band.
   */
  lemma WorkedExample()
    ensures var f := FoundStudent(Student("S1", [Exam(1, 80.0, ItemsCorrect(6, 7, 5)),
                                                 Exam(2, 90.0, ItemsCorrect(7, 8, 6))]), "SCH1");
            ReportFor(f) == Report([
              Title("S1", "SCH1"),
              AverageScore(85.0),
              OverallCorrect(19.5, 30, 65.0),
              Blank,
              DomainHeading,
              DomainAverage(A, 6.5, 65.0),
              DomainAverage(B, 7.5, 75.0),
              DomainAverage(C, 5.5, 55.0),
              Blank,
              InsightsHeading,
              StrongestDomain(B),
              WeakestDomain(C),
              BandLine(AdditionalPractice, 65.0)])
  {
    var exams := [Exam(1, 80.0, ItemsCorrect(6, 7, 5)), Exam(2, 90.0, ItemsCorrect(7, 8, 6))];
    var f := FoundStudent(Student("S1", exams), "SCH1");
    WorkedExampleTotals(exams);
    assert Average(exams, A) == 6.5 && Average(exams, B) == 7.5 && Average(exams, C) == 5.5;
    assert OverallPct(exams) == 65.0;
    assert StruggleLine(exams, A) == [] && StruggleLine(exams, B) == [] && StruggleLine(exams, C) == [];
    assert Summary(f) == [
              Title("S1", "SCH1"),
              AverageScore(85.0),
              OverallCorrect(19.5, 30, 65.0),
              Blank,
              DomainHeading,
              DomainAverage(A, 6.5, 65.0),
              DomainAverage(B, 7.5, 75.0),
              DomainAverage(C, 5.5, 55.0),
              Blank,
              InsightsHeading,
              StrongestDomain(B),
              WeakestDomain(C)];
  }

  lemma WorkedExampleTotals(exams: seq<Exam>)
    requires exams == [Exam(1, 80.0, ItemsCorrect(6, 7, 5)), Exam(2, 90.0, ItemsCorrect(7, 8, 6))]
    ensures ItemTotal(exams, A) == 13 && ItemTotal(exams, B) == 15 && ItemTotal(exams, C) == 11
    ensures ScoreTotal(exams) == 170.0
  {
    var first := exams[..1];
    assert first == [exams[0]] && first[..0] == [];
    forall d ensures ItemTotal(exams, d) == ItemsIn(exams[0].items, d) + ItemsIn(exams[1].items, d) {
      assert ItemTotal(first, d) == ItemsIn(exams[0].items, d);
    }
    assert ScoreTotal(first) == 80.0;
  }
}
