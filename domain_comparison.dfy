/**
 * The school-level domain comparison (`compare-domain-performance`): sums of
 * items correct per domain over every exam of every student of the school,
 * divided by the number of exams.
 *
 * A school whose students have no exams at all is not guarded against: the
 * averages are then `0 / 0`, i.e. NaN, every comparison with them is false,
 * and the report says so through `Num` values rather than a message.
 */
module DomainComparison {
  import opened Js
  import opened Data
  import Ranking

  datatype Line =
    | Title(schoolId: string)
    | ExamsAnalyzed(count: nat)
    | Blank
    | AverageHeading
    | DomainAverage(domain: Domain, avg: Num, pct: Num)
    | StrongestDomain(domain: Domain)
    | WeakestDomain(domain: Domain)
    | NeedsAttention(domain: Domain, below: real)

  datatype Reply =
    | SchoolNotFound(schoolId: string)
    | NoStudents(schoolId: string)
    | Report(lines: seq<Line>)

  /** `sumD / examCount`, NaN when there are no exams. */
  function AverageOf(exams: seq<Exam>, d: Domain): Num {
    ItemTotalEmpty(exams, d);
    Div(ItemTotal(exams, d) as real, |exams|)
  }

  lemma ItemTotalEmpty(exams: seq<Exam>, d: Domain)
    ensures |exams| == 0 ==> ItemTotal(exams, d) as real == 0.0
  {
  }

  /** `if (pctD < 60) analysis.push(...)`; false for NaN. */
  function AttentionLine(exams: seq<Exam>, d: Domain): seq<Line> {
    var pct := PercentOfTen(AverageOf(exams, d));
    if Less(pct, Fin(60.0)) then [NeedsAttention(d, pct.v)] else []
  }

  function ReportLines(schoolId: string, exams: seq<Exam>): seq<Line> {
    Summary(schoolId, exams) + AttentionLine(exams, A) + AttentionLine(exams, B) + AttentionLine(exams, C)
  }

  /** The ten lines every report starts with. */
  function Summary(schoolId: string, exams: seq<Exam>): seq<Line> {
    var a, b, c := AverageOf(exams, A), AverageOf(exams, B), AverageOf(exams, C);
    [ Title(schoolId),
      ExamsAnalyzed(|exams|),
      Blank,
      AverageHeading,
      DomainAverage(A, a, PercentOfTen(a)),
      DomainAverage(B, b, PercentOfTen(b)),
      DomainAverage(C, c, PercentOfTen(c)),
      Blank,
      StrongestDomain(Ranking.Strongest(a, b, c)),
      WeakestDomain(Ranking.Weakest(a, b, c)) ]
  }

  /** What the tool answers for a school id. */
  function ComparisonOf(schools: seq<School>, schoolId: string): Reply {
    match FindSchool(schools, schoolId)
    case None => SchoolNotFound(schoolId)
    case Some(school) =>
      if |school.students| == 0 then NoStudents(schoolId)
      else Report(ReportLines(schoolId, StudentsExams(school.students)))
  }

  /** The tool's `run`: find the school, sum every exam of every student in nested loops, then push the lines. */
  method CompareDomainPerformance(schools: seq<School>, schoolId: string) returns (r: Reply)
    ensures r == ComparisonOf(schools, schoolId)
  {
    var found := FindSchool(schools, schoolId);
    if found.None? {
      return SchoolNotFound(schoolId);
    }
    var students := found.value.students;
    if |students| == 0 {
      return NoStudents(schoolId);
    }
    var sumA, sumB, sumC, examCount := SumDomains(students);
    ghost var visited := StudentsExams(students);
    var avgA := Div(sumA as real, examCount);
    var avgB := Div(sumB as real, examCount);
    var avgC := Div(sumC as real, examCount);
    assert avgA == AverageOf(visited, A) && avgB == AverageOf(visited, B) && avgC == AverageOf(visited, C);
    var pctA, pctB, pctC := PercentOfTen(avgA), PercentOfTen(avgB), PercentOfTen(avgC);
    var analysis := [Title(schoolId)];
    analysis := analysis + [ExamsAnalyzed(examCount)];
    analysis := analysis + [Blank];
    analysis := analysis + [AverageHeading];
    analysis := analysis + [DomainAverage(A, avgA, pctA)];
    analysis := analysis + [DomainAverage(B, avgB, pctB)];
    analysis := analysis + [DomainAverage(C, avgC, pctC)];
    analysis := analysis + [Blank];
    var weakest := Ranking.Weakest(avgA, avgB, avgC);
    var strongest := Ranking.Strongest(avgA, avgB, avgC);
    analysis := analysis + [StrongestDomain(strongest)];
    analysis := analysis + [WeakestDomain(weakest)];
    ghost var head := analysis;
    assert head == Summary(schoolId, visited);
    if Less(pctA, Fin(60.0)) { analysis := analysis + [NeedsAttention(A, pctA.v)]; }
    assert analysis == head + AttentionLine(visited, A);
    if Less(pctB, Fin(60.0)) { analysis := analysis + [NeedsAttention(B, pctB.v)]; }
    assert analysis == head + AttentionLine(visited, A) + AttentionLine(visited, B);
    if Less(pctC, Fin(60.0)) { analysis := analysis + [NeedsAttention(C, pctC.v)]; }
    return Report(analysis);
  }

  /** The nested loops of `run`: per-domain sums and the exam counter over every exam of every student. */
  method SumDomains(students: seq<Student>) returns (sumA: int, sumB: int, sumC: int, examCount: nat)
    ensures sumA == ItemTotal(StudentsExams(students), A)
    ensures sumB == ItemTotal(StudentsExams(students), B)
    ensures sumC == ItemTotal(StudentsExams(students), C)
    ensures examCount == |StudentsExams(students)|
  {
    sumA, sumB, sumC, examCount := 0, 0, 0, 0;
    ghost var visited: seq<Exam> := [];
    var i := 0;
    while i < |students|
      invariant 0 <= i <= |students|
      invariant visited == StudentsExams(students[..i])
      invariant sumA == ItemTotal(visited, A) && sumB == ItemTotal(visited, B) && sumC == ItemTotal(visited, C)
      invariant examCount == |visited|
    {
      var exams := students[i].exams;
      ghost var start := visited;
      var j := 0;
      while j < |exams|
        invariant 0 <= j <= |exams|
        invariant visited == start + exams[..j]
        invariant sumA == ItemTotal(visited, A) && sumB == ItemTotal(visited, B) && sumC == ItemTotal(visited, C)
        invariant examCount == |visited|
      {
        var exam := exams[j];
        assert (visited + [exam])[..|visited|] == visited;
        sumA := sumA + exam.items.a;
        sumB := sumB + exam.items.b;
        sumC := sumC + exam.items.c;
        examCount := examCount + 1;
        visited := visited + [exam];
        assert start + exams[..j + 1] == start + exams[..j] + [exam];
        j := j + 1;
      }
      assert exams[..j] == exams;
      StudentsExamsStep(students, i);
      i := i + 1;
    }
    assert students[..i] == students;
  }

  // ---------------------------------------------------------------------------
  // Properties

  /** The first guard: no school carries that id. */
  lemma NotFoundIff(schools: seq<School>, schoolId: string)
    ensures ComparisonOf(schools, schoolId).SchoolNotFound?
        <==> forall k :: 0 <= k < |schools| ==> schools[k].id != schoolId
  {
  }

  /** The second guard: the school found first has an empty student list. */
  lemma NoStudentsIff(schools: seq<School>, schoolId: string)
    ensures ComparisonOf(schools, schoolId).NoStudents?
        <==> FindSchool(schools, schoolId).Some? && FindSchool(schools, schoolId).value.students == []
  {
  }

  /** The exam count reported is the total number of exams over all students, not the number of students. */
  lemma ExamCountIsAllExams(schoolId: string, students: seq<Student>)
    ensures ReportLines(schoolId, StudentsExams(students))[1] == ExamsAnalyzed(ExamCount(students))
  {
    ExamCountIsLength(students);
  }

  /** A domain average is a number exactly when there are exams, and then it is sum / count. */
  lemma AverageDefinedIff(exams: seq<Exam>, d: Domain)
    ensures AverageOf(exams, d).Fin? <==> |exams| > 0
    ensures AverageOf(exams, d).Fin? ==> AverageOf(exams, d).v * |exams| as real == ItemTotal(exams, d) as real
  {
  }

  /** A "needs attention" line appears exactly for the domains whose percentage is a number below 60. */
  lemma AttentionExactly(schoolId: string, exams: seq<Exam>, d: Domain, p: real)
    ensures NeedsAttention(d, p) in ReportLines(schoolId, exams)
        <==> && |exams| > 0
             && var pct := Percent(ItemTotal(exams, d) as real / |exams| as real);
                pct < 60.0 && p == pct
  {
    var lines := ReportLines(schoolId, exams);
    assert NeedsAttention(d, p) !in Summary(schoolId, exams);
  }

  /**
   * Students without any exam: every average is NaN, the strongest and the
   * weakest domain are both C, and no domain is flagged.
   */
  lemma NoExamsAtAll(schoolId: string, students: seq<Student>)
    requires ExamCount(students) == 0
    ensures var lines := ReportLines(schoolId, StudentsExams(students));
            && lines == [ Title(schoolId), ExamsAnalyzed(0), Blank, AverageHeading,
                          DomainAverage(A, NaN, NaN), DomainAverage(B, NaN, NaN), DomainAverage(C, NaN, NaN),
                          Blank, StrongestDomain(C), WeakestDomain(C) ]
  {
    ExamCountIsLength(students);
  }

  /** With exams, strongest and weakest are the last domains with the largest and the smallest average. */
  lemma RankingWithExams(schoolId: string, exams: seq<Exam>)
    requires |exams| > 0
    ensures var lines := ReportLines(schoolId, exams);
            var a, b, c := AverageOf(exams, A).v, AverageOf(exams, B).v, AverageOf(exams, C).v;
            && lines[8] == StrongestDomain(Ranking.Strongest(Fin(a), Fin(b), Fin(c)))
            && lines[9] == WeakestDomain(Ranking.Weakest(Fin(a), Fin(b), Fin(c)))
            && (forall d :: Ranking.Pick(a, b, c, lines[8].domain) >= Ranking.Pick(a, b, c, d))
            && (forall d :: Ranking.Pick(a, b, c, lines[9].domain) <= Ranking.Pick(a, b, c, d))
  {
    var a, b, c := AverageOf(exams, A).v, AverageOf(exams, B).v, AverageOf(exams, C).v;
    Ranking.StrongestIsLastMaximum(a, b, c);
    Ranking.WeakestIsLastMinimum(a, b, c);
  }
}
