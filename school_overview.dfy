/**
 * The school overview (`get-school-overview`): number of students, number of
 * exams, and — only when there is at least one exam — the average score and
 * the average items correct per domain.
 */
module SchoolOverview {
  import opened Js
  import opened Data

  datatype Line =
    | Title(schoolId: string)
    | StudentCount(count: nat)
    | TotalExams(count: nat)
    | AverageScore(score: real)
    | Blank
    | DomainHeading
    | DomainAverage(domain: Domain, avg: real, pct: real)
    | NoExamData(schoolId: string)

  datatype Reply =
    | SchoolNotFound(schoolId: string)
    | Overview(lines: seq<Line>)

  function DomainLine(exams: seq<Exam>, d: Domain): Line
    requires |exams| > 0
  {
    var avg := ItemTotal(exams, d) as real / |exams| as real;
    DomainAverage(d, avg, Percent(avg))
  }

  /** The overview of a school's students, whose exams are `StudentsExams(students)`. */
  function OverviewLines(schoolId: string, students: seq<Student>): seq<Line> {
    var exams := StudentsExams(students);
    [Title(schoolId), StudentCount(|students|)]
    + if |exams| > 0 then
        [ TotalExams(|exams|),
          AverageScore(ScoreTotal(exams) / |exams| as real),
          Blank,
          DomainHeading,
          DomainLine(exams, A),
          DomainLine(exams, B),
          DomainLine(exams, C) ]
      else [NoExamData(schoolId)]
  }

  function OverviewOf(schools: seq<School>, schoolId: string): Reply {
    match FindSchool(schools, schoolId)
    case None => SchoolNotFound(schoolId)
    case Some(school) => Overview(OverviewLines(schoolId, school.students))
  }

  /** The nested loops of `run`: total score, per-domain sums and the exam counter. */
  method Accumulate(students: seq<Student>) returns (totalScore: real, sumA: int, sumB: int, sumC: int, totalExams: nat)
    ensures totalScore == ScoreTotal(StudentsExams(students))
    ensures sumA == ItemTotal(StudentsExams(students), A)
    ensures sumB == ItemTotal(StudentsExams(students), B)
    ensures sumC == ItemTotal(StudentsExams(students), C)
    ensures totalExams == |StudentsExams(students)|
  {
    totalScore, sumA, sumB, sumC, totalExams := 0.0, 0, 0, 0, 0;
    ghost var visited: seq<Exam> := [];
    var i := 0;
    while i < |students|
      invariant 0 <= i <= |students|
      invariant visited == StudentsExams(students[..i])
      invariant totalScore == ScoreTotal(visited)
      invariant sumA == ItemTotal(visited, A) && sumB == ItemTotal(visited, B) && sumC == ItemTotal(visited, C)
      invariant totalExams == |visited|
    {
      var exams := students[i].exams;
      ghost var start := visited;
      var j := 0;
      while j < |exams|
        invariant 0 <= j <= |exams|
        invariant visited == start + exams[..j]
        invariant totalScore == ScoreTotal(visited)
        invariant sumA == ItemTotal(visited, A) && sumB == ItemTotal(visited, B) && sumC == ItemTotal(visited, C)
        invariant totalExams == |visited|
      {
        var exam := exams[j];
        assert (visited + [exam])[..|visited|] == visited;
        totalScore := totalScore + exam.score;
        sumA := sumA + exam.items.a;
        sumB := sumB + exam.items.b;
        sumC := sumC + exam.items.c;
        totalExams := totalExams + 1;
        visited := visited + [exam];
        assert start + exams[..j + 1] == start + exams[..j] + [exam];
        j := j + 1;
      }
      assert exams[..j] == exams;
      StudentsExamsStep(students, i);
      i := i + 1;
    }
    assert students[..i] == students;
  }

  /** The tool's `run`. */
  method GetSchoolOverview(schools: seq<School>, schoolId: string) returns (r: Reply)
    ensures r == OverviewOf(schools, schoolId)
  {
    var found := FindSchool(schools, schoolId);
    if found.None? {
      return SchoolNotFound(schoolId);
    }
    var students := found.value.students;
    var studentCount := |students|;
    var totalScore, sumA, sumB, sumC, totalExams := Accumulate(students);
    var lines := [Title(schoolId), StudentCount(studentCount)];
    if totalExams > 0 {
      var n := totalExams as real;
      var avgScore := totalScore / n;
      var avgA, avgB, avgC := sumA as real / n, sumB as real / n, sumC as real / n;
      lines := lines + [TotalExams(totalExams)];
      lines := lines + [AverageScore(avgScore)];
      lines := lines + [Blank];
      lines := lines + [DomainHeading];
      lines := lines + [DomainAverage(A, avgA, Percent(avgA))];
      lines := lines + [DomainAverage(B, avgB, Percent(avgB))];
      lines := lines + [DomainAverage(C, avgC, Percent(avgC))];
    } else {
      lines := lines + [NoExamData(schoolId)];
    }
    return Overview(lines);
  }

  // ---------------------------------------------------------------------------
  // Properties

  lemma NotFoundIff(schools: seq<School>, schoolId: string)
    ensures OverviewOf(schools, schoolId).SchoolNotFound?
        <==> forall k :: 0 <= k < |schools| ==> schools[k].id != schoolId
  {
  }

  /**
   * The student count is the length of the student list whatever their exams;
   * the exam total is the sum of their exam counts, and the averages are there
   * exactly when that total is positive (the "no exam data" line otherwise), so
   * nothing is divided by zero.
   */
  lemma CountsAndGuard(schoolId: string, students: seq<Student>)
    ensures var lines := OverviewLines(schoolId, students);
            && lines[1] == StudentCount(|students|)
            && (ExamCount(students) > 0 <==> lines[2] == TotalExams(ExamCount(students)))
            && (ExamCount(students) == 0 <==> lines == [Title(schoolId), StudentCount(|students|), NoExamData(schoolId)])
            && (ExamCount(students) > 0 ==> |lines| == 9 && NoExamData(schoolId) !in lines)
  {
    ExamCountIsLength(students);
    var exams := StudentsExams(students);
    var lines := OverviewLines(schoolId, students);
    if |exams| > 0 {
      var rest := lines[2..];
      assert lines == [Title(schoolId), StudentCount(|students|)] + rest;
      assert |rest| == 7 && forall k :: 0 <= k < 7 ==> !rest[k].NoExamData?;
      assert |lines| != 3;
    }
  }

  /** Position of a domain's line among the three domain lines. */
  function DomainSlot(d: Domain): nat {
    match d
    case A => 0
    case B => 1
    case C => 2
  }

  /**
   * With exams, lines 6, 7 and 8 are the domain lines in the order A, B, C, each
   * carrying sum / total and the percentage (sum / total) / 10 × 100, which is
   * sum / (10 · total) × 100 of the questions of that domain.
   */
  lemma DomainPercentFormula(schoolId: string, students: seq<Student>, d: Domain)
    requires ExamCount(students) > 0
    ensures var lines := OverviewLines(schoolId, students);
            var k := ExamCount(students) as real;
            var sum := ItemTotal(StudentsExams(students), d) as real;
            && |lines| == 9
            && lines[6 + DomainSlot(d)] == DomainAverage(d, sum / k, sum / (10.0 * k) * 100.0)
  {
    ExamCountIsLength(students);
    var exams := StudentsExams(students);
    PercentOfShare(ItemTotal(exams, d) as real, |exams| as real);
  }

  lemma PercentOfShare(sum: real, k: real)
    requires k > 0.0
    ensures Percent(sum / k) == sum / (10.0 * k) * 100.0
  {
    var q := sum / k;
    assert q * k == sum;
    assert q / 10.0 == sum / (10.0 * k);
  }
}
