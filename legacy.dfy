/**
 * The older, single-file server (`mcp-server.js`), which ships its own copies
 * of four analyzers. It reads each exam's domain counts under the lower-case
 * keys `a`, `b` and `c`. The model takes the dataset that server reads to
 * carry those keys and reads them as the domains A, B and C (`Data.Domain`).
 * On that reading, two of the analyzers produce the current tools' output and
 * are proved equal to those tools' models. The struggling-student filter
 * takes at most one domain and prints no class statistics. The overview has
 * an extra blank line after its title.
 */
module Legacy {
  import opened Js
  import opened Data
  import StudentAnalysis
  import DomainComparison
  import Struggling
  import SchoolOverview
  import Ranking

  // ---------------------------------------------------------------------------
  // analyze-student-performance

  /** The tool handler: look the student up, answer "not found" or analyze the record. */
  method AnalyzeStudentTool(schools: seq<School>, studentId: string) returns (r: StudentAnalysis.Reply)
    ensures r == StudentAnalysis.AnalysisOf(schools, studentId)
  {
    var student := FindStudentById(schools, studentId);
    if student.None? {
      return StudentAnalysis.StudentNotFound(studentId);
    }
    r := AnalyzeStudentPerformance(student.value);
  }

  /**
   * `analyzeStudentPerformance(student)`: on the key reading above, the same
   * report as the current tool, line for line (the two files differ only
   * in wording and in where the blank lines are written).
   */
  method AnalyzeStudentPerformance(found: FoundStudent) returns (r: StudentAnalysis.Reply)
    ensures r == StudentAnalysis.ReportFor(found)
  {
    var exams := found.student.exams;
    if |exams| == 0 {
      return StudentAnalysis.NoExamData(found.student.id);
    }
    var totalA, totalB, totalC := 0, 0, 0;
    var examCount := |exams|;
    var avgScore := 0.0;
    for i := 0 to |exams|
      invariant totalA == ItemTotal(exams[..i], A) && totalB == ItemTotal(exams[..i], B)
      invariant totalC == ItemTotal(exams[..i], C) && avgScore == ScoreTotal(exams[..i])
    {
      assert exams[..i + 1][..i] == exams[..i];
      totalA := totalA + exams[i].items.a;
      totalB := totalB + exams[i].items.b;
      totalC := totalC + exams[i].items.c;
      avgScore := avgScore + exams[i].score;
    }
    assert exams[..|exams|] == exams;
    var n := examCount as real;
    avgScore := avgScore / n;
    var avgA, avgB, avgC := totalA as real / n, totalB as real / n, totalC as real / n;
    var totalCorrect := avgA + avgB + avgC;
    var overallPercentage := totalCorrect / TotalQuestionsPerExam as real * 100.0;
    var percentageA, percentageB, percentageC := Percent(avgA), Percent(avgB), Percent(avgC);
    var insights := [StudentAnalysis.Title(found.student.id, found.schoolId),
                     StudentAnalysis.AverageScore(avgScore),
                     StudentAnalysis.OverallCorrect(totalCorrect, TotalQuestionsPerExam, overallPercentage),
                     StudentAnalysis.Blank, StudentAnalysis.DomainHeading,
                     StudentAnalysis.DomainAverage(A, avgA, percentageA),
                     StudentAnalysis.DomainAverage(B, avgB, percentageB),
                     StudentAnalysis.DomainAverage(C, avgC, percentageC)];
    var weakestDomain := Ranking.Weakest(Fin(avgA), Fin(avgB), Fin(avgC));
    var strongestDomain := Ranking.Strongest(Fin(avgA), Fin(avgB), Fin(avgC));
    insights := insights + [StudentAnalysis.Blank, StudentAnalysis.InsightsHeading];
    insights := insights + [StudentAnalysis.StrongestDomain(strongestDomain), StudentAnalysis.WeakestDomain(weakestDomain)];
    ghost var head := insights;
    assert head == StudentAnalysis.Summary(found);
    if percentageA < 50.0 { insights := insights + [StudentAnalysis.Struggling(A, percentageA)]; }
    if percentageB < 50.0 { insights := insights + [StudentAnalysis.Struggling(B, percentageB)]; }
    if percentageC < 50.0 { insights := insights + [StudentAnalysis.Struggling(C, percentageC)]; }
    assert insights == head + StudentAnalysis.StruggleLine(exams, A) + StudentAnalysis.StruggleLine(exams, B)
                      + StudentAnalysis.StruggleLine(exams, C);
    if overallPercentage < 60.0 {
      insights := insights + [StudentAnalysis.BandLine(StudentAnalysis.NeedsSupport, overallPercentage)];
    } else if overallPercentage < 75.0 {
      insights := insights + [StudentAnalysis.BandLine(StudentAnalysis.AdditionalPractice, overallPercentage)];
    } else {
      insights := insights + [StudentAnalysis.BandLine(StudentAnalysis.PerformingWell, overallPercentage)];
    }
    return StudentAnalysis.Report(insights);
  }

  // ---------------------------------------------------------------------------
  // compare-domain-performance

  /**
   * `analyzeDomainPerformance(schoolId)`: on the key reading above, the same
   * report as the current tool.
   * The counter is called `studentCount` but counts exams, so the averages are
   * per exam, and a school whose students have no exams averages 0 / 0.
   */
  method AnalyzeDomainPerformance(schools: seq<School>, schoolId: string) returns (r: DomainComparison.Reply)
    ensures r == DomainComparison.ComparisonOf(schools, schoolId)
  {
    var school := FindSchool(schools, schoolId);
    if school.None? {
      return DomainComparison.SchoolNotFound(schoolId);
    }
    var students := school.value.students;
    if |students| == 0 {
      return DomainComparison.NoStudents(schoolId);
    }
    var domainA, domainB, domainC, studentCount := 0, 0, 0, 0;
    ghost var visited: seq<Exam> := [];
    for i := 0 to |students|
      invariant visited == StudentsExams(students[..i])
      invariant domainA == ItemTotal(visited, A) && domainB == ItemTotal(visited, B)
      invariant domainC == ItemTotal(visited, C) && studentCount == |visited|
    {
      domainA, domainB, domainC, studentCount := CountExams(domainA, domainB, domainC, studentCount, visited, students[i].exams);
      visited := visited + students[i].exams;
      StudentsExamsStep(students, i);
    }
    assert students[..|students|] == students;
    var avgA, avgB, avgC := Div(domainA as real, studentCount), Div(domainB as real, studentCount), Div(domainC as real, studentCount);
    assert avgA == DomainComparison.AverageOf(visited, A) && avgB == DomainComparison.AverageOf(visited, B)
        && avgC == DomainComparison.AverageOf(visited, C);
    var percentageA, percentageB, percentageC := PercentOfTen(avgA), PercentOfTen(avgB), PercentOfTen(avgC);
    var analysis := [DomainComparison.Title(schoolId), DomainComparison.ExamsAnalyzed(studentCount),
                     DomainComparison.Blank, DomainComparison.AverageHeading,
                     DomainComparison.DomainAverage(A, avgA, percentageA),
                     DomainComparison.DomainAverage(B, avgB, percentageB),
                     DomainComparison.DomainAverage(C, avgC, percentageC)];
    var weakestDomain := Ranking.Weakest(avgA, avgB, avgC);
    var strongestDomain := Ranking.Strongest(avgA, avgB, avgC);
    analysis := analysis + [DomainComparison.Blank, DomainComparison.StrongestDomain(strongestDomain)];
    analysis := analysis + [DomainComparison.WeakestDomain(weakestDomain)];
    ghost var head := analysis;
    assert head == DomainComparison.Summary(schoolId, visited);
    if Less(percentageA, Fin(60.0)) { analysis := analysis + [DomainComparison.NeedsAttention(A, percentageA.v)]; }
    if Less(percentageB, Fin(60.0)) { analysis := analysis + [DomainComparison.NeedsAttention(B, percentageB.v)]; }
    if Less(percentageC, Fin(60.0)) { analysis := analysis + [DomainComparison.NeedsAttention(C, percentageC.v)]; }
    assert analysis == head + DomainComparison.AttentionLine(visited, A) + DomainComparison.AttentionLine(visited, B)
                       + DomainComparison.AttentionLine(visited, C);
    return DomainComparison.Report(analysis);
  }

  /** The inner loop over one student's exams, continuing the totals of `visited`. */
  method CountExams(a0: int, b0: int, c0: int, n0: nat, ghost visited: seq<Exam>, exams: seq<Exam>)
    returns (a: int, b: int, c: int, n: nat)
    requires a0 == ItemTotal(visited, A) && b0 == ItemTotal(visited, B) && c0 == ItemTotal(visited, C) && n0 == |visited|
    ensures a == ItemTotal(visited + exams, A) && b == ItemTotal(visited + exams, B)
    ensures c == ItemTotal(visited + exams, C) && n == |visited + exams|
  {
    a, b, c, n := a0, b0, c0, n0;
    assert visited + exams[..0] == visited;
    for j := 0 to |exams|
      invariant a == ItemTotal(visited + exams[..j], A) && b == ItemTotal(visited + exams[..j], B)
      invariant c == ItemTotal(visited + exams[..j], C) && n == |visited + exams[..j]|
    {
      ghost var done := visited + exams[..j];
      assert visited + exams[..j + 1] == done + [exams[j]];
      assert (done + [exams[j]])[..|done|] == done;
      a, b, c, n := a + exams[j].items.a, b + exams[j].items.b, c + exams[j].items.c, n + 1;
    }
    assert exams[..|exams|] == exams;
  }

  // ---------------------------------------------------------------------------
  // identify-struggling-students

  /** The domains checked: the one given, or a, b and c in that order. */
  function CheckedDomains(domain: Option<Domain>): seq<Domain> {
    if domain.Some? then [domain.value] else AllDomains
  }

  datatype StrugglingLine =
    | Heading(schoolId: string, domain: Option<Domain>, threshold: real, pct: real)
    | Entry(record: Struggling.Record)

  datatype StrugglingReply =
    | SchoolNotFound(schoolId: string)
    | NoneFound(schoolId: string, domain: Option<Domain>, threshold: real, pct: real)
    | Report(lines: seq<StrugglingLine>)

  function Entries(rs: seq<Struggling.Record>): (lines: seq<StrugglingLine>)
    ensures |lines| == |rs| && forall k :: 0 <= k < |rs| ==> lines[k] == Entry(rs[k])
  {
    seq(|rs|, k requires 0 <= k < |rs| => Entry(rs[k]))
  }

  /** What the legacy filter answers. */
  function LegacyStrugglingOf(schools: seq<School>, schoolId: string, domain: Option<Domain>, threshold: real): StrugglingReply {
    match FindSchool(schools, schoolId)
    case None => SchoolNotFound(schoolId)
    case Some(school) => SchoolReply(schoolId, school.students, domain, threshold)
  }

  /** Once the school is found: a heading and one line per record, or the empty message. */
  function SchoolReply(schoolId: string, students: seq<Student>, domain: Option<Domain>, threshold: real): StrugglingReply {
    var rs := Struggling.Records(students, CheckedDomains(domain), threshold);
    if rs == [] then NoneFound(schoolId, domain, threshold, Percent(threshold))
    else Report(Lines(schoolId, domain, threshold, rs))
  }

  /** `identifyStrugglingStudents(schoolId, domain, threshold = 5)` */
  method IdentifyStrugglingStudents(schools: seq<School>, schoolId: string, domain: Option<Domain>, threshold: real)
    returns (r: StrugglingReply)
    ensures r == LegacyStrugglingOf(schools, schoolId, domain, threshold)
  {
    var school := FindSchool(schools, schoolId);
    if school.None? {
      return SchoolNotFound(schoolId);
    }
    r := StrugglingIn(schoolId, school.value.students, domain, threshold);
  }

  /** The body after the school lookup: collect the records, then the empty message or the report. */
  method StrugglingIn(schoolId: string, students: seq<Student>, domain: Option<Domain>, threshold: real)
    returns (r: StrugglingReply)
    ensures r == SchoolReply(schoolId, students, domain, threshold)
  {
    var strugglingStudents: seq<Struggling.Record> := [];
    for i := 0 to |students|
      invariant strugglingStudents == Struggling.Records(students[..i], CheckedDomains(domain), threshold)
    {
      var student := students[i];
      strugglingStudents := CheckStudent(strugglingStudents, student, domain, threshold);
      assert students[..i + 1][..i] == students[..i];
    }
    assert students[..|students|] == students;
    if |strugglingStudents| == 0 {
      return NoneFound(schoolId, domain, threshold, threshold / 10.0 * 100.0);
    }
    var analysis := PushEntries(Heading(schoolId, domain, threshold, threshold / 10.0 * 100.0), strugglingStudents);
    return Report(analysis);
  }

  /** The heading, then one pushed line per record. */
  method PushEntries(heading: StrugglingLine, rs: seq<Struggling.Record>) returns (analysis: seq<StrugglingLine>)
    ensures analysis == [heading] + Entries(rs)
  {
    analysis := [heading];
    for k := 0 to |rs|
      invariant analysis == [heading] + Entries(rs[..k])
    {
      assert Entries(rs[..k + 1]) == Entries(rs[..k]) + [Entry(rs[k])];
      analysis := analysis + [Entry(rs[k])];
    }
    assert rs[..|rs|] == rs;
  }

  /** The loop over one student's exams, appending to the records found so far. */
  method CheckStudent(found: seq<Struggling.Record>, student: Student, domain: Option<Domain>, threshold: real)
    returns (rs: seq<Struggling.Record>)
    ensures rs == found + Struggling.StudentRecords(student.id, student.exams, CheckedDomains(domain), threshold)
  {
    rs := found;
    var exams := student.exams;
    ghost var ds := CheckedDomains(domain);
    for j := 0 to |exams|
      invariant rs == found + Struggling.StudentRecords(student.id, exams[..j], ds, threshold)
    {
      var exam := exams[j];
      var more := CheckExam(student.id, exam, domain, threshold);
      assert exams[..j + 1][..j] == exams[..j];
      assert Struggling.StudentRecords(student.id, exams[..j + 1], ds, threshold)
          == Struggling.StudentRecords(student.id, exams[..j], ds, threshold) + more;
      rs := rs + more;
    }
    assert exams[..|exams|] == exams;
  }

  /** One exam: the given domain only, or a, b and c in that order. */
  method CheckExam(studentId: string, exam: Exam, domain: Option<Domain>, threshold: real) returns (rs: seq<Struggling.Record>)
    ensures rs == Struggling.ExamRecords(studentId, exam, CheckedDomains(domain), threshold)
  {
    rs := [];
    if domain.Some? {
      var d := domain.value;
      var score := ItemsIn(exam.items, d);
      if (score as real) < threshold {
        rs := rs + [Struggling.Record(studentId, d, score, Percent(score as real), exam.examId)];
      }
      assert [d][..0] == [];
    } else {
      assert AllDomains[..2] == [A, B] && [A, B][..1] == [A] && [A][..0] == [];
      if (exam.items.a as real) < threshold {
        rs := rs + [Struggling.Record(studentId, A, exam.items.a, Percent(exam.items.a as real), exam.examId)];
      }
      assert rs == Struggling.ExamRecords(studentId, exam, [A], threshold);
      if (exam.items.b as real) < threshold {
        rs := rs + [Struggling.Record(studentId, B, exam.items.b, Percent(exam.items.b as real), exam.examId)];
      }
      assert rs == Struggling.ExamRecords(studentId, exam, [A, B], threshold);
      if (exam.items.c as real) < threshold {
        rs := rs + [Struggling.Record(studentId, C, exam.items.c, Percent(exam.items.c as real), exam.examId)];
      }
    }
  }

  /** The domain list the current tool is given for the same request. */
  function AsDomainList(domain: Option<Domain>): Option<seq<Domain>> {
    if domain.Some? then Some([domain.value]) else None
  }

  /**
   * The legacy filter finds exactly the records the current tool finds when
   * asked for the same single domain (or for none): the same reply kind, and
   * the same records in the same order, after the current tool's statistics.
   */
  lemma SameRecordsAsTool(schools: seq<School>, schoolId: string, domain: Option<Domain>, threshold: real, sqrt: real -> real)
    ensures var legacy := LegacyStrugglingOf(schools, schoolId, domain, threshold);
            var current := Struggling.StrugglingOf(schools, schoolId, AsDomainList(domain), threshold, sqrt);
            && (legacy.SchoolNotFound? <==> current.SchoolNotFound?)
            && (legacy.NoneFound? <==> current.NoneFound?)
            && (legacy.NoneFound? ==> legacy.pct == current.pct && legacy.threshold == current.threshold)
            && (legacy.Report? <==> current.Report?)
    ensures var legacy := LegacyStrugglingOf(schools, schoolId, domain, threshold);
            var current := Struggling.StrugglingOf(schools, schoolId, AsDomainList(domain), threshold, sqrt);
            var n := |CheckedDomains(domain)| + 3;
            legacy.Report? ==> EntriesMatch(current.lines, legacy.lines, n)
  {
    var school := FindSchool(schools, schoolId);
    if school.Some? {
      SameRecordsInSchool(schoolId, school.value.students, domain, threshold, sqrt);
    }
  }

  lemma SameRecordsInSchool(schoolId: string, students: seq<Student>, domain: Option<Domain>, threshold: real, sqrt: real -> real)
    ensures var legacy := SchoolReply(schoolId, students, domain, threshold);
            var current := Struggling.SchoolReply(schoolId, students, AsDomainList(domain), threshold, sqrt);
            && (legacy.NoneFound? <==> current.NoneFound?)
            && (legacy.NoneFound? ==> legacy.pct == current.pct && legacy.threshold == current.threshold)
            && (legacy.Report? <==> current.Report?)
    ensures var legacy := SchoolReply(schoolId, students, domain, threshold);
            var current := Struggling.SchoolReply(schoolId, students, AsDomainList(domain), threshold, sqrt);
            legacy.Report? ==> EntriesMatch(current.lines, legacy.lines, |CheckedDomains(domain)| + 3)
  {
    assert Struggling.DomainsToCheck(AsDomainList(domain)) == CheckedDomains(domain);
    if Struggling.Records(students, CheckedDomains(domain), threshold) != [] {
      SameEntriesInSchool(schoolId, students, domain, threshold, sqrt);
    }
  }

  lemma SameEntriesInSchool(schoolId: string, students: seq<Student>, domain: Option<Domain>, threshold: real, sqrt: real -> real)
    requires Struggling.Records(students, CheckedDomains(domain), threshold) != []
    ensures var legacy := SchoolReply(schoolId, students, domain, threshold);
            var current := Struggling.SchoolReply(schoolId, students, AsDomainList(domain), threshold, sqrt);
            && legacy.Report? && current.Report?
            && EntriesMatch(current.lines, legacy.lines, |CheckedDomains(domain)| + 3)
  {
    var ds := CheckedDomains(domain);
    assert Struggling.DomainsToCheck(AsDomainList(domain)) == ds;
    var rs := Struggling.Records(students, ds, threshold);
    var legacy := SchoolReply(schoolId, students, domain, threshold);
    assert legacy.Report? && EntriesOf(legacy.lines, rs) by {
      assert legacy.lines == Lines(schoolId, domain, threshold, rs);
      LinesShape(schoolId, domain, threshold, rs);
    }
    CurrentEntries(schoolId, students, AsDomainList(domain), threshold, sqrt);
    EntriesAfter(Struggling.SchoolReply(schoolId, students, AsDomainList(domain), threshold, sqrt).lines, legacy.lines, rs, |ds| + 3);
  }

  /**
   * The current report is `n - 1` lines longer than the legacy one, and from
   * line `n` on it holds the legacy entries' records in the same order.
   */
  predicate EntriesMatch(current: seq<Struggling.Line>, legacy: seq<StrugglingLine>, n: nat) {
    && |current| == |legacy| + n - 1
    && forall k :: 1 <= k < |legacy| ==> legacy[k].Entry? && current[n + k - 1] == Struggling.Result(legacy[k].record)
  }

  /** From line `n` on, the current report holds one result line per record, in order. */
  predicate ResultsFrom(current: seq<Struggling.Line>, rs: seq<Struggling.Record>, n: nat) {
    |current| == n + |rs| && forall k :: 0 <= k < |rs| ==> current[n + k] == Struggling.Result(rs[k])
  }

  /** After one heading, the legacy report holds one entry per record, in order. */
  predicate EntriesOf(legacy: seq<StrugglingLine>, rs: seq<Struggling.Record>) {
    |legacy| == |rs| + 1 && forall k :: 1 <= k < |legacy| ==> legacy[k] == Entry(rs[k - 1])
  }

  lemma EntriesAfter(current: seq<Struggling.Line>, legacy: seq<StrugglingLine>, rs: seq<Struggling.Record>, n: nat)
    requires ResultsFrom(current, rs, n)
    requires EntriesOf(legacy, rs)
    ensures EntriesMatch(current, legacy, n)
  {
    forall k | 1 <= k < |legacy|
      ensures legacy[k].Entry? && current[n + k - 1] == Struggling.Result(legacy[k].record)
    {
      assert current[n + (k - 1)] == Struggling.Result(rs[k - 1]);
    }
  }

  /** Where the current tool's records sit in its report: after the header, the statistics and the blank line. */
  lemma CurrentEntries(schoolId: string, students: seq<Student>, domains: Option<seq<Domain>>, threshold: real, sqrt: real -> real)
    requires Struggling.Records(students, Struggling.DomainsToCheck(domains), threshold) != []
    ensures var current := Struggling.SchoolReply(schoolId, students, domains, threshold, sqrt);
            var ds := Struggling.DomainsToCheck(domains);
            && current.Report?
            && ResultsFrom(current.lines, Struggling.Records(students, ds, threshold), |ds| + 3)
  {
    Struggling.ReportOrder(schoolId, students, domains, threshold, sqrt);
  }

  lemma LinesShape(schoolId: string, domain: Option<Domain>, threshold: real, rs: seq<Struggling.Record>)
    ensures var lines := Lines(schoolId, domain, threshold, rs);
            && |lines| == |rs| + 1
            && lines[0] == Heading(schoolId, domain, threshold, Percent(threshold))
            && forall k :: 1 <= k < |lines| ==> lines[k] == Entry(rs[k - 1])
  {
  }

  /** Raising the threshold never drops a record. */
  lemma MonotonicInThreshold(schools: seq<School>, schoolId: string, domain: Option<Domain>, t1: real, t2: real, rec: Struggling.Record)
    requires t1 <= t2
    ensures var r1, r2 := LegacyStrugglingOf(schools, schoolId, domain, t1), LegacyStrugglingOf(schools, schoolId, domain, t2);
            && (r1.Report? ==> r2.Report?)
            && (r1.Report? && Entry(rec) in r1.lines ==> Entry(rec) in r2.lines)
  {
    var school := FindSchool(schools, schoolId);
    if school.Some? {
      var students, ds := school.value.students, CheckedDomains(domain);
      var rs1, rs2 := Struggling.Records(students, ds, t1), Struggling.Records(students, ds, t2);
      if rs1 != [] {
        Struggling.MonotonicInThreshold(students, ds, t1, t2, rs1[0]);
        assert rs1[0] in rs2;
        if Entry(rec) in Lines(schoolId, domain, t1, rs1) {
          EntryIn(schoolId, domain, t1, rs1, rec);
          Struggling.MonotonicInThreshold(students, ds, t1, t2, rec);
          EntryIn(schoolId, domain, t2, rs2, rec);
        }
      }
    }
  }

  /** The report lines for a non-empty record list. */
  function Lines(schoolId: string, domain: Option<Domain>, threshold: real, rs: seq<Struggling.Record>): seq<StrugglingLine> {
    [Heading(schoolId, domain, threshold, Percent(threshold))] + Entries(rs)
  }

  lemma EntryIn(schoolId: string, domain: Option<Domain>, threshold: real, rs: seq<Struggling.Record>, rec: Struggling.Record)
    ensures Entry(rec) in Lines(schoolId, domain, threshold, rs) <==> rec in rs
  {
    var lines := Lines(schoolId, domain, threshold, rs);
    if Entry(rec) in lines {
      var k :| 0 <= k < |lines| && lines[k] == Entry(rec);
      assert rec == rs[k - 1];
    }
    if rec in rs {
      var j :| 0 <= j < |rs| && rs[j] == rec;
      assert lines[j + 1] == Entry(rec);
    }
  }

  /**
   * The empty message is the answer exactly when no exam of the school is
   * below the threshold in a checked domain; every record of a report is
   * below the threshold and in a checked domain (the given one, if any).
   */
  lemma NoneFoundIff(schools: seq<School>, schoolId: string, domain: Option<Domain>, threshold: real)
    requires FindSchool(schools, schoolId).Some?
    ensures var students := FindSchool(schools, schoolId).value.students;
            (LegacyStrugglingOf(schools, schoolId, domain, threshold).NoneFound?
             <==> forall s, e, d :: s in students && e in s.exams && d in CheckedDomains(domain) ==> !Struggling.Below(e, d, threshold))
    ensures var r := LegacyStrugglingOf(schools, schoolId, domain, threshold);
            r.Report? ==> forall k :: 1 <= k < |r.lines| ==>
                            && r.lines[k].Entry?
                            && (r.lines[k].record.score as real) < threshold
                            && (domain.Some? ==> r.lines[k].record.domain == domain.value)
  {
    var students, ds := FindSchool(schools, schoolId).value.students, CheckedDomains(domain);
    var rs := Struggling.Records(students, ds, threshold);
    if rs == [] {
      forall s, e, d | s in students && e in s.exams && d in ds
        ensures !Struggling.Below(e, d, threshold)
      {
        Struggling.RecordsMembers(students, ds, threshold, Struggling.RecordOf(s.id, e, d));
      }
    } else {
      Struggling.RecordsMembers(students, ds, threshold, rs[0]);
      var r := LegacyStrugglingOf(schools, schoolId, domain, threshold);
      forall k | 1 <= k < |r.lines|
        ensures r.lines[k].Entry? && (r.lines[k].record.score as real) < threshold
        ensures domain.Some? ==> r.lines[k].record.domain == domain.value
      {
        assert r.lines[k] == Entry(rs[k - 1]);
        Struggling.RecordsBelow(students, ds, threshold, rs[k - 1]);
      }
    }
  }

  // ---------------------------------------------------------------------------
  // get-school-overview

  /** `overview` of the legacy server: the title string ends in a newline, which is one more blank line. */
  function OverviewLines(schoolId: string, students: seq<Student>): seq<SchoolOverview.Line> {
    var exams := StudentsExams(students);
    [SchoolOverview.Title(schoolId), SchoolOverview.Blank, SchoolOverview.StudentCount(|students|)]
    + if |exams| > 0 then
        [ SchoolOverview.TotalExams(|exams|),
          SchoolOverview.AverageScore(ScoreTotal(exams) / |exams| as real),
          SchoolOverview.Blank,
          SchoolOverview.DomainHeading ]
        + [SchoolOverview.DomainLine(exams, A), SchoolOverview.DomainLine(exams, B), SchoolOverview.DomainLine(exams, C)]
      else [SchoolOverview.NoExamData(schoolId)]
  }

  function OverviewOf(schools: seq<School>, schoolId: string): SchoolOverview.Reply {
    match FindSchool(schools, schoolId)
    case None => SchoolOverview.SchoolNotFound(schoolId)
    case Some(school) => SchoolOverview.Overview(OverviewLines(school.id, school.students))
  }

  /** `getSchoolOverview(schoolId)` */
  method GetSchoolOverview(schools: seq<School>, schoolId: string) returns (r: SchoolOverview.Reply)
    ensures r == OverviewOf(schools, schoolId)
  {
    var school := FindSchool(schools, schoolId);
    if school.None? {
      return SchoolOverview.SchoolNotFound(schoolId);
    }
    var students := school.value.students;
    var overview := [SchoolOverview.Title(school.value.id), SchoolOverview.Blank];
    overview := overview + [SchoolOverview.StudentCount(|students|)];
    var totalScore, totalA, totalB, totalC, totalExams := SchoolOverview.Accumulate(students);
    if totalExams > 0 {
      var n := totalExams as real;
      var avgA, avgB, avgC := totalA as real / n, totalB as real / n, totalC as real / n;
      overview := overview + [SchoolOverview.TotalExams(totalExams), SchoolOverview.AverageScore(totalScore / n)];
      overview := overview + [SchoolOverview.Blank, SchoolOverview.DomainHeading];
      overview := overview + [SchoolOverview.DomainAverage(A, avgA, Percent(avgA))];
      overview := overview + [SchoolOverview.DomainAverage(B, avgB, Percent(avgB))];
      overview := overview + [SchoolOverview.DomainAverage(C, avgC, Percent(avgC))];
    } else {
      overview := overview + [SchoolOverview.NoExamData(schoolId)];
    }
    return SchoolOverview.Overview(overview);
  }

  /**
   * The legacy overview is the current one with one blank line inserted after
   * the title; both answer "not found" for the same ids.
   */
  lemma OneMoreBlank(schools: seq<School>, schoolId: string)
    ensures OverviewOf(schools, schoolId).SchoolNotFound? <==> SchoolOverview.OverviewOf(schools, schoolId).SchoolNotFound?
    ensures var legacy, current := OverviewOf(schools, schoolId), SchoolOverview.OverviewOf(schools, schoolId);
            legacy.Overview? ==>
              && |current.lines| > 0
              && legacy.lines == [current.lines[0], SchoolOverview.Blank] + current.lines[1..]
  {
  }

  /** The averages are computed exactly when there is at least one exam; otherwise the "no exam data" line ends the report. */
  lemma DividesOnlyWithExams(schoolId: string, students: seq<Student>)
    ensures var lines := OverviewLines(schoolId, students);
            && (ExamCount(students) == 0 <==> lines[|lines| - 1] == SchoolOverview.NoExamData(schoolId))
            && (ExamCount(students) == 0 <==> |lines| == 4)
            && (ExamCount(students) > 0 <==> |lines| == 10)
  {
    ExamCountIsLength(students);
  }
}
