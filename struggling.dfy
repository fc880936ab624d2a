/**
 * The struggling-student filter (`identify-struggling-students`): one record
 * per (student, exam, checked domain) whose item count is below the threshold,
 * and, when there is at least one record, the class mean and standard
 * deviation of every checked domain.
 *
 * The domain list arrives already validated and upper-cased (`a`/`b`/`c` are
 * `A`/`B`/`C` here); it may be absent, which the tool treats exactly as an
 * empty list. It may hold a domain twice — the schema does not forbid it —
 * and then that domain is checked, pushed and reported twice, as in the loops.
 */
module Struggling {
  import opened Js
  import opened Data
  import Stats

  /** `threshold = 5` when the caller gives none. */
  const DefaultThreshold: real := 5.0

  /** `domains && domains.length > 0 ? domains : ["A", "B", "C"]` */
  function DomainsToCheck(domains: Option<seq<Domain>>): seq<Domain> {
    if domains.Some? && |domains.value| > 0 then domains.value else AllDomains
  }

  /** The ` in domain(s) X, Y` part of the header and of the empty message. */
  datatype Suffix = NoSuffix | InDomains(plural: bool, domains: seq<Domain>)

  function SuffixOf(domains: Option<seq<Domain>>): Suffix {
    if domains.Some? && |domains.value| > 0 then InDomains(|domains.value| > 1, domains.value) else NoSuffix
  }

  /** `- Student <id>: Domain <d> <score>/10 (<pct>%) in exam <exam_id>` */
  datatype Record = Record(studentId: string, domain: Domain, score: int, pct: real, examId: int)

  function RecordOf(studentId: string, e: Exam, d: Domain): Record {
    var score := ItemsIn(e.items, d);
    Record(studentId, d, score, Percent(score as real), e.examId)
  }

  /** `score < threshold` */
  predicate Below(e: Exam, d: Domain, threshold: real) {
    (ItemsIn(e.items, d) as real) < threshold
  }

  // ---------------------------------------------------------------------------
  // The records, in student → exam → domain order

  function ExamRecords(studentId: string, e: Exam, ds: seq<Domain>, threshold: real): seq<Record> {
    if ds == [] then []
    else
      var d := ds[|ds| - 1];
      ExamRecords(studentId, e, ds[..|ds| - 1], threshold) + if Below(e, d, threshold) then [RecordOf(studentId, e, d)] else []
  }

  function StudentRecords(studentId: string, exams: seq<Exam>, ds: seq<Domain>, threshold: real): seq<Record> {
    if exams == [] then []
    else StudentRecords(studentId, exams[..|exams| - 1], ds, threshold) + ExamRecords(studentId, exams[|exams| - 1], ds, threshold)
  }

  function Records(students: seq<Student>, ds: seq<Domain>, threshold: real): seq<Record> {
    if students == [] then []
    else
      var s := students[|students| - 1];
      Records(students[..|students| - 1], ds, threshold) + StudentRecords(s.id, s.exams, ds, threshold)
  }

  // ---------------------------------------------------------------------------
  // The score buckets and the class statistics

  /** What one exam pushes onto bucket d: its count in d, once per occurrence of d among the checked domains. */
  function ExamPushes(e: Exam, ds: seq<Domain>, d: Domain): seq<real> {
    if ds == [] then []
    else ExamPushes(e, ds[..|ds| - 1], d) + if ds[|ds| - 1] == d then [ItemsIn(e.items, d) as real] else []
  }

  /** `scoreBuckets[d]` after the second triple loop. */
  function Bucket(exams: seq<Exam>, ds: seq<Domain>, d: Domain): seq<real> {
    if exams == [] then [] else Bucket(exams[..|exams| - 1], ds, d) + ExamPushes(exams[|exams| - 1], ds, d)
  }

  /** `count > 0 ? Σv / count : 0` */
  function ClassMean(scores: seq<real>): (m: real)
    ensures |scores| == 0 ==> m == 0.0
    ensures |scores| > 0 ==> Stats.Product(m, |scores| as real) == Stats.Sum(scores)
  {
    if |scores| > 0 then Stats.Mean(scores) else 0.0
  }

  /** `count > 0 ? Σ(v − mean)² / count : 0` */
  function ClassVariance(scores: seq<real>): (v: real)
    ensures v >= 0.0
    ensures |scores| == 0 ==> v == 0.0
    ensures |scores| > 0 ==> Stats.Product(v, |scores| as real) == Stats.SquaredDeviations(scores, ClassMean(scores))
  {
    if |scores| > 0 then Stats.Variance(scores) else 0.0
  }

  datatype Line =
    | Header(schoolId: string, suffix: Suffix, threshold: real)
    | StatsHeading
    | DomainStat(domain: Domain, mean: real, pct: real, stdDev: real)
    | Blank
    | Result(record: Record)

  function StatLine(d: Domain, scores: seq<real>, sqrt: real -> real): Line {
    var mean := ClassMean(scores);
    DomainStat(d, mean, Percent(mean), sqrt(ClassVariance(scores)))
  }

  /** One statistics line per domain of `ds`, each over the bucket the whole domain list `all` filled. */
  function StatLines(exams: seq<Exam>, all: seq<Domain>, ds: seq<Domain>, sqrt: real -> real): seq<Line> {
    if ds == [] then []
    else
      var d := ds[|ds| - 1];
      StatLines(exams, all, ds[..|ds| - 1], sqrt) + [StatLine(d, Bucket(exams, all, d), sqrt)]
  }

  function ResultLines(rs: seq<Record>): (lines: seq<Line>)
    ensures |lines| == |rs| && forall k :: 0 <= k < |rs| ==> lines[k] == Result(rs[k])
  {
    seq(|rs|, k requires 0 <= k < |rs| => Result(rs[k]))
  }

  datatype Reply =
    | SchoolNotFound(schoolId: string)
    | NoneFound(schoolId: string, suffix: Suffix, threshold: real, pct: real)
    | Report(lines: seq<Line>)

  /** `[header, ...statsLines, "", ...results]` */
  function ReportLines(schoolId: string, students: seq<Student>, domains: Option<seq<Domain>>, threshold: real, sqrt: real -> real): seq<Line> {
    var ds := DomainsToCheck(domains);
    [Header(schoolId, SuffixOf(domains), threshold), StatsHeading]
    + StatLines(StudentsExams(students), ds, ds, sqrt)
    + [Blank]
    + ResultLines(Records(students, ds, threshold))
  }

  /** What the tool answers. */
  function StrugglingOf(schools: seq<School>, schoolId: string, domains: Option<seq<Domain>>, threshold: real, sqrt: real -> real): Reply {
    match FindSchool(schools, schoolId)
    case None => SchoolNotFound(schoolId)
    case Some(school) => SchoolReply(schoolId, school.students, domains, threshold, sqrt)
  }

  /** The answer once the school is found. */
  function SchoolReply(schoolId: string, students: seq<Student>, domains: Option<seq<Domain>>, threshold: real, sqrt: real -> real): Reply {
    if Records(students, DomainsToCheck(domains), threshold) == [] then
      NoneFound(schoolId, SuffixOf(domains), threshold, Percent(threshold))
    else Report(ReportLines(schoolId, students, domains, threshold, sqrt))
  }

  // ---------------------------------------------------------------------------
  // The tool's loops

  /** The tool's `run`. */
  method IdentifyStrugglingStudents(schools: seq<School>, schoolId: string, domains: Option<seq<Domain>>, threshold: real, sqrt: real -> real)
    returns (r: Reply)
    ensures r == StrugglingOf(schools, schoolId, domains, threshold, sqrt)
  {
    var found := FindSchool(schools, schoolId);
    if found.None? {
      return SchoolNotFound(schoolId);
    }
    r := StrugglingIn(schoolId, found.value.students, domains, threshold, sqrt);
  }

  /** The body of `run` after the school lookup. */
  method StrugglingIn(schoolId: string, students: seq<Student>, domains: Option<seq<Domain>>, threshold: real, sqrt: real -> real)
    returns (r: Reply)
    ensures r == SchoolReply(schoolId, students, domains, threshold, sqrt)
  {
    var domainsToCheck := if domains.Some? && |domains.value| > 0 then domains.value else [A, B, C];
    assert domainsToCheck == DomainsToCheck(domains);
    var results := CollectRecords(students, domainsToCheck, threshold);
    var suffix := if domains.Some? && |domains.value| > 0 then InDomains(|domains.value| > 1, domains.value) else NoSuffix;
    assert suffix == SuffixOf(domains);
    if |results| == 0 {
      return NoneFound(schoolId, suffix, threshold, threshold / 10.0 * 100.0);
    }
    var scoreBuckets := FillBuckets(students, domainsToCheck);
    var statsLines := ClassStatistics(scoreBuckets, StudentsExams(students), domainsToCheck, sqrt);
    var header := Header(schoolId, suffix, threshold);
    var resultLines := ResultLines(results);
    var lines := [header] + statsLines + [Blank] + resultLines;
    ghost var stats := StatLines(StudentsExams(students), domainsToCheck, domainsToCheck, sqrt);
    ReportAssembled(header, stats, resultLines);
    return Report(lines);
  }

  /** The first triple loop: every student, every exam, every checked domain. */
  method CollectRecords(students: seq<Student>, ds: seq<Domain>, threshold: real) returns (results: seq<Record>)
    ensures results == Records(students, ds, threshold)
  {
    results := [];
    var i := 0;
    while i < |students|
      invariant 0 <= i <= |students|
      invariant results == Records(students[..i], ds, threshold)
    {
      var student := students[i];
      ghost var start := results;
      var j := 0;
      while j < |student.exams|
        invariant 0 <= j <= |student.exams|
        invariant results == start + StudentRecords(student.id, student.exams[..j], ds, threshold)
      {
        results := CheckExam(results, student.id, student.exams[j], ds, threshold);
        assert student.exams[..j + 1][..j] == student.exams[..j];
        j := j + 1;
      }
      assert student.exams[..j] == student.exams;
      assert students[..i + 1][..i] == students[..i];
      i := i + 1;
    }
    assert students[..i] == students;
  }

  /** The innermost loop: `if (score < threshold) results.push(...)` for each checked domain. */
  method CheckExam(results: seq<Record>, studentId: string, exam: Exam, ds: seq<Domain>, threshold: real)
    returns (results': seq<Record>)
    ensures results' == results + ExamRecords(studentId, exam, ds, threshold)
  {
    results' := results;
    var k := 0;
    while k < |ds|
      invariant 0 <= k <= |ds|
      invariant results' == results + ExamRecords(studentId, exam, ds[..k], threshold)
    {
      var d := ds[k];
      var score := ItemsIn(exam.items, d);
      if (score as real) < threshold {
        var pct := score as real / 10.0 * 100.0;
        results' := results' + [Record(studentId, d, score, pct, exam.examId)];
      }
      assert ds[..k + 1][..k] == ds[..k];
      k := k + 1;
    }
    assert ds[..k] == ds;
  }

  /** The second triple loop: push every checked domain's count of every exam onto that domain's bucket. */
  method FillBuckets(students: seq<Student>, ds: seq<Domain>) returns (scoreBuckets: map<Domain, seq<real>>)
    ensures forall x: Domain :: x in scoreBuckets && scoreBuckets[x] == Bucket(StudentsExams(students), ds, x)
  {
    scoreBuckets := map[A := [], B := [], C := []];
    assert forall x: Domain :: x in scoreBuckets && scoreBuckets[x] == [] by {
      forall x: Domain ensures x in scoreBuckets && scoreBuckets[x] == [] {
        match x
        case A =>
        case B =>
        case C =>
      }
    }
    var i := 0;
    while i < |students|
      invariant 0 <= i <= |students|
      invariant forall x: Domain :: x in scoreBuckets && scoreBuckets[x] == Bucket(StudentsExams(students[..i]), ds, x)
    {
      scoreBuckets := FillStudent(scoreBuckets, StudentsExams(students[..i]), students[i].exams, ds);
      StudentsExamsStep(students, i);
      i := i + 1;
    }
    assert students[..i] == students;
  }

  /** The middle loop, over one student's exams. */
  method FillStudent(buckets: map<Domain, seq<real>>, ghost visited: seq<Exam>, exams: seq<Exam>, ds: seq<Domain>)
    returns (buckets': map<Domain, seq<real>>)
    requires forall x: Domain :: x in buckets && buckets[x] == Bucket(visited, ds, x)
    ensures forall x: Domain :: x in buckets' && buckets'[x] == Bucket(visited + exams, ds, x)
  {
    buckets' := buckets;
    var j := 0;
    assert visited + exams[..0] == visited;
    while j < |exams|
      invariant 0 <= j <= |exams|
      invariant forall x: Domain :: x in buckets' && buckets'[x] == Bucket(visited + exams[..j], ds, x)
    {
      var exam := exams[j];
      buckets' := PushScores(buckets', exam, ds);
      assert (visited + exams[..j + 1])[..|visited| + j] == visited + exams[..j];
      j := j + 1;
    }
    assert exams[..j] == exams;
  }

  /** The innermost loop: `scoreBuckets[d].push(exam.items_correct[d])` for each checked domain. */
  method PushScores(buckets: map<Domain, seq<real>>, exam: Exam, ds: seq<Domain>) returns (buckets': map<Domain, seq<real>>)
    requires forall x: Domain :: x in buckets
    ensures forall x: Domain :: x in buckets' && buckets'[x] == buckets[x] + ExamPushes(exam, ds, x)
  {
    buckets' := buckets;
    var k := 0;
    while k < |ds|
      invariant 0 <= k <= |ds|
      invariant forall x: Domain :: x in buckets' && buckets'[x] == buckets[x] + ExamPushes(exam, ds[..k], x)
    {
      var d := ds[k];
      assert ds[..k + 1][..k] == ds[..k];
      buckets' := buckets'[d := buckets'[d] + [ItemsIn(exam.items, d) as real]];
      k := k + 1;
    }
    assert ds[..k] == ds;
  }

  /** The `statsLines` loop: one line per checked domain over its bucket. */
  method ClassStatistics(scoreBuckets: map<Domain, seq<real>>, ghost exams: seq<Exam>, ds: seq<Domain>, sqrt: real -> real)
    returns (statsLines: seq<Line>)
    requires forall x: Domain :: x in scoreBuckets && scoreBuckets[x] == Bucket(exams, ds, x)
    ensures statsLines == [StatsHeading] + StatLines(exams, ds, ds, sqrt)
  {
    statsLines := [StatsHeading];
    var k := 0;
    while k < |ds|
      invariant 0 <= k <= |ds|
      invariant statsLines == [StatsHeading] + StatLines(exams, ds, ds[..k], sqrt)
    {
      var d := ds[k];
      var scores := scoreBuckets[d];
      var mean := ClassMean(scores);
      var variance := ClassVariance(scores);
      var stdDev := sqrt(variance);
      statsLines := statsLines + [DomainStat(d, mean, mean / 10.0 * 100.0, stdDev)];
      assert ds[..k + 1][..k] == ds[..k];
      k := k + 1;
    }
    assert ds[..k] == ds;
  }

  // ---------------------------------------------------------------------------
  // Properties

  /** The domains checked: the given list when it is non-empty, otherwise A, B, C. */
  lemma DomainsChecked(domains: Option<seq<Domain>>)
    ensures |DomainsToCheck(domains)| > 0
    ensures domains.Some? && domains.value != [] ==> DomainsToCheck(domains) == domains.value
    ensures domains.None? || domains.value == [] ==> DomainsToCheck(domains) == [A, B, C]
  {
  }

  /** Leaving the list out and giving an empty one are the same request. */
  lemma AbsentIsEmpty(schools: seq<School>, schoolId: string, threshold: real, sqrt: real -> real)
    ensures StrugglingOf(schools, schoolId, None, threshold, sqrt) == StrugglingOf(schools, schoolId, Some([]), threshold, sqrt)
  {
  }

  /** The suffix names the given domains, in the plural exactly when there are several, and is empty when none are given. */
  lemma SuffixWording(domains: Option<seq<Domain>>)
    ensures SuffixOf(domains).NoSuffix? <==> domains.None? || domains.value == []
    ensures SuffixOf(domains).InDomains? ==> SuffixOf(domains).domains == domains.value
    ensures SuffixOf(domains).InDomains? ==> (SuffixOf(domains).plural <==> |domains.value| > 1)
  {
  }

  lemma {:induction false} ExamRecordsMembers(studentId: string, e: Exam, ds: seq<Domain>, threshold: real, r: Record)
    ensures r in ExamRecords(studentId, e, ds, threshold)
        <==> exists d :: d in ds && Below(e, d, threshold) && r == RecordOf(studentId, e, d)
  {
    if ds != [] {
      var init := ds[..|ds| - 1];
      ExamRecordsMembers(studentId, e, init, threshold, r);
      assert ds == init + [ds[|ds| - 1]];
    }
  }

  lemma {:induction false} StudentRecordsMembers(studentId: string, exams: seq<Exam>, ds: seq<Domain>, threshold: real, r: Record)
    ensures r in StudentRecords(studentId, exams, ds, threshold)
        <==> exists e, d :: e in exams && d in ds && Below(e, d, threshold) && r == RecordOf(studentId, e, d)
  {
    if exams != [] {
      var init, e := exams[..|exams| - 1], exams[|exams| - 1];
      StudentRecordsMembers(studentId, init, ds, threshold, r);
      ExamRecordsMembers(studentId, e, ds, threshold, r);
      assert exams == init + [e];
      if r in StudentRecords(studentId, exams, ds, threshold) {
        if r in StudentRecords(studentId, init, ds, threshold) {
          var e', d :| e' in init && d in ds && Below(e', d, threshold) && r == RecordOf(studentId, e', d);
          assert e' in exams;
        } else {
          var d :| d in ds && Below(e, d, threshold) && r == RecordOf(studentId, e, d);
          assert e in exams;
        }
      }
      if exists e', d :: e' in exams && d in ds && Below(e', d, threshold) && r == RecordOf(studentId, e', d) {
        var e', d :| e' in exams && d in ds && Below(e', d, threshold) && r == RecordOf(studentId, e', d);
        if e' != e {
          assert e' in init;
        }
      }
    }
  }

  /**
   * A record is produced exactly for a student of the school, one of their
   * exams and a checked domain whose count is below the threshold: no others.
   */
  lemma {:induction false} RecordsMembers(students: seq<Student>, ds: seq<Domain>, threshold: real, r: Record)
    ensures r in Records(students, ds, threshold)
        <==> exists s, e, d :: s in students && e in s.exams && d in ds && Below(e, d, threshold) && r == RecordOf(s.id, e, d)
  {
    if students != [] {
      var init, s := students[..|students| - 1], students[|students| - 1];
      RecordsMembers(init, ds, threshold, r);
      StudentRecordsMembers(s.id, s.exams, ds, threshold, r);
      assert students == init + [s];
    }
  }

  /** Raising the threshold never drops a record. */
  lemma MonotonicInThreshold(students: seq<Student>, ds: seq<Domain>, t1: real, t2: real, r: Record)
    requires t1 <= t2
    ensures r in Records(students, ds, t1) ==> r in Records(students, ds, t2)
  {
    RecordsMembers(students, ds, t1, r);
    RecordsMembers(students, ds, t2, r);
  }

  /** Every record reports a count below the threshold, as a percentage of 10 questions. */
  lemma RecordsBelow(students: seq<Student>, ds: seq<Domain>, threshold: real, r: Record)
    requires r in Records(students, ds, threshold)
    ensures (r.score as real) < threshold && r.pct == 10.0 * r.score as real && r.domain in ds
  {
    RecordsMembers(students, ds, threshold, r);
  }

  /**
   * With no record the empty message is the answer, and it does not depend on
   * the statistics (no bucket is filled, no square root taken); with some it is
   * the report.
   */
  lemma NoneFoundIff(schools: seq<School>, schoolId: string, domains: Option<seq<Domain>>, threshold: real, sqrt: real -> real, sqrt': real -> real)
    requires FindSchool(schools, schoolId).Some?
    ensures var students := FindSchool(schools, schoolId).value.students;
            StrugglingOf(schools, schoolId, domains, threshold, sqrt).NoneFound?
            <==> Records(students, DomainsToCheck(domains), threshold) == []
    ensures StrugglingOf(schools, schoolId, domains, threshold, sqrt).NoneFound?
        ==> (&& StrugglingOf(schools, schoolId, domains, threshold, sqrt) == StrugglingOf(schools, schoolId, domains, threshold, sqrt')
             && StrugglingOf(schools, schoolId, domains, threshold, sqrt).pct == 10.0 * threshold)
  {
  }

  /** The report is the header, the statistics heading and lines, a blank line, then the records in order. */
  lemma ReportOrder(schoolId: string, students: seq<Student>, domains: Option<seq<Domain>>, threshold: real, sqrt: real -> real)
    ensures var lines := ReportLines(schoolId, students, domains, threshold, sqrt);
            var ds := DomainsToCheck(domains);
            var rs := Records(students, ds, threshold);
            var n := |ds| + 2;
            && |lines| == n + 1 + |rs|
            && lines[0] == Header(schoolId, SuffixOf(domains), threshold)
            && lines[1] == StatsHeading
            && (forall k :: 2 <= k < n ==> lines[k].DomainStat? && lines[k].domain == ds[k - 2])
            && lines[n] == Blank
            && (forall k :: 0 <= k < |rs| ==> lines[n + 1 + k] == Result(rs[k]))
  {
    var ds := DomainsToCheck(domains);
    var stats := StatLines(StudentsExams(students), ds, ds, sqrt);
    var rs := Records(students, ds, threshold);
    StatLinesShape(StudentsExams(students), ds, ds, sqrt);
    ReportShape(Header(schoolId, SuffixOf(domains), threshold), stats, ResultLines(rs));
  }

  /** `[header] + ([heading] + stats) + [""] + results` is the report's layout. */
  lemma ReportAssembled(header: Line, stats: seq<Line>, results: seq<Line>)
    ensures [header] + ([StatsHeading] + stats) + [Blank] + results == [header, StatsHeading] + stats + [Blank] + results
  {
  }

  lemma ReportShape(header: Line, stats: seq<Line>, results: seq<Line>)
    ensures var lines := [header, StatsHeading] + stats + [Blank] + results;
            var n := |stats| + 2;
            && |lines| == n + 1 + |results|
            && lines[0] == header && lines[1] == StatsHeading
            && (forall k :: 2 <= k < n ==> lines[k] == stats[k - 2])
            && lines[n] == Blank
            && (forall k :: 0 <= k < |results| ==> lines[n + 1 + k] == results[k])
  {
  }

  lemma {:induction false} StatLinesShape(exams: seq<Exam>, all: seq<Domain>, ds: seq<Domain>, sqrt: real -> real)
    ensures |StatLines(exams, all, ds, sqrt)| == |ds|
    ensures forall k :: 0 <= k < |ds| ==> StatLines(exams, all, ds, sqrt)[k] == StatLine(ds[k], Bucket(exams, all, ds[k]), sqrt)
  {
    if ds != [] {
      StatLinesShape(exams, all, ds[..|ds| - 1], sqrt);
    }
  }

  lemma {:induction false} ExamPushesShape(e: Exam, ds: seq<Domain>, d: Domain)
    ensures |ExamPushes(e, ds, d)| == multiset(ds)[d]
    ensures forall v :: v in ExamPushes(e, ds, d) ==> v == ItemsIn(e.items, d) as real
  {
    if ds != [] {
      var init := ds[..|ds| - 1];
      ExamPushesShape(e, init, d);
      assert ds == init + [ds[|ds| - 1]];
    }
  }

  /**
   * Bucket d holds, per exam, its count in d once for every time d is checked:
   * exactly one entry per exam of the school when d is checked once.
   */
  lemma {:induction false} BucketSize(exams: seq<Exam>, ds: seq<Domain>, d: Domain)
    ensures |Bucket(exams, ds, d)| == |exams| * multiset(ds)[d]
    ensures multiset(ds)[d] == 1 ==> |Bucket(exams, ds, d)| == |exams|
  {
    if exams != [] {
      var n, m := |exams| - 1, multiset(ds)[d];
      var before, pushed := Bucket(exams[..n], ds, d), ExamPushes(exams[n], ds, d);
      assert Bucket(exams, ds, d) == before + pushed;
      BucketSize(exams[..n], ds, d);
      ExamPushesShape(exams[n], ds, d);
      assert |before| + |pushed| == n * m + m;
      MultiplyStep(n, m);
    }
  }

  lemma MultiplyStep(n: nat, m: nat)
    ensures n * m + m == (n + 1) * m
  {
  }

  /** Every bucket entry is the count in d of some exam of the school. */
  lemma {:induction false} BucketMembers(exams: seq<Exam>, ds: seq<Domain>, d: Domain, v: real)
    requires v in Bucket(exams, ds, d)
    ensures exists e :: e in exams && v == ItemsIn(e.items, d) as real
  {
    var init, e := exams[..|exams| - 1], exams[|exams| - 1];
    if v in Bucket(init, ds, d) {
      BucketMembers(init, ds, d, v);
      assert forall x :: x in init ==> x in exams;
    } else {
      ExamPushesShape(e, ds, d);
    }
  }

  /** Without a domain list every domain is checked once, so every bucket has one entry per exam. */
  lemma DefaultBuckets(exams: seq<Exam>, d: Domain)
    ensures |Bucket(exams, DomainsToCheck(None), d)| == |exams|
  {
    assert multiset([A, B, C])[d] == 1;
    BucketSize(exams, [A, B, C], d);
  }
}
