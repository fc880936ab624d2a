/**
 * The dataset every tool reads (a list of schools, each with students, each
 * with exams), the two lookups over it, the per-exam baseline statistics and
 * the id-list abbreviation helper.
 *
 * The dataset is a parameter: loading it from the JSON file, and falling back
 * to an empty list of schools when that fails, is outside the model.
 */
module Data {
  import opened Js
  import Stats

  datatype Domain = A | B | C

  /** The three domains, in the order the tools report them. */
  const AllDomains: seq<Domain> := [A, B, C]

  /** Items correct per domain, out of 10 each. */
  datatype ItemsCorrect = ItemsCorrect(a: int, b: int, c: int)

  function ItemsIn(items: ItemsCorrect, d: Domain): int {
    match d
    case A => items.a
    case B => items.b
    case C => items.c
  }

  /** An exam record; its id is numeric (the tools compare it through `String()` and `Number()`). */
  datatype Exam = Exam(examId: int, score: real, items: ItemsCorrect)

  datatype Student = Student(id: string, exams: seq<Exam>)

  datatype School = School(id: string, students: seq<Student>)

  /** A student as the lookup returns it: the record plus the id of the school it was found in. */
  datatype FoundStudent = FoundStudent(student: Student, schoolId: string)

  /** Questions per exam over all three domains. */
  const TotalQuestionsPerExam: int := 30

  // ---------------------------------------------------------------------------
  // Student lookup

  /** Every student tagged with its school's id, in school order and then student order. */
  function Enrolments(schools: seq<School>): seq<FoundStudent> {
    if schools == [] then []
    else Tagged(schools[0].students, schools[0].id) + Enrolments(schools[1..])
  }

  function Tagged(students: seq<Student>, schoolId: string): seq<FoundStudent> {
    if students == [] then []
    else [FoundStudent(students[0], schoolId)] + Tagged(students[1..], schoolId)
  }

  /** The first entry whose student has the given id. */
  function FirstWithId(entries: seq<FoundStudent>, studentId: string): Option<FoundStudent> {
    if entries == [] then None
    else if entries[0].student.id == studentId then Some(entries[0])
    else FirstWithId(entries[1..], studentId)
  }

  /** What `findStudentById` answers. */
  function FindStudent(schools: seq<School>, studentId: string): Option<FoundStudent> {
    FirstWithId(Enrolments(schools), studentId)
  }

  predicate FirstMatchAt(entries: seq<FoundStudent>, studentId: string, k: int) {
    && 0 <= k < |entries|
    && entries[k].student.id == studentId
    && forall j :: 0 <= j < k ==> entries[j].student.id != studentId
  }

  /** The first match in a list, and only when there is no match at all, nothing. */
  lemma {:induction false} FirstWithIdSpec(entries: seq<FoundStudent>, studentId: string)
    ensures FirstWithId(entries, studentId).None?
        <==> forall k :: 0 <= k < |entries| ==> entries[k].student.id != studentId
    ensures FirstWithId(entries, studentId).Some? ==>
              exists k :: FirstMatchAt(entries, studentId, k)
                       && entries[k] == FirstWithId(entries, studentId).value
  {
    if entries != [] && entries[0].student.id != studentId {
      var rest := entries[1..];
      FirstWithIdSpec(rest, studentId);
      if FirstWithId(rest, studentId).Some? {
        var k :| FirstMatchAt(rest, studentId, k) && rest[k] == FirstWithId(rest, studentId).value;
        assert FirstMatchAt(entries, studentId, k + 1);
      }
      if forall k :: 0 <= k < |rest| ==> rest[k].student.id != studentId {
        assert forall k :: 0 <= k < |entries| ==> entries[k].student.id != studentId by {
          forall k | 0 <= k < |entries| ensures entries[k].student.id != studentId {
            if k > 0 { assert entries[k] == rest[k - 1]; }
          }
        }
      }
    } else if entries != [] {
      assert FirstMatchAt(entries, studentId, 0);
    }
  }

  lemma {:induction false} TaggedAt(students: seq<Student>, schoolId: string, k: int)
    requires 0 <= k < |students|
    ensures |Tagged(students, schoolId)| == |students|
    ensures Tagged(students, schoolId)[k] == FoundStudent(students[k], schoolId)
  {
    if k > 0 {
      TaggedAt(students[1..], schoolId, k - 1);
    } else {
      TaggedLength(students, schoolId);
    }
  }

  lemma {:induction false} TaggedLength(students: seq<Student>, schoolId: string)
    ensures |Tagged(students, schoolId)| == |students|
  {
    if students != [] {
      TaggedLength(students[1..], schoolId);
    }
  }

  /** An enrolment exists exactly for each student of each school. */
  lemma {:induction false} EnrolmentsMembers(schools: seq<School>, e: FoundStudent)
    ensures e in Enrolments(schools)
        <==> exists i, j :: && 0 <= i < |schools| && 0 <= j < |schools[i].students|
                            && e == FoundStudent(schools[i].students[j], schools[i].id)
  {
    if schools != [] {
      EnrolmentsMembers(schools[1..], e);
      var t := Tagged(schools[0].students, schools[0].id);
      TaggedLength(schools[0].students, schools[0].id);
      if e in t {
        var j :| 0 <= j < |t| && t[j] == e;
        TaggedAt(schools[0].students, schools[0].id, j);
      }
      if exists i, j :: && 0 <= i < |schools| && 0 <= j < |schools[i].students|
                        && e == FoundStudent(schools[i].students[j], schools[i].id) {
        var i, j :| && 0 <= i < |schools| && 0 <= j < |schools[i].students|
                    && e == FoundStudent(schools[i].students[j], schools[i].id);
        if i == 0 {
          TaggedAt(schools[0].students, schools[0].id, j);
          assert t[j] == e;
        } else {
          assert schools[1..][i - 1] == schools[i];
        }
      }
    }
  }

  /**
   * `findStudentById`: walk schools, then their students, and return the first
   * student with that id tagged with its school's id; null when none has it.
   */
  method FindStudentById(schools: seq<School>, studentId: string) returns (r: Option<FoundStudent>)
    ensures r == FindStudent(schools, studentId)
  {
    var i := 0;
    while i < |schools|
      invariant 0 <= i <= |schools|
      invariant FindStudent(schools, studentId) == FirstWithId(Enrolments(schools[i..]), studentId)
    {
      var school := schools[i];
      assert schools[i..][0] == school && schools[i..][1..] == schools[i + 1..];
      assert school.students[0..] == school.students;
      var j := 0;
      while j < |school.students|
        invariant 0 <= j <= |school.students|
        invariant FindStudent(schools, studentId)
               == FirstWithId(Tagged(school.students[j..], school.id) + Enrolments(schools[i + 1..]), studentId)
      {
        var student := school.students[j];
        var rest := Tagged(school.students[j + 1..], school.id) + Enrolments(schools[i + 1..]);
        assert school.students[j..][1..] == school.students[j + 1..];
        assert Tagged(school.students[j..], school.id) + Enrolments(schools[i + 1..])
            == [FoundStudent(student, school.id)] + rest;
        assert ([FoundStudent(student, school.id)] + rest)[1..] == rest;
        if student.id == studentId {
          return Some(FoundStudent(student, school.id));
        }
        j := j + 1;
      }
      assert Tagged(school.students[j..], school.id) + Enrolments(schools[i + 1..]) == Enrolments(schools[i + 1..]);
      i := i + 1;
    }
    return None;
  }

  /** The lookup finds a student exactly when some school lists a student with that id. */
  lemma FindStudentSomeIff(schools: seq<School>, studentId: string)
    ensures FindStudent(schools, studentId).Some?
        <==> exists i, j :: && 0 <= i < |schools| && 0 <= j < |schools[i].students|
                            && schools[i].students[j].id == studentId
  {
    var es := Enrolments(schools);
    FirstWithIdSpec(es, studentId);
    if FindStudent(schools, studentId).Some? {
      var k :| FirstMatchAt(es, studentId, k) && es[k] == FindStudent(schools, studentId).value;
      EnrolmentsMembers(schools, es[k]);
    }
    if exists i, j :: && 0 <= i < |schools| && 0 <= j < |schools[i].students|
                      && schools[i].students[j].id == studentId {
      var i, j :| && 0 <= i < |schools| && 0 <= j < |schools[i].students|
                  && schools[i].students[j].id == studentId;
      var e := FoundStudent(schools[i].students[j], schools[i].id);
      EnrolmentsMembers(schools, e);
      var k :| 0 <= k < |es| && es[k] == e;
    }
  }

  /**
   * What the lookup returns is a student of a school it is listed in, carrying
   * that school's id, and no student listed before it has the same id.
   */
  lemma FindStudentFirst(schools: seq<School>, studentId: string)
    requires FindStudent(schools, studentId).Some?
    ensures var f := FindStudent(schools, studentId).value;
            && f.student.id == studentId
            && exists k :: FirstMatchAt(Enrolments(schools), studentId, k) && Enrolments(schools)[k] == f
    ensures var f := FindStudent(schools, studentId).value;
            exists i, j :: && 0 <= i < |schools| && 0 <= j < |schools[i].students|
                           && f == FoundStudent(schools[i].students[j], schools[i].id)
  {
    var es := Enrolments(schools);
    FirstWithIdSpec(es, studentId);
    EnrolmentsMembers(schools, FindStudent(schools, studentId).value);
  }

  // ---------------------------------------------------------------------------
  // School lookup

  /** `schools.find((s) => s.id === schoolId) || null` */
  function FindSchool(schools: seq<School>, schoolId: string): (r: Option<School>)
    ensures r.None? <==> forall k :: 0 <= k < |schools| ==> schools[k].id != schoolId
    ensures r.Some? ==> && r.value.id == schoolId
                        && exists k :: && 0 <= k < |schools| && schools[k] == r.value
                                       && forall j :: 0 <= j < k ==> schools[j].id != schoolId
  {
    if schools == [] then None
    else if schools[0].id == schoolId then
      Some(schools[0])
    else
      var r := FindSchool(schools[1..], schoolId);
      assert forall k :: 0 < k < |schools| ==> schools[k] == schools[1..][k - 1];
      if r.Some? then
        var k :| && 0 <= k < |schools[1..]| && schools[1..][k] == r.value
                 && forall j :: 0 <= j < k ==> schools[1..][j].id != schoolId;
        assert schools[k + 1] == r.value;
        r
      else r
  }

  // ---------------------------------------------------------------------------
  // Exams and sums over them

  /** All exams of a list of students, student by student. */
  function StudentsExams(students: seq<Student>): seq<Exam> {
    if students == [] then [] else StudentsExams(students[..|students| - 1]) + students[|students| - 1].exams
  }

  /** All exams of the dataset: school by school, student by student. */
  function AllExams(schools: seq<School>): seq<Exam> {
    if schools == [] then [] else AllExams(schools[..|schools| - 1]) + StudentsExams(schools[|schools| - 1].students)
  }

  /** Number of exams over a list of students. */
  function ExamCount(students: seq<Student>): nat {
    if students == [] then 0 else ExamCount(students[..|students| - 1]) + |students[|students| - 1].exams|
  }

  lemma {:induction false} ExamCountIsLength(students: seq<Student>)
    ensures ExamCount(students) == |StudentsExams(students)|
  {
    if students != [] {
      ExamCountIsLength(students[..|students| - 1]);
    }
  }

  /** An exam of one of the students is among their exams. */
  lemma {:induction false} StudentsExamsHas(students: seq<Student>, j: int, e: Exam)
    requires 0 <= j < |students| && e in students[j].exams
    ensures e in StudentsExams(students)
  {
    var init := students[..|students| - 1];
    if j < |students| - 1 {
      assert init[j] == students[j];
      StudentsExamsHas(init, j, e);
    }
  }

  /** An exam of a student of one of the schools is among the dataset's exams. */
  lemma {:induction false} AllExamsHas(schools: seq<School>, i: int, j: int, e: Exam)
    requires 0 <= i < |schools| && 0 <= j < |schools[i].students| && e in schools[i].students[j].exams
    ensures e in AllExams(schools)
  {
    var init := schools[..|schools| - 1];
    if i < |schools| - 1 {
      assert init[i] == schools[i];
      AllExamsHas(init, i, j, e);
    } else {
      StudentsExamsHas(schools[i].students, j, e);
    }
  }

  /** Σ items correct in domain d. */
  function ItemTotal(exams: seq<Exam>, d: Domain): int {
    if exams == [] then 0 else ItemTotal(exams[..|exams| - 1], d) + ItemsIn(exams[|exams| - 1].items, d)
  }

  /** Σ exam scores. */
  function ScoreTotal(exams: seq<Exam>): real {
    if exams == [] then 0.0 else ScoreTotal(exams[..|exams| - 1]) + exams[|exams| - 1].score
  }

  /** Every item count lies in [0, 10]: what a well-formed dataset holds. */
  predicate ItemsInRange(exams: seq<Exam>) {
    forall k, d :: 0 <= k < |exams| ==> 0 <= ItemsIn(exams[k].items, d) <= 10
  }

  lemma {:induction false} ItemTotalBounds(exams: seq<Exam>, d: Domain)
    requires ItemsInRange(exams)
    ensures 0 <= ItemTotal(exams, d) <= 10 * |exams|
  {
    if exams != [] {
      var init := exams[..|exams| - 1];
      assert ItemsInRange(init) by {
        forall k, d' | 0 <= k < |init| ensures 0 <= ItemsIn(init[k].items, d') <= 10 {
          assert init[k] == exams[k];
        }
      }
      ItemTotalBounds(init, d);
      assert 0 <= ItemsIn(exams[|exams| - 1].items, d) <= 10;
    }
  }

  lemma {:induction false} ItemTotalAppend(xs: seq<Exam>, ys: seq<Exam>, d: Domain)
    ensures ItemTotal(xs + ys, d) == ItemTotal(xs, d) + ItemTotal(ys, d)
    decreases |ys|
  {
    if ys == [] {
      assert xs + ys == xs;
    } else {
      var ys' := ys[..|ys| - 1];
      assert (xs + ys)[..|xs + ys| - 1] == xs + ys';
      ItemTotalAppend(xs, ys', d);
    }
  }

  // ---------------------------------------------------------------------------
  // Baseline statistics per exam id

  /** The key an exam is filed under: `String(exam.exam_id)`. */
  function KeyOf(e: Exam): string {
    IntToString(e.examId)
  }

  /** The scores filed under a key, in dataset order. */
  function ScoresFor(exams: seq<Exam>, key: string): seq<real> {
    if exams == [] then []
    else
      var e := exams[|exams| - 1];
      ScoresFor(exams[..|exams| - 1], key) + if KeyOf(e) == key then [e.score] else []
  }

  /** The keys that occur. */
  function Keys(exams: seq<Exam>): set<string> {
    set e | e in exams :: KeyOf(e)
  }

  /** Mean and standard deviation of one exam id's scores. */
  datatype BaselineStat = BaselineStat(mean: real, stdDev: real)

  function Stat(scores: seq<real>, sqrt: real -> real): BaselineStat
    requires |scores| > 0
  {
    BaselineStat(Stats.Mean(scores), sqrt(Stats.Variance(scores)))
  }

  /**
   * `examStats` as a value: one entry per exam id that occurs anywhere in the
   * dataset. `Math.sqrt` is the parameter `sqrt`.
   */
  function Baseline(schools: seq<School>, sqrt: real -> real): map<string, BaselineStat> {
    var exams := AllExams(schools);
    map k | k in Keys(exams) :: (ScoresForNonEmpty(exams, k); Stat(ScoresFor(exams, k), sqrt))
  }

  /** A key has scores filed under it exactly when some exam carries it. */
  lemma {:induction false} ScoresForNonEmpty(exams: seq<Exam>, key: string)
    ensures |ScoresFor(exams, key)| > 0 <==> key in Keys(exams)
  {
    if exams != [] {
      var init := exams[..|exams| - 1];
      ScoresForNonEmpty(init, key);
      assert exams == init + [exams[|exams| - 1]];
      assert Keys(exams) == Keys(init) + {KeyOf(exams[|exams| - 1])};
    }
  }

  /** The scores filed under a key are exactly those of the exams carrying it. */
  lemma {:induction false} ScoresForMembers(exams: seq<Exam>, key: string, v: real)
    ensures v in ScoresFor(exams, key) <==> exists e :: e in exams && KeyOf(e) == key && e.score == v
  {
    if exams != [] {
      var init := exams[..|exams| - 1];
      ScoresForMembers(init, key, v);
      assert exams == init + [exams[|exams| - 1]];
    }
  }

  /** `scoresByExam` after visiting `exams`: one entry per key that occurs, holding that key's scores. */
  ghost predicate GroupsScores(m: map<string, seq<real>>, exams: seq<Exam>) {
    && (forall k :: k in m <==> k in Keys(exams))
    && (forall k :: k in m ==> m[k] == ScoresFor(exams, k))
  }

  lemma GroupsScoresStep(m: map<string, seq<real>>, exams: seq<Exam>, e: Exam)
    requires GroupsScores(m, exams)
    ensures GroupsScores(m[KeyOf(e) := (if KeyOf(e) in m then m[KeyOf(e)] else []) + [e.score]], exams + [e])
  {
    var xs := exams + [e];
    assert xs[..|xs| - 1] == exams;
    assert Keys(xs) == Keys(exams) + {KeyOf(e)};
    ScoresForNonEmpty(exams, KeyOf(e));
  }

  lemma AllExamsStep(schools: seq<School>, i: int)
    requires 0 <= i < |schools|
    ensures AllExams(schools[..i + 1]) == AllExams(schools[..i]) + StudentsExams(schools[i].students)
  {
    assert schools[..i + 1][..i] == schools[..i];
  }

  lemma StudentsExamsStep(students: seq<Student>, j: int)
    requires 0 <= j < |students|
    ensures StudentsExams(students[..j + 1]) == StudentsExams(students[..j]) + students[j].exams
  {
    assert students[..j + 1][..j] == students[..j];
  }

  /** The innermost loop of `examStats`: push each exam's score onto the list of its key. */
  method FileScores(m: map<string, seq<real>>, ghost visited: seq<Exam>, exams: seq<Exam>)
    returns (scoresByExam: map<string, seq<real>>)
    requires GroupsScores(m, visited)
    ensures GroupsScores(scoresByExam, visited + exams)
  {
    scoresByExam := m;
    var k := 0;
    assert visited + exams[..0] == visited;
    while k < |exams|
      invariant 0 <= k <= |exams|
      invariant GroupsScores(scoresByExam, visited + exams[..k])
    {
      var exam := exams[k];
      var key := IntToString(exam.examId);
      GroupsScoresStep(scoresByExam, visited + exams[..k], exam);
      assert visited + exams[..k + 1] == visited + exams[..k] + [exam];
      var scores := if key in scoresByExam then scoresByExam[key] else [];
      scoresByExam := scoresByExam[key := scores + [exam.score]];
      k := k + 1;
    }
    assert exams[..k] == exams;
  }

  /** The first half of `examStats`: file every exam's score under `String(exam_id)`, in a triple loop. */
  method GroupScoresByExam(schools: seq<School>) returns (scoresByExam: map<string, seq<real>>)
    ensures GroupsScores(scoresByExam, AllExams(schools))
  {
    scoresByExam := map[];
    ghost var visited: seq<Exam> := [];
    var i := 0;
    while i < |schools|
      invariant 0 <= i <= |schools|
      invariant visited == AllExams(schools[..i])
      invariant GroupsScores(scoresByExam, visited)
    {
      var students := schools[i].students;
      ghost var before := visited;
      var j := 0;
      while j < |students|
        invariant 0 <= j <= |students|
        invariant visited == before + StudentsExams(students[..j])
        invariant GroupsScores(scoresByExam, visited)
      {
        scoresByExam := FileScores(scoresByExam, visited, students[j].exams);
        visited := visited + students[j].exams;
        StudentsExamsStep(students, j);
        j := j + 1;
      }
      assert students[..j] == students;
      AllExamsStep(schools, i);
      i := i + 1;
    }
    assert schools[..i] == schools;
  }

  /**
   * `examStats`: group the scores by exam id, then turn each key's scores into
   * their mean and `sqrt` of their population variance.
   */
  method ExamStats(schools: seq<School>, sqrt: real -> real) returns (stats: map<string, BaselineStat>)
    ensures stats == Baseline(schools, sqrt)
  {
    var scoresByExam := GroupScoresByExam(schools);
    ghost var all := AllExams(schools);
    stats := map[];
    var todo := scoresByExam.Keys;
    while todo != {}
      invariant todo <= Keys(all)
      invariant forall k :: k in stats <==> k in Keys(all) && k !in todo
      invariant forall k :: k in stats ==> |ScoresFor(all, k)| > 0 && stats[k] == Stat(ScoresFor(all, k), sqrt)
      decreases |todo|
    {
      var examId :| examId in todo;
      var scores := scoresByExam[examId];
      ScoresForNonEmpty(all, examId);
      var mean := Stats.Mean(scores);
      var variance := Stats.Variance(scores);
      stats := stats[examId := BaselineStat(mean, sqrt(variance))];
      todo := todo - {examId};
    }
    BaselineEquals(schools, sqrt, stats);
  }

  lemma BaselineEquals(schools: seq<School>, sqrt: real -> real, stats: map<string, BaselineStat>)
    requires forall k :: k in stats <==> k in Keys(AllExams(schools))
    requires forall k :: k in stats ==>
               |ScoresFor(AllExams(schools), k)| > 0 && stats[k] == Stat(ScoresFor(AllExams(schools), k), sqrt)
    ensures stats == Baseline(schools, sqrt)
  {
  }

  /** For each key: mean × count = sum of the key's scores, and the variance is Σ(v − mean)² / count. */
  lemma BaselineEntry(schools: seq<School>, sqrt: real -> real, key: string)
    requires key in Baseline(schools, sqrt)
    ensures var scores := ScoresFor(AllExams(schools), key);
            && |scores| > 0
            && Stats.Product(Baseline(schools, sqrt)[key].mean, |scores| as real) == Stats.Sum(scores)
            && Baseline(schools, sqrt)[key].stdDev == sqrt(Stats.Variance(scores))
            && Stats.Product(Stats.Variance(scores), |scores| as real)
               == Stats.SquaredDeviations(scores, Stats.Mean(scores))
  {
    ScoresForNonEmpty(AllExams(schools), key);
  }

  /** The baseline has an entry for exactly the exam ids that occur in the dataset. */
  lemma BaselineKeys(schools: seq<School>, sqrt: real -> real, examId: int)
    ensures IntToString(examId) in Baseline(schools, sqrt)
        <==> exists e :: e in AllExams(schools) && e.examId == examId
  {
    var key := IntToString(examId);
    if key in Baseline(schools, sqrt) {
      var e :| e in AllExams(schools) && KeyOf(e) == key;
      IntToStringInjective(e.examId, examId);
    }
  }

  /**
   * An exam id whose scores are all equal (in particular one taken only once)
   * has variance 0, so its stdDev is `sqrt(0)`; the variance is 0 only then.
   */
  lemma BaselineStdDevZero(schools: seq<School>, sqrt: real -> real, key: string)
    requires key in Baseline(schools, sqrt)
    ensures var scores := ScoresFor(AllExams(schools), key);
            |scores| > 0 && (Stats.Variance(scores) == 0.0 <==> Stats.Constant(scores))
    ensures |ScoresFor(AllExams(schools), key)| == 1 ==> Baseline(schools, sqrt)[key].stdDev == sqrt(0.0)
  {
    var scores := ScoresFor(AllExams(schools), key);
    ScoresForNonEmpty(AllExams(schools), key);
    Stats.VarianceZeroIffConstant(scores);
  }

  // ---------------------------------------------------------------------------
  // abbreviateIds

  /** `abbreviateIds(ids, count)`: the first and last `count` ids around "..." when the list is longer than 2·count. */
  function AbbreviateIds(ids: seq<string>, count: int): (r: seq<string>)
    ensures count >= 0 ==> |r| <= |ids| + 1
    ensures forall x :: x in r ==> x in ids || x == "..."
  {
    if |ids| <= count * 2 then ids
    else Slice(ids, 0, count) + ["..."] + SliceFrom(ids, -count)
  }

  lemma AbbreviateShort(ids: seq<string>, count: int)
    requires |ids| <= 2 * count
    ensures AbbreviateIds(ids, count) == ids
  {
  }

  /** A long list keeps `count` ids at each end, around one "...". */
  lemma AbbreviateLong(ids: seq<string>, count: int)
    requires count >= 1 && |ids| > 2 * count
    ensures AbbreviateIds(ids, count) == ids[..count] + ["..."] + ids[|ids| - count..]
    ensures |AbbreviateIds(ids, count)| == 2 * count + 1
  {
  }

  /** With count 0, `slice(-0)` is the whole list, so nothing is dropped. */
  lemma AbbreviateZero(ids: seq<string>)
    requires |ids| > 0
    ensures AbbreviateIds(ids, 0) == ["..."] + ids
  {
    assert ids[0..|ids|] == ids;
  }
}
