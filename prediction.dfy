/**
 * The next-score predictor (`predict-next-exam-scores`): an ordinary
 * least-squares line through a student's (exam id, score) points, evaluated at
 * the two ids after the last one, compared with the same fit through the
 * school's per-exam-id average scores, plus a grade label and advice.
 */
module Prediction {
  import opened Js
  import opened Data
  import opened Stats

  /** `{ id: Number(e.exam_id), score }`, and the school's `{ id, avg }`. */
  datatype Point = Point(id: int, value: real)

  function X(p: Point): real { p.id as real }
  function Y(p: Point): real { p.value }
  function XY(p: Point): real { Product(X(p), Y(p)) }
  function XX(p: Point): real { Product(X(p), X(p)) }

  /** Slope and intercept of a fitted line. */
  datatype Fit = Fit(slope: real, intercept: real)

  /**
   * The closed-form least-squares fit: slope (nΣxy − ΣxΣy) / (nΣx² − (Σx)²),
   * 0 when that denominator is 0, and intercept (Σy − slope·Σx) / n.
   */
  function FitLine(ps: seq<Point>): (f: Fit)
    requires |ps| > 0
    ensures Denominator(ps) == 0.0 ==> f.slope == 0.0
    ensures Denominator(ps) != 0.0 ==>
              Product(f.slope, Denominator(ps))
              == Product(|ps| as real, SumOf(ps, XY)) - Product(SumOf(ps, X), SumOf(ps, Y))
    ensures Product(f.intercept, |ps| as real) + Product(f.slope, SumOf(ps, X)) == SumOf(ps, Y)
  {
    var n := |ps| as real;
    var sx, sy, sxy, sxx := SumOf(ps, X), SumOf(ps, Y), SumOf(ps, XY), SumOf(ps, XX);
    var denom := Product(n, sxx) - Product(sx, sx);
    var slope := if denom != 0.0 then (Product(n, sxy) - Product(sx, sy)) / denom else 0.0;
    DivideBack(sy - Product(slope, sx), n);
    if denom != 0.0 then DivideBack(Product(n, sxy) - Product(sx, sy), denom); Fit(slope, (sy - Product(slope, sx)) / n)
    else Fit(slope, (sy - Product(slope, sx)) / n)
  }

  lemma DivideBack(t: real, n: real)
    requires n != 0.0
    ensures Product(t / n, n) == t
  {
  }

  /** The least-squares denominator nΣx² − (Σx)². */
  function Denominator(ps: seq<Point>): real {
    Product(|ps| as real, SumOf(ps, XX)) - Product(SumOf(ps, X), SumOf(ps, X))
  }

  /** The ids as reals. */
  function Xs(ps: seq<Point>): (xs: seq<real>)
    ensures |xs| == |ps| && forall i :: 0 <= i < |ps| ==> xs[i] == X(ps[i])
  {
    seq(|ps|, i requires 0 <= i < |ps| => X(ps[i]))
  }

  // ---------------------------------------------------------------------------
  // Properties of the fit

  /** The fit depends on the points, not on their order: sorting first changes nothing. */
  lemma FitPermutation(ps: seq<Point>, qs: seq<Point>)
    requires |ps| > 0 && multiset(ps) == multiset(qs)
    ensures |qs| > 0 && FitLine(ps) == FitLine(qs)
  {
    assert |ps| == |multiset(ps)| == |multiset(qs)| == |qs|;
    SumOfPermutation(ps, qs, X);
    SumOfPermutation(ps, qs, Y);
    SumOfPermutation(ps, qs, XY);
    SumOfPermutation(ps, qs, XX);
  }

  lemma {:induction false} SumsOfIds(ps: seq<Point>)
    ensures SumOf(ps, X) == Sum(Xs(ps)) && SumOf(ps, XX) == SumSquares(Xs(ps))
  {
    if ps != [] {
      var init := ps[..|ps| - 1];
      SumsOfIds(init);
      assert Xs(ps)[..|ps| - 1] == Xs(init);
    }
  }

  /** nΣx² − (Σx)² is never negative, and it is zero exactly when every id is the same. */
  lemma DenominatorZeroIff(ps: seq<Point>)
    requires |ps| > 0
    ensures Denominator(ps) >= 0.0
    ensures Denominator(ps) == 0.0 <==> forall i :: 0 <= i < |ps| ==> ps[i].id == ps[0].id
  {
    SumsOfIds(ps);
    SpreadZeroIffConstant(Xs(ps));
    assert Constant(Xs(ps)) <==> forall i :: 0 <= i < |ps| ==> ps[i].id == ps[0].id;
  }

  /** With a single repeated id the slope is 0 and the line is flat at the mean score. */
  lemma FlatWhenIdsEqual(ps: seq<Point>)
    requires |ps| > 0 && forall i :: 0 <= i < |ps| ==> ps[i].id == ps[0].id
    ensures FitLine(ps).slope == 0.0
    ensures Product(FitLine(ps).intercept, |ps| as real) == SumOf(ps, Y)
  {
    assert Denominator(ps) == 0.0 by {
      DenominatorZeroIff(ps);
    }
    assert FitLine(ps).slope == 0.0;
    FlatIntercept(|ps| as real, SumOf(ps, X), SumOf(ps, Y));
  }

  lemma FlatIntercept(n: real, sx: real, sy: real)
    requires n > 0.0
    ensures Product((sy - Product(0.0, sx)) / n, n) == sy
  {
  }

  lemma DistributeStep(x: real, y: real, a: real, b: real)
    ensures Product(x, a + Product(b, y)) == Product(a, x) + Product(b, Product(x, y))
  {
  }

  /** On points of the line y = a + b·x: Σy = n·a + b·Σx and Σxy = a·Σx + b·Σx². */
  lemma {:induction false} LinearSums(ps: seq<Point>, a: real, b: real)
    requires forall i :: 0 <= i < |ps| ==> ps[i].value == a + Product(b, X(ps[i]))
    ensures SumOf(ps, Y) == Product(|ps| as real, a) + Product(b, SumOf(ps, X))
    ensures SumOf(ps, XY) == Product(a, SumOf(ps, X)) + Product(b, SumOf(ps, XX))
  {
    if ps != [] {
      var init, p := ps[..|ps| - 1], ps[|ps| - 1];
      assert forall i :: 0 <= i < |init| ==> init[i] == ps[i];
      LinearSums(init, a, b);
      DistributeStep(X(p), X(p), a, b);
      LinearStep(|init| as real, SumOf(init, X), SumOf(init, XX), X(p), XX(p), a, b);
    }
  }

  lemma LinearStep(k: real, sx: real, sxx: real, x: real, xx: real, a: real, b: real)
    ensures Product(k, a) + Product(b, sx) + (a + Product(b, x)) == Product(k + 1.0, a) + Product(b, sx + x)
    ensures Product(a, sx) + Product(b, sxx) + (Product(a, x) + Product(b, xx)) == Product(a, sx + x) + Product(b, sxx + xx)
  {
  }

  lemma SlopeAlgebra(n: real, s1: real, s2: real, q: real, a: real, b: real)
    ensures Product(n, Product(a, s1) + Product(b, q)) - Product(s1, Product(n, a) + Product(b, s2))
         == Product(b, Product(n, q) - Product(s1, s2))
  {
  }

  lemma InterceptAlgebra(n: real, sx: real, a: real, b: real)
    requires n > 0.0
    ensures (Product(n, a) + Product(b, sx) - Product(b, sx)) / n == a
  {
  }

  /**
   * The fit is exact on linear data: points of y = a + b·x with at least two
   * distinct ids give slope b and intercept a.
   */
  lemma ExactOnLinear(ps: seq<Point>, a: real, b: real)
    requires |ps| > 0 && forall i :: 0 <= i < |ps| ==> ps[i].value == a + Product(b, X(ps[i]))
    requires exists i :: 0 <= i < |ps| && ps[i].id != ps[0].id
    ensures FitLine(ps) == Fit(b, a)
  {
    var n := |ps| as real;
    var sx, sy, sxy, sxx := SumOf(ps, X), SumOf(ps, Y), SumOf(ps, XY), SumOf(ps, XX);
    LinearSums(ps, a, b);
    DenominatorZeroIff(ps);
    var denom := Product(n, sxx) - Product(sx, sx);
    assert denom != 0.0;
    SlopeAlgebra(n, sx, sx, sxx, a, b);
    assert Product(n, sxy) - Product(sx, sy) == Product(b, denom);
    assert FitLine(ps).slope == b;
    InterceptAlgebra(n, sx, a, b);
  }

  // ---------------------------------------------------------------------------
  // exams.sort((a, b) => a.id - b.id)

  predicate SortedById(s: seq<Point>) {
    forall i, j :: 0 <= i < j < |s| ==> s[i].id <= s[j].id
  }

  method Swap(a: array<Point>, i: int, j: int)
    requires 0 <= i < j < a.Length
    modifies a
    ensures a[..] == old(a[..])[i := old(a[j])][j := old(a[i])]
    ensures multiset(a[..]) == old(multiset(a[..]))
  {
    var t := a[i];
    a[i] := a[j];
    a[j] := t;
  }

  /** Insertion sort by id, in place. */
  method SortById(a: array<Point>)
    modifies a
    ensures SortedById(a[..])
    ensures multiset(a[..]) == old(multiset(a[..]))
  {
    if a.Length == 0 {
      return;
    }
    var i := 1;
    while i < a.Length
      invariant 1 <= i <= a.Length
      invariant SortedById(a[..i])
      invariant multiset(a[..]) == old(multiset(a[..]))
    {
      var j := i;
      while j > 0 && a[j - 1].id > a[j].id
        invariant 0 <= j <= i
        invariant forall k, l :: 0 <= k < l <= i && k != j && l != j ==> a[k].id <= a[l].id
        invariant forall l :: j < l <= i ==> a[j].id <= a[l].id
        invariant multiset(a[..]) == old(multiset(a[..]))
      {
        Swap(a, j - 1, j);
        j := j - 1;
      }
      i := i + 1;
    }
  }

  /** The largest id. */
  function MaxId(ps: seq<Point>): int
    requires |ps| > 0
  {
    if |ps| == 1 then ps[0].id
    else
      var m := MaxId(ps[..|ps| - 1]);
      if ps[|ps| - 1].id > m then ps[|ps| - 1].id else m
  }

  lemma {:induction false} MaxIdIsMax(ps: seq<Point>)
    requires |ps| > 0
    ensures exists i :: 0 <= i < |ps| && ps[i].id == MaxId(ps)
    ensures forall i :: 0 <= i < |ps| ==> ps[i].id <= MaxId(ps)
  {
    if |ps| > 1 {
      var init := ps[..|ps| - 1];
      MaxIdIsMax(init);
      var i :| 0 <= i < |init| && init[i].id == MaxId(init);
      assert ps[i] == init[i];
      assert forall j :: 0 <= j < |init| ==> ps[j] == init[j];
      if ps[|ps| - 1].id > MaxId(init) {
        assert ps[|ps| - 1].id == MaxId(ps);
      } else {
        assert ps[i].id == MaxId(ps);
      }
    } else {
      assert ps[0].id == MaxId(ps);
    }
  }

  /** After sorting, `exams[n - 1].id` is the largest id of the unsorted list. */
  lemma SortedLastIsMax(sorted: seq<Point>, ps: seq<Point>)
    requires |ps| > 0 && SortedById(sorted) && multiset(sorted) == multiset(ps)
    ensures |sorted| > 0 && sorted[|sorted| - 1].id == MaxId(ps)
  {
    assert |sorted| == |multiset(sorted)| == |multiset(ps)| == |ps|;
    MaxIdIsMax(ps);
    var last := sorted[|sorted| - 1];
    assert last in multiset(ps) by {
      assert last in multiset(sorted);
    }
    var i :| 0 <= i < |ps| && ps[i].id == MaxId(ps);
    assert ps[i] in multiset(sorted) by {
      assert ps[i] in multiset(ps);
    }
    var j :| 0 <= j < |sorted| && sorted[j] == ps[i];
  }

  // ---------------------------------------------------------------------------
  // The student's points

  /** `student.exams.map((e) => ({ id: Number(e.exam_id), score: e.exam_score }))` */
  function Observations(exams: seq<Exam>): (ps: seq<Point>)
    ensures |ps| == |exams| && forall i :: 0 <= i < |exams| ==> ps[i] == Point(exams[i].examId, exams[i].score)
  {
    seq(|exams|, i requires 0 <= i < |exams| => Point(exams[i].examId, exams[i].score))
  }

  // ---------------------------------------------------------------------------
  // The school's per-exam-id averages

  /** An `allExams` entry. */
  datatype Group = Group(sum: real, count: nat)

  /** `allExams` after the nested loop over `exams`. */
  function Groups(exams: seq<Exam>): map<int, Group> {
    if exams == [] then map[]
    else
      var m := Groups(exams[..|exams| - 1]);
      var e := exams[|exams| - 1];
      var entry := if e.examId in m then m[e.examId] else Group(0.0, 0);
      m[e.examId := Group(entry.sum + e.score, entry.count + 1)]
  }

  /** The scores of the exams with id k, in order. */
  function IdScores(exams: seq<Exam>, k: int): seq<real> {
    if exams == [] then []
    else
      var e := exams[|exams| - 1];
      IdScores(exams[..|exams| - 1], k) + if e.examId == k then [e.score] else []
  }

  /** The ids that occur, in order of first occurrence. */
  function DistinctIds(exams: seq<Exam>): seq<int> {
    if exams == [] then []
    else
      var ids := DistinctIds(exams[..|exams| - 1]);
      var k := exams[|exams| - 1].examId;
      if k in ids then ids else ids + [k]
  }

  ghost predicate NoDuplicates<T(!new)>(s: seq<T>) {
    forall x :: multiset(s)[x] <= 1
  }

  predicate Counted(m: map<int, Group>) {
    forall k :: k in m ==> m[k].count > 0
  }

  /** `{ id: Number(k), avg: v.sum / v.count }` */
  function PointOf(m: map<int, Group>, k: int): Point
    requires k in m && m[k].count > 0
  {
    Point(k, m[k].sum / m[k].count as real)
  }

  function PointsOf(m: map<int, Group>, ks: seq<int>): seq<Point>
    requires Counted(m) && forall k :: k in ks ==> k in m
  {
    if ks == [] then [] else PointsOf(m, ks[..|ks| - 1]) + [PointOf(m, ks[|ks| - 1])]
  }

  /** The school's points: one per exam id, valued at that id's average score. */
  function SchoolPoints(exams: seq<Exam>): seq<Point> {
    GroupsSpecAll(exams);
    DistinctIdsSpec(exams);
    PointsOf(Groups(exams), DistinctIds(exams))
  }

  /** The school fit, computed only with at least two points (`groupData.length >= 2`). */
  function SchoolFit(students: seq<Student>): Option<Fit> {
    var points := SchoolPoints(StudentsExams(students));
    if |points| >= 2 then Some(FitLine(points)) else None
  }

  /** An id has an entry exactly when some exam carries it; the entry holds that id's score total and count. */
  lemma {:induction false} GroupsSpec(exams: seq<Exam>, k: int)
    ensures k in Groups(exams) <==> |IdScores(exams, k)| > 0
    ensures k in Groups(exams) ==> Groups(exams)[k] == Group(Sum(IdScores(exams, k)), |IdScores(exams, k)|)
  {
    if exams != [] {
      var init := exams[..|exams| - 1];
      GroupsSpec(init, k);
      var xs, ys := IdScores(exams, k), IdScores(init, k);
      if |ys| == 0 {
        assert ys == [];
      }
      if exams[|exams| - 1].examId == k {
        assert xs[..|xs| - 1] == ys;
        assert Sum(xs) == Sum(ys) + exams[|exams| - 1].score;
      } else {
        assert xs == ys;
      }
    }
  }

  lemma GroupsSpecAll(exams: seq<Exam>)
    ensures Counted(Groups(exams))
  {
    forall k | k in Groups(exams) {
      GroupsSpec(exams, k);
    }
  }

  lemma {:induction false} IdScoresOccur(exams: seq<Exam>, k: int)
    ensures |IdScores(exams, k)| > 0 <==> exists e :: e in exams && e.examId == k
  {
    if exams != [] {
      var init := exams[..|exams| - 1];
      IdScoresOccur(init, k);
      assert exams == init + [exams[|exams| - 1]];
    }
  }

  lemma {:induction false} DistinctIdsSpec(exams: seq<Exam>)
    ensures NoDuplicates(DistinctIds(exams))
    ensures forall k :: k in DistinctIds(exams) <==> k in Groups(exams)
    ensures |DistinctIds(exams)| == |Groups(exams).Keys|
  {
    if exams != [] {
      var init := exams[..|exams| - 1];
      DistinctIdsSpec(init);
      var ids, k := DistinctIds(init), exams[|exams| - 1].examId;
      if k !in ids {
        assert multiset(ids)[k] == 0;
        assert forall x :: multiset(ids + [k])[x] == multiset(ids)[x] + (if x == k then 1 else 0);
        assert Groups(exams).Keys == Groups(init).Keys + {k};
      } else {
        assert Groups(exams).Keys == Groups(init).Keys;
      }
    }
  }

  lemma {:induction false} PointsOfSpec(m: map<int, Group>, ks: seq<int>)
    requires Counted(m) && forall k :: k in ks ==> k in m
    ensures |PointsOf(m, ks)| == |ks|
    ensures forall p :: p in PointsOf(m, ks) <==> p.id in ks && p == PointOf(m, p.id)
    ensures NoDuplicates(ks) ==> NoDuplicates(PointsOf(m, ks))
  {
    if ks != [] {
      var init, k := ks[..|ks| - 1], ks[|ks| - 1];
      PointsOfSpec(m, init);
      assert ks == init + [k];
      var ps := PointsOf(m, init);
      if NoDuplicates(ks) {
        assert multiset(ks)[k] == multiset(init)[k] + 1;
        assert forall x :: multiset(init)[x] <= multiset(ks)[x];
        assert NoDuplicates(init);
        assert PointOf(m, k) !in ps;
        assert forall x :: multiset(ps + [PointOf(m, k)])[x] == multiset(ps)[x] + (if x == PointOf(m, k) then 1 else 0);
      }
    }
  }

  /** Two duplicate-free lists with the same elements are permutations of each other. */
  lemma SameElements<T(!new)>(xs: seq<T>, ys: seq<T>)
    requires NoDuplicates(xs) && NoDuplicates(ys)
    requires forall x :: x in xs <==> x in ys
    ensures multiset(xs) == multiset(ys)
  {
    forall x
      ensures multiset(xs)[x] == multiset(ys)[x]
    {
      assert x in xs <==> x in multiset(xs);
      assert x in ys <==> x in multiset(ys);
    }
  }

  /** Every school point is an exam id of the school valued at the mean score of that id's exams. */
  lemma SchoolPointIsAverage(exams: seq<Exam>, p: Point)
    requires p in SchoolPoints(exams)
    ensures |IdScores(exams, p.id)| > 0 && p.value == Mean(IdScores(exams, p.id))
    ensures exists e :: e in exams && e.examId == p.id
  {
    GroupsSpecAll(exams);
    DistinctIdsSpec(exams);
    PointsOfSpec(Groups(exams), DistinctIds(exams));
    GroupsSpec(exams, p.id);
    IdScoresOccur(exams, p.id);
  }

  /** The school fit exists exactly when at least two distinct exam ids occur in the school. */
  lemma SchoolFitIff(students: seq<Student>)
    ensures var exams := StudentsExams(students);
            && (forall k :: k in Groups(exams) <==> exists e :: e in exams && e.examId == k)
            && (SchoolFit(students).Some? <==> |Groups(exams).Keys| >= 2)
  {
    var exams := StudentsExams(students);
    GroupsSpecAll(exams);
    DistinctIdsSpec(exams);
    PointsOfSpec(Groups(exams), DistinctIds(exams));
    forall k
      ensures k in Groups(exams) <==> exists e :: e in exams && e.examId == k
    {
      GroupsSpec(exams, k);
      IdScoresOccur(exams, k);
    }
  }

  // ---------------------------------------------------------------------------
  // Grades, predictions, lines

  datatype Grade = EighthGradeExam1 | EighthGradeExam2 | FourthGrade | FifthGrade | SixthGrade | SeventhGrade | FutureExam

  /**
   * The grade an exam id belongs to; 9 and 10 are tested first, so they are the
   * two 8th-grade exams, 1–2 (and any id below) 4th grade, 3–4 5th, 5–6 6th,
   * 7–8 7th, and everything from 11 on a future exam.
   */
  function GradeLabel(id: int): (g: Grade)
    ensures g == FourthGrade <==> id <= 2
    ensures g == FifthGrade <==> 3 <= id <= 4
    ensures g == SixthGrade <==> 5 <= id <= 6
    ensures g == SeventhGrade <==> 7 <= id <= 8
    ensures g == EighthGradeExam1 <==> id == 9
    ensures g == EighthGradeExam2 <==> id == 10
    ensures g == FutureExam <==> id >= 11
  {
    if id == 9 then EighthGradeExam1
    else if id == 10 then EighthGradeExam2
    else if id <= 2 then FourthGrade
    else if id <= 4 then FifthGrade
    else if id <= 6 then SixthGrade
    else if id <= 8 then SeventhGrade
    else FutureExam
  }

  /** `{ id, predicted: Number((intercept + slope * id).toFixed(1)) }` */
  datatype Predicted = Predicted(id: int, value: real)

  function Predictions(fit: Fit, ids: seq<int>): seq<Predicted> {
    seq(|ids|, i requires 0 <= i < |ids| => Predicted(ids[i], Predict(fit, ids[i])))
  }

  /** The fitted line at `id`, rounded to tenths. */
  function Predict(fit: Fit, id: int): real {
    RoundTenths(fit.intercept + fit.slope * id as real)
  }

  /** `schoolPredictions.find((s) => s.id === id)` */
  function FindPredicted(ps: seq<Predicted>, id: int): Option<Predicted> {
    if ps == [] then None
    else if ps[0].id == id then Some(ps[0])
    else FindPredicted(ps[1..], id)
  }

  /** `find` answers nothing exactly when no entry has the id, and otherwise the first entry that has it. */
  lemma {:induction false} FindPredictedSpec(ps: seq<Predicted>, id: int)
    ensures FindPredicted(ps, id).None? <==> forall k :: 0 <= k < |ps| ==> ps[k].id != id
    ensures FindPredicted(ps, id).Some? ==>
              exists k :: && 0 <= k < |ps| && ps[k] == FindPredicted(ps, id).value && ps[k].id == id
                          && forall j :: 0 <= j < k ==> ps[j].id != id
  {
    if ps != [] && ps[0].id != id {
      FindPredictedSpec(ps[1..], id);
      assert forall k :: 0 < k < |ps| ==> ps[k] == ps[1..][k - 1];
      var r := FindPredicted(ps[1..], id);
      if r.Some? {
        var k :| && 0 <= k < |ps[1..]| && ps[1..][k] == r.value && r.value.id == id
                 && forall j :: 0 <= j < k ==> ps[1..][j].id != id;
        assert ps[k + 1] == r.value;
      }
    } else if ps != [] {
      assert ps[0] == FindPredicted(ps, id).value;
    }
  }

  datatype Line =
    | Heading(studentId: string)
    | ExamAlone(id: int, grade: Grade, predicted: real)
    | ExamVersusSchool(id: int, grade: Grade, predicted: real, school: real, diff: real)
    | Blank
    | AdviceHeading
    | BelowSchool(id: int, points: real)
    | AboveSchool(id: int, points: real)
    | MatchesSchool(id: int)
    | AtOrAbovePace(slope: real, schoolSlope: real)
    | BelowPace(slope: real, schoolSlope: real)
    | Reminder

  function ExamLine(p: Predicted, school: seq<Predicted>): Line {
    match FindPredicted(school, p.id)
    case Some(s) => ExamVersusSchool(p.id, GradeLabel(p.id), p.value, s.value, RoundTenths(p.value - s.value))
    case None => ExamAlone(p.id, GradeLabel(p.id), p.value)
  }

  function ExamLines(ps: seq<Predicted>, school: seq<Predicted>): seq<Line> {
    if ps == [] then [] else ExamLines(ps[..|ps| - 1], school) + [ExamLine(ps[|ps| - 1], school)]
  }

  /** The per-exam advice: below, above or matching the school's prediction by the sign of the difference. */
  function CompLine(p: Predicted, school: seq<Predicted>): seq<Line> {
    match FindPredicted(school, p.id)
    case None => []
    case Some(s) =>
      var delta := p.value - s.value;
      if delta < 0.0 then [BelowSchool(p.id, -delta)]
      else if delta > 0.0 then [AboveSchool(p.id, delta)]
      else [MatchesSchool(p.id)]
  }

  function CompLines(ps: seq<Predicted>, school: seq<Predicted>): seq<Line> {
    if ps == [] then [] else CompLines(ps[..|ps| - 1], school) + CompLine(ps[|ps| - 1], school)
  }

  /** The rate-of-improvement advice, only when there are school predictions. */
  function PaceLines(slope: real, school: seq<Predicted>, schoolSlope: real): seq<Line> {
    if |school| > 0 then
      if slope >= schoolSlope then [AtOrAbovePace(slope, schoolSlope)] else [BelowPace(slope, schoolSlope)]
    else []
  }

  function PredictionLines(studentId: string, ps: seq<Predicted>, school: seq<Predicted>, slope: real, schoolSlope: real): seq<Line> {
    [Heading(studentId)] + ExamLines(ps, school) + [Blank, AdviceHeading]
    + CompLines(ps, school) + PaceLines(slope, school, schoolSlope) + [Reminder]
  }

  datatype Reply =
    | StudentNotFound(studentId: string)
    | NotEnoughData(studentId: string)
    | Prediction(lines: seq<Line>)

  /** `findSchoolById(student.school_id)` and the fit through its per-id averages. */
  function SchoolTrend(schools: seq<School>, schoolId: string): Option<Fit> {
    match FindSchool(schools, schoolId)
    case None => None
    case Some(school) => SchoolFit(school.students)
  }

  /** What the tool answers. */
  function PredictionOf(schools: seq<School>, studentId: string): Reply {
    match FindStudent(schools, studentId)
    case None => StudentNotFound(studentId)
    case Some(found) =>
      if |found.student.exams| < 2 then NotEnoughData(studentId)
      else Prediction(StudentLines(schools, studentId, found))
  }

  /** `nextIds`: the two ids after the largest one. */
  function NextIdsOf(obs: seq<Point>): seq<int>
    requires |obs| > 0
  {
    [MaxId(obs) + 1, MaxId(obs) + 2]
  }

  /** The lines for a student with at least two exams. */
  function StudentLines(schools: seq<School>, studentId: string, found: FoundStudent): seq<Line>
    requires |found.student.exams| >= 2
  {
    var obs := Observations(found.student.exams);
    var fit := FitLine(obs);
    var nextIds := NextIdsOf(obs);
    var trend := SchoolTrend(schools, found.schoolId);
    var school := if trend.Some? then Predictions(trend.value, nextIds) else [];
    var schoolSlope := if trend.Some? then trend.value.slope else 0.0;
    PredictionLines(studentId, Predictions(fit, nextIds), school, fit.slope, schoolSlope)
  }

  // ---------------------------------------------------------------------------
  // The tool's code

  /** The tool's `run`. */
  method PredictNextExamScores(schools: seq<School>, studentId: string) returns (r: Reply)
    ensures r == PredictionOf(schools, studentId)
  {
    var student := FindStudentById(schools, studentId);
    if student.None? {
      return StudentNotFound(studentId);
    }
    var exams := Observations(student.value.student.exams);
    if |exams| < 2 {
      return NotEnoughData(studentId);
    }
    var fit, lastId := StudentTrend(exams);
    var nextIds := [lastId + 1, lastId + 2];
    assert nextIds == NextIdsOf(exams);
    var predictions := Predictions(fit, nextIds);
    var schoolPredictions: seq<Predicted> := [];
    var schSlope := 0.0;
    var trend := SchoolTrendOf(schools, student.value.schoolId);
    if trend.Some? {
      schSlope := trend.value.slope;
      schoolPredictions := Predictions(trend.value, nextIds);
    }
    var lines := ComposeLines(studentId, predictions, schoolPredictions, fit.slope, schSlope);
    return Prediction(lines);
  }

  /** Sort a copy of the points by id, then fit; the last id is the largest. */
  method StudentTrend(exams: seq<Point>) returns (fit: Fit, lastId: int)
    requires |exams| >= 2
    ensures fit == FitLine(exams) && lastId == MaxId(exams)
  {
    var a := new Point[|exams|](i requires 0 <= i < |exams| => exams[i]);
    assert a[..] == exams;
    SortById(a);
    var sorted := a[..];
    FitPermutation(exams, sorted);
    SortedLastIsMax(sorted, exams);
    fit := FitLine(sorted);
    lastId := sorted[|sorted| - 1].id;
  }

  /** The school block: group by exam id, average, sort, and fit when there are at least two ids. */
  method SchoolTrendOf(schools: seq<School>, schoolId: string) returns (trend: Option<Fit>)
    ensures trend == SchoolTrend(schools, schoolId)
  {
    var school := FindSchool(schools, schoolId);
    if school.None? {
      return None;
    }
    var students := school.value.students;
    var allExams, keys := GroupByExamId(students);
    ghost var exams := StudentsExams(students);
    GroupsSpecAll(exams);
    DistinctIdsSpec(exams);
    var groupData := GroupData(allExams, keys);
    assert |groupData| == |SchoolPoints(exams)| by {
      assert |multiset(groupData)| == |multiset(SchoolPoints(exams))|;
    }
    if |groupData| >= 2 {
      FitPermutation(SchoolPoints(exams), groupData);
      trend := Some(FitLine(groupData));
    } else {
      trend := None;
    }
  }

  /**
   * The nested loop filling `allExams`; `keys` lists the ids in the order
   * their entries were created. That list stands in for the order in which
   * `Object.entries` visits the keys (ascending for integer-like keys): the
   * sort by id that follows makes the order irrelevant.
   */
  method GroupByExamId(students: seq<Student>) returns (allExams: map<int, Group>, keys: seq<int>)
    ensures allExams == Groups(StudentsExams(students))
    ensures keys == DistinctIds(StudentsExams(students))
  {
    allExams, keys := map[], [];
    ghost var visited: seq<Exam> := [];
    var i := 0;
    while i < |students|
      invariant 0 <= i <= |students|
      invariant visited == StudentsExams(students[..i])
      invariant allExams == Groups(visited) && keys == DistinctIds(visited)
    {
      allExams, keys := GroupExams(allExams, keys, visited, students[i].exams);
      visited := visited + students[i].exams;
      StudentsExamsStep(students, i);
      i := i + 1;
    }
    assert students[..i] == students;
  }

  /** One more exam: its id's entry grows by its score, and a new id goes to the end of the key list. */
  lemma GroupStep(xs: seq<Exam>, e: Exam)
    ensures var m := Groups(xs);
            var entry := if e.examId in m then m[e.examId] else Group(0.0, 0);
            && Groups(xs + [e]) == m[e.examId := Group(entry.sum + e.score, entry.count + 1)]
            && DistinctIds(xs + [e]) == if e.examId in m then DistinctIds(xs) else DistinctIds(xs) + [e.examId]
  {
    assert (xs + [e])[..|xs|] == xs;
    assert e.examId in Groups(xs) <==> e.examId in DistinctIds(xs) by {
      DistinctIdsSpec(xs);
    }
  }

  /** The inner loop over one student's exams, continuing from the groups of `visited`. */
  method GroupExams(allExams0: map<int, Group>, keys0: seq<int>, ghost visited: seq<Exam>, exams: seq<Exam>)
    returns (allExams: map<int, Group>, keys: seq<int>)
    requires allExams0 == Groups(visited) && keys0 == DistinctIds(visited)
    ensures allExams == Groups(visited + exams) && keys == DistinctIds(visited + exams)
  {
    allExams, keys := allExams0, keys0;
    var j := 0;
    assert visited + exams[..0] == visited;
    while j < |exams|
      invariant 0 <= j <= |exams|
      invariant allExams == Groups(visited + exams[..j]) && keys == DistinctIds(visited + exams[..j])
    {
      var e := exams[j];
      var id := e.examId;
      ghost var done := visited + exams[..j];
      GroupStep(done, e);
      if id !in allExams {
        keys := keys + [id];
      }
      var entry := if id in allExams then allExams[id] else Group(0.0, 0);
      allExams := allExams[id := Group(entry.sum + e.score, entry.count + 1)];
      assert visited + exams[..j + 1] == done + [e];
      j := j + 1;
    }
    assert exams[..j] == exams;
  }

  /**
   * `Object.entries(allExams).map(...).sort(...)`: one point per key, visited
   * in the order `keys` gives, then sorted by id.
   */
  method GroupData(allExams: map<int, Group>, keys: seq<int>) returns (groupData: seq<Point>)
    requires Counted(allExams) && forall k :: k in keys ==> k in allExams
    ensures SortedById(groupData)
    ensures multiset(groupData) == multiset(PointsOf(allExams, keys))
  {
    var entries: seq<Point> := [];
    var i := 0;
    while i < |keys|
      invariant 0 <= i <= |keys|
      invariant entries == PointsOf(allExams, keys[..i])
    {
      assert keys[..i + 1][..i] == keys[..i];
      entries := entries + [PointOf(allExams, keys[i])];
      i := i + 1;
    }
    assert keys[..i] == keys;
    var a := new Point[|entries|](j requires 0 <= j < |entries| => entries[j]);
    assert a[..] == entries;
    SortById(a);
    groupData := a[..];
  }

  /** The `lines` and `compLines` pushes. */
  method ComposeLines(studentId: string, predictions: seq<Predicted>, schoolPredictions: seq<Predicted>, slope: real, schSlope: real)
    returns (lines: seq<Line>)
    ensures lines == PredictionLines(studentId, predictions, schoolPredictions, slope, schSlope)
  {
    var examLines := PushExamLines(predictions, schoolPredictions);
    lines := [Heading(studentId)] + examLines;
    lines := lines + [Blank];
    lines := lines + [AdviceHeading];
    var compLines := PushCompLines(predictions, schoolPredictions);
    if |compLines| > 0 {
      lines := lines + compLines;
    } else {
      assert lines + compLines == lines;
    }
    ghost var before := lines;
    if |schoolPredictions| > 0 {
      if slope >= schSlope {
        lines := lines + [AtOrAbovePace(slope, schSlope)];
      } else {
        lines := lines + [BelowPace(slope, schSlope)];
      }
    }
    assert lines == before + PaceLines(slope, schoolPredictions, schSlope);
    lines := lines + [Reminder];
    LinesInOrder(Heading(studentId), examLines, compLines, PaceLines(slope, schoolPredictions, schSlope));
  }

  lemma LinesInOrder(h: Line, e: seq<Line>, c: seq<Line>, p: seq<Line>)
    ensures [h] + e + [Blank] + [AdviceHeading] + c + p + [Reminder] == [h] + e + [Blank, AdviceHeading] + c + p + [Reminder]
  {
  }

  /** The loop pushing one line per predicted exam, with the school's prediction when there is one. */
  method PushExamLines(predictions: seq<Predicted>, schoolPredictions: seq<Predicted>) returns (lines: seq<Line>)
    ensures lines == ExamLines(predictions, schoolPredictions)
  {
    lines := [];
    var i := 0;
    while i < |predictions|
      invariant 0 <= i <= |predictions|
      invariant lines == ExamLines(predictions[..i], schoolPredictions)
    {
      var p := predictions[i];
      var grade := GradeLabel(p.id);
      var entry := FindPredicted(schoolPredictions, p.id);
      if entry.Some? {
        var diff := RoundTenths(p.value - entry.value.value);
        lines := lines + [ExamVersusSchool(p.id, grade, p.value, entry.value.value, diff)];
      } else {
        lines := lines + [ExamAlone(p.id, grade, p.value)];
      }
      assert predictions[..i + 1][..i] == predictions[..i];
      i := i + 1;
    }
    assert predictions[..i] == predictions;
  }

  /** The `compLines` loop: advice for each exam the school also has a prediction for. */
  method PushCompLines(predictions: seq<Predicted>, schoolPredictions: seq<Predicted>) returns (compLines: seq<Line>)
    ensures compLines == CompLines(predictions, schoolPredictions)
  {
    compLines := [];
    var i := 0;
    while i < |predictions|
      invariant 0 <= i <= |predictions|
      invariant compLines == CompLines(predictions[..i], schoolPredictions)
    {
      var p := predictions[i];
      var entry := FindPredicted(schoolPredictions, p.id);
      if entry.Some? {
        var delta := p.value - entry.value.value;
        if delta < 0.0 {
          compLines := compLines + [BelowSchool(p.id, -delta)];
        } else if delta > 0.0 {
          compLines := compLines + [AboveSchool(p.id, delta)];
        } else {
          compLines := compLines + [MatchesSchool(p.id)];
        }
      }
      assert predictions[..i + 1][..i] == predictions[..i];
      i := i + 1;
    }
    assert predictions[..i] == predictions;
  }

  // ---------------------------------------------------------------------------
  // Properties of the reply

  /** The first guard: no student of any school has that id. */
  lemma NotFoundIff(schools: seq<School>, studentId: string)
    ensures PredictionOf(schools, studentId).StudentNotFound?
        <==> forall i, j :: 0 <= i < |schools| && 0 <= j < |schools[i].students| ==> schools[i].students[j].id != studentId
  {
    FindStudentSomeIff(schools, studentId);
  }

  /** The second guard: the student found has fewer than two exams. */
  lemma NotEnoughDataIff(schools: seq<School>, studentId: string)
    ensures PredictionOf(schools, studentId).NotEnoughData?
        <==> FindStudent(schools, studentId).Some? && |FindStudent(schools, studentId).value.student.exams| < 2
  {
  }

  /** The student's own school is always found: a student is found only inside a school carrying that id. */
  lemma SchoolAlwaysFound(schools: seq<School>, studentId: string)
    requires FindStudent(schools, studentId).Some?
    ensures FindSchool(schools, FindStudent(schools, studentId).value.schoolId).Some?
    ensures SchoolTrend(schools, FindStudent(schools, studentId).value.schoolId)
         == SchoolFit(FindSchool(schools, FindStudent(schools, studentId).value.schoolId).value.students)
  {
    FindStudentFirst(schools, studentId);
    var f := FindStudent(schools, studentId).value;
    var i, j :| && 0 <= i < |schools| && 0 <= j < |schools[i].students|
                && f == FoundStudent(schools[i].students[j], schools[i].id);
    assert schools[i].id == f.schoolId;
  }

  /**
   * The school comparison is made exactly when the student's school has
   * exams with at least two distinct ids.
   */
  lemma SchoolTrendIff(schools: seq<School>, studentId: string)
    requires FindStudent(schools, studentId).Some?
    ensures var schoolId := FindStudent(schools, studentId).value.schoolId;
            && FindSchool(schools, schoolId).Some?
            && (SchoolTrend(schools, schoolId).Some?
                <==> |Groups(StudentsExams(FindSchool(schools, schoolId).value.students)).Keys| >= 2)
  {
    SchoolAlwaysFound(schools, studentId);
    SchoolFitIff(FindSchool(schools, FindStudent(schools, studentId).value.schoolId).value.students);
  }

  /** Two predictions for consecutive ids: looking up either id finds its own prediction. */
  lemma FindOwnPrediction(fit: Fit, m: int)
    ensures var ps := Predictions(fit, [m + 1, m + 2]);
            && FindPredicted(ps, m + 1) == Some(ps[0])
            && FindPredicted(ps, m + 2) == Some(ps[1])
  {
    var ps := Predictions(fit, [m + 1, m + 2]);
    assert ps[1..][0] == ps[1];
  }

  /**
   * The advice for one exam: nothing without a school prediction for that id;
   * otherwise one line, below, above or matching by the sign of the
   * difference, and a below/above line carries the positive distance.
   */
  lemma CompLineBySign(p: Predicted, school: seq<Predicted>)
    ensures CompLine(p, school) == [] <==> forall k :: 0 <= k < |school| ==> school[k].id != p.id
    ensures FindPredicted(school, p.id).Some? ==>
              var s := FindPredicted(school, p.id).value.value;
              var line := CompLine(p, school)[0];
              && |CompLine(p, school)| == 1
              && (line.BelowSchool? <==> p.value < s)
              && (line.AboveSchool? <==> p.value > s)
              && (line.MatchesSchool? <==> p.value == s)
              && (line.BelowSchool? || line.AboveSchool? ==> line.points > 0.0 && (line.points == p.value - s || line.points == s - p.value))
  {
    FindPredictedSpec(school, p.id);
  }

  /** The exam line of one prediction, with or without the school's figure. */
  function ExamLineFor(p: Predicted, s: Option<Predicted>): Line {
    if s.Some? then ExamVersusSchool(p.id, GradeLabel(p.id), p.value, s.value.value, RoundTenths(p.value - s.value.value))
    else ExamAlone(p.id, GradeLabel(p.id), p.value)
  }

  /** The pace line that compares the two slopes. */
  function PaceLine(slope: real, schoolSlope: real): Line {
    if slope >= schoolSlope then AtOrAbovePace(slope, schoolSlope) else BelowPace(slope, schoolSlope)
  }

  /** The per-exam lines of two predictions. */
  lemma TwoPredictions(ps: seq<Predicted>, school: seq<Predicted>)
    requires |ps| == 2
    ensures ExamLines(ps, school) == [ExamLine(ps[0], school), ExamLine(ps[1], school)]
    ensures CompLines(ps, school) == CompLine(ps[0], school) + CompLine(ps[1], school)
  {
    var first := ps[..1];
    assert first[..0] == [] && first[0] == ps[0];
    assert ExamLines(first, school) == [ExamLine(ps[0], school)];
    assert CompLines(first, school) == CompLine(ps[0], school);
    assert ps[..|ps| - 1] == first;
  }

  /**
   * Without a school trend the reply is six lines: the heading, one plain line
   * per predicted exam, the blank and advice lines, and the reminder.
   */
  lemma LinesWithoutSchool(studentId: string, fit: Fit, m: int, schoolSlope: real)
    ensures var ps := Predictions(fit, [m + 1, m + 2]);
            (PredictionLines(studentId, ps, [], fit.slope, schoolSlope)
             == [Heading(studentId), ExamLineFor(ps[0], None), ExamLineFor(ps[1], None), Blank, AdviceHeading, Reminder])
  {
    var ps := Predictions(fit, [m + 1, m + 2]);
    TwoPredictions(ps, []);
  }

  /**
   * With a school trend t the reply is nine lines: both exam lines carry the
   * school's prediction for the same id, each exam gets one advice line, and
   * the pace line compares the student's slope with t's.
   */
  lemma LinesWithSchool(studentId: string, fit: Fit, t: Fit, m: int)
    ensures var ids := [m + 1, m + 2];
            var ps, sc := Predictions(fit, ids), Predictions(t, ids);
            (PredictionLines(studentId, ps, sc, fit.slope, t.slope)
             == [ Heading(studentId), ExamLineFor(ps[0], Some(sc[0])), ExamLineFor(ps[1], Some(sc[1])), Blank, AdviceHeading ]
                + CompLine(ps[0], sc) + CompLine(ps[1], sc) + [PaceLine(fit.slope, t.slope), Reminder])
  {
    var ids := [m + 1, m + 2];
    var ps, sc := Predictions(fit, ids), Predictions(t, ids);
    FindOwnPrediction(t, m);
    TwoPredictions(ps, sc);
  }

  /**
   * A prediction reply is for the ids one and two past the student's largest
   * exam id, each valued at the student's least-squares line rounded to a tenth.
   */
  lemma NextIdsFollowLast(obs: seq<Point>)
    requires |obs| >= 2
    ensures forall i :: 0 <= i < |obs| ==> obs[i].id < NextIdsOf(obs)[0] < NextIdsOf(obs)[1]
    ensures NextIdsOf(obs)[1] == NextIdsOf(obs)[0] + 1
    ensures exists i :: 0 <= i < |obs| && obs[i].id + 1 == NextIdsOf(obs)[0]
  {
    MaxIdIsMax(obs);
  }

  /** Each prediction is for its id and lies within 0.05 of the line at that id. */
  lemma PredictionsNearLine(fit: Fit, ids: seq<int>)
    ensures var ps := Predictions(fit, ids);
            forall i :: 0 <= i < |ids| ==>
              && ps[i].id == ids[i]
              && -0.05 <= ps[i].value - (fit.intercept + fit.slope * ids[i] as real) <= 0.05
  {
  }

  /** The reply's lines, with the school's predictions present exactly when the school has a trend. */
  lemma ReplyLines(schools: seq<School>, studentId: string)
    requires PredictionOf(schools, studentId).Prediction?
    ensures var found := FindStudent(schools, studentId).value;
            var obs := Observations(found.student.exams);
            var ids := NextIdsOf(obs);
            var trend := SchoolTrend(schools, found.schoolId);
            && |obs| >= 2
            && PredictionOf(schools, studentId).lines
               == if trend.Some? then PredictionLines(studentId, Predictions(FitLine(obs), ids), Predictions(trend.value, ids),
                                                      FitLine(obs).slope, trend.value.slope)
                  else PredictionLines(studentId, Predictions(FitLine(obs), ids), [], FitLine(obs).slope, 0.0)
  {
  }

  /** Without a school trend: the six lines with no school figure, no comparison and no pace line. */
  lemma ReplyWithoutSchool(schools: seq<School>, studentId: string)
    requires PredictionOf(schools, studentId).Prediction?
    requires SchoolTrend(schools, FindStudent(schools, studentId).value.schoolId).None?
    ensures var obs := Observations(FindStudent(schools, studentId).value.student.exams);
            var ps := Predictions(FitLine(obs), NextIdsOf(obs));
            (PredictionOf(schools, studentId).lines
             == [Heading(studentId), ExamLineFor(ps[0], None), ExamLineFor(ps[1], None), Blank, AdviceHeading, Reminder])
  {
    ReplyLines(schools, studentId);
    var obs := Observations(FindStudent(schools, studentId).value.student.exams);
    LinesWithoutSchool(studentId, FitLine(obs), MaxId(obs), 0.0);
  }

  /**
   * With a school trend (at least two distinct exam ids in the school): nine
   * lines, both exam lines compare with the school, and the pace line says
   * "at or above" exactly when the student's slope is at least the school's.
   */
  lemma ReplyWithSchool(schools: seq<School>, studentId: string)
    requires PredictionOf(schools, studentId).Prediction?
    requires SchoolTrend(schools, FindStudent(schools, studentId).value.schoolId).Some?
    ensures var obs := Observations(FindStudent(schools, studentId).value.student.exams);
            var t := SchoolTrend(schools, FindStudent(schools, studentId).value.schoolId).value;
            var lines := PredictionOf(schools, studentId).lines;
            && |lines| == 9
            && lines[1].ExamVersusSchool? && lines[2].ExamVersusSchool?
            && lines[7] == PaceLine(FitLine(obs).slope, t.slope)
            && (lines[7].AtOrAbovePace? <==> FitLine(obs).slope >= t.slope)
  {
    ReplyLines(schools, studentId);
    var obs := Observations(FindStudent(schools, studentId).value.student.exams);
    var t := SchoolTrend(schools, FindStudent(schools, studentId).value.schoolId).value;
    var m := MaxId(obs);
    LinesWithSchool(studentId, FitLine(obs), t, m);
    var sc := Predictions(t, [m + 1, m + 2]);
    var ps := Predictions(FitLine(obs), [m + 1, m + 2]);
    FindOwnPrediction(t, m);
    CompLineBySign(ps[0], sc);
    CompLineBySign(ps[1], sc);
  }

  /**
   * A worked example: scores 60, 70 and 80 on exams 1, 2 and 3
   * lie on y = 50 + 10x; the fit is that line and predicts 90 and 100 for
   * exams 4 and 5.
   */
  lemma WorkedExample()
    ensures var ps := [Point(1, 60.0), Point(2, 70.0), Point(3, 80.0)];
            && FitLine(ps) == Fit(10.0, 50.0)
            && NextIdsOf(ps) == [4, 5]
            && Predictions(FitLine(ps), NextIdsOf(ps)) == [Predicted(4, 90.0), Predicted(5, 100.0)]
  {
    var ps := [Point(1, 60.0), Point(2, 70.0), Point(3, 80.0)];
    assert forall i :: 0 <= i < |ps| ==> ps[i].value == 50.0 + Product(10.0, X(ps[i]));
    assert ps[1].id != ps[0].id;
    ExactOnLinear(ps, 50.0, 10.0);
    assert MaxId(ps[..2]) == 2;
    assert ps[..2][..1] == [Point(1, 60.0)];
    RoundTenthsOfWhole(90);
    RoundTenthsOfWhole(100);
  }
}
