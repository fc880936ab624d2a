/**
 * The tool-selection metrics of the evaluation: for every model, plain
 * accuracy over the prompts, and precision, recall and F1 per class,
 * macro-averaged over the classes.
 *
 * The ground truth is the prompt → tool dictionary in key order (a sequence of
 * pairs); a model's predictions are a prompt → tool dictionary. A prompt the
 * model has no prediction for gets the label `None`, and since the classes
 * are the union of the true and the predicted labels, `None` is then a class
 * of its own.
 */
module Metrics {
  import opened Js
  import Stats

  /** A tool name, or `None` for a missing prediction. */
  type Label = Option<string>

  /** `prompt_to_tool[p] for p in prompts` */
  function TrueLabels(truth: seq<(string, string)>): seq<Label> {
    seq(|truth|, k requires 0 <= k < |truth| => Some(truth[k].1))
  }

  /** `preds.get(p, None)` */
  function Get(preds: map<string, string>, p: string): Label {
    if p in preds then Some(preds[p]) else None
  }

  /** `preds.get(p, None) for p in prompts` */
  function PredLabels(truth: seq<(string, string)>, preds: map<string, string>): seq<Label> {
    seq(|truth|, k requires 0 <= k < |truth| => Get(preds, truth[k].0))
  }

  // ---------------------------------------------------------------------------
  // Counts over `zip(true_labels, pred_labels)`

  /** Occurrences of `c` in `xs`. */
  function Count(xs: seq<Label>, c: Label): nat {
    if xs == [] then 0 else Count(xs[..|xs| - 1], c) + (if xs[|xs| - 1] == c then 1 else 0)
  }

  /**
   * `sum(t == p for t, p in zip(...))`: the positions where the prediction is
   * right. It is at most the number of prompts, and equal to it exactly when
   * every prediction is right.
   */
  function Correct(ts: seq<Label>, ps: seq<Label>): (n: nat)
    requires |ts| == |ps|
    ensures n <= |ts|
    ensures n == |ts| <==> ts == ps
  {
    if ts == [] then 0
    else
      var m := |ts| - 1;
      var r := Correct(ts[..m], ps[..m]) + (if ts[m] == ps[m] then 1 else 0);
      assert ts == ts[..m] + [ts[m]] && ps == ps[..m] + [ps[m]];
      r
  }

  /** True positives of class `c`: predicted `c` and truly `c`. */
  function Tp(ts: seq<Label>, ps: seq<Label>, c: Label): nat
    requires |ts| == |ps|
  {
    if ts == [] then 0
    else Tp(ts[..|ts| - 1], ps[..|ps| - 1], c) + (if ps[|ps| - 1] == c && ts[|ts| - 1] == c then 1 else 0)
  }

  /** False positives of class `c`: predicted `c`, truly something else. */
  function Fp(ts: seq<Label>, ps: seq<Label>, c: Label): nat
    requires |ts| == |ps|
  {
    if ts == [] then 0
    else Fp(ts[..|ts| - 1], ps[..|ps| - 1], c) + (if ps[|ps| - 1] == c && ts[|ts| - 1] != c then 1 else 0)
  }

  /** False negatives of class `c`: truly `c`, predicted something else. */
  function Fn(ts: seq<Label>, ps: seq<Label>, c: Label): nat
    requires |ts| == |ps|
  {
    if ts == [] then 0
    else Fn(ts[..|ts| - 1], ps[..|ps| - 1], c) + (if ps[|ps| - 1] != c && ts[|ts| - 1] == c then 1 else 0)
  }

  // ---------------------------------------------------------------------------
  // Ratios

  /** `accuracy = sum(t == p ...) / len(prompts)`; it lies in [0, 1] and is 1 exactly when every prediction is right. */
  function Accuracy(ts: seq<Label>, ps: seq<Label>): (a: real)
    requires |ts| == |ps| > 0
    ensures 0.0 <= a <= 1.0
    ensures a == 1.0 <==> ts == ps
  {
    var n := Correct(ts, ps);
    Stats.QuotientBounds(n as real, |ts| as real, 1.0);
    n as real / |ts| as real
  }

  /**
   * `tp / (tp + other) if (tp + other) > 0 else 0.0`, the shape of both
   * precision (other = fp) and recall (other = fn): a ratio in [0, 1] that is
   * 0 exactly when there is no hit and 1 exactly when there are hits and no misses.
   */
  function GuardedRatio(hits: nat, misses: nat): (r: real)
    ensures 0.0 <= r <= 1.0
    ensures r == 0.0 <==> hits == 0
    ensures r == 1.0 <==> hits > 0 && misses == 0
  {
    if hits + misses > 0 then
      Stats.QuotientBounds(hits as real, (hits + misses) as real, 1.0);
      var r := hits as real / (hits + misses) as real;
      assert r * (hits + misses) as real == hits as real;
      r
    else 0.0
  }

  /**
   * `2*prec*rec/(prec+rec) if (prec+rec) > 0 else 0.0`. For a precision and
   * a recall in [0, 1] it lies in [0, 1], it is 0 exactly when either is 0,
   * and it equals both when they agree.
   */
  function F1(prec: real, rec: real): (f: real)
    ensures 0.0 <= prec <= 1.0 && 0.0 <= rec <= 1.0 ==> 0.0 <= f <= 1.0
    ensures 0.0 <= prec && 0.0 <= rec ==> (f == 0.0 <==> prec == 0.0 || rec == 0.0)
    ensures 0.0 <= prec && prec == rec ==> f == prec
  {
    if prec + rec > 0.0 then
      F1Facts(prec, rec);
      2.0 * Stats.Product(prec, rec) / (prec + rec)
    else 0.0
  }

  lemma F1Facts(prec: real, rec: real)
    requires prec + rec > 0.0
    ensures var f := 2.0 * Stats.Product(prec, rec) / (prec + rec);
            && (0.0 <= prec <= 1.0 && 0.0 <= rec <= 1.0 ==> 0.0 <= f <= 1.0)
            && (0.0 <= prec && 0.0 <= rec ==> (f == 0.0 <==> prec == 0.0 || rec == 0.0))
            && (prec == rec ==> f == prec)
  {
    var pr := Stats.Product(prec, rec);
    var f := 2.0 * pr / (prec + rec);
    assert f * (prec + rec) == 2.0 * pr;
    if 0.0 <= prec <= 1.0 && 0.0 <= rec <= 1.0 {
      Stats.ProductNonnegative(prec, rec);
      Stats.ProductNonnegative(prec, 1.0 - rec);
      Stats.ProductNonnegative(rec, 1.0 - prec);
      assert Stats.Product(prec, 1.0 - rec) == prec - pr;
      assert Stats.Product(rec, 1.0 - prec) == rec - pr;
      Stats.QuotientBounds(2.0 * pr, prec + rec, 1.0);
    }
    if 0.0 < prec && 0.0 < rec {
      Stats.ProductPositive(prec, rec);
    }
    if prec == rec {
      assert 2.0 * pr == prec * (prec + rec);
    }
  }

  // ---------------------------------------------------------------------------
  // Classes and per-class scores

  /** No label occurs twice. */
  predicate Distinct(xs: seq<Label>) {
    forall i, j :: 0 <= i < j < |xs| ==> xs[i] != xs[j]
  }

  /**
   * The labels of `xs`, each once, in the order they first occur: a set
   * with exactly the elements of `xs`.
   */
  function Dedup(xs: seq<Label>): (r: seq<Label>)
    ensures Distinct(r)
    ensures forall x :: x in r <==> x in xs
  {
    if xs == [] then []
    else
      var init := xs[..|xs| - 1];
      var d := Dedup(init);
      assert xs == init + [xs[|xs| - 1]];
      if xs[|xs| - 1] in d then d else d + [xs[|xs| - 1]]
  }

  /**
   * `set(true_labels) | set(pred_labels)`. A Python set has no order of its
   * own; the model takes the labels in first-occurrence order, and the macro
   * means do not depend on that order (`MacroMeanOrderFree`).
   */
  function Classes(ts: seq<Label>, ps: seq<Label>): seq<Label> {
    Dedup(ts + ps)
  }

  datatype Measure = Precision | Recall | FScore

  /** One class's precision, recall or F1. */
  function Score(m: Measure, ts: seq<Label>, ps: seq<Label>, c: Label): real
    requires |ts| == |ps|
  {
    match m
    case Precision => GuardedRatio(Tp(ts, ps, c), Fp(ts, ps, c))
    case Recall => GuardedRatio(Tp(ts, ps, c), Fn(ts, ps, c))
    case FScore => F1(GuardedRatio(Tp(ts, ps, c), Fp(ts, ps, c)), GuardedRatio(Tp(ts, ps, c), Fn(ts, ps, c)))
  }

  /** `precision_per_class`, `recall_per_class` or `f1_per_class`: one score per class, in class order. */
  function Scores(m: Measure, ts: seq<Label>, ps: seq<Label>, cs: seq<Label>): seq<real>
    requires |ts| == |ps|
  {
    if cs == [] then [] else Scores(m, ts, ps, cs[..|cs| - 1]) + [Score(m, ts, ps, cs[|cs| - 1])]
  }

  /** One entry of `metrics` (before `round(·, 4)`). */
  datatype ModelMetrics = ModelMetrics(model: string, accuracy: real, precision: real, recall: real, f1: real)

  /** The metrics of one model. */
  function MetricsOf(model: string, truth: seq<(string, string)>, preds: map<string, string>): (r: ModelMetrics)
    requires |truth| > 0
    ensures r.model == model && 0.0 <= r.accuracy <= 1.0
    ensures r.accuracy == 1.0
        <==> forall k :: 0 <= k < |truth| ==> truth[k].0 in preds && preds[truth[k].0] == truth[k].1
  {
    var ts, ps := TrueLabels(truth), PredLabels(truth, preds);
    var cs := Classes(ts, ps);
    assert ts[0] in cs;
    ScoresLength(ts, ps, cs);
    AllPredictedIff(truth, preds);
    ModelMetrics(model, Accuracy(ts, ps),
                 Stats.Mean(Scores(Precision, ts, ps, cs)),
                 Stats.Mean(Scores(Recall, ts, ps, cs)),
                 Stats.Mean(Scores(FScore, ts, ps, cs)))
  }

  /** The two label lists agree exactly when every prompt has a prediction and it is its tool. */
  lemma AllPredictedIff(truth: seq<(string, string)>, preds: map<string, string>)
    ensures TrueLabels(truth) == PredLabels(truth, preds)
        <==> forall k :: 0 <= k < |truth| ==> truth[k].0 in preds && preds[truth[k].0] == truth[k].1
  {
    var ts, ps := TrueLabels(truth), PredLabels(truth, preds);
    if ts == ps {
      forall k | 0 <= k < |truth|
        ensures truth[k].0 in preds && preds[truth[k].0] == truth[k].1
      {
        assert ts[k] == ps[k];
      }
    }
  }

  // ---------------------------------------------------------------------------
  // The script's loops

  /** The outer loop over `model_results.items()`, appending one entry per model. */
  method ComputeMetrics(truth: seq<(string, string)>, modelResults: seq<(string, map<string, string>)>)
    returns (metrics: seq<ModelMetrics>)
    requires |truth| > 0
    ensures |metrics| == |modelResults|
    ensures forall k :: 0 <= k < |modelResults| ==> metrics[k] == MetricsOf(modelResults[k].0, truth, modelResults[k].1)
  {
    metrics := [];
    for i := 0 to |modelResults|
      invariant |metrics| == i
      invariant forall k :: 0 <= k < i ==> metrics[k] == MetricsOf(modelResults[k].0, truth, modelResults[k].1)
    {
      var model, preds := modelResults[i].0, modelResults[i].1;
      var trueLabels := TrueLabels(truth);
      var predLabels := PredLabels(truth, preds);
      var accuracy := Accuracy(trueLabels, predLabels);
      var classes := Classes(trueLabels, predLabels);
      var precisionPerClass, recallPerClass, f1PerClass := PerClass(trueLabels, predLabels, classes);
      assert trueLabels[0] in classes;
      ScoresLength(trueLabels, predLabels, classes);
      metrics := metrics + [ModelMetrics(model, accuracy, Stats.Mean(precisionPerClass),
                                         Stats.Mean(recallPerClass), Stats.Mean(f1PerClass))];
    }
  }

  /** The inner loop over the classes, appending to the three per-class lists. */
  method PerClass(ts: seq<Label>, ps: seq<Label>, classes: seq<Label>)
    returns (precisionPerClass: seq<real>, recallPerClass: seq<real>, f1PerClass: seq<real>)
    requires |ts| == |ps|
    ensures precisionPerClass == Scores(Precision, ts, ps, classes)
    ensures recallPerClass == Scores(Recall, ts, ps, classes)
    ensures f1PerClass == Scores(FScore, ts, ps, classes)
  {
    precisionPerClass, recallPerClass, f1PerClass := [], [], [];
    for i := 0 to |classes|
      invariant precisionPerClass == Scores(Precision, ts, ps, classes[..i])
      invariant recallPerClass == Scores(Recall, ts, ps, classes[..i])
      invariant f1PerClass == Scores(FScore, ts, ps, classes[..i])
    {
      var cls := classes[i];
      var tp, fp, fn := Tp(ts, ps, cls), Fp(ts, ps, cls), Fn(ts, ps, cls);
      var prec := GuardedRatio(tp, fp);
      var rec := GuardedRatio(tp, fn);
      var f1 := F1(prec, rec);
      assert classes[..i + 1][..i] == classes[..i];
      precisionPerClass := precisionPerClass + [prec];
      recallPerClass := recallPerClass + [rec];
      f1PerClass := f1PerClass + [f1];
    }
    assert classes[..|classes|] == classes;
  }

  // ---------------------------------------------------------------------------
  // Properties

  lemma {:induction false} ScoresLength(ts: seq<Label>, ps: seq<Label>, cs: seq<Label>)
    requires |ts| == |ps|
    ensures forall m :: |Scores(m, ts, ps, cs)| == |cs|
    ensures forall m, k :: 0 <= k < |cs| ==> Scores(m, ts, ps, cs)[k] == Score(m, ts, ps, cs[k])
  {
    if cs != [] {
      ScoresLength(ts, ps, cs[..|cs| - 1]);
    }
  }

  /** Every per-class score lies in [0, 1]. */
  lemma ScoreBounds(m: Measure, ts: seq<Label>, ps: seq<Label>, c: Label)
    requires |ts| == |ps|
    ensures 0.0 <= Score(m, ts, ps, c) <= 1.0
  {
  }

  /** A class's F1 is 0 exactly when it has no true positive. */
  lemma F1ZeroIffNoHit(ts: seq<Label>, ps: seq<Label>, c: Label)
    requires |ts| == |ps|
    ensures Score(FScore, ts, ps, c) == 0.0 <==> Tp(ts, ps, c) == 0
  {
    ScoreBounds(Precision, ts, ps, c);
    ScoreBounds(Recall, ts, ps, c);
  }

  /** tp + fn counts the prompts truly of class `c`; tp + fp counts the predictions of `c`. */
  lemma {:induction false} CountsAddUp(ts: seq<Label>, ps: seq<Label>, c: Label)
    requires |ts| == |ps|
    ensures Tp(ts, ps, c) + Fn(ts, ps, c) == Count(ts, c)
    ensures Tp(ts, ps, c) + Fp(ts, ps, c) == Count(ps, c)
  {
    if ts != [] {
      CountsAddUp(ts[..|ts| - 1], ps[..|ps| - 1], c);
    }
  }

  /** Σ over the classes `cs` of tp. */
  function SumTp(ts: seq<Label>, ps: seq<Label>, cs: seq<Label>): nat
    requires |ts| == |ps|
  {
    if cs == [] then 0 else SumTp(ts, ps, cs[..|cs| - 1]) + Tp(ts, ps, cs[|cs| - 1])
  }

  /** The last prompt adds one to Σ tp exactly when it is predicted right and its label is one of the classes. */
  lemma {:induction false} SumTpLast(ts: seq<Label>, ps: seq<Label>, cs: seq<Label>)
    requires |ts| == |ps| > 0 && Distinct(cs)
    ensures var m := |ts| - 1;
            SumTp(ts, ps, cs) == SumTp(ts[..m], ps[..m], cs) + (if ts[m] == ps[m] && ts[m] in cs then 1 else 0)
  {
    if cs != [] {
      var init := cs[..|cs| - 1];
      assert Distinct(init);
      SumTpLast(ts, ps, init);
      assert cs == init + [cs[|cs| - 1]];
      assert cs[|cs| - 1] !in init;
    }
  }

  /**
   * Σ over the classes of tp is the number of correct predictions, i.e. the
   * numerator of the accuracy.
   */
  lemma {:induction false} SumTpIsCorrect(ts: seq<Label>, ps: seq<Label>, cs: seq<Label>)
    requires |ts| == |ps| && Distinct(cs)
    requires forall k :: 0 <= k < |ts| ==> ts[k] in cs
    ensures SumTp(ts, ps, cs) == Correct(ts, ps)
  {
    if ts == [] {
      SumTpEmpty(ts, ps, cs);
    } else {
      var m := |ts| - 1;
      SumTpLast(ts, ps, cs);
      SumTpIsCorrect(ts[..m], ps[..m], cs);
    }
  }

  lemma {:induction false} SumTpEmpty(ts: seq<Label>, ps: seq<Label>, cs: seq<Label>)
    requires ts == [] && ps == []
    ensures SumTp(ts, ps, cs) == 0
  {
    if cs != [] {
      SumTpEmpty(ts, ps, cs[..|cs| - 1]);
    }
  }

  /** For the script's own classes: Σ tp equals the accuracy numerator. */
  lemma SumTpOverClasses(truth: seq<(string, string)>, preds: map<string, string>)
    ensures var ts, ps := TrueLabels(truth), PredLabels(truth, preds);
            SumTp(ts, ps, Classes(ts, ps)) == Correct(ts, ps)
  {
    var ts, ps := TrueLabels(truth), PredLabels(truth, preds);
    var cs := Classes(ts, ps);
    forall k | 0 <= k < |ts|
      ensures ts[k] in cs
    {
      assert (ts + ps)[k] == ts[k];
    }
    SumTpIsCorrect(ts, ps, cs);
  }

  /** The classes are exactly the labels that occur as a truth or as a prediction, each once. */
  lemma ClassesAreTheUnion(ts: seq<Label>, ps: seq<Label>)
    ensures Distinct(Classes(ts, ps))
    ensures forall c :: c in Classes(ts, ps) <==> c in ts || c in ps
  {
    forall c
      ensures c in ts + ps <==> c in ts || c in ps
    {
      if c in ts {
        var k :| 0 <= k < |ts| && ts[k] == c;
        assert (ts + ps)[k] == c;
      }
      if c in ps {
        var k :| 0 <= k < |ps| && ps[k] == c;
        assert (ts + ps)[|ts| + k] == c;
      }
    }
  }

  /**
   * A prompt the model did not answer counts as a miss, and it makes `None`
   * a class whose precision, recall and F1 are all 0, which the macro means
   * then average in.
   */
  lemma MissingPrediction(truth: seq<(string, string)>, preds: map<string, string>, k: int)
    requires 0 <= k < |truth| && truth[k].0 !in preds
    ensures var ts, ps := TrueLabels(truth), PredLabels(truth, preds);
            && Correct(ts, ps) < |truth|
            && None in Classes(ts, ps)
            && Score(Precision, ts, ps, None) == 0.0
            && Score(Recall, ts, ps, None) == 0.0
            && Score(FScore, ts, ps, None) == 0.0
  {
    var ts, ps := TrueLabels(truth), PredLabels(truth, preds);
    assert ts[k] != ps[k];
    ClassesAreTheUnion(ts, ps);
    assert Count(ts, None) == 0 by {
      NoneNeverTrue(ts);
    }
    CountsAddUp(ts, ps, None);
    ScoreBounds(Precision, ts, ps, None);
    ScoreBounds(Recall, ts, ps, None);
  }

  lemma {:induction false} NoneNeverTrue(ts: seq<Label>)
    requires forall k :: 0 <= k < |ts| ==> ts[k].Some?
    ensures Count(ts, None) == 0
  {
    if ts != [] {
      NoneNeverTrue(ts[..|ts| - 1]);
    }
  }

  lemma {:induction false} SumBounds(xs: seq<real>)
    requires forall k :: 0 <= k < |xs| ==> 0.0 <= xs[k] <= 1.0
    ensures 0.0 <= Stats.Sum(xs) <= |xs| as real
  {
    if xs != [] {
      SumBounds(xs[..|xs| - 1]);
    }
  }

  /** Every metric of every model lies in [0, 1]. */
  lemma MetricsBounds(model: string, truth: seq<(string, string)>, preds: map<string, string>)
    requires |truth| > 0
    ensures var r := MetricsOf(model, truth, preds);
            && r.model == model
            && 0.0 <= r.accuracy <= 1.0 && 0.0 <= r.precision <= 1.0
            && 0.0 <= r.recall <= 1.0 && 0.0 <= r.f1 <= 1.0
  {
    var ts, ps := TrueLabels(truth), PredLabels(truth, preds);
    var cs := Classes(ts, ps);
    assert ts[0] in cs;
    ScoresLength(ts, ps, cs);
    forall m | true
      ensures 0.0 <= Stats.Mean(Scores(m, ts, ps, cs)) <= 1.0
    {
      var xs := Scores(m, ts, ps, cs);
      forall k | 0 <= k < |xs|
        ensures 0.0 <= xs[k] <= 1.0
      {
        ScoreBounds(m, ts, ps, cs[k]);
      }
      SumBounds(xs);
      Stats.QuotientBounds(Stats.Sum(xs), |xs| as real, 1.0);
    }
  }

  /** A model that answers every prompt right scores 1 on every metric. */
  lemma PerfectModel(model: string, truth: seq<(string, string)>, preds: map<string, string>)
    requires |truth| > 0
    requires forall k :: 0 <= k < |truth| ==> truth[k].0 in preds && preds[truth[k].0] == truth[k].1
    ensures MetricsOf(model, truth, preds) == ModelMetrics(model, 1.0, 1.0, 1.0, 1.0)
  {
    var ts, ps := TrueLabels(truth), PredLabels(truth, preds);
    assert ts == ps;
    var cs := Classes(ts, ps);
    assert forall c :: c in cs ==> c in ts by {
      ClassesAreTheUnion(ts, ps);
    }
    assert ts[0] in cs;
    PerfectMean(Precision, ts, cs);
    PerfectMean(Recall, ts, cs);
    PerfectMean(FScore, ts, cs);
  }

  /** Over classes that all occur, a perfect prediction averages to 1 on every measure. */
  lemma PerfectMean(m: Measure, ts: seq<Label>, cs: seq<Label>)
    requires |cs| > 0 && forall c :: c in cs ==> c in ts
    ensures |Scores(m, ts, ts, cs)| == |cs|
    ensures Stats.Mean(Scores(m, ts, ts, cs)) == 1.0
  {
    ScoresLength(ts, ts, cs);
    var xs := Scores(m, ts, ts, cs);
    forall k | 0 <= k < |xs|
      ensures xs[k] == 1.0
    {
      assert cs[k] in cs;
      PerfectCounts(ts, cs[k]);
    }
    Stats.SumOfConstant(xs, 1.0);
    MeanOfSum(xs, |xs| as real);
  }

  /** A mean whose samples sum to their count is 1. */
  lemma MeanOfSum(xs: seq<real>, n: real)
    requires |xs| > 0 && n == |xs| as real && Stats.Sum(xs) == Stats.Product(n, 1.0)
    ensures Stats.Mean(xs) == 1.0
  {
    var mean := Stats.Mean(xs);
    assert mean * n == n;
  }

  /** With every prediction right, a label that occurs has tp > 0 and no fp or fn. */
  lemma {:induction false} PerfectCounts(ts: seq<Label>, c: Label)
    requires c in ts
    ensures Tp(ts, ts, c) > 0 && Fp(ts, ts, c) == 0 && Fn(ts, ts, c) == 0
  {
    var m := |ts| - 1;
    if ts[m] == c {
      NoMisses(ts[..m], c);
    } else {
      assert c in ts[..m] by {
        var k :| 0 <= k < |ts| && ts[k] == c;
        assert ts[..m][k] == c;
      }
      PerfectCounts(ts[..m], c);
    }
  }

  lemma {:induction false} NoMisses(ts: seq<Label>, c: Label)
    ensures Fp(ts, ts, c) == 0 && Fn(ts, ts, c) == 0
  {
    if ts != [] {
      NoMisses(ts[..|ts| - 1], c);
    }
  }

  lemma {:induction false} ScoresSum(m: Measure, ts: seq<Label>, ps: seq<Label>, cs: seq<Label>, f: Label -> real)
    requires |ts| == |ps|
    requires forall c :: f(c) == Score(m, ts, ps, c)
    ensures Stats.Sum(Scores(m, ts, ps, cs)) == Stats.SumOf(cs, f)
  {
    if cs != [] {
      ScoresSum(m, ts, ps, cs[..|cs| - 1], f);
    }
  }

  /**
   * The macro means are the same whatever order the classes are visited in,
   * so the first-occurrence order the model chooses for the Python set gives
   * the script's numbers.
   */
  lemma MacroMeanOrderFree(m: Measure, ts: seq<Label>, ps: seq<Label>, cs: seq<Label>, cs': seq<Label>)
    requires |ts| == |ps| && |cs| > 0
    requires multiset(cs) == multiset(cs')
    ensures |cs'| == |cs|
    ensures Stats.Mean(Scores(m, ts, ps, cs)) == Stats.Mean(Scores(m, ts, ps, cs'))
  {
    assert |cs'| == |multiset(cs')| == |multiset(cs)| == |cs|;
    ScoresLength(ts, ps, cs);
    ScoresLength(ts, ps, cs');
    var f := c => Score(m, ts, ps, c);
    ScoresSum(m, ts, ps, cs, f);
    ScoresSum(m, ts, ps, cs', f);
    Stats.SumOfPermutation(cs, cs', f);
  }
}
