/** The evaluation metrics of the stock-movement classifier: overall and per-class
    accuracy, the 3×3 confusion matrix over the classes down (0), neutral (1) and
    up (2), and precision, recall and F1 derived from that matrix. */
module Evaluation {

  /** One prediction result: an entry carrying an "error" key, or a predicted class. */
  datatype Prediction = ErrorEntry(error: string) | Predicted(predictedClass: int)

  const ClassCount := 3

  /** Whether the `i`-th pair is scored at all (error entries are skipped). */
  predicate Scored(preds: seq<Prediction>, i: nat)
    requires i < |preds|
  {
    preds[i].Predicted?
  }

  predicate Hit(preds: seq<Prediction>, labels: seq<int>, i: nat)
    requires i < |preds| && i < |labels|
  {
    preds[i].Predicted? && preds[i].predictedClass == labels[i]
  }

  /** Correct predictions among the first `n` pairs. */
  function Correct(preds: seq<Prediction>, labels: seq<int>, n: nat): (r: nat)
    requires n <= |preds| && n <= |labels|
    ensures r <= n
  {
    if n == 0 then 0 else Correct(preds, labels, n - 1) + (if Hit(preds, labels, n - 1) then 1 else 0)
  }

  /** Scored pairs among the first `n` whose true label is `c`. */
  function ClassTotal(preds: seq<Prediction>, labels: seq<int>, n: nat, c: int): nat
    requires n <= |preds| && n <= |labels|
  {
    if n == 0 then 0
    else ClassTotal(preds, labels, n - 1, c) + (if Scored(preds, n - 1) && labels[n - 1] == c then 1 else 0)
  }

  /** Correct predictions among the first `n` pairs whose true label is `c`. */
  function ClassCorrect(preds: seq<Prediction>, labels: seq<int>, n: nat, c: int): nat
    requires n <= |preds| && n <= |labels|
  {
    if n == 0 then 0
    else ClassCorrect(preds, labels, n - 1, c) + (if Hit(preds, labels, n - 1) && labels[n - 1] == c then 1 else 0)
  }

  lemma {:induction false} ClassCorrectAtMostTotal(preds: seq<Prediction>, labels: seq<int>, n: nat, c: int)
    requires n <= |preds| && n <= |labels|
    ensures ClassCorrect(preds, labels, n, c) <= ClassTotal(preds, labels, n, c)
  {
    if n > 0 { ClassCorrectAtMostTotal(preds, labels, n - 1, c); }
  }

  /** A count divided by a positive total, or 0.0 when the total is zero. */
  function Ratio(count: nat, total: nat): (r: real)
    requires count <= total
    ensures 0.0 <= r <= 1.0
    ensures total == 0 ==> r == 0.0
    ensures total > 0 ==> r * total as real == count as real
    ensures r == 0.0 <==> count == 0
  {
    if total == 0 then 0.0
    else
      DivAtMostOne(count as real, total as real);
      count as real / total as real
  }

  // ---------------------------------------------------------------------------
  // calculate_accuracy

  datatype AccuracyReport =
    | Accuracy(overall: real, correct: nat, total: nat, classAccuracy: seq<real>)
    | AccuracyFailure(error: string)

  /** The report `calculate_accuracy` returns. A length mismatch is caught and
      reported (with an overall accuracy of 0.0). */
  function AccuracyOf(preds: seq<Prediction>, labels: seq<int>): (r: AccuracyReport)
    ensures r.AccuracyFailure? <==> |preds| != |labels|
  {
    if |preds| != |labels| then AccuracyFailure("Predictions and true labels must have the same length")
    else
      var n := |preds|;
      Accuracy(Ratio(Correct(preds, labels, n), n), Correct(preds, labels, n), n,
               seq(ClassCount, c requires 0 <= c < ClassCount =>
                 ClassAccuracy(preds, labels, c)))
  }

  function ClassAccuracy(preds: seq<Prediction>, labels: seq<int>, c: int): real
    requires |preds| == |labels|
  {
    var n := |preds|;
    ClassCorrectAtMostTotal(preds, labels, n, c);
    Ratio(ClassCorrect(preds, labels, n, c), ClassTotal(preds, labels, n, c))
  }

  /** The overall accuracy: error entries are skipped but stay in the denominator,
      and it lies in [0, 1]. */
  lemma AccuracyOverall(preds: seq<Prediction>, labels: seq<int>)
    requires |preds| == |labels|
    ensures var r := AccuracyOf(preds, labels);
            && r.correct == Correct(preds, labels, |preds|) <= r.total == |preds|
            && (|preds| > 0 ==> r.overall * |preds| as real == r.correct as real)
            && 0.0 <= r.overall <= 1.0
  {
  }

  /** Each class accuracy is the class's correct share of its occurrences, lies in
      [0, 1], and is 0.0 for a class that never occurs. */
  lemma AccuracyPerClass(preds: seq<Prediction>, labels: seq<int>, c: nat)
    requires |preds| == |labels| && c < 3
    ensures var r := AccuracyOf(preds, labels);
            && |r.classAccuracy| == 3
            && 0.0 <= r.classAccuracy[c] <= 1.0
            && (ClassTotal(preds, labels, |preds|, c) == 0 ==> r.classAccuracy[c] == 0.0)
            && (ClassTotal(preds, labels, |preds|, c) > 0 ==>
                  r.classAccuracy[c] * ClassTotal(preds, labels, |preds|, c) as real ==
                  ClassCorrect(preds, labels, |preds|, c) as real)
  {
    assert AccuracyOf(preds, labels).classAccuracy[c] == ClassAccuracy(preds, labels, c);
  }

  /** Error entries do not count as correct: with every prediction an error, the
      overall accuracy is 0. */
  lemma {:induction false} AllErrorsScoreZero(preds: seq<Prediction>, labels: seq<int>, n: nat)
    requires n <= |preds| && n <= |labels|
    requires forall i :: 0 <= i < n ==> preds[i].ErrorEntry?
    ensures Correct(preds, labels, n) == 0
    ensures forall c :: ClassTotal(preds, labels, n, c) == 0
  {
    if n > 0 {
      AllErrorsScoreZero(preds, labels, n - 1);
    }
  }

  /** A `defaultdict(int)` read. */
  function Get(counts: map<int, nat>, k: int): nat
  {
    if k in counts then counts[k] else 0
  }

  /** `calculate_accuracy`. */
  method CalculateAccuracy(preds: seq<Prediction>, labels: seq<int>) returns (r: AccuracyReport)
    ensures r == AccuracyOf(preds, labels)
  {
    if |preds| != |labels| {
      return AccuracyFailure("Predictions and true labels must have the same length");
    }
    var correct := 0;
    var classCorrect: map<int, nat> := map[];
    var classTotal: map<int, nat> := map[];
    var i := 0;
    while i < |preds|
      invariant i <= |preds|
      invariant correct == Correct(preds, labels, i)
      invariant forall c :: Get(classCorrect, c) == ClassCorrect(preds, labels, i, c)
      invariant forall c :: Get(classTotal, c) == ClassTotal(preds, labels, i, c)
    {
      var pred := preds[i];
      var trueLabel := labels[i];
      if pred.Predicted? {
        if pred.predictedClass == trueLabel {
          correct := correct + 1;
          classCorrect := classCorrect[trueLabel := Get(classCorrect, trueLabel) + 1];
        }
        classTotal := classTotal[trueLabel := Get(classTotal, trueLabel) + 1];
      }
      i := i + 1;
    }
    var classAccuracy: seq<real> := [];
    var c := 0;
    while c < ClassCount
      invariant c <= ClassCount
      invariant |classAccuracy| == c
      invariant forall k :: 0 <= k < c ==> classAccuracy[k] == ClassAccuracy(preds, labels, k)
    {
      ClassCorrectAtMostTotal(preds, labels, |preds|, c);
      classAccuracy := classAccuracy + [Ratio(Get(classCorrect, c), Get(classTotal, c))];
      c := c + 1;
    }
    r := Accuracy(Ratio(correct, |preds|), correct, |preds|, classAccuracy);
  }

  // ---------------------------------------------------------------------------
  // calculate_confusion_matrix

  /** Whether the `i`-th pair is scored and both its labels are classes. */
  predicate InRange(preds: seq<Prediction>, labels: seq<int>, i: nat)
    requires i < |preds| && i < |labels|
  {
    preds[i].Predicted? && 0 <= labels[i] < 3 && 0 <= preds[i].predictedClass < 3
  }

  predicate IsMatrix(m: seq<seq<nat>>)
  {
    |m| == 3 && forall t :: 0 <= t < 3 ==> |m[t]| == 3
  }

  const EmptyMatrix: seq<seq<nat>> := [[0, 0, 0], [0, 0, 0], [0, 0, 0]]

  /** Pairs among the first `n` whose true label is `t` and predicted class is `p`. */
  function Cell(preds: seq<Prediction>, labels: seq<int>, n: nat, t: int, p: int): nat
    requires n <= |preds| && n <= |labels|
  {
    if n == 0 then 0
    else
      Cell(preds, labels, n - 1, t, p) +
      (if Scored(preds, n - 1) && labels[n - 1] == t && preds[n - 1].predictedClass == p then 1 else 0)
  }

  /** Pairs among the first `n` that fall inside the matrix. */
  function InRangeCount(preds: seq<Prediction>, labels: seq<int>, n: nat): nat
    requires n <= |preds| && n <= |labels|
  {
    if n == 0 then 0 else InRangeCount(preds, labels, n - 1) + (if InRange(preds, labels, n - 1) then 1 else 0)
  }

  /** The matrix after tallying the first `n` pairs of the zip (which stops at the
      shorter list). */
  function Confusion(preds: seq<Prediction>, labels: seq<int>, n: nat): (m: seq<seq<nat>>)
    requires n <= |preds| && n <= |labels|
    ensures IsMatrix(m)
  {
    if n == 0 then EmptyMatrix
    else
      var m := Confusion(preds, labels, n - 1);
      if InRange(preds, labels, n - 1) then
        var t := labels[n - 1];
        var p := preds[n - 1].predictedClass;
        m[t := m[t][p := m[t][p] + 1]]
      else m
  }

  function RowSum(row: seq<nat>): nat
    requires |row| == 3
  {
    row[0] + row[1] + row[2]
  }

  function MatrixSum(m: seq<seq<nat>>): nat
    requires IsMatrix(m)
  {
    RowSum(m[0]) + RowSum(m[1]) + RowSum(m[2])
  }

  /** Each cell counts exactly the pairs with that true label and predicted class. */
  lemma {:induction false} ConfusionCells(preds: seq<Prediction>, labels: seq<int>, n: nat)
    requires n <= |preds| && n <= |labels|
    ensures forall t, p :: 0 <= t < 3 && 0 <= p < 3 ==> Confusion(preds, labels, n)[t][p] == Cell(preds, labels, n, t, p)
  {
    if n > 0 { ConfusionCells(preds, labels, n - 1); }
  }

  /** The entries sum to the number of scored pairs with both labels in [0, 3). */
  lemma {:induction false} ConfusionTotal(preds: seq<Prediction>, labels: seq<int>, n: nat)
    requires n <= |preds| && n <= |labels|
    ensures MatrixSum(Confusion(preds, labels, n)) == InRangeCount(preds, labels, n)
  {
    if n > 0 { ConfusionTotal(preds, labels, n - 1); }
  }

  function ZipLength(preds: seq<Prediction>, labels: seq<int>): nat
  {
    if |preds| <= |labels| then |preds| else |labels|
  }

  /** The tally loop shared by `calculate_confusion_matrix` and
      `calculate_precision_recall_f1`. */
  method TallyMatrix(preds: seq<Prediction>, labels: seq<int>) returns (m: seq<seq<nat>>)
    ensures m == Confusion(preds, labels, ZipLength(preds, labels))
  {
    m := EmptyMatrix;
    var n := ZipLength(preds, labels);
    var i := 0;
    while i < n
      invariant i <= n
      invariant m == Confusion(preds, labels, i)
    {
      var pred := preds[i];
      var trueLabel := labels[i];
      if pred.Predicted? && 0 <= trueLabel < 3 && 0 <= pred.predictedClass < 3 {
        m := m[trueLabel := m[trueLabel][pred.predictedClass := m[trueLabel][pred.predictedClass] + 1]];
      }
      i := i + 1;
    }
  }

  datatype ConfusionReport = ConfusionReport(matrix: seq<seq<nat>>, classNames: seq<string>)

  const ClassNames: seq<string> := ["down", "neutral", "up"]

  /** `calculate_confusion_matrix`. */
  method CalculateConfusionMatrix(preds: seq<Prediction>, labels: seq<int>) returns (r: ConfusionReport)
    ensures r.classNames == ClassNames && IsMatrix(r.matrix)
    ensures forall t, p :: 0 <= t < 3 && 0 <= p < 3 ==>
      r.matrix[t][p] == Cell(preds, labels, ZipLength(preds, labels), t, p)
    ensures MatrixSum(r.matrix) == InRangeCount(preds, labels, ZipLength(preds, labels))
  {
    var m := TallyMatrix(preds, labels);
    ConfusionCells(preds, labels, ZipLength(preds, labels));
    ConfusionTotal(preds, labels, ZipLength(preds, labels));
    r := ConfusionReport(m, ClassNames);
  }

  // ---------------------------------------------------------------------------
  // calculate_precision_recall_f1

  datatype ClassScore = ClassScore(precision: real, recall: real, f1: real)

  datatype ScoreReport = ScoreReport(perClass: seq<ClassScore>, macroPrecision: real, macroRecall: real, macroF1: real)

  /** Column `c` without its diagonal cell: the false positives of class `c`. */
  function FalsePositives(m: seq<seq<nat>>, c: nat): nat
    requires IsMatrix(m) && c < 3
  {
    (if c != 0 then m[0][c] else 0) + (if c != 1 then m[1][c] else 0) + (if c != 2 then m[2][c] else 0)
  }

  /** Row `c` without its diagonal cell: the false negatives of class `c`. */
  function FalseNegatives(m: seq<seq<nat>>, c: nat): nat
    requires IsMatrix(m) && c < 3
  {
    (if c != 0 then m[c][0] else 0) + (if c != 1 then m[c][1] else 0) + (if c != 2 then m[c][2] else 0)
  }

  /** The harmonic mean of precision and recall, 0.0 when both are 0. */
  function F1(precision: real, recall: real): (r: real)
    requires 0.0 <= precision <= 1.0 && 0.0 <= recall <= 1.0
    ensures 0.0 <= r <= 1.0
    ensures r == 0.0 <==> precision == 0.0 || recall == 0.0
  {
    if precision + recall > 0.0 then
      HarmonicBounds(precision, recall);
      2.0 * (precision * recall) / (precision + recall)
    else 0.0
  }

  lemma HarmonicBounds(p: real, q: real)
    requires 0.0 <= p <= 1.0 && 0.0 <= q <= 1.0 && p + q > 0.0
    ensures 0.0 <= 2.0 * (p * q) / (p + q) <= 1.0
    ensures 2.0 * (p * q) / (p + q) == 0.0 <==> p == 0.0 || q == 0.0
  {
    var pq := p * q;
    MulAtMost(p, q);
    MulAtMost(q, p);
    assert pq <= p && pq <= q && 0.0 <= pq;
    var x := 2.0 * pq;
    assert 0.0 <= x <= p + q;
    NonZeroProduct(p, q);
    DivAtMostOne(x, p + q);
  }

  lemma MulAtMost(a: real, b: real)
    requires 0.0 <= a && 0.0 <= b <= 1.0
    ensures a * b <= a && 0.0 <= a * b
  {
    assert a * (1.0 - b) >= 0.0;
  }

  lemma DivAtMostOne(x: real, y: real)
    requires 0.0 <= x <= y && y > 0.0
    ensures 0.0 <= x / y <= 1.0
    ensures x / y == 0.0 <==> x == 0.0
  {
    var q := x / y;
    assert q * y == x;
  }

  lemma NonZeroProduct(a: real, b: real)
    ensures a * b == 0.0 <==> a == 0.0 || b == 0.0
  {
    if a != 0.0 && b != 0.0 {
      assert (a * b) / b == a;
    }
  }

  /** The scores of class `c`, read off the matrix; every score lies in [0, 1]. */
  function ScoreOf(m: seq<seq<nat>>, c: nat): (s: ClassScore)
    requires IsMatrix(m) && c < 3
    ensures 0.0 <= s.precision <= 1.0 && 0.0 <= s.recall <= 1.0 && 0.0 <= s.f1 <= 1.0
  {
    var tp := m[c][c];
    var precision := Ratio(tp, tp + FalsePositives(m, c));
    var recall := Ratio(tp, tp + FalseNegatives(m, c));
    ClassScore(precision, recall, F1(precision, recall))
  }

  /** Precision and recall are the true positives over their denominators, 0.0 on a
      zero denominator. */
  lemma ScoreOfRatios(m: seq<seq<nat>>, c: nat)
    requires IsMatrix(m) && c < 3
    ensures var s := ScoreOf(m, c);
            var tp := m[c][c];
            && (tp + FalsePositives(m, c) == 0 ==> s.precision == 0.0)
            && (tp + FalsePositives(m, c) > 0 ==> s.precision * (tp + FalsePositives(m, c)) as real == tp as real)
            && (tp + FalseNegatives(m, c) == 0 ==> s.recall == 0.0)
            && (tp + FalseNegatives(m, c) > 0 ==> s.recall * (tp + FalseNegatives(m, c)) as real == tp as real)
  {
    var tp := m[c][c];
    assert ScoreOf(m, c).precision == Ratio(tp, tp + FalsePositives(m, c));
    assert ScoreOf(m, c).recall == Ratio(tp, tp + FalseNegatives(m, c));
  }

  /** F1 is 0.0 exactly when the class has no true positive. */
  lemma ScoreOfF1Zero(m: seq<seq<nat>>, c: nat)
    requires IsMatrix(m) && c < 3
    ensures ScoreOf(m, c).f1 == 0.0 <==> m[c][c] == 0
  {
    var tp := m[c][c];
    var precision := Ratio(tp, tp + FalsePositives(m, c));
    var recall := Ratio(tp, tp + FalseNegatives(m, c));
    assert ScoreOf(m, c).f1 == F1(precision, recall);
  }

  function Mean3(a: real, b: real, c: real): real
  {
    (a + b + c) / 3.0
  }

  /** One score per class, and each macro score is the mean of the three
      per-class values, so it also lies in [0, 1]. */
  function ScoresOf(m: seq<seq<nat>>): (r: ScoreReport)
    requires IsMatrix(m)
    ensures |r.perClass| == 3 && forall c :: 0 <= c < 3 ==> r.perClass[c] == ScoreOf(m, c)
    ensures r.macroPrecision * 3.0 == r.perClass[0].precision + r.perClass[1].precision + r.perClass[2].precision
    ensures r.macroRecall * 3.0 == r.perClass[0].recall + r.perClass[1].recall + r.perClass[2].recall
    ensures r.macroF1 * 3.0 == r.perClass[0].f1 + r.perClass[1].f1 + r.perClass[2].f1
    ensures 0.0 <= r.macroPrecision <= 1.0 && 0.0 <= r.macroRecall <= 1.0 && 0.0 <= r.macroF1 <= 1.0
  {
    var s0, s1, s2 := ScoreOf(m, 0), ScoreOf(m, 1), ScoreOf(m, 2);
    ScoreReport([s0, s1, s2],
                Mean3(s0.precision, s1.precision, s2.precision),
                Mean3(s0.recall, s1.recall, s2.recall),
                Mean3(s0.f1, s1.f1, s2.f1))
  }

  /** `calculate_precision_recall_f1`. */
  method CalculatePrecisionRecallF1(preds: seq<Prediction>, labels: seq<int>) returns (r: ScoreReport)
    ensures r == ScoresOf(Confusion(preds, labels, ZipLength(preds, labels)))
  {
    var m := TallyMatrix(preds, labels);
    var perClass: seq<ClassScore> := [];
    var c := 0;
    while c < 3
      invariant c <= 3
      invariant perClass == ScoresOf(m).perClass[..c]
    {
      var tp := m[c][c];
      var fp := FalsePositives(m, c);
      var fn := FalseNegatives(m, c);
      var precision := if tp + fp > 0 then tp as real / (tp + fp) as real else 0.0;
      var recall := if tp + fn > 0 then tp as real / (tp + fn) as real else 0.0;
      var f1 := F1(precision, recall);
      perClass := perClass + [ClassScore(precision, recall, f1)];
      c := c + 1;
    }
    assert perClass == ScoresOf(m).perClass;
    var macroPrecision := (perClass[0].precision + perClass[1].precision + perClass[2].precision) / 3.0;
    var macroRecall := (perClass[0].recall + perClass[1].recall + perClass[2].recall) / 3.0;
    var macroF1 := (perClass[0].f1 + perClass[1].f1 + perClass[2].f1) / 3.0;
    r := ScoreReport(perClass, macroPrecision, macroRecall, macroF1);
  }
}
