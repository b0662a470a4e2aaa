/**
 * `calculate_accuracy(true_anomalies, predicted_anomalies)`: the share of
 * the distinct true anomalies that were predicted (recall), computed
 * exactly as a rational number.
 */
module Metrics {

  /** `set(s)`. */
  function SetOf<T(==, !new)>(s: seq<T>): (r: set<T>)
    ensures forall x :: x in r <==> x in s
  {
    set x | x in s
  }

  /** The true anomalies split into the predicted ones and the missed ones. */
  lemma CardSplit<T(!new)>(t: set<T>, p: set<T>)
    ensures |t| == |t * p| + |t - p|
  {
    assert t == (t * p) + (t - p);
    assert (t * p) * (t - p) == {};
  }

  /**
   * True positives over true positives plus false negatives, where the true
   * positives are the true anomalies that were predicted and the false
   * negatives those that were not. An empty list of true anomalies makes
   * the division fail, so the callers must not pass one.
   */
  function Accuracy<T(==, !new)>(trueAnomalies: seq<T>, predicted: seq<T>): (accuracy: real)
    requires |trueAnomalies| > 0
  {
    var t := SetOf(trueAnomalies);
    var p := SetOf(predicted);
    var truePositives := |t * p|;
    var falseNegatives := |t - p|;
    CardSplit(t, p);
    assert trueAnomalies[0] in t;
    (truePositives as real) / ((truePositives + falseNegatives) as real)
  }

  /** The accuracy is the recall: predicted true anomalies over all distinct true anomalies. */
  lemma AccuracyIsRecall<T(!new)>(trueAnomalies: seq<T>, predicted: seq<T>)
    requires |trueAnomalies| > 0
    ensures var t := SetOf(trueAnomalies);
      |t| > 0 && Accuracy(trueAnomalies, predicted) == (|t * SetOf(predicted)| as real) / (|t| as real)
  {
    var t := SetOf(trueAnomalies);
    CardSplit(t, SetOf(predicted));
    assert trueAnomalies[0] in t;
  }

  lemma SubsetCard<T(!new)>(a: set<T>, b: set<T>)
    requires a <= b
    ensures |a| <= |b|
  {
    assert b == a + (b - a);
  }

  lemma RatioBounds(a: nat, b: nat)
    requires 0 < b && a <= b
    ensures 0.0 <= (a as real) / (b as real) <= 1.0
  {
  }

  /** A share: never below 0, never above 1. */
  lemma AccuracyBounds<T(!new)>(trueAnomalies: seq<T>, predicted: seq<T>)
    requires |trueAnomalies| > 0
    ensures 0.0 <= Accuracy(trueAnomalies, predicted) <= 1.0
  {
    var t := SetOf(trueAnomalies);
    var hits := t * SetOf(predicted);
    AccuracyIsRecall(trueAnomalies, predicted);
    SubsetCard(hits, t);
    RatioBounds(|hits|, |t|);
  }

  /** Perfect exactly when every true anomaly was predicted. */
  lemma AccuracyOneIff<T(!new)>(trueAnomalies: seq<T>, predicted: seq<T>)
    requires |trueAnomalies| > 0
    ensures Accuracy(trueAnomalies, predicted) == 1.0
            <==> forall x :: x in trueAnomalies ==> x in predicted
  {
    var t := SetOf(trueAnomalies);
    var p := SetOf(predicted);
    AccuracyIsRecall(trueAnomalies, predicted);
    CardSplit(t, p);
    if forall x :: x in trueAnomalies ==> x in predicted {
      assert t * p == t;
    } else {
      var x :| x in trueAnomalies && x !in predicted;
      assert x in t - p;
    }
  }

  /** Zero exactly when no true anomaly was predicted. */
  lemma AccuracyZeroIff<T(!new)>(trueAnomalies: seq<T>, predicted: seq<T>)
    requires |trueAnomalies| > 0
    ensures Accuracy(trueAnomalies, predicted) == 0.0
            <==> forall x :: x in trueAnomalies ==> x !in predicted
  {
    var t := SetOf(trueAnomalies);
    var p := SetOf(predicted);
    AccuracyIsRecall(trueAnomalies, predicted);
    if !(forall x :: x in trueAnomalies ==> x !in predicted) {
      var x :| x in trueAnomalies && x in predicted;
      assert x in t * p;
    } else {
      assert t * p == {};
    }
  }

  /** False alarms cost nothing: predictions that are not true anomalies leave the accuracy as it was. */
  lemma ExtraPredictionsIgnored<T(!new)>(trueAnomalies: seq<T>, predicted: seq<T>, extra: seq<T>)
    requires |trueAnomalies| > 0
    requires forall x :: x in extra ==> x !in trueAnomalies
    ensures Accuracy(trueAnomalies, predicted + extra) == Accuracy(trueAnomalies, predicted)
  {
    var t := SetOf(trueAnomalies);
    assert t * SetOf(predicted + extra) == t * SetOf(predicted);
    assert t - SetOf(predicted + extra) == t - SetOf(predicted);
  }
}
