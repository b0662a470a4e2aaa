/**
 * The `/` route: read the log, count the rows, tabulate four columns and
 * compute three accuracies. The ground truth and the three predicted lists
 * are literals in the route, and the route never calls the plot functions
 * that run the detectors, so the accuracies are the same for every log.
 */
module Dashboard {
  import opened Wrappers
  import opened LogParser
  import opened ValueCounts
  import opened Metrics
  import opened Sequences

  const Noon := "2024-06-12 12:00:00"
  const OnePm := "2024-06-12 13:00:00"
  const TwoPm := "2024-06-12 14:00:00"

  /** `true_anomalies`. */
  const TrueAnomalies: seq<string> := [Noon, OnePm, TwoPm]
  /** `isolation_forest_predicted_anomalies`. */
  const IsolationForestPredicted: seq<string> := [Noon, TwoPm]
  /** `local_outlier_factor_predicted_anomalies`. */
  const LocalOutlierFactorPredicted: seq<string> := [Noon, OnePm, TwoPm]
  /** `one_class_svm_predicted_anomalies`. */
  const OneClassSvmPredicted: seq<string> := [Noon, OnePm]

  /** What the route hands to `render_template`. */
  datatype Page = Page(
    totalEvents: nat,
    methodCounts: map<string, nat>,
    statusCodeCounts: map<int, nat>,
    urlCounts: map<string, nat>,
    ipCounts: map<string, nat>,
    isolationForestAccuracy: real,
    localOutlierFactorAccuracy: real,
    oneClassSvmAccuracy: real)

  /** `df['Method']`. */
  function MethodColumn(events: seq<Event>): (column: seq<string>)
  {
    Column(events, (e: Event) => e.httpMethod)
  }

  /** `df['Status Code']`. */
  function StatusCodeColumn(events: seq<Event>): (column: seq<int>)
  {
    Column(events, (e: Event) => e.statusCode)
  }

  /** `df['URL']`. */
  function UrlColumn(events: seq<Event>): (column: seq<string>)
  {
    Column(events, (e: Event) => e.url)
  }

  /** `df['IP Address']`. */
  function IpAddressColumn(events: seq<Event>): (column: seq<string>)
  {
    Column(events, (e: Event) => e.ip)
  }

  /**
   * The three hard-coded comparisons: the isolation forest list misses
   * 13:00, the local outlier factor list has all three times, and the
   * one-class SVM list misses 14:00.
   */
  lemma LiteralAccuracies()
    ensures Accuracy(TrueAnomalies, IsolationForestPredicted) == 2.0 / 3.0
    ensures Accuracy(TrueAnomalies, LocalOutlierFactorPredicted) == 1.0
    ensures Accuracy(TrueAnomalies, OneClassSvmPredicted) == 2.0 / 3.0
  {
    assert Noon[12] == '2' && OnePm[12] == '3' && TwoPm[12] == '4';
    var t := SetOf(TrueAnomalies);
    assert t == {Noon, OnePm, TwoPm};
    assert |t| == 3;
    AccuracyIsRecall(TrueAnomalies, IsolationForestPredicted);
    assert t * SetOf(IsolationForestPredicted) == {Noon, TwoPm};
    AccuracyOneIff(TrueAnomalies, LocalOutlierFactorPredicted);
    AccuracyIsRecall(TrueAnomalies, OneClassSvmPredicted);
    assert t * SetOf(OneClassSvmPredicted) == {Noon, OnePm};
  }

  /**
   * `index()` on the lines of the log file. A read that raises fails the
   * route with the same error. Otherwise the page reports one event per
   * row, a frequency table for each of the four columns whose counts add
   * up to that number, and the three literal accuracies 2/3, 1 and 2/3.
   */
  method Index(lines: seq<string>) returns (r: Result<Page, ReadError>)
    ensures ParseLog(lines).Failure? ==> r == Failure(ParseLog(lines).error)
    ensures ParseLog(lines).Success? ==>
      && r.Success?
      && var events := ParseLog(lines).value;
      && r.value.totalEvents == |events|
      && IsCountTable(r.value.methodCounts, MethodColumn(events))
      && IsCountTable(r.value.statusCodeCounts, StatusCodeColumn(events))
      && IsCountTable(r.value.urlCounts, UrlColumn(events))
      && IsCountTable(r.value.ipCounts, IpAddressColumn(events))
      && r.value.isolationForestAccuracy == 2.0 / 3.0
      && r.value.localOutlierFactorAccuracy == 1.0
      && r.value.oneClassSvmAccuracy == 2.0 / 3.0
  {
    var df := ReadLogFile(lines);
    if df.Failure? {
      return Failure(df.error);
    }
    var events := df.value;
    var totalEvents := |events|;
    var methodCounts := CountValues(MethodColumn(events));
    var statusCodeCounts := CountValues(StatusCodeColumn(events));
    var urlCounts := CountValues(UrlColumn(events));
    var ipCounts := CountValues(IpAddressColumn(events));
    LiteralAccuracies();
    var isolationForestAccuracy := Accuracy(TrueAnomalies, IsolationForestPredicted);
    var localOutlierFactorAccuracy := Accuracy(TrueAnomalies, LocalOutlierFactorPredicted);
    var oneClassSvmAccuracy := Accuracy(TrueAnomalies, OneClassSvmPredicted);
    r := Success(Page(totalEvents, methodCounts, statusCodeCounts, urlCounts, ipCounts,
                      isolationForestAccuracy, localOutlierFactorAccuracy, oneClassSvmAccuracy));
  }
}
