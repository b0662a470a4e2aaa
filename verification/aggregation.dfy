/**
 * The feature block shared by the three anomaly-detection plots: events are
 * grouped by address and minute, each group is counted, addresses are
 * encoded as category codes, and the minutes of the rows a detector labels
 * -1 are collected. The detector itself is an input: one label per row.
 * The `/` route calls none of these plot functions.
 */
module Aggregation {
  import opened Sequences
  import opened Ordering
  import opened Timestamps
  import opened LogParser

  /** A group of the per-minute aggregation: address, floored time, hour and minute. */
  datatype GroupKey = GroupKey(ip: string, time: Timestamp, hour: int, minute: int)

  /** One row of `ip_request_counts`. */
  datatype AggRow = AggRow(ip: string, time: Timestamp, hour: int, minute: int, requestCount: nat)

  /** One detector input row: encoded address, hour, minute and request count. */
  datatype Feature = Feature(ipCode: int, hour: int, minute: int, requestCount: nat)

  /** The group of an event: `Hour` and `Minute` of its timestamp, `Time` the timestamp floored to the minute. */
  function KeyOf(e: Event): (key: GroupKey)
  {
    GroupKey(e.ip, FloorToMinute(e.timestamp), e.timestamp.hour, e.timestamp.minute)
  }

  function RowKey(row: AggRow): (key: GroupKey)
  {
    GroupKey(row.ip, row.time, row.hour, row.minute)
  }

  /** A key whose `Hour` and `Minute` are those of its `Time`, which falls on a whole minute. */
  predicate MinuteKey(k: GroupKey)
  {
    k.time.second == 0 && k.hour == k.time.hour && k.minute == k.time.minute
  }

  /** The order `groupby` sorts its keys in: by address, then time, hour and minute. */
  predicate KeyLess(a: GroupKey, b: GroupKey)
  {
    if a.ip != b.ip then StrLess(a.ip, b.ip)
    else if a.time != b.time then TimeLess(a.time, b.time)
    else if a.hour != b.hour then a.hour < b.hour
    else a.minute < b.minute
  }

  lemma KeyLessIsStrictTotalOrder()
    ensures StrictTotalOrder(KeyLess)
  {
    StrLessIsStrictTotalOrder();
    TimeLessIsStrictTotalOrder();
    forall a, b, c | KeyLess(a, b) && KeyLess(b, c) ensures KeyLess(a, c) {
      if a.ip != b.ip && b.ip != c.ip {
        StrLessTransitive(a.ip, b.ip, c.ip);
        if a.ip == c.ip {
          StrLessIrreflexive(a.ip);
        }
      }
    }
  }

  /** The group key of every event, in event order. */
  function Keys(events: seq<Event>): (keys: seq<GroupKey>)
    ensures |keys| == |events|
    ensures forall i :: 0 <= i < |events| ==> keys[i] == KeyOf(events[i])
  {
    if events == [] then [] else [KeyOf(events[0])] + Keys(events[1..])
  }

  /** One counted row per key of `groups`, in the order of `groups`. */
  function CountRows(keys: seq<GroupKey>, groups: seq<GroupKey>): (rows: seq<AggRow>)
    ensures |rows| == |groups|
    ensures forall i :: 0 <= i < |groups| ==>
      RowKey(rows[i]) == groups[i] && rows[i].requestCount == Occurrences(keys, groups[i])
  {
    if groups == [] then []
    else
      var g := groups[0];
      [AggRow(g.ip, g.time, g.hour, g.minute, Occurrences(keys, g))] + CountRows(keys, groups[1..])
  }

  /**
   * The group-and-count step of the detection plots: one row per group,
   * groups in sorted key order. Every row's `Time` is a whole minute whose
   * hour and minute are the row's `Hour` and `Minute`, and every group
   * holds at least one event.
   */
  function Aggregate(events: seq<Event>): (rows: seq<AggRow>)
    ensures forall i :: 0 <= i < |rows| ==> MinuteKey(RowKey(rows[i])) && rows[i].requestCount >= 1
  {
    var keys := Keys(events);
    var groups := SortedDistinct(keys, KeyLess);
    assert forall k :: k in groups ==> MinuteKey(k) by {
      forall k | k in groups ensures MinuteKey(k) {
        var j :| 0 <= j < |keys| && keys[j] == k;
        assert k == KeyOf(events[j]);
      }
    }
    CountRows(keys, groups)
  }

  /** The sum of the `Request Count` column. */
  function TotalRequests(rows: seq<AggRow>): (total: nat)
  {
    if rows == [] then 0 else rows[0].requestCount + TotalRequests(rows[1..])
  }

  /** The key column of the aggregated rows. */
  function RowKeys(rows: seq<AggRow>): (keys: seq<GroupKey>)
    ensures |keys| == |rows| && forall i :: 0 <= i < |rows| ==> keys[i] == RowKey(rows[i])
  {
    if rows == [] then [] else [RowKey(rows[0])] + RowKeys(rows[1..])
  }

  /**
   * The groups are exactly the keys of the events, each once and in
   * ascending key order, and each row counts the events of its group.
   */
  lemma AggregateGroups(events: seq<Event>)
    ensures var rows := Aggregate(events);
      && (forall k :: k in RowKeys(rows) <==> k in Keys(events))
      && StrictlySorted(RowKeys(rows), KeyLess)
      && NoDuplicates(RowKeys(rows))
      && (forall i :: 0 <= i < |rows| ==> rows[i].requestCount == Occurrences(Keys(events), RowKey(rows[i])))
  {
    var keys := Keys(events);
    var groups := SortedDistinct(keys, KeyLess);
    var rows := Aggregate(events);
    KeyLessIsStrictTotalOrder();
    SortedDistinctSorted(keys, KeyLess);
    assert RowKeys(rows) == groups;
  }

  lemma {:induction false} TotalOfCountRows(keys: seq<GroupKey>, groups: seq<GroupKey>)
    ensures TotalRequests(CountRows(keys, groups)) == SumOccurrences(keys, groups)
  {
    if groups != [] {
      TotalOfCountRows(keys, groups[1..]);
    }
  }

  /** No event is lost or counted twice: the request counts add up to the number of events. */
  lemma AggregateTotal(events: seq<Event>)
    ensures TotalRequests(Aggregate(events)) == |events|
  {
    var keys := Keys(events);
    var groups := SortedDistinct(keys, KeyLess);
    KeyLessIsStrictTotalOrder();
    SortedDistinctSorted(keys, KeyLess);
    TotalOfCountRows(keys, groups);
    OccurrencesPartition(keys, groups);
  }

  /** Two requests from one address within the same minute make one row with a count of two. */
  lemma SameMinuteOneRow(e1: Event, e2: Event)
    requires e1.ip == e2.ip && FloorToMinute(e1.timestamp) == FloorToMinute(e2.timestamp)
    ensures Aggregate([e1, e2]) == [AggRow(e1.ip, FloorToMinute(e1.timestamp), e1.timestamp.hour,
                                           e1.timestamp.minute, 2)]
  {
    var k := KeyOf(e1);
    assert KeyOf(e2) == k;
    var keys := Keys([e1, e2]);
    assert keys == [k, k];
    assert keys[..1] == [k] && [k][..0] == [];
    assert SortedDistinct([k], KeyLess) == [k];
    assert SortedDistinct(keys, KeyLess) == [k];
    assert Occurrences(keys, k) == 2 by {
      assert Occurrences([k], k) == 1;
    }
  }

  /** The address column of the aggregated rows. */
  function IpColumn(rows: seq<AggRow>): (ips: seq<string>)
  {
    Column(rows, (row: AggRow) => row.ip)
  }

  /** The categories of `astype('category')`: the distinct addresses, sorted. */
  function Categories(rows: seq<AggRow>): (cats: seq<string>)
    ensures forall ip :: ip in cats <==> ip in IpColumn(rows)
  {
    SortedDistinct(IpColumn(rows), StrLess)
  }

  /** `cat.codes`: each row's address as its position among the categories. */
  function EncodeIps(rows: seq<AggRow>): (codes: seq<int>)
    ensures |codes| == |rows|
    ensures forall i :: 0 <= i < |rows| ==> 0 <= codes[i] < |Categories(rows)|
    ensures forall i :: 0 <= i < |rows| ==> Categories(rows)[codes[i]] == rows[i].ip
  {
    var cats := Categories(rows);
    seq(|rows|, i requires 0 <= i < |rows| => assert IpColumn(rows)[i] in cats; IndexOf(cats, rows[i].ip))
  }

  /**
   * The codes number the distinct addresses from 0 in sorted order: two
   * rows share a code exactly when they share an address, and one code is
   * smaller than another exactly when its address sorts first.
   */
  lemma EncodeIpsSpec(rows: seq<AggRow>)
    ensures var codes := EncodeIps(rows);
      forall i, j :: 0 <= i < |rows| && 0 <= j < |rows| ==>
        (codes[i] == codes[j] <==> rows[i].ip == rows[j].ip)
        && (codes[i] < codes[j] <==> StrLess(rows[i].ip, rows[j].ip))
  {
    var cats := Categories(rows);
    var codes := EncodeIps(rows);
    StrLessIsStrictTotalOrder();
    SortedDistinctSorted(IpColumn(rows), StrLess);
    forall i, j | 0 <= i < |rows| && 0 <= j < |rows|
      ensures codes[i] < codes[j] <==> StrLess(rows[i].ip, rows[j].ip)
    {
      if StrLess(rows[i].ip, rows[j].ip) && codes[i] >= codes[j] {
        if codes[i] == codes[j] {
          StrLessIrreflexive(rows[i].ip);
        } else {
          StrLessTransitive(rows[i].ip, rows[j].ip, rows[i].ip);
          StrLessIrreflexive(rows[i].ip);
        }
      }
    }
  }

  /** The detector input: one feature row per aggregated row, at the same position. */
  function Features(rows: seq<AggRow>): (x: seq<Feature>)
    ensures |x| == |rows|
    ensures forall i :: 0 <= i < |rows| ==>
      && x[i].ipCode == EncodeIps(rows)[i] && 0 <= x[i].ipCode < |Categories(rows)|
      && x[i].hour == rows[i].hour && x[i].minute == rows[i].minute
      && x[i].requestCount == rows[i].requestCount
  {
    var codes := EncodeIps(rows);
    seq(|rows|, i requires 0 <= i < |rows| =>
      Feature(codes[i], rows[i].hour, rows[i].minute, rows[i].requestCount))
  }

  /** `anomalies['Time']`: the times of the rows labelled -1, in row order. */
  function FlaggedTimes(rows: seq<AggRow>, labels: seq<int>): (times: seq<Timestamp>)
    requires |labels| == |rows|
  {
    if rows == [] then []
    else (if labels[0] == -1 then [rows[0].time] else []) + FlaggedTimes(rows[1..], labels[1..])
  }

  lemma {:induction false} FlaggedTimesMembers(rows: seq<AggRow>, labels: seq<int>)
    requires |labels| == |rows|
    ensures forall t :: t in FlaggedTimes(rows, labels)
                        <==> exists i :: 0 <= i < |rows| && labels[i] == -1 && rows[i].time == t
  {
    if rows != [] {
      FlaggedTimesMembers(rows[1..], labels[1..]);
      forall t | exists i :: 0 <= i < |rows| && labels[i] == -1 && rows[i].time == t
        ensures t in FlaggedTimes(rows, labels)
      {
        var i :| 0 <= i < |rows| && labels[i] == -1 && rows[i].time == t;
        if i > 0 {
          assert labels[1..][i - 1] == -1 && rows[1..][i - 1].time == t;
        }
      }
      forall t | t in FlaggedTimes(rows[1..], labels[1..])
        ensures exists i :: 0 <= i < |rows| && labels[i] == -1 && rows[i].time == t
      {
        var i :| 0 <= i < |rows[1..]| && labels[1..][i] == -1 && rows[1..][i].time == t;
        assert labels[i + 1] == -1 && rows[i + 1].time == t;
      }
    }
  }

  /** `anomalies['Time'].unique()`. */
  function AnomalyTimes(rows: seq<AggRow>, labels: seq<int>): (times: seq<Timestamp>)
    requires |labels| == |rows|
    ensures NoDuplicates(times)
  {
    Distinct(FlaggedTimes(rows, labels))
  }

  /**
   * The highlighted times: each once, exactly the times of the rows
   * labelled -1 (so only times that some row has), and none at all when no
   * row is labelled -1.
   */
  lemma AnomalyTimesSpec(rows: seq<AggRow>, labels: seq<int>)
    requires |labels| == |rows|
    ensures var times := AnomalyTimes(rows, labels);
      && (forall t :: t in times <==> exists i :: 0 <= i < |rows| && labels[i] == -1 && rows[i].time == t)
      && (forall t :: t in times ==> exists i :: 0 <= i < |rows| && rows[i].time == t)
      && (times == [] <==> forall i :: 0 <= i < |rows| ==> labels[i] != -1)
  {
    FlaggedTimesMembers(rows, labels);
    var times := AnomalyTimes(rows, labels);
    if times == [] {
      forall i | 0 <= i < |rows| ensures labels[i] != -1 {
        assert labels[i] == -1 ==> rows[i].time in times;
      }
    } else {
      assert times[0] in times;
    }
  }

  /** What each `generate_*_anomaly_detection_plot` computes before drawing. */
  datatype Detection = Detection(rows: seq<AggRow>, features: seq<Feature>, anomalyTimes: seq<Timestamp>)

  /** The shared pipeline, given the detector's `fit_predict` labels for the aggregated rows. */
  function Detect(events: seq<Event>, labels: seq<int>): (d: Detection)
    requires |labels| == |Aggregate(events)|
    ensures |d.features| == |d.rows| == |labels|
  {
    var rows := Aggregate(events);
    Detection(rows, Features(rows), AnomalyTimes(rows, labels))
  }

  /** Every highlighted time is a whole minute in which some event happened. */
  lemma DetectedTimesAreEventMinutes(events: seq<Event>, labels: seq<int>)
    requires |labels| == |Aggregate(events)|
    ensures forall t :: t in Detect(events, labels).anomalyTimes ==>
      t.second == 0 && exists j :: 0 <= j < |events| && FloorToMinute(events[j].timestamp) == t
  {
    var rows := Aggregate(events);
    AnomalyTimesSpec(rows, labels);
    AggregateGroups(events);
    forall t | t in Detect(events, labels).anomalyTimes
      ensures t.second == 0 && exists j :: 0 <= j < |events| && FloorToMinute(events[j].timestamp) == t
    {
      var i :| 0 <= i < |rows| && rows[i].time == t;
      assert RowKeys(rows)[i] in Keys(events);
      var j :| 0 <= j < |events| && Keys(events)[j] == RowKey(rows[i]);
      assert FloorToMinute(events[j].timestamp) == t;
    }
  }
}
