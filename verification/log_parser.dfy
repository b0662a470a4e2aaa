/**
 * `read_log_file`: each line is split on whitespace; a line with fewer than
 * twelve tokens is skipped, every other line contributes one row whose
 * fields come from fixed token positions. `int()` on the status token runs
 * inside the loop and aborts the read; `pd.to_datetime` runs on the whole
 * timestamp column after the loop and aborts it too.
 */
module LogParser {
  import opened Wrappers
  import opened Decimal
  import opened Timestamps
  import opened Tokenizer

  /** Lines with fewer tokens than this are ignored as malformed. */
  const MinTokens := 12

  /** One row of the DataFrame that `read_log_file` returns. */
  datatype Event = Event(
    timestamp: Timestamp, ip: string, httpMethod: string, url: string, statusCode: int, userAgent: string)

  /** One kept line before the timestamp column is converted. */
  datatype RawRow = RawRow(
    timestamp: string, ip: string, httpMethod: string, url: string, statusCode: int, userAgent: string)

  /** The two exceptions that abort the whole read. */
  datatype ReadError =
    | StatusNotInteger(token: string)   // `int(parts[8])` raised
    | TimestampNotParsed(text: string)  // `pd.to_datetime` raised

  /** Python's `s[1:]`. */
  function DropFirst(s: string): (r: string)
  {
    if s == [] then [] else s[1..]
  }

  /** Python's `s[1:-1]`. */
  function StripEnds(s: string): (r: string)
  {
    if |s| < 2 then [] else s[1..|s| - 1]
  }

  /** The timestamp text of a kept line: tokens 0 and 1. */
  function TimestampText(parts: seq<string>): (text: string)
    requires |parts| >= MinTokens
  {
    parts[0] + " " + parts[1]
  }

  /** The six fields of a kept line, once its status token parsed as `status`. */
  function RowFields(parts: seq<string>, status: int): (row: RawRow)
    requires |parts| >= MinTokens
  {
    RawRow(TimestampText(parts), parts[2], DropFirst(parts[5]), parts[6], status,
           StripEnds(JoinSpace(parts[11..])))
  }

  /** What the loop over `lines` leaves in the six lists, or the error it raised. */
  function ReadRows(lines: seq<string>): (r: Result<seq<RawRow>, ReadError>)
  {
    if lines == [] then Success([])
    else
      match ReadRows(lines[..|lines| - 1])
      case Failure(e) => Failure(e)
      case Success(rows) =>
        var parts := Tokenize(lines[|lines| - 1]);
        if |parts| < MinTokens then Success(rows)
        else
          match ParseInt(parts[8])
          case None => Failure(StatusNotInteger(parts[8]))
          case Some(status) => Success(rows + [RowFields(parts, status)])
  }

  /** `pd.DataFrame` built from six equal-length column lists. */
  function DataFrame(timestamps: seq<string>, ips: seq<string>, methods: seq<string>, urls: seq<string>,
                     statusCodes: seq<int>, userAgents: seq<string>): (rows: seq<RawRow>)
    requires |ips| == |methods| == |urls| == |statusCodes| == |userAgents| == |timestamps|
  {
    seq(|timestamps|, k requires 0 <= k < |timestamps| =>
      RawRow(timestamps[k], ips[k], methods[k], urls[k], statusCodes[k], userAgents[k]))
  }

  function EventOf(row: RawRow, t: Timestamp): (event: Event)
  {
    Event(t, row.ip, row.httpMethod, row.url, row.statusCode, row.userAgent)
  }

  /** The conversion of the whole timestamp column after the loop. */
  function ToEvents(rows: seq<RawRow>): (r: Result<seq<Event>, ReadError>)
  {
    if rows == [] then Success([])
    else
      match ParseDateTime(rows[0].timestamp)
      case None => Failure(TimestampNotParsed(rows[0].timestamp))
      case Some(t) =>
        match ToEvents(rows[1..])
        case Failure(e) => Failure(e)
        case Success(events) => Success([EventOf(rows[0], t)] + events)
  }

  /** The whole of `read_log_file` on the lines of the file. */
  function ParseLog(lines: seq<string>): (r: Result<seq<Event>, ReadError>)
  {
    match ReadRows(lines)
    case Failure(e) => Failure(e)
    case Success(rows) => ToEvents(rows)
  }

  /** The token lists of the lines that are long enough to keep, in order. */
  function Kept(lines: seq<string>): (kept: seq<seq<string>>)
    ensures forall k :: 0 <= k < |kept| ==> |kept[k]| >= MinTokens
  {
    if lines == [] then []
    else
      var parts := Tokenize(lines[|lines| - 1]);
      Kept(lines[..|lines| - 1]) + (if |parts| >= MinTokens then [parts] else [])
  }

  /** How many lines are ignored as malformed. */
  function SkippedCount(lines: seq<string>): (n: nat)
  {
    if lines == [] then 0
    else SkippedCount(lines[..|lines| - 1]) + (if |Tokenize(lines[|lines| - 1])| < MinTokens then 1 else 0)
  }

  /** `read_log_file(log_file)`, with the file given as its list of lines. */
  method ReadLogFile(lines: seq<string>) returns (r: Result<seq<Event>, ReadError>)
    ensures r == ParseLog(lines)
  {
    var timestamps: seq<string> := [];
    var ipAddresses: seq<string> := [];
    var methods: seq<string> := [];
    var urls: seq<string> := [];
    var statusCodes: seq<int> := [];
    var userAgents: seq<string> := [];
    var i := 0;
    assert lines[..0] == [];
    assert DataFrame(timestamps, ipAddresses, methods, urls, statusCodes, userAgents) == [];
    while i < |lines|
      invariant 0 <= i <= |lines|
      invariant |ipAddresses| == |methods| == |urls| == |statusCodes| == |userAgents| == |timestamps|
      invariant ReadRows(lines[..i])
                == Success(DataFrame(timestamps, ipAddresses, methods, urls, statusCodes, userAgents))
    {
      var parts := Tokenize(lines[i]);
      assert lines[..i + 1][..i] == lines[..i];
      if |parts| >= MinTokens {
        var status := ParseInt(parts[8]);
        if status.None? {
          FailurePersists(lines, i + 1);
          assert lines[..|lines|] == lines;
          return Failure(StatusNotInteger(parts[8]));
        }
        ghost var before := DataFrame(timestamps, ipAddresses, methods, urls, statusCodes, userAgents);
        timestamps := timestamps + [parts[0] + " " + parts[1]];
        ipAddresses := ipAddresses + [parts[2]];
        methods := methods + [DropFirst(parts[5])];
        urls := urls + [parts[6]];
        statusCodes := statusCodes + [status.value];
        userAgents := userAgents + [StripEnds(JoinSpace(parts[11..]))];
        assert DataFrame(timestamps, ipAddresses, methods, urls, statusCodes, userAgents)
               == before + [RowFields(parts, status.value)];
      }
      i := i + 1;
    }
    assert lines[..i] == lines;
    r := ToEvents(DataFrame(timestamps, ipAddresses, methods, urls, statusCodes, userAgents));
  }

  /** Once the loop has raised, reading further lines does not change the outcome. */
  lemma {:induction false} FailurePersists(lines: seq<string>, n: nat)
    requires n <= |lines|
    requires ReadRows(lines[..n]).Failure?
    ensures ReadRows(lines[..|lines|]) == ReadRows(lines[..n])
    decreases |lines| - n
  {
    if n < |lines| {
      assert lines[..n + 1][..n] == lines[..n];
      FailurePersists(lines, n + 1);
    }
  }

  /** Every line is either kept or skipped. */
  lemma {:induction false} KeptOrSkipped(lines: seq<string>)
    ensures |Kept(lines)| + SkippedCount(lines) == |lines|
  {
    if lines != [] {
      KeptOrSkipped(lines[..|lines| - 1]);
    }
  }

  /**
   * The loop keeps one row per long-enough line, in input order, with fields
   * from fixed token positions; it fails exactly when some kept line's
   * status token is not an integer, and then names the first such token.
   */
  lemma {:induction false} ReadRowsSpec(lines: seq<string>)
    ensures var kept := Kept(lines);
      ReadRows(lines).Success? <==> forall k :: 0 <= k < |kept| ==> ParseInt(kept[k][8]).Some?
    ensures var kept := Kept(lines);
      ReadRows(lines).Success? ==>
        && |ReadRows(lines).value| == |kept|
        && forall k :: 0 <= k < |kept| ==>
             ReadRows(lines).value[k] == RowFields(kept[k], ParseInt(kept[k][8]).value)
    ensures var kept := Kept(lines);
      ReadRows(lines).Failure? ==>
        exists k :: && 0 <= k < |kept| && ParseInt(kept[k][8]).None?
                    && ReadRows(lines).error == StatusNotInteger(kept[k][8])
                    && forall j :: 0 <= j < k ==> ParseInt(kept[j][8]).Some?
  {
    if lines != [] {
      var prefix := lines[..|lines| - 1];
      ReadRowsSpec(prefix);
      var kept' := Kept(prefix);
      var parts := Tokenize(lines[|lines| - 1]);
      if ReadRows(prefix).Failure? {
        var k :| && 0 <= k < |kept'| && ParseInt(kept'[k][8]).None?
                 && ReadRows(prefix).error == StatusNotInteger(kept'[k][8])
                 && forall j :: 0 <= j < k ==> ParseInt(kept'[j][8]).Some?;
        assert Kept(lines)[k] == kept'[k];
      } else if |parts| >= MinTokens {
        assert Kept(lines) == kept' + [parts];
        if ParseInt(parts[8]).None? {
          assert Kept(lines)[|kept'|] == parts;
        }
      }
    }
  }

  /** `pd.to_datetime` succeeds exactly when every timestamp text parses, and keeps row order. */
  lemma {:induction false} ToEventsSpec(rows: seq<RawRow>)
    ensures ToEvents(rows).Success? <==> forall k :: 0 <= k < |rows| ==> ParseDateTime(rows[k].timestamp).Some?
    ensures ToEvents(rows).Success? ==>
      && |ToEvents(rows).value| == |rows|
      && forall k :: 0 <= k < |rows| ==>
           ToEvents(rows).value[k] == EventOf(rows[k], ParseDateTime(rows[k].timestamp).value)
    ensures ToEvents(rows).Failure? ==>
      exists k :: 0 <= k < |rows| && ToEvents(rows).error == TimestampNotParsed(rows[k].timestamp)
                  && ParseDateTime(rows[k].timestamp).None?
  {
    if rows != [] {
      ToEventsSpec(rows[1..]);
      if ToEvents(rows).Failure? && ParseDateTime(rows[0].timestamp).Some? {
        var k :| 0 <= k < |rows[1..]| && ToEvents(rows[1..]).error == TimestampNotParsed(rows[1..][k].timestamp)
                 && ParseDateTime(rows[1..][k].timestamp).None?;
        assert rows[k + 1] == rows[1..][k];
      }
      if ToEvents(rows).Success? {
        forall k | 0 <= k < |rows|
          ensures ToEvents(rows).value[k] == EventOf(rows[k], ParseDateTime(rows[k].timestamp).value)
        {
          if k > 0 {
            assert rows[k] == rows[1..][k - 1];
          }
        }
      }
    }
  }

  /**
   * `read_log_file` as a whole: it succeeds exactly when every kept line has
   * an integer status token and a parseable timestamp; it then returns one
   * event per kept line, in input order, with the fields taken from fixed
   * token positions, and every line it does not return was skipped as
   * malformed. A bad status token is reported even when some timestamp is
   * also bad, because `int()` raises inside the loop, before conversion.
   */
  lemma ParseLogSpec(lines: seq<string>)
    ensures var kept := Kept(lines);
      ParseLog(lines).Success? <==>
        forall k :: 0 <= k < |kept| ==>
          ParseInt(kept[k][8]).Some? && ParseDateTime(TimestampText(kept[k])).Some?
    ensures var kept := Kept(lines);
      ParseLog(lines).Success? ==>
        && |ParseLog(lines).value| == |kept|
        && |ParseLog(lines).value| + SkippedCount(lines) == |lines|
        && forall k :: 0 <= k < |kept| ==>
             ParseLog(lines).value[k] == Event(
               ParseDateTime(TimestampText(kept[k])).value, kept[k][2], DropFirst(kept[k][5]), kept[k][6],
               ParseInt(kept[k][8]).value, StripEnds(JoinSpace(kept[k][11..])))
    ensures var kept := Kept(lines);
      (exists k :: 0 <= k < |kept| && ParseInt(kept[k][8]).None?) ==>
        ParseLog(lines).Failure? && ParseLog(lines).error.StatusNotInteger?
  {
    ReadRowsSpec(lines);
    KeptOrSkipped(lines);
    var kept := Kept(lines);
    if ReadRows(lines).Success? {
      var rows := ReadRows(lines).value;
      ToEventsSpec(rows);
      assert forall k :: 0 <= k < |kept| ==> rows[k].timestamp == TimestampText(kept[k]);
    }
  }

  /**
   * A file of one line: skipped when short. A long line whose status token
   * is not an integer fails the read with that token; one whose timestamp
   * does not parse fails it with that text; otherwise it is one event with
   * its fields from fixed positions.
   */
  lemma OneLine(line: string, parts: seq<string>)
    requires Tokenize(line) == parts
    ensures |parts| < MinTokens ==> ParseLog([line]) == Success([])
    ensures |parts| >= MinTokens && ParseInt(parts[8]).None? ==>
      ParseLog([line]) == Failure(StatusNotInteger(parts[8]))
    ensures |parts| >= MinTokens && ParseInt(parts[8]).Some? && ParseDateTime(TimestampText(parts)).None? ==>
      ParseLog([line]) == Failure(TimestampNotParsed(TimestampText(parts)))
    ensures |parts| >= MinTokens && ParseInt(parts[8]).Some? && ParseDateTime(TimestampText(parts)).Some? ==>
      ParseLog([line]) == Success([Event(ParseDateTime(TimestampText(parts)).value, parts[2], DropFirst(parts[5]),
                                         parts[6], ParseInt(parts[8]).value, StripEnds(JoinSpace(parts[11..])))])
  {
    OneLineRows(line, parts);
    if |parts| >= MinTokens && ParseInt(parts[8]).Some? {
      OneRowEvents(RowFields(parts, ParseInt(parts[8]).value));
    }
  }

  lemma OneLineRows(line: string, parts: seq<string>)
    requires Tokenize(line) == parts
    ensures |parts| < MinTokens ==> ReadRows([line]) == Success([])
    ensures |parts| >= MinTokens && ParseInt(parts[8]).None? ==> ReadRows([line]) == Failure(StatusNotInteger(parts[8]))
    ensures |parts| >= MinTokens && ParseInt(parts[8]).Some? ==>
      ReadRows([line]) == Success([RowFields(parts, ParseInt(parts[8]).value)])
  {
    assert [line][..0] == [];
    var none: seq<RawRow> := [];
    if |parts| >= MinTokens && ParseInt(parts[8]).Some? {
      var row := RowFields(parts, ParseInt(parts[8]).value);
      assert none + [row] == [row];
    }
  }

  lemma OneRowEvents(row: RawRow)
    ensures ParseDateTime(row.timestamp).None? ==> ToEvents([row]) == Failure(TimestampNotParsed(row.timestamp))
    ensures ParseDateTime(row.timestamp).Some? ==>
      ToEvents([row]) == Success([EventOf(row, ParseDateTime(row.timestamp).value)])
  {
    assert [row][1..] == [];
    if ParseDateTime(row.timestamp).Some? {
      var none: seq<Event> := [];
      var event := EventOf(row, ParseDateTime(row.timestamp).value);
      assert [event] + none == [event];
    }
  }
}
