# Network log visualisation and anomaly detection — a Dafny model of the pipeline

The application reads a web-server access log and tabulates it for a
dashboard. It also defines three plot functions that group requests per
address and minute to feed anomaly detectors, and a metric that compares a
list of predicted anomalous times with the known ones.
This project models, in Dafny, the deterministic part of that pipeline in
`app.py`:

- **Reading the log** (`read_log_file`): Python `split()` on each line, as
  `readlines()` returns it, line terminator included. Whitespace of any kind
  and length only separates tokens (`Tokenizer.TokenizeLayout`,
  `Tokenizer.LayoutOfTokens`). Lines
  with fewer than twelve tokens are skipped. Fields are taken from fixed token
  positions. `int()` of the status token aborts the read inside the loop, and
  `pd.to_datetime` of the timestamp column aborts it after the loop. The model
  is `LogParser.ReadLogFile`, a loop over the lines that appends to six column
  lists. It is proved equal to the function `LogParser.ParseLog`, whose
  behaviour `LogParser.ParseLogSpec` states.
- **Frequency tables** (`count_values`): a loop over the column's `unique()`
  values that fills a map. The model is `ValueCounts.CountValues`.
- **The feature block shared by the three detection plots**:
  - grouping by address and minute-floored time, and counting each group;
  - encoding each address as its category code;
  - building the four-column feature rows;
  - collecting the distinct times of the rows a detector labels -1.

  This block is modelled once, in `Aggregation`. The detectors are foreign
  code, so their labels are an input to the model.
- **The accuracy metric** (`calculate_accuracy`): recall over de-duplicated
  sets, as an exact `real`. It lives in `Metrics`.
- **The route** (`index`): read, count, tabulate, and compute the three
  accuracies. The model is `Dashboard.Index`.

Three facts about the application are recorded in the model:

- **The detection block never runs for the page.** `index()` (app.py:205-245)
  calls none of the plot functions (app.py:59-195), so no detector output is
  computed or scored when the page is served. `Aggregation` models that block
  as the plot functions define it; `Dashboard.Index` does not use it.
- **The accuracies are constants.** The route never passes detector output to
  the accuracy calculation. The predicted lists are literals (app.py:219-221),
  so every page shows 2/3, 1 and 2/3 (`Dashboard.LiteralAccuracies`,
  `Dashboard.Index`).
- **The user agent is not read back intact.** A line written by the
  generator's template (logs/LOG_GENERATION.py:61) puts the opening quote of
  the user agent on token 10. The parser rejoins tokens from 11 on
  (app.py:32), so it loses the agent's first word and the first character of
  its second (`LogFormat.GeneratedLineFields`). A one-word agent yields only
  eleven tokens, so the line is skipped (`LogFormat.OneWordAgentSkipped`). No
  user-agent round trip holds, and none is stated.

Modules, in dependency order:

| Module | Contents |
|---|---|
| `Wrappers` | `Option` and `Result`. |
| `Sequences` | Occurrence counts, `unique()`, positions. |
| `Ordering` | Strict total orders, sorted distinct keys, Python string order. |
| `Decimal` | `int()` of a token and `str()` of a number. |
| `Timestamps` | The `%Y-%m-%d %H:%M:%S` timestamps, their parsing and `floor('T')`. |
| `Tokenizer` | `split()` and `" ".join`. |
| `LogParser` | `read_log_file`. |
| `LogFormat` | The generator's line template and what the parser makes of it. |
| `ValueCounts` | `count_values`. |
| `Aggregation` | The per-minute aggregation, encoding and anomaly-time extraction. |
| `Metrics` | `calculate_accuracy`. |
| `Dashboard` | The route. |

## Model

| member | source | states |
|---|---|---|
| Tokenizer.Tokenize | app.py:25 | every token `split()` returns is non-empty and free of whitespace |
| Tokenizer.TokenizeLeadingSpace | app.py:25 | whitespace before the first word adds no token |
| Tokenizer.TokenizeTrailingSpace | app.py:15-25 | a whitespace character after the last word, such as the line terminator `readlines()` keeps, adds no token |
| Tokenizer.TokenizeTrailingSpaces | app.py:25 | any run of whitespace after the last word adds no token |
| Tokenizer.TokenizeWordSpaceThen | app.py:25 | a word followed by any non-empty run of whitespace splits off as the first token, and the rest splits as the text alone |
| Tokenizer.TokenizeInterleave | app.py:25 | words each followed by whitespace, non-empty between words, split back into exactly those words |
| Tokenizer.TokenizeLayout | app.py:25 | a string made of leading whitespace, words separated by non-empty whitespace runs of any kind and length, and trailing whitespace splits into exactly those words, in order |
| Tokenizer.LayoutOfTokens | app.py:25 | every string is leading whitespace followed by its tokens, each followed by whitespace that is non-empty between tokens: the tokens are all its non-whitespace runs, in order |
| Tokenizer.TokenizeWordThen | app.py:25 | a word followed by a space and any text splits off as the first token, and the rest splits as the text alone |
| Tokenizer.TokenizeJoinSpace | app.py:32 | splitting words that were joined with single spaces gives back the same words |
| Tokenizer.JoinSpaceAppend | app.py:32 | joining two non-empty runs of words puts exactly one space between them |
| Decimal.NatToString | logs/LOG_GENERATION.py:61 | a status code is written as one or more ASCII digits with no leading zero |
| Decimal.ParseIntOfNatToString | app.py:31 | `int()` of a written status code gives the code back |
| Decimal.ParseIntAccepts | app.py:31 | `int()` succeeds on an optional `+` or `-` followed by one or more ASCII digits, and raises on every other token (no limit on the number of digits; see "Left out") |
| Decimal.ParseIntValue | app.py:31 | an accepted token's value is the number its digits spell, negated exactly when it starts with `-` |
| Decimal.Pad2Number | logs/LOG_GENERATION.py:54 | a two-digit zero-padded field reads back as its number |
| Decimal.Pad4Number | logs/LOG_GENERATION.py:54 | a four-digit zero-padded year reads back as its number |
| Timestamps.ParseDateTime | app.py:45 | a timestamp the conversion accepts is a real calendar date and time inside the nanosecond range of pandas |
| Timestamps.ParseFormatRoundTrip | app.py:45 | converting a timestamp the generator wrote gives back that timestamp |
| Timestamps.TimeLessIsStrictTotalOrder | app.py:97 | chronological order, used to sort the grouped times, is a strict total order |
| Timestamps.FloorIsLatestMinuteNotAfter | app.py:95 | the floor to the minute is the latest whole minute not after the timestamp, and flooring twice changes nothing |
| LogParser.Kept | app.py:26 | every line the parser keeps has at least twelve tokens |
| LogParser.ReadLogFile | app.py:13-47 | the loop's result, a failure or the table after timestamp conversion, equals `ParseLog`; its invariant keeps the six columns the same length |
| LogParser.FailurePersists | app.py:31 | once `int()` has raised, the remaining lines do not change the outcome |
| LogParser.KeptOrSkipped | app.py:24-34 | every line is either kept or skipped as malformed, never both |
| LogParser.ReadRowsSpec | app.py:24-34 | the loop succeeds exactly when every kept line's status token is an integer; it then has one row per kept line, in input order, with fields from fixed token positions; otherwise it reports the first bad status token |
| LogParser.ToEventsSpec | app.py:45 | the conversion succeeds exactly when every timestamp text parses; it keeps order and length, and a failure names an unparseable text |
| LogParser.ParseLogSpec | app.py:24-47 | `read_log_file` succeeds exactly when every kept line has an integer status and a parseable timestamp. On success there is one event per kept line, with timestamp = tokens 0 and 1, ip = token 2, method = token 5 without its first character, url = token 6, status = int(token 8), and agent = tokens 11 onward joined, without the first and last character; events plus skipped lines make up all lines. A bad status token makes the read fail with the status error even if a timestamp is also bad |
| LogParser.OneLine | app.py:24-47 | a one-line log yields nothing when the line is short; a long line fails the read with its status token when that is not an integer, and otherwise with its timestamp text when that does not parse; otherwise it yields one event with its fields from fixed token positions |
| LogFormat.JoinSpaceQuotedWords | logs/LOG_GENERATION.py:61 | the quoted user agent is the agent's words with a quote glued to the first and the last |
| LogFormat.LogLineTokens | logs/LOG_GENERATION.py:61 | a line in the generator's shape splits into ten leading tokens (the opening quote of the request on token 5) followed by the user agent's words with the quotes glued on |
| LogFormat.GeneratedLineTokens | logs/LOG_GENERATION.py:53-61 | the token list of a generated line: date, time, address, the dashes, the quoted method, URL, protocol, status digits, a dash, and the quoted agent words from token 10 on |
| LogFormat.GeneratedParts | app.py:26-32 | in a generated line whose agent has two or more words, the fields sit at tokens 0, 1, 2, 5, 6 and 8, and tokens 11 onward are the agent's words after the first, with the closing quote |
| LogFormat.QuotedAgentText | app.py:32 | rejoining those tokens and dropping the first and last character gives the rest of the agent without its first character |
| LogFormat.GeneratedLineFields | app.py:15-32 | a generated line, written with its terminator, with an agent of two or more words is read back as one event with the same timestamp, address, method, URL and status; its agent loses its first word and the first character of the second |
| LogFormat.OneWordAgentSkipped | app.py:15-26 | a generated line written with its terminator and with a one-word agent has eleven tokens and yields no event |
| ValueCounts.CountValues | app.py:50-56 | the table's keys are exactly the column's values, each maps to the number of rows holding it (at least one), and the counts add up to the number of rows |
| ValueCounts.CountTableUnique | app.py:52-55 | the frequency table of a column does not depend on the order in which its values are visited |
| ValueCounts.MapTotalRemove | app.py:50-56 | the total of a table's counts does not depend on which key is taken first |
| Sequences.Column | app.py:210-213 | a DataFrame column has one entry per row, in row order, holding that row's field |
| Sequences.Distinct | app.py:52 | `unique()` lists every value of the column exactly once |
| Sequences.DistinctFirstAppearance | app.py:52 | `unique()` lists the values in the order of their first appearance in the column |
| Sequences.IndexOfInPrefix | app.py:52 | extending a column does not move the first appearance of a value it already held |
| Sequences.OccurrencesPartition | app.py:54 | counting each distinct value of a column accounts for every row exactly once |
| Ordering.SortedDistinctSorted | app.py:97 | the sorted distinct keys are strictly ascending, so no key repeats |
| Ordering.StrLessIsStrictTotalOrder | app.py:100 | Python's string order, which orders the address categories, is a strict total order |
| Aggregation.KeyLessIsStrictTotalOrder | app.py:97 | the order in which the groups are sorted is a strict total order |
| Aggregation.Aggregate | app.py:92-97 | each aggregated row's time is a whole minute whose hour and minute are the row's Hour and Minute, and each row counts at least one event |
| Aggregation.AggregateGroups | app.py:97 | the rows' keys are exactly the events' keys, each once, in ascending order, and each row's count is the number of events with its key |
| Aggregation.AggregateTotal | app.py:97 | the request counts add up to the number of events |
| Aggregation.SameMinuteOneRow | app.py:95-97 | two requests from one address in the same minute give one row with a count of two |
| Aggregation.Categories | app.py:100 | the categories are exactly the addresses that occur in the rows |
| Aggregation.EncodeIps | app.py:100 | one code per row, each in [0, number of categories), naming the category that is the row's address |
| Aggregation.EncodeIpsSpec | app.py:100 | two rows share a code exactly when they share an address, and one code is smaller exactly when its address sorts first |
| Aggregation.Features | app.py:101-102 | one feature row per aggregated row at the same position, holding that row's code, hour, minute and count |
| Aggregation.FlaggedTimesMembers | app.py:109 | the times of the rows labelled -1 are exactly the times of such rows |
| Aggregation.AnomalyTimes | app.py:114 | the highlighted times contain no duplicates |
| Aggregation.AnomalyTimesSpec | app.py:106-114 | a time is highlighted exactly when some row labelled -1 has it; highlighted times are rows' times; nothing is highlighted when no row is labelled -1 |
| Aggregation.Detect | app.py:92-114 | the shared block gives one feature row and one label per aggregated row |
| Aggregation.DetectedTimesAreEventMinutes | app.py:92-114 | every highlighted time is a whole minute in which some logged event happened |
| Metrics.AccuracyIsRecall | app.py:198-202 | the accuracy is the number of distinct true anomalies that were predicted over the number of distinct true anomalies |
| Metrics.AccuracyBounds | app.py:198-202 | the accuracy lies between 0 and 1 |
| Metrics.AccuracyOneIff | app.py:198-202 | the accuracy is 1 exactly when every true anomaly was predicted |
| Metrics.AccuracyZeroIff | app.py:198-202 | the accuracy is 0 exactly when no true anomaly was predicted |
| Metrics.ExtraPredictionsIgnored | app.py:198-202 | predictions that are not true anomalies never change the accuracy |
| Dashboard.LiteralAccuracies | app.py:216-226 | the three hard-coded comparisons score 2/3, 1 and 2/3 |
| Dashboard.Index | app.py:205-245 | a failed read fails the route with the same error; otherwise the page has the number of events, a frequency table for each of the four columns that adds up to it, and the accuracies 2/3, 1 and 2/3 whatever the log holds |

## Left out

- The detectors (`IsolationForest`, `LocalOutlierFactor`, `OneClassSVM`) are foreign library code with random and floating-point internals. Their `fit_predict` labels are an input to `Aggregation.Detect`, one per aggregated row.
- All plotting and `savefig`, including the grouping by timestamp and method that only feeds a chart (app.py:59-87). This is rendering and file output.
- Flask, the route decorator and `render_template`. `Dashboard.Index` returns the values the template receives.
- Opening and reading the log file. The file is given as its list of lines, each with the terminator `readlines()` keeps.
- The "Ignoring malformed log entry" message. It is console output; the model counts skipped lines instead (`LogParser.SkippedCount`).
- Timestamps.ParseDateTime: accepts only the generator's `YYYY-MM-DD HH:MM:SS` shape. `pd.to_datetime` also accepts many other formats, which the model rejects as unparseable.
- Decimal.ParseInt: accepts an optional sign and ASCII digits only. Python `int()` also accepts underscores between digits and non-ASCII decimal digits. Python 3.11 and later (and the 3.7.14 to 3.10.7 security releases) also reject a decimal string of more than 4300 digits by default; the model accepts any number of digits, so a status token that long makes the model's read succeed where the program raises.
- Decimal.ParseIntAccepts: the set of accepted tokens is the model's, with no bound on the digit count; on the Python versions above `int()` also raises on tokens of more than 4300 digits.
- Aggregation.Aggregate: does not model the out-of-bounds error that flooring raises for a timestamp in pandas' first representable minute (1677-09-21 00:12).
- The model computes the new DataFrame columns (Hour, Minute, Second, Time, encoded address, label) as functions of the events instead of adding them to `df` in place. The Second column is never used afterwards.
- The log generator (logs/LOG_GENERATION.py) is random sampling, the clock and a file write, so it is not modelled. Only its line template (`LogFormat.GeneratedLine`) is mirrored, so that the parser's field recovery can be stated.
- Dashboard.Index: does not model the bar chart of the three accuracies.
- Metrics.Accuracy: computes the exact rational share. Python's `/` returns the nearest binary float, so the page shows 0.6666666666666666 where the model has 2/3; float rounding is not modelled.
- ValueCounts.CountValues: returns an unordered map. The Python dictionary keeps its keys in first-appearance order, and the template receives that order; the model does not (the order itself is `Sequences.DistinctFirstAppearance`).
