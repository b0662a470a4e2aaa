/**
 * The line shape that `generate_log_entry` writes, and what
 * `read_log_file` recovers from it. The user agent's opening quote sits on
 * token 10, so `parts[11:]` loses the agent's first word and the first
 * character of its second: the parser does not give the user agent back.
 */
module LogFormat {
  import opened Wrappers
  import opened Decimal
  import opened Timestamps
  import opened Tokenizer
  import opened LogParser

  /**
   * The generator's line: timestamp, address, two dashes, the quoted request
   * (method, URL, protocol), status, a dash and the quoted user agent.
   */
  function LogLine(timestamp: string, ip: string, httpMethod: string, url: string, status: string,
                   agent: string): (line: string)
  {
    timestamp + " " + ip + " - - \"" + httpMethod + " " + url + " HTTP/1.1\" " + status + " - \"" + agent + "\""
  }

  /** The line `generate_log_entry` writes for a timestamp, status and user agent. */
  function GeneratedLine(t: Timestamp, ip: string, httpMethod: string, url: string, status: nat,
                         agentWords: seq<string>): (line: string)
    requires Valid(t) && InPandasRange(t)
  {
    LogLine(FormatTimestamp(t), ip, httpMethod, url, NatToString(status), JoinSpace(agentWords))
  }

  /** The generated line as it is written to the file and read back by `readlines()`: with its terminator. */
  function WrittenLine(t: Timestamp, ip: string, httpMethod: string, url: string, status: nat,
                       agentWords: seq<string>): (line: string)
    requires Valid(t) && InPandasRange(t)
  {
    GeneratedLine(t, ip, httpMethod, url, status, agentWords) + "\n"
  }

  /** Words with a closing quote glued to the last one. */
  function CloseQuote(words: seq<string>): (quoted: seq<string>)
    requires |words| >= 1
  {
    words[..|words| - 1] + [words[|words| - 1] + "\""]
  }

  /** How `split()` cuts a quoted, space-separated user agent. */
  function QuotedWords(words: seq<string>): (tokens: seq<string>)
    requires |words| >= 1
  {
    if |words| == 1 then ["\"" + words[0] + "\""]
    else ["\"" + words[0]] + CloseQuote(words[1..])
  }

  lemma DigitsAreWord(s: string)
    requires |s| > 0 && AllDigits(s)
    ensures IsWord(s)
  {
  }

  lemma TimestampTextsAreWords(t: Timestamp)
    requires Valid(t) && InPandasRange(t)
    ensures IsWord(DateText(t)) && IsWord(TimeText(t))
  {
  }

  lemma {:induction false} JoinSpaceCloseQuote(words: seq<string>)
    requires |words| >= 1
    ensures JoinSpace(CloseQuote(words)) == JoinSpace(words) + "\""
  {
    if |words| > 1 {
      assert CloseQuote(words) == [words[0]] + CloseQuote(words[1..]);
      assert (words[..1] + CloseQuote(words[1..]))[1..] == CloseQuote(words[1..]);
      JoinSpaceCloseQuote(words[1..]);
    }
  }

  lemma JoinSpaceQuotedWords(words: seq<string>)
    requires |words| >= 1
    ensures JoinSpace(QuotedWords(words)) == "\"" + JoinSpace(words) + "\""
  {
    if |words| > 1 {
      var tail := words[1..];
      var closed := CloseQuote(tail);
      JoinSpaceCloseQuote(tail);
      var quoted := ["\"" + words[0]] + closed;
      assert quoted[0] == "\"" + words[0] && quoted[1..] == closed;
      assert JoinSpace(quoted) == ("\"" + words[0]) + " " + JoinSpace(closed);
      assert JoinSpace(words) == words[0] + " " + JoinSpace(tail);
      Regroup("\"", words[0], " ", JoinSpace(tail), "\"");
    }
  }

  lemma Regroup(a: string, b: string, c: string, d: string, e: string)
    ensures (a + b) + c + (d + e) == a + (b + c + d) + e
  {
  }

  lemma QuotedWordsAreWords(words: seq<string>)
    requires |words| >= 1 && forall k :: 0 <= k < |words| ==> IsWord(words[k])
    ensures forall k :: 0 <= k < |QuotedWords(words)| ==> IsWord(QuotedWords(words)[k])
  {
  }

  /** The f-string, regrouped as words each followed by one space. */
  lemma LogLineShape(date: string, time: string, ip: string, httpMethod: string, url: string,
                     status: string, agent: string)
    ensures LogLine(date + " " + time, ip, httpMethod, url, status, agent)
            == date + " " + (time + " " + (ip + " " + ("-" + " " + ("-" + " " + (("\"" + httpMethod) + " "
               + (url + " " + ("HTTP/1.1\"" + " " + (status + " " + ("-" + " " + ("\"" + agent + "\""))))))))))
  {
  }

  /** `split()` of a log line whose fields are single words and whose agent is quoted words. */
  lemma LogLineTokens(date: string, time: string, ip: string, httpMethod: string, url: string,
                      status: string, agentWords: seq<string>)
    requires IsWord(date) && IsWord(time) && IsWord(ip) && IsWord(httpMethod) && IsWord(url) && IsWord(status)
    requires |agentWords| >= 1 && forall k :: 0 <= k < |agentWords| ==> IsWord(agentWords[k])
    ensures Tokenize(LogLine(date + " " + time, ip, httpMethod, url, status, JoinSpace(agentWords)))
            == [date, time, ip, "-", "-", "\"" + httpMethod, url, "HTTP/1.1\"", status, "-"]
               + QuotedWords(agentWords)
  {
    LiteralWords(httpMethod);
    var agent := JoinSpace(agentWords);
    var quoted := QuotedWords(agentWords);
    JoinSpaceQuotedWords(agentWords);
    QuotedWordsAreWords(agentWords);
    TokenizeJoinSpace(quoted);
    LineTokensOf(date, time, ip, httpMethod, url, status, agent, quoted);
  }

  lemma LiteralWords(httpMethod: string)
    requires IsWord(httpMethod)
    ensures IsWord("-") && IsWord("\"" + httpMethod) && IsWord("HTTP/1.1\"")
  {
  }

  lemma LineTokensOf(date: string, time: string, ip: string, httpMethod: string, url: string,
                     status: string, agent: string, quoted: seq<string>)
    requires IsWord(date) && IsWord(time) && IsWord(ip) && IsWord(url) && IsWord(status)
    requires IsWord("-") && IsWord("\"" + httpMethod) && IsWord("HTTP/1.1\"")
    requires Tokenize("\"" + agent + "\"") == quoted
    ensures Tokenize(LogLine(date + " " + time, ip, httpMethod, url, status, agent))
            == [date, time, ip, "-", "-", "\"" + httpMethod, url, "HTTP/1.1\"", status, "-"] + quoted
  {
    LogLineShape(date, time, ip, httpMethod, url, status, agent);
    TenWordsThen(date, time, ip, "-", "-", "\"" + httpMethod, url, "HTTP/1.1\"", status, "-",
                 "\"" + agent + "\"", quoted);
  }

  /** Ten words, each followed by one space, split off as the first ten tokens. */
  lemma TenWordsThen(w0: string, w1: string, w2: string, w3: string, w4: string, w5: string, w6: string,
                     w7: string, w8: string, w9: string, rest: string, tokens: seq<string>)
    requires IsWord(w0) && IsWord(w1) && IsWord(w2) && IsWord(w3) && IsWord(w4)
    requires IsWord(w5) && IsWord(w6) && IsWord(w7) && IsWord(w8) && IsWord(w9)
    requires Tokenize(rest) == tokens
    ensures Tokenize(w0 + " " + (w1 + " " + (w2 + " " + (w3 + " " + (w4 + " " + (w5 + " " + (w6 + " "
              + (w7 + " " + (w8 + " " + (w9 + " " + rest))))))))))
            == [w0, w1, w2, w3, w4, w5, w6, w7, w8, w9] + tokens
  {
    var s7 := w7 + " " + (w8 + " " + (w9 + " " + rest));
    var t7 := ThreeWordsThen(w7, w8, w9, rest, tokens);
    var s4 := w4 + " " + (w5 + " " + (w6 + " " + s7));
    var t4 := ThreeWordsThen(w4, w5, w6, s7, t7);
    var s1 := w1 + " " + (w2 + " " + (w3 + " " + s4));
    var t1 := ThreeWordsThen(w1, w2, w3, s4, t4);
    var t0 := PrependWord(w0, s1, t1);
    Regroup10(w0, w1, w2, w3, w4, w5, w6, w7, w8, w9, tokens);
  }

  lemma Regroup10<T>(w0: T, w1: T, w2: T, w3: T, w4: T, w5: T, w6: T, w7: T, w8: T, w9: T, tokens: seq<T>)
    ensures [w0] + ([w1, w2, w3] + ([w4, w5, w6] + ([w7, w8, w9] + tokens)))
            == [w0, w1, w2, w3, w4, w5, w6, w7, w8, w9] + tokens
  {
  }

  lemma ThreeWordsThen(w0: string, w1: string, w2: string, rest: string, tokens: seq<string>)
    returns (r: seq<string>)
    requires IsWord(w0) && IsWord(w1) && IsWord(w2)
    requires Tokenize(rest) == tokens
    ensures r == [w0, w1, w2] + tokens
    ensures Tokenize(w0 + " " + (w1 + " " + (w2 + " " + rest))) == r
  {
    var l2 := PrependWord(w2, rest, tokens);
    var l1 := PrependWord(w1, w2 + " " + rest, l2);
    r := PrependWord(w0, w1 + " " + (w2 + " " + rest), l1);
  }

  /** One step of splitting: a leading word comes off as the first token. */
  lemma PrependWord(w: string, rest: string, tokens: seq<string>) returns (r: seq<string>)
    requires IsWord(w) && Tokenize(rest) == tokens
    ensures r == [w] + tokens && Tokenize(w + " " + rest) == r
  {
    TokenizeWordThen(w, rest);
    r := [w] + tokens;
  }

  /** The token list `split()` makes of a generated line. */
  lemma GeneratedLineTokens(t: Timestamp, ip: string, httpMethod: string, url: string, status: nat,
                            agentWords: seq<string>)
    requires Valid(t) && InPandasRange(t)
    requires IsWord(ip) && IsWord(httpMethod) && IsWord(url)
    requires |agentWords| >= 1 && forall k :: 0 <= k < |agentWords| ==> IsWord(agentWords[k])
    ensures Tokenize(GeneratedLine(t, ip, httpMethod, url, status, agentWords))
            == [DateText(t), TimeText(t), ip, "-", "-", "\"" + httpMethod, url, "HTTP/1.1\"",
                NatToString(status), "-"] + QuotedWords(agentWords)
  {
    TimestampTextsAreWords(t);
    DigitsAreWord(NatToString(status));
    LogLineTokens(DateText(t), TimeText(t), ip, httpMethod, url, NatToString(status), agentWords);
  }

  /**
   * A generated line whose user agent has at least two words, written with
   * its terminator, is read back as one event with the same timestamp, address, method, URL and status;
   * its user agent is the agent without its first word and without the
   * first character of its second.
   */
  lemma GeneratedLineFields(t: Timestamp, ip: string, httpMethod: string, url: string, status: nat,
                            agentWords: seq<string>)
    requires Valid(t) && InPandasRange(t)
    requires IsWord(ip) && IsWord(httpMethod) && IsWord(url)
    requires |agentWords| >= 2 && forall k :: 0 <= k < |agentWords| ==> IsWord(agentWords[k])
    ensures ParseLog([WrittenLine(t, ip, httpMethod, url, status, agentWords)])
            == Success([Event(t, ip, httpMethod, url, status, DropFirst(JoinSpace(agentWords[1..])))])
  {
    var line := WrittenLine(t, ip, httpMethod, url, status, agentWords);
    GeneratedLineTokens(t, ip, httpMethod, url, status, agentWords);
    TokenizeTrailingSpace(GeneratedLine(t, ip, httpMethod, url, status, agentWords), '\n');
    var parts := [DateText(t), TimeText(t), ip, "-", "-", "\"" + httpMethod, url, "HTTP/1.1\"",
                  NatToString(status), "-"] + QuotedWords(agentWords);
    GeneratedParts(parts, DateText(t), TimeText(t), ip, httpMethod, url, NatToString(status), agentWords);
    ParseIntOfNatToString(status);
    ParseFormatRoundTrip(t);
    QuotedAgentText(agentWords[1..]);
    assert DropFirst("\"" + httpMethod) == httpMethod;
    OneLine(line, parts);
  }

  /** Where the fields sit in the token list of a generated line whose agent has two or more words. */
  lemma GeneratedParts(parts: seq<string>, date: string, time: string, ip: string, httpMethod: string,
                       url: string, status: string, words: seq<string>)
    requires |words| >= 2
    requires parts == [date, time, ip, "-", "-", "\"" + httpMethod, url, "HTTP/1.1\"", status, "-"]
                      + QuotedWords(words)
    ensures |parts| == 10 + |words| >= MinTokens
    ensures parts[0] == date && parts[1] == time && parts[2] == ip && parts[5] == "\"" + httpMethod
    ensures parts[6] == url && parts[8] == status && parts[11..] == CloseQuote(words[1..])
  {
  }

  /** What `[1:-1]` makes of the rejoined tail of a quoted agent. */
  lemma QuotedAgentText(rest: seq<string>)
    requires |rest| >= 1 && forall k :: 0 <= k < |rest| ==> IsWord(rest[k])
    ensures StripEnds(JoinSpace(CloseQuote(rest))) == DropFirst(JoinSpace(rest))
  {
    JoinSpaceCloseQuote(rest);
    var text := JoinSpace(rest);
    assert IsWord(rest[0]);
    assert |text| >= |rest[0]| >= 1;
    assert (text + "\"")[1..|text|] == text[1..];
  }

  /** With a one-word user agent the written line has eleven tokens and is skipped. */
  lemma OneWordAgentSkipped(t: Timestamp, ip: string, httpMethod: string, url: string, status: nat,
                            agentWords: seq<string>)
    requires Valid(t) && InPandasRange(t)
    requires IsWord(ip) && IsWord(httpMethod) && IsWord(url)
    requires |agentWords| == 1 && IsWord(agentWords[0])
    ensures ParseLog([WrittenLine(t, ip, httpMethod, url, status, agentWords)]) == Success([])
  {
    var line := WrittenLine(t, ip, httpMethod, url, status, agentWords);
    GeneratedLineTokens(t, ip, httpMethod, url, status, agentWords);
    TokenizeTrailingSpace(GeneratedLine(t, ip, httpMethod, url, status, agentWords), '\n');
    var ten := [DateText(t), TimeText(t), ip, "-", "-", "\"" + httpMethod, url, "HTTP/1.1\"",
                NatToString(status), "-"];
    OneLine(line, ten + QuotedWords(agentWords));
  }
}
