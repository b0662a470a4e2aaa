/** Python's `str.split()` with no argument, and `" ".join`. */
module Tokenizer {

  /** `str.isspace()` for one character, as `str.split()` uses it. */
  predicate IsSpace(c: char)
  {
    var n := c as int;
    || 0x09 <= n <= 0x0D || 0x1C <= n <= 0x20 || n == 0x85 || n == 0xA0
    || n == 0x1680 || 0x2000 <= n <= 0x200A || n == 0x2028 || n == 0x2029
    || n == 0x202F || n == 0x205F || n == 0x3000
  }

  /** A token as `split()` returns it: not empty, no whitespace. */
  predicate IsWord(w: string)
  {
    |w| > 0 && forall i :: 0 <= i < |w| ==> !IsSpace(w[i])
  }

  /** Length of the run of non-whitespace characters that starts `s`. */
  function WordLength(s: string): (n: nat)
    ensures n <= |s|
    ensures forall i :: 0 <= i < n ==> !IsSpace(s[i])
    ensures n < |s| ==> IsSpace(s[n])
  {
    if s == [] || IsSpace(s[0]) then 0 else 1 + WordLength(s[1..])
  }

  /** The maximal runs of non-whitespace characters of `s`, in order. */
  function Tokenize(s: string): (tokens: seq<string>)
    ensures forall k :: 0 <= k < |tokens| ==> IsWord(tokens[k])
    decreases |s|
  {
    if s == [] then []
    else if IsSpace(s[0]) then Tokenize(s[1..])
    else
      var n := WordLength(s);
      [s[..n]] + Tokenize(s[n..])
  }

  /** `" ".join(words)`. */
  function JoinSpace(words: seq<string>): (joined: string)
  {
    if words == [] then ""
    else if |words| == 1 then words[0]
    else words[0] + " " + JoinSpace(words[1..])
  }

  lemma {:induction false} WordLengthOfWordThen(w: string, rest: string)
    requires IsWord(w)
    requires rest == [] || IsSpace(rest[0])
    ensures WordLength(w + rest) == |w|
    decreases |w|
  {
    if |w| > 1 {
      assert (w + rest)[1..] == w[1..] + rest;
      WordLengthOfWordThen(w[1..], rest);
    }
  }

  /** A word followed by a space and anything else splits off as the first token. */
  lemma TokenizeWordThen(w: string, rest: string)
    requires IsWord(w)
    ensures Tokenize(w + " " + rest) == [w] + Tokenize(rest)
  {
    var s := w + " " + rest;
    assert s == w + (" " + rest);
    WordLengthOfWordThen(w, " " + rest);
    assert s[..|w|] == w;
    assert s[|w|..] == " " + rest;
    assert (" " + rest)[1..] == rest;
  }

  lemma TokenizeWord(w: string)
    requires IsWord(w)
    ensures Tokenize(w) == [w]
  {
    WordLengthOfWordThen(w, []);
    assert w + [] == w;
    assert w[..|w|] == w;
  }

  /** A string of whitespace only, possibly empty. */
  predicate AllSpace(s: string)
  {
    forall i :: 0 <= i < |s| ==> IsSpace(s[i])
  }

  /** Whitespace before the first word yields no token. */
  lemma {:induction false} TokenizeLeadingSpace(ws: string, s: string)
    requires AllSpace(ws)
    ensures Tokenize(ws + s) == Tokenize(s)
    decreases |ws|
  {
    if ws == [] {
      assert ws + s == s;
    } else {
      assert (ws + s)[1..] == ws[1..] + s;
      TokenizeLeadingSpace(ws[1..], s);
    }
  }

  lemma {:induction false} WordLengthThenSpace(s: string, c: char)
    requires IsSpace(c)
    ensures WordLength(s + [c]) == WordLength(s)
    decreases |s|
  {
    if s != [] && !IsSpace(s[0]) {
      assert (s + [c])[1..] == s[1..] + [c];
      WordLengthThenSpace(s[1..], c);
    }
  }

  /** A whitespace character after the last word (a line terminator, say) yields no token. */
  lemma {:induction false} TokenizeTrailingSpace(s: string, c: char)
    requires IsSpace(c)
    ensures Tokenize(s + [c]) == Tokenize(s)
    decreases |s|
  {
    if s == [] {
      assert s + [c] == [c];
    } else if IsSpace(s[0]) {
      assert (s + [c])[1..] == s[1..] + [c];
      TokenizeTrailingSpace(s[1..], c);
    } else {
      var n := WordLength(s);
      WordLengthThenSpace(s, c);
      assert (s + [c])[..n] == s[..n];
      assert (s + [c])[n..] == s[n..] + [c];
      TokenizeTrailingSpace(s[n..], c);
    }
  }

  /** Any whitespace after the last word yields no token. */
  lemma {:induction false} TokenizeTrailingSpaces(s: string, ws: string)
    requires AllSpace(ws)
    ensures Tokenize(s + ws) == Tokenize(s)
    decreases |ws|
  {
    if ws == [] {
      assert s + ws == s;
    } else {
      var front := ws[..|ws| - 1];
      assert s + ws == (s + front) + [ws[|ws| - 1]];
      TokenizeTrailingSpace(s + front, ws[|ws| - 1]);
      TokenizeTrailingSpaces(s, front);
    }
  }

  /** A word followed by any non-empty run of whitespace splits off as the first token. */
  lemma TokenizeWordSpaceThen(w: string, ws: string, rest: string)
    requires IsWord(w) && |ws| > 0 && AllSpace(ws)
    ensures Tokenize(w + ws + rest) == [w] + Tokenize(rest)
  {
    var s := w + ws + rest;
    assert s == w + (ws + rest);
    WordLengthOfWordThen(w, ws + rest);
    assert s[..|w|] == w;
    assert s[|w|..] == ws + rest;
    TokenizeLeadingSpace(ws, rest);
  }

  /** Words, each followed by its own run of whitespace. */
  function Interleave(words: seq<string>, seps: seq<string>): (text: string)
    requires |seps| == |words|
  {
    if words == [] then "" else words[0] + seps[0] + Interleave(words[1..], seps[1..])
  }

  /**
   * `seps[k]` is the whitespace after `words[k]`: every separator is
   * whitespace, and all but the last are non-empty.
   */
  predicate Separated(words: seq<string>, seps: seq<string>)
  {
    && |seps| == |words|
    && (forall k :: 0 <= k < |words| ==> IsWord(words[k]) && AllSpace(seps[k]))
    && (forall k :: 0 <= k < |seps| - 1 ==> |seps[k]| > 0)
  }

  lemma {:induction false} TokenizeInterleave(words: seq<string>, seps: seq<string>)
    requires Separated(words, seps)
    ensures Tokenize(Interleave(words, seps)) == words
  {
    if |words| == 1 {
      assert Interleave(words, seps) == words[0] + seps[0] + "";
      if seps[0] == [] {
        assert words[0] + seps[0] + "" == words[0];
        TokenizeWord(words[0]);
      } else {
        TokenizeWordSpaceThen(words[0], seps[0], "");
      }
    } else if |words| > 1 {
      assert Separated(words[1..], seps[1..]);
      TokenizeWordSpaceThen(words[0], seps[0], Interleave(words[1..], seps[1..]));
      TokenizeInterleave(words[1..], seps[1..]);
    }
  }

  /**
   * `split()` returns exactly the words of any string laid out as leading
   * whitespace, then words separated by non-empty whitespace runs of any
   * kind and length, then trailing whitespace.
   */
  lemma TokenizeLayout(lead: string, words: seq<string>, seps: seq<string>)
    requires AllSpace(lead) && Separated(words, seps)
    ensures Tokenize(lead + Interleave(words, seps)) == words
  {
    TokenizeLeadingSpace(lead, Interleave(words, seps));
    TokenizeInterleave(words, seps);
  }

  lemma InterleaveStart(words: seq<string>, seps: seq<string>)
    requires Separated(words, seps) && |words| > 0
    ensures |Interleave(words, seps)| > 0 && !IsSpace(Interleave(words, seps)[0])
  {
    assert Interleave(words, seps) == words[0] + (seps[0] + Interleave(words[1..], seps[1..]));
    assert IsWord(words[0]);
  }

  /** A word in front of a laid-out string whose text starts with whitespace or is empty. */
  lemma LayoutAfterWord(w: string, rest: string, lead: string, tail: seq<string>, seps: seq<string>)
    returns (seps': seq<string>)
    requires IsWord(w) && (rest == [] || IsSpace(rest[0]))
    requires AllSpace(lead) && Separated(tail, seps) && rest == lead + Interleave(tail, seps)
    ensures Separated([w] + tail, seps') && w + rest == Interleave([w] + tail, seps')
  {
    seps' := [lead] + seps;
    assert ([w] + tail)[1..] == tail && seps'[1..] == seps;
    if tail != [] {
      InterleaveStart(tail, seps);
      assert |lead| > 0;
    } else {
      assert rest == lead;
    }
    assert Interleave([w] + tail, seps') == w + lead + Interleave(tail, seps);
  }

  /** A whitespace character in front of a laid-out string joins its leading whitespace. */
  lemma SpaceBeforeLayout(c: char, rest: string, lead: string, tokens: seq<string>, seps: seq<string>)
    returns (lead': string)
    requires IsSpace(c) && AllSpace(lead) && |seps| == |tokens| && rest == lead + Interleave(tokens, seps)
    ensures AllSpace(lead') && [c] + rest == lead' + Interleave(tokens, seps)
  {
    lead' := [c] + lead;
  }

  /**
   * Conversely, every string is laid out that way around its tokens, so the
   * tokens are all of its non-whitespace runs, in order.
   */
  lemma {:induction false} LayoutOfTokens(s: string) returns (lead: string, seps: seq<string>)
    ensures AllSpace(lead) && Separated(Tokenize(s), seps)
    ensures s == lead + Interleave(Tokenize(s), seps)
    decreases |s|
  {
    if s == [] {
      lead, seps := "", [];
    } else if IsSpace(s[0]) {
      assert Tokenize(s) == Tokenize(s[1..]);
      var lead1, seps1 := LayoutOfTokens(s[1..]);
      lead := SpaceBeforeLayout(s[0], s[1..], lead1, Tokenize(s[1..]), seps1);
      seps := seps1;
    } else {
      var n := WordLength(s);
      var w, rest := s[..n], s[n..];
      assert s == w + rest && Tokenize(s) == [w] + Tokenize(rest);
      var lead1, seps1 := LayoutOfTokens(rest);
      lead := "";
      seps := LayoutAfterWord(w, rest, lead1, Tokenize(rest), seps1);
    }
  }

  /** Splitting words joined by single spaces gives the words back. */
  lemma {:induction false} TokenizeJoinSpace(words: seq<string>)
    requires forall k :: 0 <= k < |words| ==> IsWord(words[k])
    ensures Tokenize(JoinSpace(words)) == words
  {
    if |words| == 1 {
      TokenizeWord(words[0]);
    } else if |words| > 1 {
      TokenizeWordThen(words[0], JoinSpace(words[1..]));
      TokenizeJoinSpace(words[1..]);
    }
  }

  /** Joining two non-empty runs of words puts one space between them. */
  lemma {:induction false} JoinSpaceAppend(a: seq<string>, b: seq<string>)
    requires |a| > 0 && |b| > 0
    ensures JoinSpace(a + b) == JoinSpace(a) + " " + JoinSpace(b)
  {
    if |a| == 1 {
      assert (a + b)[1..] == b;
    } else {
      assert (a + b)[1..] == a[1..] + b;
      JoinSpaceAppend(a[1..], b);
    }
  }
}
