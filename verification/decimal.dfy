/**
 * Decimal digits: Python's `int()` applied to one whitespace-free token,
 * `str()` of a natural number, and the zero-padded fields of `strftime`.
 */
module Decimal {
  import opened Wrappers

  predicate IsDigit(c: char)
  {
    '0' <= c <= '9'
  }

  predicate AllDigits(s: string)
  {
    forall i :: 0 <= i < |s| ==> IsDigit(s[i])
  }

  function DigitValue(c: char): (d: nat)
    requires IsDigit(c)
  {
    c as int - '0' as int
  }

  function DigitChar(d: nat): (c: char)
    requires d < 10
    ensures IsDigit(c) && DigitValue(c) == d
  {
    ('0' as int + d) as char
  }

  /** The value of a string of decimal digits (leading zeros allowed). */
  function Number(s: string): (n: nat)
    requires AllDigits(s)
  {
    if s == [] then 0 else Number(s[..|s| - 1]) * 10 + DigitValue(s[|s| - 1])
  }

  /** `str(n)` for a natural number: no sign, no leading zeros. */
  function NatToString(n: nat): (s: string)
    ensures |s| >= 1 && AllDigits(s)
    ensures |s| > 1 ==> s[0] != '0'
  {
    if n < 10 then [DigitChar(n)] else NatToString(n / 10) + [DigitChar(n % 10)]
  }

  /**
   * `int(token)` for a token without whitespace: an optional sign followed
   * by at least one ASCII digit; anything else is the `ValueError` path.
   */
  function ParseInt(s: string): (r: Option<int>)
  {
    if |s| >= 2 && (s[0] == '+' || s[0] == '-') && AllDigits(s[1..]) then
      Some(if s[0] == '-' then -(Number(s[1..]) as int) else Number(s[1..]))
    else if |s| >= 1 && AllDigits(s) then
      Some(Number(s))
    else
      None
  }

  /** Two-digit zero-padded field, as `%m`, `%d`, `%H`, `%M`, `%S` write it. */
  function Pad2(n: nat): (s: string)
    requires n < 100
    ensures |s| == 2 && AllDigits(s)
  {
    [DigitChar(n / 10), DigitChar(n % 10)]
  }

  /** Four-digit zero-padded field, as `%Y` writes it. */
  function Pad4(n: nat): (s: string)
    requires n < 10000
    ensures |s| == 4 && AllDigits(s)
  {
    [DigitChar(n / 1000), DigitChar(n / 100 % 10), DigitChar(n / 10 % 10), DigitChar(n % 10)]
  }

  lemma {:induction false} NumberOfNatToString(n: nat)
    ensures Number(NatToString(n)) == n
  {
    if n >= 10 {
      var s := NatToString(n);
      assert s[..|s| - 1] == NatToString(n / 10);
      NumberOfNatToString(n / 10);
    }
  }

  /** `int(str(n)) == n`. */
  lemma ParseIntOfNatToString(n: nat)
    ensures ParseInt(NatToString(n)) == Some(n)
  {
    NumberOfNatToString(n);
  }

  /** What `int()` accepts here: an optional sign, then one or more ASCII digits and nothing else. */
  predicate IntegerToken(s: string)
  {
    exists k :: 0 <= k <= 1 && k < |s| && AllDigits(s[k..]) && (k == 1 ==> s[0] == '+' || s[0] == '-')
  }

  /** `int()` succeeds on exactly the integer tokens and raises on everything else. */
  lemma ParseIntAccepts(s: string)
    ensures ParseInt(s).Some? <==> IntegerToken(s)
  {
    if ParseInt(s).Some? {
      if |s| >= 2 && (s[0] == '+' || s[0] == '-') && AllDigits(s[1..]) {
        assert AllDigits(s[1..]);
      } else {
        assert s[0..] == s && AllDigits(s[0..]);
      }
    }
  }

  /**
   * The value `int()` gives an accepted token: the number its digits spell,
   * negated exactly when the token starts with a minus sign.
   */
  lemma ParseIntValue(s: string)
    requires ParseInt(s).Some?
    ensures s[0] == '+' || s[0] == '-' || IsDigit(s[0])
    ensures var v := ParseInt(s).value;
      && (IsDigit(s[0]) ==> v == Number(s) && v >= 0)
      && (s[0] == '+' ==> v == Number(s[1..]))
      && (s[0] == '-' ==> v == -(Number(s[1..]) as int))
  {
  }

  lemma Pad2Number(n: nat)
    requires n < 100
    ensures Number(Pad2(n)) == n
  {
    var s := Pad2(n);
    assert s[..1][..0] == [];
    assert s[..1] == s[..|s| - 1];
    assert Number(s[..1]) == n / 10;
    assert Number(s) == (n / 10) * 10 + n % 10;
  }

  lemma Pad4Number(n: nat)
    requires n < 10000
    ensures Number(Pad4(n)) == n
  {
    var s := Pad4(n);
    assert s[..1][..0] == [];
    assert s[..2][..1] == s[..1];
    assert s[..3][..2] == s[..2];
    assert s[..3] == s[..|s| - 1];
    assert Number(s[..1]) == n / 1000;
    assert Number(s[..2]) == n / 100;
    assert Number(s[..3]) == n / 10;
  }
}
