/**
 * Decimal numerals as Go renders and parses them: the `%d` verb of `fmt` (used in the
 * status-error text) and `strconv.Atoi` (used to read the timeout variables).
 */
module Numerals {
  import opened Wrappers

  /** Go's `int` is 64 bits wide on the platforms the provider is built for. */
  const MinInt64: int := -0x8000_0000_0000_0000
  const MaxInt64: int := 0x7FFF_FFFF_FFFF_FFFF

  predicate IsDigit(c: char)
  {
    '0' <= c <= '9'
  }

  predicate AllDigits(s: string)
  {
    forall i :: 0 <= i < |s| ==> IsDigit(s[i])
  }

  function DigitChar(d: nat): (c: char)
    requires d < 10
    ensures IsDigit(c)
  {
    ('0' as int + d) as char
  }

  function DigitValue(c: char): (d: nat)
    requires IsDigit(c)
    ensures d < 10 && DigitChar(d) == c
  {
    c as int - '0' as int
  }

  /** The decimal digits of `n`, most significant first, without leading zeros. */
  function NatToString(n: nat): (s: string)
    ensures |s| > 0 && AllDigits(s)
    decreases n
  {
    if n < 10 then [DigitChar(n)] else NatToString(n / 10) + [DigitChar(n % 10)]
  }

  /** The value of a string of decimal digits. */
  function ParseDigits(s: string): nat
    requires AllDigits(s)
    decreases |s|
  {
    if s == [] then 0 else ParseDigits(s[..|s| - 1]) * 10 + DigitValue(s[|s| - 1])
  }

  /** Reading back the digits of `n` gives `n`. */
  lemma {:induction false} ParseNatToString(n: nat)
    ensures ParseDigits(NatToString(n)) == n
    decreases n
  {
    var s := NatToString(n);
    if n < 10 {
      assert s[..|s| - 1] == [];
    } else {
      ParseNatToString(n / 10);
      assert s[..|s| - 1] == NatToString(n / 10);
    }
  }

  /** Distinct numbers have distinct renderings. */
  lemma NatToStringInjective(a: nat, b: nat)
    ensures NatToString(a) == NatToString(b) ==> a == b
  {
    ParseNatToString(a);
    ParseNatToString(b);
  }

  /** Three-digit numbers render as three characters. */
  lemma ThreeDigits(n: nat)
    requires 100 <= n <= 999
    ensures |NatToString(n)| == 3
  {
    assert NatToString(n) == NatToString(n / 10) + [DigitChar(n % 10)];
    assert NatToString(n / 10) == NatToString(n / 100) + [DigitChar(n / 10 % 10)];
  }

  /** `fmt.Sprintf("%d", i)`. */
  function IntToString(i: int): (s: string)
    // a leading '-' exactly for a negative number, then the digits of its magnitude
    ensures |s| > 0 && (s[0] == '-' <==> i < 0)
    ensures i >= 0 ==> AllDigits(s) && ParseDigits(s) == i
    ensures i < 0 ==> AllDigits(s[1..]) && ParseDigits(s[1..]) == -i
  {
    if i < 0 then
      ParseNatToString(-i);
      assert ("-" + NatToString(-i))[1..] == NatToString(-i);
      "-" + NatToString(-i)
    else
      ParseNatToString(i);
      NatToString(i)
  }

  /** The digits of a numeral: what follows an optional leading sign. */
  function Magnitude(s: string): (d: string)
    ensures |s| > 0 && (s[0] == '-' || s[0] == '+') ==> d == s[1..]
    ensures |s| == 0 || (s[0] != '-' && s[0] != '+') ==> d == s
  {
    if |s| > 0 && (s[0] == '-' || s[0] == '+') then s[1..] else s
  }

  /** The value of the digits `d` under the leading character `first`: negated only after a '-'. */
  function SignedValue(first: char, d: string): int
    requires AllDigits(d)
  {
    if first == '-' then 0 - ParseDigits(d) else ParseDigits(d)
  }

  /**
   * `strconv.Atoi(s)` on a 64-bit platform: an optional sign followed by at least one
   * decimal digit and nothing else, whose value fits in an `int`; otherwise an error
   * (syntax or range), written here as None.
   */
  function Atoi(s: string): (r: Option<int>)
    ensures r.Some? ==> MinInt64 <= r.value <= MaxInt64
    ensures r.Some? <==>
              && |s| > 0
              && var d := Magnitude(s);
                 |d| > 0 && AllDigits(d) && MinInt64 <= SignedValue(s[0], d) <= MaxInt64
    ensures r.Some? ==> r.value == SignedValue(s[0], Magnitude(s))
  {
    if |s| == 0 then None
    else
      var digits := Magnitude(s);
      if |digits| == 0 || !AllDigits(digits) then None
      else
        var v := SignedValue(s[0], digits);
        if MinInt64 <= v <= MaxInt64 then Some(v) else None
  }

  /** Atoi reads back every `int` that `%d` writes. */
  lemma AtoiIntToString(i: int)
    requires MinInt64 <= i <= MaxInt64
    ensures Atoi(IntToString(i)) == Some(i)
  {
    var s := IntToString(i);
    if i < 0 {
      var t := NatToString(-i);
      ParseNatToString(-i);
      assert s == "-" + t && s[0] == '-';
      assert s[1..] == t;
    } else {
      ParseNatToString(i);
      assert s == NatToString(i) && IsDigit(s[0]);
    }
  }

  /**
   * How Atoi treats the values a timeout variable may hold: a unit suffix, a bare sign or an
   * empty value are rejected, and a signed numeral is read with its sign.
   */
  lemma AtoiExamples()
    ensures Atoi("") == None && Atoi("+") == None && Atoi("7s") == None
    ensures Atoi("-12") == Some(-12) && Atoi("+3") == Some(3)
  {
    assert !IsDigit('s') && "7s"[1] == 's';
    assert Magnitude("-12") == "12" && ParseDigits("12") == 12 by {
      assert "12"[..1] == "1";
      assert "1"[..0] == "";
    }
    assert Magnitude("+3") == "3" && ParseDigits("3") == 3 by {
      assert "3"[..0] == "";
    }
  }
}
