/**
 * Go's 64-bit `int`, and the two conversions of `strconv` the mapper relies
 * on: `Atoi` (parse a decimal integer, failing on syntax or range errors) and
 * the decimal rendering used by `strconv.Itoa` and by `fmt`'s `%v` verb.
 */
module Strconv {
  import opened Wrappers

  const MinInt64: int := -0x8000_0000_0000_0000
  const MaxInt64: int := 0x7fff_ffff_ffff_ffff

  /** Go's `int` and `int64` on a 64-bit platform. */
  type Int64 = x: int | MinInt64 <= x <= MaxInt64

  predicate IsDigit(c: char) { '0' <= c <= '9' }

  predicate AllDigits(s: string) {
    forall i :: 0 <= i < |s| ==> IsDigit(s[i])
  }

  /** The number a run of decimal digits denotes (leading zeros allowed). */
  function DigitsValue(s: string): nat
    requires AllDigits(s)
  {
    if |s| == 0 then 0 else DigitsValue(s[..|s| - 1]) * 10 + (s[|s| - 1] as int - '0' as int)
  }

  function DigitChar(d: nat): (c: char)
    requires d < 10
    ensures IsDigit(c) && c as int - '0' as int == d
  {
    ('0' as int + d) as char
  }

  /** The shortest decimal rendering of a natural number. */
  function NatDigits(n: nat): (r: string)
    ensures |r| > 0 && AllDigits(r)
  {
    if n < 10 then [DigitChar(n)] else NatDigits(n / 10) + [DigitChar(n % 10)]
  }

  /** `strconv.Itoa`, which is also what `fmt.Sprintf("%v", n)` prints for an integer. */
  function Itoa(n: int): string {
    if n < 0 then "-" + NatDigits(-n) else NatDigits(n)
  }

  /**
   * `strconv.Atoi`: an optional `+` or `-`, then one or more decimal digits,
   * nothing else; the value must fit in 64 bits. Any other input is an error
   * (`None`).
   */
  function Atoi(s: string): (r: Option<Int64>)
  {
    if |s| == 0 then None
    else
      var negative := s[0] == '-';
      var body := if s[0] == '-' || s[0] == '+' then s[1..] else s;
      if |body| == 0 || !AllDigits(body) then None
      else
        var v: int := if negative then 0 - DigitsValue(body) else DigitsValue(body);
        if MinInt64 <= v <= MaxInt64 then Some(v) else None
  }

  lemma {:induction false} NatDigitsValue(n: nat)
    ensures DigitsValue(NatDigits(n)) == n
  {
    if n >= 10 {
      var s := NatDigits(n);
      NatDigitsValue(n / 10);
      assert s[..|s| - 1] == NatDigits(n / 10);
    }
  }

  /** Parsing the rendering of any 64-bit integer gives the integer back. */
  lemma AtoiItoa(n: Int64)
    ensures Atoi(Itoa(n)) == Some(n)
  {
    var s := Itoa(n);
    if n < 0 {
      var m: nat := 0 - n as int;
      var d := NatDigits(m);
      NatDigitsValue(m);
      assert s == "-" + d && s[0] == '-';
      assert s[1..] == d;
    } else {
      var d := NatDigits(n);
      NatDigitsValue(n);
      assert s == d && IsDigit(s[0]);
    }
  }

  /** A successful parse consumed only a sign and digits, and its value is what those digits denote. */
  lemma AtoiAccepts(s: string, n: Int64)
    requires Atoi(s) == Some(n)
    ensures |s| > 0
    ensures s[0] == '-' ==> |s| > 1 && AllDigits(s[1..]) && n == 0 - DigitsValue(s[1..])
    ensures s[0] == '+' ==> |s| > 1 && AllDigits(s[1..]) && n == DigitsValue(s[1..])
    ensures s[0] != '-' && s[0] != '+' ==> AllDigits(s) && n == DigitsValue(s)
  {
  }

  /** One character that is neither a digit nor a leading sign makes `Atoi` fail. */
  lemma {:induction false} AtoiRejectsNonDigit(s: string, i: nat)
    requires i < |s| && !IsDigit(s[i]) && (i > 0 || (s[0] != '-' && s[0] != '+'))
    ensures Atoi(s) == None
  {
    if s[0] == '-' || s[0] == '+' {
      assert s[1..][i - 1] == s[i];
    }
  }
}
