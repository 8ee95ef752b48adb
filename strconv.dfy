/**
 * strconv.Itoa and strconv.Atoi on a 64-bit platform (Go's `int` is 64 bits
 * wide there); fmt's `%d` on an int prints the same text as Itoa.
 */
module Strconv {
  import opened Wrappers

  const MinInt64: int := -0x8000_0000_0000_0000
  const MaxInt64: int := 0x7FFF_FFFF_FFFF_FFFF

  predicate IsDigit(c: char) {
    '0' <= c <= '9'
  }

  predicate AllDigits(s: string) {
    forall k :: 0 <= k < |s| ==> IsDigit(s[k])
  }

  function DigitChar(d: nat): (c: char)
    requires d < 10
    ensures IsDigit(c)
  {
    ('0' as int + d) as char
  }

  function DigitValue(c: char): nat
    requires IsDigit(c)
  {
    c as int - '0' as int
  }

  /** The decimal text of a natural number, without leading zeros. */
  function NatToString(n: nat): (r: string)
    ensures |r| >= 1 && AllDigits(r)
    decreases n
  {
    if n < 10 then [DigitChar(n)] else NatToString(n / 10) + [DigitChar(n % 10)]
  }

  /** strconv.Itoa. */
  function Itoa(n: int): string {
    if n < 0 then "-" + NatToString(-n) else NatToString(n)
  }

  /** The value of a string of decimal digits. */
  function DigitsValue(s: string): nat
    requires AllDigits(s)
  {
    if |s| == 0 then 0 else DigitsValue(s[..|s| - 1]) * 10 + DigitValue(s[|s| - 1])
  }

  /** strconv.Atoi: an optional sign, then at least one decimal digit, and a
      value that fits in 64 bits; anything else is an error (None). */
  function Atoi(s: string): Option<int> {
    var body := if |s| > 0 && (s[0] == '+' || s[0] == '-') then s[1..] else s;
    if |body| == 0 || !AllDigits(body) then None
    else
      var magnitude: int := DigitsValue(body);
      var v := if s[0] == '-' then -magnitude else magnitude;
      if MinInt64 <= v <= MaxInt64 then Some(v) else None
  }

  lemma {:induction false} DigitsOfNat(n: nat)
    ensures DigitsValue(NatToString(n)) == n
  {
    var s := NatToString(n);
    if n >= 10 {
      DigitsOfNat(n / 10);
      assert s[..|s| - 1] == NatToString(n / 10);
    }
  }

  /** Atoi parses back what Itoa prints. */
  lemma AtoiItoa(n: int)
    requires MinInt64 <= n <= MaxInt64
    ensures Atoi(Itoa(n)) == Some(n)
  {
    var s := Itoa(n);
    if n < 0 {
      var t := NatToString(-n);
      DigitsOfNat(-n);
      assert s == "-" + t;
      assert s[1..] == t;
    } else {
      DigitsOfNat(n);
      assert IsDigit(s[0]);
    }
  }

  /** Atoi accepts only texts that are digits, after an optional sign. */
  lemma AtoiRejects(s: string)
    requires s == "" || (exists k :: 0 <= k < |s| && !IsDigit(s[k]) && (k > 0 || (s[0] != '+' && s[0] != '-')))
    ensures Atoi(s) == None
  {
    if s != "" {
      var k :| 0 <= k < |s| && !IsDigit(s[k]) && (k > 0 || (s[0] != '+' && s[0] != '-'));
      if |s| > 0 && (s[0] == '+' || s[0] == '-') {
        assert !IsDigit(s[1..][k - 1]);
      }
    }
  }
}
