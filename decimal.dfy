/** Unsigned decimal parsing as Rust's `str::parse::<usize>` does it on a 64-bit target; the
    client applies it to the whole unread-count body (src/lib.rs:329-331). */
module Decimal {
  import opened Wrappers

  /** The largest `usize` on a 64-bit target. */
  const USIZE_MAX: nat := 0xFFFF_FFFF_FFFF_FFFF

  type Usize = n: nat | n <= USIZE_MAX

  predicate IsDigit(c: char) {
    '0' <= c <= '9'
  }

  predicate AllDigits(s: string) {
    forall i :: 0 <= i < |s| ==> IsDigit(s[i])
  }

  function DigitValue(c: char): (d: nat)
    requires IsDigit(c)
    ensures d < 10
  {
    c as int - '0' as int
  }

  /** The value of a string of decimal digits, most significant digit first. */
  function DigitsValue(s: string): nat
    requires AllDigits(s)
  {
    if s == [] then 0 else DigitsValue(s[..|s| - 1]) * 10 + DigitValue(s[|s| - 1])
  }

  /** The string with the one optional leading `+` that Rust admits for unsigned integers removed. */
  function Unsigned(s: string): string {
    if |s| > 0 && s[0] == '+' then s[1..] else s
  }

  /** `s.parse::<usize>()`: fails on the empty string, on a lone sign, on any character that is
      not a decimal digit (a `-` included) and on a value above USIZE_MAX. There is no trimming
      of whitespace. */
  function ParseUsize(s: string): (r: Option<Usize>)
    ensures r.Some? <==> |Unsigned(s)| > 0 && AllDigits(Unsigned(s)) && DigitsValue(Unsigned(s)) <= USIZE_MAX
    ensures r.Some? ==> r.value == DigitsValue(Unsigned(s))
  {
    if |s| == 0 then None
    else if (s[0] == '+' || s[0] == '-') && |s| == 1 then None
    else
      var digits := if s[0] == '+' then s[1..] else s;
      if !AllDigits(digits) then None
      else if DigitsValue(digits) > USIZE_MAX then None
      else Some(DigitsValue(digits))
  }

  function DigitChar(d: nat): (c: char)
    requires d < 10
    ensures IsDigit(c) && DigitValue(c) == d
  {
    ('0' as int + d) as char
  }

  /** The decimal rendering of n that a server writes: no sign, no leading zero. */
  function ToDecimal(n: nat): (s: string)
    ensures |s| > 0 && AllDigits(s)
    ensures s[0] == '0' <==> n == 0
  {
    if n < 10 then [DigitChar(n)] else ToDecimal(n / 10) + [DigitChar(n % 10)]
  }

  /** Reading a rendered number back gives the number. */
  lemma {:induction false} DigitsValueOfDecimal(n: nat)
    ensures DigitsValue(ToDecimal(n)) == n
  {
    if n >= 10 {
      var s := ToDecimal(n);
      assert s[..|s| - 1] == ToDecimal(n / 10);
      DigitsValueOfDecimal(n / 10);
    }
  }

  /** Every count a server can render, with or without a leading `+`, parses to itself. */
  lemma ParseUsizeOfDecimal(n: Usize)
    ensures ParseUsize(ToDecimal(n)) == Some(n)
    ensures ParseUsize("+" + ToDecimal(n)) == Some(n)
  {
    DigitsValueOfDecimal(n);
    assert Unsigned("+" + ToDecimal(n)) == ToDecimal(n);
  }

  /** A number that does not fit in a usize is an error, not a wrapped or saturated value. */
  lemma ParseUsizeRejectsOverflow(n: nat)
    requires n > USIZE_MAX
    ensures ParseUsize(ToDecimal(n)) == None
  {
    DigitsValueOfDecimal(n);
  }

  /** Leading zeros do not change the value. */
  lemma {:induction false} DigitsValueLeadingZero(s: string)
    requires AllDigits(s)
    ensures AllDigits("0" + s) && DigitsValue("0" + s) == DigitsValue(s)
  {
    if s != [] {
      var z := "0" + s;
      assert z[..|z| - 1] == "0" + s[..|s| - 1];
      DigitsValueLeadingZero(s[..|s| - 1]);
    }
  }

  lemma ParseUsizeLeadingZero(s: string)
    requires |s| > 0 && AllDigits(s)
    ensures ParseUsize("0" + s) == ParseUsize(s)
  {
    DigitsValueLeadingZero(s);
  }

  /** A minus sign is never accepted, not even on zero. */
  lemma ParseUsizeRejectsMinus(s: string)
    ensures ParseUsize("-" + s) == None
  {
    assert !IsDigit(("-" + s)[0]);
  }

  /** A body that is not a number is an error rather than a default: the empty body, an error
      word, and a number followed by a line break. */
  lemma ParseUsizeRejectsNonNumeric(n: nat)
    ensures ParseUsize("") == None
    ensures ParseUsize("ERROR") == None
    ensures ParseUsize("+") == None
    ensures ParseUsize(ToDecimal(n) + "\n") == None
  {
    assert !IsDigit("ERROR"[0]);
    var s := ToDecimal(n) + "\n";
    assert !IsDigit(s[|s| - 1]);
  }
}
