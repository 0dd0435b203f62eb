/** Decimal text as Rust's `str::parse` reads it: `u64` and `i64` from
    their `FromStr` implementations, and the shape of the text that
    `f64`'s parser accepts when the text holds only signs, digits and points.
    `Show` and `ShowInt` print numbers back; the round-trip lemmas tie
    printing and parsing together. */
module Decimal {
  import opened Common

  const I64_MIN: int := -0x8000_0000_0000_0000
  const I64_MAX: int := 0x7FFF_FFFF_FFFF_FFFF

  predicate IsDigit(c: char) {
    '0' <= c <= '9'
  }

  predicate AllDigits(s: string) {
    forall i :: 0 <= i < |s| ==> IsDigit(s[i])
  }

  function DigitValue(c: char): (d: nat)
    requires IsDigit(c)
    ensures d < 10
  {
    c as int - '0' as int
  }

  function DigitChar(d: nat): (c: char)
    requires d < 10
    ensures IsDigit(c) && DigitValue(c) == d
  {
    ('0' as int + d) as char
  }

  /** The number a string of digits denotes, read most significant first. */
  function DigitsValue(s: string): nat
    requires AllDigits(s)
  {
    if |s| == 0 then 0 else DigitsValue(s[..|s| - 1]) * 10 + DigitValue(s[|s| - 1])
  }

  /** `s.parse::<u64>()`: an optional `+`, then at least one digit, and a
      value that fits in 64 bits. A `-` is not accepted for unsigned types. */
  function ParseU64(s: string): (r: Option<nat>)
    ensures r.Some? ==> r.value <= U64_MAX
    ensures r.Some? ==> |s| > 0 && (IsDigit(s[0]) || s[0] == '+')
  {
    var digits := if |s| > 1 && s[0] == '+' then s[1..] else s;
    if |digits| > 0 && AllDigits(digits) && DigitsValue(digits) <= U64_MAX
    then Some(DigitsValue(digits))
    else None
  }

  /** `s.parse::<i64>()`: an optional `+` or `-`, then at least one digit,
      and a value in the `i64` range. */
  function ParseI64(s: string): (r: Option<int>)
    ensures r.Some? ==> I64_MIN <= r.value <= I64_MAX
    ensures r.Some? ==> |s| > 0 && (r.value < 0 ==> s[0] == '-')
  {
    var negative := |s| > 1 && s[0] == '-';
    var digits := if |s| > 1 && (s[0] == '+' || s[0] == '-') then s[1..] else s;
    if |digits| == 0 || !AllDigits(digits) then None
    else
      var n: int := DigitsValue(digits);
      var v := if negative then -n else n;
      if I64_MIN <= v <= I64_MAX then Some(v) else None
  }

  function CountChar(s: string, c: char): (n: nat)
    ensures n <= |s|
    ensures n == 0 <==> c !in s
  {
    if |s| == 0 then 0 else (if s[0] == c then 1 else 0) + CountChar(s[1..], c)
  }

  /** The texts over signs, digits and `.` that `s.parse::<f64>()` accepts:
      an optional sign, then digits with at most one point among them and at
      least one digit (`1.`, `.5` and `-0.25` are accepted, `.`, `-` and
      `1.2.3` are not). */
  predicate IsFloatText(s: string) {
    var body := if |s| > 0 && (s[0] == '+' || s[0] == '-') then s[1..] else s;
    && (forall i :: 0 <= i < |body| ==> IsDigit(body[i]) || body[i] == '.')
    && CountChar(body, '.') <= 1
    && CountChar(body, '.') < |body|
  }

  /** Decimal digits of `n`, without leading zeros. */
  function Show(n: nat): (s: string)
    ensures |s| > 0 && AllDigits(s)
    ensures n > 0 ==> s[0] != '0'
  {
    if n < 10 then [DigitChar(n)] else Show(n / 10) + [DigitChar(n % 10)]
  }

  /** Decimal text of `i`, with a leading `-` when it is negative. */
  function ShowInt(i: int): (s: string)
    ensures |s| > 0
    ensures i < 0 <==> s[0] == '-'
  {
    if i < 0 then "-" + Show(-i) else Show(i)
  }

  lemma {:induction false} DigitsValueShow(n: nat)
    ensures DigitsValue(Show(n)) == n
  {
    var s := Show(n);
    if n >= 10 {
      assert s[..|s| - 1] == Show(n / 10);
      DigitsValueShow(n / 10);
    }
  }

  /** Printing a `u64` and parsing it back gives the same number. */
  lemma ParseU64Show(n: nat)
    requires n <= U64_MAX
    ensures ParseU64(Show(n)) == Some(n)
  {
    DigitsValueShow(n);
  }

  /** Printing an `i64` and parsing it back gives the same number. */
  lemma ParseI64ShowInt(i: int)
    requires I64_MIN <= i <= I64_MAX
    ensures ParseI64(ShowInt(i)) == Some(i)
  {
    var s := ShowInt(i);
    if i < 0 {
      var d := Show(-i);
      assert s == "-" + d;
      assert s[1..] == d;
      DigitsValueShow(-i);
    } else {
      assert s == Show(i);
      assert AllDigits(s) && !(s[0] == '+' || s[0] == '-');
      DigitsValueShow(i);
    }
  }
}
