/**
 * Fixed-capacity display text. Both display routines render into an
 * `ArrayString<[u8; 32]>` and format unsigned integers with `itoa`; here a
 * string is a `seq<char>` whose length is checked against the capacity, and
 * `itoa` is the decimal rendering `Decimal` with its inverse `ParseDecimal`.
 */
module Text {
  import opened Wrappers

  /** Capacity in bytes of the display buffers; all rendered text is ASCII. */
  const CAPACITY: nat := 32

  /** The error `ArrayString::from` reports for a string that does not fit. */
  datatype CapacityError = CapacityError

  predicate IsDigit(c: char) {
    '0' <= c <= '9'
  }

  predicate AllDigits(s: string) {
    forall i :: 0 <= i < |s| ==> IsDigit(s[i])
  }

  function DigitChar(d: nat): (c: char)
    requires d < 10
    ensures IsDigit(c)
  {
    (48 + d) as char
  }

  function DigitValue(c: char): (d: nat)
    requires IsDigit(c)
    ensures d < 10 && DigitChar(d) == c
  {
    c as int - 48
  }

  /** Decimal digits of `n` without leading zeros, as `itoa::Buffer::format` renders it. */
  function Decimal(n: nat): (s: string)
    ensures 1 <= |s| && AllDigits(s)
  {
    if n < 10 then [DigitChar(n)] else Decimal(n / 10) + [DigitChar(n % 10)]
  }

  /** Reads a string of decimal digits back as a number; the inverse of `Decimal`. */
  function ParseDecimal(s: string): nat
    requires AllDigits(s)
  {
    if s == [] then 0 else ParseDecimal(s[..|s| - 1]) * 10 + DigitValue(s[|s| - 1])
  }

  /** The longest prefix of `s` made of decimal digits. */
  function LeadingDigits(s: string): (d: string)
    ensures AllDigits(d)
  {
    if s == [] || !IsDigit(s[0]) then [] else [s[0]] + LeadingDigits(s[1..])
  }

  function Pow10(k: nat): (p: nat)
    ensures 1 <= p
  {
    if k == 0 then 1 else 10 * Pow10(k - 1)
  }

  /** `ArrayString::from`: the text when it fits the capacity, else a capacity error. */
  function FromStr(s: string): (r: Result<string, CapacityError>)
    ensures r.Ok? <==> |s| <= CAPACITY
    ensures r.Ok? ==> r.value == s
  {
    if |s| <= CAPACITY then Ok(s) else Err(CapacityError)
  }

  /** `ArrayString::push_str`, which panics when the text would overflow the capacity. */
  function PushStr(buffer: string, s: string): (r: string)
    requires |buffer| + |s| <= CAPACITY
    ensures |r| == |buffer| + |s| && |r| <= CAPACITY
    ensures r[..|buffer|] == buffer && r[|buffer|..] == s
  {
    buffer + s
  }

  /** Rendering a number and reading it back gives the number. */
  lemma {:induction false} ParseDecimalInverse(n: nat)
    ensures ParseDecimal(Decimal(n)) == n
  {
    if n >= 10 {
      var s := Decimal(n);
      assert s[..|s| - 1] == Decimal(n / 10);
      ParseDecimalInverse(n / 10);
    }
  }

  /** A number below 10^k has at most k digits. */
  lemma {:induction false} DecimalLength(n: nat, k: nat)
    requires 1 <= k && n < Pow10(k)
    ensures |Decimal(n)| <= k
  {
    if n >= 10 {
      assert 2 <= k;
      assert n / 10 < Pow10(k - 1);
      DecimalLength(n / 10, k - 1);
    }
  }

  /** Every 16-bit value renders in at most five digits. */
  lemma DecimalLengthU16(n: nat)
    requires n < 0x1_0000
    ensures |Decimal(n)| <= 5
  {
    assert Pow10(5) == 100000;
    DecimalLength(n, 5);
  }

  /** The leading digits of a digit string followed by a non-digit are that digit string. */
  lemma {:induction false} LeadingDigitsOf(d: string, rest: string)
    requires AllDigits(d)
    requires rest == [] || !IsDigit(rest[0])
    ensures LeadingDigits(d + rest) == d
  {
    if d != [] {
      assert (d + rest)[1..] == d[1..] + rest;
      LeadingDigitsOf(d[1..], rest);
    } else {
      assert d + rest == rest;
    }
  }

  /** The number printed at the head of a rendered text is read back from it. */
  lemma NumberReadsBack(n: nat, rest: string)
    requires rest == [] || !IsDigit(rest[0])
    ensures ParseDecimal(LeadingDigits(Decimal(n) + rest)) == n
  {
    LeadingDigitsOf(Decimal(n), rest);
    ParseDecimalInverse(n);
  }
}
