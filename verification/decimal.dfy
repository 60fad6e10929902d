/** Rust's `from_str` for unsigned integer types (`u32`, `u128`) on the bytes of a string,
    and the decimal rendering that it inverts. */
module Decimal {
  import opened Types

  const PLUS: Byte := 43   // '+'
  const ZERO: Byte := 48   // '0'

  predicate IsDigit(b: Byte) {
    48 <= b <= 57
  }

  predicate AllDigits(s: seq<Byte>) {
    forall k :: 0 <= k < |s| ==> IsDigit(s[k])
  }

  /** The number a string of decimal digits denotes, most significant digit first. */
  function Value(s: seq<Byte>): nat
    requires AllDigits(s)
    decreases |s|
  {
    if |s| == 0 then 0 else 10 * Value(s[..|s| - 1]) + (s[|s| - 1] - ZERO)
  }

  function Pow10(k: nat): (r: nat)
    ensures r >= 1
  {
    if k == 0 then 1 else 10 * Pow10(k - 1)
  }

  /** `from_str` of an unsigned type whose values lie below `limit`: an optional leading '+',
      then at least one ASCII digit; a value that does not fit the type is an error. */
  function ParseUnsigned(s: seq<Byte>, limit: nat): (r: Option<nat>)
    ensures r.Some? ==> r.value < limit
    ensures r.Some? ==> 0 < |s| && forall k :: 0 <= k < |s| ==> IsDigit(s[k]) || (k == 0 && s[k] == PLUS)
  {
    var digits := if 0 < |s| && s[0] == PLUS then s[1..] else s;
    if |digits| == 0 || !AllDigits(digits) then None
    else if Value(digits) < limit then Some(Value(digits))
    else None
  }

  /** Decimal text of `n`, without a sign and without leading zeros. */
  function Render(n: nat): (r: seq<Byte>)
    ensures 0 < |r| && AllDigits(r)
    ensures Value(r) == n
    ensures n > 0 ==> r[0] != ZERO
  {
    if n < 10 then [ZERO + n]
    else
      var prefix := Render(n / 10);
      var r := prefix + [ZERO + n % 10];
      assert r[..|r| - 1] == prefix;
      r
  }

  function Zeros(k: nat): (r: seq<Byte>)
    ensures |r| == k && AllDigits(r)
    ensures forall i :: 0 <= i < k ==> r[i] == ZERO
  {
    seq(k, _ => ZERO)
  }

  /** `n` written with exactly `width` digits, padded on the left with zeros. */
  function Padded(n: nat, width: nat): (r: seq<Byte>)
    requires 0 < width && n < Pow10(width)
    ensures |r| == width && AllDigits(r)
    ensures Value(r) == n
  {
    RenderLength(n, width);
    var text := Render(n);
    LeadingZeros(width - |text|, text);
    Zeros(width - |text|) + text
  }

  /** Leading zeros do not change the value of a digit string. */
  lemma {:induction false} LeadingZeros(k: nat, s: seq<Byte>)
    requires AllDigits(s)
    ensures AllDigits(Zeros(k) + s)
    ensures Value(Zeros(k) + s) == Value(s)
    decreases |s|
  {
    var t := Zeros(k) + s;
    if |s| == 0 {
      assert t == Zeros(k);
      ZerosValue(k);
    } else {
      var init := s[..|s| - 1];
      assert t[..|t| - 1] == Zeros(k) + init;
      LeadingZeros(k, init);
    }
  }

  lemma {:induction false} ZerosValue(k: nat)
    ensures Value(Zeros(k)) == 0
  {
    if k > 0 {
      assert Zeros(k)[..k - 1] == Zeros(k - 1);
      ZerosValue(k - 1);
    }
  }

  /** A number below 10^width is rendered with at most `width` digits. */
  lemma {:induction false} RenderLength(n: nat, width: nat)
    requires 0 < width && n < Pow10(width)
    ensures |Render(n)| <= width
  {
    if n >= 10 {
      assert width > 1;
      assert n / 10 < Pow10(width - 1);
      RenderLength(n / 10, width - 1);
    }
  }

  /** `width` digits always denote a number below 10^width. */
  lemma {:induction false} ValueBound(s: seq<Byte>)
    requires AllDigits(s)
    ensures Value(s) < Pow10(|s|)
    decreases |s|
  {
    if |s| > 0 {
      ValueBound(s[..|s| - 1]);
    }
  }

  /** Parsing inverts rendering, with or without a leading '+' and leading zeros. */
  lemma ParseRendered(n: nat, zeros: nat, plus: bool, limit: nat)
    requires n < limit
    ensures ParseUnsigned((if plus then [PLUS] else []) + Zeros(zeros) + Render(n), limit) == Some(n)
  {
    var digits := Zeros(zeros) + Render(n);
    LeadingZeros(zeros, Render(n));
    assert digits[0] != PLUS;
    assert (if plus then [PLUS] else []) + Zeros(zeros) + Render(n) == (if plus then [PLUS] + digits else digits);
    if plus {
      assert ([PLUS] + digits)[1..] == digits;
    }
  }

  /** A value that reaches the limit is an overflow error, however it is written: with or
      without a leading '+' and leading zeros. */
  lemma RejectsOverflow(n: nat, zeros: nat, plus: bool, limit: nat)
    requires limit <= n
    ensures ParseUnsigned((if plus then [PLUS] else []) + Zeros(zeros) + Render(n), limit) == None
  {
    var digits := Zeros(zeros) + Render(n);
    LeadingZeros(zeros, Render(n));
    assert digits[0] != PLUS;
    assert (if plus then [PLUS] else []) + Zeros(zeros) + Render(n) == (if plus then [PLUS] + digits else digits);
    if plus {
      assert ([PLUS] + digits)[1..] == digits;
    }
  }

  /** A minus sign is never accepted by an unsigned parse, nor is an empty or lone-sign field. */
  lemma RejectsSignsAndEmpty(s: seq<Byte>, limit: nat)
    requires |s| == 0 || s == [PLUS] || (0 < |s| && s[0] == 45)
    ensures ParseUnsigned(s, limit) == None
  {
  }
}
