/** Java's 32-bit `int`: wrap-around addition and division that truncates toward zero. */
module JavaInt {

  const INT_MIN: int := -0x8000_0000
  const INT_MAX: int := 0x7FFF_FFFF
  const TWO_32: int := 0x1_0000_0000

  predicate IsInt(x: int) { INT_MIN <= x <= INT_MAX }

  /** A value of a Java `int` field. */
  type Int32 = x: int | INT_MIN <= x <= INT_MAX

  /** Reduces an unbounded integer to the `int` with the same low 32 bits. */
  function Wrap(x: int): (r: int)
    ensures IsInt(r)
    ensures (x - r) % TWO_32 == 0
    ensures IsInt(x) ==> r == x
  {
    (x - INT_MIN) % TWO_32 + INT_MIN
  }

  /** `a + b` on Java `int`s. */
  function Add(a: int, b: int): int
    requires IsInt(a) && IsInt(b)
  {
    Wrap(a + b)
  }

  /** `a / b` on Java `int`s for a positive divisor: the quotient is truncated toward zero. */
  function DivTrunc(a: int, b: int): (q: int)
    requires b > 0
    ensures a >= 0 ==> q * b <= a < (q + 1) * b
    ensures a < 0 ==> (q - 1) * b < a <= q * b
  {
    if a >= 0 then a / b else -((-a) / b)
  }

  /** `(seconds + 59) / 60`, the seconds-to-minutes conversion of the TAGO clients. */
  function CeilMinutes(seconds: int): int
    requires IsInt(seconds)
  {
    DivTrunc(Add(seconds, 59), 60)
  }

  /** For a non-negative time that does not overflow, the conversion rounds up a partial minute. */
  lemma CeilMinutesRoundsUp(seconds: int)
    requires 0 <= seconds <= INT_MAX - 59
    ensures var m := CeilMinutes(seconds); 60 * (m - 1) < seconds <= 60 * m && m >= 0
  {
  }

  /** Already-due arrivals of up to 59 seconds in the past give 0 minutes, because the quotient is
      truncated toward zero rather than floored. */
  lemma CeilMinutesSlightlyNegative(seconds: int)
    requires -59 <= seconds < 0
    ensures CeilMinutes(seconds) == 0
  {
  }

  /** A time within 58 seconds of `INT_MAX` wraps around and gives a negative minute count. */
  lemma CeilMinutesOverflow(seconds: int)
    requires INT_MAX - 58 <= seconds <= INT_MAX
    ensures CeilMinutes(seconds) < 0
  {
    assert Add(seconds, 59) == seconds + 59 - TWO_32;
  }
}
