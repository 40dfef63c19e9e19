/**
 * Whole-second timestamps. The program renders every instant it sends with
 * strftime("%Y-%m-%dT%H:%M:%SZ"). The model keeps the two facts about that
 * rendering that the rest of the program relies on: it is only defined within
 * the range of a Python datetime, and within that range it has a fixed width
 * and tells distinct seconds apart. The calendar layout itself is replaced by
 * a fixed-width decimal count of seconds since 0001-01-01T00:00:00Z.
 */
module Clock {

  /** Unix second of 0001-01-01T00:00:00Z, the earliest instant a datetime holds. */
  const MinSecond: int := -62135596800
  /** Unix second of 9999-12-31T23:59:59Z, the last whole second a datetime holds. */
  const MaxSecond: int := 253402300799
  /** Number of characters of a stamp. */
  const StampWidth: nat := 12

  /** Datetime arithmetic raises OverflowError for any instant whose second lies outside this range. */
  predicate InRange(second: int) {
    MinSecond <= second <= MaxSecond
  }

  function Pow10(n: nat): (r: nat)
    ensures r >= 1
  {
    if n == 0 then 1 else 10 * Pow10(n - 1)
  }

  predicate IsDigit(c: char) {
    '0' <= c <= '9'
  }

  /** The decimal digits of `n`, most significant first, padded with zeros to `width` characters. */
  function Digits(n: nat, width: nat): (r: string)
    requires n < Pow10(width)
    ensures |r| == width
    ensures forall i :: 0 <= i < |r| ==> IsDigit(r[i])
  {
    if width == 0 then []
    else Digits(n / 10, width - 1) + [('0' as int + n % 10) as char]
  }

  /** Reads a string of decimal digits back as a number. */
  function Value(s: string): nat
    requires forall i :: 0 <= i < |s| ==> IsDigit(s[i])
  {
    if s == [] then 0
    else
      assert IsDigit(s[|s| - 1]);
      10 * Value(s[..|s| - 1]) + (s[|s| - 1] as int - '0' as int)
  }

  lemma {:induction false} DigitsRoundTrip(n: nat, width: nat)
    requires n < Pow10(width)
    ensures Value(Digits(n, width)) == n
  {
    if width > 0 {
      var d := Digits(n, width);
      assert d[..|d| - 1] == Digits(n / 10, width - 1);
      DigitsRoundTrip(n / 10, width - 1);
    }
  }

  /** The rendering of a whole second: fixed width, defined only inside the datetime range. */
  function Stamp(second: int): (r: string)
    requires InRange(second)
    ensures |r| == StampWidth
  {
    assert Pow10(StampWidth) == 1000000000000;
    Digits(second - MinSecond, StampWidth)
  }

  /** Two seconds render alike exactly when they are the same second. */
  lemma StampInjective(a: int, b: int)
    requires InRange(a) && InRange(b)
    ensures Stamp(a) == Stamp(b) <==> a == b
  {
    assert Pow10(StampWidth) == 1000000000000;
    DigitsRoundTrip(a - MinSecond, StampWidth);
    DigitsRoundTrip(b - MinSecond, StampWidth);
  }
}
