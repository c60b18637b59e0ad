/** The `HH:MM` stamp of a history entry: JavaScript's decimal rendering of the hour and the
    minute, each given a leading "0" when below ten. */
module TimeStamps {
  import opened Entities

  datatype Clock = Clock(hour: nat, minute: nat)

  function DigitChar(d: nat): char
    requires d < 10
  {
    ('0' as int + d) as char
  }

  predicate IsDigit(c: char) {
    '0' <= c <= '9'
  }

  function DigitValue(c: char): nat
    requires IsDigit(c)
  {
    c as int - '0' as int
  }

  /** The decimal rendering of `n`, as template interpolation `${n}` produces it. */
  function Decimal(n: nat): (s: string)
    ensures |s| > 0 && forall i :: 0 <= i < |s| ==> IsDigit(s[i])
  {
    if n < 10 then [DigitChar(n)] else Decimal(n / 10) + [DigitChar(n % 10)]
  }

  /** `n < 10 ? "0" + n : n`, interpolated. */
  function Padded(n: nat): string {
    if n < 10 then "0" + Decimal(n) else Decimal(n)
  }

  /** The stamp an entry gets for a given hour and minute: for every real clock time it is
      five characters and reads back as that time. */
  function Format(c: Clock): (s: string)
    ensures c.hour < 24 && c.minute < 60 ==> |s| == 5 && s[2] == ':' && Parse(s) == Some(c)
  {
    var s := Padded(c.hour) + ":" + Padded(c.minute);
    if c.hour < 24 && c.minute < 60 then
      PaddedTwoDigits(c.hour);
      PaddedTwoDigits(c.minute);
      assert s[0] == Padded(c.hour)[0] && s[1] == Padded(c.hour)[1];
      assert s[3] == Padded(c.minute)[0] && s[4] == Padded(c.minute)[1];
      s
    else s
  }

  /** Reads a stamp back: `HH:MM` with two digits on each side of the colon, or None. */
  function Parse(s: string): Option<Clock> {
    if |s| == 5 && s[2] == ':' && IsDigit(s[0]) && IsDigit(s[1]) && IsDigit(s[3]) && IsDigit(s[4])
    then Some(Clock(10 * DigitValue(s[0]) + DigitValue(s[1]), 10 * DigitValue(s[3]) + DigitValue(s[4])))
    else None
  }

  /** Below one hundred the padded rendering is exactly two digits, tens first. */
  lemma PaddedTwoDigits(n: nat)
    requires n < 100
    ensures |Padded(n)| == 2
    ensures IsDigit(Padded(n)[0]) && IsDigit(Padded(n)[1])
    ensures 10 * DigitValue(Padded(n)[0]) + DigitValue(Padded(n)[1]) == n
  {
    if n >= 10 {
      assert Decimal(n) == Decimal(n / 10) + [DigitChar(n % 10)];
      assert Decimal(n / 10) == [DigitChar(n / 10)];
    }
  }

  /** Distinct clock times never share a stamp. */
  lemma FormatInjective(c: Clock, d: Clock)
    requires c.hour < 24 && c.minute < 60 && d.hour < 24 && d.minute < 60
    requires Format(c) == Format(d)
    ensures c == d
  {
  }
}
