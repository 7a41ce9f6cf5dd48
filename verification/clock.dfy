/** Readers for the textual date and time fields of a booking: `HH:mm` times
    and `YYYY-MM-DD` dates, as an HTML time or date input produces them. */
module Clock {
  import opened JsText

  function TwoDigitValue(a: char, b: char): (v: nat)
    requires IsDigit(a) && IsDigit(b)
    ensures v < 100
  {
    HexDigitValue(a) * 10 + HexDigitValue(b)
  }

  /** Text of the shape `HH:mm`: two digits, a colon, two digits. */
  predicate IsTimeText(t: string) {
    |t| == 5 && IsDigit(t[0]) && IsDigit(t[1]) && t[2] == ':' && IsDigit(t[3]) && IsDigit(t[4])
  }

  function Hours(t: string): nat
    requires IsTimeText(t)
  {
    TwoDigitValue(t[0], t[1])
  }

  function Minutes(t: string): nat
    requires IsTimeText(t)
  {
    TwoDigitValue(t[3], t[4])
  }

  /** A time of day: hours 00..23 and minutes 00..59. */
  predicate WellFormedTime(t: string) {
    IsTimeText(t) && Hours(t) <= 23 && Minutes(t) <= 59
  }

  /** Minutes since midnight. */
  function MinuteOfDay(t: string): (m: nat)
    requires WellFormedTime(t)
    ensures m < 24 * 60
  {
    Hours(t) * 60 + Minutes(t)
  }

  /** Text of the shape `YYYY-MM-DD`. */
  predicate IsDateText(d: string) {
    && |d| == 10
    && IsDigit(d[0]) && IsDigit(d[1]) && IsDigit(d[2]) && IsDigit(d[3]) && d[4] == '-'
    && IsDigit(d[5]) && IsDigit(d[6]) && d[7] == '-' && IsDigit(d[8]) && IsDigit(d[9])
  }

  function Year(d: string): nat
    requires IsDateText(d)
  {
    TwoDigitValue(d[0], d[1]) * 100 + TwoDigitValue(d[2], d[3])
  }

  function Month(d: string): nat
    requires IsDateText(d)
  {
    TwoDigitValue(d[5], d[6])
  }

  function Day(d: string): nat
    requires IsDateText(d)
  {
    TwoDigitValue(d[8], d[9])
  }

  /** A calendar date with month 01..12 and day 01..31. */
  predicate WellFormedDate(d: string) {
    IsDateText(d) && 1 <= Month(d) <= 12 && 1 <= Day(d) <= 31
  }
}
