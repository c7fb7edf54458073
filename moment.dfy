/**
 * The two moment.js patterns the author virtuals format dates with, for
 * moment's default English locale. A date is given by its local calendar
 * fields; turning a stored instant into them is not part of this model.
 */
module Moment {
  import opened JsValues

  type Month = m: int | 1 <= m <= 12 witness 1
  type DayOfMonth = d: int | 1 <= d <= 31 witness 1

  datatype Date = Date(year: int, month: Month, day: DayOfMonth)

  function Zeros(k: nat): (z: string)
    ensures |z| == k && AllDigits(z)
  {
    if k == 0 then "" else "0" + Zeros(k - 1)
  }

  /** moment's zeroFill without a forced sign: a minus sign for negatives, then the magnitude padded with zeros to `width` digits. */
  function ZeroFill(n: int, width: nat): (s: string)
    ensures |s| >= width
    ensures n >= 0 ==> AllDigits(s)
    ensures n >= 0 && |NatToDecimal(n)| <= width ==> |s| == width
    ensures n < 0 <==> (|s| > 0 && s[0] == '-')
  {
    var digits := NatToDecimal(if n < 0 then -n else n);
    var pad := Zeros(if width > |digits| then width - |digits| else 0);
    if n < 0 then "-" + pad + digits else pad + digits
  }

  function MonthName(m: Month): (s: string)
    ensures |s| >= 3
  {
    ["January", "February", "March", "April", "May", "June", "July",
     "August", "September", "October", "November", "December"][m - 1]
  }

  /** The `Do` token: the day of the month with its English ordinal suffix. */
  function Ordinal(d: DayOfMonth): (s: string)
    ensures |s| >= 3
  {
    var suffix :=
      if (d % 100) / 10 == 1 then "th"
      else if d % 10 == 1 then "st"
      else if d % 10 == 2 then "nd"
      else if d % 10 == 3 then "rd"
      else "th";
    NatToDecimal(d) + suffix
  }

  /** The pattern 'MMMM Do, YYYY'. */
  function FormatLong(d: Date): (s: string)
    ensures |s| >= 12
    ensures s[..|MonthName(d.month)|] == MonthName(d.month)
  {
    MonthName(d.month) + " " + Ordinal(d.day) + ", " + ZeroFill(d.year, 4)
  }

  /** The pattern 'YYYY-MM-DD'. */
  function FormatIso(d: Date): (s: string)
    ensures |s| >= 10
    ensures 0 <= d.year <= 9999 ==> |s| == 10 && s[4] == '-' && s[7] == '-'
  {
    ZeroFill(d.year, 4) + "-" + ZeroFill(d.month, 2) + "-" + ZeroFill(d.day, 2)
  }
}
