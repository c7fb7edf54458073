/** The few JavaScript value conversions the handlers and virtuals depend on. */
module JsValues {
  import opened Base

  predicate IsDigit(c: char)
  {
    '0' <= c <= '9'
  }

  predicate AllDigits(s: string)
  {
    forall i :: 0 <= i < |s| ==> IsDigit(s[i])
  }

  function DigitChar(d: nat): (c: char)
    requires d < 10
    ensures IsDigit(c) && c as int - '0' as int == d
  {
    ('0' as int + d) as char
  }

  /** Decimal text of a natural number, without leading zeros. */
  function NatToDecimal(n: nat): (s: string)
    ensures |s| >= 1 && AllDigits(s)
    ensures s[0] == '0' ==> n == 0
    ensures n < 100 ==> |s| <= 2
    ensures n < 10000 ==> |s| <= 4
  {
    if n < 10 then [DigitChar(n)] else NatToDecimal(n / 10) + [DigitChar(n % 10)]
  }

  /** The number a string of decimal digits denotes (leading zeros allowed). */
  function DecimalValue(s: string): nat
    requires AllDigits(s)
  {
    if s == [] then 0 else DecimalValue(s[..|s| - 1]) * 10 + (s[|s| - 1] as int - '0' as int)
  }

  /** Reads an optionally signed decimal integer; None for any other text. */
  function ParseInt(s: string): Option<int>
  {
    if |s| >= 2 && s[0] == '-' && AllDigits(s[1..]) then
      var magnitude: int := DecimalValue(s[1..]);
      Some(-magnitude)
    else if |s| >= 1 && AllDigits(s) then Some(DecimalValue(s))
    else None
  }

  lemma {:induction false} NatToDecimalReadsBack(n: nat)
    ensures DecimalValue(NatToDecimal(n)) == n
  {
    if n >= 10 {
      NatToDecimalReadsBack(n / 10);
      var s := NatToDecimal(n);
      assert s[..|s| - 1] == NatToDecimal(n / 10);
    }
  }

  /** The digits of a signed decimal text: everything after a leading '-'. */
  function Magnitude(s: string): string
  {
    if |s| >= 1 && s[0] == '-' then s[1..] else s
  }

  /** Decimal text as `toString` prints it: an optional '-', then digits with no leading zero and no "-0". */
  predicate CanonicalDecimal(s: string)
  {
    var digits := Magnitude(s);
    |digits| >= 1 && AllDigits(digits) && (digits[0] == '0' ==> s == "0")
  }

  /** `Number.prototype.toString()` on an integral number. */
  function IntToDecimal(n: int): (s: string)
    ensures ParseInt(s) == Some(n)
    ensures CanonicalDecimal(s)
    ensures s[0] == '-' <==> n < 0
  {
    if n < 0 then
      NatToDecimalReadsBack(-n);
      var s := "-" + NatToDecimal(-n);
      assert s[1..] == NatToDecimal(-n);
      s
    else
      NatToDecimalReadsBack(n);
      NatToDecimal(n)
  }

  /** Digit strings with no leading zero denote a number of at least one. */
  lemma {:induction false} LeadingDigitPositive(s: string)
    requires |s| >= 1 && AllDigits(s) && s[0] != '0'
    ensures DecimalValue(s) >= 1
  {
    if |s| > 1 {
      LeadingDigitPositive(s[..|s| - 1]);
    }
  }

  /** Two digit strings without leading zeros (other than "0" itself) that denote the same number are equal. */
  lemma {:induction false} DigitsUnique(a: string, b: string)
    requires |a| >= 1 && AllDigits(a) && (a[0] == '0' ==> a == "0")
    requires |b| >= 1 && AllDigits(b) && (b[0] == '0' ==> b == "0")
    requires DecimalValue(a) == DecimalValue(b)
    ensures a == b
  {
    if |a| > 1 {
      LeadingDigitPositive(a[..|a| - 1]);
    }
    if |b| > 1 {
      LeadingDigitPositive(b[..|b| - 1]);
    }
    if |a| > 1 && |b| > 1 {
      var pa, pb := a[..|a| - 1], b[..|b| - 1];
      DigitsUnique(pa, pb);
      assert a == pa + [a[|a| - 1]] && b == pb + [b[|b| - 1]];
    }
  }

  /** Canonical decimal text is determined by the number it denotes. */
  lemma CanonicalDecimalUnique(a: string, b: string)
    requires CanonicalDecimal(a) && CanonicalDecimal(b)
    requires ParseInt(a) == ParseInt(b)
    ensures a == b
  {
    var da, db := Magnitude(a), Magnitude(b);
    if da[0] != '0' {
      LeadingDigitPositive(da);
    }
    if db[0] != '0' {
      LeadingDigitPositive(db);
    }
    DigitsUnique(da, db);
    if a[0] == '-' {
      assert a == "-" + da;
    }
    if b[0] == '-' {
      assert b == "-" + db;
    }
  }

  /** A JavaScript number: the relational operators only meet integers and NaN here. */
  datatype JsNumber = Finite(value: int) | NaN

  /**
   * `ToNumber` applied to an array of documents, as the `>` operator does:
   * the array becomes the comma-joined text of its elements, which is ""
   * (the number 0) for an empty array and never numeric text otherwise,
   * since a document's text is its inspected form.
   */
  function DocumentListToNumber(length: nat): (x: JsNumber)
    ensures x == Finite(0) <==> length == 0
    ensures length > 0 ==> x == NaN
  {
    if length == 0 then Finite(0) else NaN
  }

  /** `x > y` for a JavaScript number and an integer; every comparison with NaN is false. */
  function GreaterThan(x: JsNumber, y: int): (b: bool)
    ensures b ==> x.Finite?
  {
    match x
    case NaN => false
    case Finite(v) => v > y
  }

  /** A list of documents compared with `> 0` is never greater, whatever its length. */
  lemma DocumentListNeverAboveZero(length: nat)
    ensures !GreaterThan(DocumentListToNumber(length), 0)
  {
  }
}
