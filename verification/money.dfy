/**
 * Money amounts as whole cents, written the two ways the ledger writes them
 * (`String.format("%.2f")` and `Double.toString`) and read back the way
 * `Double.parseDouble` reads them.
 */
module Money {
  import opened Wrappers
  import opened Text

  function Abs(c: int): nat {
    if c < 0 then -c else c
  }

  function Sign(c: int): string {
    if c < 0 then "-" else ""
  }

  /** `String.format("%.2f", c / 100)`: whole units, a point, two fraction digits. */
  function FormatCents(c: int): (r: string)
    ensures |r| >= 4 && (r[0] == '-' <==> c < 0)
    ensures r[|r| - 3] == '.' && IsDigit(r[|r| - 2]) && IsDigit(r[|r| - 1])
    ensures DigitValue(r[|r| - 2]) * 10 + DigitValue(r[|r| - 1]) == Abs(c) % 100
  {
    var units, cents := NatToString(Abs(c) / 100), Pad2(Abs(c) % 100);
    var r := Sign(c) + units + "." + cents;
    assert r[|r| - 2] == cents[0] && r[|r| - 1] == cents[1];
    assert c >= 0 ==> r[0] == units[0];
    r
  }

  /**
   * `Double.toString(c / 100)` for amounts below ten million units: whole
   * units, a point, and the fraction without trailing zeros but with at
   * least one digit ("12.0", "12.5", "12.05").
   */
  function FormatDouble(c: int): (r: string)
    ensures |r| >= 3 && (r[0] == '-' <==> c < 0)
    ensures Abs(c) % 10 == 0 ==> r[|r| - 2] == '.' && IsDigit(r[|r| - 1]) && DigitValue(r[|r| - 1]) == Abs(c) % 100 / 10
    ensures Abs(c) % 10 != 0 ==>
      && r[|r| - 3] == '.' && IsDigit(r[|r| - 2]) && IsDigit(r[|r| - 1])
      && DigitValue(r[|r| - 2]) * 10 + DigitValue(r[|r| - 1]) == Abs(c) % 100 && r[|r| - 1] != '0'
  {
    var f := Abs(c) % 100;
    var units := NatToString(Abs(c) / 100);
    var fraction := if f % 10 == 0 then [DigitChar(f / 10)] else Pad2(f);
    var r := Sign(c) + units + "." + fraction;
    assert f % 10 == Abs(c) % 10;
    assert r[|r| - 1] == fraction[|fraction| - 1];
    assert f % 10 != 0 ==> r[|r| - 2] == fraction[0] && r[|r| - 3] == '.';
    assert f % 10 == 0 ==> r[|r| - 2] == '.';
    assert c >= 0 ==> r[0] == units[0];
    assert f % 10 != 0 ==> DigitValue(fraction[1]) == f % 10;
    r
  }

  /** Unsigned amount: digits, optionally followed by a point and one or two digits. */
  function ParseUnsigned(s: string): Option<nat> {
    if |s| > 0 && AllDigits(s) then
      Some(DigitsValue(s) * 100)
    else if |s| >= 3 && s[|s| - 2] == '.' && AllDigits(s[..|s| - 2]) && IsDigit(s[|s| - 1]) then
      Some(DigitsValue(s[..|s| - 2]) * 100 + DigitValue(s[|s| - 1]) * 10)
    else if |s| >= 4 && s[|s| - 3] == '.' && AllDigits(s[..|s| - 3]) && AllDigits(s[|s| - 2..]) then
      Some(DigitsValue(s[..|s| - 3]) * 100 + DigitsValue(s[|s| - 2..]))
    else
      None
  }

  /**
   * `Double.parseDouble` on the decimal forms the ledger writes: an optional
   * sign, then an unsigned amount; `None` stands for the
   * `NumberFormatException` thrown on anything else.
   */
  function ParseAmount(s: string): (r: Option<int>)
    ensures r.Some? ==> |s| > 0 && IsDigit(s[|s| - 1])
    ensures r.Some? && s[0] == '-' ==> r.value <= 0
    ensures r.Some? && s[0] != '-' ==> r.value >= 0
  {
    var signed := |s| > 0 && (s[0] == '-' || s[0] == '+');
    var body := if signed then s[1..] else s;
    match ParseUnsigned(body)
    case None => None
    case Some(v) => Some(if signed && s[0] == '-' then -(v as int) else v)
  }

  /** A point followed by one digit: the digit counts tens of cents. */
  lemma ParseUnsignedPointOneDigit(s: string)
    requires |s| >= 3 && s[|s| - 2] == '.' && AllDigits(s[..|s| - 2]) && IsDigit(s[|s| - 1])
    ensures ParseUnsigned(s) == Some(DigitsValue(s[..|s| - 2]) * 100 + DigitValue(s[|s| - 1]) * 10)
  {
    assert !IsDigit(s[|s| - 2]);
  }

  /** A point followed by two digits: they count cents. */
  lemma ParseUnsignedPointTwoDigits(s: string)
    requires |s| >= 4 && s[|s| - 3] == '.' && AllDigits(s[..|s| - 3]) && AllDigits(s[|s| - 2..])
    ensures ParseUnsigned(s) == Some(DigitsValue(s[..|s| - 3]) * 100 + DigitsValue(s[|s| - 2..]))
  {
    assert !IsDigit(s[|s| - 3]);
    assert s[|s| - 2] == s[|s| - 2..][0];
  }

  /** Where the point and the digits sit in `units.d`. */
  lemma PointBeforeOne(units: string, fraction: string)
    requires |units| >= 1 && |fraction| == 1
    ensures var s := units + "." + fraction;
      |s| >= 3 && s[..|s| - 2] == units && s[|s| - 2] == '.' && s[|s| - 1] == fraction[0]
  {
    var s := units + "." + fraction;
    assert s[..|s| - 2] == units;
  }

  /** Where the point and the digits sit in `units.dd`. */
  lemma PointBeforeTwo(units: string, fraction: string)
    requires |units| >= 1 && |fraction| == 2
    ensures var s := units + "." + fraction;
      |s| >= 4 && s[..|s| - 3] == units && s[|s| - 3] == '.' && s[|s| - 2..] == fraction
  {
    var s := units + "." + fraction;
    assert s[..|s| - 3] == units;
    assert s[|s| - 2..] == fraction;
  }

  /** `q.d` reads as `q` units and `d` tens of cents. */
  lemma ParseOneFractionDigit(units: string, fraction: string, n: nat)
    requires |units| >= 1 && AllDigits(units)
    requires |fraction| == 1 && IsDigit(fraction[0])
    requires DigitsValue(units) * 100 + DigitValue(fraction[0]) * 10 == n
    ensures ParseUnsigned(units + "." + fraction) == Some(n)
  {
    PointBeforeOne(units, fraction);
    ParseUnsignedPointOneDigit(units + "." + fraction);
  }

  /** `q.ff` reads as `q` units and `ff` cents. */
  lemma ParseTwoFractionDigits(units: string, fraction: string, n: nat)
    requires |units| >= 1 && AllDigits(units)
    requires |fraction| == 2 && AllDigits(fraction)
    requires DigitsValue(units) * 100 + DigitsValue(fraction) == n
    ensures ParseUnsigned(units + "." + fraction) == Some(n)
  {
    PointBeforeTwo(units, fraction);
    ParseUnsignedPointTwoDigits(units + "." + fraction);
  }

  lemma ParseUnsignedStartsWithDigit(s: string)
    requires ParseUnsigned(s).Some?
    ensures |s| > 0 && IsDigit(s[0])
  {
    if !AllDigits(s) {
      if |s| >= 3 && s[|s| - 2] == '.' && AllDigits(s[..|s| - 2]) && IsDigit(s[|s| - 1]) {
        assert s[..|s| - 2][0] == s[0];
      } else {
        assert s[..|s| - 3][0] == s[0];
      }
    }
  }

  lemma ParseAmountOfSigned(c: int, body: string)
    requires ParseUnsigned(body) == Some(Abs(c))
    ensures ParseAmount(Sign(c) + body) == Some(c)
  {
    ParseUnsignedStartsWithDigit(body);
    if c < 0 {
      assert (Sign(c) + body)[1..] == body;
    } else {
      assert Sign(c) + body == body;
    }
  }

  /** What `%.2f` writes, `parseDouble` reads back to the same number of cents. */
  lemma ParseOfFormatCents(c: int)
    ensures ParseAmount(FormatCents(c)) == Some(c)
  {
    var n := Abs(c);
    var units, fraction := NatToString(n / 100), Pad2(n % 100);
    var body := units + "." + fraction;
    assert FormatCents(c) == Sign(c) + body;
    WholeCents(n);
    ParseTwoFractionDigits(units, fraction, n);
    ParseAmountOfSigned(c, body);
  }

  /** What `Double.toString` writes, `parseDouble` reads back to the same number of cents. */
  lemma ParseOfFormatDouble(c: int)
    ensures ParseAmount(FormatDouble(c)) == Some(c)
  {
    var n := Abs(c);
    var f := n % 100;
    var units := NatToString(n / 100);
    var fraction := if f % 10 == 0 then [DigitChar(f / 10)] else Pad2(f);
    var body := units + "." + fraction;
    assert FormatDouble(c) == Sign(c) + body;
    if f % 10 == 0 {
      WholeTens(n);
      ParseSignedOneDigit(c, units, fraction);
    } else {
      WholeCents(n);
      ParseSignedTwoDigits(c, units, fraction);
    }
  }

  /** A signed `q.d` reads back as the amount whose magnitude it spells. */
  lemma ParseSignedOneDigit(c: int, units: string, fraction: string)
    requires |units| >= 1 && AllDigits(units)
    requires |fraction| == 1 && IsDigit(fraction[0])
    requires DigitsValue(units) * 100 + DigitValue(fraction[0]) * 10 == Abs(c)
    ensures ParseAmount(Sign(c) + (units + "." + fraction)) == Some(c)
  {
    ParseOneFractionDigit(units, fraction, Abs(c));
    ParseAmountOfSigned(c, units + "." + fraction);
  }

  /** A signed `q.ff` reads back as the amount whose magnitude it spells. */
  lemma ParseSignedTwoDigits(c: int, units: string, fraction: string)
    requires |units| >= 1 && AllDigits(units)
    requires |fraction| == 2 && AllDigits(fraction)
    requires DigitsValue(units) * 100 + DigitsValue(fraction) == Abs(c)
    ensures ParseAmount(Sign(c) + (units + "." + fraction)) == Some(c)
  {
    ParseTwoFractionDigits(units, fraction, Abs(c));
    ParseAmountOfSigned(c, units + "." + fraction);
  }

  lemma WholeTens(n: nat)
    requires n % 100 % 10 == 0
    ensures (n / 100) * 100 + (n % 100 / 10) * 10 == n
  {
  }

  lemma WholeCents(n: nat)
    ensures (n / 100) * 100 + n % 100 == n
  {
  }



}
