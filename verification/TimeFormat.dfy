/** `formatTime` of static/script.js on whole, non-negative seconds: minutes,
    a colon, and the seconds within the minute as two digits. */
module TimeFormat {
  import opened Wrappers
  import opened Text

  /** `formatTime(s)`: `${m}:${sc<10?'0':''}${sc}` with `m = s div 60`, `sc = s mod 60`. */
  function FormatTime(s: nat): (r: string)
    ensures |r| >= 4 && r[|r| - 3] == ':'
    ensures AllDigits(r[..|r| - 3]) && (|r| > 4 ==> r[0] != '0')
    ensures AllDigits(r[|r| - 2..])
    ensures DecimalValue(r[..|r| - 3]) == s / 60
    ensures DecimalValue(r[|r| - 2..]) == s % 60
  {
    var m := s / 60;
    var sc := s % 60;
    var digits := Decimal(sc);
    var field := (if sc < 10 then "0" else "") + digits;
    assert |field| == 2 && AllDigits(field) && DecimalValue(field) == sc by {
      if sc < 10 {
        assert digits == [DigitChar(sc)];
        assert field[..1] == "0";
      } else {
        assert digits == Decimal(sc / 10) + [DigitChar(sc % 10)];
        assert digits == [DigitChar(sc / 10), DigitChar(sc % 10)];
        assert field == digits;
      }
    }
    var r := Decimal(m) + ":" + field;
    assert r[..|r| - 3] == Decimal(m);
    assert r[|r| - 2..] == field;
    r
  }

  /** Reads `m:ss` back as a number of seconds; anything else is `None`. */
  function ParseTime(r: string): (s: Option<nat>)
  {
    if |r| >= 4 && r[|r| - 3] == ':' && AllDigits(r[..|r| - 3]) && AllDigits(r[|r| - 2..])
    then Some(DecimalValue(r[..|r| - 3]) * 60 + DecimalValue(r[|r| - 2..]))
    else None
  }

  /** The formatted time reads back as the seconds it was made from. */
  lemma ParseFormatTime(s: nat)
    ensures ParseTime(FormatTime(s)) == Some(s)
  {
  }

  /** Times within the same minute share the minutes field, and the seconds
      field grows with the time. */
  lemma FormatTimeSameMinute(a: nat, b: nat)
    requires a / 60 == b / 60 && a <= b
    ensures var ra, rb := FormatTime(a), FormatTime(b);
            ra[..|ra| - 3] == rb[..|rb| - 3]
            && DecimalValue(ra[|ra| - 2..]) <= DecimalValue(rb[|rb| - 2..])
  {
    DecimalInjective(FormatTime(a)[..|FormatTime(a)| - 3], FormatTime(b)[..|FormatTime(b)| - 3]);
  }

  /** Canonical numerals of the same value are the same string. */
  lemma DecimalInjective(x: string, y: string)
    requires |x| >= 1 && AllDigits(x) && (|x| > 1 ==> x[0] != '0')
    requires |y| >= 1 && AllDigits(y) && (|y| > 1 ==> y[0] != '0')
    requires DecimalValue(x) == DecimalValue(y)
    ensures x == y
  {
    DecimalIsCanonical(x);
    DecimalIsCanonical(y);
  }

  /** A canonical numeral is the numeral `Decimal` writes for its value. */
  lemma {:induction false} DecimalIsCanonical(x: string)
    requires |x| >= 1 && AllDigits(x) && (|x| > 1 ==> x[0] != '0')
    ensures Decimal(DecimalValue(x)) == x
    decreases |x|
  {
    var n := DecimalValue(x);
    if |x| == 1 {
      assert x[..0] == [];
    } else {
      var front := x[..|x| - 1];
      DecimalIsCanonical(front);
      LeadingDigitBound(front);
      assert n / 10 == DecimalValue(front) && n % 10 == DigitValue(x[|x| - 1]);
      assert x == front + [x[|x| - 1]];
    }
  }

  /** A numeral of two or more digits without a leading zero denotes at least 10. */
  lemma {:induction false} LeadingDigitBound(x: string)
    requires |x| >= 1 && AllDigits(x) && (|x| > 1 ==> x[0] != '0')
    ensures |x| > 1 ==> DecimalValue(x) >= 10
    ensures DecimalValue(x) >= 1 || |x| == 1
    decreases |x|
  {
    if |x| > 1 {
      var front := x[..|x| - 1];
      LeadingDigitBound(front);
      if |front| == 1 {
        assert front[..0] == [];
        assert front[0] != '0';
      }
    }
  }
}
