/** The pure helpers of the vacancy import: integer parsing, the salary rule, and the
    nested `parse_date`, which reads "DD.MM.YYYY" as `datetime.strptime` with the format
    "%d.%m.%Y" does. */
module VacancyParsing {
  import opened Common
  import opened VacancyModel

  // ---------------------------------------------------------------- digits

  /** The value of a string of decimal digits. */
  function DigitsValue(s: string): nat
    requires AllDigits(s)
  {
    if s == [] then 0
    else DigitsValue(s[..|s| - 1]) * 10 + (s[|s| - 1] - '0') as nat
  }

  function DigitChar(n: nat): (c: char)
    requires n < 10
    ensures IsDigit(c) && (c - '0') as nat == n
  {
    ('0' as int + n) as char
  }

  /** `n` written with `width` digits, zero-padded on the left (the low digits of `n`
      when it does not fit). */
  function Padded(n: nat, width: nat): (r: string)
    ensures |r| == width && AllDigits(r)
  {
    if width == 0 then ""
    else Padded(n / 10, width - 1) + [DigitChar(n % 10)]
  }

  /** Padding then reading a number that fits gives the number back. */
  lemma {:induction false} PaddedValue(n: nat, width: nat)
    requires n < Pow10(width)
    ensures DigitsValue(Padded(n, width)) == n
  {
    if width > 0 {
      var r := Padded(n, width);
      assert r[..|r| - 1] == Padded(n / 10, width - 1);
      PaddedValue(n / 10, width - 1);
    }
  }

  /** Reading digits then padding to their own width gives the digits back. */
  lemma {:induction false} ValuePadded(s: string)
    requires AllDigits(s)
    ensures Padded(DigitsValue(s), |s|) == s
  {
    if s != [] {
      var n := |s| - 1;
      assert AllDigits(s[..n]);
      ValuePadded(s[..n]);
      assert s == s[..n] + [s[n]];
    }
  }

  function Pow10(k: nat): nat
  {
    if k == 0 then 1 else 10 * Pow10(k - 1)
  }

  // ---------------------------------------------------------------- integers

  /** Python's `int()` on a stripped text: an optional sign and at least one digit. */
  function ParseInt(s: string): (r: Option<int>)
    ensures r.Some? <==> (s != [] && AllDigits(s)) || (|s| >= 2 && s[0] in "+-" && AllDigits(s[1..]))
  {
    if s != [] && AllDigits(s) then Some(DigitsValue(s) as int)
    else if |s| >= 2 && s[0] in "+-" && AllDigits(s[1..]) then
      Some(if s[0] == '-' then -(DigitsValue(s[1..]) as int) else DigitsValue(s[1..]) as int)
    else None
  }

  /** The value of an accepted text: its digits' value, negated after a minus sign. */
  lemma ParseIntValue(d: string)
    requires d != [] && AllDigits(d)
    ensures ParseInt(d) == Some(DigitsValue(d) as int)
    ensures ParseInt("+" + d) == Some(DigitsValue(d) as int)
    ensures ParseInt("-" + d) == Some(-(DigitsValue(d) as int))
  {
    assert ("+" + d)[1..] == d && ("-" + d)[1..] == d;
    assert !IsDigit(("+" + d)[0]) && !IsDigit(("-" + d)[0]);
  }

  /** `int(str(n))`: a number written in decimal, with a minus sign when it is negative,
      reads back as itself. */
  lemma ParseIntOfDecimal(n: int, width: nat)
    requires width > 0 && (if n < 0 then -n else n) < Pow10(width)
    ensures ParseInt((if n < 0 then "-" else "") + Padded(if n < 0 then -n else n, width)) == Some(n)
  {
    var m := if n < 0 then -n else n;
    PaddedValue(m, width);
    ParseIntValue(Padded(m, width));
    assert "" + Padded(m, width) == Padded(m, width);
  }

  // ---------------------------------------------------------------- salary

  /** The salary pair (min, max) of a row: a blank max is none, a blank min copies the
      max, and either value failing to parse clears both. */
  function NormalizeSalary(salaryMin: string, salaryMax: string): (r: (Option<int>, Option<int>))
  {
    if salaryMax != "" && ParseInt(salaryMax).None? then (None, None)
    else
      var sMax := if salaryMax != "" then ParseInt(salaryMax) else None;
      if salaryMin != "" && ParseInt(salaryMin).None? then (None, None)
      else (if salaryMin != "" then ParseInt(salaryMin) else sMax, sMax)
  }

  /** The cases of the salary rule. */
  lemma SalaryCases(salaryMin: string, salaryMax: string)
    ensures var r := NormalizeSalary(salaryMin, salaryMax);
            var minOk := salaryMin == "" || ParseInt(salaryMin).Some?;
            var maxOk := salaryMax == "" || ParseInt(salaryMax).Some?;
            && (!minOk || !maxOk ==> r == (None, None))
            && (minOk && maxOk ==> r.1 == (if salaryMax == "" then None else ParseInt(salaryMax)))
            && (minOk && maxOk && salaryMin != "" ==> r.0 == ParseInt(salaryMin))
            && (salaryMin == "" ==> r.0 == r.1)
            && (salaryMax == "" && salaryMin == "" ==> r == (None, None))
  {
  }

  // ---------------------------------------------------------------- dates

  predicate IsLeap(year: nat)
  {
    year % 4 == 0 && (year % 100 != 0 || year % 400 == 0)
  }

  function DaysIn(month: nat, year: nat): nat
  {
    if month == 2 then (if IsLeap(year) then 29 else 28)
    else if month in {4, 6, 9, 11} then 30
    else 31
  }

  /** A day `datetime.date` accepts. */
  predicate ValidDate(d: Date)
  {
    1 <= d.year <= 9999 && 1 <= d.month <= 12 && 1 <= d.day <= DaysIn(d.month, d.year)
  }

  /** A day or month field of the format: one or two digits. */
  predicate ShortField(s: string)
  {
    1 <= |s| <= 2 && AllDigits(s)
  }

  /** `parse_date`: nothing for the empty text, for any text not of the form
      day.month.year (one or two digits, one or two digits, four digits), and for a day
      the calendar does not have. */
  function ParseDate(s: string): (r: Option<Date>)
    ensures r.Some? ==> ValidDate(r.value)
  {
    if s == "" then None
    else match SplitFirst(s, '.')
      case None => None
      case Some((d, rest)) =>
        match SplitFirst(rest, '.')
        case None => None
        case Some((m, y)) =>
          if ShortField(d) && ShortField(m) && |y| == 4 && AllDigits(y) then
            var date := Date(DigitsValue(d), DigitsValue(m), DigitsValue(y));
            if ValidDate(date) then Some(date) else None
          else None
  }

  /** The text "%d.%m.%Y" formats a valid day to. */
  function FormatDate(d: Date): string
  {
    Padded(d.day, 2) + "." + Padded(d.month, 2) + "." + Padded(d.year, 4)
  }

  /** Formatting a valid day and parsing it back gives the same day. */
  lemma {:induction false} ParseFormatRoundTrip(d: Date)
    requires ValidDate(d)
    ensures ParseDate(FormatDate(d)) == Some(d)
  {
    ParseFields(Padded(d.day, 2), Padded(d.month, 2), Padded(d.year, 4));
    PaddedValue(d.day, 2);
    PaddedValue(d.month, 2);
    PaddedValue(d.year, 4);
  }

  /** Parsing day, month and year fields of the right widths joined by dots. */
  lemma ParseFields(dd: string, mm: string, yy: string)
    requires ShortField(dd) && ShortField(mm) && |yy| == 4 && AllDigits(yy)
    ensures var date := Date(DigitsValue(dd), DigitsValue(mm), DigitsValue(yy));
            ParseDate(dd + "." + mm + "." + yy) == if ValidDate(date) then Some(date) else None
  {
    var rest := mm + "." + yy;
    assert dd + "." + mm + "." + yy == dd + "." + rest;
    assert '.' !in dd by { DigitsHaveNoDot(dd); }
    assert '.' !in mm by { DigitsHaveNoDot(mm); }
    SplitAfter(dd, rest, '.');
    SplitAfter(mm, yy, '.');
  }

  /** A parsed text in the fixed-width form DD.MM.YYYY is the formatted day. */
  lemma {:induction false} FormatParseRoundTrip(s: string)
    requires |s| == 10 && ParseDate(s).Some?
    ensures FormatDate(ParseDate(s).value) == s
  {
    var (dd, rest) := SplitFirst(s, '.').value;
    var (mm, yy) := SplitFirst(rest, '.').value;
    assert s == dd + "." + mm + "." + yy;
    assert |dd| == 2 && |mm| == 2;
    ValuePadded(dd);
    ValuePadded(mm);
    ValuePadded(yy);
  }

  lemma DigitsHaveNoDot(s: string)
    requires AllDigits(s)
    ensures '.' !in s
  {
  }

  /** Splitting `a + [c] + b` at `c`, when `a` has no `c`. */
  lemma SplitAfter(a: string, b: string, c: char)
    requires c !in a
    ensures SplitFirst(a + [c] + b, c) == Some((a, b))
  {
    var s := a + [c] + b;
    assert s[..|a|] == a;
    assert s[|a| + 1..] == b;
    SplitFirstAt(s, c, |a|);
  }

  /** Only a text of the form day.month.year (one or two digits, one or two digits, four
      digits, joined by dots) gives a day; any other text, the blank one included, gives
      nothing. */
  lemma ParseDateRejectsMalformed(s: string)
    ensures ParseDate(s).Some? ==>
              exists dd, mm, yy :: ShortField(dd) && ShortField(mm) && |yy| == 4 && AllDigits(yy)
                                   && s == dd + "." + mm + "." + yy
  {
    if ParseDate(s).Some? {
      var (dd, rest) := SplitFirst(s, '.').value;
      var (mm, yy) := SplitFirst(rest, '.').value;
      assert s == dd + "." + mm + "." + yy;
    }
  }

  /** A day past the end of its month gives nothing, even in the fixed-width form: there
      is no 30 February and no 31 April. */
  lemma {:induction false} ParseDateRejectsMissingDay(d: Date)
    requires 1 <= d.year <= 9999 && 1 <= d.month <= 12 && DaysIn(d.month, d.year) < d.day < 100
    ensures ParseDate(FormatDate(d)) == None
  {
    ParseFields(Padded(d.day, 2), Padded(d.month, 2), Padded(d.year, 4));
    PaddedValue(d.day, 2);
    PaddedValue(d.month, 2);
    PaddedValue(d.year, 4);
  }
}
