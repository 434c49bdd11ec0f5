/** The use-approval date parser `_parse_yyyymmdd` and the proleptic
    Gregorian calendar of Python's `datetime.date`. */
module Dates {
  import opened Wrappers
  import opened Text

  datatype Date = Date(year: int, month: int, day: int)

  predicate IsLeapYear(y: int) {
    y % 4 == 0 && (y % 100 != 0 || y % 400 == 0)
  }

  function DaysInMonth(y: int, m: int): (n: int)
    requires 1 <= m <= 12
    ensures 28 <= n <= 31
  {
    if m == 2 then (if IsLeapYear(y) then 29 else 28)
    else if m == 4 || m == 6 || m == 9 || m == 11 then 30
    else 31
  }

  /** What `date(y, m, d)` accepts without raising: years 1 to 9999. */
  predicate ValidDate(d: Date) {
    && 1 <= d.year <= 9999
    && 1 <= d.month <= 12
    && 1 <= d.day <= DaysInMonth(d.year, d.month)
  }

  /** Three fields written as 4 + 2 + 2 zero-padded digits. */
  function EightDigits(y: nat, m: nat, d: nat): (s: string)
    ensures |s| == 8 && AllDigits(s)
  {
    PadDigits(y, 4) + PadDigits(m, 2) + PadDigits(d, 2)
  }

  /** The eight-digit YYYYMMDD text of a date. */
  function FormatYmd(d: Date): (s: string)
    requires ValidDate(d)
    ensures |s| == 8 && AllDigits(s)
  {
    EightDigits(d.year, d.month, d.day)
  }

  /** The year, month and day fields of eight digits, 4 + 2 + 2. */
  function FieldsOf(t: string): Date
    requires |t| == 8 && AllDigits(t)
  {
    Date(DigitsValue(t[0..4]), DigitsValue(t[4..6]), DigitsValue(t[6..8]))
  }

  /** `_parse_yyyymmdd`: absent input, text that is not exactly eight digits
      once stripped, and impossible dates all give `None`. */
  function ParseYmd(s: Option<string>): (r: Option<Date>)
    ensures s.None? ==> r.None?
    ensures r.Some? ==> ValidDate(r.value) && s.Some? && FormatYmd(r.value) == Strip(s.value)
  {
    if s.None? then None
    else
      var t := Strip(s.value);
      if |t| != 8 || !AllDigits(t) then None
      else
        var d := FieldsOf(t);
        if ValidDate(d) then
          FieldsRoundTrip(t);
          Some(d)
        else None
  }

  /** Splitting eight digits into 4 + 2 + 2 and padding them back restores them. */
  lemma FieldsRoundTrip(t: string)
    requires |t| == 8 && AllDigits(t)
    ensures EightDigits(FieldsOf(t).year, FieldsOf(t).month, FieldsOf(t).day) == t
  {
    DigitsValuePad(t[0..4]);
    DigitsValuePad(t[4..6]);
    DigitsValuePad(t[6..8]);
    assert t == t[0..4] + t[4..6] + t[6..8];
  }

  /** Reading the fields of padded digits gives back the numbers padded. */
  lemma FieldsOfEightDigits(y: nat, m: nat, d: nat)
    requires y < 10000 && m < 100 && d < 100
    ensures FieldsOf(EightDigits(y, m, d)) == Date(y, m, d)
  {
    var t := EightDigits(y, m, d);
    assert t[0..4] == PadDigits(y, 4);
    assert t[4..6] == PadDigits(m, 2);
    assert t[6..8] == PadDigits(d, 2);
    assert Pow10(4) == 10000 && Pow10(2) == 100;
    PadDigitsValue(y, 4);
    PadDigitsValue(m, 2);
    PadDigitsValue(d, 2);
  }

  /** Text that strips to eight digits parses exactly when its fields form
      a valid date. */
  lemma ParseYmdOfDigits(x: string)
    requires |Strip(x)| == 8 && AllDigits(Strip(x))
    ensures ParseYmd(Some(x)) == if ValidDate(FieldsOf(Strip(x))) then Some(FieldsOf(Strip(x))) else None
  {
  }

  /** Eight padded digits, possibly surrounded by whitespace, parse exactly
      when the fields they were written from form a date, and then to that
      date. */
  lemma ParseYmdEightDigits(x: string, y: nat, m: nat, d: nat)
    requires y < 10000 && m < 100 && d < 100
    requires Strip(x) == EightDigits(y, m, d)
    ensures ParseYmd(Some(x)) == if ValidDate(Date(y, m, d)) then Some(Date(y, m, d)) else None
  {
    FieldsOfEightDigits(y, m, d);
    ParseYmdOfDigits(x);
  }

  /** Round trip: formatting then parsing is the identity on valid dates. */
  lemma ParseFormatRoundTrip(d: Date)
    requires ValidDate(d)
    ensures ParseYmd(Some(FormatYmd(d))) == Some(d)
  {
    var t := FormatYmd(d);
    assert !IsSpace(t[0]) && !IsSpace(t[7]);
    StripNoEdgeSpace(t);
    ParseYmdEightDigits(t, d.year, d.month, d.day);
  }

  /** 29 February is read only in leap years. */
  lemma ParseYmdFebruary29(y: nat)
    requires 1 <= y <= 9999
    ensures ParseYmd(Some(EightDigits(y, 2, 29))).Some? <==> IsLeapYear(y)
  {
    var t := EightDigits(y, 2, 29);
    assert !IsSpace(t[0]) && !IsSpace(t[7]);
    StripNoEdgeSpace(t);
    ParseYmdEightDigits(t, y, 2, 29);
  }

  /** No month above 12 is read. */
  lemma ParseYmdRejectsMonthAbove12(y: nat, m: nat, d: nat)
    requires y < 10000 && 12 < m < 100 && d < 100
    ensures ParseYmd(Some(EightDigits(y, m, d))) == None
  {
    var t := EightDigits(y, m, d);
    assert !IsSpace(t[0]) && !IsSpace(t[7]);
    StripNoEdgeSpace(t);
    ParseYmdEightDigits(t, y, m, d);
  }

  /** Year 0000 is before `date.min`, so it is never read. */
  lemma ParseYmdRejectsYear0(m: nat, d: nat)
    requires m < 100 && d < 100
    ensures ParseYmd(Some(EightDigits(0, m, d))) == None
  {
    var t := EightDigits(0, m, d);
    assert !IsSpace(t[0]) && !IsSpace(t[7]);
    StripNoEdgeSpace(t);
    ParseYmdEightDigits(t, 0, m, d);
  }

  /** Text of any length other than eight once stripped is refused. */
  lemma ParseYmdRejectsOtherLengths(x: string)
    requires |Strip(x)| != 8
    ensures ParseYmd(Some(x)) == None
  {
  }
}
