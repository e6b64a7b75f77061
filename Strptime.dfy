/**
 * `datetime.strptime(v, "%Y-%m-%d")` as the validator of `StructuredOutput.date`
 * uses it. Python compiles the format into the regular expression
 *
 *   (\d\d\d\d) - (1[0-2]|0[1-9]|[1-9]) - (3[01]|[12]\d|0[1-9]|[1-9]| [1-9])
 *
 * matched at the start of the string, where the first alternative that lets the
 * rest of the pattern match wins; it then refuses any unconverted characters
 * left after the match, and finally builds the calendar date, which fails for
 * year 0 and for a day past the end of its month.
 */
module Strptime {
  import opened Wrappers
  import opened PyText

  datatype Date = Date(year: int, month: int, day: int)

  /** Proleptic Gregorian leap years, as Python's `datetime` uses. */
  predicate IsLeapYear(y: int) {
    y % 4 == 0 && (y % 100 != 0 || y % 400 == 0)
  }

  function DaysInMonth(y: int, m: int): (n: int)
    requires 1 <= m <= 12
    ensures 28 <= n <= 31
    ensures m == 2 ==> (n == 29 <==> IsLeapYear(y))
  {
    if m == 2 then (if IsLeapYear(y) then 29 else 28)
    else if m == 4 || m == 6 || m == 9 || m == 11 then 30
    else 31
  }

  /** A date `datetime.date(year, month, day)` accepts (MINYEAR 1 to MAXYEAR 9999). */
  predicate IsCalendarDate(d: Date) {
    1 <= d.year <= 9999 && 1 <= d.month <= 12 && 1 <= d.day <= DaysInMonth(d.year, d.month)
  }

  /** Two decimal digits, zero-padded. */
  function TwoDigitText(n: int): (t: string)
    requires 0 <= n <= 99
    ensures |t| == 2
  {
    [DigitChar(n / 10), DigitChar(n % 10)]
  }

  /** Four decimal digits, zero-padded. */
  function FourDigitText(n: int): (t: string)
    requires 0 <= n <= 9999
    ensures |t| == 4
  {
    [DigitChar(n / 1000), DigitChar(n / 100 % 10), DigitChar(n / 10 % 10), DigitChar(n % 10)]
  }

  /** Reading two digits and writing the value back gives the same two digits. */
  lemma TwoDigitTextOfDigits(a: char, b: char)
    requires IsDigit(a) && IsDigit(b)
    ensures TwoDigitText(10 * DigitValue(a) + DigitValue(b)) == [a, b]
  {
    var n := 10 * DigitValue(a) + DigitValue(b);
    assert n / 10 == DigitValue(a) && n % 10 == DigitValue(b);
    DigitCharOfValue(a);
    DigitCharOfValue(b);
  }

  predicate IsYearText(t: string) {
    |t| == 4 && IsDigit(t[0]) && IsDigit(t[1]) && IsDigit(t[2]) && IsDigit(t[3])
  }

  function YearValue(t: string): (n: int)
    requires IsYearText(t)
    ensures 0 <= n <= 9999
  {
    1000 * DigitValue(t[0]) + 100 * DigitValue(t[1]) + 10 * DigitValue(t[2]) + DigitValue(t[3])
  }

  /** The spellings of a month that the `%m` group accepts: "07" or "7", "12". */
  function MonthSpellings(m: int): set<string>
    requires 1 <= m <= 12
  {
    {TwoDigitText(m)} + (if m <= 9 then {[DigitChar(m)]} else {})
  }

  /** The spellings of a day that the `%d` group accepts: "05", "5" or " 5", "28". */
  function DaySpellings(d: int): set<string>
    requires 1 <= d <= 31
  {
    {TwoDigitText(d)} + (if d <= 9 then {[DigitChar(d)], [' ', DigitChar(d)]} else {})
  }

  /** A group matched at the start of a string: its numeric value and its length. */
  datatype Token = Token(value: int, length: nat)

  /** The first two characters of `s`, both digits, are the two-digit text of their value. */
  lemma LeadingTwoDigits(s: string)
    requires |s| >= 2 && IsDigit(s[0]) && IsDigit(s[1])
    ensures s[..2] == TwoDigitText(10 * DigitValue(s[0]) + DigitValue(s[1]))
  {
    TwoDigitTextOfDigits(s[0], s[1]);
    assert s[..2] == [s[0], s[1]];
  }

  /** The `%d` group at the start of `s`, trying its alternatives in order. */
  function MatchDay(s: string): (r: Option<Token>)
    ensures r.Some? ==> 1 <= r.value.value <= 31 && 1 <= r.value.length <= |s| && r.value.length <= 2
    ensures r.Some? ==> s[..r.value.length] in DaySpellings(r.value.value)
  {
    if |s| >= 2 && s[0] == '3' && (s[1] == '0' || s[1] == '1') then
      LeadingTwoDigits(s);
      Some(Token(10 * DigitValue(s[0]) + DigitValue(s[1]), 2))
    else if |s| >= 2 && (s[0] == '1' || s[0] == '2') && IsDigit(s[1]) then
      LeadingTwoDigits(s);
      Some(Token(10 * DigitValue(s[0]) + DigitValue(s[1]), 2))
    else if |s| >= 2 && s[0] == '0' && IsDigit(s[1]) && s[1] != '0' then
      LeadingTwoDigits(s);
      Some(Token(10 * DigitValue(s[0]) + DigitValue(s[1]), 2))
    else if |s| >= 1 && IsDigit(s[0]) && s[0] != '0' then
      assert s[..1] == [DigitChar(DigitValue(s[0]))];
      Some(Token(DigitValue(s[0]), 1))
    else if |s| >= 2 && s[0] == ' ' && IsDigit(s[1]) && s[1] != '0' then
      assert s[..2] == [' ', DigitChar(DigitValue(s[1]))];
      Some(Token(DigitValue(s[1]), 2))
    else
      None
  }

  /** The literal "-" followed by the `%d` group, at the start of `s`. */
  function MatchDashDay(s: string): (r: Option<Token>)
    ensures r.Some? ==> 1 <= r.value.value <= 31 && 2 <= r.value.length + 1 <= |s| && r.value.length <= 2
    ensures r.Some? ==> s[0] == '-' && s[1..r.value.length + 1] in DaySpellings(r.value.value)
  {
    if |s| >= 1 && s[0] == '-' then
      var d := MatchDay(s[1..]);
      if d.Some? then
        assert s[1..][..d.value.length] == s[1..d.value.length + 1];
        d
      else None
    else None
  }

  /** `s` starts with the month spelled as `m` says, a dash, and the day spelled as `d` says. */
  predicate SpellsMonthDashDay(s: string, m: Token, d: Token) {
    1 <= m.value <= 12 && 1 <= d.value <= 31 &&
    1 <= m.length <= 2 && 1 <= d.length <= 2 &&
    m.length + 1 + d.length <= |s| &&
    s[..m.length] in MonthSpellings(m.value) && s[m.length] == '-' &&
    s[m.length + 1 .. m.length + 1 + d.length] in DaySpellings(d.value)
  }

  /** A month spelling followed by a matched "-" and day. */
  lemma MonthThenDashDay(s: string, m: Token)
    requires 1 <= m.value <= 12 && 1 <= m.length <= 2 && m.length <= |s|
    requires s[..m.length] in MonthSpellings(m.value)
    requires MatchDashDay(s[m.length..]).Some?
    ensures SpellsMonthDashDay(s, m, MatchDashDay(s[m.length..]).value)
  {
    var d := MatchDashDay(s[m.length..]).value;
    assert s[m.length..][1..d.length + 1] == s[m.length + 1 .. m.length + 1 + d.length];
  }

  /**
   * The `%m` group, "-" and the `%d` group at the start of `s`: a month
   * alternative is kept only when the rest of the pattern matches after it.
   */
  function MatchMonthDashDay(s: string): (r: Option<(Token, Token)>)
    ensures r.Some? ==> SpellsMonthDashDay(s, r.value.0, r.value.1)
  {
    if |s| >= 2 && s[0] == '1' && '0' <= s[1] <= '2' && MatchDashDay(s[2..]).Some? then
      var m := Token(10 * DigitValue(s[0]) + DigitValue(s[1]), 2);
      LeadingTwoDigits(s);
      MonthThenDashDay(s, m);
      Some((m, MatchDashDay(s[2..]).value))
    else if |s| >= 2 && s[0] == '0' && IsDigit(s[1]) && s[1] != '0' && MatchDashDay(s[2..]).Some? then
      var m := Token(10 * DigitValue(s[0]) + DigitValue(s[1]), 2);
      LeadingTwoDigits(s);
      MonthThenDashDay(s, m);
      Some((m, MatchDashDay(s[2..]).value))
    else if |s| >= 1 && IsDigit(s[0]) && s[0] != '0' && MatchDashDay(s[1..]).Some? then
      var m := Token(DigitValue(s[0]), 1);
      assert s[..1] == [DigitChar(DigitValue(s[0]))];
      MonthThenDashDay(s, m);
      Some((m, MatchDashDay(s[1..]).value))
    else
      None
  }

  /** A successful parse: the date and the month and day exactly as spelled. */
  datatype DateParse = DateParse(date: Date, monthText: string, dayText: string)

  /**
   * `datetime.strptime(v, "%Y-%m-%d")`: `None` where Python raises ValueError.
   * A parse is always a real calendar date, and `v` is exactly its year, a
   * dash, an accepted spelling of its month, a dash and an accepted spelling
   * of its day, with nothing after it.
   */
  function ParseDate(v: string): (r: Option<DateParse>)
    ensures r.Some? ==> IsCalendarDate(r.value.date)
    ensures r.Some? ==> 8 <= |v| <= 10
    ensures r.Some? ==>
      IsYearText(v[..4]) && YearValue(v[..4]) == r.value.date.year &&
      r.value.monthText in MonthSpellings(r.value.date.month) &&
      r.value.dayText in DaySpellings(r.value.date.day) &&
      v == v[..4] + "-" + r.value.monthText + "-" + r.value.dayText
  {
    if |v| < 5 || !IsYearText(v[..4]) || v[4] != '-' then None
    else
      var tokens := MatchMonthDashDay(v[5..]);
      if tokens.None? then None
      else
        var (m, d) := tokens.value;
        var dayStart := 5 + m.length + 1;
        if dayStart + d.length != |v| then None  // unconverted data remains
        else
          var date := Date(YearValue(v[..4]), m.value, d.value);
          if !IsCalendarDate(date) then None
          else
            DateTextSplit(v, m, d);
            Some(DateParse(date, v[5..5 + m.length], v[dayStart..]))
  }

  /** A year, a dash and a matched month, dash and day that end the string, cut into their texts. */
  lemma DateTextSplit(v: string, m: Token, d: Token)
    requires |v| >= 5 && v[4] == '-'
    requires SpellsMonthDashDay(v[5..], m, d) && 5 + m.length + 1 + d.length == |v|
    ensures v[5..5 + m.length] in MonthSpellings(m.value)
    ensures v[5 + m.length + 1..] in DaySpellings(d.value)
    ensures v == v[..4] + "-" + v[5..5 + m.length] + "-" + v[5 + m.length + 1..]
  {
    assert v[5..][..m.length] == v[5..5 + m.length];
    assert v[5..][m.length + 1 .. m.length + 1 + d.length] == v[5 + m.length + 1..];
    assert v[5..][m.length] == v[5 + m.length];
  }

  /** Every accepted spelling of a day is matched in full by the `%d` group. */
  lemma DaySpellingMatches(d: int, t: string)
    requires 1 <= d <= 31 && t in DaySpellings(d)
    ensures MatchDay(t) == Some(Token(d, |t|))
  {
    if t == TwoDigitText(d) {
      assert DigitValue(t[0]) == d / 10 && DigitValue(t[1]) == d % 10;
    }
  }

  /** Every accepted spelling of a month, a dash and a day is matched in full. */
  lemma MonthDashDaySpellingMatches(m: int, mt: string, d: int, dt: string)
    requires 1 <= m <= 12 && mt in MonthSpellings(m)
    requires 1 <= d <= 31 && dt in DaySpellings(d)
    ensures MatchMonthDashDay(mt + "-" + dt) == Some((Token(m, |mt|), Token(d, |dt|)))
  {
    var s := mt + "-" + dt;
    DaySpellingMatches(d, dt);
    assert s[|mt|..] == "-" + dt;
    assert ("-" + dt)[1..] == dt;
    assert MatchDashDay(s[|mt|..]) == Some(Token(d, |dt|));
    if mt == TwoDigitText(m) {
      assert DigitValue(s[0]) == m / 10 && DigitValue(s[1]) == m % 10;
    } else {
      // a one-digit month: the two-digit alternatives fail because s[1] is the dash
      assert |mt| == 1 && s[1] == '-';
    }
  }

  lemma YearValueOfFourDigitText(y: int)
    requires 0 <= y <= 9999
    ensures IsYearText(FourDigitText(y)) && YearValue(FourDigitText(y)) == y
  {
    var q1 := y / 10;
    var q2 := q1 / 10;
    assert y == 10 * q1 + y % 10;
    assert q1 == 10 * q2 + q1 % 10;
    assert q2 == 10 * (y / 1000) + q2 % 10;
    assert y / 100 == q2;
  }

  /**
   * Conversely to the contract of ParseDate: every calendar date, written
   * with four year digits and any accepted spelling of its month and day,
   * parses back to that date and those spellings.
   */
  lemma SpelledDateParses(d: Date, yt: string, mt: string, dt: string)
    requires IsCalendarDate(d)
    requires IsYearText(yt) && YearValue(yt) == d.year
    requires mt in MonthSpellings(d.month) && dt in DaySpellings(d.day)
    ensures ParseDate(yt + "-" + mt + "-" + dt) == Some(DateParse(d, mt, dt))
  {
    var v := yt + "-" + mt + "-" + dt;
    assert v[..4] == yt;
    assert v[5..] == mt + "-" + dt;
    MonthDashDaySpellingMatches(d.month, mt, d.day, dt);
    assert v[5..5 + |mt|] == mt;
    assert v[5 + |mt| + 1..] == dt;
  }

  /** The "YYYY-MM-DD" form of a calendar date. */
  function IsoDate(d: Date): (t: string)
    requires IsCalendarDate(d)
    ensures |t| == 10
  {
    FourDigitText(d.year) + "-" + TwoDigitText(d.month) + "-" + TwoDigitText(d.day)
  }

  /** Round trip: the ISO form of every calendar date parses back to it. */
  lemma IsoDateRoundTrip(d: Date)
    requires IsCalendarDate(d)
    ensures ParseDate(IsoDate(d)).Some? && ParseDate(IsoDate(d)).value.date == d
  {
    YearValueOfFourDigitText(d.year);
    SpelledDateParses(d, FourDigitText(d.year), TwoDigitText(d.month), TwoDigitText(d.day));
  }

  /** The two-digit text of a number reads back as that number. */
  lemma TwoDigitTextValue(n: int)
    requires 0 <= n <= 99
    ensures 10 * DigitValue(TwoDigitText(n)[0]) + DigitValue(TwoDigitText(n)[1]) == n
  {
  }

  /**
   * The leap-day case of the calendar check: February 29 of a year parses
   * exactly when the year is a Gregorian leap year.
   */
  lemma LeapDayParses(y: int)
    requires 1 <= y <= 9999
    ensures ParseDate(FourDigitText(y) + "-02-29").Some? <==> IsLeapYear(y)
  {
    if IsLeapYear(y) {
      LeapDayAccepted(y);
    } else {
      LeapDayOnlyInLeapYears(y);
    }
  }

  lemma LeapDayAccepted(y: int)
    requires 1 <= y <= 9999 && IsLeapYear(y)
    ensures ParseDate(FourDigitText(y) + "-02-29").Some?
  {
    var yt := FourDigitText(y);
    YearValueOfFourDigitText(y);
    assert TwoDigitText(2) == "02" && TwoDigitText(29) == "29";
    SpelledDateParses(Date(y, 2, 29), yt, "02", "29");
    assert yt + "-" + "02" + "-" + "29" == yt + "-02-29";
  }

  lemma LeapDayOnlyInLeapYears(y: int)
    requires 1 <= y <= 9999
    ensures ParseDate(FourDigitText(y) + "-02-29").Some? ==> IsLeapYear(y)
  {
    var v := FourDigitText(y) + "-02-29";
    var r := ParseDate(v);
    if r.Some? {
      var p := r.value;
      YearValueOfFourDigitText(y);
      assert |p.monthText| == 2 && |p.dayText| == 2;
      assert p.monthText == v[5..7] == "02";
      assert p.dayText == v[8..] == "29";
      TwoDigitTextValue(p.date.month);
      TwoDigitTextValue(p.date.day);
    }
  }
}
