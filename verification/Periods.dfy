/** Reporting periods: calendar units, ISO weeks and their labels (`report/period.rs`). */
module Periods {
  import opened Calendar
  import opened Options

  /** Inclusive range of days. */
  datatype Period = Period(start: Date, end: Date) {
    predicate Contains(d: Date) { start <= d <= end }

    function Days(): int { end - start + 1 }

    /** The period of the same length immediately after this one. */
    function Next(): Period { Period(end + 1, end + Days()) }
  }

  /** `Period::new`. */
  function New(start: Date, end: Date): Option<Period> {
    if end < start then None else Some(Period(start, end))
  }

  function Day(d: Date): Period { Period(d, d) }

  function IsoWeekOf(d: Date): Period {
    IsoWeekFound(d);
    var start := FromIsoWeek(IsoYear(d), IsoWeek(d)).value;
    Period(start, start + 6)
  }

  function MonthOf(d: Date): Period {
    DaysBeforeStep(Month(d), Leap(Year(d)));
    var start := FromYmd(Year(d), Month(d), 1).value;
    FirstOfMonth(start);
    var next := if Month(start) == 12 then FromYmd(Year(start) + 1, 1, 1).value else FromYmd(Year(start), Month(start) + 1, 1).value;
    Period(start, next - 1)
  }

  /** The next month has a first day, as `month_of` expects. */
  lemma FirstOfMonth(d: Date)
    ensures Month(d) == 12 ==> FromYmd(Year(d) + 1, 1, 1).Some?
    ensures Month(d) != 12 ==> FromYmd(Year(d), Month(d) + 1, 1).Some?
  {
    if Month(d) != 12 { DaysBeforeStep(Month(d) + 1, Leap(Year(d))); }
  }

  function FirstMonthOfQuarter(m: int): (first: int)
    requires 1 <= m <= 12
    ensures 1 <= first <= 10 && first <= m <= first + 2
  {
    (m - 1) / 3 * 3 + 1
  }

  function QuarterOf(d: Date): Period {
    var first := FirstMonthOfQuarter(Month(d));
    DaysBeforeStep(first, Leap(Year(d)));
    DaysBeforeStep(first + 2, Leap(Year(d)));
    Period(FromYmd(Year(d), first, 1).value, MonthOf(FromYmd(Year(d), first + 2, 1).value).end)
  }

  function YearOf(d: Date): Period {
    Period(FromYmd(Year(d), 1, 1).value, FromYmd(Year(d), 12, 31).value)
  }

  // ------------------------------------------------------- the units tile the days

  /** Every date is in its own unit, and all dates of a unit have that same unit. */
  ghost predicate Tiles(unit: Date -> Period) {
    forall d :: unit(d).Contains(d) && forall e | unit(d).Contains(e) :: unit(e) == unit(d)
  }

  lemma MonthOfIs(d: Date)
    ensures MonthOf(d) == Period(MonthStart(MonthIndex(d)), MonthStart(MonthIndex(d) + 1) - 1)
  {
    hide YearStart, MonthStart, DaysBefore, Year, Month, FromYmd, MonthLength, Leap;
    var y, m := Year(d), Month(d);
    FirstDay(y, m);
    CivilUnique(y, m, 1);
    if m == 12 { FirstDay(y + 1, 1); } else { FirstDay(y, m + 1); }
  }

  lemma {:induction false} MonthsTile()
    ensures Tiles(MonthOf)
  {
    hide MonthStart, MonthIndex, MonthOf;
    forall d ensures MonthOf(d).Contains(d) && forall e | MonthOf(d).Contains(e) :: MonthOf(e) == MonthOf(d) {
      MonthIs(d);
      MonthOfIs(d);
      forall e | MonthOf(d).Contains(e) ensures MonthOf(e) == MonthOf(d) {
        MonthUnique(e, MonthIndex(d));
        MonthOfIs(e);
      }
    }
  }

  /** Number of the quarter a date is in. */
  /** How long a month is. */
  lemma {:induction false} MonthLengthExactly(d: Date)
    ensures var y := Year(d);
            MonthOf(d).Days() ==
            if Month(d) in {4, 6, 9, 11} then 30
            else if Month(d) != 2 then 31
            else if y % 400 == 0 || (y % 4 == 0 && y % 100 != 0) then 29 else 28
  {
    hide Year, Month;
    MonthOfIs(d);
    MonthStep(Year(d), Month(d));
  }

  lemma MonthStep(y: int, m: int)
    requires 1 <= m <= 12
    ensures var n := 12 * (y - 1) + m - 1;
            MonthStart(n + 1) - MonthStart(n) ==
            if m in {4, 6, 9, 11} then 30
            else if m != 2 then 31
            else if y % 400 == 0 || (y % 4 == 0 && y % 100 != 0) then 29 else 28
  {
    hide YearStart;
    IndexParts(y, m);
    if m == 12 {
      IndexParts(y + 1, 1);
      YearStartStep(y);
    } else {
      IndexParts(y, m + 1);
    }
  }

  function QuarterIndex(d: Date): int { MonthIndex(d) / 3 }

  lemma QuarterArithmetic(y: int, m: int)
    requires 1 <= m <= 12
    ensures 12 * (y - 1) + FirstMonthOfQuarter(m) - 1 == 3 * ((12 * (y - 1) + m - 1) / 3)
  {
  }

  lemma QuarterInYear(y: int, m: int)
    requires 1 <= m <= 12
    ensures var n := (12 * (y - 1) + m - 1) / 3; 12 * (y - 1) <= 3 * n && 3 * n + 3 <= 12 * (y - 1) + 12
  {
    hide FirstMonthOfQuarter;
    QuarterArithmetic(y, m);
  }

  lemma QuarterOfIs(d: Date)
    ensures QuarterOf(d) == Period(MonthStart(3 * QuarterIndex(d)), MonthStart(3 * QuarterIndex(d) + 3) - 1)
  {
    hide YearStart, MonthStart, DaysBefore, Year, Month, MonthOf, FirstMonthOfQuarter;
    var y, first := Year(d), FirstMonthOfQuarter(Month(d));
    QuarterArithmetic(y, Month(d));
    DaysBeforeStep(first, Leap(y));
    DaysBeforeStep(first + 2, Leap(y));
    FromYmdIs(y, first, 1);
    FromYmdIndex(y, first + 2, 1);
    MonthOfIs(FromYmd(y, first + 2, 1).value);
  }

  lemma {:induction false} QuartersTile()
    ensures Tiles(QuarterOf)
  {
    hide MonthStart, MonthIndex, QuarterOf;
    forall d ensures QuarterOf(d).Contains(d) && forall e | QuarterOf(d).Contains(e) :: QuarterOf(e) == QuarterOf(d) {
      MonthIs(d);
      QuarterOfIs(d);
      MonthsInOrder(3 * QuarterIndex(d), MonthIndex(d));
      MonthsInOrder(MonthIndex(d) + 1, 3 * QuarterIndex(d) + 3);
      forall e | QuarterOf(d).Contains(e) ensures QuarterOf(e) == QuarterOf(d) {
        MonthIs(e);
        NotBoth(MonthIndex(e), 3 * QuarterIndex(d), e);
        NotBoth(3 * QuarterIndex(d) + 2, MonthIndex(e), e);
        QuarterOfIs(e);
      }
    }
  }

  lemma YearOfIs(d: Date)
    ensures YearOf(d) == Period(YearStart(Year(d)), YearStart(Year(d) + 1) - 1)
    ensures YearOf(d) == Period(MonthStart(12 * (Year(d) - 1)), MonthStart(12 * (Year(d) - 1) + 12) - 1)
  {
    hide YearStart, MonthStart, Year;
    var y := Year(d);
    IndexParts(y, 1);
    IndexParts(y + 1, 1);
    YearStartStep(y);
    DaysBeforeStep(12, Leap(y));
    DaysBeforeStep(1, Leap(y + 1));
  }

  lemma {:induction false} YearsTile()
    ensures Tiles(YearOf)
  {
    hide YearStart, Year, MonthStart, YearOf;
    forall d ensures YearOf(d).Contains(d) && forall e | YearOf(d).Contains(e) :: YearOf(e) == YearOf(d) {
      YearIs(d);
      YearOfIs(d);
      forall e | YearOf(d).Contains(e) ensures YearOf(e) == YearOf(d) {
        YearUnique(e, Year(d));
        YearOfIs(e);
      }
    }
  }

  /** The ISO week of a date: Monday to Sunday, seven days, also across New Year. */
  lemma IsoWeekOfIs(d: Date)
    ensures IsoWeekOf(d) == Period(Monday(d), Monday(d) + 6)
  {
    hide IsoYear, IsoWeek, FromIsoWeek;
    IsoWeekFound(d);
  }

  lemma SameMonday(d: Date, e: Date)
    requires Monday(d) <= e <= Monday(d) + 6
    ensures Monday(e) == Monday(d)
  {
  }

  lemma {:induction false} WeeksTile()
    ensures Tiles(IsoWeekOf)
    ensures forall d :: Weekday(IsoWeekOf(d).start) == 0 && Weekday(IsoWeekOf(d).end) == 6 && IsoWeekOf(d).Days() == 7
  {
    hide IsoWeekOf, Monday;
    forall d
      ensures IsoWeekOf(d).Contains(d) && forall e | IsoWeekOf(d).Contains(e) :: IsoWeekOf(e) == IsoWeekOf(d)
      ensures Weekday(IsoWeekOf(d).start) == 0 && Weekday(IsoWeekOf(d).end) == 6 && IsoWeekOf(d).Days() == 7
    {
      IsoWeekOfIs(d);
      MondayIs(d);
      forall e | IsoWeekOf(d).Contains(e) ensures IsoWeekOf(e) == IsoWeekOf(d) {
        SameMonday(d, e);
        IsoWeekOfIs(e);
      }
    }
  }

  /** The period after an ISO week is the next ISO week. */
  lemma {:induction false} NextWeekIs(d: Date)
    ensures IsoWeekOf(d).Next() == IsoWeekOf(IsoWeekOf(d).end + 1)
  {
    hide IsoWeekOf, Monday;
    IsoWeekOfIs(d);
    MondayIs(d);
    IsoWeekOfIs(Monday(d) + 7);
    MondayOfMonday(Monday(d) + 7);
  }

  /** A quarter is its three months, one after the other. */
  lemma {:induction false} QuarterIsThreeMonths(d: Date)
    ensures var q := QuarterOf(d);
            var a := MonthOf(q.start);
            var b := MonthOf(a.end + 1);
            var c := MonthOf(b.end + 1);
            a.start == q.start && c.end == q.end
  {
    hide MonthStart, MonthIndex, QuarterOf, MonthOf, QuarterIndex;
    var n := 3 * QuarterIndex(d);
    QuarterOfIs(d);
    MonthAt(n);
    MonthAt(n + 1);
    MonthAt(n + 2);
  }

  lemma MonthAt(n: int)
    ensures MonthIndex(MonthStart(n)) == n && MonthOf(MonthStart(n)) == Period(MonthStart(n), MonthStart(n + 1) - 1)
  {
    hide MonthStart, MonthIndex, MonthOf;
    MonthStartStep(n);
    MonthUnique(MonthStart(n), n);
    MonthOfIs(MonthStart(n));
  }

  lemma QuarterAt(n: int)
    ensures QuarterOf(MonthStart(3 * n)) == Period(MonthStart(3 * n), MonthStart(3 * n + 3) - 1)
  {
    hide MonthStart, MonthIndex, QuarterOf;
    MonthAt(3 * n);
    QuarterOfIs(MonthStart(3 * n));
    assert QuarterIndex(MonthStart(3 * n)) == n;
  }

  /** A year is its four quarters, one after the other. */
  lemma {:induction false} YearIsFourQuarters(d: Date)
    ensures var y := YearOf(d);
            var a := QuarterOf(y.start);
            var b := QuarterOf(a.end + 1);
            var c := QuarterOf(b.end + 1);
            var e := QuarterOf(c.end + 1);
            a.start == y.start && e.end == y.end
  {
    hide MonthStart, YearStart, Year, YearOf, QuarterOf;
    var n := 4 * (Year(d) - 1);
    YearOfIs(d);
    QuarterAt(n);
    QuarterAt(n + 1);
    QuarterAt(n + 2);
    QuarterAt(n + 3);
  }

  /** Units of one kind lie inside units of the other. */
  ghost predicate Refines(fine: Date -> Period, coarse: Date -> Period) {
    forall d :: coarse(d).start <= fine(d).start && fine(d).end <= coarse(d).end
  }

  lemma MonthsRefineQuarters()
    ensures Refines(MonthOf, QuarterOf)
  {
    hide MonthStart, MonthIndex, QuarterOf, MonthOf;
    forall d ensures QuarterOf(d).start <= MonthOf(d).start && MonthOf(d).end <= QuarterOf(d).end {
      MonthOfIs(d);
      QuarterOfIs(d);
      MonthsInOrder(3 * QuarterIndex(d), MonthIndex(d));
      MonthsInOrder(MonthIndex(d) + 1, 3 * QuarterIndex(d) + 3);
    }
  }

  lemma QuartersRefineYears()
    ensures Refines(QuarterOf, YearOf)
  {
    hide MonthStart, QuarterOf, YearOf, Year, Month;
    forall d ensures YearOf(d).start <= QuarterOf(d).start && QuarterOf(d).end <= YearOf(d).end {
      YearOfIs(d);
      QuarterOfIs(d);
      var n := QuarterIndex(d);
      QuarterInYear(Year(d), Month(d));
      MonthsInOrder(12 * (Year(d) - 1), 3 * n);
      MonthsInOrder(3 * n + 3, 12 * (Year(d) - 1) + 12);
    }
  }

  // -------------------------------------------------------------------- parsing

  /** `split_once`. */
  function SplitOnce(s: string, sep: string): Option<(string, string)> {
    if |s| < |sep| then None
    else if s[..|sep|] == sep then Some(("", s[|sep|..]))
    else if s == "" then None
    else
      match SplitOnce(s[1..], sep)
      case None => None
      case Some(parts) => Some(([s[0]] + parts.0, parts.1))
  }

  predicate IsDigit(c: char) { '0' <= c <= '9' }

  predicate AllDigits(s: string) { forall c | c in s :: IsDigit(c) }

  function Number(s: string): nat
    requires AllDigits(s)
  {
    if s == "" then 0
    else
      assert s[|s| - 1] in s;
      10 * Number(s[..|s| - 1]) + (s[|s| - 1] as int - '0' as int)
  }

  /** `parse::<u32>`: digits, with an optional `+`. */
  function ParseUnsigned(s: string): Option<int> {
    var digits := if s != "" && s[0] == '+' then s[1..] else s;
    if digits != "" && AllDigits(digits) then Some(Number(digits)) else None
  }

  /** `parse::<i32>`: digits, with an optional sign. */
  function ParseSigned(s: string): Option<int> {
    if s != "" && s[0] == '-' then
      if s[1..] != "" && AllDigits(s[1..]) then Some(0 - Number(s[1..])) else None
    else ParseUnsigned(s)
  }

  function ParseIsoWeek(s: string): Option<Period> {
    match SplitOnce(s, "-W")
    case None => None
    case Some((year, week)) =>
      if |year| != 4 || |week| != 2 then None
      else
        match (ParseSigned(year), ParseUnsigned(week))
        case (Some(y), Some(w)) =>
          (match FromIsoWeek(y, w)
           case None => None
           case Some(start) => Some(Period(start, start + 6)))
        case _ => None
  }

  function ParseQuarter(s: string): Option<Period> {
    match SplitOnce(s, "-Q")
    case None => None
    case Some((year, quarter)) =>
      if |year| != 4 || |quarter| != 1 then None
      else
        match (ParseSigned(year), ParseUnsigned(quarter))
        case (Some(y), Some(q)) =>
          if !(1 <= q <= 4) then None
          else
            DaysBeforeStep((q - 1) * 3 + 1, Leap(y));
            Some(QuarterOf(FromYmd(y, (q - 1) * 3 + 1, 1).value))
        case _ => None
  }

  function ParseYear(s: string): Option<Period> {
    if |s| != 4 || !AllDigits(s) then None else Some(YearOf(FromYmd(Number(s), 1, 1).value))
  }

  function ParseMonth(s: string): Option<Period> {
    match SplitOnce(s, "-")
    case None => None
    case Some((year, month)) =>
      if |year| != 4 || |month| != 2 then None
      else
        match (ParseSigned(year), ParseUnsigned(month))
        case (Some(y), Some(m)) =>
          (match FromYmd(y, m, 1)
           case None => None
           case Some(first) => Some(MonthOf(first)))
        case _ => None
  }

  /** `Period::parse` of a trimmed text; `parseDate` reads `YYYY-MM-DD`. */
  function Parse(s: string, parseDate: string -> Option<Date>): Option<Period> {
    match SplitOnce(s, "..")
    case Some((from, to)) =>
      (match (parseDate(from), parseDate(to))
       case (Some(a), Some(b)) => New(a, b)
       case _ => None)
    case None =>
      if ParseIsoWeek(s).Some? then ParseIsoWeek(s)
      else if parseDate(s).Some? then Some(Day(parseDate(s).value))
      else if ParseQuarter(s).Some? then ParseQuarter(s)
      else ParseYear(s)
  }

  /** Whatever is parsed has its start on or before its end. */
  lemma {:induction false} ParsedIsOrdered(s: string, parseDate: string -> Option<Date>)
    ensures Parse(s, parseDate).Some? ==> Parse(s, parseDate).value.start <= Parse(s, parseDate).value.end
  {
    hide QuarterOf, YearOf, FromYmd, FromIsoWeek, SplitOnce, ParseSigned, ParseUnsigned;
    QuartersTile();
    YearsTile();
  }

  /** A text with neither range nor week separator that reads as a date is that one day. */
  lemma {:induction false} DayExactly(s: string, parseDate: string -> Option<Date>)
    requires '.' !in s && 'W' !in s && parseDate(s).Some?
    ensures Parse(s, parseDate) == Some(Period(parseDate(s).value, parseDate(s).value))
  {
    NoSeparator(s, "..", '.');
    NoSeparator(s, "-W", 'W');
  }

  /** A number may carry a plus sign, a signed one a minus sign. */
  lemma SignsAreRead(digits: string)
    requires digits != "" && AllDigits(digits)
    ensures ParseUnsigned(digits) == ParseUnsigned("+" + digits) == Some(Number(digits))
    ensures ParseSigned(digits) == ParseSigned("+" + digits) == Some(Number(digits))
    ensures ParseSigned("-" + digits) == Some(0 - Number(digits)) && ParseUnsigned("-" + digits) == None
  {
    assert digits[0] in digits;
    assert ("+" + digits)[1..] == digits && ("-" + digits)[1..] == digits;
    assert ("-" + digits)[0] in "-" + digits;
  }

  /** A range is read from the two dates around its first `..`, which may be equal but not reversed. */
  lemma {:induction false} RangeExactly(from: string, to: string, parseDate: string -> Option<Date>)
    requires '.' !in from
    ensures var period := Parse(from + ".." + to, parseDate);
            period == if parseDate(from).Some? && parseDate(to).Some? && parseDate(from).value <= parseDate(to).value
                      then Some(Period(parseDate(from).value, parseDate(to).value)) else None
  {
    var s := from + ".." + to;
    forall i | 0 <= i < |from| ensures s[i..][..2] != ".." {
      assert s[i..][..2][0] == from[i] && from[i] in from;
    }
    SplitAt(from, "..", to);
  }

  // --------------------------------------------------------------------- labels

  function Decimal(n: nat): (s: string)
    ensures AllDigits(s) && s != ""
  {
    (if n < 10 then "" else Decimal(n / 10)) + [('0' as int + n % 10) as char]
  }

  function Signed(n: int): string { if n < 0 then "-" + Decimal(-n) else Decimal(n) }

  /** `{:02}`. */
  function TwoDigits(n: nat): string { if n < 10 then "0" + Decimal(n) else Decimal(n) }

  /** The label of an ISO week, as the report prints it. */
  function WeekLabel(d: Date): string {
    IsoWeekFound(d);
    Signed(IsoYear(d)) + "-W" + TwoDigits(IsoWeek(d))
  }

  function QuarterLabel(d: Date): string {
    Signed(Year(d)) + "-Q" + Decimal((Month(d) - 1) / 3 + 1)
  }

  lemma {:induction false} NumberOfDecimal(n: nat)
    ensures Number(Decimal(n)) == n
  {
    if n >= 10 { NumberOfDecimal(n / 10); }
  }

  lemma SignedParses(n: int)
    ensures ParseSigned(Signed(n)) == Some(n)
  {
    NumberOfDecimal(if n < 0 then -n else n);
    if n < 0 { assert Signed(n)[1..] == Decimal(-n); } else { assert Decimal(n)[0] in Decimal(n); }
  }

  lemma DigitsParse(s: string)
    requires s != "" && AllDigits(s)
    ensures ParseUnsigned(s) == Some(Number(s))
  {
    assert s[0] in s;
  }

  lemma LeadingZero(s: string)
    requires |s| == 1 && AllDigits(s)
    ensures AllDigits("0" + s) && Number("0" + s) == Number(s)
  {
    var t := "0" + s;
    assert t[..1] == "0" && "0"[..0] == "" && s[..0] == "";
    assert Number("0") == 0 && t[1] == s[0];
  }

  lemma TwoDigitsParse(n: nat)
    requires n < 100
    ensures ParseUnsigned(TwoDigits(n)) == Some(n) && |TwoDigits(n)| == 2
  {
    hide Number, Decimal, ParseUnsigned, AllDigits;
    NumberOfDecimal(n);
    DecimalLength(n);
    if n < 10 { LeadingZero(Decimal(n)); }
    DigitsParse(TwoDigits(n));
  }

  lemma {:induction false} SplitAt(a: string, sep: string, b: string)
    requires sep != "" && forall i | 0 <= i < |a| :: (a + sep + b)[i..][..|sep|] != sep
    ensures SplitOnce(a + sep + b, sep) == Some((a, b))
  {
    var s := a + sep + b;
    if a == "" {
      assert s[..|sep|] == sep && s[|sep|..] == b;
    } else {
      assert s[0..][..|sep|] == s[..|sep|];
      assert s[1..] == a[1..] + sep + b;
      forall i | 0 <= i < |a[1..]| ensures (a[1..] + sep + b)[i..][..|sep|] != sep {
        assert s[1..][i..] == s[i + 1..];
      }
      SplitAt(a[1..], sep, b);
      assert [a[0]] + a[1..] == a;
    }
  }

  lemma DecimalLength(n: nat)
    ensures |Decimal(n)| == 1 <==> n < 10
    ensures |Decimal(n)| == 2 <==> 10 <= n < 100
    ensures |Decimal(n)| == 3 <==> 100 <= n < 1000
    ensures |Decimal(n)| == 4 <==> 1000 <= n < 10000
  {
    if n >= 10 {
      assert |Decimal(n)| == |Decimal(n / 10)| + 1;
      DecimalLength(n / 10);
    }
  }

  /** The years that print with four characters. */
  predicate FourCharacters(y: int) { 1000 <= y <= 9999 || -999 <= y <= -100 }

  lemma SignedLength(y: int)
    ensures |Signed(y)| == 4 <==> FourCharacters(y)
  {
    DecimalLength(if y < 0 then -y else y);
  }

  /** A separator that starts with `-` and a letter is found right after the printed year. */
  lemma SplitAfterYear(y: int, c: char, rest: string)
    requires !IsDigit(c)
    ensures SplitOnce(Signed(y) + ['-', c] + rest, ['-', c]) == Some((Signed(y), rest))
  {
    var a, sep := Signed(y), ['-', c];
    var s := a + sep + rest;
    forall i | 0 <= i < |a| ensures s[i..][..|sep|] != sep {
      assert s[i..][..|sep|][0] == a[i];
      if i == 0 && y < 0 {
        assert a[1] in Decimal(-y);
        assert s[i..][..|sep|][1] == a[1];
      } else {
        assert a[i] in Decimal(if y < 0 then -y else y);
      }
    }
    SplitAt(a, sep, rest);
  }

  /** The label of a date's ISO week parses back to that week exactly when its ISO year
      prints with four characters. */
  lemma {:induction false} WeekLabelParses(d: Date)
    ensures ParseIsoWeek(WeekLabel(d)) == Some(IsoWeekOf(d)) <==> FourCharacters(IsoYear(d))
  {
    hide IsoYear, IsoWeek, FromIsoWeek, Signed, TwoDigits, ParseSigned, ParseUnsigned, SplitOnce;
    var y, w := IsoYear(d), IsoWeek(d);
    IsoWeekFound(d);
    SplitAfterYear(y, 'W', TwoDigits(w));
    assert ['-', 'W'] == "-W";
    SignedLength(y);
    SignedParses(y);
    TwoDigitsParse(w);
  }

  /** The same for the label of a quarter. */
  lemma {:induction false} QuarterLabelParses(d: Date)
    ensures ParseQuarter(QuarterLabel(d)) == Some(QuarterOf(d)) <==> FourCharacters(Year(d))
  {
    hide Year, Month, QuarterOf, FromYmd, Signed, Decimal, ParseSigned, ParseUnsigned, SplitOnce;
    var y, q := Year(d), (Month(d) - 1) / 3 + 1;
    SplitAfterYear(y, 'Q', Decimal(q));
    assert ['-', 'Q'] == "-Q";
    SignedLength(y);
    SignedParses(y);
    OneDigitParses(q);
    FirstDayOfQuarter(d);
  }

  lemma OneDigitParses(n: nat)
    requires n < 10
    ensures ParseUnsigned(Decimal(n)) == Some(n) && |Decimal(n)| == 1
  {
    NumberOfDecimal(n);
    assert Decimal(n)[0] in Decimal(n);
  }

  lemma FirstDayOfQuarter(d: Date)
    ensures var m := (Month(d) - 1) / 3 * 3 + 1;
            FromYmd(Year(d), m, 1).Some? && QuarterOf(FromYmd(Year(d), m, 1).value) == QuarterOf(d)
  {
    hide Year, Month, MonthStart, QuarterOf;
    var m := FirstMonthOfQuarter(Month(d));
    DaysBeforeStep(m, Leap(Year(d)));
    FromYmdIndex(Year(d), m, 1);
    QuarterOfIs(d);
    QuarterOfIs(FromYmd(Year(d), m, 1).value);
    QuarterArithmetic(Year(d), Month(d));
  }

  /** A year's own number parses back to the year from 1000 to 9999. */
  lemma {:induction false} YearLabelParses(d: Date)
    ensures ParseYear(Signed(Year(d))) == Some(YearOf(d)) <==> 1000 <= Year(d) <= 9999
  {
    hide Year, YearOf, FromYmd;
    var y := Year(d);
    SignedLength(y);
    if y < 0 {
      assert '-' in Signed(y);
    } else {
      NumberOfDecimal(y);
      FirstDayOfYear(d);
    }
  }

  lemma FirstDayOfYear(d: Date)
    ensures FromYmd(Year(d), 1, 1).Some? && YearOf(FromYmd(Year(d), 1, 1).value) == YearOf(d)
  {
    hide Year, Month, YearOf, YearStart;
    CivilUnique(Year(d), 1, 1);
    YearOfIs(d);
    YearOfIs(FromYmd(Year(d), 1, 1).value);
  }

  // ------------------------------------------------- labels through the entry point

  /** What is used of the reader of `YYYY-MM-DD`: a text it reads has a hyphen and no letter Q. */
  ghost predicate ReadsDates(parseDate: string -> Option<Date>) {
    forall s | parseDate(s).Some? :: '-' in s && 'Q' !in s
  }

  lemma {:induction false} NoSeparator(s: string, sep: string, c: char)
    requires c in sep && c !in s
    ensures SplitOnce(s, sep) == None
  {
    if |s| >= |sep| { assert s[..|sep|] != sep by { assert c !in s[..|sep|]; } }
    if s != "" { NoSeparator(s[1..], sep, c); }
  }

  lemma SignedHas(y: int, c: char)
    requires c in Signed(y)
    ensures c == '-' || IsDigit(c)
    ensures y >= 0 ==> c != '-'
  {
  }

  /** A week, a quarter and a year are never one day. */
  lemma {:induction false} LongerThanADay(d: Date)
    ensures IsoWeekOf(d).start < IsoWeekOf(d).end && QuarterOf(d).start < QuarterOf(d).end && YearOf(d).start < YearOf(d).end
  {
    hide QuarterOf, YearOf, Year, Month, IsoYear, IsoWeek, FromYmd;
    QuarterOfIs(d);
    YearOfIs(d);
  }

  /** The label of a date's ISO week parses back to that week exactly when its ISO year prints
      with four characters, whatever reads dates. */
  lemma {:induction false} WeekRoundTrip(d: Date, parseDate: string -> Option<Date>)
    ensures Parse(WeekLabel(d), parseDate) == Some(IsoWeekOf(d)) <==> FourCharacters(IsoYear(d))
  {
    hide IsoYear, IsoWeek, IsoWeekOf, QuarterOf, YearOf, ParseIsoWeek, SplitOnce, Signed, TwoDigits, FromYmd;
    var s := WeekLabel(d);
    IsoWeekFound(d);
    forall c | c in Signed(IsoYear(d)) ensures c == '-' || IsDigit(c) { SignedHas(IsoYear(d), c); }
    TwoDigitsParse(IsoWeek(d));
    DigitsOnly(IsoWeek(d));
    NoSeparator(s, "..", '.');
    NoSeparator(s, "-Q", 'Q');
    WeekLabelParses(d);
    LongerThanADay(d);
    assert 'W' in s;
  }

  lemma DigitsOnly(n: nat)
    ensures AllDigits(TwoDigits(n))
  {
  }

  /** The same for the label of a quarter, with any reader of dates. */
  lemma {:induction false} QuarterRoundTrip(d: Date, parseDate: string -> Option<Date>)
    requires ReadsDates(parseDate)
    ensures Parse(QuarterLabel(d), parseDate) == Some(QuarterOf(d)) <==> FourCharacters(Year(d))
  {
    hide Year, Month, QuarterOf, IsoWeekOf, YearOf, ParseQuarter, SplitOnce, Signed, Decimal, FromYmd;
    var s := QuarterLabel(d);
    forall c | c in Signed(Year(d)) ensures c == '-' || IsDigit(c) { SignedHas(Year(d), c); }
    NoSeparator(s, "..", '.');
    NoSeparator(s, "-W", 'W');
    QuarterLabelParses(d);
    assert 'Q' in s;
    assert ParseYear(s).None? by { assert !IsDigit('Q'); }
  }

  /** A year's own number parses back to the year exactly from 1000 to 9999. */
  lemma {:induction false} YearRoundTrip(d: Date, parseDate: string -> Option<Date>)
    requires ReadsDates(parseDate)
    ensures Parse(Signed(Year(d)), parseDate) == Some(YearOf(d)) <==> 1000 <= Year(d) <= 9999
  {
    hide Year, QuarterOf, IsoWeekOf, YearOf, ParseYear, SplitOnce, Signed, FromYmd;
    var s := Signed(Year(d));
    forall c | c in s ensures (c == '-' || IsDigit(c)) && (Year(d) >= 0 ==> c != '-') { SignedHas(Year(d), c); }
    NoSeparator(s, "..", '.');
    NoSeparator(s, "-W", 'W');
    NoSeparator(s, "-Q", 'Q');
    YearLabelParses(d);
    LongerThanADay(d);
  }

  /** The label of a month, as the roll-up rows print it. */
  function MonthLabel(d: Date): string { Signed(Year(d)) + "-" + TwoDigits(Month(d)) }

  /** A month's label parses back to the month from year 1000 to 9999; a minus sign is taken for
      the separator. */
  lemma {:induction false} MonthLabelParses(d: Date)
    ensures ParseMonth(MonthLabel(d)) == Some(MonthOf(d)) <==> 1000 <= Year(d) <= 9999
  {
    hide Year, Month, MonthOf, FromYmd, Signed, Decimal, TwoDigits, ParseSigned, ParseUnsigned, SplitOnce;
    var y, m := Year(d), Month(d);
    SignedLength(y);
    SignedParses(y);
    TwoDigitsParse(m);
    if y < 0 {
      assert MonthLabel(d) == Signed(y) + ("-" + TwoDigits(m));
      MinusSplits(y, "-" + TwoDigits(m));
    } else {
      SplitAfterDigits(y, TwoDigits(m));
      FirstDayOfMonth(d);
    }
  }

  lemma MinusSplits(y: int, rest: string)
    requires y < 0
    ensures SplitOnce(Signed(y) + rest, "-") == Some(("", Decimal(-y) + rest))
  {
    var s := Signed(y) + rest;
    assert s[..1] == "-" && s[1..] == Decimal(-y) + rest;
  }

  lemma SplitAfterDigits(y: int, rest: string)
    requires y >= 0
    ensures SplitOnce(Signed(y) + "-" + rest, "-") == Some((Signed(y), rest))
  {
    var a := Decimal(y);
    var s := a + "-" + rest;
    forall i | 0 <= i < |a| ensures s[i..][..1] != "-" {
      assert s[i..][..1][0] == a[i] && a[i] in a;
    }
    SplitAt(a, "-", rest);
  }

  lemma FirstDayOfMonth(d: Date)
    ensures FromYmd(Year(d), Month(d), 1).Some? && MonthOf(FromYmd(Year(d), Month(d), 1).value) == MonthOf(d)
  {
    hide Year, Month, MonthOf, FromYmd, MonthStart;
    FirstDay(Year(d), Month(d));
    MonthOfIs(d);
    MonthAt(12 * (Year(d) - 1) + Month(d) - 1);
  }
}
