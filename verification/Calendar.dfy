/**
  The calendar arithmetic of the partition scheduler: dates, `date_trunc('month', ...)`, adding
  months, and the text of `to_char(..., 'YYYY_MM')`.
 */
module Calendar {
  import opened Decimals

  datatype Date = Date(year: int, month: int, day: int)

  predicate IsLeap(year: int) { year % 4 == 0 && (year % 100 != 0 || year % 400 == 0) }

  function DaysIn(year: int, month: int): int {
    if month == 2 then (if IsLeap(year) then 29 else 28)
    else if month in {4, 6, 9, 11} then 30
    else 31
  }

  predicate IsDate(d: Date) { 1 <= d.year && 1 <= d.month <= 12 && 1 <= d.day <= DaysIn(d.year, d.month) }

  /** Months since the start of year 0. */
  function Month(d: Date): int { 12 * d.year + d.month - 1 }

  const FIRST_MONTH := 12

  /** The first day of a month. */
  function FirstOf(month: nat): Date { Date(month / 12, month % 12 + 1, 1) }

  /** `date_trunc('month', d)` */
  function TruncMonth(d: Date): Date { d.(day := 1) }

  /** `d + (count || ' months')::INTERVAL`: the same day, or the last one of a shorter month. */
  function AddMonths(d: Date, count: nat): Date
    requires IsDate(d)
  {
    var month := Month(d) + count;
    var first := FirstOf(month);
    var last := DaysIn(first.year, first.month);
    first.(day := if d.day <= last then d.day else last)
  }

  lemma FirstOfMonth(month: nat)
    requires month >= FIRST_MONTH
    ensures IsDate(FirstOf(month)) && Month(FirstOf(month)) == month
  {
  }

  /** Truncating and adding months gives the first day of that month, across year ends too. */
  lemma {:induction false} AddToFirst(d: Date, count: nat)
    requires IsDate(d)
    ensures IsDate(TruncMonth(d)) && AddMonths(TruncMonth(d), count) == FirstOf(Month(d) + count)
    ensures var first := AddMonths(TruncMonth(d), count);
      IsDate(first) && first.day == 1 && 12 * first.year + first.month == 12 * d.year + d.month + count
  {
    FirstOfMonth(Month(d) + count);
  }

  lemma FirstOfNext(month: nat)
    requires month >= FIRST_MONTH
    ensures AddMonths(FirstOf(month), 1) == FirstOf(month + 1)
  {
    FirstOfMonth(month);
    FirstOfMonth(month + 1);
  }

  // ----- instants

  const DAY_MICROS := 86_400_000_000

  datatype RawInstant = RawInstant(date: Date, micros: nat)

  type Instant = t: RawInstant | IsDate(t.date) && t.micros < DAY_MICROS
    witness RawInstant(Date(1, 1, 1), 0)

  /** The order of dates, as a number. */
  function DayStamp(d: Date): int { 32 * Month(d) + d.day }

  /** Dates are ordered by year, then month, then day. */
  lemma StampOrder(d: Date, e: Date)
    requires IsDate(d) && IsDate(e)
    ensures DayStamp(d) < DayStamp(e) <==>
      d.year < e.year || (d.year == e.year && (d.month < e.month || (d.month == e.month && d.day < e.day)))
  {
  }

  /** Every fourth year has a 29th of February, of the full centuries only every fourth. */
  lemma LeapDays()
    ensures IsDate(Date(2024, 2, 29)) && IsDate(Date(2000, 2, 29))
    ensures !IsDate(Date(2023, 2, 29)) && !IsDate(Date(1900, 2, 29))
  {
  }

  /** Chronological order. */
  predicate Before(a: Instant, b: Instant) {
    DayStamp(a.date) < DayStamp(b.date) || (DayStamp(a.date) == DayStamp(b.date) && a.micros < b.micros)
  }

  function Midnight(d: Date): Instant
    requires IsDate(d)
  {
    RawInstant(d, 0)
  }

  /** An instant lies at or after a midnight exactly when its date does, so ranges compare dates. */
  lemma MidnightOrder(t: Instant, d: Date)
    requires IsDate(d)
    ensures !Before(t, Midnight(d)) <==> DayStamp(d) <= DayStamp(t.date)
  {
  }

  /** The days from the first of a month to the first of the next are those of the month. */
  lemma {:induction false} MonthRange(d: Date, month: nat)
    requires IsDate(d) && month >= FIRST_MONTH
    ensures DayStamp(FirstOf(month)) <= DayStamp(d) < DayStamp(FirstOf(month + 1)) <==> Month(d) == month
  {
    FirstOfMonth(month);
    FirstOfMonth(month + 1);
  }

  // ----- names

  /** `to_char(first day, 'YYYY_MM')` */
  function MonthText(month: nat): string {
    var d := FirstOf(month);
    YearText(d.year) + "_" + FixedDigits(d.month, 2)
  }

  function YearText(year: nat): string { if year < 10000 then FixedDigits(year, 4) else Digits(year) }

  lemma YearTextDetermines(a: nat, b: nat)
    requires YearText(a) == YearText(b)
    ensures a == b
  {
    assert Pow10(4) == 10000;
    DigitsWidth(a, 4);
    DigitsWidth(b, 4);
    DigitsRoundTrip(a);
    DigitsRoundTrip(b);
    if a < 10000 {
      FixedDigitsValue(a, 4);
    }
    if b < 10000 {
      FixedDigitsValue(b, 4);
    }
  }

  /** Different months have different texts. */
  lemma MonthTextDetermines(a: nat, b: nat)
    requires MonthText(a) == MonthText(b)
    ensures a == b
  {
    var d, e := FirstOf(a), FirstOf(b);
    var s, t := YearText(d.year), YearText(e.year);
    var mm, nn := FixedDigits(d.month, 2), FixedDigits(e.month, 2);
    var whole := s + "_" + mm;
    assert whole[..|whole| - 3] == s && whole[|whole| - 2..] == mm;
    var other := t + "_" + nn;
    assert other[..|other| - 3] == t && other[|other| - 2..] == nn;
    assert whole == MonthText(a) && other == MonthText(b);
    YearTextDetermines(d.year, e.year);
    assert Pow10(2) == 100;
    FixedDigitsValue(d.month, 2);
    FixedDigitsValue(e.month, 2);
  }

  /** The text is the year in four digits or more, an underscore, and the month in two digits. */
  ghost predicate NamesMonthOf(text: string, d: Date) {
    |text| >= 7 && (d.year <= 9999 ==> |text| == 7)
    && var n := |text| - 3;
       && AllDigits(text[..n]) && DigitsValue(text[..n]) == d.year
       && text[n] == '_'
       && AllDigits(text[n + 1..]) && DigitsValue(text[n + 1..]) == d.month
  }

  /** The text of a month reads back as its year and month. */
  lemma MonthTextReads(d: Date)
    requires IsDate(d)
    ensures NamesMonthOf(MonthText(Month(d)), d)
  {
    var first := FirstOf(Month(d));
    assert first.year == d.year && first.month == d.month;
    var y, mm := YearText(d.year), FixedDigits(d.month, 2);
    YearTextReads(d.year);
    assert Pow10(2) == 100;
    FixedDigitsValue(d.month, 2);
    var text := y + "_" + mm;
    assert text[..|text| - 3] == y && text[|text| - 3] == '_' && text[|text| - 2..] == mm;
    hide YearText, FixedDigits;
  }

  lemma YearTextReads(year: nat)
    ensures AllDigits(YearText(year)) && DigitsValue(YearText(year)) == year
    ensures |YearText(year)| >= 4 && (year <= 9999 ==> |YearText(year)| == 4)
  {
    assert Pow10(3) == 1000 && Pow10(4) == 10000;
    if year < 10000 {
      FixedDigitsValue(year, 4);
    } else {
      DigitsRoundTrip(year);
      DigitsWidth(year, 3);
    }
  }
}
