/** UTC timestamps as `datetime.isoformat` writes them. Microseconds are written only when they
    are not zero, so the texts have two lengths; SQLite still compares them as text. */
module IsoTime {
  import opened Decimal
  import opened Ordering
  import opened Wrappers

  type Moment = t: Stamp | t.Valid() witness Stamp(1, 1, 1, 0, 0, 0, 0)

  datatype Stamp = Stamp(
    year: nat, month: nat, day: nat, hour: nat, minute: nat, second: nat, micro: nat)
  {
    predicate Valid() {
      && 1 <= year <= 9999 && 1 <= month <= 12
      && 1 <= day <= DaysInMonth(year, month)
      && hour < 24 && minute < 60 && second < 60 && micro < 1_000_000
    }

    function Iso(): string
      requires Valid()
    {
      PowersOfTen();
      Pad(year, 4) + ("-" + (Pad(month, 2) + ("-" + (Pad(day, 2) + ("T" + (Pad(hour, 2)
      + (":" + (Pad(minute, 2) + (":" + (Pad(second, 2) + Fraction(micro)))))))))))
    }

    /** Microseconds since the first day of year 1 of the proleptic Gregorian calendar. */
    function Instant(): int {
      (((DaysBeforeYear(year) + DaysBeforeMonth(year, month) + day) * 24 + hour) * 60 + minute)
      * 60_000_000 + second * 1_000_000 + micro
    }
  }

  lemma PowersOfTen()
    ensures Power10(2) == 100 && Power10(4) == 10_000 && Power10(6) == 1_000_000
  {
    assert Power10(2) == 10 * Power10(1) && Power10(1) == 10;
    assert Power10(4) == 10 * Power10(3) && Power10(3) == 10 * Power10(2);
    assert Power10(6) == 10 * Power10(5) && Power10(5) == 10 * Power10(4);
  }

  function Fraction(micro: nat): string
    requires micro < 1_000_000
  {
    PowersOfTen();
    (if micro == 0 then "" else "." + Pad(micro, 6)) + "+00:00"
  }

  // ----- The calendar -----

  predicate Divides(d: nat, n: nat)
    requires d > 0
  {
    n % d == 0
  }

  /** How many of 1 to n are multiples of d. */
  function Multiples(n: nat, d: nat): nat
    requires d > 0
  {
    n / d
  }

  predicate IsLeap(year: nat) {
    Divides(4, year) && (!Divides(100, year) || Divides(400, year))
  }

  function DaysInMonth(year: nat, month: nat): nat {
    if month == 2 then (if IsLeap(year) then 29 else 28)
    else if month in {4, 6, 9, 11} then 30
    else 31
  }

  function DaysBeforeYear(year: nat): int {
    if year == 0 then 0
    else
      var y := year - 1;
      y * 365 + Multiples(y, 4) - Multiples(y, 100) + Multiples(y, 400)
  }

  function DaysBeforeMonth(year: nat, month: nat): nat {
    if month <= 1 then 0
    else DaysBeforeMonth(year, month - 1) + DaysInMonth(year, month - 1)
  }

  lemma DaysInYear(year: nat)
    requires year >= 1
    ensures DaysBeforeYear(year + 1) == DaysBeforeYear(year) + if IsLeap(year) then 366 else 365
  {
    hide Divides, Multiples;
    EveryFourth(year);
    EveryHundredth(year);
    EveryFourHundredth(year);
  }

  lemma EveryFourth(n: nat)
    requires n >= 1
    ensures Multiples(n, 4) == Multiples(n - 1, 4) + if Divides(4, n) then 1 else 0
  {
  }

  lemma EveryHundredth(n: nat)
    requires n >= 1
    ensures Multiples(n, 100) == Multiples(n - 1, 100) + if Divides(100, n) then 1 else 0
    ensures Divides(100, n) ==> Divides(4, n)
  {
  }

  lemma EveryFourHundredth(n: nat)
    requires n >= 1
    ensures Multiples(n, 400) == Multiples(n - 1, 400) + if Divides(400, n) then 1 else 0
    ensures Divides(400, n) ==> Divides(100, n)
  {
  }

  lemma DaysOfTwelveMonths(year: nat)
    ensures DaysBeforeMonth(year, 12) + 31 == if IsLeap(year) then 366 else 365
  {
    assert DaysBeforeMonth(year, 3) == DaysBeforeMonth(year, 2) + DaysInMonth(year, 2);
    assert DaysBeforeMonth(year, 6) == DaysBeforeMonth(year, 4) + 61;
    assert DaysBeforeMonth(year, 8) == DaysBeforeMonth(year, 6) + 61;
    assert DaysBeforeMonth(year, 10) == DaysBeforeMonth(year, 8) + 61;
    assert DaysBeforeMonth(year, 12) == DaysBeforeMonth(year, 10) + 61;
  }

  lemma {:induction false} MonthsAdvance(year: nat, m: nat, n: nat)
    requires 1 <= m < n
    ensures DaysBeforeMonth(year, m) + DaysInMonth(year, m) <= DaysBeforeMonth(year, n)
  {
    if m + 1 < n {
      MonthsAdvance(year, m, n - 1);
    }
  }

  lemma {:induction false} YearsAdvance(m: nat, n: nat)
    requires 1 <= m < n
    ensures DaysBeforeYear(m + 1) <= DaysBeforeYear(n)
  {
    if m + 1 < n {
      YearsAdvance(m, n - 1);
      DaysInYear(n - 1);
    }
  }

  ghost function DayNumber(t: Stamp): int {
    DaysBeforeYear(t.year) + DaysBeforeMonth(t.year, t.month) + t.day
  }

  predicate DateBefore(a: Stamp, b: Stamp) {
    a.year < b.year || (a.year == b.year
      && (a.month < b.month || (a.month == b.month && a.day < b.day)))
  }

  lemma LaterDateHasLargerNumber(a: Stamp, b: Stamp)
    requires a.Valid() && b.Valid() && DateBefore(a, b)
    ensures DayNumber(a) < DayNumber(b)
  {
    if a.year < b.year {
      YearsAdvance(a.year, b.year);
      DaysInYear(a.year);
      DaysOfTwelveMonths(a.year);
      if a.month < 12 {
        MonthsAdvance(a.year, a.month, 12);
      }
    } else if a.month < b.month {
      MonthsAdvance(a.year, a.month, b.month);
    }
  }

  // ----- Text order is time order -----

  /** The order of the fields, most significant first. */
  predicate Before(a: Stamp, b: Stamp) {
    DateBefore(a, b) || (!DateBefore(b, a) && TimeOfDay(a) < TimeOfDay(b))
  }

  function TimeOfDay(t: Stamp): nat {
    (t.hour * 60 + t.minute) * 60_000_000 + t.second * 1_000_000 + t.micro
  }

  lemma BeforeIsEarlier(a: Stamp, b: Stamp)
    requires a.Valid() && b.Valid()
    ensures Before(a, b) <==> a.Instant() < b.Instant()
  {
    assert a.Instant() == DayNumber(a) * 86_400_000_000 + TimeOfDay(a);
    assert b.Instant() == DayNumber(b) * 86_400_000_000 + TimeOfDay(b);
    assert TimeOfDay(a) < 86_400_000_000 && TimeOfDay(b) < 86_400_000_000;
    if DateBefore(a, b) {
      LaterDateHasLargerNumber(a, b);
    } else if DateBefore(b, a) {
      LaterDateHasLargerNumber(b, a);
    }
  }

  /** A number written at fixed width decides before the text after it. */
  lemma PadThen(m: nat, n: nat, width: nat, s: string, t: string)
    requires m < Power10(width) && n < Power10(width)
    ensures Less(Pad(m, width) + s, Pad(n, width) + t) <==> m < n || (m == n && Less(s, t))
  {
    PadOrder(m, n, width);
    LessOfConcatenation(Pad(m, width), Pad(n, width), s, t);
  }

  lemma MarkThen(c: char, s: string, t: string)
    ensures Less([c] + s, [c] + t) <==> Less(s, t)
  {
    LessOfConcatenation([c], [c], s, t);
  }

  lemma FirstCharDecides(s: string, t: string)
    requires s != "" && t != "" && s[0] < t[0]
    ensures Less(s, t) && !Less(t, s)
  {
  }

  /** A missing fraction sorts first because '+' precedes '.'. */
  lemma FractionOrder(m: nat, n: nat)
    requires m < 1_000_000 && n < 1_000_000
    ensures Less(Fraction(m), Fraction(n)) <==> m < n
  {
    hide Less, Power10, Pad;
    PowersOfTen();
    var utc := "+00:00";
    LessIsTotal(utc, utc);
    assert Fraction(0) == utc;
    if m > 0 && n > 0 {
      assert Fraction(m) == "." + (Pad(m, 6) + "+00:00") && Fraction(n) == "." + (Pad(n, 6) + "+00:00");
      MarkThen('.', Pad(m, 6) + "+00:00", Pad(n, 6) + "+00:00");
      PadThen(m, n, 6, "+00:00", "+00:00");
    } else if n > 0 {
      FirstCharDecides(Fraction(m), Fraction(n));
    } else if m > 0 {
      FirstCharDecides(Fraction(n), Fraction(m));
    }
  }

  function AfterDate(t: Stamp): string
    requires t.Valid()
  {
    PowersOfTen();
    Pad(t.hour, 2) + (":" + (Pad(t.minute, 2) + (":" + (Pad(t.second, 2) + Fraction(t.micro)))))
  }

  lemma TimeTextOrder(a: Stamp, b: Stamp)
    requires a.Valid() && b.Valid()
    ensures Less(AfterDate(a), AfterDate(b)) <==> TimeOfDay(a) < TimeOfDay(b)
  {
    PowersOfTen();
    FractionOrder(a.micro, b.micro);
    var sa, sb := Pad(a.second, 2) + Fraction(a.micro), Pad(b.second, 2) + Fraction(b.micro);
    PadThen(a.second, b.second, 2, Fraction(a.micro), Fraction(b.micro));
    MarkThen(':', sa, sb);
    var ma, mb := Pad(a.minute, 2) + (":" + sa), Pad(b.minute, 2) + (":" + sb);
    PadThen(a.minute, b.minute, 2, ":" + sa, ":" + sb);
    MarkThen(':', ma, mb);
    PadThen(a.hour, b.hour, 2, ":" + ma, ":" + mb);
  }

  /** The text order of two stored timestamps is their order in time. */
  lemma TextOrderIsTimeOrder(a: Stamp, b: Stamp)
    requires a.Valid() && b.Valid()
    ensures Less(a.Iso(), b.Iso()) <==> a.Instant() < b.Instant()
  {
    PowersOfTen();
    TimeTextOrder(a, b);
    BeforeIsEarlier(a, b);
    var ta, tb := AfterDate(a), AfterDate(b);
    MarkThen('T', ta, tb);
    var da, db := Pad(a.day, 2) + ("T" + ta), Pad(b.day, 2) + ("T" + tb);
    PadThen(a.day, b.day, 2, "T" + ta, "T" + tb);
    MarkThen('-', da, db);
    var ma, mb := Pad(a.month, 2) + ("-" + da), Pad(b.month, 2) + ("-" + db);
    PadThen(a.month, b.month, 2, "-" + da, "-" + db);
    MarkThen('-', ma, mb);
    PadThen(a.year, b.year, 4, "-" + ma, "-" + mb);
  }

  /** The texts compared do have different lengths. */
  lemma LengthsDiffer()
    ensures var whole := Stamp(2026, 8, 15, 12, 0, 0, 0);
      var half := whole.(micro := 500_000);
      whole.Valid() && half.Valid() && |whole.Iso()| == 25 && |half.Iso()| == 32
  {
  }

  lemma TextAtMostIsTimeAtMost(a: Moment, b: Moment)
    ensures AtMost(a.Iso(), b.Iso()) <==> a.Instant() <= b.Instant()
  {
    TextOrderIsTimeOrder(b, a);
  }

  // ----- Adding seconds -----

  /** The next day, or None after the last day `datetime` can hold. */
  function NextDay(t: Moment): Option<Moment> {
    if t.day < DaysInMonth(t.year, t.month) then Some(t.(day := t.day + 1))
    else if t.month < 12 then Some(t.(month := t.month + 1, day := 1))
    else if t.year < 9999 then Some(t.(year := t.year + 1, month := 1, day := 1))
    else None
  }

  function NextSecond(t: Moment): Option<Moment> {
    if t.second < 59 then Some(t.(second := t.second + 1))
    else if t.minute < 59 then Some(t.(minute := t.minute + 1, second := 0))
    else if t.hour < 23 then Some(t.(hour := t.hour + 1, minute := 0, second := 0))
    else NextDay(t.(hour := 0, minute := 0, second := 0))
  }

  /** `t + timedelta(seconds=n)`; None where the addition overflows. */
  function Later(t: Moment, n: nat): Option<Moment>
    decreases n
  {
    if n == 0 then Some(t)
    else
      var next := NextSecond(t);
      if next.None? then None else Later(next.value, n - 1)
  }

  lemma NextDayIsADayLater(t: Moment)
    requires NextDay(t).Some?
    ensures DayNumber(NextDay(t).value) == DayNumber(t) + 1
    ensures TimeOfDay(NextDay(t).value) == TimeOfDay(t)
  {
    hide IsLeap, DaysBeforeYear;
    if t.day == DaysInMonth(t.year, t.month) {
      if t.month == 12 {
        DaysInYear(t.year);
        DaysOfTwelveMonths(t.year);
      }
    }
  }

  lemma NextSecondIsASecondLater(t: Moment)
    requires NextSecond(t).Some?
    ensures NextSecond(t).value.Instant() == t.Instant() + 1_000_000
  {
    hide NextDay, DaysBeforeYear, DaysBeforeMonth;
    var midnight: Stamp := t.(hour := 0, minute := 0, second := 0);
    if t.second == 59 && t.minute == 59 && t.hour == 23 {
      var next := NextDay(midnight).value;
      NextDayIsADayLater(midnight);
      assert next.Instant() == DayNumber(next) * 86_400_000_000 + TimeOfDay(next);
      assert t.Instant() == DayNumber(t) * 86_400_000_000 + TimeOfDay(t);
    }
  }

  lemma {:induction false} LaterIsThatMuchLater(t: Moment, n: nat)
    requires Later(t, n).Some?
    ensures Later(t, n).value.Instant() == t.Instant() + n * 1_000_000
    decreases n
  {
    hide NextSecond;
    if n > 0 {
      NextSecondIsASecondLater(t);
      LaterIsThatMuchLater(NextSecond(t).value, n - 1);
    }
  }
}
