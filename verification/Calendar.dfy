/** Calendar days, their YYYY-MM-DD strings, and the billing periods cut from them. */
module Calendar {
  import opened Text

  /** A day in the accounting time zone. */
  datatype Date = Date(year: nat, month: nat, day: nat)

  function DaysIn(year: nat, month: nat): nat {
    if month == 2 then (if year % 4 == 0 && (year % 100 != 0 || year % 400 == 0) then 29 else 28)
    else if month == 4 || month == 6 || month == 9 || month == 11 then 30
    else 31
  }

  predicate Valid(d: Date) {
    d.year <= 9999 && 1 <= d.month <= 12 && 1 <= d.day <= DaysIn(d.year, d.month)
  }

  predicate Before(a: Date, b: Date) {
    a.year < b.year || (a.year == b.year && (a.month < b.month || (a.month == b.month && a.day < b.day)))
  }

  predicate NotAfter(a: Date, b: Date) {
    a == b || Before(a, b)
  }

  // ---------------------------------------------------------------- day strings

  function Digits2(n: nat): (s: Str)
    requires n < 100
    ensures |s| == 2
  {
    [DigitChar(n / 10), DigitChar(n % 10)]
  }

  function DayString(d: Date): (s: Str)
    requires Valid(d)
    ensures |s| == 10
  {
    Digits2(d.year / 100) + Digits2(d.year % 100) + ['-'] + Digits2(d.month) + ['-'] + Digits2(d.day)
  }

  /** The order of the database: the first character that differs decides. */
  predicate LexBefore(a: Str, b: Str) {
    b != [] && (a == [] || a[0] < b[0] || (a[0] == b[0] && LexBefore(a[1..], b[1..])))
  }

  lemma LexDigits(m: nat, n: nat, s: Str, t: Str)
    requires m < 100 && n < 100
    ensures LexBefore(Digits2(m) + s, Digits2(n) + t) <==> m < n || (m == n && LexBefore(s, t))
  {
    var a, b := Digits2(m) + s, Digits2(n) + t;
    assert a[1..][1..] == s && b[1..][1..] == t;
    assert m == 10 * (m / 10) + m % 10 && n == 10 * (n / 10) + n % 10;
    assert a[0] == DigitChar(m / 10) && b[0] == DigitChar(n / 10);
    assert a[1..][0] == DigitChar(m % 10) && b[1..][0] == DigitChar(n % 10);
  }

  lemma LexDash(s: Str, t: Str)
    ensures LexBefore(['-'] + s, ['-'] + t) <==> LexBefore(s, t)
  {
    assert (['-'] + s)[1..] == s && (['-'] + t)[1..] == t;
  }

  function Tail(d: Date): Str
    requires Valid(d)
  {
    ['-'] + (Digits2(d.month) + (['-'] + (Digits2(d.day) + [])))
  }

  /** A day string shows year, month and day, in this order and separated by dashes. */
  lemma DayStringShows(d: Date)
    requires Valid(d)
    ensures var s := DayString(d);
            && IsNumber(s[..4]) && Value(s[..4]) == d.year && s[4] == '-'
            && IsNumber(s[5..7]) && Value(s[5..7]) == d.month && s[7] == '-'
            && IsNumber(s[8..]) && Value(s[8..]) == d.day
  {
    var s := DayString(d);
    assert s[..4] == Digits2(d.year / 100) + Digits2(d.year % 100);
    assert s[5..7] == Digits2(d.month) && s[8..] == Digits2(d.day);
    ValueOfDigits([], d.month);
    ValueOfDigits([], d.day);
    ValueOfDigits([], d.year / 100);
    ValueOfDigits(Digits2(d.year / 100), d.year % 100);
    assert [] + Digits2(d.month) == Digits2(d.month) && [] + Digits2(d.day) == Digits2(d.day);
    assert [] + Digits2(d.year / 100) == Digits2(d.year / 100);
  }

  lemma ValueOfDigits(front: Str, n: nat)
    requires n < 100 && (front == [] || IsNumber(front))
    ensures IsNumber(front + Digits2(n))
    ensures Value(front + Digits2(n)) == 100 * (if front == [] then 0 else Value(front)) + n
  {
    var s := front + Digits2(n);
    assert s[..|s| - 1] == front + [DigitChar(n / 10)];
    assert s[..|s| - 1][..|front|] == front;
    assert Value(s) == 10 * Value(s[..|s| - 1]) + n % 10;
    assert Value(s[..|s| - 1]) == 10 * Value(front) + n / 10;
  }

  /** The database compares day strings as the calendar compares days. */
  lemma DayStringsAreOrdered(a: Date, b: Date)
    requires Valid(a) && Valid(b)
    ensures LexBefore(DayString(a), DayString(b)) <==> Before(a, b)
    ensures DayString(a) == DayString(b) <==> a == b
  {
    LexDays(a, b);
    LexDays(b, a);
    LexIrreflexive(DayString(a));
  }

  lemma {:induction false} LexIrreflexive(s: Str)
    ensures !LexBefore(s, s)
  {
    if s != [] {
      LexIrreflexive(s[1..]);
    }
  }

  lemma LexDays(a: Date, b: Date)
    requires Valid(a) && Valid(b)
    ensures LexBefore(DayString(a), DayString(b)) <==> Before(a, b)
  {
    assert DayString(a) == Digits2(a.year / 100) + (Digits2(a.year % 100) + Tail(a));
    assert DayString(b) == Digits2(b.year / 100) + (Digits2(b.year % 100) + Tail(b));
    LexDigits(a.year / 100, b.year / 100, Digits2(a.year % 100) + Tail(a), Digits2(b.year % 100) + Tail(b));
    LexDigits(a.year % 100, b.year % 100, Tail(a), Tail(b));
    LexTails(a, b);
    assert a.year == 100 * (a.year / 100) + a.year % 100;
    assert b.year == 100 * (b.year / 100) + b.year % 100;
  }

  lemma LexTails(a: Date, b: Date)
    requires Valid(a) && Valid(b)
    ensures LexBefore(Tail(a), Tail(b)) <==> a.month < b.month || (a.month == b.month && a.day < b.day)
  {
    var da, db := Digits2(a.day) + [], Digits2(b.day) + [];
    LexDash(Digits2(a.month) + (['-'] + da), Digits2(b.month) + (['-'] + db));
    LexDigits(a.month, b.month, ['-'] + da, ['-'] + db);
    LexDash(da, db);
    LexDigits(a.day, b.day, [], []);
  }

  // ---------------------------------------------------------------- billing periods

  function Clamped(resetDay: int): nat {
    if resetDay < 1 then 1 else if resetDay > 28 then 28 else resetDay
  }

  function MonthBefore(d: Date): Date
    requires d.month >= 1 && d.year >= 1
  {
    if d.month == 1 then Date(d.year - 1, 12, d.day) else Date(d.year, d.month - 1, d.day)
  }

  /** The first day of the billing period that contains `now`. */
  function PeriodStart(now: Date, resetDay: int): (start: Date)
    requires Valid(now) && now.year >= 1
    ensures Valid(start) && IsStart(start, resetDay)
  {
    var start := Date(now.year, now.month, Clamped(resetDay));
    if Before(now, start) then MonthBefore(start) else start
  }

  predicate IsStart(d: Date, resetDay: int) {
    d.day == Clamped(resetDay) && 1 <= d.month <= 12
  }

  /** It falls on the day of the month asked for, cut to what every month has. */
  lemma PeriodStartsOnResetDay(now: Date, resetDay: int)
    requires Valid(now) && now.year >= 1
    ensures var day := PeriodStart(now, resetDay).day;
            && (1 <= resetDay <= 28 ==> day == resetDay)
            && (resetDay < 1 ==> day == 1) && (resetDay > 28 ==> day == 28)
    ensures forall s | IsStart(s, resetDay) :: s.day == PeriodStart(now, resetDay).day
    ensures forall s: Date | 1 <= s.month <= 12 && s.day == PeriodStart(now, resetDay).day :: IsStart(s, resetDay)
  {
  }

  /** The period start is the latest reset day that is not after `now`. */
  lemma PeriodStartIsLatestReset(now: Date, resetDay: int, s: Date)
    requires Valid(now) && now.year >= 1 && IsStart(s, resetDay) && NotAfter(s, now)
    ensures var p := PeriodStart(now, resetDay);
            NotAfter(p, now) && NotAfter(s, p)
  {
  }

  /** Within a period the start is constant, and it moves on exactly at a reset day: two
      days have the same start if and only if no reset day lies after the first up to the
      second. Periods are therefore consecutive, and no day is in two of them. */
  lemma PeriodsPartitionTime(a: Date, b: Date, resetDay: int)
    requires Valid(a) && Valid(b) && a.year >= 1 && NotAfter(a, b)
    ensures NotAfter(PeriodStart(a, resetDay), PeriodStart(b, resetDay))
    ensures PeriodStart(a, resetDay) == PeriodStart(b, resetDay) <==>
              forall s | IsStart(s, resetDay) && Before(a, s) :: Before(b, s)
  {
    var pa, pb := PeriodStart(a, resetDay), PeriodStart(b, resetDay);
    PeriodStartIsLatestReset(a, resetDay, pa);
    PeriodStartIsLatestReset(b, resetDay, pb);
    if pa == pb {
      forall s | IsStart(s, resetDay) && Before(a, s) ensures Before(b, s) {
        if !Before(b, s) {
          PeriodStartIsLatestReset(b, resetDay, s);
        }
      }
    } else {
      assert !Before(b, pb);
    }
  }
}
