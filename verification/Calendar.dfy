/** Calendar months in UTC and their first seconds. */
module Calendar {
  import opened Basics

  datatype Month = Month(year: nat, month: nat)

  const DAY: nat := 86400

  const SCAN_START := Month(2020, 1)

  predicate IsMonth(m: Month) {
    m.year >= 1970 && 1 <= m.month <= 12
  }

  predicate Leap(year: nat) {
    year % 4 == 0 && (year % 100 != 0 || year % 400 == 0)
  }

  function DaysIn(year: nat, month: nat): nat {
    if month == 2 then (if Leap(year) then 29 else 28)
    else if month == 4 || month == 6 || month == 9 || month == 11 then 30
    else 31
  }

  /** Adding one month to the first day of a month. */
  function NextMonth(m: Month): Month {
    if m.month >= 12 then Month(m.year + 1, 1) else Month(m.year, m.month + 1)
  }

  function LeapYearsBefore(year: nat): int
    requires year > 0
  {
    (year - 1) / 4 - (year - 1) / 100 + (year - 1) / 400
  }

  function DaysBeforeMonth(year: nat, month: nat): nat {
    if month <= 1 then 0 else DaysBeforeMonth(year, month - 1) + DaysIn(year, month - 1)
  }

  /** Seconds from 1970-01-01 to the start of the month, by the Gregorian leap rule. */
  function Unix(m: Month): int
    requires IsMonth(m)
  {
    DAY * (365 * (m.year - 1970) + LeapYearsBefore(m.year) - LeapYearsBefore(1970) + DaysBeforeMonth(m.year, m.month))
  }

  lemma By4(n: nat)
    requires n > 0
    ensures n / 4 - (n - 1) / 4 == if n % 4 == 0 then 1 else 0
  {
  }

  lemma By100(n: nat)
    requires n > 0
    ensures n / 100 - (n - 1) / 100 == if n % 100 == 0 then 1 else 0
  {
    var q, r := n / 100, n % 100;
    assert n == 100 * q + r;
    assert if r == 0 then n - 1 == 100 * (q - 1) + 99 else n - 1 == 100 * q + (r - 1);
  }

  lemma By400(n: nat)
    requires n > 0
    ensures n / 400 - (n - 1) / 400 == if n % 400 == 0 then 1 else 0
  {
    var q, r := n / 400, n % 400;
    assert n == 400 * q + r;
    assert if r == 0 then n - 1 == 400 * (q - 1) + 399 else n - 1 == 400 * q + (r - 1);
  }

  lemma CenturiesDivide(n: nat)
    ensures n % 400 == 0 ==> n % 100 == 0
    ensures n % 100 == 0 ==> n % 4 == 0
  {
    var q, p := n / 400, n / 100;
    assert n % 400 == 0 ==> n == 100 * (4 * q);
    assert n % 100 == 0 ==> n == 4 * (25 * p);
  }

  lemma YearLength(year: nat)
    requires year > 0
    ensures LeapYearsBefore(year + 1) - LeapYearsBefore(year) == if Leap(year) then 1 else 0
  {
    By4(year);
    By100(year);
    By400(year);
    CenturiesDivide(year);
  }

  lemma DecemberEndsYear(year: nat)
    ensures DaysBeforeMonth(year, 12) + DaysIn(year, 12) == if Leap(year) then 366 else 365
  {
    assert DaysBeforeMonth(year, 2) == 31;
    assert DaysBeforeMonth(year, 3) == 31 + DaysIn(year, 2);
    assert DaysBeforeMonth(year, 5) == DaysBeforeMonth(year, 3) + 61;
    assert DaysBeforeMonth(year, 7) == DaysBeforeMonth(year, 5) + 61;
    assert DaysBeforeMonth(year, 9) == DaysBeforeMonth(year, 7) + 62;
    assert DaysBeforeMonth(year, 11) == DaysBeforeMonth(year, 9) + 61;
  }

  /** Stepping month by month agrees with the closed form: no second is lost or
      counted twice between a month and the next. */
  lemma NextMonthStarts(m: Month)
    requires IsMonth(m)
    ensures IsMonth(NextMonth(m)) && Unix(NextMonth(m)) == Unix(m) + DAY * DaysIn(m.year, m.month)
    ensures Unix(m) < Unix(NextMonth(m))
  {
    if m.month == 12 {
      YearLength(m.year);
      DecemberEndsYear(m.year);
    }
  }

  /** The count starts with 1970, the scan with 2020-01-01 00:00 UTC. */
  lemma FixedPoints()
    ensures Unix(Month(1970, 1)) == 0 && Unix(SCAN_START) == 1577836800
  {
    assert DaysBeforeMonth(1970, 1) == 0 && DaysBeforeMonth(2020, 1) == 0;
  }

  lemma DaysByNumber(year: nat, month: nat)
    requires 1 <= month <= 12
    ensures DaysIn(year, month) ==
            if month in {1, 3, 5, 7, 8, 10, 12} then 31 else if month == 2 then (if LongFebruary(year) then 29 else 28) else 30
  {
    CenturiesDivide(year);
  }

  /** By the numbers: months follow one another twelve to a year, and each has its length
      in seconds. */
  lemma MonthLengths(m: Month)
    requires IsMonth(m)
    ensures IsMonth(NextMonth(m)) && NextMonth(m).year * 12 + NextMonth(m).month == m.year * 12 + m.month + 1
    ensures m.month in {1, 3, 5, 7, 8, 10, 12} ==> Unix(NextMonth(m)) - Unix(m) == 31 * 86400
    ensures m.month in {4, 6, 9, 11} ==> Unix(NextMonth(m)) - Unix(m) == 30 * 86400
    ensures m.month == 2 ==> Unix(NextMonth(m)) - Unix(m) == (if LongFebruary(m.year) then 29 else 28) * 86400
  {
    NextMonthStarts(m);
    DaysByNumber(m.year, m.month);
  }

  /** Every fourth year but those that end a century, unless it is a fourth one. */
  predicate LongFebruary(year: nat) {
    (year % 4 == 0 && year % 100 != 0) || year % 400 == 0
  }

  /** Months counted from the scan start. */
  function Index(m: Month): int {
    (m.year - 2020) * 12 + m.month - 1
  }

  predicate EarlierMonth(a: Month, b: Month) {
    Index(a) < Index(b)
  }

  lemma SameIndex(a: Month, b: Month)
    requires IsMonth(a) && IsMonth(b) && Index(a) == Index(b)
    ensures a == b
  {
  }

  lemma {:induction false} EarlierEndsFirst(a: Month, b: Month)
    requires IsMonth(a) && IsMonth(b) && EarlierMonth(a, b)
    ensures Unix(NextMonth(a)) <= Unix(b)
    decreases Index(b) - Index(a)
  {
    var n := NextMonth(a);
    assert Index(n) == Index(a) + 1;
    NextMonthStarts(a);
    if Index(n) == Index(b) {
      SameIndex(n, b);
    } else {
      EarlierEndsFirst(n, b);
      NextMonthStarts(n);
    }
  }

  predicate InMonth(ts: int, m: Month) {
    IsMonth(m) && Unix(m) <= ts && ts < UnixEnd(m)
  }

  function UnixEnd(m: Month): int
    requires IsMonth(m)
  {
    NextMonthStarts(m);
    Unix(NextMonth(m))
  }

  /** A time lies in at most one month. */
  lemma OneMonthOnly(ts: int, a: Month, b: Month)
    requires InMonth(ts, a) && InMonth(ts, b)
    ensures a == b
  {
    if EarlierMonth(a, b) {
      EarlierEndsFirst(a, b);
    } else if EarlierMonth(b, a) {
      EarlierEndsFirst(b, a);
    } else {
      SameIndex(a, b);
    }
  }

  /** The months that a scan before `current` visits. */
  predicate Scanned(m: Month, current: Month) {
    IsMonth(m) && Index(SCAN_START) <= Index(m) < Index(current)
  }

  lemma ScannedNext(m: Month)
    requires IsMonth(m) && Index(SCAN_START) <= Index(m)
    ensures IsMonth(NextMonth(m)) && Index(NextMonth(m)) == Index(m) + 1
    ensures forall n :: Scanned(n, NextMonth(m)) <==> Scanned(n, m) || n == m
  {
    forall n | Scanned(n, NextMonth(m)) && !Scanned(n, m)
      ensures n == m
    {
      SameIndex(n, m);
    }
  }

  /** A time from the scan start to the current month's start lies in a scanned month. */
  lemma {:induction false} SomeScannedMonth(ts: int, start: Month, current: Month) returns (m: Month)
    requires IsMonth(start) && IsMonth(current) && Index(SCAN_START) <= Index(start) <= Index(current)
    requires Unix(start) <= ts < Unix(current)
    ensures Scanned(m, current) && InMonth(ts, m)
    decreases Index(current) - Index(start)
  {
    if Index(start) == Index(current) {
      SameIndex(start, current);
      assert false;
    }
    NextMonthStarts(start);
    if ts < Unix(NextMonth(start)) {
      m := start;
    } else {
      m := SomeScannedMonth(ts, NextMonth(start), current);
    }
  }

  lemma ScannedTimes(ts: int, m: Month, current: Month)
    requires IsMonth(current) && Scanned(m, current) && InMonth(ts, m)
    ensures Unix(SCAN_START) <= ts < Unix(current)
  {
    EarlierEndsFirst(m, current);
    if Index(SCAN_START) < Index(m) {
      EarlierEndsFirst(SCAN_START, m);
      NextMonthStarts(SCAN_START);
    } else {
      SameIndex(SCAN_START, m);
    }
  }

  // ---- Text ----

  function TwoDigits(n: nat): string
    requires n < 100
  {
    [DigitChar(n / 10), DigitChar(n % 10)]
  }

  function YearMonth(m: Month): string
    requires IsMonth(m)
  {
    PrintNat(m.year) + "-" + TwoDigits(m.month)
  }

  /** A file is named after its year and, in two digits, its month. */
  lemma YearMonthText(m: Month)
    requires IsMonth(m)
    ensures var t := YearMonth(m);
            && |t| > 3 && t[|t| - 3] == '-' && AllDigits(t[..|t| - 3]) && DigitsValue(t[..|t| - 3]) == m.year
            && AllDigits(t[|t| - 2..]) && DigitsValue(t[|t| - 2..]) == m.month
  {
    var t := YearMonth(m);
    assert t[..|t| - 3] == PrintNat(m.year) && t[|t| - 2..] == TwoDigits(m.month);
    PrintedValue(m.year);
    assert TwoDigits(m.month)[..1][..0] == "" && TwoDigits(m.month)[..1] == [TwoDigits(m.month)[0]];
    assert DigitsValue(TwoDigits(m.month)[..1]) == m.month / 10;
  }

  lemma YearMonthInjective(a: Month, b: Month)
    requires IsMonth(a) && IsMonth(b) && YearMonth(a) == YearMonth(b)
    ensures a == b
  {
    DigitsWithout(PrintNat(a.year), '-');
    DigitsWithout(PrintNat(b.year), '-');
    CutAtSeparator(PrintNat(a.year), PrintNat(b.year), TwoDigits(a.month), TwoDigits(b.month), '-');
    PrintedValue(a.year);
    PrintedValue(b.year);
    assert TwoDigits(a.month)[0] == TwoDigits(b.month)[0] && TwoDigits(a.month)[1] == TwoDigits(b.month)[1];
  }

  lemma DigitsWithout(s: string, sep: char)
    requires AllDigits(s) && !IsDigit(sep)
    ensures Without(s, sep)
  {
  }
}
