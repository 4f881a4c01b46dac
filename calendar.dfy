/**
 * Calendar days as the reminder table uses them: Python's `datetime.date`
 * (proleptic Gregorian, years 1 to 9999), adding whole days, and the
 * `YYYY-MM-DD` text form written by `strftime('%Y-%m-%d')` and read back
 * by `pd.to_datetime(..., errors='coerce')`.
 */
module Calendar {
  import opened Options

  datatype Date = Date(year: int, month: int, day: int)

  const MIN_YEAR: int := 1
  const MAX_YEAR: int := 9999

  predicate IsLeapYear(year: int) {
    year % 4 == 0 && (year % 100 != 0 || year % 400 == 0)
  }

  function DaysInMonth(year: int, month: int): int {
    if month == 2 then (if IsLeapYear(year) then 29 else 28)
    else if month == 4 || month == 6 || month == 9 || month == 11 then 30
    else 31
  }

  /** A real day of the proleptic Gregorian calendar, in any year. */
  predicate WellFormed(d: Date) {
    1 <= d.month <= 12 && 1 <= d.day <= DaysInMonth(d.year, d.month)
  }

  /** A day that Python's `datetime.date` can hold. */
  predicate InRange(d: Date) {
    WellFormed(d) && MIN_YEAR <= d.year <= MAX_YEAR
  }

  /** Chronological order. */
  predicate Before(a: Date, b: Date) {
    a.year < b.year
    || (a.year == b.year && (a.month < b.month || (a.month == b.month && a.day < b.day)))
  }

  /** The following day. */
  function Next(d: Date): Date {
    if d.day < DaysInMonth(d.year, d.month) then Date(d.year, d.month, d.day + 1)
    else if d.month < 12 then Date(d.year, d.month + 1, 1)
    else Date(d.year + 1, 1, 1)
  }

  /** The preceding day. */
  function Prev(d: Date): Date {
    if d.day > 1 then Date(d.year, d.month, d.day - 1)
    else if d.month > 1 then Date(d.year, d.month - 1, DaysInMonth(d.year, d.month - 1))
    else Date(d.year - 1, 12, 31)
  }

  lemma NextPrev(d: Date)
    requires WellFormed(d)
    ensures WellFormed(Next(d)) && WellFormed(Prev(d))
    ensures Prev(Next(d)) == d && Next(Prev(d)) == d
    ensures Before(d, Next(d)) && Before(Prev(d), d)
  {
  }

  /** `n` days after `d`, with no range limit. */
  function Later(d: Date, n: nat): Date
    decreases n
  {
    if n == 0 then d else Later(Next(d), n - 1)
  }

  /** `n` days before `d`, with no range limit. */
  function Earlier(d: Date, n: nat): Date
    decreases n
  {
    if n == 0 then d else Prev(Earlier(d, n - 1))
  }

  lemma {:induction false} LaterIsLater(d: Date, n: nat)
    requires WellFormed(d)
    ensures WellFormed(Later(d, n))
    ensures n > 0 ==> Before(d, Later(d, n))
    decreases n
  {
    if n > 0 {
      NextPrev(d);
      LaterIsLater(Next(d), n - 1);
    }
  }

  lemma {:induction false} EarlierWellFormed(d: Date, n: nat)
    requires WellFormed(d)
    ensures WellFormed(Earlier(d, n))
    decreases n
  {
    if n > 0 {
      EarlierWellFormed(d, n - 1);
      NextPrev(Earlier(d, n - 1));
    }
  }

  /** Going back `n` days and then forward `n` days lands on the same day. */
  lemma {:induction false} LaterUndoesEarlier(d: Date, n: nat)
    requires WellFormed(d)
    ensures Later(Earlier(d, n), n) == d
    decreases n
  {
    if n > 0 {
      var e := Earlier(d, n - 1);
      EarlierWellFormed(d, n - 1);
      NextPrev(e);
      assert Later(Prev(e), n) == Later(e, n - 1);
      LaterUndoesEarlier(d, n - 1);
    }
  }

  /** Within one month, adding days only moves the day of the month. */
  lemma {:induction false} LaterInMonth(d: Date, n: nat)
    requires WellFormed(d) && d.day + n <= DaysInMonth(d.year, d.month)
    ensures Later(d, n) == Date(d.year, d.month, d.day + n)
    decreases n
  {
    if n > 0 {
      LaterInMonth(Next(d), n - 1);
    }
  }

  /** Distinct days stay distinct `n` days later. */
  lemma {:induction false} LaterInjective(a: Date, b: Date, n: nat)
    requires WellFormed(a) && WellFormed(b) && Later(a, n) == Later(b, n)
    ensures a == b
    decreases n
  {
    if n > 0 {
      NextPrev(a);
      NextPrev(b);
      LaterInjective(Next(a), Next(b), n - 1);
    }
  }

  /** Each day forward moves the year by at most one. */
  lemma {:induction false} LaterYears(d: Date, n: nat)
    ensures d.year <= Later(d, n).year <= d.year + n
    decreases n
  {
    if n > 0 {
      LaterYears(Next(d), n - 1);
    }
  }

  /** Each day back moves the year by at most one. */
  lemma {:induction false} EarlierYears(d: Date, n: nat)
    ensures d.year - n <= Earlier(d, n).year <= d.year
    decreases n
  {
    if n > 0 {
      EarlierYears(d, n - 1);
    }
  }

  /**
   * `d + timedelta(days=n)`: `None` stands for Python's OverflowError, raised
   * when the sum leaves the years 1 to 9999.
   */
  function AddDays(d: Date, n: nat): (r: Option<Date>)
    requires InRange(d)
    ensures r.Some? ==> InRange(r.value) && (n > 0 ==> Before(d, r.value))
    ensures r.Some? <==> Later(d, n).year <= MAX_YEAR
  {
    LaterIsLater(d, n);
    var e := Later(d, n);
    if InRange(e) then Some(e) else None
  }

  /** `d - timedelta(days=n)`, `None` on OverflowError. */
  function SubtractDays(d: Date, n: nat): (r: Option<Date>)
    requires InRange(d)
    ensures r.Some? ==> InRange(r.value) && AddDays(r.value, n) == Some(d)
    ensures r.Some? <==> Earlier(d, n).year >= MIN_YEAR
  {
    EarlierWellFormed(d, n);
    EarlierYears(d, n);
    var e := Earlier(d, n);
    if InRange(e) then (LaterUndoesEarlier(d, n); Some(e)) else None
  }

  /** Adding `n` days is defined whenever `n` years' headroom remains before 9999. */
  lemma AddDaysDefined(d: Date, n: nat)
    requires InRange(d) && d.year + n <= MAX_YEAR
    ensures AddDays(d, n).Some?
  {
    LaterYears(d, n);
  }

  /** Subtracting `n` days is defined whenever the year is at least `n` past year 1. */
  lemma SubtractDaysDefined(d: Date, n: nat)
    requires InRange(d) && d.year - n >= MIN_YEAR
    ensures SubtractDays(d, n).Some?
  {
    EarlierYears(d, n);
  }

  function Pow10(k: nat): nat {
    if k == 0 then 1 else 10 * Pow10(k - 1)
  }

  predicate IsDigit(c: char) {
    '0' <= c <= '9'
  }

  predicate AllDigits(s: string) {
    forall i :: 0 <= i < |s| ==> IsDigit(s[i])
  }

  function DigitChar(k: nat): char
    requires k < 10
  {
    ('0' as int + k) as char
  }

  /** The last `width` decimal digits of `n`, zero-padded. */
  function Digits(n: nat, width: nat): (s: string)
    ensures |s| == width && AllDigits(s)
  {
    if width == 0 then "" else Digits(n / 10, width - 1) + [DigitChar(n % 10)]
  }

  /** The number a string of decimal digits spells. */
  function DigitsValue(s: string): nat
    requires AllDigits(s)
  {
    if s == [] then 0 else 10 * DigitsValue(s[..|s| - 1]) + (s[|s| - 1] as int - '0' as int)
  }

  lemma {:induction false} ValueOfDigits(n: nat, width: nat)
    requires n < Pow10(width)
    ensures DigitsValue(Digits(n, width)) == n
    decreases width
  {
    if width > 0 {
      ValueOfDigits(n / 10, width - 1);
      var s := Digits(n, width);
      assert s[..|s| - 1] == Digits(n / 10, width - 1);
    }
  }

  lemma {:induction false} DigitsOfValue(s: string)
    requires AllDigits(s)
    ensures DigitsValue(s) < Pow10(|s|)
    ensures Digits(DigitsValue(s), |s|) == s
    decreases |s|
  {
    if s != [] {
      var p := s[..|s| - 1];
      DigitsOfValue(p);
      var v := DigitsValue(s);
      assert v / 10 == DigitsValue(p) && v % 10 == s[|s| - 1] as int - '0' as int;
      assert s == p + [s[|s| - 1]];
    }
  }

  /** `strftime('%Y-%m-%d')`. */
  function Format(d: Date): (s: string)
    requires InRange(d)
    ensures |s| == 10 && s[4] == '-' && s[7] == '-'
    ensures AllDigits(s[..4]) && AllDigits(s[5..7]) && AllDigits(s[8..])
    ensures DigitsValue(s[..4]) == d.year && DigitsValue(s[5..7]) == d.month && DigitsValue(s[8..]) == d.day
  {
    var s := Digits(d.year, 4) + "-" + Digits(d.month, 2) + "-" + Digits(d.day, 2);
    assert s[..4] == Digits(d.year, 4);
    assert s[5..7] == Digits(d.month, 2);
    assert s[8..] == Digits(d.day, 2);
    assert Pow10(2) == 100 && Pow10(4) == 10000;
    ValueOfDigits(d.year, 4);
    ValueOfDigits(d.month, 2);
    ValueOfDigits(d.day, 2);
    s
  }

  /**
   * `pd.to_datetime(s, errors='coerce')` restricted to the ISO form: `None`
   * (NaT) for blank, malformed or impossible dates.
   */
  function Parse(s: string): (r: Option<Date>)
    ensures r.Some? ==> InRange(r.value)
  {
    if |s| == 10 && s[4] == '-' && s[7] == '-'
       && AllDigits(s[..4]) && AllDigits(s[5..7]) && AllDigits(s[8..])
    then
      var d := Date(DigitsValue(s[..4]), DigitsValue(s[5..7]), DigitsValue(s[8..]));
      if InRange(d) then Some(d) else None
    else None
  }

  lemma ParseFormat(d: Date)
    requires InRange(d)
    ensures Parse(Format(d)) == Some(d)
  {
  }

  lemma FormatParse(s: string)
    requires Parse(s).Some?
    ensures Format(Parse(s).value) == s
  {
    DigitsOfValue(s[..4]);
    DigitsOfValue(s[5..7]);
    DigitsOfValue(s[8..]);
    assert s == s[..4] + [s[4]] + s[5..7] + [s[7]] + s[8..];
  }

  /** A text parses to a day exactly when it is that day's ISO form. */
  lemma ParseIff(s: string, d: Date)
    ensures Parse(s) == Some(d) <==> InRange(d) && s == Format(d)
  {
    if Parse(s) == Some(d) {
      FormatParse(s);
    }
    if InRange(d) && s == Format(d) {
      ParseFormat(d);
    }
  }
}
