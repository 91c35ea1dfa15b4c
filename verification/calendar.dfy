/** Proleptic Gregorian dates as Python's `datetime.date` handles them:
    the `%Y-%m-%d` parse of `datetime.strptime`, the `strftime` formats the
    connector emits (query dates and the ingestion run id), the ordering
    `start > end`, and `date - timedelta(days = k)`. */
module Calendar {
  import opened Results

  /** `datetime.MINYEAR` and `datetime.MAXYEAR`. */
  const MinYear := 1
  const MaxYear := 9999

  datatype Date = Date(year: int, month: int, day: int)

  /** A UTC wall-clock reading, as returned by `datetime.now(timezone.utc)`. */
  datatype DateTime = DateTime(date: Date, hour: int, minute: int, second: int, microsecond: int)

  predicate IsLeap(y: int) {
    y % 4 == 0 && (y % 100 != 0 || y % 400 == 0)
  }

  function DaysInMonth(y: int, m: int): (n: int)
    requires 1 <= m <= 12
    ensures 28 <= n <= 31
  {
    if m == 2 then (if IsLeap(y) then 29 else 28)
    else if m == 4 || m == 6 || m == 9 || m == 11 then 30
    else 31
  }

  /** The dates `datetime.date` can represent. */
  predicate ValidDate(d: Date) {
    && MinYear <= d.year <= MaxYear
    && 1 <= d.month <= 12
    && 1 <= d.day <= DaysInMonth(d.year, d.month)
  }

  predicate ValidDateTime(t: DateTime) {
    && ValidDate(t.date)
    && 0 <= t.hour < 24
    && 0 <= t.minute < 60
    && 0 <= t.second < 60
    && 0 <= t.microsecond < 1000000
  }

  /** Python compares dates field by field: `a < b`. */
  predicate Before(a: Date, b: Date) {
    || a.year < b.year
    || (a.year == b.year && a.month < b.month)
    || (a.year == b.year && a.month == b.month && a.day < b.day)
  }

  /** `Before` is a strict order on dates. */
  lemma BeforeIsStrictOrder(a: Date, b: Date, c: Date)
    ensures !Before(a, a)
    ensures Before(a, b) ==> !Before(b, a)
    ensures Before(a, b) && Before(b, c) ==> Before(a, c)
    ensures a != b ==> Before(a, b) || Before(b, a)
  {
  }

  // ---------------------------------------------------------------------
  // Day ordinals (`date.toordinal()`), the meaning of date arithmetic
  // ---------------------------------------------------------------------

  /** Days in the years before year `y`. */
  function DaysBeforeYear(y: int): (n: int)
    requires y >= 1
    ensures n >= 0
  {
    if y == 1 then 0 else DaysBeforeYear(y - 1) + (if IsLeap(y - 1) then 366 else 365)
  }

  /** Days before the first of month `m` in a common year. */
  function CumulativeDays(m: int): int
    requires 1 <= m <= 12
  {
    if m == 1 then 0 else if m == 2 then 31 else if m == 3 then 59 else if m == 4 then 90
    else if m == 5 then 120 else if m == 6 then 151 else if m == 7 then 181 else if m == 8 then 212
    else if m == 9 then 243 else if m == 10 then 273 else if m == 11 then 304 else 334
  }

  /** Days in the year before the first of month `m`. */
  function DaysBeforeMonth(y: int, m: int): int
    requires 1 <= m <= 12
  {
    CumulativeDays(m) + (if m > 2 && IsLeap(y) then 1 else 0)
  }

  /** Day number counted from 0001-01-01, which is day 1. */
  function Ordinal(d: Date): int
    requires ValidDate(d)
  {
    DaysBeforeYear(d.year) + DaysBeforeMonth(d.year, d.month) + d.day
  }

  lemma DaysBeforeNextMonth(y: int, m: int)
    requires 1 <= m < 12
    ensures DaysBeforeMonth(y, m + 1) == DaysBeforeMonth(y, m) + DaysInMonth(y, m)
  {
  }

  lemma DaysBeforeNextYear(y: int)
    requires y >= 1
    ensures DaysBeforeYear(y + 1) == DaysBeforeYear(y) + DaysBeforeMonth(y, 12) + DaysInMonth(y, 12)
  {
  }

  /** The day before `d`, or `None` when `d` is the first representable day
      (where Python raises `OverflowError`). */
  function PrevDay(d: Date): (r: Option<Date>)
    requires ValidDate(d)
    ensures r.None? <==> d == Date(MinYear, 1, 1)
    ensures r.Some? ==> ValidDate(r.value) && Before(r.value, d)
  {
    if d.day > 1 then Some(Date(d.year, d.month, d.day - 1))
    else if d.month > 1 then Some(Date(d.year, d.month - 1, DaysInMonth(d.year, d.month - 1)))
    else if d.year > MinYear then Some(Date(d.year - 1, 12, 31))
    else None
  }

  /** The previous day is exactly one ordinal back. */
  lemma PrevDayOrdinal(d: Date)
    requires ValidDate(d)
    ensures PrevDay(d).Some? ==> Ordinal(PrevDay(d).value) + 1 == Ordinal(d)
  {
    if d.day == 1 && d.month > 1 {
      DaysBeforeNextMonth(d.year, d.month - 1);
    } else if d.day == 1 && d.year > MinYear {
      DaysBeforeNextYear(d.year - 1);
    }
  }

  /** `d - timedelta(days=k)`, or `None` where Python raises
      `OverflowError`: within the month when `k` is smaller than the day,
      otherwise from the last day of the previous month. */
  function MinusDays(d: Date, k: nat): (r: Option<Date>)
    requires ValidDate(d)
    ensures r.Some? ==> ValidDate(r.value)
    decreases k
  {
    if k < d.day then Some(Date(d.year, d.month, d.day - k))
    else match PrevDay(Date(d.year, d.month, 1))
      case None => None
      case Some(p) => MinusDays(p, k - d.day)
  }

  /** Going back past the first of the month: either there is no earlier
      month (and `d` is in January of year 1), or the subtraction continues
      from the last day of the previous month, which is `d.day` ordinals
      back. */
  lemma MinusDaysBack(d: Date, k: nat)
    requires ValidDate(d) && k >= d.day
    ensures var f := Date(d.year, d.month, 1);
      && ValidDate(f)
      && (PrevDay(f).None? ==> MinusDays(d, k).None? && Ordinal(d) == d.day)
      && (PrevDay(f).Some? ==>
            && MinusDays(d, k) == MinusDays(PrevDay(f).value, k - d.day)
            && Ordinal(PrevDay(f).value) == Ordinal(d) - d.day)
  {
    var f := Date(d.year, d.month, 1);
    PrevDayOrdinal(f);
    if PrevDay(f).None? {
      assert DaysBeforeYear(d.year) == 0 && DaysBeforeMonth(d.year, d.month) == 0;
    }
  }

  lemma {:induction false} MinusDaysFails(d: Date, k: nat)
    requires ValidDate(d)
    ensures MinusDays(d, k).None? <==> Ordinal(d) <= k
    decreases k
  {
    if k < d.day {
      assert Ordinal(d) >= d.day;
    } else {
      MinusDaysBack(d, k);
      var prev := PrevDay(Date(d.year, d.month, 1));
      if prev.Some? {
        MinusDaysFails(prev.value, k - d.day);
      }
    }
  }

  lemma {:induction false} MinusDaysShifts(d: Date, k: nat)
    requires ValidDate(d)
    ensures MinusDays(d, k).Some? ==> Ordinal(MinusDays(d, k).value) == Ordinal(d) - k
    decreases k
  {
    if k >= d.day {
      MinusDaysBack(d, k);
      var prev := PrevDay(Date(d.year, d.month, 1));
      if prev.Some? {
        MinusDaysShifts(prev.value, k - d.day);
      }
    }
  }

  lemma {:induction false} MinusDaysNotAfter(d: Date, k: nat)
    requires ValidDate(d)
    ensures MinusDays(d, k).Some? ==> !Before(d, MinusDays(d, k).value)
    decreases k
  {
    if k >= d.day {
      var f := Date(d.year, d.month, 1);
      var prev := PrevDay(f);
      if prev.Some? {
        var p := prev.value;
        MinusDaysNotAfter(p, k - d.day);
        var m := MinusDays(p, k - d.day);
        if m.Some? {
          BeforeIsStrictOrder(m.value, p, f);
          BeforeIsStrictOrder(m.value, f, d);
        }
      }
    }
  }

  /** Subtracting `k` days moves exactly `k` ordinals back, and fails exactly
      when fewer than `k` days precede `d`; a successful result is never
      after `d`. */
  lemma MinusDaysOrdinal(d: Date, k: nat)
    requires ValidDate(d)
    ensures MinusDays(d, k).None? <==> Ordinal(d) <= k
    ensures MinusDays(d, k).Some? ==> Ordinal(MinusDays(d, k).value) == Ordinal(d) - k
    ensures MinusDays(d, k).Some? ==> !Before(d, MinusDays(d, k).value)
  {
    MinusDaysFails(d, k);
    MinusDaysShifts(d, k);
    MinusDaysNotAfter(d, k);
  }

  // ---------------------------------------------------------------------
  // Decimal digits
  // ---------------------------------------------------------------------

  predicate IsDigit(c: char) {
    '0' <= c <= '9'
  }

  predicate AllDigits(s: string) {
    forall i | 0 <= i < |s| :: IsDigit(s[i])
  }

  function DigitChar(d: nat): (c: char)
    requires d < 10
    ensures IsDigit(c)
  {
    ('0' as int + d) as char
  }

  function DigitValue(c: char): (d: nat)
    requires IsDigit(c)
    ensures d < 10 && DigitChar(d) == c
  {
    c as int - '0' as int
  }

  function Pow10(k: nat): (p: nat)
    ensures p >= 1
  {
    if k == 0 then 1 else 10 * Pow10(k - 1)
  }

  /** The value of a string of decimal digits (the `int(...)` strptime applies). */
  function DigitsValue(s: string): (n: nat)
    requires AllDigits(s)
    ensures n < Pow10(|s|)
  {
    if s == [] then 0
    else 10 * DigitsValue(s[..|s| - 1]) + DigitValue(s[|s| - 1])
  }

  /** `n` written with exactly `width` digits, zero-padded on the left (the
      `%Y` = 4, `%m %d %H %M %S` = 2 directives of `strftime`). */
  function PadDigits(n: nat, width: nat): (s: string)
    ensures |s| == width && AllDigits(s)
  {
    if width == 0 then ""
    else PadDigits(n / 10, width - 1) + [DigitChar(n % 10)]
  }

  /** Reading back a padded number gives the number, as long as it fits. */
  lemma {:induction false} PadDigitsRoundTrip(n: nat, width: nat)
    requires n < Pow10(width)
    ensures DigitsValue(PadDigits(n, width)) == n
  {
    if width > 0 {
      var s := PadDigits(n, width);
      assert s[..|s| - 1] == PadDigits(n / 10, width - 1);
      PadDigitsRoundTrip(n / 10, width - 1);
    }
  }

  lemma PadTwoDigits(n: nat)
    requires n < 100
    ensures PadDigits(n, 2) == [DigitChar(n / 10), DigitChar(n % 10)]
  {
    var q := n / 10;
    assert q < 10 && q / 10 == 0 && q % 10 == q;
    assert PadDigits(q, 1) == PadDigits(q / 10, 0) + [DigitChar(q % 10)] == [DigitChar(q)];
    assert PadDigits(n, 2) == PadDigits(q, 1) + [DigitChar(n % 10)];
  }

  // ---------------------------------------------------------------------
  // strftime
  // ---------------------------------------------------------------------

  /** `d.strftime("%Y-%m-%d")`. */
  function FormatDate(d: Date): (s: string)
    requires ValidDate(d)
    ensures |s| == 10 && s[4] == '-' && s[7] == '-'
    ensures forall i | 0 <= i < |s| && i != 4 && i != 7 :: IsDigit(s[i])
  {
    PadDigits(d.year, 4) + "-" + PadDigits(d.month, 2) + "-" + PadDigits(d.day, 2)
  }

  /** `t.strftime("run_%Y%m%dT%H%M%SZ")`, the ingestion run id. */
  function RunId(t: DateTime): (s: string)
    requires ValidDateTime(t)
    ensures |s| == 20 && s[..4] == "run_" && s[12] == 'T' && s[19] == 'Z'
    ensures forall i | 4 <= i < 19 && i != 12 :: IsDigit(s[i])
  {
    "run_" + PadDigits(t.date.year, 4) + PadDigits(t.date.month, 2) + PadDigits(t.date.day, 2)
    + "T" + PadDigits(t.hour, 2) + PadDigits(t.minute, 2) + PadDigits(t.second, 2) + "Z"
  }

  /** Two readings of the clock land in the same second. */
  predicate SameSecond(a: DateTime, b: DateTime) {
    a.date == b.date && a.hour == b.hour && a.minute == b.minute && a.second == b.second
  }

  lemma PadDigitsInjective(a: nat, b: nat, width: nat)
    requires a < Pow10(width) && b < Pow10(width)
    requires PadDigits(a, width) == PadDigits(b, width)
    ensures a == b
  {
    PadDigitsRoundTrip(a, width);
    PadDigitsRoundTrip(b, width);
  }

  /** Run ids tell runs apart at second granularity: two run ids are equal
      exactly when the clock readings they come from fall in the same second. */
  lemma RunIdSecondGranularity(a: DateTime, b: DateTime)
    requires ValidDateTime(a) && ValidDateTime(b)
    ensures RunId(a) == RunId(b) <==> SameSecond(a, b)
  {
    if RunId(a) == RunId(b) {
      assert Pow10(2) == 100 && Pow10(4) == 10000;
      RunIdFields(a);
      RunIdFields(b);
      PadDigitsInjective(a.date.year, b.date.year, 4);
      PadDigitsInjective(a.date.month, b.date.month, 2);
      PadDigitsInjective(a.date.day, b.date.day, 2);
      PadDigitsInjective(a.hour, b.hour, 2);
      PadDigitsInjective(a.minute, b.minute, 2);
      PadDigitsInjective(a.second, b.second, 2);
    }
  }

  /** Where each field sits in a run id. */
  lemma RunIdFields(t: DateTime)
    requires ValidDateTime(t)
    ensures RunId(t)[4..8] == PadDigits(t.date.year, 4)
    ensures RunId(t)[8..10] == PadDigits(t.date.month, 2)
    ensures RunId(t)[10..12] == PadDigits(t.date.day, 2)
    ensures RunId(t)[13..15] == PadDigits(t.hour, 2)
    ensures RunId(t)[15..17] == PadDigits(t.minute, 2)
    ensures RunId(t)[17..19] == PadDigits(t.second, 2)
  {
    var y, mo, d := PadDigits(t.date.year, 4), PadDigits(t.date.month, 2), PadDigits(t.date.day, 2);
    var h, mi, se := PadDigits(t.hour, 2), PadDigits(t.minute, 2), PadDigits(t.second, 2);
    var p1 := "run_" + y;
    var p2 := p1 + mo;
    var p3 := p2 + d;
    var p5 := p3 + "T" + h;
    var p6 := p5 + mi;
    var p7 := p6 + se;
    var s := p7 + "Z";
    assert RunId(t) == s;
    ConcatPieces(p7, "Z", 17, 19);
    ConcatPieces(p6, se, 15, 17);
    ConcatPieces(p5, mi, 13, 15);
    ConcatPieces(p3 + "T", h, 10, 12);
    ConcatPieces(p3, "T", 10, 12);
    ConcatPieces(p2, d, 8, 10);
    ConcatPieces(p1, mo, 4, 8);
    ConcatPieces("run_", y, 0, 4);
  }

  /** In `p + q`, `q` sits at `|p|..`, and slices inside `p` stay put. */
  lemma ConcatPieces(p: string, q: string, i: nat, j: nat)
    requires i <= j <= |p|
    ensures (p + q)[|p|..] == q
    ensures (p + q)[i..j] == p[i..j]
    ensures (p + q)[..|p|] == p
  {
  }

  // ---------------------------------------------------------------------
  // strptime(s, "%Y-%m-%d")
  // ---------------------------------------------------------------------

  /** A number matched by one group of strptime's regular expression and
      the count of characters it consumed. */
  datatype Token = Token(value: nat, width: nat)

  /** The `%m` group, `1[0-2]|0[1-9]|[1-9]`, alternatives tried in order. */
  function MonthToken(t: string): (r: Option<Token>)
    ensures r.Some? ==> 1 <= r.value.width <= |t| && 1 <= r.value.value <= 12
  {
    if |t| >= 2 && t[0] == '1' && '0' <= t[1] <= '2' then Some(Token(10 + DigitValue(t[1]), 2))
    else if |t| >= 2 && t[0] == '0' && '1' <= t[1] <= '9' then Some(Token(DigitValue(t[1]), 2))
    else if |t| >= 1 && '1' <= t[0] <= '9' then Some(Token(DigitValue(t[0]), 1))
    else None
  }

  /** The `%d` group, `3[01]|[12]\d|0[1-9]|[1-9]| [1-9]`, alternatives tried
      in order; the first that matches is kept. */
  function DayToken(t: string): (r: Option<Token>)
    ensures r.Some? ==> 1 <= r.value.width <= |t| && 1 <= r.value.value <= 31
  {
    if |t| >= 2 && t[0] == '3' && '0' <= t[1] <= '1' then Some(Token(30 + DigitValue(t[1]), 2))
    else if |t| >= 2 && '1' <= t[0] <= '2' && IsDigit(t[1]) then
      Some(Token(10 * DigitValue(t[0]) + DigitValue(t[1]), 2))
    else if |t| >= 2 && t[0] == '0' && '1' <= t[1] <= '9' then Some(Token(DigitValue(t[1]), 2))
    else if |t| >= 1 && '1' <= t[0] <= '9' then Some(Token(DigitValue(t[0]), 1))
    else if |t| >= 2 && t[0] == ' ' && '1' <= t[1] <= '9' then Some(Token(DigitValue(t[1]), 2))
    else None
  }

  /** `datetime.strptime(s, "%Y-%m-%d").date()`, with `None` for the
      `ValueError` it raises: the text does not match, characters remain
      after the match, or the numbers name no real date (year 0, Feb 30). */
  function ParseDate(s: string): (r: Option<Date>)
    ensures r.Some? ==> ValidDate(r.value)
  {
    if |s| < 5 || !AllDigits(s[..4]) || s[4] != '-' then None
    else match MonthToken(s[5..])
      case None => None
      case Some(m) =>
        var rest := s[5 + m.width..];
        if |rest| == 0 || rest[0] != '-' then None
        else match DayToken(rest[1..])
          case None => None
          case Some(d) =>
            if d.width != |rest| - 1 then None
            else
              var date := Date(DigitsValue(s[..4]), m.value, d.value);
              if ValidDate(date) then Some(date) else None
  }

  lemma MonthTokenOfPadded(m: int, rest: string)
    requires 1 <= m <= 12
    ensures MonthToken(PadDigits(m, 2) + rest) == Some(Token(m, 2))
  {
    PadTwoDigits(m);
  }

  lemma DayTokenOfPadded(d: int)
    requires 1 <= d <= 31
    ensures DayToken(PadDigits(d, 2)) == Some(Token(d, 2))
  {
    PadTwoDigits(d);
  }

  /** Parsing what `FormatDate` wrote gives back the same date, so the
      dates the connector sends are exactly the dates it was asked for. */
  lemma FormatParseRoundTrip(d: Date)
    requires ValidDate(d)
    ensures ParseDate(FormatDate(d)) == Some(d)
  {
    var s := FormatDate(d);
    var y, mm, dd := PadDigits(d.year, 4), PadDigits(d.month, 2), PadDigits(d.day, 2);
    assert s[..4] == y;
    assert Pow10(4) == 10000;
    PadDigitsRoundTrip(d.year, 4);
    assert s[5..] == mm + ("-" + dd);
    MonthTokenOfPadded(d.month, "-" + dd);
    assert s[7..] == "-" + dd;
    assert s[7..][1..] == dd;
    DayTokenOfPadded(d.day);
  }

  /** Writing the value of a digit string back at its own width gives the
      digit string. */
  lemma {:induction false} DigitsPadRoundTrip(t: string)
    requires AllDigits(t)
    ensures PadDigits(DigitsValue(t), |t|) == t
    decreases |t|
  {
    if t != [] {
      var init, last := t[..|t| - 1], t[|t| - 1];
      var n := DigitsValue(t);
      assert n == 10 * DigitsValue(init) + DigitValue(last);
      assert n / 10 == DigitsValue(init) && n % 10 == DigitValue(last);
      DigitsPadRoundTrip(init);
      assert t == init + [last];
    }
  }

  lemma MonthTokenCanonical(t: string)
    requires MonthToken(t).Some? && MonthToken(t).value.width == 2
    ensures PadDigits(MonthToken(t).value.value, 2) == t[..2]
  {
    PadTwoDigits(MonthToken(t).value.value);
  }

  lemma DayTokenCanonical(t: string)
    requires DayToken(t).Some? && DayToken(t).value.width == 2 && t[0] != ' '
    ensures PadDigits(DayToken(t).value.value, 2) == t[..2]
  {
    PadTwoDigits(DayToken(t).value.value);
  }

  /** The converse of `FormatParseRoundTrip`: a ten-character date that
      parses, with no blank in it, is exactly what `FormatDate` writes for
      the parsed date. Shorter accepted forms (`2024-1-5`) and a blank
      before a one-digit day (`2024-01- 5`) parse too but are not canonical. */
  lemma ParseFormatRoundTrip(s: string)
    requires ParseDate(s).Some? && |s| == 10 && ' ' !in s
    ensures FormatDate(ParseDate(s).value) == s
  {
    var d := ParseDate(s).value;
    var m := MonthToken(s[5..]).value;
    var rest := s[5 + m.width..];
    var day := DayToken(rest[1..]).value;
    assert m.width == 2 && day.width == 2;
    DigitsPadRoundTrip(s[..4]);
    MonthTokenCanonical(s[5..]);
    assert rest[1..] == s[8..];
    DayTokenCanonical(s[8..]);
    assert s == s[..4] + "-" + s[5..7] + "-" + s[8..];
  }

  lemma Year2024()
    ensures DigitsValue("2024") == 2024
  {
    assert "2024"[..3] == "202" && "202"[..2] == "20" && "20"[..1] == "2" && "2"[..0] == "";
  }

  /** strptime also accepts unpadded fields and a blank before a one-digit
      day; each names the same date as its padded form. */
  lemma LenientForms()
    ensures ParseDate("2024-1-5") == Some(Date(2024, 1, 5))
    ensures ParseDate("2024-01- 5") == Some(Date(2024, 1, 5))
  {
    Year2024();
    assert "2024-1-5"[..4] == "2024" && "2024-1-5"[5..] == "1-5";
    assert "2024-01- 5"[..4] == "2024" && "2024-01- 5"[5..] == "01- 5";
  }

  /** An impossible day and characters after the day are both rejected. */
  lemma StrictForms()
    ensures ParseDate("2024-02-30") == None
    ensures ParseDate("2024-01-05x") == None
  {
    Year2024();
    assert "2024-02-30"[..4] == "2024" && "2024-02-30"[5..] == "02-30";
    assert "2024-01-05x"[..4] == "2024" && "2024-01-05x"[5..] == "01-05x";
  }
}
