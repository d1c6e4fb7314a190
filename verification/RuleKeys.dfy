/** Names and times used by the rule engine: calendar stamps, idempotency keys and quiet hours. */
module RuleKeys {
  import opened Prelude
  import opened Decimal

  const DAY := 86400
  const HOUR := 3600
  const MINUTE := 60
  const MINUTES_PER_DAY := 1440

  // ---------------------------------------------------------------- the calendar day as YYYYMMDD

  datatype Date = Date(year: nat, month: nat, day: nat)

  predicate Leap(y: nat) {
    y % 4 == 0 && (y % 100 != 0 || y % 400 == 0)
  }

  function DaysIn(y: nat, m: nat): nat {
    if m == 2 then (if Leap(y) then 29 else 28)
    else if m == 4 || m == 6 || m == 9 || m == 11 then 30 else 31
  }

  function NextDay(d: Date): Date {
    if d.day < DaysIn(d.year, d.month) then d.(day := d.day + 1)
    else if d.month < 12 then Date(d.year, d.month + 1, 1)
    else Date(d.year + 1, 1, 1)
  }

  /** The Gregorian date of a day number counted from 1 January 1970. */
  function CivilDate(n: nat): Date {
    if n == 0 then Date(1970, 1, 1) else NextDay(CivilDate(n - 1))
  }

  function Number(d: Date): nat {
    d.year * 10000 + d.month * 100 + d.day
  }

  function Stamp(day: nat): string {
    Digits(Number(CivilDate(day)))
  }

  lemma {:induction false} StampsGrow(a: nat, b: nat)
    requires a < b
    ensures Number(CivilDate(a)) < Number(CivilDate(b))
    ensures 1 <= CivilDate(b).month <= 12 && 1 <= CivilDate(b).day <= 31
    decreases b
  {
    InCalendar(b - 1);
    if a < b - 1 {
      StampsGrow(a, b - 1);
    }
  }

  lemma {:induction false} InCalendar(n: nat)
    ensures 1 <= CivilDate(n).month <= 12 && 1 <= CivilDate(n).day <= 31
  {
    if n > 0 {
      InCalendar(n - 1);
    }
  }

  /** From the first of a month its days follow one another. */
  lemma {:induction false} MonthRuns(n: nat, y: nat, m: nat, k: nat)
    requires CivilDate(n) == Date(y, m, 1) && 1 <= m <= 12 && k < DaysIn(y, m)
    ensures CivilDate(n + k) == Date(y, m, k + 1)
  {
    if k > 0 {
      MonthRuns(n, y, m, k - 1);
    }
  }

  lemma MonthEnds(n: nat, y: nat, m: nat)
    requires CivilDate(n) == Date(y, m, 1) && 1 <= m <= 12
    ensures CivilDate(n + DaysIn(y, m)) == if m < 12 then Date(y, m + 1, 1) else Date(y + 1, 1, 1)
  {
    MonthRuns(n, y, m, DaysIn(y, m) - 1);
  }

  /** Days before a month, in a year that is not a leap year. */
  function DaysBefore(m: nat): nat
    requires 1 <= m <= 13
  {
    [0, 31, 59, 90, 120, 151, 181, 212, 243, 273, 304, 334, 365][m - 1]
  }

  /** A Gregorian year: twelve months with the usual first days, and a leap day after February in years divisible
      by four but not by a hundred unless by four hundred. */
  lemma {:induction false} YearRuns(n: nat, y: nat, m: nat)
    requires CivilDate(n) == Date(y, 1, 1) && 1 <= m <= 13
    ensures var leap := if y % 400 == 0 || (y % 4 == 0 && y % 100 != 0) then 1 else 0;
            CivilDate(n + DaysBefore(m) + (if m > 2 then leap else 0)) == if m <= 12 then Date(y, m, 1) else Date(y + 1, 1, 1)
    decreases m
  {
    if m > 1 {
      YearRuns(n, y, m - 1);
      var leap := if y % 400 == 0 || (y % 4 == 0 && y % 100 != 0) then 1 else 0;
      MonthEnds(n + DaysBefore(m - 1) + (if m > 3 then leap else 0), y, m - 1);
    }
  }

  /** The stamp is the date read as one decimal number: year, then two digits of month and of day. */
  lemma StampReadsAsDate(day: nat)
    ensures AllDigits(Stamp(day))
    ensures ValueOf(Stamp(day)) == CivilDate(day).year * 10000 + CivilDate(day).month * 100 + CivilDate(day).day
    ensures CivilDate(0) == Date(1970, 1, 1)
  {
    DigitsReadBack(CivilDate(day).year * 10000 + CivilDate(day).month * 100 + CivilDate(day).day);
  }

  lemma StampIdentifiesDay(a: nat, b: nat)
    requires Stamp(a) == Stamp(b)
    ensures a == b
  {
    DigitsInjective(Number(CivilDate(a)), Number(CivilDate(b)));
    if a < b {
      StampsGrow(a, b);
    } else if b < a {
      StampsGrow(b, a);
    }
  }

  // ---------------------------------------------------------------- idempotency keys

  function RulePrefix(id: nat): string {
    "rule:" + Digits(id) + ":"
  }

  function RuleKey(id: nat, day: nat): string {
    RulePrefix(id) + Stamp(day)
  }

  predicate HasPrefix(s: string, prefix: string) {
    |prefix| <= |s| && s[..|prefix|] == prefix
  }

  /** The counting prefix of one rule never matches another rule's key. */
  lemma PrefixCountsOnlyItsRule(i: nat, j: nat, day: nat)
    ensures HasPrefix(RuleKey(j, day), RulePrefix(i)) <==> i == j
  {
    var k, p := RuleKey(j, day), RulePrefix(i);
    assert RuleKey(j, day)[..|RulePrefix(j)|] == RulePrefix(j);
    if HasPrefix(k, p) {
      var rest := k[|p|..];
      assert p + rest == RulePrefix(j) + Stamp(day);
      AfterStem(i, rest);
      AfterStem(j, Stamp(day));
      NumberThenSeparator(j, i, ':', Stamp(day), rest);
    }
  }

  lemma AfterStem(id: nat, tail: string)
    ensures (RulePrefix(id) + tail)[5..] == Digits(id) + [':'] + tail
  {
  }

  lemma RuleKeyIdentifiesRuleAndDay(i: nat, a: nat, j: nat, b: nat)
    requires RuleKey(i, a) == RuleKey(j, b)
    ensures i == j && a == b
  {
    AfterStem(i, Stamp(a));
    AfterStem(j, Stamp(b));
    NumberThenSeparator(i, j, ':', Stamp(a), Stamp(b));
    StampIdentifiesDay(a, b);
  }

  // ---------------------------------------------------------------- quiet hours

  function DigitAt(s: string, i: nat): nat
    requires i < |s| && IsDigit(s[i])
  {
    (s[i] as int - '0' as int)
  }

  /** `HH:MM` on a 24-hour clock, as minutes since midnight. */
  function ParseTime(s: string): Option<nat> {
    if |s| != 5 || s[2] != ':' || !IsDigit(s[0]) || !IsDigit(s[1]) || !IsDigit(s[3]) || !IsDigit(s[4]) then None
    else
      var h, m := 10 * DigitAt(s, 0) + DigitAt(s, 1), 10 * DigitAt(s, 3) + DigitAt(s, 4);
      if h <= 23 && m <= 59 then Some(h * 60 + m) else None
  }

  function Clock(h: nat, m: nat): string
    requires h < 24 && m < 60
  {
    [Digit(h / 10), Digit(h % 10), ':', Digit(m / 10), Digit(m % 10)]
  }

  /** Exactly the times `00:00` to `23:59` are read, as the minutes they show. */
  lemma ParseTimeIff(s: string, v: nat)
    ensures ParseTime(s) == Some(v) <==> v < 1440 && s == Clock(v / 60, v % 60)
  {
    if ParseTime(s) == Some(v) {
      var h, m := 10 * DigitAt(s, 0) + DigitAt(s, 1), 10 * DigitAt(s, 3) + DigitAt(s, 4);
      assert v == h * 60 + m && v / 60 == h && v % 60 == m;
    }
    if v < 1440 && s == Clock(v / 60, v % 60) {
      var h, m := v / 60, v % 60;
      assert 10 * (h / 10) + h % 10 == h && 10 * (m / 10) + m % 10 == m;
    }
  }

  function QuietHoursActive(start: Option<string>, end: Option<string>, cur: nat): bool {
    if start.None? || end.None? || start.value == "" || end.value == "" then false
    else
      match (ParseTime(start.value), ParseTime(end.value))
      case (Some(s), Some(e)) => if s <= e then s <= cur < e else cur >= s || cur < e
      case _ => false
  }

  /** Quiet hours are the half-open arc of the clock face that starts at `start` and runs forward to
      `end`, across midnight when need be; equal ends make an empty arc. */
  lemma QuietHoursAreAnArc(start: string, end: string, cur: nat)
    requires ParseTime(start).Some? && ParseTime(end).Some? && cur < MINUTES_PER_DAY
    ensures QuietHoursActive(Some(start), Some(end), cur)
            <==> (cur - ParseTime(start).value) % MINUTES_PER_DAY
                 < (ParseTime(end).value - ParseTime(start).value) % MINUTES_PER_DAY
  {
    var s: int, e: int := ParseTime(start).value, ParseTime(end).value;
    Wrap(cur - s);
    Wrap(e - s);
  }

  lemma Wrap(d: int)
    requires -MINUTES_PER_DAY < d < MINUTES_PER_DAY
    ensures d % MINUTES_PER_DAY == if d >= 0 then d else d + MINUTES_PER_DAY
  {
  }

  function MinuteOfDay(now: nat): (m: nat)
    ensures m < MINUTES_PER_DAY
  {
    (now % DAY) / MINUTE
  }

  /** The day and the minute of the day are those of the UTC clock, counted from 1970. */
  lemma ClockShows(now: nat)
    ensures DayOf(now) * 86400 + MinuteOfDay(now) * 60 <= now < DayOf(now) * 86400 + (MinuteOfDay(now) + 1) * 60
  {
  }

  function DayOf(now: nat): nat {
    now / DAY
  }
}
