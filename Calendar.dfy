/** Calendar arithmetic of the week strip: instants are minutes from an epoch whose day 0 is a
    Sunday, a day is 1440 minutes, and the components that need the Gregorian or Hebrew
    calendar are given as functions of the instant. */
module Calendar {
  import opened Strings
  import Tehillim

  /** An instant, in minutes. */
  type Date = int

  const MinutesPerDay: int := 1440

  /** The components of an instant that come from the system calendars. */
  datatype CalendarEnv = CalendarEnv(
    weekOfYear: Date -> int,
    year: Date -> int,
    month: Date -> int,
    monthName: Date -> string,
    hebrewDay: Date -> int,
    hebrewRender: Date -> string,
    nearestMonday: Date -> Date)

  function DayOf(d: Date): int {
    d / MinutesPerDay
  }

  /** `Calendar.component(.weekday, from:)`: 1 for Sunday through 7 for Saturday. */
  function Weekday(d: Date): (w: int)
    ensures 1 <= w <= 7
  {
    DayOf(d) % 7 + 1
  }

  /** `date(byAdding: .day, value: n, to: d)`. */
  function AddDays(d: Date, n: int): Date {
    d + n * MinutesPerDay
  }

  /** `nearestSunday`: back `(weekday - 1 + 7) % 7` days, then 09:00:00 of that day. */
  function NearestSunday(d: Date): (r: Date)
    ensures Weekday(r) == 1
    ensures DayOf(d) - 6 <= DayOf(r) <= DayOf(d)
    ensures Weekday(d) == 1 ==> DayOf(r) == DayOf(d)
    ensures r - DayOf(r) * MinutesPerDay == 9 * 60
  {
    var daysToSubtract := (Weekday(d) - 1 + 7) % 7;
    var sunday := AddDays(d, -daysToSubtract);
    assert DayOf(sunday) == DayOf(d) - daysToSubtract;
    DayOf(sunday) * MinutesPerDay + 9 * 60
  }

  /** Each day is the one after the day before it. */
  predicate Consecutive(ds: seq<Date>) {
    forall k :: 0 < k < |ds| ==> ds[k] == AddDays(ds[k - 1], 1)
  }

  /** `currentWeek(from: d)`: offsets 0 through 6. */
  function CurrentWeek(d: Date): (r: seq<Date>)
    ensures |r| == 7 && r[0] == d && Consecutive(r)
  {
    seq(7, k requires 0 <= k < 7 => AddDays(d, k))
  }

  /** `nextWeek(from: d)`: offsets 1 through 7. */
  function NextWeek(d: Date): (r: seq<Date>)
    ensures |r| == 7 && r[0] == AddDays(d, 1) && Consecutive(r)
  {
    seq(7, k requires 0 <= k < 7 => AddDays(d, k + 1))
  }

  /** `previousWeek(from: d)`: offsets `-(6 - offset + 2)` for offset 1 through 7, i.e. the seven
      days before `d`, ascending. */
  function PreviousWeek(d: Date): (r: seq<Date>)
    ensures |r| == 7 && r[6] == AddDays(d, -1) && Consecutive(r)
  {
    seq(7, k requires 0 <= k < 7 => AddDays(d, -(6 - (k + 1) + 2)))
  }

  /** The previous, current and next weeks of a day are 21 consecutive days. */
  lemma ThreeWeeksConsecutive(d: Date)
    ensures var all := PreviousWeek(d) + CurrentWeek(d) + NextWeek(CurrentWeek(d)[6]);
      |all| == 21 && all[0] == AddDays(d, -7) && Consecutive(all)
  {
    var p, c, n := PreviousWeek(d), CurrentWeek(d), NextWeek(CurrentWeek(d)[6]);
    var all := p + c + n;
    forall k | 0 < k < 21 ensures all[k] == AddDays(all[k - 1], 1) {
      if k < 7 {
        assert all[k] == p[k] && all[k - 1] == p[k - 1];
      } else if k == 7 {
        assert all[k] == c[0] && all[k - 1] == p[6];
      } else if k < 14 {
        assert all[k] == c[k - 7] && all[k - 1] == c[k - 8];
      } else if k == 14 {
        assert all[k] == n[0] && all[k - 1] == c[6];
      } else {
        assert all[k] == n[k - 14] && all[k - 1] == n[k - 15];
      }
    }
  }

  // ---------------------------------------------------------------------------
  // Hebrew day letters

  /** The Hebrew numerals of the days 1 through 30, with 15 and 16 written tet-vav and tet-zayin. */
  const HebrewDayLetters: seq<string> := [
    "\U{05D0}", "\U{05D1}", "\U{05D2}", "\U{05D3}", "\U{05D4}",
    "\U{05D5}", "\U{05D6}", "\U{05D7}", "\U{05D8}", "\U{05D9}",
    "\U{05D9}\U{05D0}", "\U{05D9}\U{05D1}", "\U{05D9}\U{05D2}", "\U{05D9}\U{05D3}", "\U{05D8}\U{05D5}",
    "\U{05D8}\U{05D6}", "\U{05D9}\U{05D6}", "\U{05D9}\U{05D7}", "\U{05D9}\U{05D8}", "\U{05DB}",
    "\U{05DB}\U{05D0}", "\U{05DB}\U{05D1}", "\U{05DB}\U{05D2}", "\U{05DB}\U{05D3}", "\U{05DB}\U{05D4}",
    "\U{05DB}\U{05D5}", "\U{05DB}\U{05D6}", "\U{05DB}\U{05D7}", "\U{05DB}\U{05D8}", "\U{05DC}"
  ]

  /** `hebrewDayNumber`: the numeral of a Hebrew day of the month 1..30, otherwise "". */
  function HebrewDayNumber(day: int): (r: string)
    ensures 1 <= day <= 30 ==> r == HebrewDayLetters[day - 1]
    ensures !(1 <= day <= 30) ==> r == []
  {
    if 1 <= day && day <= 30 then HebrewDayLetters[day - 1] else []
  }

  lemma GematriaPair(a: char, b: char)
    ensures Tehillim.Gematria([a, b]) == Tehillim.LetterValue(a) + Tehillim.LetterValue(b)
  {
    assert [a, b][..1] == [a];
    assert [a][..0] == [];
  }

  lemma GematriaSingle(a: char)
    ensures Tehillim.Gematria([a]) == Tehillim.LetterValue(a)
  {
    assert [a][..0] == [];
  }

  /** Each day's numeral has the day as its gematria value. */
  lemma HebrewDayNumberValue(day: int)
    requires 1 <= day <= 30
    ensures Tehillim.Gematria(HebrewDayNumber(day)) == day
  {
    if day <= 10 {
      UnitsValue(day);
    } else if day < 20 {
      TeensValue(day);
    } else {
      TwentiesValue(day);
    }
  }

  lemma UnitsValue(day: int)
    requires 1 <= day <= 10
    ensures Tehillim.Gematria(HebrewDayLetters[day - 1]) == day
  {
    var c := HebrewDayLetters[day - 1][0];
    assert HebrewDayLetters[day - 1] == [c];
    GematriaSingle(c);
  }

  lemma TeensValue(day: int)
    requires 11 <= day <= 19
    ensures Tehillim.Gematria(HebrewDayLetters[day - 1]) == day
  {
    var s := HebrewDayLetters[day - 1];
    assert s == [s[0], s[1]];
    GematriaPair(s[0], s[1]);
  }

  lemma TwentiesValue(day: int)
    requires 20 <= day <= 30
    ensures Tehillim.Gematria(HebrewDayLetters[day - 1]) == day
  {
    var s := HebrewDayLetters[day - 1];
    if day == 20 || day == 30 {
      assert s == [s[0]];
      GematriaSingle(s[0]);
    } else {
      assert s == [s[0], s[1]];
      GematriaPair(s[0], s[1]);
    }
  }

  // ---------------------------------------------------------------------------
  // Renderings

  /** `hebrewMonthAndYear`: the rendered Hebrew date without its first word (the day) when it
      has at least three words, otherwise as rendered. */
  function HebrewMonthAndYear(rendered: string): (r: string)
    ensures |Split(rendered, ' ')| < 3 ==> r == rendered
  {
    var components := Split(rendered, ' ');
    if |components| >= 3 then Join(components[1..], ' ') else rendered
  }

  /** With three or more words, the result's words are exactly the rendered words after the first. */
  lemma HebrewMonthAndYearWords(rendered: string)
    requires |Split(rendered, ' ')| >= 3
    ensures Split(HebrewMonthAndYear(rendered), ' ') == Split(rendered, ' ')[1..]
  {
    var rest := Split(rendered, ' ')[1..];
    SplitJoin(rest, ' ');
  }

  /** `weekAndYear`: "<weekOfYear>-<year>". */
  function WeekAndYear(env: CalendarEnv, d: Date): (r: string)
    ensures env.weekOfYear(d) >= 0 && env.year(d) >= 0 ==>
              Split(r, '-') == [IntToString(env.weekOfYear(d)), IntToString(env.year(d))]
  {
    var week := IntToString(env.weekOfYear(d));
    var year := IntToString(env.year(d));
    SplitPair(week, year, '-');
    week + "-" + year
  }

  /** The rendering names the week number and the year: equal renderings mean equal components. */
  lemma WeekAndYearInjective(env: CalendarEnv, d: Date, e: Date)
    requires env.weekOfYear(d) >= 0 && env.weekOfYear(e) >= 0
    requires WeekAndYear(env, d) == WeekAndYear(env, e)
    ensures env.weekOfYear(d) == env.weekOfYear(e) && env.year(d) == env.year(e)
  {
    SeparatedUnique(IntToString(env.weekOfYear(d)), IntToString(env.year(d)),
                    IntToString(env.weekOfYear(e)), IntToString(env.year(e)), '-');
    IntToStringInjective(env.weekOfYear(d), env.weekOfYear(e));
    IntToStringInjective(env.year(d), env.year(e));
  }

  /** `monthAndYear`: "<month name> <year>". */
  function MonthAndYear(env: CalendarEnv, d: Date): (r: string)
    ensures env.monthName(d) != [] && ' ' !in env.monthName(d) ==>
              Split(r, ' ') == [env.monthName(d), IntToString(env.year(d))]
  {
    var month := env.monthName(d);
    var year := IntToString(env.year(d));
    assert ' ' !in year;
    SplitPair(month, year, ' ');
    month + " " + year
  }

  /** `isSameMonth`: the year and month components agree. */
  predicate IsSameMonth(env: CalendarEnv, a: Date, b: Date)
    ensures a == b ==> IsSameMonth(env, a, b)
  {
    env.year(a) == env.year(b) && env.month(a) == env.month(b)
  }

  lemma IsSameMonthEquivalence(env: CalendarEnv, a: Date, b: Date, c: Date)
    ensures IsSameMonth(env, a, a)
    ensures IsSameMonth(env, a, b) ==> IsSameMonth(env, b, a)
    ensures IsSameMonth(env, a, b) && IsSameMonth(env, b, c) ==> IsSameMonth(env, a, c)
  {
  }
}
