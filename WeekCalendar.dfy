/** The horizontally paged week strip: a window of weeks that grows by one week when the first
    or last week appears, the focused week, the title, and which days a week shows. */
module WeekCalendar {
  import opened Wrappers
  import opened Seqs
  import opened Calendar
  import opened Weeks

  /** `WeekView.isDayVisible`: every day is visible unless other months are hidden; then a day is
      visible when it is in the month of the week's last day (previous and current weeks) or of
      its first day (next weeks), and an empty week shows everything. */
  function IsDayVisible(env: CalendarEnv, hideDifferentMonth: bool, week: Week, date: Date): (b: bool)
    ensures !hideDifferentMonth || week.days == [] ==> b
    ensures hideDifferentMonth && week.days != [] && !week.order.Next? ==>
              (b <==> IsSameMonth(env, date, week.days[|week.days| - 1]))
    ensures hideDifferentMonth && week.days != [] && week.order.Next? ==>
              (b <==> IsSameMonth(env, date, week.days[0]))
  {
    if !hideDifferentMonth then true
    else
      match week.order
      case Previous | Current => if week.days == [] then true else IsSameMonth(env, date, week.days[|week.days| - 1])
      case Next => if week.days == [] then true else IsSameMonth(env, date, week.days[0])
  }

  /** In a full week, the day that sets the month is itself visible. */
  lemma ReferenceDayVisible(env: CalendarEnv, hideOther: bool, week: Week)
    requires FullWeek(week)
    ensures !week.order.Next? ==> IsDayVisible(env, hideOther, week, week.days[6])
    ensures week.order.Next? ==> IsDayVisible(env, hideOther, week, week.days[0])
  {
    IsSameMonthEquivalence(env, week.days[6], week.days[6], week.days[6]);
    IsSameMonthEquivalence(env, week.days[0], week.days[0], week.days[0]);
  }

  /** All days of the window, week after week. */
  function AllDays(weeks: seq<Week>): seq<Date> {
    if weeks == [] then [] else weeks[0].days + AllDays(weeks[1..])
  }

  lemma {:induction false} AllDaysAppend(weeks: seq<Week>, w: Week)
    ensures AllDays(weeks + [w]) == AllDays(weeks) + w.days
    decreases |weeks|
  {
    if weeks == [] {
      assert AllDays([w]) == w.days + AllDays([]);
    } else {
      assert (weeks + [w])[1..] == weeks[1..] + [w];
      AllDaysAppend(weeks[1..], w);
    }
  }

  lemma {:induction false} AllDaysLength(weeks: seq<Week>)
    requires forall k :: 0 <= k < |weeks| ==> FullWeek(weeks[k])
    ensures |AllDays(weeks)| == 7 * |weeks|
    decreases |weeks|
  {
    if weeks != [] {
      AllDaysLength(weeks[1..]);
    }
  }

  /** Two consecutive runs of days, the second starting the day after the first ends, join into one. */
  lemma JoinConsecutive(a: seq<Date>, b: seq<Date>)
    requires Consecutive(a) && Consecutive(b)
    requires a != [] && b != [] && b[0] == AddDays(a[|a| - 1], 1)
    ensures Consecutive(a + b)
  {
    var ab := a + b;
    forall k | 0 < k < |ab| ensures ab[k] == AddDays(ab[k - 1], 1) {
      if k < |a| {
        assert ab[k] == a[k] && ab[k - 1] == a[k - 1];
      } else if k == |a| {
        assert ab[k] == b[0] && ab[k - 1] == a[|a| - 1];
      } else {
        assert ab[k] == b[k - |a|] && ab[k - 1] == b[k - |a| - 1];
      }
    }
  }

  /** Every week in the window has seven consecutive days. */
  predicate FullWeeks(weeks: seq<Week>) {
    forall k :: 0 <= k < |weeks| ==> FullWeek(weeks[k])
  }

  /** Every week in the window has seven consecutive days, and the window's days run on
      without gap from its first day to its last. */
  predicate ValidWindow(weeks: seq<Week>) {
    weeks != [] && FullWeeks(weeks) && Consecutive(AllDays(weeks))
  }

  /** The window after `loadWeek` for `week`, given the window before. */
  ghost predicate LoadedFrom(before: seq<Week>, after: seq<Week>, week: Week, env: CalendarEnv, now: Date) {
    if week.order.Previous? && before != [] && SameWeek(before[0], week) && week.days != [] then
      after == [MakeWeek(env, now, PreviousWeek(week.days[0]), Previous)] + before
    else if week.order.Next? && before != [] && SameWeek(before[|before| - 1], week) && week.days != [] then
      after == before + [MakeWeek(env, now, NextWeek(week.days[|week.days| - 1]), Next)]
    else
      after == before
  }

  /** Loading a week only ever adds one week at an end, and that week is full, whatever week
      appeared; when the week that appeared is the window's own first (previous) or last (next)
      week, a valid window stays valid. */
  lemma LoadWeekWindow(before: seq<Week>, after: seq<Week>, week: Week, env: CalendarEnv, now: Date)
    requires LoadedFrom(before, after, week, env, now)
    ensures before <= after || after[1..] == before
    ensures |before| <= |after| <= |before| + 1
    ensures FullWeeks(before) ==> FullWeeks(after)
    ensures ValidWindow(before) && week.order.Previous? && week == before[0] ==> ValidWindow(after)
    ensures ValidWindow(before) && week.order.Next? && week == before[|before| - 1] ==> ValidWindow(after)
  {
    if week.order.Previous? && before != [] && SameWeek(before[0], week) && week.days != [] {
      assert after[1..] == before;
      if FullWeeks(before) {
        forall k | 0 < k < |after| ensures FullWeek(after[k]) {
          assert after[k] == before[k - 1];
        }
      }
      if ValidWindow(before) && week == before[0] {
        PrependKeepsValid(after, before, week);
      }
    } else if week.order.Next? && before != [] && SameWeek(before[|before| - 1], week) && week.days != [] {
      assert before <= after && after[..|before|] == before;
      if FullWeeks(before) {
        forall k | 0 <= k < |before| ensures FullWeek(after[k]) {
          assert after[k] == before[k];
        }
      }
      if ValidWindow(before) && week == before[|before| - 1] {
        AppendKeepsValid(after, before, week);
      }
    }
  }

  class WeekCalendarView {
    const env: CalendarEnv
    /** The instant the view was built at (`.now`). */
    const now: Date
    var weeks: seq<Week>
    var focused: Week
    var title: string
    var selection: Option<Date>
    /** The id of the week scrolled to. */
    var position: Option<string>

    /** The window of weeks is valid. */
    predicate Valid()
      reads this
    {
      ValidWindow(weeks)
    }

    /** `init`: the week of the nearest Monday to the focused week's first day (or to now), with
        the week before it and the week after it, scrolled to the focused week. */
    constructor(env: CalendarEnv, now: Date, title: string, selection: Option<Date>, focused: Week)
      ensures this.env == env && this.now == now
      ensures this.title == title && this.selection == selection && this.focused == focused
      ensures position == Some(focused.id)
      ensures var monday := env.nearestMonday(AnchorDay(focused, now));
        |weeks| == 3
        && weeks[1] == MakeWeek(env, now, CurrentWeek(monday), Current)
        && weeks[0] == MakeWeek(env, now, PreviousWeek(monday), Previous)
        && weeks[2] == MakeWeek(env, now, NextWeek(AddDays(monday, 6)), Next)
      ensures Valid()
    {
      this.env := env;
      this.now := now;
      this.title := title;
      this.selection := selection;
      this.focused := focused;
      var monday := env.nearestMonday(AnchorDay(focused, now));
      var currentWeek := MakeWeek(env, now, CurrentWeek(monday), Current);
      var previousWeek := MakeWeek(env, now, PreviousWeek(currentWeek.days[0]), Previous);
      var nextWeek := MakeWeek(env, now, NextWeek(currentWeek.days[6]), Next);
      InitialWindowValid(env, now, monday);
      weeks := [previousWeek, currentWeek, nextWeek];
      position := Some(focused.id);
    }

    /** `loadWeek(from:)`: when the week that appears is a previous week equal (by id) to the first
        week, the week before its first day is inserted at the front; when it is a next week equal
        to the last week, the week after its last day is appended; otherwise nothing changes. */
    method LoadWeek(week: Week)
      modifies this
      ensures focused == old(focused) && title == old(title) && selection == old(selection) && position == old(position)
      ensures LoadedFrom(old(weeks), weeks, week, env, now)
      ensures old(FullWeeks(weeks)) ==> FullWeeks(weeks)
    {
      if week.order == Previous && weeks != [] && weeks[0].id == week.id && week.days != [] {
        var previousWeek := MakeWeek(env, now, PreviousWeek(week.days[0]), Previous);
        weeks := [previousWeek] + weeks;
      } else if week.order == Next && weeks != [] && weeks[|weeks| - 1].id == week.id && week.days != [] {
        var nextWeek := MakeWeek(env, now, NextWeek(week.days[|week.days| - 1]), Next);
        weeks := weeks + [nextWeek];
      }
      LoadWeekWindow(old(weeks), weeks, week, env, now);
    }

    /** The handler of a scroll-position change: focus the first week with that id and title the
        strip with its last day's month; an unknown id changes nothing. The week found must have
        a last day, which every window of full weeks provides (`FullWeeksFocusable`). */
    method OnPositionChange(id: Option<string>)
      requires FirstIndexWhere(weeks, HasId(id)).Some? ==> weeks[FirstIndexWhere(weeks, HasId(id)).value].days != []
      modifies this
      ensures weeks == old(weeks) && selection == old(selection)
      ensures position == id
      ensures match FirstIndexWhere(weeks, HasId(id))
        case None => focused == old(focused) && title == old(title)
        case Some(k) => focused == weeks[k] && title == MonthAndYear(env, weeks[k].days[|weeks[k].days| - 1])
    {
      position := id;
      var found := FirstIndexWhere(weeks, HasId(id));
      if found.Some? {
        var focusedWeek := weeks[found.value];
        focused := focusedWeek;
        title := MonthAndYear(env, focusedWeek.days[|focusedWeek.days| - 1]);
      }
    }

    /** The handler of a selection change: focus the first week containing the selected day;
        no selection, or a day in no week, leaves the focus alone. */
    method OnSelectionChange(newValue: Option<Date>)
      modifies this
      ensures weeks == old(weeks) && title == old(title) && position == old(position)
      ensures selection == newValue
      ensures newValue.None? ==> focused == old(focused)
      ensures newValue.Some? ==>
        match FirstIndexWhere(weeks, HasDay(newValue.value))
        case None => focused == old(focused)
        case Some(k) => focused == weeks[k]
    {
      selection := newValue;
      if newValue.Some? {
        var found := FirstIndexWhere(weeks, HasDay(newValue.value));
        if found.Some? {
          focused := weeks[found.value];
        }
      }
    }
  }

  /** In a window of full weeks every week found by id has a last day. */
  lemma FullWeeksFocusable(weeks: seq<Week>, id: Option<string>)
    requires FullWeeks(weeks)
    ensures FirstIndexWhere(weeks, HasId(id)).Some? ==> weeks[FirstIndexWhere(weeks, HasId(id)).value].days != []
  {
  }

  /** The day the window is built around: the focused week's first day, or now for an empty week. */
  function AnchorDay(focused: Week, now: Date): (d: Date)
    ensures focused.days != [] ==> d == focused.days[0]
    ensures focused.days == [] ==> d == now
  {
    if focused.days == [] then now else focused.days[0]
  }

  /** A week whose id is the scrolled-to id (never, when that id is absent). */
  function HasId(id: Option<string>): Week -> bool {
    (w: Week) => id.Some? && w.id == id.value
  }

  function HasDay(d: Date): Week -> bool {
    (w: Week) => d in w.days
  }

  /** A focused week always holds the selected day. */
  lemma SelectionFocusHoldsDay(weeks: seq<Week>, d: Date)
    requires FirstIndexWhere(weeks, HasDay(d)).Some?
    ensures d in weeks[FirstIndexWhere(weeks, HasDay(d)).value].days
    ensures forall j :: 0 <= j < FirstIndexWhere(weeks, HasDay(d)).value ==> d !in weeks[j].days
  {
    var k := FirstIndexWhere(weeks, HasDay(d)).value;
    assert HasDay(d)(weeks[k]);
    forall j | 0 <= j < k ensures d !in weeks[j].days {
      assert !HasDay(d)(weeks[j]);
    }
  }

  /** The window the view starts with: the weeks before, of and after a Monday run on day by day. */
  lemma InitialWindowValid(env: CalendarEnv, now: Date, monday: Date)
    ensures var window := [MakeWeek(env, now, PreviousWeek(monday), Previous),
                           MakeWeek(env, now, CurrentWeek(monday), Current),
                           MakeWeek(env, now, NextWeek(CurrentWeek(monday)[6]), Next)];
            (forall k :: 0 <= k < 3 ==> FullWeek(window[k])) && Consecutive(AllDays(window))
  {
    var p := MakeWeek(env, now, PreviousWeek(monday), Previous);
    var c := MakeWeek(env, now, CurrentWeek(monday), Current);
    var n := MakeWeek(env, now, NextWeek(CurrentWeek(monday)[6]), Next);
    ThreeWeeksConsecutive(monday);
    AllDaysThree(p, c, n);
  }

  lemma AllDaysThree(a: Week, b: Week, c: Week)
    ensures AllDays([a, b, c]) == a.days + b.days + c.days
  {
    assert [c][1..] == [];
    assert AllDays([c]) == c.days;
    assert [b, c][1..] == [c];
    assert AllDays([b, c]) == b.days + c.days;
    assert [a, b, c][1..] == [b, c];
  }

  lemma PrependKeepsValid(ws: seq<Week>, old_ws: seq<Week>, week: Week)
    requires old_ws != [] && week == old_ws[0] && FullWeek(week)
    requires forall k :: 0 <= k < |old_ws| ==> FullWeek(old_ws[k])
    requires Consecutive(AllDays(old_ws))
    requires |ws| >= 1 && ws[1..] == old_ws && ws[0].days == PreviousWeek(week.days[0])
    ensures forall k :: 0 <= k < |ws| ==> FullWeek(ws[k])
    ensures Consecutive(AllDays(ws))
  {
    assert AllDays(ws) == ws[0].days + AllDays(old_ws);
    assert AllDays(old_ws)[0] == week.days[0];
    JoinConsecutive(ws[0].days, AllDays(old_ws));
    forall k | 0 <= k < |ws| ensures FullWeek(ws[k]) {
      if k > 0 {
        assert ws[k] == old_ws[k - 1];
      }
    }
  }

  lemma AppendKeepsValid(ws: seq<Week>, old_ws: seq<Week>, week: Week)
    requires old_ws != [] && week == old_ws[|old_ws| - 1] && FullWeek(week)
    requires forall k :: 0 <= k < |old_ws| ==> FullWeek(old_ws[k])
    requires Consecutive(AllDays(old_ws))
    requires |ws| == |old_ws| + 1 && ws[..|old_ws|] == old_ws && ws[|old_ws|].days == NextWeek(week.days[6])
    ensures forall k :: 0 <= k < |ws| ==> FullWeek(ws[k])
    ensures Consecutive(AllDays(ws))
  {
    var added := ws[|old_ws|];
    assert ws == old_ws + [added];
    AllDaysAppend(old_ws, added);
    LastDayOfWindow(old_ws);
    var before := AllDays(old_ws);
    assert before[|before| - 1] == week.days[6];
    assert added.days[0] == AddDays(before[|before| - 1], 1);
    JoinConsecutive(before, added.days);
    forall k | 0 <= k < |ws| ensures FullWeek(ws[k]) {
      if k < |old_ws| {
        assert ws[k] == old_ws[k];
      }
    }
  }

  /** The window's last day is the last day of its last week. */
  lemma {:induction false} LastDayOfWindow(ws: seq<Week>)
    requires ws != [] && forall k :: 0 <= k < |ws| ==> FullWeek(ws[k])
    ensures |AllDays(ws)| >= 7 && |ws[|ws| - 1].days| == 7
    ensures AllDays(ws)[|AllDays(ws)| - 1] == ws[|ws| - 1].days[6]
    decreases |ws|
  {
    AllDaysLength(ws);
    assert ws == ws[..|ws| - 1] + [ws[|ws| - 1]];
    AllDaysAppend(ws[..|ws| - 1], ws[|ws| - 1]);
  }
}
