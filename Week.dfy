/** A week of the week strip: its days, its place relative to the current week, and an identity
    derived from its last day. */
module Weeks {
  import opened Calendar

  datatype Order = Previous | Current | Next

  datatype Week = Week(id: string, days: seq<Date>, order: Order)

  /** `Week.init(days:order:)`: the id renders the last day (or `now` when there are no days). */
  function MakeWeek(env: CalendarEnv, now: Date, days: seq<Date>, order: Order): (w: Week)
    ensures w.days == days && w.order == order
    ensures days != [] ==> w.id == WeekAndYear(env, days[|days| - 1])
    ensures days == [] ==> w.id == WeekAndYear(env, now)
  {
    Week(WeekAndYear(env, if days == [] then now else days[|days| - 1]), days, order)
  }

  /** `==` on weeks compares ids only. */
  predicate SameWeek(a: Week, b: Week)
    ensures a == b ==> SameWeek(a, b)
  {
    a.id == b.id
  }

  lemma SameWeekEquivalence(a: Week, b: Week, c: Week)
    ensures SameWeek(a, a)
    ensures SameWeek(a, b) ==> SameWeek(b, a)
    ensures SameWeek(a, b) && SameWeek(b, c) ==> SameWeek(a, c)
  {
  }

  /** The same days under different orders make equal weeks; equal weeks need not share days. */
  lemma SameWeekIgnoresDaysAndOrder(env: CalendarEnv, now: Date, days: seq<Date>, o1: Order, o2: Order)
    ensures SameWeek(MakeWeek(env, now, days, o1), MakeWeek(env, now, days, o2))
  {
  }

  /** Weeks whose last days agree on week number and year are equal. */
  lemma SameWeekByLastDay(env: CalendarEnv, now: Date, d1: seq<Date>, d2: seq<Date>, o1: Order, o2: Order)
    requires d1 != [] && d2 != []
    requires env.weekOfYear(d1[|d1| - 1]) == env.weekOfYear(d2[|d2| - 1])
    requires env.year(d1[|d1| - 1]) == env.year(d2[|d2| - 1])
    ensures SameWeek(MakeWeek(env, now, d1, o1), MakeWeek(env, now, d2, o2))
  {
  }

  /** A week of seven consecutive days. */
  predicate FullWeek(w: Week) {
    |w.days| == 7 && Consecutive(w.days)
  }

  /** `Week.current`: the seven days from the nearest Monday to `now`. */
  function CurrentWeekOf(env: CalendarEnv, now: Date): (w: Week)
    ensures w.order == Current && FullWeek(w) && w.days[0] == env.nearestMonday(now)
  {
    MakeWeek(env, now, CurrentWeek(env.nearestMonday(now)), Current)
  }
}
