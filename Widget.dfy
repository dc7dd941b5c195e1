/** The home-screen widget: its timeline of five daily entries sharing one fetch of four times,
    the placeholder entry, and which day the inline widget renders in Hebrew. */
module Widget {
  import opened Wrappers
  import opened Json
  import opened Calendar
  import opened HebrewTime

  /** A time as the widget shows it: the key and its local short rendering. */
  datatype WidgetZman = WidgetZman(eventName: string, eventTime: string)

  datatype SimpleEntry = SimpleEntry(date: Date, zmanim: seq<WidgetZman>)

  /** The keys `getTimeline` asks for. */
  const WidgetKeys: seq<string> := ["sunrise", "chatzot", "sunset", "chatzotNight"]

  /** `placeholder(in:)`: one sample time per key the timeline asks for, in the same order. */
  function Placeholder(now: Date): (entry: SimpleEntry)
    ensures entry.date == now && |entry.zmanim| == |WidgetKeys|
    ensures forall k :: 0 <= k < |WidgetKeys| ==> entry.zmanim[k].eventName == WidgetKeys[k]
  {
    SimpleEntry(now, [WidgetZman("sunrise", "01:01"), WidgetZman("chatzot", "02:02"),
                      WidgetZman("sunset", "03:03"), WidgetZman("chatzotNight", "04:04")])
  }

  /** A row the widget shows for key `z.eventName` of `times`: a requested key whose time parses,
      rendered as a short local time. */
  predicate ShownFrom(z: WidgetZman, times: map<string, string>, fmt: Formatters) {
    && z.eventName in WidgetKeys
    && z.eventName in times
    && fmt.parseIso(times[z.eventName]).Some?
    && z.eventTime == fmt.shortTime(fmt.parseIso(times[z.eventName]).value)
  }

  function AsWidgetZman(e: ZmanEvent): (z: WidgetZman)
    ensures z.eventName == e.eventName && z.eventTime == e.localTimeString
  {
    WidgetZman(e.eventName, e.localTimeString)
  }

  /** `fetchZmanim(keysOfInterest:)`: nothing when the request fails or the body has no string
      "times" dictionary; otherwise one row per requested key whose time parses, in the
      dictionary's unspecified order. */
  method FetchZmanim(response: Response, fmt: Formatters) returns (rows: seq<WidgetZman>)
    ensures response.Failed? || response.json.None? || TimesOf(response.json.value).None? ==> rows == []
    ensures response.Data? && response.json.Some? && TimesOf(response.json.value).Some? ==>
              var times := TimesOf(response.json.value).value;
              && |rows| <= |WidgetKeys|
              && (forall k :: 0 <= k < |rows| ==> ShownFrom(rows[k], times, fmt))
              && (forall name :: Parsable(name, WidgetKeys, times, fmt) ==>
                    exists k :: 0 <= k < |rows| && rows[k].eventName == name)
              && (forall i, j :: 0 <= i < j < |rows| ==> rows[i].eventName != rows[j].eventName)
  {
    if response.Failed? || response.json.None? {
      return [];
    }
    var times := TimesOf(response.json.value);
    if times.None? {
      return [];
    }
    var filteredTimes := FilterKeys(WidgetKeys, times.value);
    var events := ParseEvents(WidgetKeys, filteredTimes, times.value, fmt);
    rows := [];
    for k := 0 to |events|
      invariant |rows| == k
      invariant forall j :: 0 <= j < k ==> rows[j] == AsWidgetZman(events[j])
    {
      rows := rows + [AsWidgetZman(events[k])];
    }
    RowsFromEvents(rows, events, times.value, fmt);
  }

  lemma RowsFromEvents(rows: seq<WidgetZman>, events: seq<ZmanEvent>, times: map<string, string>, fmt: Formatters)
    requires |rows| == |events| && forall j :: 0 <= j < |events| ==> rows[j] == AsWidgetZman(events[j])
    requires forall k :: 0 <= k < |events| ==> ParsedFrom(events[k], WidgetKeys, times, fmt)
    requires forall name :: Parsable(name, WidgetKeys, times, fmt) ==> name in Names(events)
    requires forall e :: multiset(events)[e] <= 1
    ensures forall k :: 0 <= k < |rows| ==> ShownFrom(rows[k], times, fmt)
    ensures forall name :: Parsable(name, WidgetKeys, times, fmt) ==>
              exists k :: 0 <= k < |rows| && rows[k].eventName == name
    ensures forall i, j :: 0 <= i < j < |rows| ==> rows[i].eventName != rows[j].eventName
  {
    forall name | Parsable(name, WidgetKeys, times, fmt)
      ensures exists k :: 0 <= k < |rows| && rows[k].eventName == name
    {
      var k :| 0 <= k < |events| && events[k].eventName == name;
      assert rows[k].eventName == name;
    }
    forall i, j | 0 <= i < j < |rows| ensures rows[i].eventName != rows[j].eventName {
      if rows[i].eventName == rows[j].eventName {
        assert events[i] == events[j];
        RepeatedTwice(events, i, j);
      }
    }
  }

  /** `getTimeline(in:)`: five entries a day apart from now, all showing the one fetched list. */
  method GetTimeline(now: Date, zmanim: seq<WidgetZman>) returns (entries: seq<SimpleEntry>)
    ensures |entries| == 5
    ensures forall k :: 0 <= k < 5 ==> entries[k] == SimpleEntry(AddDays(now, k), zmanim)
    ensures forall k :: 0 < k < 5 ==> entries[k].date == AddDays(entries[k - 1].date, 1)
  {
    entries := [];
    for dayOffset := 0 to 5
      invariant |entries| == dayOffset
      invariant forall k :: 0 <= k < dayOffset ==> entries[k] == SimpleEntry(AddDays(now, k), zmanim)
    {
      var entryDate := AddDays(now, dayOffset);
      entries := entries + [SimpleEntry(entryDate, zmanim)];
    }
  }

  /** `afterSunset`: true when the entry's hour is before 20:00 (the name reads the other way round). */
  function AfterSunset(hour: int): (b: bool)
    ensures b <==> hour < 20
  {
    hour < 20
  }

  /** The day the inline widget renders in Hebrew: the entry's own day before 20:00, the next day
      from 20:00 on. */
  function InlineHebrewDay(entryDate: Date, hour: int): (d: Date)
    ensures hour < 20 ==> d == entryDate
    ensures hour >= 20 ==> d == AddDays(entryDate, 1) && DayOf(d) == DayOf(entryDate) + 1
  {
    if AfterSunset(hour) then entryDate else AddDays(entryDate, 1)
  }
}
