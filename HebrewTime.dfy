/** The zmanim screen's model: the day's halachic times from a response's "times" dictionary,
    the Shabbat candle-lighting / havdalah list and the weekly portion, and the memo caches
    that stand in for repeated requests. */
module HebrewTime {
  import opened Wrappers
  import opened Seqs
  import opened Strings
  import opened Json

  /** One row of the day's times: its key, its local rendering and its instant (minutes). */
  datatype ZmanEvent = ZmanEvent(eventName: string, localTimeString: string, date: int)

  /** An item of the Shabbat response. */
  datatype Event = Event(title: string, date: string, hebrew: string, category: Option<string>)

  /** The date and time formatters the model uses, as functions of their input:
      `yyyy-MM-dd` rendering, ISO-8601 parsing, the short local time, and `HH:mm`. */
  datatype Formatters = Formatters(
    dayString: int -> string,
    parseIso: string -> Option<int>,
    shortTime: int -> string,
    hourMinute: int -> string)

  const KeysOfInterest: seq<string> := [
    "alotHaShacar", "misheyakirMachmir", "sunrise", "sofZmanShmaMGA", "sofZmanShma",
    "sofZmanTfillaMGA", "sofZmanTfilla", "chatzot", "minchaGedola", "minchaKetana",
    "plagHaMincha", "sunset", "tzeit7083deg", "tzeit72min", "chatzotNight"
  ]

  lemma KeysOfInterestDistinct()
    ensures |KeysOfInterest| == 15 && Distinct(KeysOfInterest)
  {
  }

  // ---------------------------------------------------------------------------
  // Cache keys

  /** `"\(latitude)_\(longitude)_\(formattedDate)"`, the coordinates given as their decimal renderings. */
  function ZmanimKey(lat: string, lon: string, day: string): (key: string)
    ensures lat != [] && lon != [] && day != [] && '_' !in lat && '_' !in lon && '_' !in day ==>
              Split(key, '_') == [lat, lon, day]
  {
    SplitTriple(lat, lon, day, '_');
    lat + "_" + lon + "_" + day
  }

  /** `"shabbat_\(latitude)_\(longitude)"`. */
  function ShabbatKey(lat: string, lon: string): (key: string)
    ensures lat != [] && lon != [] && '_' !in lat && '_' !in lon ==> Split(key, '_') == ["shabbat", lat, lon]
  {
    SplitTriple("shabbat", lat, lon, '_');
    assert "shabbat_" + lat + "_" + lon == "shabbat" + ['_'] + lat + ['_'] + lon;
    "shabbat_" + lat + "_" + lon
  }

  /** A rendered coordinate never contains '_', so a key names one place and one day. */
  lemma ZmanimKeyInjective(lat: string, lon: string, day: string, lat': string, lon': string, day': string)
    requires '_' !in lat && '_' !in lon && '_' !in lat' && '_' !in lon'
    requires ZmanimKey(lat, lon, day) == ZmanimKey(lat', lon', day')
    ensures lat == lat' && lon == lon' && day == day'
  {
    assert ZmanimKey(lat, lon, day) == lat + ['_'] + (lon + ['_'] + day);
    assert ZmanimKey(lat', lon', day') == lat' + ['_'] + (lon' + ['_'] + day');
    SeparatedUnique(lat, lon + ['_'] + day, lat', lon' + ['_'] + day', '_');
    SeparatedUnique(lon, day, lon', day', '_');
  }

  lemma ShabbatKeyInjective(lat: string, lon: string, lat': string, lon': string)
    requires '_' !in lat && '_' !in lat'
    requires ShabbatKey(lat, lon) == ShabbatKey(lat', lon')
    ensures lat == lat' && lon == lon'
  {
    var k, k' := ShabbatKey(lat, lon), ShabbatKey(lat', lon');
    assert k[8..] == lat + ['_'] + lon;
    assert k'[8..] == lat' + ['_'] + lon';
    SeparatedUnique(lat, lon, lat', lon', '_');
  }

  // ---------------------------------------------------------------------------
  // The day's times

  /** The memo caches, shared by every model instance. */
  class ZmanimCache {
    var zmanim: map<string, seq<ZmanEvent>>
    var shabbat: map<string, (seq<Event>, Option<Event>)>

    constructor()
      ensures zmanim == map[] && shabbat == map[]
    {
      zmanim := map[];
      shabbat := map[];
    }
  }

  /** `e` is the event built from key `e.eventName` of `times`: a key of interest whose time parses. */
  predicate ParsedFrom(e: ZmanEvent, keys: seq<string>, times: map<string, string>, fmt: Formatters) {
    && e.eventName in keys
    && e.eventName in times
    && fmt.parseIso(times[e.eventName]) == Some(e.date)
    && e.localTimeString == fmt.shortTime(e.date)
  }

  /** A key of interest present in `times` whose time parses. */
  predicate Parsable(name: string, keys: seq<string>, times: map<string, string>, fmt: Formatters) {
    name in keys && name in times && fmt.parseIso(times[name]).Some?
  }

  function EventDate(e: ZmanEvent): int { e.date }

  /** The loop over `keysOfInterest` building `filteredTimes`. */
  method FilterKeys(keys: seq<string>, times: map<string, string>) returns (filtered: map<string, string>)
    ensures forall name :: name in filtered <==> name in keys && name in times
    ensures forall name :: name in filtered ==> filtered[name] == times[name]
    ensures |filtered| <= |keys|
  {
    filtered := map[];
    for k := 0 to |keys|
      invariant forall name :: name in filtered <==> name in keys[..k] && name in times
      invariant forall name :: name in filtered ==> filtered[name] == times[name]
      invariant |filtered| <= k
    {
      var key := keys[k];
      assert keys[..k + 1] == keys[..k] + [key];
      if key in times {
        filtered := filtered[key := times[key]];
      }
    }
    assert keys[..|keys|] == keys;
  }

  /** The event names of a list. */
  function Names(events: seq<ZmanEvent>): (r: set<string>)
    ensures forall k :: 0 <= k < |events| ==> events[k].eventName in r
    ensures forall name :: name in r ==> exists k :: 0 <= k < |events| && events[k].eventName == name
  {
    set k | 0 <= k < |events| :: events[k].eventName
  }

  /** Appending an event whose name is new extends the names by it and repeats no event. */
  lemma AppendFresh(events: seq<ZmanEvent>, e: ZmanEvent)
    requires e.eventName !in Names(events)
    requires forall x :: multiset(events)[x] <= 1
    ensures forall x :: multiset(events + [e])[x] <= 1
    ensures Names(events + [e]) == Names(events) + {e.eventName}
  {
    assert e !in events;
    var r := events + [e];
    assert r[|events|] == e;
    forall name | name in Names(r) ensures name in Names(events) + {e.eventName} {
      var k :| 0 <= k < |r| && r[k].eventName == name;
      if k < |events| {
        assert r[k] == events[k];
      }
    }
    forall name | name in Names(events) ensures name in Names(r) {
      var k :| 0 <= k < |events| && events[k].eventName == name;
      assert r[k] == events[k];
    }
  }

  /** The invariant of the loop over `filteredTimes`: the names still to visit, and the events
      parsed from the names already visited. */
  ghost predicate ParseProgress(events: seq<ZmanEvent>, remaining: set<string>, keys: seq<string>,
                                filtered: map<string, string>, times: map<string, string>, fmt: Formatters) {
    && remaining <= filtered.Keys
    && |events| + |remaining| <= |filtered|
    && (forall k :: 0 <= k < |events| ==> ParsedFrom(events[k], keys, times, fmt))
    && Names(events) !! remaining
    && (forall name :: Parsable(name, keys, times, fmt) && name !in remaining ==> name in Names(events))
    && (forall e :: multiset(events)[e] <= 1)
  }

  /** Visiting one more name keeps the invariant: its event is appended exactly when its time parses. */
  lemma ParseStep(events: seq<ZmanEvent>, remaining: set<string>, name: string, keys: seq<string>,
                  filtered: map<string, string>, times: map<string, string>, fmt: Formatters)
    requires forall n :: n in filtered <==> n in keys && n in times
    requires forall n :: n in filtered ==> filtered[n] == times[n]
    requires ParseProgress(events, remaining, keys, filtered, times, fmt) && name in remaining
    ensures fmt.parseIso(filtered[name]).None? ==> ParseProgress(events, remaining - {name}, keys, filtered, times, fmt)
    ensures fmt.parseIso(filtered[name]).Some? ==>
              var date := fmt.parseIso(filtered[name]).value;
              ParseProgress(events + [ZmanEvent(name, fmt.shortTime(date), date)], remaining - {name}, keys, filtered, times, fmt)
  {
    assert |remaining - {name}| == |remaining| - 1;
    match fmt.parseIso(filtered[name]) {
      case Some(date) =>
        ParseStepAppend(events, remaining, ZmanEvent(name, fmt.shortTime(date), date), keys, filtered, times, fmt);
      case None =>
        assert !Parsable(name, keys, times, fmt);
    }
  }

  lemma ParseStepAppend(events: seq<ZmanEvent>, remaining: set<string>, e: ZmanEvent, keys: seq<string>,
                        filtered: map<string, string>, times: map<string, string>, fmt: Formatters)
    requires forall n :: n in filtered <==> n in keys && n in times
    requires ParseProgress(events, remaining, keys, filtered, times, fmt) && e.eventName in remaining
    requires |remaining - {e.eventName}| == |remaining| - 1
    requires ParsedFrom(e, keys, times, fmt)
    ensures ParseProgress(events + [e], remaining - {e.eventName}, keys, filtered, times, fmt)
  {
    AppendFresh(events, e);
    var next := events + [e];
    forall k | 0 <= k < |next| ensures ParsedFrom(next[k], keys, times, fmt) {
      if k < |events| { assert next[k] == events[k]; }
    }
  }

  /** The loop over `filteredTimes` (in the dictionary's unspecified order): one event per time
      that parses, none for a time that does not. */
  method ParseEvents(keys: seq<string>, filtered: map<string, string>, times: map<string, string>, fmt: Formatters)
    returns (events: seq<ZmanEvent>)
    requires forall name :: name in filtered <==> name in keys && name in times
    requires forall name :: name in filtered ==> filtered[name] == times[name]
    ensures |events| <= |filtered|
    ensures forall k :: 0 <= k < |events| ==> ParsedFrom(events[k], keys, times, fmt)
    ensures forall name :: Parsable(name, keys, times, fmt) ==> name in Names(events)
    ensures forall e :: multiset(events)[e] <= 1
  {
    events := [];
    var remaining := filtered.Keys;
    while remaining != {}
      invariant ParseProgress(events, remaining, keys, filtered, times, fmt)
      decreases |remaining|
    {
      var eventName :| eventName in remaining;
      ParseStep(events, remaining, eventName, keys, filtered, times, fmt);
      match fmt.parseIso(filtered[eventName]) {
        case Some(date) =>
          events := events + [ZmanEvent(eventName, fmt.shortTime(date), date)];
        case None =>
      }
      remaining := remaining - {eventName};
    }
  }

  /** What a successful fetch publishes: the parsed events, sorted by instant, with the earliest
      moved to the end; no event twice, at most one per key of interest. */
  ghost predicate DayTimes(events: seq<ZmanEvent>, keys: seq<string>, times: map<string, string>, fmt: Formatters) {
    && |events| <= |keys|
    && (forall k :: 0 <= k < |events| ==> ParsedFrom(events[k], keys, times, fmt))
    && (forall name :: Parsable(name, keys, times, fmt) ==> name in Names(events))
    && (forall e :: multiset(events)[e] <= 1)
    && SortedBy(RotateRight(events), EventDate)
  }

  /** An event is determined by its name, so no name is listed twice. */
  lemma DayTimesDistinctNames(events: seq<ZmanEvent>, keys: seq<string>, times: map<string, string>, fmt: Formatters, i: nat, j: nat)
    requires DayTimes(events, keys, times, fmt) && i < j < |events|
    ensures events[i].eventName != events[j].eventName
  {
    if events[i].eventName == events[j].eventName {
      RepeatedTwice(events, i, j);
    }
  }

  lemma RepeatedTwice<T>(s: seq<T>, i: nat, j: nat)
    requires i < j < |s| && s[i] == s[j]
    ensures multiset(s)[s[j]] >= 2
  {
    assert s == s[..j] + [s[j]] + s[j + 1..];
    assert s[..j][i] == s[i];
    assert multiset(s[..j])[s[j]] >= 1;
  }

  /** The published list, rotated back, is the earliest-first order. */
  lemma DayTimesEarliestLast(events: seq<ZmanEvent>, keys: seq<string>, times: map<string, string>, fmt: Formatters)
    requires DayTimes(events, keys, times, fmt) && events != []
    ensures forall k :: 0 <= k < |events| - 1 ==> events[|events| - 1].date <= events[k].date
    ensures forall k :: 0 <= k < |events| - 2 ==> events[k].date <= events[k + 1].date
  {
    var s := RotateRight(events);
    forall k | 0 <= k < |events| - 1 ensures events[|events| - 1].date <= events[k].date {
      assert s[0] == events[|events| - 1] && s[k + 1] == events[k];
      assert EventDate(s[0]) <= EventDate(s[k + 1]);
    }
    forall k | 0 <= k < |events| - 2 ensures events[k].date <= events[k + 1].date {
      assert s[k + 1] == events[k] && s[k + 2] == events[k + 1];
      assert EventDate(s[k + 1]) <= EventDate(s[k + 2]);
    }
  }

  /** The outcome of the request: no data or a transport error, data that is not JSON, or a JSON value. */
  datatype Response = Failed | Data(json: Option<Json>)

  /** The response's "times" dictionary, when the body is an object holding a string-valued one. */
  function TimesOf(json: Json): (r: Option<map<string, string>>)
    ensures r.Some? <==> json.JObject? && "times" in json.fields && AsStringMap(json.fields["times"]).Some?
  {
    match AsObject(json)
    case None => None
    case Some(obj) => if "times" in obj then AsStringMap(obj["times"]) else None
  }

  // ---------------------------------------------------------------------------
  // Shabbat

  predicate IsCandlesOrHavdalah(item: Event) {
    item.category == Some("candles") || item.category == Some("havdalah")
  }

  /** `convertToHHMM`: the `HH:mm` rendering of an ISO-8601 time, or nothing when it does not parse. */
  function ConvertToHHMM(s: string, fmt: Formatters): (r: Option<string>)
    ensures r.Some? <==> fmt.parseIso(s).Some?
    ensures r.Some? ==> r.value == fmt.hourMinute(fmt.parseIso(s).value)
  {
    match fmt.parseIso(s)
    case Some(d) => Some(fmt.hourMinute(d))
    case None => None
  }

  /** An item with its date shown as `HH:mm`, or as given when it does not parse. */
  function LocalEvent(item: Event, fmt: Formatters): (r: Event)
    ensures r.title == item.title && r.hebrew == item.hebrew && r.category == item.category
    ensures r.date == ConvertToHHMM(item.date, fmt).GetOr(item.date)
  {
    Event(item.title, ConvertToHHMM(item.date, fmt).GetOr(item.date), item.hebrew, item.category)
  }

  /** The candle-lighting and havdalah items, in order, with their times converted. */
  function ShabbatList(items: seq<Event>, fmt: Formatters): (r: seq<Event>)
    ensures |r| == |Filter(items, IsCandlesOrHavdalah)|
    ensures forall k :: 0 <= k < |r| ==> r[k] == LocalEvent(Filter(items, IsCandlesOrHavdalah)[k], fmt)
  {
    var kept := Filter(items, IsCandlesOrHavdalah);
    seq(|kept|, k requires 0 <= k < |kept| => LocalEvent(kept[k], fmt))
  }

  function IsParashat(item: Event): bool {
    item.category == Some("parashat")
  }

  /** The first weekly-portion item, if any. */
  function FirstParashat(items: seq<Event>): (r: Option<Event>)
    ensures r.Some? ==> exists k :: 0 <= k < |items| && items[k] == r.value && IsParashat(items[k])
                          && forall j :: 0 <= j < k ==> !IsParashat(items[j])
    ensures r.None? ==> forall k :: 0 <= k < |items| ==> !IsParashat(items[k])
  {
    match FirstIndexWhere(items, IsParashat)
    case Some(k) => Some(items[k])
    case None => None
  }

  // ---------------------------------------------------------------------------
  // The model

  class HebrewTimeModel {
    var eventTimes: seq<ZmanEvent>
    var shabbatTimes: seq<Event>
    var parasha: Option<Event>
    /** The day shown, in minutes. */
    var currentDate: int
    var isLoading: bool
    var hasError: bool
    /** The shared static caches. */
    const cache: ZmanimCache

    constructor(now: int, shared: ZmanimCache)
      ensures eventTimes == [] && shabbatTimes == [] && parasha.None? && currentDate == now
      ensures !isLoading && !hasError && cache == shared
    {
      eventTimes := [];
      shabbatTimes := [];
      parasha := None;
      currentDate := now;
      isLoading := false;
      hasError := false;
      cache := shared;
    }

    /** `fetchZmanim` for the coordinates rendered as `lat` and `lon`, with the request's outcome
        given as `response` (consulted only on a cache miss). */
    method FetchZmanim(lat: string, lon: string, fmt: Formatters, response: Response)
      modifies this, cache
      ensures currentDate == old(currentDate) && shabbatTimes == old(shabbatTimes) && parasha == old(parasha)
      ensures cache.shabbat == old(cache.shabbat)
      ensures var key := ZmanimKey(lat, lon, fmt.dayString(currentDate));
        if key in old(cache.zmanim) then
          // a hit publishes the cached list and makes no request
          eventTimes == old(cache.zmanim)[key] && cache.zmanim == old(cache.zmanim)
          && isLoading == old(isLoading) && hasError == old(hasError)
        else if response.Failed? || response.json.None? then
          !isLoading && hasError && eventTimes == old(eventTimes) && cache.zmanim == old(cache.zmanim)
        else if TimesOf(response.json.value).None? then
          isLoading && hasError == old(hasError) && eventTimes == old(eventTimes) && cache.zmanim == old(cache.zmanim)
        else
          DayTimes(eventTimes, KeysOfInterest, TimesOf(response.json.value).value, fmt)
          && cache.zmanim == old(cache.zmanim)[key := eventTimes]
          && !isLoading && !hasError
    {
      var formattedDate := fmt.dayString(currentDate);
      var cacheKey := ZmanimKey(lat, lon, formattedDate);
      if cacheKey in cache.zmanim {
        eventTimes := cache.zmanim[cacheKey];
        return;
      }
      isLoading := true;
      match response {
        case Failed =>
          isLoading := false;
          hasError := true;
        case Data(None) =>
          isLoading := false;
          hasError := true;
        case Data(Some(json)) =>
          var times := TimesOf(json);
          if times.Some? {
            var tempEventTimes := ProcessTimes(times.value, fmt);
            cache.zmanim := cache.zmanim[cacheKey := tempEventTimes];
            eventTimes := tempEventTimes;
            isLoading := false;
            hasError := false;
          }
      }
    }

    /** `fetchShabbatTimes`, with the decoded response given as `response` (`None` for a transport
        or decoding error, which changes nothing). */
    method FetchShabbatTimes(lat: string, lon: string, fmt: Formatters, response: Option<seq<Event>>)
      modifies this, cache
      ensures eventTimes == old(eventTimes) && currentDate == old(currentDate)
      ensures isLoading == old(isLoading) && hasError == old(hasError)
      ensures cache.zmanim == old(cache.zmanim)
      ensures var key := ShabbatKey(lat, lon);
        if key in old(cache.shabbat) then
          shabbatTimes == old(cache.shabbat)[key].0 && parasha == old(cache.shabbat)[key].1
          && cache.shabbat == old(cache.shabbat)
        else if response.None? then
          shabbatTimes == old(shabbatTimes) && parasha == old(parasha) && cache.shabbat == old(cache.shabbat)
        else
          shabbatTimes == ShabbatList(response.value, fmt) && parasha == FirstParashat(response.value)
          && cache.shabbat == old(cache.shabbat)[key := (shabbatTimes, parasha)]
    {
      var cacheKey := ShabbatKey(lat, lon);
      if cacheKey in cache.shabbat {
        var cached := cache.shabbat[cacheKey];
        shabbatTimes := cached.0;
        parasha := cached.1;
        return;
      }
      if response.Some? {
        var filteredItems := ShabbatList(response.value, fmt);
        var first := FirstParashat(response.value);
        cache.shabbat := cache.shabbat[cacheKey := (filteredItems, first)];
        shabbatTimes := filteredItems;
        parasha := first;
      }
    }
  }

  /** The post-processing of a "times" dictionary: keep the keys of interest, parse each time,
      sort by instant and move the earliest event to the end. */
  method ProcessTimes(times: map<string, string>, fmt: Formatters) returns (events: seq<ZmanEvent>)
    ensures DayTimes(events, KeysOfInterest, times, fmt)
  {
    var filteredTimes := FilterKeys(KeysOfInterest, times);
    var parsed := ParseEvents(KeysOfInterest, filteredTimes, times, fmt);
    var sorted := SortBy(parsed, EventDate);
    SortedKeepsDayTimes(parsed, sorted, KeysOfInterest, times, fmt);
    events := RotateLeft(sorted);
  }

  /** Lists with the same elements, counted with multiplicity, have the same length and members. */
  lemma SameMembers<T>(a: seq<T>, b: seq<T>)
    requires multiset(a) == multiset(b)
    ensures |a| == |b|
    ensures forall x :: x in a <==> x in b
  {
    assert |multiset(a)| == |a| && |multiset(b)| == |b|;
    forall x ensures x in a <==> x in b {
      assert x in a <==> x in multiset(a);
      assert x in b <==> x in multiset(b);
    }
  }

  lemma NamesOfSameMembers(a: seq<ZmanEvent>, b: seq<ZmanEvent>)
    requires forall x :: x in a <==> x in b
    ensures Names(a) == Names(b)
  {
    forall name | name in Names(a) ensures name in Names(b) {
      var k :| 0 <= k < |a| && a[k].eventName == name;
      assert a[k] in b;
      var m :| 0 <= m < |b| && b[m] == a[k];
    }
    forall name | name in Names(b) ensures name in Names(a) {
      var k :| 0 <= k < |b| && b[k].eventName == name;
      assert b[k] in a;
      var m :| 0 <= m < |a| && a[m] == b[k];
    }
  }

  /** Sorting keeps every property of the parsed list and orders it by instant. */
  lemma SortedKeepsDayTimes(events: seq<ZmanEvent>, sorted: seq<ZmanEvent>, keys: seq<string>, times: map<string, string>, fmt: Formatters)
    requires |events| <= |keys|
    requires forall k :: 0 <= k < |events| ==> ParsedFrom(events[k], keys, times, fmt)
    requires forall name :: Parsable(name, keys, times, fmt) ==> name in Names(events)
    requires forall e :: multiset(events)[e] <= 1
    requires multiset(sorted) == multiset(events) && SortedBy(sorted, EventDate)
    ensures DayTimes(RotateLeft(sorted), keys, times, fmt)
  {
    var r := RotateLeft(sorted);
    RotateRoundTrip(sorted);
    SameMembers(r, events);
    NamesOfSameMembers(r, events);
    ParsedFromMembers(r, events, keys, times, fmt);
    assert forall e :: multiset(r)[e] <= 1;
  }

  lemma ParsedFromMembers(r: seq<ZmanEvent>, events: seq<ZmanEvent>, keys: seq<string>, times: map<string, string>, fmt: Formatters)
    requires forall x :: x in r ==> x in events
    requires forall k :: 0 <= k < |events| ==> ParsedFrom(events[k], keys, times, fmt)
    ensures forall k :: 0 <= k < |r| ==> ParsedFrom(r[k], keys, times, fmt)
  {
    forall k | 0 <= k < |r| ensures ParsedFrom(r[k], keys, times, fmt) {
      assert r[k] in events;
      var m :| 0 <= m < |events| && events[m] == r[k];
    }
  }
}
