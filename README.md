# Siddur-Judaisim, modelled in Dafny

This project models the logic behind the Siddur-Judaisim iOS prayer-book app and its zmanim
widget. The SwiftUI screens, the network, the file system and the system calendars are left out.
Each Swift source file becomes one Dafny module:

- **Tehillim** (`Tehillim.dfy`) covers the psalm list.
  - Episodes are grouped by day of the week, by book, or as favourites, then filtered by the
    search text.
  - It also covers the favourite toggle and the gematria (Hebrew letter-value) sum.
  - `TehillimViewModel` is a class whose methods update its fields in place.
- **SiddurSettings** (`SiddurSettings.dfy`) covers the prayer-version enum and the small HTML
  renderer.
  - `ParseHTML` is the character loop with its tag stack.
  - `ApplyStyles` is the loop that folds the stack's modifiers over a text run.
  - Both are proved against the functional `Parse` and `Render`.
- **SiddurLoader** (`SiddurLoader.dfy`) turns a prayer book's JSON into ordered, titled sections,
  with the user's verse substituted for its placeholder. It also chooses the file name.
- **HebrewTime** (`HebrewTime.dfy`) covers the zmanim and Shabbat fetches of `HebrewTimeModel`.
  - The HTTP response is a parameter.
  - The process-wide caches are a shared `ZmanimCache` object.
  - The day's times are filtered to the keys of interest, parsed, sorted by date and rotated so
    that the earliest time goes last.
- **Calendar**, **Weeks** and **WeekCalendar** (`Calendar.dfy`, `Week.dfy`, `WeekCalendar.dfy`)
  cover the week strip.
  - They hold the calendar extension functions and the `Week` value with its id-only equality.
  - `WeekCalendarView` is a class. It keeps a window of consecutive seven-day weeks, which grows
    by one week at either end.
- **AppSettings** (`AppSettings.dfy`) models the app-wide `Settings` object. Every setter writes
  through to a `DefaultsStore`, which stands in for `UserDefaults`.
- **LocationManager** (`LocationManager.dfy`) covers saved locations.
  - Saved locations are loaded from documents, then the bundle, then the current position.
  - Saving writes to a `Documents` object.
  - It also models the authorization and location-update callbacks.
- **ZemanimView** (`ZemanimView.dfy`) covers deleting and adding saved locations, the "Local"
  card and the upcoming-events preview. The same logic appears a second time in the older
  `Siddur-Judaisim/Views/ZemanimView.swift` (lines 206-224, 264-285, 428-480). The model cites
  the copy under `Views/Zemanim/`.
- **Color** (`Color.dfy`) covers `Color(hex:)` and the custom palette.
- **Widget** (`Widget.dfy`) covers the widget's placeholder, fetch, five-day timeline and the
  evening roll-over of the inline Hebrew date.

`Wrappers`, `Seqs`, `Strings` and `Json` are support modules. They hold `Option`, filtering,
sorting, splitting, integer rendering and a JSON value type.

**Representations.**

- Instants are integers counting minutes; day 0 is a Sunday.
- Doubles are `real`.
- Calendar components that come from Foundation are fields of a `CalendarEnv` value: week of
  year, year, month, month name, Hebrew day, Hebrew rendering and the nearest Monday.
- Date parsing and formatting are fields of a `Formatters` value.

**Notes on the code as written:**

- In `applyStyles` (`SiddurSettingsUtils.swift` line 106), the comment says the modifiers apply
  from the outermost tag to the innermost. The loop runs over the reversed stack, which starts
  at the innermost tag. The model follows the loop: `Modifiers` lists the innermost tag's
  modifier first.
- The widget's `afterSunset(hour)` is true when the hour is *before* 20:00. The inline Hebrew
  date advances to the next day when it is false. `AfterSunset` and `InlineHebrewDay` state
  this as written.
- `parseHTML` never advances past a `<` that has no closing `>`, so the loop does not end. The
  model returns `None` for such input, and `ScanFinishes` characterises exactly when a result
  exists.

## Model

| member | source | states |
|---|---|---|
| Tehillim.CriterionRaw | Siddur-Judaisim/Handlers/TehillimViewModel.swift:28-29 | Each of "day", "book" and "favorite" is the raw value of exactly one criterion |
| Tehillim.CriterionFromRaw | Siddur-Judaisim/Handlers/TehillimViewModel.swift:28-30 | A stored raw value decodes only to the criterion whose raw value it is |
| Tehillim.CriterionRawRoundTrip | Siddur-Judaisim/Handlers/TehillimViewModel.swift:28-30 | Every criterion decodes back from its raw value |
| Tehillim.CriterionOf | Siddur-Judaisim/Handlers/TehillimViewModel.swift:23-26 | The sort criterion is the stored one when it decodes, otherwise by day |
| Tehillim.ContiguousPartition | Siddur-Judaisim/Handlers/TehillimViewModel.swift:149-165 | In a contiguous range table, every index in bounds lies in exactly one range |
| Tehillim.DayRangesPartition | Siddur-Judaisim/Handlers/TehillimViewModel.swift:149-157 | The seven weekday ranges tile psalms 0..150 without gap or overlap |
| Tehillim.BookRangesPartition | Siddur-Judaisim/Handlers/TehillimViewModel.swift:159-165 | The five book ranges tile psalms 0..150 without gap or overlap |
| Tehillim.Clamp | Siddur-Judaisim/Handlers/TehillimViewModel.swift:91-92 | A bound is clamped into 0..n and left alone when already in range |
| Tehillim.SliceGroup | Siddur-Judaisim/Handlers/TehillimViewModel.swift:87-102 | A range yields a group exactly when its clamped slice is non-empty, holding that slice under the range's title |
| Tehillim.GroupsFrom | Siddur-Judaisim/Handlers/TehillimViewModel.swift:87-102 | No more groups than ranges, and no empty group |
| Tehillim.GroupsFromCover | Siddur-Judaisim/Handlers/TehillimViewModel.swift:87-102 | The groups of a contiguous table, concatenated, are exactly the clamped slice of episodes the table spans |
| Tehillim.TableGroupsCover | Siddur-Judaisim/Handlers/TehillimViewModel.swift:87-102 | Grouping by day or by book shows every one of the first 150 episodes once, in order |
| Tehillim.FavoritesGroup | Siddur-Judaisim/Handlers/TehillimViewModel.swift:104-107 | The favourites group is sorted by id and is a permutation of the favourite episodes |
| Tehillim.FavoritesExact | Siddur-Judaisim/Handlers/TehillimViewModel.swift:104-107 | An episode is in the favourites group iff it is a favourite episode of the list |
| Tehillim.Matches | Siddur-Judaisim/Handlers/TehillimViewModel.swift:112 | An episode matches iff the text occurs somewhere in its name or in its number; searching an episode's own number finds it |
| Tehillim.SearchGroups | Siddur-Judaisim/Handlers/TehillimViewModel.swift:110-115 | Searching keeps no empty group and only episodes that match (the list uses `MatchesText`: name or number contains the text) |
| Tehillim.SearchKeepsMatches | Siddur-Judaisim/Handlers/TehillimViewModel.swift:110-115 | A group holding a matching episode survives the search |
| Tehillim.SearchGroupsFlatten | Siddur-Judaisim/Handlers/TehillimViewModel.swift:110-115 | The searched groups, concatenated, are exactly the matching episodes in order |
| Tehillim.DisplayedSearch | Siddur-Judaisim/Handlers/TehillimViewModel.swift:83-116 | Under day or book grouping the screen shows the first 150 episodes, narrowed to the matches when searching |
| Tehillim.Displayed | Siddur-Judaisim/Handlers/TehillimViewModel.swift:83-116 | Favourites without search show the one favourites group; other groupings show at most seven groups |
| Tehillim.Toggled | Siddur-Judaisim/Handlers/TehillimViewModel.swift:122-127 | Toggling keeps ids and names, changes nothing for an unknown id, and flips the flag of the first episode with that id only |
| Tehillim.FavoriteFlag | Siddur-Judaisim/Handlers/TehillimViewModel.swift:118-120 | The flag of the first episode with that id; false when no episode has it |
| Tehillim.FirstIndexSameIds | Siddur-Judaisim/Handlers/TehillimViewModel.swift:122-127 | Lists with the same ids find the same first episode for an id |
| Tehillim.ToggleTwice | Siddur-Judaisim/Handlers/TehillimViewModel.swift:122-127 | Toggling the same id twice restores the list |
| Tehillim.ToggleFlipsFlag | Siddur-Judaisim/Handlers/TehillimViewModel.swift:118-127 | Toggling a present id negates its favourite status |
| Tehillim.LetterValue | Siddur-Judaisim/Handlers/TehillimViewModel.swift:168-175 | A letter is worth at most 400 |
| Tehillim.FinalFormsEqualBase | Siddur-Judaisim/Handlers/TehillimViewModel.swift:168-175 | Final letter forms count as their base letters; other characters count 0 |
| Tehillim.Gematria | Siddur-Judaisim/Handlers/TehillimViewModel.swift:168-175 | A word's value is at most 400 per character |
| Tehillim.GematriaAdditive | Siddur-Judaisim/Handlers/TehillimViewModel.swift:168-175 | The value of a concatenation is the sum of the values |
| Tehillim.TehillimViewModel.constructor | Siddur-Judaisim/Handlers/TehillimViewModel.swift:18-21 | After init the loaded episodes are displayed under the stored criterion with no search text |
| Tehillim.TehillimViewModel.UpdateSortAndFilter | Siddur-Judaisim/Handlers/TehillimViewModel.swift:83-116 | The shown groups become the display of the episodes under the criterion and search text; nothing else changes |
| Tehillim.TehillimViewModel.SetSortCriterion | Siddur-Judaisim/Handlers/TehillimViewModel.swift:23-26 | Setting the criterion stores its raw value, reads back as set and regroups |
| Tehillim.TehillimViewModel.SetSearchText | Siddur-Judaisim/Handlers/TehillimViewModel.swift:110-115 | Setting the search text regroups with the new text |
| Tehillim.TehillimViewModel.IsFavorite | Siddur-Judaisim/Handlers/TehillimViewModel.swift:118-120 | The flag of the first stored episode with the id; false for an unknown id |
| Tehillim.TehillimViewModel.ToggleFavorite | Siddur-Judaisim/Handlers/TehillimViewModel.swift:122-127 | Flips the favourite status of a present id and saves the list when the write succeeds (`saveEpisodes`, lines 32-50), leaving the saved file as it was when it fails; changes nothing for an unknown id, and keeps the shown groups |
| SiddurSettings.RawValue | Siddur-Judaisim/Handlers/SiddurSettingsUtils.swift:12-15 | Each of the three stored names is the raw value of exactly one version |
| SiddurSettings.DisplayName | Siddur-Judaisim/Handlers/SiddurSettingsUtils.swift:17-26 | Each version shows its own localisation key (MIZRAH_LOC, SPAIN_LOC, ASHKENAZ_LOC), so the keys tell versions apart; no key is a raw value |
| SiddurSettings.FileName | Siddur-Judaisim/Handlers/SiddurSettingsUtils.swift:29-34 | The file name of a version is its raw value |
| SiddurSettings.FromRawValue | Siddur-Judaisim/Handlers/SiddurSettingsUtils.swift:12-15 | A raw value decodes only to the version it names |
| SiddurSettings.RawValueRoundTrip | Siddur-Judaisim/Handlers/SiddurSettingsUtils.swift:12-35 | Raw values and file names decode back to their version, and distinct versions have distinct raw values |
| SiddurSettings.ApplyTag | Siddur-Judaisim/Handlers/SiddurSettingsUtils.swift:66-82 | A tag leaves the stack as it is, pops its top entry, or pushes one entry on top of it |
| SiddurSettings.ApplyTagEffect | Siddur-Judaisim/Handlers/SiddurSettingsUtils.swift:66-82 | A closing tag pops only a matching top entry; any other tag is pushed |
| SiddurSettings.OpeningTagSize | Siddur-Judaisim/Handlers/SiddurSettingsUtils.swift:73-82 | big multiplies the current size by 1.5, small by 0.75, other tags keep it |
| SiddurSettings.OpenThenClose | Siddur-Judaisim/Handlers/SiddurSettingsUtils.swift:66-82 | Opening a tag and then closing it restores the stack |
| SiddurSettings.FindClose | Siddur-Judaisim/Handlers/SiddurSettingsUtils.swift:62-64 | A position it returns holds a `>` and lies at or after the start |
| SiddurSettings.FindCloseFirst | Siddur-Judaisim/Handlers/SiddurSettingsUtils.swift:62-64 | The `>` found is the first one after the start, and none is found only when no `>` follows |
| SiddurSettings.TextsAppend | Siddur-Judaisim/Handlers/SiddurSettingsUtils.swift:52-95 | The text of concatenated segments is the concatenated texts |
| SiddurSettings.SkipTag | Siddur-Judaisim/Handlers/SiddurSettingsUtils.swift:62-84 | Skipping a tag up to its `>` adds no visible text |
| SiddurSettings.ScanText | Siddur-Judaisim/Handlers/SiddurSettingsUtils.swift:52-95 | The scan's segments hold exactly the characters outside tags, in order |
| SiddurSettings.Parse | Siddur-Judaisim/Handlers/SiddurSettingsUtils.swift:47-99 | The parse finishes iff every `<` has a later `>`, and a finished parse's text is the HTML with its tags removed |
| SiddurSettings.Scan | Siddur-Judaisim/Handlers/SiddurSettingsUtils.swift:52-90 | A finished scan keeps the segments already emitted, in front |
| SiddurSettings.ScanFinishes | Siddur-Judaisim/Handlers/SiddurSettingsUtils.swift:52-90 | The scan finishes iff every `<` from that point on has a closing `>` |
| SiddurSettings.Modifiers | Siddur-Judaisim/Handlers/SiddurSettingsUtils.swift:107-114 | One modifier per open tag, innermost first |
| SiddurSettings.Render | Siddur-Judaisim/Handlers/SiddurSettingsUtils.swift:55-59 | One styled run per segment, each styled by its own stack |
| SiddurSettings.RenderAppend | Siddur-Judaisim/Handlers/SiddurSettingsUtils.swift:93-95 | Rendering distributes over concatenation |
| SiddurSettings.ReplaceCharAppend | Siddur-Judaisim/Handlers/SiddurSettingsUtils.swift:103 | Replacing the no-break space distributes over concatenation |
| SiddurSettings.RunsTextOfRender | Siddur-Judaisim/Handlers/SiddurSettingsUtils.swift:101-117 | The rendered text is the segments' text with no-break spaces made plain |
| SiddurSettings.ApplyStyles | Siddur-Judaisim/Handlers/SiddurSettingsUtils.swift:101-117 | The run's text has no-break spaces replaced, with one modifier per open tag, innermost first |
| SiddurSettings.FlushRun | Siddur-Judaisim/Handlers/SiddurSettingsUtils.swift:55-59 | Flushing appends the pending text's run exactly when the pending text is non-empty |
| SiddurSettings.ParseRunsText | Siddur-Judaisim/Handlers/SiddurSettingsUtils.swift:47-117 | The rendered runs spell the HTML's visible text with plain spaces |
| SiddurSettings.ReadTag | Siddur-Judaisim/Handlers/SiddurSettingsUtils.swift:61-84 | At a `<`, either no `>` follows and the scan is stuck, or the scan resumes after the `>` with the tag applied and the pending run flushed |
| SiddurSettings.ParseHTML | Siddur-Judaisim/Handlers/SiddurSettingsUtils.swift:47-99 | Returns runs iff every tag closes; the runs are the rendered parse and spell the visible text |
| SiddurLoader.OrderedKeysAreSections | Siddur-Judaisim/Handlers/SiddurLoader.swift:28-40 | The ordered section keys are exactly the keys of the section table, each once |
| SiddurLoader.SubstituteLines | Siddur-Judaisim/Handlers/SiddurLoader.swift:78-80 | One line out for each line in, each put through the placeholder replacement; what the replacement does is `SubstituteLinesJoined` |
| SiddurLoader.SubstituteLinesJoined | Siddur-Judaisim/Handlers/SiddurLoader.swift:78-80 | Every placeholder occurrence is replaced: a line of pieces that do not contain the placeholder, joined by it, becomes those pieces joined by the verse |
| SiddurLoader.SubstituteLinesAbsent | Siddur-Judaisim/Handlers/SiddurLoader.swift:78-80 | Lines without the placeholder are unchanged |
| SiddurLoader.OrderedSections | Siddur-Judaisim/Handlers/SiddurLoader.swift:71-83 | Every section is named in the prayer, its value there is a string list, and its text is that list with the verse substituted |
| SiddurLoader.OrderedSectionsTitles | Siddur-Judaisim/Handlers/SiddurLoader.swift:71-83 | The section titles are the names of the order whose value is a string list, in the order's order |
| SiddurLoader.PrayerOf | Siddur-Judaisim/Handlers/SiddurLoader.swift:65-83 | An entry is a prayer iff it is a dictionary with an "order" string list, titled by its key |
| SiddurLoader.TransformText | Siddur-Judaisim/Handlers/SiddurLoader.swift:61-89 | One prayer per usable entry, each titled by its own key, no key twice |
| SiddurLoader.FullFileName | Siddur-Judaisim/Handlers/SiddurLoader.swift:93 | The smart siddur prefixes "Smart-" to the version's file name |
| SiddurLoader.LoadPrayers | Siddur-Judaisim/Handlers/SiddurLoader.swift:92-112 | The prayers of the file's "text" dictionary, or none when the file is missing, not JSON or not so shaped |
| HebrewTime.KeysOfInterestDistinct | Siddur-Judaisim/Handlers/HebrewViewModel.swift:45-61 | The fifteen keys of interest are distinct |
| HebrewTime.ZmanimKey | Siddur-Judaisim/Handlers/HebrewViewModel.swift:64-65 | A key of non-empty `_`-free parts splits at `_` back into latitude, longitude and day |
| HebrewTime.ShabbatKey | Siddur-Judaisim/Handlers/HebrewViewModel.swift:144 | A key of non-empty `_`-free coordinates splits at `_` back into "shabbat", latitude and longitude |
| HebrewTime.ZmanimKeyInjective | Siddur-Judaisim/Handlers/HebrewViewModel.swift:64-65 | Distinct coordinates or days give distinct zmanim cache keys |
| HebrewTime.ShabbatKeyInjective | Siddur-Judaisim/Handlers/HebrewViewModel.swift:144 | Distinct coordinates give distinct Shabbat cache keys |
| HebrewTime.ZmanimCache.constructor | Siddur-Judaisim/Handlers/HebrewViewModel.swift:21-22 | The caches start empty |
| HebrewTime.FilterKeys | Siddur-Judaisim/Handlers/HebrewViewModel.swift:98-103 | The filtered times are exactly the keys of interest present in the response, with their values |
| HebrewTime.Names | Siddur-Judaisim/Handlers/HebrewViewModel.swift:105-114 | The set of event names of a list |
| HebrewTime.AppendFresh | Siddur-Judaisim/Handlers/HebrewViewModel.swift:105-114 | Appending an event with a new name keeps the list free of repeats |
| HebrewTime.ParseEvents | Siddur-Judaisim/Handlers/HebrewViewModel.swift:105-114 | Every parsable filtered time yields one event with its parsed date and local time; nothing else is produced |
| HebrewTime.DayTimesDistinctNames | Siddur-Judaisim/Handlers/HebrewViewModel.swift:105-121 | The published day's times never name the same zman twice |
| HebrewTime.DayTimesEarliestLast | Siddur-Judaisim/Handlers/HebrewViewModel.swift:116-121 | The earliest time is last and the others ascend |
| HebrewTime.TimesOf | Siddur-Judaisim/Handlers/HebrewViewModel.swift:95-96 | The times exist iff the response is an object with a string-to-string "times" |
| HebrewTime.ConvertToHHMM | Siddur-Judaisim/Handlers/HebrewViewModel.swift:235-241 | An ISO date converts to its hour-minute rendering; anything else fails |
| HebrewTime.LocalEvent | Siddur-Judaisim/Handlers/HebrewViewModel.swift:175-176 | An item keeps title, Hebrew and category; its date becomes local time, or stays as it was when unparsable |
| HebrewTime.ShabbatList | Siddur-Judaisim/Handlers/HebrewViewModel.swift:174-177 | The candle-lighting and havdalah items in order, with local times |
| HebrewTime.FirstParashat | Siddur-Judaisim/Handlers/HebrewViewModel.swift:178 | The first item in the parashat category, or none when there is none |
| HebrewTime.HebrewTimeModel.constructor | Siddur-Judaisim/Handlers/HebrewViewModel.swift:13-22 | The published fields start empty, not loading and without error |
| HebrewTime.HebrewTimeModel.FetchZmanim | Siddur-Judaisim/Handlers/HebrewViewModel.swift:63-140 | A cache hit publishes the cached times. A failure sets the error flag. Otherwise the processed times are cached and published |
| HebrewTime.HebrewTimeModel.FetchShabbatTimes | Siddur-Judaisim/Handlers/HebrewViewModel.swift:143-193 | A cache hit publishes the cache. A decoded response publishes and caches the filtered list and the parasha. A failure changes nothing |
| HebrewTime.ProcessTimes | Siddur-Judaisim/Handlers/HebrewViewModel.swift:98-121 | The processed times are the day's parsable zmanim, once each, earliest last and otherwise ascending |
| HebrewTime.SortedKeepsDayTimes | Siddur-Judaisim/Handlers/HebrewViewModel.swift:116-121 | Sorting the parsed events by date and rotating the first to the end gives the published form |
| Calendar.Weekday | Siddur-Judaisim/Views/Zemanim/Calendar/CalendarExtantion.swift:33-47 | A weekday is between 1 (Sunday) and 7 |
| Calendar.NearestSunday | Siddur-Judaisim/Views/Zemanim/Calendar/CalendarExtantion.swift:33-47 | The nearest Sunday is a Sunday at 09:00, at most six days back, and the same day for a Sunday |
| Calendar.CurrentWeek | Siddur-Judaisim/Views/Zemanim/Calendar/CalendarExtantion.swift:49-54 | Seven consecutive days starting at the given day |
| Calendar.NextWeek | Siddur-Judaisim/Views/Zemanim/Calendar/CalendarExtantion.swift:56-61 | Seven consecutive days starting the day after |
| Calendar.PreviousWeek | Siddur-Judaisim/Views/Zemanim/Calendar/CalendarExtantion.swift:63-68 | Seven consecutive days ending the day before |
| Calendar.ThreeWeeksConsecutive | Siddur-Judaisim/Views/Zemanim/Calendar/CalendarExtantion.swift:49-68 | The previous, current and next weeks of a day form 21 consecutive days |
| Calendar.HebrewDayNumber | Siddur-Judaisim/Views/Zemanim/Calendar/CalendarExtantion.swift:76-88 | Days 1..30 get their Hebrew numeral; anything else is empty |
| Calendar.HebrewDayNumberValue | Siddur-Judaisim/Views/Zemanim/Calendar/CalendarExtantion.swift:76-88 | Each day's numeral has the day as its gematria value |
| Calendar.HebrewMonthAndYear | Siddur-Judaisim/Views/Zemanim/Calendar/CalendarExtantion.swift:90-98 | A rendering of fewer than three words is kept as it is |
| Calendar.HebrewMonthAndYearWords | Siddur-Judaisim/Views/Zemanim/Calendar/CalendarExtantion.swift:90-98 | With three or more words, the result's words are the rendering's words without the first |
| Calendar.WeekAndYear | Siddur-Judaisim/Views/Zemanim/Calendar/CalendarExtantion.swift:104-109 | For non-negative components the string splits at `-` back into the week number and the year |
| Calendar.WeekAndYearInjective | Siddur-Judaisim/Views/Zemanim/Calendar/CalendarExtantion.swift:104-109 | Equal week-and-year strings mean the same week number and year |
| Calendar.MonthAndYear | Siddur-Judaisim/Views/Zemanim/Calendar/CalendarExtantion.swift:111-117 | With a one-word month name the title splits at the space back into the month name and the year |
| Calendar.IsSameMonth | Siddur-Judaisim/Views/Zemanim/Calendar/CalendarExtantion.swift:119-124 | Year and month components agree; every date is in its own month |
| Calendar.IsSameMonthEquivalence | Siddur-Judaisim/Views/Zemanim/Calendar/CalendarExtantion.swift:119-124 | Being in the same month is an equivalence |
| Weeks.MakeWeek | Siddur-Judaisim/Calendar/Week.swift:14-18 | A week keeps its days and order; its id renders its last day, or now when it has no days |
| Weeks.SameWeek | Siddur-Judaisim/Calendar/Week.swift:25-29 | Weeks are equal when their ids are; every week equals itself |
| Weeks.SameWeekEquivalence | Siddur-Judaisim/Calendar/Week.swift:25-29 | Week equality is an equivalence |
| Weeks.SameWeekIgnoresDaysAndOrder | Siddur-Judaisim/Calendar/Week.swift:25-29 | The same days under different orders make equal weeks |
| Weeks.SameWeekByLastDay | Siddur-Judaisim/Calendar/Week.swift:14-29 | Weeks whose last days share week number and year are equal, whatever their other days |
| Weeks.CurrentWeekOf | Siddur-Judaisim/Calendar/Week.swift:31-33 | The current week is seven consecutive days from the nearest Monday |
| WeekCalendar.IsDayVisible | Siddur-Judaisim/Views/CalendarView.swift:84-95 | With hiding on, a day is visible iff it shares the month of the last day (next weeks: the first day); otherwise always |
| WeekCalendar.ReferenceDayVisible | Siddur-Judaisim/Views/CalendarView.swift:84-95 | A week's reference day is always visible |
| WeekCalendar.JoinConsecutive | Siddur-Judaisim/Views/CalendarView.swift:181-195 | Two consecutive runs that meet day to day join into one |
| WeekCalendar.WeekCalendarView.constructor | Siddur-Judaisim/Views/CalendarView.swift:110-138 | The window is the previous, current and next weeks around the focused week's Monday. It is valid and positioned on the focused id |
| WeekCalendar.WeekCalendarView.LoadWeek | Siddur-Judaisim/Views/CalendarView.swift:181-195 | Reaching the first previous week prepends the week before; reaching the last next week appends the week after; nothing else changes |
| WeekCalendar.LoadWeekWindow | Siddur-Judaisim/Views/CalendarView.swift:181-195 | Loading adds at most one week at one end and keeps every week full; a valid window stays valid when the appearing week is its first previous or last next week |
| WeekCalendar.WeekCalendarView.OnPositionChange | Siddur-Judaisim/Views/CalendarView.swift:164-169 | Focuses the first week with the new id and titles it by its last day's month; an unknown id changes neither. It needs only that the week found has a last day |
| WeekCalendar.FullWeeksFocusable | Siddur-Judaisim/Views/CalendarView.swift:164-169 | In a window of full weeks the week found by id always has a last day |
| WeekCalendar.WeekCalendarView.OnSelectionChange | Siddur-Judaisim/Views/CalendarView.swift:170-175 | Focuses the first week containing the selected day; no match leaves the focus |
| WeekCalendar.AnchorDay | Siddur-Judaisim/Views/CalendarView.swift:116-120 | The window is anchored at the focused week's first day, or at now for an empty week |
| WeekCalendar.SelectionFocusHoldsDay | Siddur-Judaisim/Views/CalendarView.swift:170-175 | The focused week contains the selected day, and no earlier week does |
| WeekCalendar.PrependKeepsValid | Siddur-Judaisim/Views/CalendarView.swift:182-187 | Prepending the previous week keeps a window of consecutive full weeks |
| WeekCalendar.AppendKeepsValid | Siddur-Judaisim/Views/CalendarView.swift:188-193 | Appending the next week keeps a window of consecutive full weeks |
| AppSettings.ReadDouble | Siddur-Judaisim/Siddur_JudaisimApp.swift:146-157 | A stored double is read back; a missing or mistyped value gives the default |
| AppSettings.ReadString | Siddur-Judaisim/Siddur_JudaisimApp.swift:146-157 | A stored string is read back; a missing or mistyped value gives the default |
| AppSettings.ReadBool | Siddur-Judaisim/Siddur_JudaisimApp.swift:146-157 | A flag reads true iff true is stored under its key |
| AppSettings.SettingsKeysDistinct | Siddur-Judaisim/Siddur_JudaisimApp.swift:90-134 | Every persisted setting has its own key |
| AppSettings.WriteKeepsOtherKeys | Siddur-Judaisim/Siddur_JudaisimApp.swift:90-134 | Writing one key leaves every other key's reading unchanged |
| AppSettings.Settings.constructor | Siddur-Judaisim/Siddur_JudaisimApp.swift:146-157 | Each setting is read from its key with its default; the language is the system code or "en" |
| AppSettings.Settings.ColorSchemePreference | Siddur-Judaisim/Siddur_JudaisimApp.swift:108-114 | "dark" and "light" select their scheme; any other value follows the system |
| AppSettings.Settings.SelectedPrayerVersion | Siddur-Judaisim/Siddur_JudaisimApp.swift:138-140 | The stored version when its raw value decodes, otherwise Mizrah |
| AppSettings.Settings.SetTextSize | Siddur-Judaisim/Siddur_JudaisimApp.swift:90-92 | Changes only the text size and persists it under its key |
| AppSettings.Settings.SetUserPasuk | Siddur-Judaisim/Siddur_JudaisimApp.swift:93-95 | Changes only the user's verse and persists it |
| AppSettings.Settings.SetSelectedFontName | Siddur-Judaisim/Siddur_JudaisimApp.swift:98-100 | Changes only the font name and persists it |
| AppSettings.Settings.SetAppearanceSetting | Siddur-Judaisim/Siddur_JudaisimApp.swift:104-106 | Changes only the appearance and persists it |
| AppSettings.Settings.SetSelectedLatitude | Siddur-Judaisim/Siddur_JudaisimApp.swift:117-119 | Changes only the latitude and persists it |
| AppSettings.Settings.SetSelectedLongitude | Siddur-Judaisim/Siddur_JudaisimApp.swift:120-122 | Changes only the longitude and persists it |
| AppSettings.Settings.SetSelectedLocation | Siddur-Judaisim/Siddur_JudaisimApp.swift:123-125 | Changes only the location name and persists it |
| AppSettings.Settings.SetSmartSiddur | Siddur-Judaisim/Siddur_JudaisimApp.swift:128-130 | Changes only the smart-siddur flag and persists it |
| AppSettings.Settings.SetSelectedPrayerVersionRawValue | Siddur-Judaisim/Siddur_JudaisimApp.swift:132-134 | Changes only the stored version and persists it |
| AppSettings.Settings.SetSelectedPrayerVersion | Siddur-Judaisim/Siddur_JudaisimApp.swift:141-143 | Stores the version's raw value, which then reads back as that version |
| LocationManager.LocalItem | Siddur-Judaisim/Handlers/LocationManagerModel.swift:111-115 | The "Local" item sits at the given coordinate with the location symbol |
| LocationManager.LoadedLocations | Siddur-Judaisim/Handlers/LocationManagerModel.swift:86-116 | The saved list from documents wins, then the bundled list, then the current position alone, else nothing |
| LocationManager.SavedListWins | Siddur-Judaisim/Handlers/LocationManagerModel.swift:91-97 | A decodable saved file is loaded as it is, whatever the bundle or position |
| LocationManager.AfterSave | Siddur-Judaisim/Handlers/LocationManagerModel.swift:71-84 | A successful write replaces only the locations file; a failed one changes nothing |
| LocationManager.Document | Siddur-Judaisim/Handlers/LocationManagerModel.swift:91-97 | The locations file's content exactly when it exists |
| LocationManager.LocationManager.constructor | Siddur-Judaisim/Handlers/LocationManagerModel.swift:21-29 | Starts with no position and no requests, and loads the saved locations |
| LocationManager.LocationManager.LoadLocations | Siddur-Judaisim/Handlers/LocationManagerModel.swift:86-116 | Replaces the saved list by what loading finds and changes nothing else |
| LocationManager.LocationManager.SaveLocations | Siddur-Judaisim/Handlers/LocationManagerModel.swift:71-84 | Writes the saved list to the locations file when the write succeeds |
| LocationManager.LocationManager.SaveThenLoad | Siddur-Judaisim/Handlers/LocationManagerModel.swift:71-116 | Saving and then loading gives back the same list |
| LocationManager.LocationManager.RequestAuthorizationIfNeeded | Siddur-Judaisim/Handlers/LocationManagerModel.swift:31-38 | Asks for permission only while it is undetermined |
| LocationManager.LocationManager.RequestLocation | Siddur-Judaisim/Handlers/LocationManagerModel.swift:40-43 | Asks for permission if needed and starts updating |
| LocationManager.LocationManager.DidUpdateLocations | Siddur-Judaisim/Handlers/LocationManagerModel.swift:45-60 | The last reported location becomes current, updating stops and a waiting callback gets it; an empty report changes nothing |
| ZemanimView.RemoveAt | Siddur-Judaisim/Views/Zemanim/ZemanimView.swift:130-135 | Removing an index keeps the other items in order and drops exactly that one |
| ZemanimView.DeleteLocation | Siddur-Judaisim/Views/Zemanim/ZemanimView.swift:130-135 | Removes the first saved item with the id and saves; an unknown id changes nothing |
| ZemanimView.DeleteRemovesId | Siddur-Judaisim/Views/Zemanim/ZemanimView.swift:130-135 | With distinct ids, deletion leaves no item with that id and keeps all others |
| ZemanimView.AddLocation | Siddur-Judaisim/Views/Zemanim/ZemanimView.swift:412-423 | With a selected place, appends it with the chosen symbol and coordinate and saves; without one, changes nothing |
| ZemanimView.LocalCard | Siddur-Judaisim/Views/Zemanim/ZemanimView.swift:117-125 | A known position makes the "Local" card; otherwise the previous card stays |
| ZemanimView.LocalCardMatchesFallback | Siddur-Judaisim/Views/Zemanim/ZemanimView.swift:121 | The "Local" card is the item loading falls back to |
| ZemanimView.UpcomingEvents | Siddur-Judaisim/Views/Zemanim/ZemanimView.swift:193-194 | The first three events still to come, in order |
| ZemanimView.UpcomingEmpty | Siddur-Judaisim/Views/Zemanim/ZemanimView.swift:193-194 | No upcoming events iff every event is past |
| ZemanimView.Preview | Siddur-Judaisim/Views/Zemanim/ZemanimView.swift:191-217 | Loading when there are no times, "no upcoming" when none is still to come, otherwise one to three events |
| Color.HexDigitValue | Siddur-Judaisim/Handlers/Utilities.swift:51-52 | A hex digit's value is below 16 |
| Color.HexValueAppend | Siddur-Judaisim/Handlers/Utilities.swift:51-52 | The value of concatenated digits shifts the first part by the second's length |
| Color.HexValueBound | Siddur-Judaisim/Handlers/Utilities.swift:51-52 | n hex digits are worth less than 16 to the n |
| Color.HexRun | Siddur-Judaisim/Handlers/Utilities.swift:51-52 | The scan reads the longest prefix of hex digits |
| Color.ScanHexInt64 | Siddur-Judaisim/Handlers/Utilities.swift:51-52 | The scanned value fits in 64 bits; its behaviour is stated by the four lemmas below |
| Color.ScanAllDigits | Siddur-Judaisim/Handlers/Utilities.swift:51-52 | Up to sixteen hex digits scan to their value |
| Color.ScanAllHex | Siddur-Judaisim/Handlers/Utilities.swift:51-52 | Any run of hex digits scans to its value, or saturates to 2^64-1 when the value does not fit |
| Color.ScanStopsAtNonHex | Siddur-Judaisim/Handlers/Utilities.swift:51-52 | The scan stops at the first non-hex character; what follows it is ignored |
| Color.ScanSkipsPrefix | Siddur-Judaisim/Handlers/Utilities.swift:51-52 | A "0x" or "0X" before hex digits is skipped and the digits after it are scanned |
| Color.SkipHash | Siddur-Judaisim/Handlers/Utilities.swift:49 | One leading `#` is dropped |
| Color.Channels | Siddur-Judaisim/Handlers/Utilities.swift:54-56 | Three bytes that recompose to the low 24 bits of the value |
| Color.ChannelsRecompose | Siddur-Judaisim/Handlers/Utilities.swift:54-56 | The shifted and masked bytes recompose the low 24 bits |
| Color.ChannelsOfBytes | Siddur-Judaisim/Handlers/Utilities.swift:54-56 | Three bytes composed into a value decompose back into themselves |
| Color.FromHex | Siddur-Judaisim/Handlers/Utilities.swift:47-60 | Each component is its channel over 255 and lies in 0..1 |
| Color.NoDigitsIsBlack | Siddur-Judaisim/Handlers/Utilities.swift:47-60 | A string without leading hex digits gives black |
| Color.HashIsOptional | Siddur-Judaisim/Handlers/Utilities.swift:49 | A leading `#` does not change the colour |
| Color.SixDigitBytes | Siddur-Judaisim/Handlers/Utilities.swift:51-56 | Six hex digits are three two-digit bytes |
| Color.SixDigits | Siddur-Judaisim/Handlers/Utilities.swift:47-60 | Six hex digits give the channels of their digit pairs |
| Color.PaletteRaw | Siddur-Judaisim/Handlers/Utilities.swift:25-38 | Every palette entry is six hex digits |
| Color.PaletteChannels | Siddur-Judaisim/Handlers/Utilities.swift:24-43 | Every palette colour has the channels of its digit pairs |
| Widget.Placeholder | ZmanimWidget/ZmanimWidget.swift:16-18 | The placeholder shows the widget's four zmanim, in order, at now |
| Widget.AsWidgetZman | ZmanimWidget/ZmanimWidget.swift:78-85 | A row keeps the event's name and local time |
| Widget.FetchZmanim | ZmanimWidget/ZmanimWidget.swift:43-95 | Failures give no rows; otherwise one row per parsable widget key, from the response's times, without repeats |
| Widget.RowsFromEvents | ZmanimWidget/ZmanimWidget.swift:78-88 | Rows built from parsed events cover the parsable keys once each |
| Widget.GetTimeline | ZmanimWidget/ZmanimWidget.swift:25-41 | Five entries, one per day from now, each with the same zmanim |
| Widget.AfterSunset | ZmanimWidget/ZmanimWidget.swift:245-249 | True iff the hour is before 20 |
| Widget.InlineHebrewDay | ZmanimWidget/ZmanimWidget.swift:230-234 | The Hebrew date moves to the next day from 20:00 on |

## Left out

- **Network.** URLSession requests are not modelled. Each response is a parameter: failed, not
  JSON, or a JSON value. The URL guards are taken to succeed, since the strings always form URLs.
- **JSON decoding.** JSONDecoder and JSONEncoder are not modelled. Decoded content comes in as
  `Option` values, with `None` for undecodable data.
- **Storage.** The bundle, the documents directory and `UserDefaults` are maps. Whether a file
  write succeeds is a parameter (`LocationManager`, `ZemanimView`, and `writeOk` of
  `Tehillim.TehillimViewModel.ToggleFavorite`).
- **UserDefaults bridging.** `UserDefaults` conversions between stored types are not modelled,
  for example a number read as a string. A value of another type reads as the default.
- **Concurrency.** `DispatchQueue.main.async`, `[weak self]` captures and the completion
  callbacks are not modelled. Each fetch applies its effects at once.
- **Floating point.** Doubles are real numbers. Font scales multiply exactly, and colour
  components are real quotients.
- **Dates and time zones.** `DateFormatter`, `ISO8601DateFormatter`, `HDate`, time zones and
  daylight saving are functions of the instant, held in `CalendarEnv` and `Formatters`.
  `nearestMonday` is one of those functions because its source is not part of this model.
- **Dictionary order.** Swift dictionaries iterate in an unspecified order.
  - `TransformText` and `ParseEvents` pick entries nondeterministically and promise only what
    holds for any order.
  - The order of the prayers is therefore not modelled.
- **Sorting.** `sort(by:)` is stable, but the zmanim reach it in the dictionary's unspecified
  order, so events with equal dates have no defined order to keep. The favourites are sorted by
  id, and their order is fixed except for repeated ids. The model proves only that each result is
  sorted and is a permutation of its input.
- `Tehillim.Gematria`: sums per Unicode scalar. Swift sums per grapheme cluster, so a letter
  carrying combining marks (niqqud) is not in its table and counts 0. The model counts the base
  letter and gives the marks 0. The two agree on unpointed text.
- `Tehillim.Matches`, `Strings.Contains` and `SiddurSettings.Scan`: compare per Unicode scalar,
  where Swift's `contains` and `html[i] == "<"` compare Characters (grapheme clusters) under
  canonical equivalence. A bare letter searched for in a pointed (niqqud) name can match in the
  model and not in the app, and canonically equivalent spellings that differ in scalars do not
  match in the model. The two agree on text without combining marks.
- `Color.ScanHexInt64`: whitespace skipping by `Scanner` is not modelled. The scan starts at the
  first character.
- `SiddurSettings.ParseHTML`: on input with an unclosed `<`, the source loops forever; the model
  returns `None`.
- **Fonts.** The base font and colour applied after styling are not modelled. The model records
  modifiers, not rendered fonts.
- `WeekCalendar.LoadWeekWindow`: the source matches the week by id only. `LoadWeek` states the
  insert and append for any id match, but the window is proved to stay valid only when the
  appearing week is the structurally same first or last week.
- `WeekCalendar.WeekCalendarView.OnPositionChange`: requires the week found by id to have a
  last day, where the source force-unwraps `days.last!` and traps on an empty week. Every window
  the view builds or loads holds full weeks (`LoadWeek`, `FullWeeksFocusable`).
- **Week strip views.** Scroll geometry, `isDragging`, the width reader and `MonthCalendarView`
  are view layout, not logic.
- **Widget timeline.** The `.atEnd` reload policy is not modelled. Only the entries are.
- **Views.** SwiftUI view bodies, navigation, sheets, localisation lookups, notifications, the
  live activity and the prayers data files are not modelled.
- **Fetches on appear.** The `fetchZmanim` and `fetchShabbatTimes` calls made on appear are the
  methods already modelled in `HebrewTime`.
- **Geocoding.** `GeocodingHelper` and the place search, which turn a search completion into a
  coordinate, are not modelled. `AddLocation` takes the chosen title and coordinate as
  parameters.
- **Authorization and ids.** Changes to the authorization status come from the system and are
  not modelled. Fresh `UUID`s are passed in as natural numbers.
