/** Turning a prayer book's JSON into titled prayers made of ordered, placeholder-substituted
    sections, and choosing which file to read. */
module SiddurLoader {
  import opened Wrappers
  import opened Seqs
  import opened Strings
  import opened Json

  datatype PrayerSection = PrayerSection(title: string, text: seq<string>)

  datatype Prayer = Prayer(title: string, prayers: seq<PrayerSection>)

  const OrderedSectionKeys: seq<string> := ["DAILY_PRAYES_LOC", "POST_MEAL_BLESSING", "Holiday Prayers"]

  const PrayerSections: map<string, seq<string>> := map[
    "DAILY_PRAYES_LOC" := ["PREPARATORY_PRAYERS", "WEEKDAY_SHACHARIT", "ADDITIONS_FOR_SHACHARIT", "WEEKDAY_MINCHA",
                           "WEEKDAY_ARVIT", "BEDTIME_SHEMA", "THE_MIDNIGHT_RITE"],
    "POST_MEAL_BLESSING" := ["POST_MEAL_BLESSING", "AL_HAMIHYA", "BLESSINGS_ON_ENJOYMENTS"],
    "Holiday Prayers" := ["Purim", "Hanukkah", "Rosh Hodesh", "Counting of the Omer"]
  ]

  /** The ordered keys are exactly the keys of the section table, each once. */
  lemma OrderedKeysAreSections()
    ensures forall k :: 0 <= k < |OrderedSectionKeys| ==> OrderedSectionKeys[k] in PrayerSections
    ensures forall name :: name in PrayerSections ==> name in OrderedSectionKeys
    ensures Distinct(OrderedSectionKeys)
  {
  }

  const UserPasukPlaceholder: string := "{user_pasuk}"

  /** Every line with each occurrence of the placeholder replaced by the user's verse
      (`SubstituteLinesJoined` states what that replacement does to a line). */
  function SubstituteLines(lines: seq<string>, userPasuk: string): (r: seq<string>)
    ensures |r| == |lines|
    ensures forall k :: 0 <= k < |lines| ==> r[k] == ReplaceAll(lines[k], UserPasukPlaceholder, userPasuk)
  {
    seq(|lines|, k requires 0 <= k < |lines| => ReplaceAll(lines[k], UserPasukPlaceholder, userPasuk))
  }

  /** Lines without the placeholder come through unchanged. */
  lemma SubstituteLinesAbsent(lines: seq<string>, userPasuk: string)
    requires forall k :: 0 <= k < |lines| ==> !Contains(lines[k], UserPasukPlaceholder)
    ensures SubstituteLines(lines, userPasuk) == lines
  {
    forall k | 0 <= k < |lines| ensures SubstituteLines(lines, userPasuk)[k] == lines[k] {
      ReplaceAllAbsent(lines[k], UserPasukPlaceholder, userPasuk);
    }
  }

  /** Every occurrence of the placeholder is replaced by the user's verse: a line made of
      pieces free of the placeholder, joined by the placeholder, becomes those pieces joined by
      the verse. */
  lemma SubstituteLinesJoined(lines: seq<string>, userPasuk: string, k: int, pieces: seq<string>)
    requires 0 <= k < |lines| && lines[k] == JoinedBy(pieces, UserPasukPlaceholder)
    requires forall j :: 0 <= j < |pieces| ==> !Contains(pieces[j], UserPasukPlaceholder)
    ensures SubstituteLines(lines, userPasuk)[k] == JoinedBy(pieces, userPasuk)
  {
    assert HeadOnce(UserPasukPlaceholder);
    ReplaceAllJoined(pieces, UserPasukPlaceholder, userPasuk);
  }

  /** A section name whose value in the prayer's dictionary is a list of strings. */
  function IsSectionIn(dict: map<string, Json>): string -> bool {
    name => name in dict && AsStringList(dict[name]).Some?
  }

  /** `order.compactMap`: one section per usable name of `order`, titled by that name. */
  function OrderedSections(dict: map<string, Json>, order: seq<string>, userPasuk: string): (r: seq<PrayerSection>)
    ensures |r| <= |order|
    ensures forall k :: 0 <= k < |r| ==>
              && r[k].title in dict
              && AsStringList(dict[r[k].title]).Some?
              && r[k].text == SubstituteLines(AsStringList(dict[r[k].title]).value, userPasuk)
  {
    if order == [] then []
    else
      var rest := OrderedSections(dict, order[1..], userPasuk);
      if IsSectionIn(dict)(order[0]) then
        [PrayerSection(order[0], SubstituteLines(AsStringList(dict[order[0]]).value, userPasuk))] + rest
      else rest
  }

  function Titles(sections: seq<PrayerSection>): (r: seq<string>)
    ensures |r| == |sections|
    ensures forall k :: 0 <= k < |r| ==> r[k] == sections[k].title
  {
    seq(|sections|, k requires 0 <= k < |sections| => sections[k].title)
  }

  /** The sections follow `order`, skipping exactly the names that are missing from the prayer or
      are not lists of strings. */
  lemma {:induction false} OrderedSectionsTitles(dict: map<string, Json>, order: seq<string>, userPasuk: string)
    ensures Titles(OrderedSections(dict, order, userPasuk)) == Filter(order, IsSectionIn(dict))
    decreases |order|
  {
    if order != [] {
      OrderedSectionsTitles(dict, order[1..], userPasuk);
      var r := OrderedSections(dict, order, userPasuk);
      var rest := OrderedSections(dict, order[1..], userPasuk);
      if r != [] {
        TitlesCons(r);
      }
    }
  }

  lemma TitlesCons(r: seq<PrayerSection>)
    requires r != []
    ensures Titles(r) == [r[0].title] + Titles(r[1..])
  {
  }

  /** The prayer of one top-level entry: none unless it is a dictionary with an "order" string list. */
  function PrayerOf(title: string, content: Json, userPasuk: string): (r: Option<Prayer>)
    ensures r.Some? <==> content.JObject? && "order" in content.fields && AsStringList(content.fields["order"]).Some?
    ensures r.Some? ==> r.value.title == title
  {
    match AsObject(content)
    case None => None
    case Some(dict) =>
      if "order" in dict then
        match AsStringList(dict["order"])
        case None => None
        case Some(order) => Some(Prayer(title, OrderedSections(dict, order, userPasuk)))
      else None
  }

  /** What `transformText` promises: one prayer per usable entry, titled by its key, each key once. */
  ghost predicate TransformedFrom(prayers: seq<Prayer>, rawText: map<string, Json>, userPasuk: string) {
    && |prayers| <= |rawText|
    && (forall k :: 0 <= k < |prayers| ==>
          prayers[k].title in rawText && PrayerOf(prayers[k].title, rawText[prayers[k].title], userPasuk) == Some(prayers[k]))
    && (forall key :: key in rawText && PrayerOf(key, rawText[key], userPasuk).Some? ==>
          PrayerOf(key, rawText[key], userPasuk).value in prayers)
    && (forall i, j :: 0 <= i < j < |prayers| ==> prayers[i].title != prayers[j].title)
  }

  /** The invariant of the loop in `transformText`: one prayer per usable entry already visited. */
  ghost predicate TransformProgress(prayers: seq<Prayer>, remaining: set<string>, rawText: map<string, Json>, userPasuk: string) {
    && remaining <= rawText.Keys
    && |prayers| + |remaining| <= |rawText|
    && (forall k :: 0 <= k < |prayers| ==>
          prayers[k].title in rawText - remaining &&
          PrayerOf(prayers[k].title, rawText[prayers[k].title], userPasuk) == Some(prayers[k]))
    && (forall key :: key in rawText && key !in remaining && PrayerOf(key, rawText[key], userPasuk).Some? ==>
          PrayerOf(key, rawText[key], userPasuk).value in prayers)
    && (forall i, j :: 0 <= i < j < |prayers| ==> prayers[i].title != prayers[j].title)
  }

  /** Visiting one more entry keeps the invariant: its prayer is appended exactly when it has one. */
  lemma TransformStep(prayers: seq<Prayer>, remaining: set<string>, key: string, rawText: map<string, Json>, userPasuk: string)
    requires TransformProgress(prayers, remaining, rawText, userPasuk) && key in remaining
    ensures var entry := PrayerOf(key, rawText[key], userPasuk);
            TransformProgress(if entry.Some? then prayers + [entry.value] else prayers, remaining - {key}, rawText, userPasuk)
  {
    assert |remaining - {key}| == |remaining| - 1;
    var entry := PrayerOf(key, rawText[key], userPasuk);
    if entry.Some? {
      TransformStepAppend(prayers, remaining, key, entry.value, rawText, userPasuk);
    }
  }

  lemma TransformStepAppend(prayers: seq<Prayer>, remaining: set<string>, key: string, p: Prayer,
                            rawText: map<string, Json>, userPasuk: string)
    requires TransformProgress(prayers, remaining, rawText, userPasuk) && key in remaining
    requires |remaining - {key}| == |remaining| - 1
    requires PrayerOf(key, rawText[key], userPasuk) == Some(p)
    ensures TransformProgress(prayers + [p], remaining - {key}, rawText, userPasuk)
  {
    var rest := remaining - {key};
    var next := prayers + [p];
    assert next[|prayers|] == p;
    forall k | 0 <= k < |next|
      ensures next[k].title in rawText - rest
      ensures PrayerOf(next[k].title, rawText[next[k].title], userPasuk) == Some(next[k])
    {
      if k < |prayers| { assert next[k] == prayers[k]; }
    }
    forall i, j | 0 <= i < j < |next| ensures next[i].title != next[j].title {
      assert next[i] == prayers[i] || i == |prayers|;
      if j < |prayers| { assert next[i] == prayers[i] && next[j] == prayers[j]; }
      else { assert next[i] == prayers[i] && prayers[i].title in rawText - remaining; }
    }
  }

  /** `transformText`: the loop over the dictionary's entries, in the dictionary's (unspecified) order. */
  method TransformText(rawText: map<string, Json>, userPasuk: string) returns (prayers: seq<Prayer>)
    ensures TransformedFrom(prayers, rawText, userPasuk)
  {
    prayers := [];
    var remaining := rawText.Keys;
    while remaining != {}
      invariant TransformProgress(prayers, remaining, rawText, userPasuk)
      decreases |remaining|
    {
      var prayerTitle :| prayerTitle in remaining;
      TransformStep(prayers, remaining, prayerTitle, rawText, userPasuk);
      remaining := remaining - {prayerTitle};
      var entry := PrayerOf(prayerTitle, rawText[prayerTitle], userPasuk);
      if entry.Some? {
        prayers := prayers + [entry.value];
      }
    }
  }

  /** The file read: "Smart-" before the version's file name when the smart siddur is on. */
  function FullFileName(fileName: string, smart: bool): (r: string)
    ensures smart ==> |r| == |fileName| + 6 && r[..6] == "Smart-" && r[6..] == fileName
    ensures !smart ==> r == fileName
  {
    if smart then "Smart-" + fileName else fileName
  }

  /** `loadPrayers`. The bundle maps file names to their decoded contents (`None` when the data is
      not JSON); a name not in the bundle is a missing file. Every failure yields no prayers. */
  method LoadPrayers(bundle: map<string, Option<Json>>, fileName: string, smart: bool, userPasuk: string)
    returns (prayers: seq<Prayer>)
    ensures var name := FullFileName(fileName, smart);
            if name in bundle && bundle[name].Some? && bundle[name].value.JObject?
               && "text" in bundle[name].value.fields && bundle[name].value.fields["text"].JObject?
            then TransformedFrom(prayers, bundle[name].value.fields["text"].fields, userPasuk)
            else prayers == []
  {
    var name := FullFileName(fileName, smart);
    if name !in bundle {
      return [];
    }
    match bundle[name] {
      case None =>
        prayers := [];
      case Some(json) =>
        var top := AsObject(json);
        if top.Some? && "text" in top.value && AsObject(top.value["text"]).Some? {
          prayers := TransformText(AsObject(top.value["text"]).value, userPasuk);
        } else {
          prayers := [];
        }
    }
  }
}
