/** The app's user preferences: each one is read from the defaults store when the settings
    object is built and written back under its own key whenever it is set. */
module AppSettings {
  import opened Wrappers
  import opened Seqs
  import opened SiddurSettings

  /** A value held by the defaults store. Doubles are modelled as reals. */
  datatype Stored = SDouble(d: real) | SString(s: string) | SBool(b: bool)

  /** The process-wide key-value defaults store. */
  class DefaultsStore {
    var values: map<string, Stored>

    constructor(values: map<string, Stored>)
      ensures this.values == values
    {
      this.values := values;
    }
  }

  /** `object(forKey:) as? Double ?? dflt`. */
  function ReadDouble(values: map<string, Stored>, key: string, dflt: real): (r: real)
    ensures key in values && values[key].SDouble? ==> r == values[key].d
    ensures !(key in values && values[key].SDouble?) ==> r == dflt
  {
    if key in values && values[key].SDouble? then values[key].d else dflt
  }

  /** `string(forKey:) ?? dflt`. */
  function ReadString(values: map<string, Stored>, key: string, dflt: string): (r: string)
    ensures key in values && values[key].SString? ==> r == values[key].s
    ensures !(key in values && values[key].SString?) ==> r == dflt
  {
    if key in values && values[key].SString? then values[key].s else dflt
  }

  /** `bool(forKey:)`: false when nothing is stored. */
  function ReadBool(values: map<string, Stored>, key: string): (r: bool)
    ensures r <==> key in values && values[key] == SBool(true)
  {
    key in values && values[key].SBool? && values[key].b
  }

  const TextSizeKey: string := "textSize"
  const UserPasukKey: string := "userPasuk"
  const FontNameKey: string := "selectedFontName"
  const AppearanceKey: string := "appearanceSettingKey"
  const LatitudeKey: string := "selectedLatitude"
  const LongitudeKey: string := "selectedLongitude"
  const LocationKey: string := "selectedLocation"
  const SmartSiddurKey: string := "smartSiddur"
  const PrayerVersionKey: string := "selectedPrayerVersionRawValue"

  const SettingsKeys: seq<string> := [TextSizeKey, UserPasukKey, FontNameKey, AppearanceKey, LatitudeKey,
                                      LongitudeKey, LocationKey, SmartSiddurKey, PrayerVersionKey]

  /** Every persisted setting has a key of its own, so writing one never overwrites another. */
  lemma SettingsKeysDistinct()
    ensures Distinct(SettingsKeys)
  {
  }

  /** Writing one key leaves what every other key reads unchanged. */
  lemma WriteKeepsOtherKeys(values: map<string, Stored>, key: string, v: Stored, other: string, dd: real, ds: string)
    requires key != other
    ensures ReadDouble(values[key := v], other, dd) == ReadDouble(values, other, dd)
    ensures ReadString(values[key := v], other, ds) == ReadString(values, other, ds)
    ensures ReadBool(values[key := v], other) == ReadBool(values, other)
  {
  }

  datatype ColorScheme = Dark | Light

  /** The published preferences of a settings object. */
  datatype Prefs = Prefs(
    currentDate: int, textSize: real, userPasuk: string, selectedFontName: string, language: string,
    appearanceSetting: string, selectedLatitude: real, selectedLongitude: real, selectedLocation: string,
    smartSiddur: bool, selectedPrayerVersionRawValue: string)

  class Settings {
    const defaults: DefaultsStore
    var currentDate: int
    var textSize: real
    var userPasuk: string
    var selectedFontName: string
    var language: string
    var appearanceSetting: string
    var selectedLatitude: real
    var selectedLongitude: real
    var selectedLocation: string
    var smartSiddur: bool
    var selectedPrayerVersionRawValue: string

    /** `init`: every stored value that has the expected type, otherwise the defaults (text size
        20, no verse, the system font, light appearance, latitude and longitude 0, no location name,
        smart siddur off, the Mizrah version); the language is the locale's code or "en". */
    constructor(defaults: DefaultsStore, now: int, languageCode: Option<string>)
      ensures this.defaults == defaults && currentDate == now
      ensures textSize == ReadDouble(defaults.values, TextSizeKey, 20.0)
      ensures userPasuk == ReadString(defaults.values, UserPasukKey, "")
      ensures selectedFontName == ReadString(defaults.values, FontNameKey, "System")
      ensures appearanceSetting == ReadString(defaults.values, AppearanceKey, "light")
      ensures selectedLatitude == ReadDouble(defaults.values, LatitudeKey, 0.0)
      ensures selectedLongitude == ReadDouble(defaults.values, LongitudeKey, 0.0)
      ensures selectedLocation == ReadString(defaults.values, LocationKey, "")
      ensures smartSiddur == ReadBool(defaults.values, SmartSiddurKey)
      ensures selectedPrayerVersionRawValue == ReadString(defaults.values, PrayerVersionKey, RawValue(Mizrah))
      ensures language == languageCode.GetOr("en")
    {
      this.defaults := defaults;
      currentDate := now;
      language := languageCode.GetOr("en");
      textSize := ReadDouble(defaults.values, TextSizeKey, 20.0);
      userPasuk := ReadString(defaults.values, UserPasukKey, "");
      selectedFontName := ReadString(defaults.values, FontNameKey, "System");
      appearanceSetting := ReadString(defaults.values, AppearanceKey, "light");
      selectedLatitude := ReadDouble(defaults.values, LatitudeKey, 0.0);
      selectedLongitude := ReadDouble(defaults.values, LongitudeKey, 0.0);
      selectedLocation := ReadString(defaults.values, LocationKey, "");
      smartSiddur := ReadBool(defaults.values, SmartSiddurKey);
      selectedPrayerVersionRawValue := ReadString(defaults.values, PrayerVersionKey, RawValue(Mizrah));
    }

    /** `colorSchemePreference`: dark for "dark", light for "light", the system's for anything else. */
    function ColorSchemePreference(): (r: Option<ColorScheme>)
      reads this
      ensures r == Some(Dark) <==> appearanceSetting == "dark"
      ensures r == Some(Light) <==> appearanceSetting == "light"
      ensures r.None? <==> appearanceSetting != "dark" && appearanceSetting != "light"
    {
      if appearanceSetting == "dark" then Some(Dark)
      else if appearanceSetting == "light" then Some(Light)
      else None
    }

    /** `selectedPrayerVersion`'s getter: the stored version, Mizrah when the raw value is unknown. */
    function SelectedPrayerVersion(): (v: PrayerVersion)
      reads this
      ensures FromRawValue(selectedPrayerVersionRawValue).Some? ==> RawValue(v) == selectedPrayerVersionRawValue
      ensures FromRawValue(selectedPrayerVersionRawValue).None? ==> v == Mizrah
    {
      FromRawValue(selectedPrayerVersionRawValue).GetOr(Mizrah)
    }

    /** The observable state, for stating what a setter leaves alone. */
    function Snapshot(): Prefs
      reads this
    {
      Prefs(currentDate, textSize, userPasuk, selectedFontName, language, appearanceSetting,
            selectedLatitude, selectedLongitude, selectedLocation, smartSiddur, selectedPrayerVersionRawValue)
    }

    /** Setting `textSize` writes it under its own key; the next settings object built reads it back. */
    method SetTextSize(v: real)
      modifies this, defaults
      ensures Snapshot() == old(Snapshot()).(textSize := v)
      ensures defaults.values == old(defaults.values)[TextSizeKey := SDouble(v)]
      ensures ReadDouble(defaults.values, TextSizeKey, 20.0) == v
    {
      textSize := v;
      defaults.values := defaults.values[TextSizeKey := SDouble(v)];
    }

    /** Setting `userPasuk` writes it under its own key; the next settings object built reads it back. */
    method SetUserPasuk(v: string)
      modifies this, defaults
      ensures Snapshot() == old(Snapshot()).(userPasuk := v)
      ensures defaults.values == old(defaults.values)[UserPasukKey := SString(v)]
      ensures ReadString(defaults.values, UserPasukKey, "") == v
    {
      userPasuk := v;
      defaults.values := defaults.values[UserPasukKey := SString(v)];
    }

    /** Setting `selectedFontName` writes it under its own key; the next settings object built reads it back. */
    method SetSelectedFontName(v: string)
      modifies this, defaults
      ensures Snapshot() == old(Snapshot()).(selectedFontName := v)
      ensures defaults.values == old(defaults.values)[FontNameKey := SString(v)]
      ensures ReadString(defaults.values, FontNameKey, "System") == v
    {
      selectedFontName := v;
      defaults.values := defaults.values[FontNameKey := SString(v)];
    }

    /** Setting `appearanceSetting` writes it under its own key; the next settings object built reads it back. */
    method SetAppearanceSetting(v: string)
      modifies this, defaults
      ensures Snapshot() == old(Snapshot()).(appearanceSetting := v)
      ensures defaults.values == old(defaults.values)[AppearanceKey := SString(v)]
      ensures ReadString(defaults.values, AppearanceKey, "light") == v
    {
      appearanceSetting := v;
      defaults.values := defaults.values[AppearanceKey := SString(v)];
    }

    /** Setting `selectedLatitude` writes it under its own key; the next settings object built reads it back. */
    method SetSelectedLatitude(v: real)
      modifies this, defaults
      ensures Snapshot() == old(Snapshot()).(selectedLatitude := v)
      ensures defaults.values == old(defaults.values)[LatitudeKey := SDouble(v)]
      ensures ReadDouble(defaults.values, LatitudeKey, 0.0) == v
    {
      selectedLatitude := v;
      defaults.values := defaults.values[LatitudeKey := SDouble(v)];
    }

    /** Setting `selectedLongitude` writes it under its own key; the next settings object built reads it back. */
    method SetSelectedLongitude(v: real)
      modifies this, defaults
      ensures Snapshot() == old(Snapshot()).(selectedLongitude := v)
      ensures defaults.values == old(defaults.values)[LongitudeKey := SDouble(v)]
      ensures ReadDouble(defaults.values, LongitudeKey, 0.0) == v
    {
      selectedLongitude := v;
      defaults.values := defaults.values[LongitudeKey := SDouble(v)];
    }

    /** Setting `selectedLocation` writes it under its own key; the next settings object built reads it back. */
    method SetSelectedLocation(v: string)
      modifies this, defaults
      ensures Snapshot() == old(Snapshot()).(selectedLocation := v)
      ensures defaults.values == old(defaults.values)[LocationKey := SString(v)]
      ensures ReadString(defaults.values, LocationKey, "") == v
    {
      selectedLocation := v;
      defaults.values := defaults.values[LocationKey := SString(v)];
    }

    /** Setting `smartSiddur` writes it under its own key; the next settings object built reads it back. */
    method SetSmartSiddur(v: bool)
      modifies this, defaults
      ensures Snapshot() == old(Snapshot()).(smartSiddur := v)
      ensures defaults.values == old(defaults.values)[SmartSiddurKey := SBool(v)]
      ensures ReadBool(defaults.values, SmartSiddurKey) == v
    {
      smartSiddur := v;
      defaults.values := defaults.values[SmartSiddurKey := SBool(v)];
    }

    /** Setting `selectedPrayerVersionRawValue` writes it under its own key; the next settings object built reads it back. */
    method SetSelectedPrayerVersionRawValue(v: string)
      modifies this, defaults
      ensures Snapshot() == old(Snapshot()).(selectedPrayerVersionRawValue := v)
      ensures defaults.values == old(defaults.values)[PrayerVersionKey := SString(v)]
      ensures ReadString(defaults.values, PrayerVersionKey, RawValue(Mizrah)) == v
    {
      selectedPrayerVersionRawValue := v;
      defaults.values := defaults.values[PrayerVersionKey := SString(v)];
    }

    /** `selectedPrayerVersion`'s setter: stores the raw value, so the getter returns what was set. */
    method SetSelectedPrayerVersion(v: PrayerVersion)
      modifies this, defaults
      ensures Snapshot() == old(Snapshot()).(selectedPrayerVersionRawValue := RawValue(v))
      ensures defaults.values == old(defaults.values)[PrayerVersionKey := SString(RawValue(v))]
      ensures SelectedPrayerVersion() == v
    {
      SetSelectedPrayerVersionRawValue(RawValue(v));
      RawValueRoundTrip(v, v);
    }
  }
}
