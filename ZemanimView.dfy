/** The zmanim screen's list logic: deleting and adding saved locations, the "Local" card made from
    the current position, and the preview of the next three upcoming times on a collapsed card. */
module ZemanimView {
  import opened Wrappers
  import opened Seqs
  import opened HebrewTime
  import LM = LocationManager

  /** The saved item with a given id. */
  function HasItemId(id: nat): LM.LocationItem -> bool {
    (item: LM.LocationItem) => item.id == id
  }

  /** The list without the element at `i`. */
  function RemoveAt<T>(s: seq<T>, i: nat): (r: seq<T>)
    requires i < |s|
    ensures |r| == |s| - 1
    ensures forall k :: 0 <= k < i ==> r[k] == s[k]
    ensures forall k :: i <= k < |r| ==> r[k] == s[k + 1]
    ensures multiset(r) + multiset{s[i]} == multiset(s)
  {
    assert s == s[..i] + [s[i]] + s[i + 1..];
    s[..i] + s[i + 1..]
  }

  /** `deleteLocation(_:)`: removes the first saved item with the same id and saves the list; an
      item that is not in the list changes nothing and saves nothing. */
  method DeleteLocation(manager: LM.LocationManager, item: LM.LocationItem, writeSucceeds: bool)
    modifies manager, manager.documents
    ensures match FirstIndexWhere(old(manager.savedLocations), HasItemId(item.id))
      case None =>
        manager.savedLocations == old(manager.savedLocations) && manager.documents.files == old(manager.documents.files)
      case Some(i) =>
        && manager.savedLocations == RemoveAt(old(manager.savedLocations), i)
        && manager.documents.files == LM.AfterSave(old(manager.documents.files), manager.savedLocations, writeSucceeds)
    ensures manager.currentLocation == old(manager.currentLocation)
  {
    var index := FirstIndexWhere(manager.savedLocations, HasItemId(item.id));
    if index.Some? {
      manager.savedLocations := RemoveAt(manager.savedLocations, index.value);
      manager.SaveLocations(writeSucceeds);
    }
  }

  /** When ids are unique, deleting an item leaves no item with its id and keeps all the others. */
  lemma DeleteRemovesId(s: seq<LM.LocationItem>, id: nat)
    requires forall i, j :: 0 <= i < j < |s| ==> s[i].id != s[j].id
    requires FirstIndexWhere(s, HasItemId(id)).Some?
    ensures var r := RemoveAt(s, FirstIndexWhere(s, HasItemId(id)).value);
      && |r| == |s| - 1
      && (forall k :: 0 <= k < |r| ==> r[k].id != id)
      && (forall x :: x in s && x.id != id ==> x in r)
  {
    var i := FirstIndexWhere(s, HasItemId(id)).value;
    var r := RemoveAt(s, i);
    assert s[i].id == id by { assert HasItemId(id)(s[i]); }
    forall k | 0 <= k < |r| ensures r[k].id != id {
      if k >= i {
        assert r[k] == s[k + 1];
      }
    }
    forall x | x in s && x.id != id ensures x in r {
      assert x in multiset(s);
      assert x != s[i];
      assert x in multiset(r);
    }
  }

  /** The add button of the add-location sheet: with a search result chosen, a new item with its
      title, the picked symbol and the geocoded coordinate is appended and the list saved; without
      one nothing happens. */
  method AddLocation(manager: LM.LocationManager, selectedTitle: Option<string>, symbol: string,
                     coordinate: LM.Coordinate, newId: nat, writeSucceeds: bool)
    modifies manager, manager.documents
    ensures selectedTitle.None? ==>
      manager.savedLocations == old(manager.savedLocations) && manager.documents.files == old(manager.documents.files)
    ensures selectedTitle.Some? ==>
      && manager.savedLocations == old(manager.savedLocations) +
           [LM.LocationItem(newId, selectedTitle.value, symbol, coordinate.latitude, coordinate.longitude)]
      && manager.documents.files == LM.AfterSave(old(manager.documents.files), manager.savedLocations, writeSucceeds)
    ensures manager.currentLocation == old(manager.currentLocation)
  {
    if selectedTitle.Some? {
      var newLocation := LM.LocationItem(newId, selectedTitle.value, symbol, coordinate.latitude, coordinate.longitude);
      manager.savedLocations := manager.savedLocations + [newLocation];
      manager.SaveLocations(writeSucceeds);
    }
  }

  /** The symbols the add-location sheet offers, and its default. */
  const Symbols: seq<string> := ["location.fill", "star.fill", "mappin.and.ellipse", "house.fill"]
  const DefaultSymbol: string := "location.fill"

  /** `onAppear`'s card for the current position: a "Local" item there when the position is known,
      otherwise whatever card there was. */
  function LocalCard(current: Option<LM.Coordinate>, id: nat, previous: Option<LM.LocationItem>): (r: Option<LM.LocationItem>)
    ensures current.Some? ==> r == Some(LM.LocalItem(id, current.value))
    ensures current.None? ==> r == previous
  {
    match current
    case Some(at) => Some(LM.LocalItem(id, at))
    case None => previous
  }

  /** The "Local" card agrees with the item the location manager falls back to. */
  lemma LocalCardMatchesFallback(at: LM.Coordinate, id: nat, previous: Option<LM.LocationItem>)
    ensures LocalCard(Some(at), id, previous) == Some(LM.LoadedLocations(None, None, Some(at), id)[0])
  {
  }

  /** An event strictly after `now`. */
  function IsAfter(now: int): ZmanEvent -> bool {
    (e: ZmanEvent) => e.date > now
  }

  /** `eventTimes.filter { $0.date > currentTime }.prefix(3)`. */
  function UpcomingEvents(events: seq<ZmanEvent>, now: int): (r: seq<ZmanEvent>)
    ensures |r| <= 3 && |r| <= |Filter(events, IsAfter(now))|
    ensures forall k :: 0 <= k < |r| ==> r[k].date > now && r[k] in events
    ensures forall k :: 0 <= k < |r| ==> r[k] == Filter(events, IsAfter(now))[k]
    ensures |r| == if |Filter(events, IsAfter(now))| < 3 then |Filter(events, IsAfter(now))| else 3
  {
    var upcoming := Filter(events, IsAfter(now));
    var r := Prefix(upcoming, 3);
    assert forall k :: 0 <= k < |r| ==> IsAfter(now)(r[k]);
    r
  }

  /** No upcoming events exactly when no event is after `now`. */
  lemma UpcomingEmpty(events: seq<ZmanEvent>, now: int)
    ensures UpcomingEvents(events, now) == [] <==> forall k :: 0 <= k < |events| ==> events[k].date <= now
  {
    if UpcomingEvents(events, now) == [] {
      assert Filter(events, IsAfter(now)) == [];
      forall k | 0 <= k < |events| ensures events[k].date <= now {
        assert !IsAfter(now)(events[k]);
      }
    } else {
      var e := UpcomingEvents(events, now)[0];
      var k :| 0 <= k < |events| && events[k] == e;
    }
  }

  /** What a collapsed card shows under its title. */
  datatype CardPreview = LoadingEvents | NoUpcomingEvents | Upcoming(events: seq<ZmanEvent>)

  function Preview(eventTimes: seq<ZmanEvent>, now: int): (p: CardPreview)
    ensures eventTimes == [] <==> p.LoadingEvents?
    ensures p.NoUpcomingEvents? <==> eventTimes != [] && UpcomingEvents(eventTimes, now) == []
    ensures p.Upcoming? ==> p.events == UpcomingEvents(eventTimes, now) && 1 <= |p.events| <= 3
  {
    if eventTimes == [] then LoadingEvents
    else
      var upcoming := UpcomingEvents(eventTimes, now);
      if upcoming == [] then NoUpcomingEvents else Upcoming(upcoming)
  }
}
