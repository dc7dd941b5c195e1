/** The location manager: the saved-locations list with its three-stage load fallback and its
    save, the last reported position, and the authorization request. */
module LocationManager {
  import opened Wrappers

  /** A coordinate, in degrees (doubles modelled as reals). */
  datatype Coordinate = Coordinate(latitude: real, longitude: real)

  /** A saved location; `id` stands for the item's UUID. */
  datatype LocationItem = LocationItem(id: nat, name: string, symbol: string, latitude: real, longitude: real)

  /** What a file holds: a list of locations that decodes, or data that does not. */
  datatype FileContent = Decodable(items: seq<LocationItem>) | Undecodable

  datatype AuthorizationStatus = NotDetermined | Restricted | Denied | AuthorizedAlways | AuthorizedWhenInUse

  const LocationsFile: string := "locations.json"

  /** The item made from the current position when neither list loads. */
  function LocalItem(id: nat, at: Coordinate): (item: LocationItem)
    ensures item.name == "Local" && item.symbol == "location.fill"
    ensures item.latitude == at.latitude && item.longitude == at.longitude
  {
    LocationItem(id, "Local", "location.fill", at.latitude, at.longitude)
  }

  /** The list `loadLocations` settles on: the documents file when it decodes, else the bundled
      file when it decodes, else one "Local" item at the current position, else nothing. */
  function LoadedLocations(document: Option<FileContent>, bundled: Option<FileContent>,
                           current: Option<Coordinate>, localId: nat): (r: seq<LocationItem>)
    ensures document.Some? && document.value.Decodable? ==> r == document.value.items
    ensures !(document.Some? && document.value.Decodable?) && bundled.Some? && bundled.value.Decodable? ==>
              r == bundled.value.items
    ensures !(document.Some? && document.value.Decodable?) && !(bundled.Some? && bundled.value.Decodable?) ==>
              (current.Some? ==> r == [LocalItem(localId, current.value)]) && (current.None? ==> r == [])
  {
    if document.Some? && document.value.Decodable? then document.value.items
    else if bundled.Some? && bundled.value.Decodable? then bundled.value.items
    else if current.Some? then [LocalItem(localId, current.value)]
    else []
  }

  /** Once a list is saved to the documents directory, it is what loads, whatever the bundle holds. */
  lemma SavedListWins(items: seq<LocationItem>, bundled: Option<FileContent>, current: Option<Coordinate>, localId: nat)
    ensures LoadedLocations(Some(Decodable(items)), bundled, current, localId) == items
  {
  }

  /** The documents directory after `saveLocations`: the list written to the locations file, or
      nothing changed when encoding or writing fails. */
  function AfterSave(files: map<string, FileContent>, items: seq<LocationItem>, writeSucceeds: bool): (r: map<string, FileContent>)
    ensures writeSucceeds ==> LocationsFile in r && r[LocationsFile] == Decodable(items)
    ensures writeSucceeds ==> forall name :: name != LocationsFile ==> (name in r <==> name in files)
    ensures writeSucceeds ==> forall name :: name != LocationsFile && name in files ==> r[name] == files[name]
    ensures !writeSucceeds ==> r == files
  {
    if writeSucceeds then files[LocationsFile := Decodable(items)] else files
  }

  /** The documents directory: file name to content. */
  class Documents {
    var files: map<string, FileContent>

    constructor(files: map<string, FileContent>)
      ensures this.files == files
    {
      this.files := files;
    }
  }

  class LocationManager {
    const documents: Documents
    /** The content of the bundled `locations.json`, if the app ships one. */
    const bundled: Option<FileContent>
    var currentLocation: Option<Coordinate>
    var savedLocations: seq<LocationItem>
    var authorizationStatus: AuthorizationStatus
    /** How many times authorization was asked for. */
    var authorizationRequests: nat
    var updatingLocation: bool
    /** Whether a `locationUpdated` callback is installed, and the coordinates it has received. */
    var hasCallback: bool
    var delivered: seq<Coordinate>

    /** `init`: no position yet, so the list is the documents file, the bundled file, or empty. */
    constructor(documents: Documents, bundled: Option<FileContent>, status: AuthorizationStatus, localId: nat)
      ensures this.documents == documents && this.bundled == bundled
      ensures currentLocation.None? && authorizationStatus == status && authorizationRequests == 0
      ensures !updatingLocation && !hasCallback && delivered == []
      ensures savedLocations == LoadedLocations(Document(documents.files), bundled, None, localId)
    {
      this.documents := documents;
      this.bundled := bundled;
      currentLocation := None;
      authorizationStatus := status;
      authorizationRequests := 0;
      updatingLocation := false;
      hasCallback := false;
      delivered := [];
      new;
      LoadLocations(localId);
    }

    /** `loadLocations`. */
    method LoadLocations(localId: nat)
      modifies this
      ensures savedLocations == LoadedLocations(Document(documents.files), bundled, currentLocation, localId)
      ensures currentLocation == old(currentLocation) && authorizationStatus == old(authorizationStatus)
      ensures authorizationRequests == old(authorizationRequests) && updatingLocation == old(updatingLocation)
      ensures hasCallback == old(hasCallback) && delivered == old(delivered)
    {
      var document := Document(documents.files);
      if document.Some? && document.value.Decodable? {
        savedLocations := document.value.items;
        return;
      }
      if bundled.Some? && bundled.value.Decodable? {
        savedLocations := bundled.value.items;
        return;
      }
      match currentLocation {
        case Some(location) =>
          savedLocations := [LocalItem(localId, location)];
        case None =>
          savedLocations := [];
      }
    }

    /** `saveLocations`: writes exactly the saved list; when encoding or writing fails, nothing is written. */
    method SaveLocations(writeSucceeds: bool)
      modifies documents
      ensures documents.files == AfterSave(old(documents.files), savedLocations, writeSucceeds)
    {
      if writeSucceeds {
        documents.files := documents.files[LocationsFile := Decodable(savedLocations)];
      }
    }

    /** Saving and then loading gives back the list that was saved. */
    method SaveThenLoad(localId: nat)
      modifies this, documents
      ensures savedLocations == old(savedLocations)
      ensures documents.files == old(documents.files)[LocationsFile := Decodable(old(savedLocations))]
    {
      SaveLocations(true);
      LoadLocations(localId);
      SavedListWins(old(savedLocations), bundled, currentLocation, localId);
    }

    /** `requestAuthorizationIfNeeded`: asks only while the status is not determined. */
    method RequestAuthorizationIfNeeded()
      modifies this
      ensures authorizationStatus.NotDetermined? ==> authorizationRequests == old(authorizationRequests) + 1
      ensures !authorizationStatus.NotDetermined? ==> authorizationRequests == old(authorizationRequests)
      ensures authorizationStatus == old(authorizationStatus) && currentLocation == old(currentLocation)
      ensures savedLocations == old(savedLocations) && updatingLocation == old(updatingLocation)
      ensures hasCallback == old(hasCallback) && delivered == old(delivered)
    {
      match authorizationStatus {
        case NotDetermined =>
          authorizationRequests := authorizationRequests + 1;
        case _ =>
      }
    }

    /** `requestLocation`: asks for authorization if needed and starts updating. */
    method RequestLocation()
      modifies this
      ensures updatingLocation
      ensures authorizationStatus.NotDetermined? ==> authorizationRequests == old(authorizationRequests) + 1
      ensures !authorizationStatus.NotDetermined? ==> authorizationRequests == old(authorizationRequests)
      ensures authorizationStatus == old(authorizationStatus) && currentLocation == old(currentLocation)
      ensures savedLocations == old(savedLocations) && hasCallback == old(hasCallback) && delivered == old(delivered)
    {
      RequestAuthorizationIfNeeded();
      updatingLocation := true;
    }

    /** `locationManager(_:didUpdateLocations:)`: an empty report changes nothing; otherwise the last
        coordinate becomes the current location, updating stops, and the callback, when installed,
        receives exactly that coordinate. */
    method DidUpdateLocations(locations: seq<Coordinate>)
      modifies this
      ensures locations == [] ==>
                currentLocation == old(currentLocation) && updatingLocation == old(updatingLocation) && delivered == old(delivered)
      ensures locations != [] ==> currentLocation == Some(locations[|locations| - 1]) && !updatingLocation
      ensures locations != [] && hasCallback ==> delivered == old(delivered) + [locations[|locations| - 1]]
      ensures locations != [] && !hasCallback ==> delivered == old(delivered)
      ensures savedLocations == old(savedLocations) && hasCallback == old(hasCallback)
      ensures authorizationStatus == old(authorizationStatus) && authorizationRequests == old(authorizationRequests)
    {
      if locations == [] {
        return;
      }
      var location := locations[|locations| - 1];
      currentLocation := Some(location);
      updatingLocation := false;
      if hasCallback {
        delivered := delivered + [currentLocation.value];
      }
    }
  }

  /** The documents file, if there is one. */
  function Document(files: map<string, FileContent>): (r: Option<FileContent>)
    ensures r.Some? <==> LocationsFile in files
    ensures r.Some? ==> r.value == files[LocationsFile]
  {
    if LocationsFile in files then Some(files[LocationsFile]) else None
  }
}
