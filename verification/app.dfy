/**
 * Session state of the dashboard (src/App.tsx): the component's state
 * fields and the handlers that replace them. Every handler is modelled as
 * one atomic step; the awaited geolocation and weather results are
 * parameters.
 */
module App {
  import opened Types
  import LocationService

  /** Most locations the dashboard shows (the primary one included). */
  const MaxLocations: nat := 3

  /** Id of the primary location on both initialisation paths. */
  const PrimaryId: string := "1"

  /** The location used when geolocation fails. */
  const DefaultLocation: Location :=
    Location(PrimaryId, "London", "United Kingdom", "GB", "Europe/London", 51.5074, -0.1278, None, true)

  /**
   * The theme chosen at start-up from the saved preference and the
   * system's dark-mode preference. `!savedTheme` also holds for a saved
   * empty string, which therefore follows the system like no value.
   */
  function InitialDark(saved: Option<string>, prefersDark: bool): (dark: bool)
    ensures saved == Some("dark") ==> dark
    ensures saved.Some? && saved.value != "dark" && saved.value != "" ==> !dark
    ensures saved == None || saved == Some("") ==> dark == prefersDark
  {
    saved == Some("dark") || ((saved == None || saved == Some("")) && prefersDark)
  }

  /** The value toggleTheme stores for a theme. */
  function ThemeValue(dark: bool): string
  {
    if dark then "dark" else "light"
  }

  /** Whatever toggleTheme stores is read back as the same theme on the next start. */
  lemma StoredThemeRestores(dark: bool, prefersDark: bool)
    ensures InitialDark(Some(ThemeValue(dark)), prefersDark) == dark
  {
  }

  /** The card carries the directory record's name, country, code and zone. */
  predicate SameNaming(loc: Location, data: LocationData)
  {
    loc.name == data.name && loc.country == data.country &&
    loc.countryCode == data.countryCode && loc.timezone == data.timezone
  }

  /** The location addLocation builds from a directory record. */
  function NewLocation(data: LocationData, id: string, weather: Option<WeatherData>): Location
  {
    Location(id, data.name, data.country, data.countryCode, data.timezone, data.lat, data.lon, weather, false)
  }

  /** The filter removeLocation applies: keep `loc.id !== id && loc.isPrimary`. */
  function RemoveFilter(locs: seq<Location>, id: string): (r: seq<Location>)
    ensures |r| <= |locs|
    ensures forall i | 0 <= i < |r| :: r[i].isPrimary && r[i].id != id
  {
    if locs == [] then []
    else (if locs[0].id != id && locs[0].isPrimary then [locs[0]] else []) + RemoveFilter(locs[1..], id)
  }

  /**
   * The filter keeps exactly the primary entries whose id differs from
   * `id`, in order: every non-primary entry goes, not only the target.
   * Membership stands for multiplicity because card ids are distinct;
   * the subsequence clause fixes the order and the copies.
   */
  lemma {:induction false} RemoveFilterKeeps(locs: seq<Location>, id: string)
    ensures IsSubsequence(RemoveFilter(locs, id), locs)
    ensures forall l :: l in RemoveFilter(locs, id) <==> l in locs && l.id != id && l.isPrimary
  {
    if locs != [] {
      RemoveFilterKeeps(locs[1..], id);
      var rest := RemoveFilter(locs[1..], id);
      assert locs == [locs[0]] + locs[1..];
      if locs[0].id != id && locs[0].isPrimary {
        assert RemoveFilter(locs, id)[1..] == rest;
      } else {
        assert RemoveFilter(locs, id) == rest;
        SubsequenceOfTail(rest, locs);
      }
    }
  }

  /**
   * Removing one secondary card from [primary, a, b] leaves only the
   * primary: the other secondary card is dropped as well.
   */
  lemma RemoveDropsOtherSecondaries(p: Location, a: Location, b: Location)
    requires p.isPrimary && !a.isPrimary && !b.isPrimary && p.id != a.id
    ensures RemoveFilter([p, a, b], a.id) == [p]
    ensures b !in RemoveFilter([p, a, b], a.id)
  {
    assert [p, a, b][1..] == [a, b];
    SecondariesAllDropped([a, b], a.id);
  }

  /** A list without primary entries is emptied by the filter. */
  lemma {:induction false} SecondariesAllDropped(locs: seq<Location>, id: string)
    requires forall i | 0 <= i < |locs| :: !locs[i].isPrimary
    ensures RemoveFilter(locs, id) == []
  {
    if locs != [] {
      SecondariesAllDropped(locs[1..], id);
    }
  }

  /** The outcome of the geolocation step of initializeUserLocation. */
  datatype GeoOutcome = Located(coords: Coordinates) | GeoFailed

  class Session {
    var locations: seq<Location>
    var loading: bool
    var isDarkMode: bool
    var showAddLocation: bool
    /** The user's reference instant, in minutes; None means "now". */
    var customTime: Option<int>
    var isConverterMode: bool
    /** The 'theme' entry of the preference store. */
    var savedTheme: Option<string>

    /** At most three cards, and only the first may be primary. */
    ghost predicate Valid()
      reads this
    {
      |locations| <= MaxLocations &&
      forall i | 0 < i < |locations| :: !locations[i].isPrimary
    }

    /** The state after initialisation: a primary card first. */
    ghost predicate Anchored()
      reads this
    {
      |locations| >= 1 && locations[0].isPrimary
    }

    /** The component's initial state, before the effects run. */
    constructor (savedTheme: Option<string>)
      ensures Valid()
      ensures locations == [] && loading && !isDarkMode && !showAddLocation
      ensures customTime == None && !isConverterMode && this.savedTheme == savedTheme
    {
      locations := [];
      loading := true;
      isDarkMode := false;
      showAddLocation := false;
      customTime := None;
      isConverterMode := false;
      this.savedTheme := savedTheme;
    }

    /** The theme effect: reads the saved value and the system preference. */
    method InitTheme(prefersDark: bool)
      modifies this`isDarkMode
      ensures isDarkMode == InitialDark(savedTheme, prefersDark)
    {
      isDarkMode := InitialDark(savedTheme, prefersDark);
    }

    /**
     * initializeUserLocation: on success the nearest directory entry named
     * at the device's own coordinates, on failure London; weather is the
     * awaited result of the weather service (which never rejects).
     */
    method InitializeUserLocation(geo: GeoOutcome, weather: Option<WeatherData>)
      modifies this`locations, this`loading
      ensures Valid() && Anchored() && |locations| == 1
      ensures locations[0].id == PrimaryId && !loading
      ensures geo.GeoFailed? ==> locations == [DefaultLocation.(weather := weather)]
      ensures geo.Located? ==>
        locations[0].lat == geo.coords.latitude && locations[0].lon == geo.coords.longitude &&
        locations[0].weather == weather &&
        exists k: nat :: LocationService.IsClosest(LocationService.MockLocations, k, geo.coords.latitude, geo.coords.longitude) &&
          SameNaming(locations[0], LocationService.MockLocations[k])
    {
      loading := true;
      match geo {
        case Located(coords) =>
          var data := LocationService.GetLocationFromCoords(coords.latitude, coords.longitude);
          var primary := Location(PrimaryId, data.name, data.country, data.countryCode, data.timezone,
                                  coords.latitude, coords.longitude, weather, true);
          locations := [primary];
        case GeoFailed =>
          locations := [DefaultLocation];
          locations := [DefaultLocation.(weather := weather)];
      }
      loading := false;
    }

    /**
     * addLocation: ignored at three cards; otherwise appends a secondary
     * card with a fresh id and closes the add form.
     */
    method AddLocation(data: LocationData, freshId: string, weather: Option<WeatherData>)
      requires Valid()
      modifies this`locations, this`showAddLocation
      ensures Valid()
      ensures old(|locations|) >= MaxLocations ==>
        locations == old(locations) && showAddLocation == old(showAddLocation)
      ensures old(|locations|) < MaxLocations ==>
        locations == old(locations) + [NewLocation(data, freshId, weather)] && !showAddLocation
      ensures old(Anchored()) ==> Anchored()
    {
      if |locations| >= MaxLocations {
        return;
      }
      locations := locations + [NewLocation(data, freshId, weather)];
      showAddLocation := false;
    }

    /** removeLocation: replaces the list by the filter as the source writes it. */
    method RemoveLocation(id: string)
      requires Valid()
      modifies this`locations
      ensures Valid()
      ensures locations == RemoveFilter(old(locations), id)
      ensures |locations| <= 1
      ensures old(Anchored()) && old(locations[0].id) != id ==> locations == [old(locations[0])]
    {
      if locations != [] {
        assert locations == [locations[0]] + locations[1..];
        SecondariesAllDropped(locations[1..], id);
      }
      locations := RemoveFilter(locations, id);
    }

    /** The "Add Location" button: opens the search box. */
    method OpenAddForm()
      modifies this`showAddLocation
      ensures showAddLocation
    {
      showAddLocation := true;
    }

    /** The search box's cancel callback: closes it without adding anything. */
    method CancelAddForm()
      modifies this`showAddLocation
      ensures !showAddLocation
    {
      showAddLocation := false;
    }

    /** toggleTheme: flips the theme and saves it. */
    method ToggleTheme()
      modifies this`isDarkMode, this`savedTheme
      ensures isDarkMode == !old(isDarkMode)
      ensures savedTheme == Some(ThemeValue(isDarkMode))
    {
      var newIsDark := !isDarkMode;
      isDarkMode := newIsDark;
      savedTheme := Some(ThemeValue(newIsDark));
    }

    /** The "Time Converter" button. */
    method OpenConverter()
      modifies this`isConverterMode
      ensures isConverterMode
    {
      isConverterMode := true;
    }

    /** The converter's onTimeChange callback. */
    method SetCustomTime(t: int)
      modifies this`customTime
      ensures customTime == Some(t)
    {
      customTime := Some(t);
    }

    /** resetToCurrentTime: back to "now" and out of converter mode. */
    method ResetToCurrentTime()
      modifies this`customTime, this`isConverterMode
      ensures customTime == None && !isConverterMode
    {
      customTime := None;
      isConverterMode := false;
    }
  }
}
