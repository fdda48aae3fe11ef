/**
 * The campus map page: a fixed table of restroom locations, a marker per
 * location once the map script has loaded, and a details panel for the
 * location whose marker was clicked last.
 *
 * The mapping library is reduced to what the page sees of it: a "loaded"
 * callback, marker clicks and clicks on the map itself. Coordinates are
 * kept as data and never computed with.
 */
module RestroomMap {
  import opened Wrappers

  /** A point in millionths of a degree; every coordinate of the table has at
      most six decimals, so this is exact. */
  datatype Position = Position(latMicro: int, lngMicro: int)

  datatype Location = Location(id: int, name: string, position: Position)

  /** `restroomLocations`. */
  const RestroomLocations: seq<Location> :=
    [
      Location(1, "Wren Building", Position(37270805, -76708948)),
      Location(2, "Swem Library", Position(37269609, -76716252)),
      Location(3, "Zable Stadium (West Stadium)", Position(37272906, -76714939)),
      Location(4, "Miller - School of Business", Position(37266200, -76718100)),
      Location(5, "School of Law", Position(37265300, -76705000)),
      Location(6, "School of Education", Position(37278000, -76723600)),
      Location(7, "Ewell Hall", Position(37270300, -76710000)),
      Location(8, "Tucker Hall", Position(37271400, -76710000)),
      Location(9, "Integrated Science Center (ISC)", Position(37269348, -76714490)),
      Location(10, "Small Hall", Position(37268835, -76717067)),
      Location(11, "Boswell Hall", Position(37267327, -76716717)),
      Location(12, "Chancellors Hall", Position(37271432, -76710787)),
      Location(13, "Blow Hall", Position(37272056, -76711287)),
      Location(14, "Undergraduate Admission", Position(37269545, -76709114)),
      Location(15, "Reves Center", Position(37271900, -76708800)),
      Location(16, "Sadler Center", Position(37271620, -76714146)),
      Location(17, "Rec Center", Position(37274314, -76720905)),
      Location(18, "Daily Grind", Position(37271114, -76714126))
    ]

  /** What a `<Marker>` receives: its React key, its position, and the
      location its click handler passes to `handleMarkerClick`. */
  datatype Marker = Marker(key: int, position: Position, target: Location)

  /** The details block: the location's name and the fixed note under it. */
  datatype Details = Details(heading: string, note: string)

  const AvailableNote := "Accessible restroom available"

  function MarkerFor(location: Location): Marker
  {
    Marker(location.id, location.position, location)
  }

  /** `locations.map(location => <Marker .../>)`. */
  function MarkerList(locations: seq<Location>): (ms: seq<Marker>)
    ensures |ms| == |locations|
    ensures forall i :: 0 <= i < |ms| ==>
      ms[i].key == locations[i].id && ms[i].position == locations[i].position && ms[i].target == locations[i]
  {
    if locations == [] then [] else [MarkerFor(locations[0])] + MarkerList(locations[1..])
  }

  /** The markers inside the map: the table's, once loaded; none before. */
  function Markers(isMapLoaded: bool): (ms: seq<Marker>)
    ensures !isMapLoaded ==> ms == []
    ensures isMapLoaded ==> |ms| == |RestroomLocations|
  {
    if isMapLoaded then MarkerList(RestroomLocations) else []
  }

  /** `{selectedLocation && (...)}`: a selected location object is always truthy. */
  function DetailsPanel(selectedLocation: Option<Location>): (panel: Option<Details>)
    ensures panel != None <==> selectedLocation != None
    ensures panel != None ==> panel.value.heading == selectedLocation.value.name
  {
    match selectedLocation
    case None => None
    case Some(location) => Some(Details(location.name, AvailableNote))
  }

  datatype MapState = MapState(selectedLocation: Option<Location>, isMapLoaded: bool)

  /** `useState(null)` and `useState(false)`. */
  const InitialMapState := MapState(None, false)

  datatype MapEvent =
    | ScriptLoaded                  // `LoadScript`'s `onLoad`
    | MarkerClicked(location: Location)
    | MapClicked(at: Position)      // `handleMapClick` only logs

  /** The state after one event. */
  function Step(s: MapState, e: MapEvent): (r: MapState)
    ensures r.selectedLocation == if e.MarkerClicked? then Some(e.location) else s.selectedLocation
    ensures r.isMapLoaded <==> s.isMapLoaded || e == ScriptLoaded
  {
    match e
    case ScriptLoaded => s.(isMapLoaded := true)
    case MarkerClicked(location) => s.(selectedLocation := Some(location))
    case MapClicked(_) => s
  }

  /** The state after a sequence of events, the last one applied last. */
  function Run(s: MapState, events: seq<MapEvent>): MapState
  {
    if events == [] then s else Step(Run(s, events[..|events| - 1]), events[|events| - 1])
  }

  /** The location of the last marker click in a sequence of events, if any. */
  function LastMarkerClick(events: seq<MapEvent>): Option<Location>
  {
    if events == [] then None
    else match events[|events| - 1]
      case MarkerClicked(location) => Some(location)
      case _ => LastMarkerClick(events[..|events| - 1])
  }

  /** Eighteen locations, the i-th with id i + 1. */
  lemma TableShape()
    ensures |RestroomLocations| == 18
    ensures forall i :: 0 <= i < |RestroomLocations| ==> RestroomLocations[i].id == i + 1
  {
  }

  /** No two locations share an id. */
  lemma IdsUnique()
    ensures forall i, j :: 0 <= i < j < |RestroomLocations| ==> RestroomLocations[i].id != RestroomLocations[j].id
  {
    TableShape();
  }

  /** Markers built from a table whose i-th entry has id i + 1 are keyed
      1, 2, ... in order, so no two share a key. */
  lemma MarkerKeysInOrder(locations: seq<Location>)
    requires forall i :: 0 <= i < |locations| ==> locations[i].id == i + 1
    ensures var ms := MarkerList(locations);
      && (forall i :: 0 <= i < |ms| ==> ms[i].key == i + 1)
      && (forall i, j :: 0 <= i < j < |ms| ==> ms[i].key != ms[j].key)
  {
  }

  /* Once the script has loaded: one marker per location, in table order,
     keyed by the location's id and placed at its position. */

  lemma LoadedMarkerCount()
    ensures |Markers(true)| == |RestroomLocations| == 18
  {
    TableShape();
  }

  /** The markers are keyed 1 to 18 in order, so no two share a key. */
  lemma LoadedMarkerKeys(isMapLoaded: bool)
    ensures forall i :: 0 <= i < |Markers(isMapLoaded)| ==> Markers(isMapLoaded)[i].key == i + 1
    ensures forall i, j :: 0 <= i < j < |Markers(isMapLoaded)| ==>
      Markers(isMapLoaded)[i].key != Markers(isMapLoaded)[j].key
  {
    TableShape();
    MarkerKeysInOrder(RestroomLocations);
  }

  lemma LoadedMarkerTargets(isMapLoaded: bool)
    ensures forall i :: 0 <= i < |Markers(isMapLoaded)| ==>
      Markers(isMapLoaded)[i].target == RestroomLocations[i]
      && Markers(isMapLoaded)[i].position == RestroomLocations[i].position
  {
  }

  /** Clicking a marker selects its location whatever was selected before;
      clicking the map elsewhere changes nothing. */
  lemma ClickEffects(s: MapState, location: Location, at: Position)
    ensures Step(s, MarkerClicked(location)) == s.(selectedLocation := Some(location))
    ensures Step(s, MapClicked(at)) == s
  {
  }

  /** After any sequence of events the selection is the last clicked marker's
      location, or the earlier selection when no marker was clicked. */
  lemma {:induction false} LastClickWins(s: MapState, events: seq<MapEvent>)
    ensures Run(s, events).selectedLocation ==
      (if LastMarkerClick(events).Some? then LastMarkerClick(events) else s.selectedLocation)
  {
    if events != [] {
      LastClickWins(s, events[..|events| - 1]);
    }
  }

  /** The map counts as loaded exactly when it was, or the load callback has fired. */
  lemma {:induction false} LoadedIff(s: MapState, events: seq<MapEvent>)
    ensures Run(s, events).isMapLoaded <==> s.isMapLoaded || ScriptLoaded in events
  {
    if events != [] {
      var init := events[..|events| - 1];
      LoadedIff(s, init);
      assert events == init + [events[|events| - 1]];
    }
  }

  /** From the page's first render, no marker is shown until the load callback fires. */
  lemma NoMarkersBeforeLoad(events: seq<MapEvent>)
    requires ScriptLoaded !in events
    ensures !Run(InitialMapState, events).isMapLoaded
    ensures Markers(Run(InitialMapState, events).isMapLoaded) == []
  {
    LoadedIff(InitialMapState, events);
  }

  /** The panel is shown exactly when a location is selected, with that
      location's name. */
  lemma PanelShownIffSelected(selectedLocation: Option<Location>)
    ensures DetailsPanel(selectedLocation).Some? <==> selectedLocation.Some?
    ensures selectedLocation.Some? ==> DetailsPanel(selectedLocation).value.heading == selectedLocation.value.name
  {
  }

  /** Clicking the i-th marker shows the i-th location's name in the panel. */
  lemma ClickedMarkerShowsName(s: MapState, i: nat)
    requires i < 18
    ensures i < |Markers(true)|
    ensures DetailsPanel(Step(s, MarkerClicked(Markers(true)[i].target)).selectedLocation)
         == Some(Details(RestroomLocations[i].name, AvailableNote))
  {
    LoadedMarkerCount();
    LoadedMarkerTargets(true);
  }

  /** The map page component: its two state hooks and its event handlers. */
  class App {
    var selectedLocation: Option<Location>
    var isMapLoaded: bool

    function State(): MapState
      reads this
    {
      MapState(selectedLocation, isMapLoaded)
    }

    constructor ()
      ensures State() == InitialMapState
    {
      selectedLocation := None;
      isMapLoaded := false;
    }

    /** `onLoad={() => setIsMapLoaded(true)}`. */
    method OnLoad()
      modifies this`isMapLoaded
      ensures State() == Step(old(State()), ScriptLoaded)
    {
      isMapLoaded := true;
    }

    /** `handleMarkerClick(location)`. */
    method HandleMarkerClick(location: Location)
      modifies this`selectedLocation
      ensures State() == Step(old(State()), MarkerClicked(location))
    {
      selectedLocation := Some(location);
    }

    /** `handleMapClick`: it only writes to the console. */
    method HandleMapClick(at: Position)
      ensures State() == Step(old(State()), MapClicked(at))
    {
    }

    /** The markers this render puts inside the map. */
    function RenderedMarkers(): seq<Marker>
      reads this
    {
      Markers(isMapLoaded)
    }

    /** The details block this render shows, if any. */
    function RenderedDetails(): Option<Details>
      reads this
    {
      DetailsPanel(selectedLocation)
    }
  }

  /** Example session on a freshly mounted page: load, click one marker, then
      another, then the map; the panel shows the second marker's location. */
  method ClickTwoMarkers(first: nat, second: nat) returns (shown: Option<Details>)
    requires first < 18 && second < 18
    ensures shown == Some(Details(RestroomLocations[second].name, AvailableNote))
  {
    var app := new App();
    assert app.RenderedMarkers() == [];
    app.OnLoad();
    LoadedMarkerCount();
    var ms := app.RenderedMarkers();
    app.HandleMarkerClick(ms[first].target);
    app.HandleMarkerClick(ms[second].target);
    app.HandleMapClick(Position(0, 0));
    shown := app.RenderedDetails();
  }
}
