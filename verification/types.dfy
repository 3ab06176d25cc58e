/** The catalog entities of the application (a point of interest, its
    weekly hours and its ticket table). Coordinates, images, ratings,
    reviews and events are carried by the original records but play no
    part in the modelled logic, so they are omitted here. */
module Types {
  import opened Optional

  /** The short English weekday names `toLocaleString` produces. */
  datatype Weekday = Mon | Tue | Wed | Thu | Fri | Sat | Sun

  /** A weekly hours table: an optional entry for every day (`all`) and
      optional per-weekday entries, each text such as "9:00-17:00",
      "Closed" or "Varies". */
  datatype Hours = Hours(all: Option<string>, days: map<Weekday, string>)

  /** A ticket-table value: a JavaScript number (here an amount in whole
      cents) or a string shown as written. */
  datatype TicketValue = Num(cents: nat) | Text(text: string)

  /** A ticket table in property-enumeration order. */
  type TicketInfo = seq<(string, TicketValue)>

  /** A latitude/longitude pair in degrees. */
  datatype Coords = Coords(lat: real, lng: real)

  /** A map viewport (a Leaflet `LatLngBounds`). */
  datatype Bounds = Bounds(south: real, west: real, north: real, east: real)

  datatype Location = Location(
    id: nat,
    name: string,
    lat: real,
    lng: real,
    category: string,
    address: string,
    ageGroups: seq<string>,
    price: string,
    hours: Option<Hours>,
    ticketInfo: Option<TicketInfo>
  )

  /** `ticketInfo[key]`: the value stored under `key`, if any (the first
      one, should the table repeat a key). */
  function TicketField(info: TicketInfo, key: string): (r: Option<TicketValue>)
    ensures r.Some? <==> exists i :: 0 <= i < |info| && info[i].0 == key
    ensures r.Some? ==> exists i :: 0 <= i < |info| && info[i] == (key, r.value)
  {
    if |info| == 0 then None
    else if info[0].0 == key then Some(info[0].1)
    else
      var r := TicketField(info[1..], key);
      assert forall i :: 1 <= i < |info| ==> info[i] == info[1..][i - 1];
      r
  }

  /** JavaScript truthiness of a ticket value: 0 and "" are falsy. */
  predicate Truthy(v: Option<TicketValue>) {
    match v
    case None => false
    case Some(Num(c)) => c != 0
    case Some(Text(t)) => t != ""
  }

  /** The user's filter criteria. `driveTime` is "any" or a minute
      threshold as text; `bounds` is the current map viewport, if the map
      has reported one since the last criteria edit. */
  datatype FilterState = FilterState(
    search: string,
    categories: set<string>,
    ageGroups: set<string>,
    prices: set<string>,
    openNow: bool,
    driveTime: string,
    bounds: Option<Bounds>,
    userCoords: Option<Coords>
  )
}
