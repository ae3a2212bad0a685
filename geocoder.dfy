/** The two-tier forward geocoder (geocode_address, geocode_address_fallback):
    a street-address lookup, then a city-level lookup. Each lookup's outcome is
    the geocoding service's reply to the query, given as a function. */
module Geocoder {
  import opened Records

  /** One feature of a reply; `coordinates` is the wire pair `[lon, lat]`.
      A missing geometry reads as an empty list. */
  datatype Feature = Feature(coordinates: seq<Coord>)

  /** The outcome of one lookup: an exception while sending or parsing, or a
      reply with its status and `features` (absent reads as empty). */
  datatype GeoResponse = Raised | Replied(status: int, features: seq<Feature>)

  /** The query parameters of one lookup. */
  datatype GeoQuery =
    | AddressQuery(addressLine1: string, place: string, region: string, country: string,
                   accessToken: Option<string>, limit: int, postcode: Option<string>)
    | PlaceQuery(q: string, accessToken: Option<string>, limit: int, types: string, country: string)

  /** A coordinate in domain order. */
  datatype LatLon = LatLon(lat: Coord, lon: Coord)

  /** What a geocoding call yields, together with the lookups it made, in order. */
  datatype Geocoded = Geocoded(coords: Option<LatLon>, lookups: seq<GeoQuery>)

  /** The coordinate a lookup yields: the first feature's pair, swapped from
      `[lon, lat]` to `(lat, lon)`. A pair that is not exactly two values
      fails to unpack, and that exception is caught like any other. */
  function FirstFeatureLatLon(response: GeoResponse): (r: Option<LatLon>)
    ensures r.Some? <==>
      && response.Replied? && response.status == 200 && |response.features| > 0
      && |response.features[0].coordinates| == 2
    ensures r.Some? ==>
      && r.value.lat == response.features[0].coordinates[1]
      && r.value.lon == response.features[0].coordinates[0]
  {
    match response
    case Raised => None
    case Replied(status, features) =>
      if status == 200 && |features| > 0 && |features[0].coordinates| == 2 then
        var wire := features[0].coordinates;
        var lon, lat := wire[0], wire[1];
        Some(LatLon(lat, lon))
      else
        None
  }

  /** The street-level query; the postcode is sent only for a truthy zip. */
  function AddressQueryFor(address: string, city: string, state: string, zip: Option<string>,
                           token: Option<string>): (q: GeoQuery)
    ensures q.AddressQuery? && q.addressLine1 == address && q.place == city && q.region == state
    ensures q.country == "US" && q.limit == 1 && q.accessToken == token
    ensures q.postcode.Some? <==> TruthyText(zip)
    ensures q.postcode.Some? ==> q.postcode == zip
  {
    AddressQuery(address, city, state, "US", token, 1,
                 if TruthyText(zip) then zip else None)
  }

  /** The city-level query `"{city}, {state}, USA"`, restricted to places. */
  function PlaceQueryFor(city: string, state: string, token: Option<string>): (query: GeoQuery)
    ensures query.PlaceQuery? && query.q == city + ", " + state + ", USA"
    ensures query.accessToken == token && query.limit == 1
    ensures query.types == "place" && query.country == "US"
  {
    PlaceQuery(city + ", " + state + ", USA", token, 1, "place", "US")
  }

  /** The city-level lookup. It never fails: every unusable reply gives no coordinate. */
  function GeocodeFallback(city: string, state: string, token: Option<string>,
                           geo: GeoQuery -> GeoResponse): (r: Geocoded)
    ensures r.lookups == [PlaceQueryFor(city, state, token)]
    ensures r.coords == FirstFeatureLatLon(geo(r.lookups[0]))
    ensures r.coords.Some? <==>
      var reply := geo(r.lookups[0]);
      reply.Replied? && reply.status == 200 && |reply.features| > 0
      && |reply.features[0].coordinates| == 2
  {
    var query := PlaceQueryFor(city, state, token);
    Geocoded(FirstFeatureLatLon(geo(query)), [query])
  }

  /** The two-tier geocoder: nothing without a city and a state; otherwise the
      street lookup when there is an address, and the city lookup when there is
      none or the street lookup gives no coordinate. */
  function GeocodeAddress(address: Option<string>, city: Option<string>, state: Option<string>,
                          zip: Option<string>, token: Option<string>,
                          geo: GeoQuery -> GeoResponse): (r: Geocoded)
    ensures !TruthyText(city) || !TruthyText(state) ==> r.coords == None && r.lookups == []
    ensures TruthyText(city) && TruthyText(state) ==> 1 <= |r.lookups| <= 2
    // the street lookup comes first, and only when there is an address
    ensures TruthyText(city) && TruthyText(state) ==>
      (r.lookups[0].AddressQuery? <==> TruthyText(address))
    ensures TruthyText(city) && TruthyText(state) && TruthyText(address) ==>
      r.lookups[0] == AddressQueryFor(address.value, city.value, state.value, zip, token)
    // a usable street reply is the answer, and no city lookup follows
    ensures TruthyText(city) && TruthyText(state) && TruthyText(address)
            && FirstFeatureLatLon(geo(r.lookups[0])).Some? ==>
      r.coords == FirstFeatureLatLon(geo(r.lookups[0])) && |r.lookups| == 1
    // no address: the city lookup is the only one
    ensures TruthyText(city) && TruthyText(state) && !TruthyText(address) ==>
      r.lookups == [PlaceQueryFor(city.value, state.value, token)]
    // an unusable street reply: exactly the street lookup, then the city lookup
    ensures TruthyText(city) && TruthyText(state) && TruthyText(address)
            && FirstFeatureLatLon(geo(r.lookups[0])).None? ==>
      r.lookups == [AddressQueryFor(address.value, city.value, state.value, zip, token),
                    PlaceQueryFor(city.value, state.value, token)]
    // no address, or an unusable street reply (non-200, no features, exception):
    // the city lookup is made last and decides
    ensures TruthyText(city) && TruthyText(state)
            && (!TruthyText(address) || FirstFeatureLatLon(geo(r.lookups[0])).None?) ==>
      && r.lookups[|r.lookups| - 1] == PlaceQueryFor(city.value, state.value, token)
      && r.coords == FirstFeatureLatLon(geo(PlaceQueryFor(city.value, state.value, token)))
    // every coordinate returned is the swapped first feature of some reply
    ensures r.coords.Some? ==>
      exists k :: 0 <= k < |r.lookups| && FirstFeatureLatLon(geo(r.lookups[k])) == r.coords
  {
    if !TruthyText(city) || !TruthyText(state) then
      Geocoded(None, [])
    else
      var first := if TruthyText(address) then
        var query := AddressQueryFor(address.value, city.value, state.value, zip, token);
        Geocoded(FirstFeatureLatLon(geo(query)), [query])
      else
        Geocoded(None, []);
      if first.coords.Some? then
        first
      else
        var fallback := GeocodeFallback(city.value, state.value, token, geo);
        Geocoded(fallback.coords, first.lookups + fallback.lookups)
  }
}
