/** Award detail fetch and the mapping of one award detail to a flat project
    record (get_award_details, prepare_project_data). */
module Normalizer {
  import opened Records
  import opened Geocoder

  /** The reply to a detail request: its status and the parsed body, `None`
      when the body is falsy (`null` or `{}`). */
  datatype DetailResponse = DetailResponse(status: int, body: Option<AwardDetail>)

  const AwardsEndpoint: string := "https://api.usaspending.gov/api/v2/awards/"

  /** The detail URL of an award; an absent identifier is formatted as "None". */
  function DetailUrl(awardId: Option<string>): (url: string)
    ensures |url| == |AwardsEndpoint| + |awardId.GetOr("None")| + 1
    ensures AwardsEndpoint <= url && url[|url| - 1] == '/'
    ensures url[|AwardsEndpoint|..|url| - 1] == awardId.GetOr("None")
  {
    AwardsEndpoint + awardId.GetOr("None") + "/"
  }

  /** Two awards are fetched from the same URL exactly when their identifiers
      format alike, so a missing identifier fetches the award named "None". */
  lemma DetailUrlDecides(a: Option<string>, b: Option<string>)
    ensures DetailUrl(a) == DetailUrl(b) <==> a.GetOr("None") == b.GetOr("None")
    ensures DetailUrl(None) == DetailUrl(Some("None"))
  {
    if DetailUrl(a) == DetailUrl(b) {
      assert DetailUrl(a)[|AwardsEndpoint|..|DetailUrl(a)| - 1] == DetailUrl(b)[|AwardsEndpoint|..|DetailUrl(b)| - 1];
    }
  }

  /** The award's details when the reply is 200 with a non-empty body; nothing otherwise. */
  function GetAwardDetails(response: DetailResponse): (details: Option<AwardDetail>)
    ensures details.Some? <==> response.status == 200 && response.body.Some?
    ensures details.Some? ==> details == response.body
  {
    if response.status == 200 then response.body else None
  }

  const MaxTitleLength: nat := 255

  /** `(description or 'N/A')[:255]`. */
  function Title(description: Option<string>): (title: string)
    ensures |title| <= MaxTitleLength
    ensures TruthyText(description) ==>
      title <= description.value
      && |title| == if |description.value| < MaxTitleLength then |description.value| else MaxTitleLength
    ensures !TruthyText(description) ==> title == "N/A"
  {
    var source := if TruthyText(description) then description.value else "N/A";
    if |source| <= MaxTitleLength then source else source[..MaxTitleLength]
  }

  /** The geocoding trigger `address or city and state and zip_code`, where
      `and` binds tighter than `or`. */
  function ShouldGeocode(address: Option<string>, city: Option<string>,
                         state: Option<string>, zip: Option<string>): (trigger: bool)
    ensures TruthyText(address) ==> trigger
    ensures !TruthyText(address) ==> (trigger <==> TruthyText(city) && TruthyText(state) && TruthyText(zip))
    ensures !TruthyText(zip) ==> (trigger <==> TruthyText(address))
  {
    TruthyText(address) || (TruthyText(city) && TruthyText(state) && TruthyText(zip))
  }

  /** The project record for one award detail, geocoded when the trigger holds. */
  function PreparedProject(details: AwardDetail, token: Option<string>,
                              geo: GeoQuery -> GeoResponse): (project: ProjectRecord)
    // copied fields
    ensures project.sourceId == details.id && project.agency == details.agencyName
    ensures project.recipient == details.recipientName && project.amount == details.totalObligation
    ensures project.fiscalYear == details.fiscalYear && project.description == details.description
    ensures project.city == details.place.cityName && project.state == details.place.stateCode
    ensures project.address == details.place.addressLine1 && project.zipCode == details.place.zip5
    // derived fields
    ensures project.title == Title(details.description) && |project.title| <= MaxTitleLength
    ensures project.category == None
    // coordinates are both present or both absent
    ensures project.latitude.Some? <==> project.longitude.Some?
    // no trigger: no coordinates
    ensures !ShouldGeocode(project.address, project.city, project.state, project.zipCode) ==>
      project.latitude == None && project.longitude == None
    // trigger: the geocoder's answer, in domain order
    ensures ShouldGeocode(project.address, project.city, project.state, project.zipCode) ==>
      var found := GeocodeAddress(project.address, project.city, project.state,
                                  project.zipCode, token, geo).coords;
      && (found.Some? <==> project.latitude.Some?)
      && (found.Some? ==> project.latitude == Some(found.value.lat)
                          && project.longitude == Some(found.value.lon))
  {
    var location := details.place;
    var project := ProjectRecord(
      details.id, Title(details.description), details.agencyName, details.recipientName,
      details.totalObligation, details.fiscalYear, details.description,
      location.cityName, location.stateCode, location.addressLine1, location.zip5,
      None, None, None);
    if ShouldGeocode(project.address, project.city, project.state, project.zipCode) then
      var found := GeocodeAddress(project.address, project.city, project.state,
                                  project.zipCode, token, geo).coords;
      match found
      case Some(LatLon(lat, lon)) => project.(latitude := Some(lat), longitude := Some(lon))
      case None => project.(latitude := None, longitude := None)
    else
      project
  }

  /** Builds the record with empty coordinates, then overwrites both
      coordinates with the geocoder's answer when the trigger holds. */
  method PrepareProjectData(details: AwardDetail, token: Option<string>,
                            geo: GeoQuery -> GeoResponse) returns (project: ProjectRecord)
    ensures project == PreparedProject(details, token, geo)
  {
    var location := details.place;
    project := ProjectRecord(
      details.id, Title(details.description), details.agencyName, details.recipientName,
      details.totalObligation, details.fiscalYear, details.description,
      location.cityName, location.stateCode, location.addressLine1, location.zip5,
      None, None, None);
    if ShouldGeocode(project.address, project.city, project.state, project.zipCode) {
      var found := GeocodeAddress(project.address, project.city, project.state,
                                  project.zipCode, token, geo).coords;
      var lat := if found.Some? then Some(found.value.lat) else None;
      var lon := if found.Some? then Some(found.value.lon) else None;
      project := project.(latitude := lat, longitude := lon);
    }
  }

  /** A street address alone triggers geocoding, whatever the city, state and zip:
      the trigger is not the looser `(address or city and state) and zip`. */
  lemma AddressAloneTriggersGeocoding(details: AwardDetail)
    requires TruthyText(details.place.addressLine1) && !TruthyText(details.place.zip5)
    ensures ShouldGeocode(details.place.addressLine1, details.place.cityName,
                          details.place.stateCode, details.place.zip5)
    ensures !((TruthyText(details.place.addressLine1)
               || (TruthyText(details.place.cityName) && TruthyText(details.place.stateCode)))
              && TruthyText(details.place.zip5))
  {
  }

  /** Without a city or a state no coordinate is ever produced, even when the
      address triggers geocoding: the geocoder makes no lookup. */
  lemma NoCityOrStateNoCoordinates(details: AwardDetail, token: Option<string>,
                                   geo: GeoQuery -> GeoResponse)
    requires !TruthyText(details.place.cityName) || !TruthyText(details.place.stateCode)
    ensures !IsGeocoded(PreparedProject(details, token, geo))
  {
  }
}
