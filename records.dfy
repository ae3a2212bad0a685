/** The records the pipeline passes between its stages, with Python's notion of
    "truthy" for the optional values they hold. JSON `null` and an absent key
    are both `None`. */
module Records {

  datatype Option<+T> = None | Some(value: T) {
    /** `x or default` for a value that is either absent or present. */
    function GetOr(default: T): T {
      match this
      case Some(v) => v
      case None => default
    }
  }

  /** A coordinate as the geocoding service sends it. Only its zero test is
      observed by the pipeline, so float arithmetic is not modelled. */
  type Coord = real

  /** Python truthiness of an optional string: present and non-empty. */
  predicate TruthyText(s: Option<string>) {
    s.Some? && s.value != ""
  }

  /** Python truthiness of an optional coordinate: present and non-zero. */
  predicate TruthyCoord(c: Option<Coord>) {
    c.Some? && c.value != 0.0
  }

  /** One entry of the spending search API's `results` array. */
  datatype AwardSummary = AwardSummary(
    awardId: Option<string>,
    internalId: Option<string>,     // 'generated_internal_id', used to fetch the details
    recipientName: Option<string>,
    amount: Option<real>,
    description: Option<string>,
    cityCode: Option<string>,
    stateCode: Option<string>)

  /** `place_of_performance` of an award detail; an absent object reads as all fields absent. */
  datatype Location = Location(
    addressLine1: Option<string>,
    cityName: Option<string>,
    stateCode: Option<string>,
    zip5: Option<string>)

  /** The award detail payload, with `awarding_agency.toptier_agency.name` and
      `recipient.recipient_name` flattened into one field each. */
  datatype AwardDetail = AwardDetail(
    id: Option<int>,
    description: Option<string>,
    agencyName: Option<string>,
    recipientName: Option<string>,
    totalObligation: Option<real>,
    fiscalYear: Option<int>,
    place: Location)

  /** The flat, database-ready project record. */
  datatype ProjectRecord = ProjectRecord(
    sourceId: Option<int>,
    title: string,
    agency: Option<string>,
    recipient: Option<string>,
    amount: Option<real>,
    fiscalYear: Option<int>,
    description: Option<string>,
    city: Option<string>,
    state: Option<string>,
    address: Option<string>,
    zipCode: Option<string>,
    category: Option<string>,
    latitude: Option<Coord>,
    longitude: Option<Coord>)

  /** The keep test of the collection loop: both coordinates truthy. */
  predicate IsGeocoded(p: ProjectRecord) {
    TruthyCoord(p.latitude) && TruthyCoord(p.longitude)
  }

  /** Python's `s[:n]` on a list, negative `n` included. */
  function PyTake<T>(s: seq<T>, n: int): (r: seq<T>)
    ensures |r| <= |s| && r == s[..|r|]
    ensures 0 <= n ==> |r| <= n
    ensures 0 <= n && n <= |s| ==> |r| == n
    ensures 0 <= n && |s| < n ==> r == s
    ensures n < 0 ==> |r| == if |s| + n < 0 then 0 else |s| + n
  {
    if 0 <= n then
      (if n < |s| then s[..n] else s)
    else
      (if |s| + n < 0 then [] else s[..|s| + n])
  }
}
