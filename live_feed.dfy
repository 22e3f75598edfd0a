/**
 * One vehicle record of the live feed and the outcome of one fetch of the
 * feed for a route. The HTTP call itself is not modelled: its outcome is an
 * input.
 */
module LiveFeed {
  import opened Wrappers
  import opened PyText

  /**
   * A vehicle record as a JSON object. `None` means the key is absent;
   * `Some(Null)` means the key is present with value null, which is not the
   * same thing to `dict.get(key, default)`. Coordinates are stand-in integers
   * (micro-degrees, say): the code only stores them and tests their truth, so
   * for them an absent key and a null value are both `None`.
   */
  datatype Record = Record(
    fareboxId: Option<Value>,    // "BlockFareboxId"
    latitude: Option<int>,       // "Latitude"
    longitude: Option<int>,      // "Longitude"
    destination: Option<Value>,  // "Destination"
    heading: Option<Value>)      // "Heading"

  /**
   * What the request for one route produced: the decoded JSON list, or a
   * failure (connection error, HTTP error status) with its description.
   */
  datatype Response = Payload(records: seq<Record>) | RequestFailed(reason: string)

  /** The feed the dashboard works with: the payload, or the empty list when the request failed. */
  function FetchLiveBusData(route: string, response: Response): seq<Record> {
    match response
    case Payload(records) => records
    case RequestFailed(_) => []
  }
}
