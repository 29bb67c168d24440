/**
 * The records of the Paris "Que faire à Paris" events catalogue: the raw
 * record as the catalogue delivers it (after its nested `fields` object
 * has been flattened and the columns of interest selected) and the
 * normalised event row the rest of the application works on.
 */
module Events {
  import opened Options

  /** A parsed timestamp: a calendar day number and the time within that day. */
  datatype Timestamp = Timestamp(day: int, timeOfDay: nat)

  /** A coordinate as delivered by the catalogue; it is carried along, never computed on. */
  datatype Coord = Coord(text: string)

  /** The two-element `lat_lon` pair: latitude first, longitude second. */
  datatype LatLon = LatLon(lat: Coord, lon: Coord)

  /** One catalogue record, restricted to the columns the application selects. */
  datatype RawRecord = RawRecord(
    title: string,
    tags: Option<string>,
    dateStart: Option<Timestamp>,
    dateEnd: Option<Timestamp>,
    updatedAt: Option<Timestamp>,
    dateDescription: Option<string>,
    leadText: Option<string>,
    url: Option<string>,
    addressZipcode: Option<string>,
    addressName: Option<string>,
    addressStreet: Option<string>,
    latLon: Option<LatLon>,
    priceType: Option<string>,
    priceDetail: Option<string>)

  /**
   * One row of the normalised events frame. `tags` and the tag slots 3 and
   * 4 are not columns of it; `lat_lon` is kept beside its decomposition.
   */
  datatype Event = Event(
    title: string,
    dateStart: Option<Timestamp>,
    dateEnd: Option<Timestamp>,
    updatedAt: Option<Timestamp>,
    dateDescription: Option<string>,
    description: Option<string>,
    url: Option<string>,
    addressZipcode: Option<string>,
    addressName: Option<string>,
    addressStreet: Option<string>,
    latLon: Option<LatLon>,
    priceType: Option<string>,
    priceDetail: Option<string>,
    tag1: Option<string>,
    tag2: Option<string>,
    tag5: Option<string>,
    latitude: Option<Coord>,
    longitude: Option<Coord>)

  /** The calendar date of a timestamp; a missing timestamp has no date. */
  function DateOf(t: Option<Timestamp>): Option<int>
  {
    match t
    case None => None
    case Some(ts) => Some(ts.day)
  }
}
