/** The record shapes the dashboard receives from its backend. */
module Types {

  datatype Option<+T> = None | Some(value: T)

  /** A beacon id is a string or a number in the payload. */
  datatype BeaconId = TextId(text: string) | NumberId(number: int)

  /** A nearby beacon: the declared `nearbyTeltonika` shape, also the shape of each `hits` entry. */
  datatype Beacon = Beacon(id: BeaconId, name: string, rssi: real)

  datatype Coords = Coords(
    latitude: Option<real>,
    longitude: Option<real>,
    accuracy: Option<real>,
    altitude: Option<real>,
    speed: Option<real>,
    heading: Option<real>)

  datatype Battery = Battery(level: Option<real>, isCharging: Option<bool>)

  datatype Activity = Activity(kind: Option<string>, confidence: Option<real>)

  /**
   * The `extras` object. `keys` lists its own keys in enumeration order;
   * `hits` is reached through the index signature and is kept as the
   * list of beacons it holds when present. The three fields are
   * independent: nothing here ties `keys` to which of the other two are
   * present, and the card reads `nearbyTeltonika` and `hits` only through
   * their own fields.
   */
  datatype Extras = Extras(
    keys: seq<string>,
    nearbyTeltonika: Option<Beacon>,
    hits: Option<seq<Beacon>>)

  /**
   * The payload of a record. `deviceId` is not a declared field: it is
   * reached through the index signature. `None` stands for every falsy
   * non-string value (absent, null); `Some("")` is the empty string.
   */
  datatype ResultData = ResultData(
    deviceId: Option<string>,
    event: Option<string>,
    coords: Option<Coords>,
    extras: Option<Extras>,
    battery: Option<Battery>,
    activity: Option<Activity>,
    odometer: Option<real>,
    isMoving: Option<bool>,
    timestamp: Option<string>)

  datatype LocationRecord = LocationRecord(
    id: int,
    resultData: ResultData,
    createdAt: string,
    updatedAt: string)

  /** The pagination block of a list response. */
  datatype PaginationInfo = PaginationInfo(total: int, limit: int, offset: int, hasMore: bool)
}
