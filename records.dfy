/**
 * The rows of the store: sessions, streams, measurements and notes.
 * Coordinates are fixed-point integers (units of 1e-7 degree), so that
 * "same coordinates" is exact decimal equality; times are epoch seconds;
 * measured values are exact reals.
 */
module Records {
  import opened Wrappers

  /** An uploaded photo attached to a note. */
  datatype Photo = Photo(fileName: string)

  /** A note of a session; `number` identifies it for synchronisation. */
  datatype Note = Note(number: Option<int>, text: string, photo: Option<Photo>)

  /**
   * One sample. `sessionId` is the owning session; `streamId` is the owning
   * stream when the sample was ingested into a stream (the session-level
   * upload of `create_from_json` attaches samples to the session alone).
   */
  datatype Measurement = Measurement(
    sessionId: nat,
    streamId: Option<nat>,
    value: real,
    measuredValue: real,
    latitude: int,
    longitude: int,
    time: int,
    milliseconds: int,
    timezoneOffset: Option<int>)

  /** The attributes of one submitted measurement. */
  datatype Sample = Sample(
    value: real, measuredValue: real, latitude: int, longitude: int,
    time: int, milliseconds: int, timezoneOffset: Option<int>)

  /** The measurement row a submitted sample becomes. */
  function FromSample(sample: Sample, sessionId: nat, streamId: Option<nat>): Measurement {
    Measurement(sessionId, streamId, sample.value, sample.measuredValue, sample.latitude,
                sample.longitude, sample.time, sample.milliseconds, sample.timezoneOffset)
  }

  datatype Thresholds = Thresholds(veryLow: int, low: int, medium: int, high: int, veryHigh: int)

  /** The sensor and unit metadata a stream carries. */
  datatype Sensor = Sensor(
    sensorName: string,
    sensorPackageName: string,
    measurementType: string,
    measurementShortType: string,
    unitName: string,
    unitSymbol: string,
    thresholds: Thresholds)

  /** One sensor channel of a session, with its running aggregates. */
  datatype Stream = Stream(
    sessionId: nat,
    sensor: Sensor,
    startLatitude: int,
    startLongitude: int,
    minLatitude: int,
    maxLatitude: int,
    minLongitude: int,
    maxLongitude: int,
    measurementsCount: nat,
    averageValue: real)

  datatype Session = Session(
    user: Option<nat>,
    uuid: Option<string>,
    urlToken: Option<string>,
    title: Option<string>,
    description: Option<string>,
    tagList: string,
    contribute: bool,
    isIndoor: bool,
    calibration: Option<int>,
    offset60Db: Option<int>,
    startTime: Option<int>,
    endTime: Option<int>,
    startTimeLocal: Option<int>,
    endTimeLocal: Option<int>,
    lastMeasurementAt: Option<int>,
    latitude: Option<int>,
    longitude: Option<int>,
    measurementsCount: nat,
    notes: seq<Note>,
    dataType: Option<string>,
    instrument: Option<string>)

  /** The three tables of the store; a row's id is its index. */
  datatype Tables = Tables(sessions: seq<Session>, streams: seq<Stream>, measurements: seq<Measurement>)

  function Latitudes(ms: seq<Measurement>): (xs: seq<int>)
    ensures |xs| == |ms| && forall i :: 0 <= i < |ms| ==> xs[i] == ms[i].latitude
  {
    seq(|ms|, i requires 0 <= i < |ms| => ms[i].latitude)
  }

  function Longitudes(ms: seq<Measurement>): (xs: seq<int>)
    ensures |xs| == |ms| && forall i :: 0 <= i < |ms| ==> xs[i] == ms[i].longitude
  {
    seq(|ms|, i requires 0 <= i < |ms| => ms[i].longitude)
  }

  function Times(ms: seq<Measurement>): (xs: seq<int>)
    ensures |xs| == |ms| && forall i :: 0 <= i < |ms| ==> xs[i] == ms[i].time
  {
    seq(|ms|, i requires 0 <= i < |ms| => ms[i].time)
  }

  function Values(ms: seq<Measurement>): (xs: seq<real>)
    ensures |xs| == |ms| && forall i :: 0 <= i < |ms| ==> xs[i] == ms[i].value
  {
    seq(|ms|, i requires 0 <= i < |ms| => ms[i].value)
  }

  /** Projections commute with appending one measurement. */
  lemma ProjectionsAppend(ms: seq<Measurement>, m: Measurement)
    ensures Latitudes(ms + [m]) == Latitudes(ms) + [m.latitude]
    ensures Longitudes(ms + [m]) == Longitudes(ms) + [m.longitude]
    ensures Times(ms + [m]) == Times(ms) + [m.time]
    ensures Values(ms + [m]) == Values(ms) + [m.value]
  {
  }

  /** A non-empty suffix splits off its last element. */
  lemma SplitLast<T>(a: seq<T>, b: seq<T>)
    requires b != []
    ensures a + b == (a + b[..|b| - 1]) + [b[|b| - 1]]
    ensures b[..|b| - 1] + [b[|b| - 1]] == b
  {
    assert b == b[..|b| - 1] + [b[|b| - 1]];
  }
}
