/**
 * The realtime upload (`Api::Realtime::MeasurementsController#create` and
 * the `MeasurementsCreator` it calls once per request). A request names a
 * session by uuid and carries sensor metadata and samples. The session must
 * belong to the signed-in user, otherwise the request is rejected and nothing
 * is written. Within the session the samples go to the stream of the same
 * sensor package, sensor name and measurement type; when there is none, a
 * stream is created from the request's metadata, seeded from the first
 * sample. The session row itself is not changed.
 */
module Realtime {
  import opened Wrappers
  import opened Aggregates
  import opened Records
  import opened Aggregator

  datatype Request = Request(sessionUuid: string, sensor: Sensor, samples: seq<Sample>)

  datatype Rejection = SessionNotFound | NoMeasurements

  /** `Accepted(t)`: the samples were appended to stream `t`. */
  datatype Outcome = Accepted(stream: nat) | Rejected(reason: Rejection)

  predicate OwnedBy(s: Session, uuid: string, user: nat) {
    s.uuid == Some(uuid) && s.user == Some(user)
  }

  /** The user's session with the given uuid. */
  function FindOwnedSession(sessions: seq<Session>, uuid: string, user: nat): (k: Option<nat>)
    ensures k.Some? ==> k.value < |sessions| && OwnedBy(sessions[k.value], uuid, user)
    ensures k.None? ==> forall i :: 0 <= i < |sessions| ==> !OwnedBy(sessions[i], uuid, user)
  {
    if sessions == [] then None
    else if OwnedBy(sessions[|sessions| - 1], uuid, user) then Some(|sessions| - 1)
    else FindOwnedSession(sessions[..|sessions| - 1], uuid, user)
  }

  /** Since uuids are unique, the session found is the only one the user
      owns under that uuid. */
  lemma OwnedSessionUnique(db: Tables, uuid: string, user: nat, i: nat)
    requires TablesValid(db) && i < |db.sessions| && OwnedBy(db.sessions[i], uuid, user)
    ensures FindOwnedSession(db.sessions, uuid, user) == Some(i)
  {
  }

  /** Stream `st` of session `sid` records the same channel as `sensor`. */
  predicate SameChannel(st: Stream, sid: nat, sensor: Sensor) {
    && st.sessionId == sid
    && st.sensor.sensorPackageName == sensor.sensorPackageName
    && st.sensor.sensorName == sensor.sensorName
    && st.sensor.measurementType == sensor.measurementType
  }

  /** The stream of session `sid` for the channel of `sensor`. */
  function FindChannel(streams: seq<Stream>, sid: nat, sensor: Sensor): (k: Option<nat>)
    ensures k.Some? ==> k.value < |streams| && SameChannel(streams[k.value], sid, sensor)
    ensures k.None? ==> forall u :: 0 <= u < |streams| ==> !SameChannel(streams[u], sid, sensor)
  {
    if streams == [] then None
    else if SameChannel(streams[|streams| - 1], sid, sensor) then Some(|streams| - 1)
    else FindChannel(streams[..|streams| - 1], sid, sensor)
  }

  /** The measurement rows of the samples in stream `t` of session `sid`. */
  function Rows(samples: seq<Sample>, sid: nat, t: nat): (rows: seq<Measurement>)
    ensures |rows| == |samples|
    ensures forall i :: 0 <= i < |samples| ==> rows[i] == FromSample(samples[i], sid, Some(t))
  {
    seq(|samples|, i requires 0 <= i < |samples| => FromSample(samples[i], sid, Some(t)))
  }

  lemma RowsCons(sample: Sample, samples: seq<Sample>, sid: nat, t: nat)
    ensures Rows([sample] + samples, sid, t) == [FromSample(sample, sid, Some(t))] + Rows(samples, sid, t)
  {
  }

  lemma PrependRow(ms: seq<Measurement>, m: Measurement, rows: seq<Measurement>)
    ensures (ms + [m]) + rows == ms + ([m] + rows)
  {
  }

  lemma RowsAppend(samples: seq<Sample>, sample: Sample, sid: nat, t: nat)
    ensures Rows(samples + [sample], sid, t) == Rows(samples, sid, t) + [FromSample(sample, sid, Some(t))]
  {
  }

  /** The tables after appending the samples to stream `t`, one at a time
      through the aggregator. */
  function AppendSamples(db: Tables, t: nat, samples: seq<Sample>): (r: Tables)
    requires t < |db.streams| && db.streams[t].sessionId < |db.sessions|
    ensures |r.sessions| == |db.sessions| && |r.streams| == |db.streams|
    ensures r.streams[t].sessionId == db.streams[t].sessionId
  {
    if samples == [] then db
    else
      var mid := AppendSamples(db, t, samples[..|samples| - 1]);
      var sid := mid.streams[t].sessionId;
      AppendToStream(mid, t, FromSample(samples[|samples| - 1], sid, Some(t)), mid.sessions[sid])
  }

  /** Appending samples keeps the store's invariant. */
  lemma {:induction false} AppendSamplesValid(db: Tables, t: nat, samples: seq<Sample>)
    requires TablesValid(db) && t < |db.streams|
    ensures TablesValid(AppendSamples(db, t, samples))
  {
    if samples != [] {
      var init := samples[..|samples| - 1];
      AppendSamplesValid(db, t, init);
      var mid := AppendSamples(db, t, init);
      var sid := mid.streams[t].sessionId;
      AppendToStreamValid(mid, t, FromSample(samples[|samples| - 1], sid, Some(t)), mid.sessions[sid]);
    }
  }

  /**
   * Appending samples adds their rows in order and changes only stream `t`,
   * keeping its session and sensor; the sessions stay as they were.
   */
  lemma {:induction false} AppendSamplesWrites(db: Tables, t: nat, samples: seq<Sample>)
    requires t < |db.streams| && db.streams[t].sessionId < |db.sessions|
    ensures var r := AppendSamples(db, t, samples);
      && r.sessions == db.sessions
      && r.streams[t].sensor == db.streams[t].sensor
      && (forall u :: 0 <= u < |db.streams| && u != t ==> r.streams[u] == db.streams[u])
      && r.measurements == db.measurements + Rows(samples, db.streams[t].sessionId, t)
  {
    var sid := db.streams[t].sessionId;
    if samples == [] {
      assert db.measurements + Rows(samples, sid, t) == db.measurements;
    } else {
      var init := samples[..|samples| - 1];
      AppendSamplesWrites(db, t, init);
      RowsAppend(init, samples[|samples| - 1], sid, t);
      assert init + [samples[|samples| - 1]] == samples;
    }
  }

  /** The tables and the outcome of one request by `user`. */
  function Create(db: Tables, user: nat, req: Request): (Tables, Outcome) {
    match FindOwnedSession(db.sessions, req.sessionUuid, user)
    case None => (db, Rejected(SessionNotFound))
    case Some(sid) =>
      if req.samples == [] then (db, Rejected(NoMeasurements))
      else match FindChannel(db.streams, sid, req.sensor)
        case Some(t) => (AppendSamples(db, t, req.samples), Accepted(t))
        case None =>
          var t := |db.streams|;
          var m := FromSample(req.samples[0], sid, Some(t));
          (AppendSamples(AttachNewStream(db, req.sensor, m), t, req.samples[1..]), Accepted(t))
  }

  /** A request keeps the store's invariant, whatever its outcome. */
  lemma CreateValid(db: Tables, user: nat, req: Request)
    requires TablesValid(db)
    ensures TablesValid(Create(db, user, req).0)
  {
    match FindOwnedSession(db.sessions, req.sessionUuid, user)
    case None =>
    case Some(sid) =>
      if req.samples != [] {
        match FindChannel(db.streams, sid, req.sensor)
        case Some(t) =>
          AppendSamplesValid(db, t, req.samples);
        case None =>
          var t := |db.streams|;
          var m := FromSample(req.samples[0], sid, Some(t));
          AttachNewStreamValid(db, req.sensor, m);
          AppendSamplesValid(AttachNewStream(db, req.sensor, m), t, req.samples[1..]);
      }
  }

  /**
   * A request is rejected exactly when the user owns no session with its
   * uuid or it carries no samples, and a rejected request writes nothing.
   */
  lemma RejectedIff(db: Tables, user: nat, req: Request)
    requires TablesValid(db)
    ensures var (r, out) := Create(db, user, req);
      && (out == Rejected(SessionNotFound) <==>
            forall i :: 0 <= i < |db.sessions| ==> !OwnedBy(db.sessions[i], req.sessionUuid, user))
      && (out.Rejected? <==>
            (forall i :: 0 <= i < |db.sessions| ==> !OwnedBy(db.sessions[i], req.sessionUuid, user))
            || req.samples == [])
      && (out.Rejected? ==> r == db)
  {
    var k := FindOwnedSession(db.sessions, req.sessionUuid, user);
    if k.Some? {
      assert OwnedBy(db.sessions[k.value], req.sessionUuid, user);
    }
  }

  /**
   * A request for a channel the user's session already records appends one
   * row per sample, in order, to that channel's stream; no stream is created
   * and the sessions and the other streams are unchanged.
   */
  lemma AppendsToExistingStream(db: Tables, user: nat, req: Request, sid: nat, t: nat)
    requires FindOwnedSession(db.sessions, req.sessionUuid, user) == Some(sid) && req.samples != []
    requires FindChannel(db.streams, sid, req.sensor) == Some(t)
    ensures Create(db, user, req).1 == Accepted(t)
    ensures var r := Create(db, user, req).0;
      && r.sessions == db.sessions
      && r.measurements == db.measurements + Rows(req.samples, sid, t)
      && |r.streams| == |db.streams|
      && SameChannel(r.streams[t], sid, req.sensor) && r.streams[t].sensor == db.streams[t].sensor
      && (forall u :: 0 <= u < |db.streams| && u != t ==> r.streams[u] == db.streams[u])
  {
    AppendSamplesWrites(db, t, req.samples);
  }

  /**
   * A request for a channel the user's session does not record yet creates
   * one stream for it, carrying the request's sensor metadata, and appends
   * one row per sample to it, in order; the sessions and the other streams
   * are unchanged.
   */
  lemma CreatesNewStream(db: Tables, user: nat, req: Request, sid: nat)
    requires FindOwnedSession(db.sessions, req.sessionUuid, user) == Some(sid) && req.samples != []
    requires FindChannel(db.streams, sid, req.sensor).None?
    ensures Create(db, user, req).1 == Accepted(|db.streams|)
    ensures var r := Create(db, user, req).0;
      var t := |db.streams|;
      && r.sessions == db.sessions
      && r.measurements == db.measurements + Rows(req.samples, sid, t)
      && |r.streams| == t + 1
      && r.streams[..t] == db.streams
      && r.streams[t].sessionId == sid && r.streams[t].sensor == req.sensor
  {
    var t := |db.streams|;
    var first := req.samples[0];
    var rest := req.samples[1..];
    var m := FromSample(first, sid, Some(t));
    var db1 := AttachNewStream(db, req.sensor, m);
    AppendSamplesWrites(db1, t, rest);
    var r := AppendSamples(db1, t, rest);
    assert Create(db, user, req) == (r, Accepted(t));
    assert r.streams[..t] == db.streams;
    assert [first] + rest == req.samples;
    RowsCons(first, rest, sid, t);
    PrependRow(db.measurements, m, Rows(rest, sid, t));
  }

  /**
   * A stream created by a request holds exactly that request's samples: its
   * count is their number, its average their mean and its bounding box
   * their extreme coordinates, starting at the first sample.
   */
  lemma NewStreamAggregates(db: Tables, user: nat, req: Request, sid: nat)
    requires TablesValid(db)
    requires FindOwnedSession(db.sessions, req.sessionUuid, user) == Some(sid) && req.samples != []
    requires FindChannel(db.streams, sid, req.sensor).None?
    ensures var r := Create(db, user, req).0;
      var rows := Rows(req.samples, sid, |db.streams|);
      var st := r.streams[|db.streams|];
      && |r.streams| == |db.streams| + 1
      && OnStream(r.measurements, |db.streams|) == rows
      && st.measurementsCount == |req.samples|
      && st.averageValue == MeanOf(Values(rows))
      && st.minLatitude == MinOf(Latitudes(rows)) && st.maxLatitude == MaxOf(Latitudes(rows))
      && st.minLongitude == MinOf(Longitudes(rows)) && st.maxLongitude == MaxOf(Longitudes(rows))
      && st.startLatitude == req.samples[0].latitude && st.startLongitude == req.samples[0].longitude
  {
    var r := Create(db, user, req).0;
    var t := |db.streams|;
    var rows := Rows(req.samples, sid, t);
    NewStreamHoldsSamples(db, user, req, sid);
    CreateValid(db, user, req);
    assert Consistent(r.streams[t], OnStream(r.measurements, t));
    ConsistentMeaning(r.streams[t], rows);
  }

  /** The measurements of the new stream are the request's rows. */
  lemma NewStreamHoldsSamples(db: Tables, user: nat, req: Request, sid: nat)
    requires Linked(db)
    requires FindOwnedSession(db.sessions, req.sessionUuid, user) == Some(sid) && req.samples != []
    requires FindChannel(db.streams, sid, req.sensor).None?
    ensures |Create(db, user, req).0.streams| == |db.streams| + 1
    ensures OnStream(Create(db, user, req).0.measurements, |db.streams|) == Rows(req.samples, sid, |db.streams|)
  {
    var t := |db.streams|;
    var rows := Rows(req.samples, sid, t);
    CreatesNewStream(db, user, req, sid);
    forall i | 0 <= i < |db.measurements|
      ensures db.measurements[i].streamId != Some(t)
    {
      assert MeasurementLinked(db, db.measurements[i]);
    }
    OnStreamUnused(db.measurements, t);
    OnStreamConcat(db.measurements, rows, t);
  }

  /** The aggregates of a single row are its own coordinates and value. */
  lemma OneRow(sample: Sample, sid: nat, t: nat)
    ensures var rows := Rows([sample], sid, t);
      && MinOf(Latitudes(rows)) == MaxOf(Latitudes(rows)) == sample.latitude
      && MinOf(Longitudes(rows)) == MaxOf(Longitudes(rows)) == sample.longitude
      && MeanOf(Values(rows)) == sample.value
  {
    var rows := Rows([sample], sid, t);
    assert Values(rows) == [sample.value];
    MeanOfOne(sample.value);
    assert Latitudes(rows) == [sample.latitude];
    assert Longitudes(rows) == [sample.longitude];
  }

  /**
   * One sample into a new stream: the box is the degenerate point at the
   * sample and the average is its value.
   */
  lemma NewStreamOneSample(db: Tables, user: nat, req: Request, sid: nat)
    requires TablesValid(db)
    requires FindOwnedSession(db.sessions, req.sessionUuid, user) == Some(sid) && |req.samples| == 1
    requires FindChannel(db.streams, sid, req.sensor).None?
    ensures var r := Create(db, user, req).0;
      var st := r.streams[|db.streams|];
      var sample := req.samples[0];
      && |r.streams| == |db.streams| + 1
      && st.minLatitude == st.maxLatitude == sample.latitude
      && st.minLongitude == st.maxLongitude == sample.longitude
      && st.averageValue == sample.value
  {
    NewStreamAggregates(db, user, req, sid);
    assert req.samples == [req.samples[0]];
    OneRow(req.samples[0], sid, |db.streams|);
  }
}
