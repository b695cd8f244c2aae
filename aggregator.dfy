/**
 * Incremental aggregates of a stream and the invariant of the store's
 * tables. A stream's count, running mean, bounding box and starting point
 * always equal those computed from scratch over the measurements attached
 * to it, and every write step of the ingestion paths keeps that so.
 */
module Aggregator {
  import opened Wrappers
  import opened Aggregates
  import opened Records

  // ---------------------------------------------------------------------
  // One stream
  // ---------------------------------------------------------------------

  /** The measurements attached to stream `t`, in insertion order. */
  function OnStream(ms: seq<Measurement>, t: nat): (r: seq<Measurement>)
    ensures |r| <= |ms|
    ensures forall i :: 0 <= i < |r| ==> r[i].streamId == Some(t)
  {
    if ms == [] then []
    else
      var last := ms[|ms| - 1];
      OnStream(ms[..|ms| - 1], t) + (if last.streamId == Some(t) then [last] else [])
  }

  lemma OnStreamAppend(ms: seq<Measurement>, m: Measurement, t: nat)
    ensures OnStream(ms + [m], t) == OnStream(ms, t) + (if m.streamId == Some(t) then [m] else [])
  {
    assert (ms + [m])[..|ms|] == ms;
  }

  /** Appending rows that all belong to stream `t` extends its measurements
      by exactly those rows. */
  lemma {:induction false} OnStreamConcat(ms: seq<Measurement>, rows: seq<Measurement>, t: nat)
    requires forall i :: 0 <= i < |rows| ==> rows[i].streamId == Some(t)
    ensures OnStream(ms + rows, t) == OnStream(ms, t) + rows
  {
    if rows == [] {
      assert ms + rows == ms;
    } else {
      var init := rows[..|rows| - 1];
      OnStreamConcat(ms, init, t);
      SplitLast(ms, rows);
      OnStreamAppend(ms + init, rows[|rows| - 1], t);
    }
  }

  /** A stream no measurement points to has none attached. */
  lemma {:induction false} OnStreamUnused(ms: seq<Measurement>, t: nat)
    requires forall i :: 0 <= i < |ms| ==> ms[i].streamId != Some(t)
    ensures OnStream(ms, t) == []
  {
    if ms != [] {
      OnStreamUnused(ms[..|ms| - 1], t);
    }
  }

  /** The aggregate columns of a stream. */
  datatype Summary = Summary(
    count: nat, average: real,
    minLatitude: int, maxLatitude: int, minLongitude: int, maxLongitude: int,
    startLatitude: int, startLongitude: int)

  function SummaryOf(st: Stream): Summary {
    Summary(st.measurementsCount, st.averageValue, st.minLatitude, st.maxLatitude,
            st.minLongitude, st.maxLongitude, st.startLatitude, st.startLongitude)
  }

  /** The columns of a stream seeded from its first measurement: a
      degenerate bounding box at that point, a count of one and that value
      as average. */
  function First(m: Measurement): Summary {
    Summary(1, m.value, m.latitude, m.latitude, m.longitude, m.longitude, m.latitude, m.longitude)
  }

  /** The aggregator step for one more measurement: widen the bounding box,
      bump the count and move the running mean; the start stays. */
  function Step(a: Summary, m: Measurement): Summary {
    var n := a.count + 1;
    a.(count := n,
       average := a.average + (m.value - a.average) / (n as real),
       minLatitude := Min(a.minLatitude, m.latitude),
       maxLatitude := Max(a.maxLatitude, m.latitude),
       minLongitude := Min(a.minLongitude, m.longitude),
       maxLongitude := Max(a.maxLongitude, m.longitude))
  }

  /** The columns after seeding with the first measurement of `L` and
      stepping through the others, in order. */
  function Fold(L: seq<Measurement>): Summary
    requires |L| > 0
  {
    if |L| == 1 then First(L[0]) else Step(Fold(L[..|L| - 1]), L[|L| - 1])
  }

  lemma FoldAppend(L: seq<Measurement>, m: Measurement)
    requires |L| > 0
    ensures Fold(L + [m]) == Step(Fold(L), m)
  {
    assert (L + [m])[..|L|] == L;
  }

  /** The folded count is the number of measurements and the start is the
      first measurement's point. */
  lemma {:induction false} FoldCountStart(L: seq<Measurement>)
    requires |L| > 0
    ensures Fold(L).count == |L|
    ensures Fold(L).startLatitude == L[0].latitude && Fold(L).startLongitude == L[0].longitude
  {
    if |L| > 1 {
      FoldCountStart(L[..|L| - 1]);
    }
  }

  /** The folded bounding box is the least and greatest coordinate. */
  lemma {:induction false} FoldBox(L: seq<Measurement>)
    requires |L| > 0
    ensures Fold(L).minLatitude == MinOf(Latitudes(L))
    ensures Fold(L).maxLatitude == MaxOf(Latitudes(L))
    ensures Fold(L).minLongitude == MinOf(Longitudes(L))
    ensures Fold(L).maxLongitude == MaxOf(Longitudes(L))
  {
    if |L| == 1 {
      assert Latitudes(L) == [L[0].latitude];
      assert Longitudes(L) == [L[0].longitude];
    } else {
      var init := L[..|L| - 1];
      var m := L[|L| - 1];
      assert init + [m] == L;
      FoldBox(init);
      ProjectionsAppend(init, m);
      MinOfAppend(Latitudes(init), m.latitude);
      MaxOfAppend(Latitudes(init), m.latitude);
      MinOfAppend(Longitudes(init), m.longitude);
      MaxOfAppend(Longitudes(init), m.longitude);
    }
  }

  /** The running mean is the arithmetic mean of all values. */
  lemma {:induction false} FoldMean(L: seq<Measurement>)
    requires |L| > 0
    ensures Fold(L).average == MeanOf(Values(L))
  {
    if |L| == 1 {
      assert Values(L) == [L[0].value];
      MeanOfOne(L[0].value);
    } else {
      var init := L[..|L| - 1];
      var m := L[|L| - 1];
      assert init + [m] == L;
      FoldMean(init);
      FoldCountStart(init);
      ProjectionsAppend(init, m);
      RunningMean(Values(init), Fold(init).average, m.value);
    }
  }

  /** The stream row agrees with its measurements `L`: it has at least one
      and its aggregate columns are the fold of the aggregator over them. */
  predicate Consistent(st: Stream, L: seq<Measurement>) {
    |L| > 0 && SummaryOf(st) == Fold(L)
  }

  /**
   * What a consistent stream row holds: the count is the number of its
   * measurements, the average their mean, the bounding box their extreme
   * coordinates and the starting point the first one's.
   */
  lemma ConsistentMeaning(st: Stream, L: seq<Measurement>)
    requires Consistent(st, L)
    ensures st.measurementsCount == |L|
    ensures st.averageValue == MeanOf(Values(L))
    ensures st.minLatitude == MinOf(Latitudes(L)) && st.maxLatitude == MaxOf(Latitudes(L))
    ensures st.minLongitude == MinOf(Longitudes(L)) && st.maxLongitude == MaxOf(Longitudes(L))
    ensures st.startLatitude == L[0].latitude && st.startLongitude == L[0].longitude
  {
    FoldCountStart(L);
    FoldBox(L);
    FoldMean(L);
  }

  /** A new stream seeded from its first measurement. */
  function Seed(sessionId: nat, sensor: Sensor, m: Measurement): (st: Stream)
    ensures Consistent(st, [m])
  {
    Stream(sessionId, sensor, m.latitude, m.longitude, m.latitude, m.latitude,
           m.longitude, m.longitude, 1, m.value)
  }

  /** The stream row after the aggregator step. */
  function Aggregate(st: Stream, m: Measurement): (r: Stream)
    ensures SummaryOf(r) == Step(SummaryOf(st), m)
    ensures r.sessionId == st.sessionId && r.sensor == st.sensor
  {
    var a := Step(SummaryOf(st), m);
    st.(measurementsCount := a.count, averageValue := a.average,
        minLatitude := a.minLatitude, maxLatitude := a.maxLatitude,
        minLongitude := a.minLongitude, maxLongitude := a.maxLongitude)
  }

  /** The aggregator step keeps the row consistent with its measurements. */
  lemma AggregateConsistent(st: Stream, L: seq<Measurement>, m: Measurement)
    requires Consistent(st, L)
    ensures Consistent(Aggregate(st, m), L + [m])
  {
    FoldAppend(L, m);
  }

  /** A consistent stream's bounding box contains its starting point. */
  lemma StartInBox(st: Stream, L: seq<Measurement>)
    requires Consistent(st, L)
    ensures st.minLatitude <= st.startLatitude <= st.maxLatitude
    ensures st.minLongitude <= st.startLongitude <= st.maxLongitude
  {
    ConsistentMeaning(st, L);
    assert Latitudes(L)[0] == st.startLatitude;
    assert Longitudes(L)[0] == st.startLongitude;
  }

  // ---------------------------------------------------------------------
  // The tables
  // ---------------------------------------------------------------------

  /** A measurement points at an existing session, and at an existing
      stream of that same session when it has one. */
  predicate MeasurementLinked(db: Tables, m: Measurement) {
    && m.sessionId < |db.sessions|
    && (m.streamId.Some? ==>
          m.streamId.value < |db.streams| && db.streams[m.streamId.value].sessionId == m.sessionId)
  }

  /** Every stream belongs to an existing session. */
  predicate StreamsLinked(db: Tables) {
    forall t :: 0 <= t < |db.streams| ==> db.streams[t].sessionId < |db.sessions|
  }

  predicate Linked(db: Tables) {
    && StreamsLinked(db)
    && (forall i :: 0 <= i < |db.measurements| ==> MeasurementLinked(db, db.measurements[i]))
  }

  predicate StreamsConsistent(db: Tables) {
    forall t :: 0 <= t < |db.streams| ==> Consistent(db.streams[t], OnStream(db.measurements, t))
  }

  /** `start_time <= end_time` whenever the session has started. */
  predicate RangeOrdered(s: Session) {
    s.startTime.Some? ==> s.endTime.Some? && s.startTime.value <= s.endTime.value
  }

  predicate RangesOrdered(db: Tables) {
    forall i :: 0 <= i < |db.sessions| ==> RangeOrdered(db.sessions[i])
  }

  /** `a`'s uuid and url token, when set, are not `b`'s. */
  predicate KeysDiffer(a: Session, b: Session) {
    && (a.uuid.Some? ==> a.uuid != b.uuid)
    && (a.urlToken.Some? ==> a.urlToken != b.urlToken)
  }

  /** The uniqueness validations of uuid and url_token hold over the table. */
  predicate KeysUnique(db: Tables) {
    forall i, j :: 0 <= i < |db.sessions| && 0 <= j < |db.sessions| && i != j ==>
      KeysDiffer(db.sessions[i], db.sessions[j])
  }

  /** The store's invariant. */
  predicate TablesValid(db: Tables) {
    Linked(db) && StreamsConsistent(db) && RangesOrdered(db) && KeysUnique(db)
  }

  /** The empty store satisfies the invariant. */
  lemma EmptyValid()
    ensures TablesValid(Tables([], [], []))
  {
  }

  // ---------------------------------------------------------------------
  // Write steps
  // ---------------------------------------------------------------------

  /** Insert a session with its first stream and that stream's first
      measurement (the bulk path's "new" case). */
  function AddSessionWithStream(db: Tables, s: Session, sensor: Sensor, m: Measurement): Tables {
    Tables(db.sessions + [s], db.streams + [Seed(|db.sessions|, sensor, m)], db.measurements + [m])
  }

  lemma AddSessionWithStreamValid(db: Tables, s: Session, sensor: Sensor, m: Measurement)
    requires TablesValid(db)
    requires RangeOrdered(s) && s.uuid.None? && s.urlToken.None?
    requires m.sessionId == |db.sessions| && m.streamId == Some(|db.streams|)
    ensures TablesValid(AddSessionWithStream(db, s, sensor, m))
  {
    var db' := AddSessionWithStream(db, s, sensor, m);
    forall i | 0 <= i < |db'.measurements|
      ensures MeasurementLinked(db', db'.measurements[i])
    {
      if i < |db.measurements| {
        assert MeasurementLinked(db, db.measurements[i]);
      }
    }
    SeedConsistent(db, db'.sessions, db'.streams[|db.streams|], m);
    assert Linked(db');
  }

  /** A new stream seeded from one measurement agrees with it, and the
      old streams keep their measurements. */
  lemma SeedConsistent(db: Tables, sessions: seq<Session>, st: Stream, m: Measurement)
    requires Linked(db) && StreamsConsistent(db)
    requires m.streamId == Some(|db.streams|) && Consistent(st, [m])
    ensures StreamsConsistent(Tables(sessions, db.streams + [st], db.measurements + [m]))
  {
    var db' := Tables(sessions, db.streams + [st], db.measurements + [m]);
    var t := |db.streams|;
    forall u | 0 <= u < |db'.streams|
      ensures Consistent(db'.streams[u], OnStream(db'.measurements, u))
    {
      OnStreamAppend(db.measurements, m, u);
      if u == t {
        forall i | 0 <= i < |db.measurements|
          ensures db.measurements[i].streamId != Some(t)
        {
          assert MeasurementLinked(db, db.measurements[i]);
        }
        OnStreamUnused(db.measurements, t);
        assert OnStream(db'.measurements, u) == [m];
      } else {
        assert OnStream(db'.measurements, u) == OnStream(db.measurements, u);
        assert Consistent(db.streams[u], OnStream(db.measurements, u));
      }
    }
  }

  /** Insert a stream into an existing session, seeded from its first
      measurement (the realtime path's "new stream" case). */
  function AttachNewStream(db: Tables, sensor: Sensor, m: Measurement): Tables {
    Tables(db.sessions, db.streams + [Seed(m.sessionId, sensor, m)], db.measurements + [m])
  }

  lemma AttachNewStreamValid(db: Tables, sensor: Sensor, m: Measurement)
    requires TablesValid(db)
    requires m.sessionId < |db.sessions| && m.streamId == Some(|db.streams|)
    ensures TablesValid(AttachNewStream(db, sensor, m))
  {
    var db' := AttachNewStream(db, sensor, m);
    forall i | 0 <= i < |db'.measurements|
      ensures MeasurementLinked(db', db'.measurements[i])
    {
      if i < |db.measurements| {
        assert MeasurementLinked(db, db.measurements[i]);
      }
    }
    SeedConsistent(db, db'.sessions, db'.streams[|db.streams|], m);
    assert Linked(db');
  }

  /** Append a measurement to stream `t`, run the aggregator on the stream
      and replace the owning session's row by `s` (both ingestion paths'
      append case). */
  function AppendToStream(db: Tables, t: nat, m: Measurement, s: Session): Tables
    requires t < |db.streams| && db.streams[t].sessionId < |db.sessions|
  {
    Tables(db.sessions[db.streams[t].sessionId := s],
           db.streams[t := Aggregate(db.streams[t], m)],
           db.measurements + [m])
  }

  lemma AppendToStreamValid(db: Tables, t: nat, m: Measurement, s: Session)
    requires TablesValid(db) && t < |db.streams|
    requires m.streamId == Some(t) && m.sessionId == db.streams[t].sessionId
    requires RangeOrdered(s)
    requires s.uuid == db.sessions[m.sessionId].uuid && s.urlToken == db.sessions[m.sessionId].urlToken
    ensures TablesValid(AppendToStream(db, t, m, s))
  {
    var db' := AppendToStream(db, t, m, s);
    forall i | 0 <= i < |db'.measurements|
      ensures MeasurementLinked(db', db'.measurements[i])
    {
      if i < |db.measurements| {
        assert MeasurementLinked(db, db.measurements[i]);
      }
    }
    forall u | 0 <= u < |db'.streams|
      ensures Consistent(db'.streams[u], OnStream(db'.measurements, u))
    {
      OnStreamAppend(db.measurements, m, u);
      if u == t {
        AggregateConsistent(db.streams[t], OnStream(db.measurements, t), m);
      } else {
        assert OnStream(db'.measurements, u) == OnStream(db.measurements, u);
        assert Consistent(db.streams[u], OnStream(db.measurements, u));
      }
    }
    assert Linked(db');
    forall i, j | 0 <= i < |db'.sessions| && 0 <= j < |db'.sessions| && i != j
      ensures KeysDiffer(db'.sessions[i], db'.sessions[j])
    {
      assert KeysDiffer(db.sessions[i], db.sessions[j]);
    }
  }

  /** Insert a session row without streams or measurements. */
  function AddSession(db: Tables, s: Session): Tables {
    Tables(db.sessions + [s], db.streams, db.measurements)
  }

  lemma AddSessionValid(db: Tables, s: Session)
    requires TablesValid(db) && RangeOrdered(s)
    requires forall i :: 0 <= i < |db.sessions| ==> KeysDiffer(db.sessions[i], s) && KeysDiffer(s, db.sessions[i])
    ensures TablesValid(AddSession(db, s))
  {
    var db' := AddSession(db, s);
    forall i | 0 <= i < |db'.measurements|
      ensures MeasurementLinked(db', db'.measurements[i])
    {
      assert MeasurementLinked(db, db.measurements[i]);
    }
  }

  /** Attach a measurement to a session directly, outside any stream. */
  function AttachToSession(db: Tables, m: Measurement): Tables {
    Tables(db.sessions, db.streams, db.measurements + [m])
  }

  lemma AttachToSessionValid(db: Tables, m: Measurement)
    requires TablesValid(db) && m.sessionId < |db.sessions| && m.streamId.None?
    ensures TablesValid(AttachToSession(db, m))
  {
    var db' := AttachToSession(db, m);
    forall u | 0 <= u < |db'.streams|
      ensures Consistent(db'.streams[u], OnStream(db'.measurements, u))
    {
      OnStreamAppend(db.measurements, m, u);
      assert OnStream(db'.measurements, u) == OnStream(db.measurements, u);
      assert Consistent(db.streams[u], OnStream(db.measurements, u));
    }
  }

  /** Replace a session row, keeping its keys. */
  function UpdateSession(db: Tables, sid: nat, s: Session): Tables
    requires sid < |db.sessions|
  {
    Tables(db.sessions[sid := s], db.streams, db.measurements)
  }

  lemma UpdateSessionValid(db: Tables, sid: nat, s: Session)
    requires TablesValid(db) && sid < |db.sessions| && RangeOrdered(s)
    requires s.uuid == db.sessions[sid].uuid && s.urlToken == db.sessions[sid].urlToken
    ensures TablesValid(UpdateSession(db, sid, s))
  {
    var db' := UpdateSession(db, sid, s);
    forall i | 0 <= i < |db'.measurements|
      ensures MeasurementLinked(db', db'.measurements[i])
    {
      assert MeasurementLinked(db, db.measurements[i]);
    }
    forall i, j | 0 <= i < |db'.sessions| && 0 <= j < |db'.sessions| && i != j
      ensures KeysDiffer(db'.sessions[i], db'.sessions[j])
    {
      assert KeysDiffer(db.sessions[i], db.sessions[j]);
    }
  }
}
