/**
 * The bulk import from the PurpleAir feed (`PurpleAir::ImportMeasurements`).
 * Each reading is `(sensor index, name, value, latitude, longitude, last
 * seen)`. A reading whose exact point is the starting point of an existing
 * PurpleAir stream is appended to the most recently created such stream and
 * may move its session's end of range forward; any other reading creates a
 * session and a stream seeded from it. The readings of a batch are taken in
 * order, each one seeing the rows written by those before it.
 */
module PurpleAir {
  import opened Wrappers
  import opened Aggregates
  import opened Records
  import opened Aggregator

  /** One reading of the feed; the point is in units of 1e-7 degree and the
      last-seen time in epoch seconds. */
  datatype Reading = Reading(
    sensorIndex: nat, name: string, value: real, latitude: int, longitude: int, lastSeen: int)

  /** The fixed sensor metadata of every imported stream. */
  const PurpleAirSensor: Sensor :=
    Sensor("PurpleAir-PM2.5", "PurpleAir-PM2.5", "Particulate Matter", "PM",
           "microgram per cubic meter", "µg/m³", Thresholds(0, 12, 35, 55, 150))

  /** The five thresholds of a sensor are strictly increasing. */
  predicate ThresholdsIncreasing(t: Thresholds) {
    t.veryLow < t.low < t.medium < t.high < t.veryHigh
  }

  lemma PurpleAirThresholdsIncreasing()
    ensures ThresholdsIncreasing(PurpleAirSensor.thresholds)
    ensures PurpleAirSensor.unitSymbol == "µg/m³"
  {
  }

  // ---------------------------------------------------------------------
  // The session title "NAME (INDEX)"
  // ---------------------------------------------------------------------

  predicate IsDigit(c: char) { '0' <= c <= '9' }

  function DigitChar(d: nat): (c: char)
    requires d < 10
    ensures IsDigit(c) && c as int - '0' as int == d
  {
    ('0' as int + d) as char
  }

  /** The decimal numeral of `n`, without leading zeros. */
  function Decimal(n: nat): (s: string)
    ensures |s| >= 1
    ensures forall i :: 0 <= i < |s| ==> IsDigit(s[i])
    ensures n > 0 ==> s[0] != '0'
  {
    if n < 10 then [DigitChar(n)] else Decimal(n / 10) + [DigitChar(n % 10)]
  }

  /** The number a string of digits denotes. */
  function DecimalValue(s: string): nat
    requires forall i :: 0 <= i < |s| ==> IsDigit(s[i])
  {
    if s == [] then 0
    else
      var last := s[|s| - 1];
      assert IsDigit(last);
      DecimalValue(s[..|s| - 1]) * 10 + (last as int - '0' as int)
  }

  /** Reading the numeral back gives the sensor index. */
  lemma {:induction false} DecimalRoundTrip(n: nat)
    ensures DecimalValue(Decimal(n)) == n
  {
    if n >= 10 {
      DecimalRoundTrip(n / 10);
      var s := Decimal(n);
      assert s[..|s| - 1] == Decimal(n / 10);
    } else {
      assert Decimal(n)[..0] == [];
    }
  }

  /** The session title: the reading's name, then its sensor index in
      parentheses. */
  function Title(rd: Reading): (t: string)
    ensures |t| >= |rd.name| + 4
    ensures t[..|rd.name|] == rd.name && t[|rd.name|..|rd.name| + 2] == " (" && t[|t| - 1] == ')'
    ensures forall i :: |rd.name| + 2 <= i < |t| - 1 ==> IsDigit(t[i])
    ensures DecimalValue(t[|rd.name| + 2..|t| - 1]) == rd.sensorIndex
  {
    var d := Decimal(rd.sensorIndex);
    var t := rd.name + " (" + d + ")";
    assert t[|rd.name| + 2..|t| - 1] == d;
    DecimalRoundTrip(rd.sensorIndex);
    t
  }

  /** The numeral contains no parenthesis, so the last `(` of a title is
      the one that follows the name. */
  lemma TitleParen(rd: Reading)
    ensures var t := Title(rd);
      && t[|rd.name| + 1] == '('
      && forall i :: |rd.name| + 1 < i < |t| ==> t[i] != '('
  {
    var t := Title(rd);
    var d := Decimal(rd.sensorIndex);
    assert t == rd.name + " (" + d + ")";
    forall i | |rd.name| + 1 < i < |t|
      ensures t[i] != '('
    {
      if i < |t| - 1 {
        assert t[i] == d[i - |rd.name| - 2];
      }
    }
  }

  /** A title names one reading's name and sensor index: readings with a
      different name or index never share a title. */
  lemma TitleDeterminesName(a: Reading, b: Reading)
    requires Title(a) == Title(b)
    ensures a.name == b.name && a.sensorIndex == b.sensorIndex
  {
    TitleParen(a);
    TitleParen(b);
    assert |a.name| == |b.name|;
    var t := Title(a);
    assert t[..|a.name|] == a.name;
    assert Title(b)[..|b.name|] == b.name;
    assert t[|a.name| + 2..|t| - 1] == Decimal(a.sensorIndex);
    assert Title(b)[|b.name| + 2..|t| - 1] == Decimal(b.sensorIndex);
    DecimalRoundTrip(a.sensorIndex);
    DecimalRoundTrip(b.sensorIndex);
  }

  // ---------------------------------------------------------------------
  // Matching
  // ---------------------------------------------------------------------

  /** Stream `st` is a PurpleAir stream that started at the given point. */
  predicate StartsAt(st: Stream, latitude: int, longitude: int) {
    st.sensor == PurpleAirSensor && st.startLatitude == latitude && st.startLongitude == longitude
  }

  /** The most recently created PurpleAir stream that started at the point. */
  function LastStreamAt(streams: seq<Stream>, latitude: int, longitude: int): (k: Option<nat>)
    ensures k.Some? ==> k.value < |streams| && StartsAt(streams[k.value], latitude, longitude)
    ensures k.Some? ==> forall u :: k.value < u < |streams| ==> !StartsAt(streams[u], latitude, longitude)
    ensures k.None? ==> forall u :: 0 <= u < |streams| ==> !StartsAt(streams[u], latitude, longitude)
  {
    if streams == [] then None
    else if StartsAt(streams[|streams| - 1], latitude, longitude) then Some(|streams| - 1)
    else LastStreamAt(streams[..|streams| - 1], latitude, longitude)
  }

  // ---------------------------------------------------------------------
  // Rows seeded from a reading
  // ---------------------------------------------------------------------

  /** The session a reading at a new point creates. `toLocal` converts a UTC
      time at a point to local time; `owner` is the PurpleAir user. */
  function NewImportedSession(owner: nat, rd: Reading, toLocal: (int, int, int) -> int): (r: Session)
    ensures r.user == Some(owner) && r.title == Some(Title(rd)) && r.contribute && !r.isIndoor
    ensures r.startTime == Some(rd.lastSeen) && r.endTime == Some(rd.lastSeen)
    ensures r.lastMeasurementAt == Some(rd.lastSeen)
    ensures r.startTimeLocal == Some(toLocal(rd.lastSeen, rd.latitude, rd.longitude))
    ensures r.endTimeLocal == r.startTimeLocal
    ensures r.latitude == Some(rd.latitude) && r.longitude == Some(rd.longitude)
    ensures r.dataType.None? && r.instrument.None?
    ensures RangeOrdered(r)
  {
    var local := toLocal(rd.lastSeen, rd.latitude, rd.longitude);
    Session(Some(owner), None, None, Some(Title(rd)), None, [], true, false, None, None,
            Some(rd.lastSeen), Some(rd.lastSeen), Some(local), Some(local), Some(rd.lastSeen),
            Some(rd.latitude), Some(rd.longitude), 0, [], None, None)
  }

  /** The measurement row of a reading. */
  function ImportedMeasurement(rd: Reading, sid: nat, tid: nat): (m: Measurement)
    ensures m.sessionId == sid && m.streamId == Some(tid)
    ensures m.value == rd.value && m.measuredValue == rd.value
    ensures m.latitude == rd.latitude && m.longitude == rd.longitude
    ensures m.time == rd.lastSeen && m.milliseconds == 0 && m.timezoneOffset.None?
  {
    Measurement(sid, Some(tid), rd.value, rd.value, rd.latitude, rd.longitude, rd.lastSeen, 0, None)
  }

  /** Whether a reading is later than everything its session has seen. */
  predicate IsLater(s: Session, rd: Reading) {
    s.endTime.None? || rd.lastSeen > s.endTime.value
  }

  /**
   * The session after a matching reading: a later reading renames it and
   * moves its end of range and last measurement time to the reading's; an
   * earlier or equal one leaves it as it was. The start never moves.
   */
  function Advance(s: Session, rd: Reading, toLocal: (int, int, int) -> int): (r: Session)
    ensures r.endTime == Some(if s.endTime.Some? then Max(s.endTime.value, rd.lastSeen) else rd.lastSeen)
    ensures IsLater(s, rd) ==> r.title == Some(Title(rd)) && r.lastMeasurementAt == Some(rd.lastSeen)
                               && r.endTimeLocal == Some(toLocal(rd.lastSeen, rd.latitude, rd.longitude))
    ensures !IsLater(s, rd) ==> r == s
    ensures IsLater(s, rd) ==>
      r == s.(title := r.title, endTime := r.endTime, endTimeLocal := r.endTimeLocal,
              lastMeasurementAt := r.lastMeasurementAt)
    ensures r.startTime == s.startTime && r.startTimeLocal == s.startTimeLocal
    ensures r.uuid == s.uuid && r.urlToken == s.urlToken && r.user == s.user
    ensures RangeOrdered(s) ==> RangeOrdered(r)
  {
    if IsLater(s, rd) then
      s.(title := Some(Title(rd)), endTime := Some(rd.lastSeen),
         endTimeLocal := Some(toLocal(rd.lastSeen, rd.latitude, rd.longitude)),
         lastMeasurementAt := Some(rd.lastSeen))
    else s
  }

  // ---------------------------------------------------------------------
  // Import
  // ---------------------------------------------------------------------

  /** The tables after importing one reading: one more measurement row,
      and every stream still belongs to an existing session. */
  function ImportOne(db: Tables, owner: nat, toLocal: (int, int, int) -> int, rd: Reading): (r: Tables)
    requires StreamsLinked(db)
    ensures StreamsLinked(r)
    ensures |r.measurements| == |db.measurements| + 1
    ensures |r.sessions| >= |db.sessions| && |r.streams| >= |db.streams|
  {
    match LastStreamAt(db.streams, rd.latitude, rd.longitude)
    case None =>
      var s := NewImportedSession(owner, rd, toLocal);
      var m := ImportedMeasurement(rd, |db.sessions|, |db.streams|);
      AddSessionWithStream(db, s, PurpleAirSensor, m)
    case Some(t) =>
      var sid := db.streams[t].sessionId;
      var s := Advance(db.sessions[sid], rd, toLocal);
      var m := ImportedMeasurement(rd, sid, t);
      AppendToStream(db, t, m, s)
  }

  /** The tables after importing a batch, reading by reading: one row per
      reading. */
  function ImportAll(db: Tables, owner: nat, toLocal: (int, int, int) -> int, batch: seq<Reading>): (r: Tables)
    requires StreamsLinked(db)
    ensures StreamsLinked(r)
    ensures |r.measurements| == |db.measurements| + |batch|
  {
    if batch == [] then db
    else ImportOne(ImportAll(db, owner, toLocal, batch[..|batch| - 1]), owner, toLocal, batch[|batch| - 1])
  }

  /** Importing a reading keeps the store's invariant. */
  lemma ImportOneValid(db: Tables, owner: nat, toLocal: (int, int, int) -> int, rd: Reading)
    requires TablesValid(db)
    ensures TablesValid(ImportOne(db, owner, toLocal, rd))
  {
    match LastStreamAt(db.streams, rd.latitude, rd.longitude)
    case None =>
      var s := NewImportedSession(owner, rd, toLocal);
      var m := ImportedMeasurement(rd, |db.sessions|, |db.streams|);
      AddSessionWithStreamValid(db, s, PurpleAirSensor, m);
    case Some(t) =>
      var sid := db.streams[t].sessionId;
      assert RangeOrdered(db.sessions[sid]);
      var s := Advance(db.sessions[sid], rd, toLocal);
      var m := ImportedMeasurement(rd, sid, t);
      AppendToStreamValid(db, t, m, s);
  }

  /** Importing a batch keeps the store's invariant. */
  lemma {:induction false} ImportAllValid(db: Tables, owner: nat, toLocal: (int, int, int) -> int, batch: seq<Reading>)
    requires TablesValid(db)
    ensures TablesValid(ImportAll(db, owner, toLocal, batch))
  {
    if batch != [] {
      var init := batch[..|batch| - 1];
      ImportAllValid(db, owner, toLocal, init);
      ImportOneValid(ImportAll(db, owner, toLocal, init), owner, toLocal, batch[|batch| - 1]);
    }
  }

  lemma ImportAllAppend(db: Tables, owner: nat, toLocal: (int, int, int) -> int, batch: seq<Reading>, rd: Reading)
    requires StreamsLinked(db)
    ensures ImportAll(db, owner, toLocal, batch + [rd])
         == ImportOne(ImportAll(db, owner, toLocal, batch), owner, toLocal, rd)
  {
    assert (batch + [rd])[..|batch|] == batch;
  }

  /** Two successive import calls have the effect of one call on the
      concatenated batch. */
  lemma {:induction false} ImportAllConcat(db: Tables, owner: nat, toLocal: (int, int, int) -> int, a: seq<Reading>, b: seq<Reading>)
    requires StreamsLinked(db)
    ensures ImportAll(ImportAll(db, owner, toLocal, a), owner, toLocal, b) == ImportAll(db, owner, toLocal, a + b)
  {
    if b == [] {
      assert a + b == a;
    } else {
      var init := b[..|b| - 1];
      ImportAllConcat(db, owner, toLocal, a, init);
      assert (a + b)[..|a + b| - 1] == a + init;
    }
  }

  /**
   * A reading at a point where no PurpleAir stream started creates exactly
   * one session, one stream and one measurement, linked to each other: the
   * session's only stream is the new one and the stream's only measurement
   * is the reading's. The rows carry the reading's fields.
   */
  lemma NewReading(db: Tables, owner: nat, toLocal: (int, int, int) -> int, rd: Reading)
    requires Linked(db)
    requires LastStreamAt(db.streams, rd.latitude, rd.longitude).None?
    ensures var r := ImportOne(db, owner, toLocal, rd);
      var sid := |db.sessions|;
      var tid := |db.streams|;
      && r.sessions[..sid] == db.sessions && |r.sessions| == sid + 1
      && r.streams[..tid] == db.streams && |r.streams| == tid + 1
      && r.measurements == db.measurements + [ImportedMeasurement(rd, sid, tid)]
      // the links
      && r.streams[tid].sessionId == sid
      && (forall u :: 0 <= u < |r.streams| && r.streams[u].sessionId == sid ==> u == tid)
      && OnStream(r.measurements, tid) == [ImportedMeasurement(rd, sid, tid)]
      // the stream
      && r.streams[tid].sensor == PurpleAirSensor
      && r.streams[tid].minLatitude == r.streams[tid].maxLatitude == r.streams[tid].startLatitude == rd.latitude
      && r.streams[tid].minLongitude == r.streams[tid].maxLongitude == r.streams[tid].startLongitude == rd.longitude
      && r.streams[tid].measurementsCount == 1 && r.streams[tid].averageValue == rd.value
      // the session
      && r.sessions[sid] == NewImportedSession(owner, rd, toLocal)
  {
    var sid := |db.sessions|;
    var tid := |db.streams|;
    var m := ImportedMeasurement(rd, sid, tid);
    var st := Seed(sid, PurpleAirSensor, m);
    var r := ImportOne(db, owner, toLocal, rd);
    assert r == Tables(db.sessions + [NewImportedSession(owner, rd, toLocal)], db.streams + [st], db.measurements + [m]);
    assert r.sessions[..sid] == db.sessions;
    assert r.streams[..tid] == db.streams;
    forall i | 0 <= i < |db.measurements|
      ensures db.measurements[i].streamId != Some(tid)
    {
      assert MeasurementLinked(db, db.measurements[i]);
    }
    OnStreamUnused(db.measurements, tid);
    OnStreamAppend(db.measurements, m, tid);
    ConsistentMeaning(st, [m]);
    assert Values([m]) == [rd.value];
    MeanOfOne(rd.value);
  }

  /**
   * A reading at the starting point of PurpleAir stream `t` is appended to
   * it: no session or stream is created, the stream's count grows by one
   * and its starting fields stay, the other streams and sessions are
   * unchanged, and the owning session is advanced by the reading.
   */
  lemma MatchingReading(db: Tables, owner: nat, toLocal: (int, int, int) -> int, rd: Reading, t: nat)
    requires StreamsLinked(db)
    requires LastStreamAt(db.streams, rd.latitude, rd.longitude) == Some(t)
    ensures var r := ImportOne(db, owner, toLocal, rd);
      var sid := db.streams[t].sessionId;
      && sid < |db.sessions|
      && |r.sessions| == |db.sessions| && |r.streams| == |db.streams|
      && r.measurements == db.measurements + [ImportedMeasurement(rd, sid, t)]
      && r.streams[t].measurementsCount == db.streams[t].measurementsCount + 1
      && r.streams[t].startLatitude == db.streams[t].startLatitude
      && r.streams[t].startLongitude == db.streams[t].startLongitude
      && r.streams[t].sensor == db.streams[t].sensor && r.streams[t].sessionId == sid
      && (forall u :: 0 <= u < |db.streams| && u != t ==> r.streams[u] == db.streams[u])
      && r.sessions[sid] == Advance(db.sessions[sid], rd, toLocal)
      && (forall i :: 0 <= i < |db.sessions| && i != sid ==> r.sessions[i] == db.sessions[i])
  {
  }

  /** The readings of a batch are all at one point. */
  predicate AllAt(batch: seq<Reading>, latitude: int, longitude: int) {
    forall i :: 0 <= i < |batch| ==> batch[i].latitude == latitude && batch[i].longitude == longitude
  }

  /**
   * Readings at one new point, whatever their sensor indices, are grouped
   * into one new session and one new stream whose count is the number of
   * readings.
   */
  lemma {:induction false} GroupedAtOnePoint(db: Tables, owner: nat, toLocal: (int, int, int) -> int,
                                             batch: seq<Reading>, latitude: int, longitude: int)
    requires StreamsLinked(db) && |batch| > 0 && AllAt(batch, latitude, longitude)
    requires LastStreamAt(db.streams, latitude, longitude).None?
    ensures var r := ImportAll(db, owner, toLocal, batch);
      && |r.sessions| == |db.sessions| + 1
      && |r.streams| == |db.streams| + 1
      && |r.measurements| == |db.measurements| + |batch|
      && r.streams[|db.streams|].measurementsCount == |batch|
      && StartsAt(r.streams[|db.streams|], latitude, longitude)
  {
    var init := batch[..|batch| - 1];
    var rd := batch[|batch| - 1];
    if init == [] {
      NewPoint(db, owner, toLocal, rd);
    } else {
      GroupedAtOnePoint(db, owner, toLocal, init, latitude, longitude);
      var mid := ImportAll(db, owner, toLocal, init);
      assert ImportAll(db, owner, toLocal, batch) == ImportOne(mid, owner, toLocal, rd);
      assert LastStreamAt(mid.streams, latitude, longitude) == Some(|db.streams|);
      MatchingReading(mid, owner, toLocal, rd, |db.streams|);
    }
  }

  /** The readings of a batch are at pairwise different points. */
  predicate DistinctPoints(batch: seq<Reading>) {
    forall i, j :: 0 <= i < j < |batch| ==>
      batch[i].latitude != batch[j].latitude || batch[i].longitude != batch[j].longitude
  }

  /** No PurpleAir stream started at any reading's point. */
  predicate NoneStartAt(streams: seq<Stream>, batch: seq<Reading>) {
    forall i :: 0 <= i < |batch| ==> LastStreamAt(streams, batch[i].latitude, batch[i].longitude).None?
  }

  /**
   * The shape the import of readings at distinct new points leaves: one
   * session and one stream per reading, the old streams kept, and the
   * stream of reading `k` starting at its point with a count of one.
   */
  predicate SplitShape(db: Tables, r: Tables, batch: seq<Reading>) {
    && |r.sessions| == |db.sessions| + |batch|
    && |r.streams| == |db.streams| + |batch|
    && (forall u :: 0 <= u < |db.streams| ==> r.streams[u] == db.streams[u])
    && forall k :: 0 <= k < |batch| ==>
         StartsAt(r.streams[|db.streams| + k], batch[k].latitude, batch[k].longitude)
         && r.streams[|db.streams| + k].measurementsCount == 1
  }

  /**
   * Readings at N different new points create N sessions, N streams and N
   * measurements, stream `i` of them starting at reading `i` with a count
   * of one.
   */
  lemma {:induction false} DistinctPointsSplit(db: Tables, owner: nat, toLocal: (int, int, int) -> int, batch: seq<Reading>)
    requires StreamsLinked(db) && DistinctPoints(batch) && NoneStartAt(db.streams, batch)
    ensures SplitShape(db, ImportAll(db, owner, toLocal, batch), batch)
  {
    if batch != [] {
      var init := batch[..|batch| - 1];
      var rd := batch[|batch| - 1];
      assert NoneStartAt(db.streams, init) by {
        assert forall i :: 0 <= i < |init| ==> init[i] == batch[i];
      }
      DistinctPointsSplit(db, owner, toLocal, init);
      assert LastStreamAt(db.streams, rd.latitude, rd.longitude).None?;
      ShapeStep(db, ImportAll(db, owner, toLocal, init), owner, toLocal, init, rd, batch);
    }
  }

  /** The step itself, on the tables `mid` the earlier readings left. */
  lemma ShapeStep(db: Tables, mid: Tables, owner: nat, toLocal: (int, int, int) -> int,
                  init: seq<Reading>, rd: Reading, b: seq<Reading>)
    requires StreamsLinked(mid) && SplitShape(db, mid, init) && b == init + [rd]
    requires LastStreamAt(db.streams, rd.latitude, rd.longitude).None?
    requires forall k :: 0 <= k < |init| ==> init[k].latitude != rd.latitude || init[k].longitude != rd.longitude
    ensures SplitShape(db, ImportOne(mid, owner, toLocal, rd), b)
  {
    var n := |db.streams|;
    forall u | 0 <= u < |mid.streams|
      ensures !StartsAt(mid.streams[u], rd.latitude, rd.longitude)
    {
      if u >= n {
        var k := u - n;
        assert StartsAt(mid.streams[n + k], init[k].latitude, init[k].longitude);
      }
    }
    NewPoint(mid, owner, toLocal, rd);
    var r := ImportOne(mid, owner, toLocal, rd);
    forall k | 0 <= k < |b|
      ensures StartsAt(r.streams[|db.streams| + k], b[k].latitude, b[k].longitude)
              && r.streams[|db.streams| + k].measurementsCount == 1
    {
      if k < |init| {
        assert r.streams[n + k] == mid.streams[n + k];
        assert b[k] == init[k];
      } else {
        assert n + k == |mid.streams| && b[k] == rd;
      }
    }
    assert SplitShape(db, r, b);
  }

  /** The part of `NewReading` the batch lemma needs: one more row in each
      table, the old streams kept, the new one starting at the reading. */
  lemma NewPoint(db: Tables, owner: nat, toLocal: (int, int, int) -> int, rd: Reading)
    requires StreamsLinked(db)
    requires forall u :: 0 <= u < |db.streams| ==> !StartsAt(db.streams[u], rd.latitude, rd.longitude)
    ensures var r := ImportOne(db, owner, toLocal, rd);
      && |r.sessions| == |db.sessions| + 1
      && |r.streams| == |db.streams| + 1
      && |r.measurements| == |db.measurements| + 1
      && (forall u :: 0 <= u < |db.streams| ==> r.streams[u] == db.streams[u])
      && StartsAt(r.streams[|db.streams|], rd.latitude, rd.longitude)
      && r.streams[|db.streams|].measurementsCount == 1
  {
    var m := ImportedMeasurement(rd, |db.sessions|, |db.streams|);
    assert LastStreamAt(db.streams, rd.latitude, rd.longitude).None?;
    ConsistentMeaning(Seed(|db.sessions|, PurpleAirSensor, m), [m]);
  }

  /** An earlier reading never moves a session's end of range backwards,
      and a later one moves it to the reading's time. */
  lemma AdvanceMonotonic(s: Session, rd: Reading, toLocal: (int, int, int) -> int)
    requires s.endTime.Some?
    ensures Advance(s, rd, toLocal).endTime.value >= s.endTime.value
    ensures rd.lastSeen > s.endTime.value ==> Advance(s, rd, toLocal).endTime == Some(rd.lastSeen)
  {
  }
}
