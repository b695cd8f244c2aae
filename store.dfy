/**
 * The store: the sessions, streams and measurements tables, updated in
 * place by the two ingestion paths, the session upload and the session
 * sync. Each method is proved to leave the tables as the matching function
 * on `Tables` describes, and to keep the store's invariant.
 */
module Storage {
  import opened Wrappers
  import opened Tags
  import opened Records
  import opened SessionModel
  import opened Aggregator
  import opened PurpleAir
  import opened Realtime
  import opened SessionWrites

  /** One more reading of the batch is one more import call. */
  lemma ImportPrefix(db: Tables, owner: nat, toLocal: (int, int, int) -> int, batch: seq<Reading>, i: nat)
    requires TablesValid(db) && i < |batch|
    ensures TablesValid(ImportAll(db, owner, toLocal, batch[..i]))
    ensures ImportAll(db, owner, toLocal, batch[..i + 1])
         == ImportOne(ImportAll(db, owner, toLocal, batch[..i]), owner, toLocal, batch[i])
  {
    ImportAllValid(db, owner, toLocal, batch[..i]);
    assert batch[..i + 1] == batch[..i] + [batch[i]];
    ImportAllAppend(db, owner, toLocal, batch[..i], batch[i]);
  }

  /** One more sample is one more append through the aggregator. */
  lemma AppendSamplesStep(db: Tables, t: nat, samples: seq<Sample>, i: nat)
    requires t < |db.streams| && db.streams[t].sessionId < |db.sessions| && i < |samples|
    ensures var mid := AppendSamples(db, t, samples[..i]);
      var sid := db.streams[t].sessionId;
      AppendSamples(db, t, samples[..i + 1])
        == AppendToStream(mid, t, FromSample(samples[i], sid, Some(t)), mid.sessions[sid])
  {
    assert samples[..i + 1][..i] == samples[..i];
  }

  /** The validation pass of `Measurement.import`: whether every uploaded
      measurement is accepted. */
  method AllAccepted(samples: seq<Sample>, accept: Sample -> bool) returns (ok: bool)
    ensures ok <==> forall i :: 0 <= i < |samples| ==> accept(samples[i])
  {
    var i := 0;
    while i < |samples|
      invariant 0 <= i <= |samples|
      invariant forall j :: 0 <= j < i ==> accept(samples[j])
    {
      if !accept(samples[i]) {
        return false;
      }
      i := i + 1;
    }
    return true;
  }

  /** The update loop of `sync`: each incoming note updates the text of the
      note with its number, in order; None when a number names no note. */
  method UpdateNotes(notes: seq<Note>, ds: seq<SyncNote>) returns (r: Option<seq<Note>>)
    ensures r == ApplyNoteUpdates(notes, ds)
  {
    var cur := notes;
    var i := 0;
    while i < |ds|
      invariant 0 <= i <= |ds|
      invariant ApplyNoteUpdates(notes, ds[..i]) == Some(cur)
    {
      assert ds[..i + 1][..i] == ds[..i];
      var k := FindByNumber(cur, KeyNumber(ds[i].key));
      if k.None? {
        UpdatesFailFromPrefix(notes, ds, i + 1);
        return None;
      }
      cur := cur[k.value := UpdateNote(cur[k.value], ds[i])];
      i := i + 1;
    }
    assert ds[..i] == ds;
    return Some(cur);
  }

  class Store {
    var sessions: seq<Session>
    var streams: seq<Stream>
    var measurements: seq<Measurement>

    function State(): Tables
      reads this
    {
      Tables(sessions, streams, measurements)
    }

    predicate Valid()
      reads this
    {
      TablesValid(State())
    }

    constructor()
      ensures Valid() && State() == Tables([], [], [])
    {
      sessions := [];
      streams := [];
      measurements := [];
      EmptyValid();
    }

    // -------------------------------------------------------------------
    // The bulk import
    // -------------------------------------------------------------------

    /** Import one reading: append it to the latest PurpleAir stream that
        started at its point, or create a session and a stream for it. */
    method ImportReading(owner: nat, toLocal: (int, int, int) -> int, rd: Reading)
      requires Valid()
      modifies this
      ensures Valid()
      ensures State() == ImportOne(old(State()), owner, toLocal, rd)
    {
      ghost var before := State();
      ghost var after := ImportOne(before, owner, toLocal, rd);
      ImportOneValid(before, owner, toLocal, rd);
      match LastStreamAt(streams, rd.latitude, rd.longitude) {
      case None =>
        var sid := |sessions|;
        var m := ImportedMeasurement(rd, sid, |streams|);
        sessions := sessions + [NewImportedSession(owner, rd, toLocal)];
        streams := streams + [Seed(sid, PurpleAirSensor, m)];
        measurements := measurements + [m];
      case Some(t) =>
        var sid := streams[t].sessionId;
        assert sid < |sessions|;
        var m := ImportedMeasurement(rd, sid, t);
        sessions := sessions[sid := Advance(sessions[sid], rd, toLocal)];
        streams := streams[t := Aggregate(streams[t], m)];
        measurements := measurements + [m];
      }
      assert State() == after;
    }

    /** `PurpleAir::ImportMeasurements#call`: import a fetched batch, one
        reading after the other. */
    method ImportMeasurements(owner: nat, toLocal: (int, int, int) -> int, batch: seq<Reading>)
      requires Valid()
      modifies this
      ensures Valid()
      ensures State() == ImportAll(old(State()), owner, toLocal, batch)
    {
      ghost var db := State();
      var i := 0;
      while i < |batch|
        invariant 0 <= i <= |batch|
        invariant TablesValid(db)
        invariant State() == ImportAll(db, owner, toLocal, batch[..i])
      {
        ImportPrefix(db, owner, toLocal, batch, i);
        ImportReading(owner, toLocal, batch[i]);
        i := i + 1;
      }
      assert batch[..i] == batch;
      ImportAllValid(db, owner, toLocal, batch);
    }

    // -------------------------------------------------------------------
    // The realtime upload
    // -------------------------------------------------------------------

    /** Append one sample to stream `t` through the aggregator. */
    method AppendSample(t: nat, sample: Sample)
      requires t < |streams| && streams[t].sessionId < |sessions|
      modifies this
      ensures State() == AppendToStream(old(State()), t, FromSample(sample, old(streams[t].sessionId), Some(t)),
                                        old(sessions[streams[t].sessionId]))
    {
      var m := FromSample(sample, streams[t].sessionId, Some(t));
      streams := streams[t := Aggregate(streams[t], m)];
      measurements := measurements + [m];
    }

    /** Append the samples to stream `t`, in order. */
    method AppendAll(t: nat, samples: seq<Sample>)
      requires t < |streams| && streams[t].sessionId < |sessions|
      modifies this
      ensures State() == AppendSamples(old(State()), t, samples)
    {
      ghost var db := State();
      var i := 0;
      while i < |samples|
        invariant 0 <= i <= |samples|
        invariant State() == AppendSamples(db, t, samples[..i])
      {
        AppendSamplesStep(db, t, samples, i);
        AppendSample(t, samples[i]);
        i := i + 1;
      }
      assert samples[..i] == samples;
    }

    /** `Api::Realtime::MeasurementsController#create` for the signed-in
        `user`. */
    method CreateRealtime(user: nat, req: Request) returns (out: Outcome)
      requires Valid()
      modifies this
      ensures Valid()
      ensures (State(), out) == Create(old(State()), user, req)
    {
      ghost var db := State();
      CreateValid(db, user, req);
      var k := FindOwnedSession(sessions, req.sessionUuid, user);
      if k.None? {
        return Rejected(SessionNotFound);
      }
      if req.samples == [] {
        return Rejected(NoMeasurements);
      }
      var sid := k.value;
      match FindChannel(streams, sid, req.sensor) {
      case Some(t) =>
        AppendAll(t, req.samples);
        out := Accepted(t);
      case None =>
        var t := |streams|;
        var m := FromSample(req.samples[0], sid, Some(t));
        streams := streams + [Seed(sid, req.sensor, m)];
        measurements := measurements + [m];
        assert State() == AttachNewStream(db, req.sensor, m);
        AppendAll(t, req.samples[1..]);
        out := Accepted(t);
      }
    }

    // -------------------------------------------------------------------
    // The session model
    // -------------------------------------------------------------------

    /** Attach the uploaded samples to session `sid`, in order. */
    method AttachRows(samples: seq<Sample>, sid: nat)
      modifies this
      ensures measurements == old(measurements) + SessionRows(samples, sid)
      ensures sessions == old(sessions) && streams == old(streams)
    {
      var i := 0;
      while i < |samples|
        invariant 0 <= i <= |samples|
        invariant measurements == old(measurements) + SessionRows(samples[..i], sid)
        invariant sessions == old(sessions) && streams == old(streams)
      {
        assert SessionRows(samples[..i + 1], sid) == SessionRows(samples[..i], sid) + [FromSample(samples[i], sid, None)];
        measurements := measurements + [FromSample(samples[i], sid, None)];
        i := i + 1;
      }
      assert samples[..i] == samples;
    }

    /**
     * `Session.create_from_json`. `token` is the url token the generator
     * returns, unused by construction; `accept` is the validation of one
     * measurement. The result is the new session's id, or None with the
     * tables unchanged.
     */
    method CreateSessionFromJson(raw: Option<map<string, JValue>>, photos: seq<Photo>, user: nat,
                                 token: string, accept: Sample -> bool) returns (id: Option<nat>)
      requires Valid() && TokenUnused(sessions, token)
      modifies this
      ensures Valid()
      ensures (State(), id) == CreateFromJson(old(State()), raw, photos, user, token, accept)
    {
      ghost var db := State();
      ghost var expected := CreateFromJson(db, raw, photos, user, token, accept);
      CreateFromJsonValid(db, raw, photos, user, token, accept);
      if raw.None? {
        return None;
      }
      var h := SymbolizeKeys(raw.value);
      var parsed := MeasurementsValue(Lookup(h, Sym("measurements")));
      if parsed.None? {
        return None;
      }
      var samples := parsed.value;
      var s := UploadedSession(h, photos, user, token);
      if !SessionValid(s, sessions) {
        return None;
      }
      var ok := AllAccepted(samples, accept);
      if !ok {
        return None;
      }
      var sid := SaveSession(s, samples);
      id := Some(sid);
      assert expected == (State(), id);
    }

    /** Save session `s`, attach its samples, then count them and set its
        time frame from them (`update_counters` and `set_timeframe!` on the
        reloaded session). */
    method SaveSession(s: Session, samples: seq<Sample>) returns (sid: nat)
      modifies this
      ensures sid == old(|sessions|)
      ensures State() == SaveUpload(old(State()), s, samples)
    {
      sid := |sessions|;
      sessions := sessions + [s];
      AttachRows(samples, sid);
      var tf := SetTimeframe(MeasurementsOf(measurements, sid));
      sessions := sessions[sid := s.(measurementsCount := |samples|, startTime := tf.start, endTime := tf.end)];
    }

    /** `Session#sync` on session `sid`, with `token` the url token the
        generator returns should the session have none; false when it fails
        and is rolled back. */
    method Sync(sid: nat, token: string, data: SyncData) returns (ok: bool)
      requires Valid() && sid < |sessions|
      modifies this
      ensures Valid()
      ensures ok <==> SyncSession(old(sessions[sid]), OtherSessions(old(sessions), sid), token, data).Some?
      ensures ok ==> State() == UpdateSession(old(State()), sid,
                                  SyncSession(old(sessions[sid]), OtherSessions(old(sessions), sid), token, data).value)
      ensures !ok ==> State() == old(State())
    {
      var s := sessions[sid];
      var others := sessions[..sid] + sessions[sid + 1..];
      assert others == OtherSessions(sessions, sid);
      if data.notes.None? {
        return false;
      }
      // update_attributes: saved only when the session is then valid
      var edited := SetUrlToken(s.(title := data.title.GetOr(s.title),
                                     description := data.description.GetOr(s.description),
                                     tagList := NormalizeTags(data.tagList)), token);
      var row := if SessionValid(edited, others) then edited else s;
      var ds := data.notes.value;
      var notes: seq<Note>;
      if AllHaveNumberKey(ds) && AllNumbered(s.notes) {
        var updated := UpdateNotes(s.notes, ds);
        if updated.None? {
          return false;
        }
        // destroy the notes that were not sent
        notes := if ds == [] then [] else KeepNumbers(updated.value, IncomingNumbers(ds));
      } else {
        notes := NewNotes(ds);
      }
      var synced := row.(notes := notes);
      assert SyncSession(s, others, token, data) == Some(synced);
      SyncValid(State(), sid, token, data);
      sessions := sessions[sid := synced];
      ok := true;
    }
  }
}
