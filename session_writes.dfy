/**
 * The two writes of the session model on the store's tables:
 * `Session.create_from_json`, which saves a session built from an uploaded
 * JSON object together with its measurements, all or nothing, and
 * `Session#sync`, which updates the title, description, tags and notes of a
 * saved session.
 */
module SessionWrites {
  import opened Wrappers
  import opened Tags
  import opened Records
  import opened SessionModel
  import opened Aggregator

  // ---------------------------------------------------------------------
  // create_from_json
  // ---------------------------------------------------------------------

  /**
   * `json.delete(:measurements) || []`: a missing, null or false entry is
   * no measurements; a list of measurements is taken as it is; anything
   * else cannot be mapped and fails the upload.
   */
  function MeasurementsValue(v: Option<JValue>): Option<seq<Sample>> {
    match v
    case None => Some([])
    case Some(JNull) => Some([])
    case Some(JBool(b)) => if b then None else Some([])
    case Some(JSamples(xs)) => Some(xs)
    case Some(JNotes(ns)) => if ns == [] then Some([]) else None
    case Some(_) => None
  }

  /** The measurement rows of the uploaded samples, attached to session
      `sid` and to no stream. */
  function SessionRows(samples: seq<Sample>, sid: nat): (rows: seq<Measurement>)
    ensures |rows| == |samples|
    ensures forall i :: 0 <= i < |samples| ==> rows[i] == FromSample(samples[i], sid, None)
  {
    seq(|samples|, i requires 0 <= i < |samples| => FromSample(samples[i], sid, None))
  }

  /** The session `build_from_json` makes of the symbolised hash, with the
      generated url token. */
  function UploadedSession(h: map<Key, JValue>, photos: seq<Photo>, user: nat, token: string): Session {
    SetUrlToken(BuildFromJson(h - {Sym("measurements")}, photos, user), token)
  }

  /**
   * The tables after `create_from_json` and the id of the new session, or
   * the unchanged tables and None. `raw` is the parsed object (None when
   * the text does not parse), `token` the generated url token and `accept`
   * the validation of one measurement. The session is saved, its
   * measurements attached and counted and its time frame set from them; a
   * parse failure, an unmappable measurement list, an invalid session or a
   * rejected measurement undoes everything.
   */
  function CreateFromJson(db: Tables, raw: Option<map<string, JValue>>, photos: seq<Photo>, user: nat,
                          token: string, accept: Sample -> bool): (Tables, Option<nat>)
  {
    if raw.None? then (db, None)
    else
      var h := SymbolizeKeys(raw.value);
      var samples := MeasurementsValue(Lookup(h, Sym("measurements")));
      if samples.None? then (db, None)
      else
        var s := UploadedSession(h, photos, user, token);
        if !SessionValid(s, db.sessions) then (db, None)
        else if exists i :: 0 <= i < |samples.value| && !accept(samples.value[i]) then (db, None)
        else
          var id: Option<nat> := Some(|db.sessions|);
          (SaveUpload(db, s, samples.value), id)
  }

  /** The tables after saving session `s` and attaching its samples: the
      session is appended with its measurement count and the time frame of
      its rows, and the rows follow the old ones. */
  function SaveUpload(db: Tables, s: Session, samples: seq<Sample>): Tables {
    var sid := |db.sessions|;
    var ms := db.measurements + SessionRows(samples, sid);
    var tf := SetTimeframe(MeasurementsOf(ms, sid));
    Tables(db.sessions + [s.(measurementsCount := |samples|, startTime := tf.start, endTime := tf.end)], db.streams, ms)
  }

  /** Whether an upload succeeds: it parses, its measurement list can be
      mapped, the session is valid and every measurement is accepted. */
  predicate UploadSucceeds(db: Tables, raw: Option<map<string, JValue>>, photos: seq<Photo>, user: nat,
                           token: string, accept: Sample -> bool)
  {
    && raw.Some?
    && var h := SymbolizeKeys(raw.value);
       var samples := MeasurementsValue(Lookup(h, Sym("measurements")));
       && samples.Some?
       && SessionValid(UploadedSession(h, photos, user, token), db.sessions)
       && forall i :: 0 <= i < |samples.value| ==> accept(samples.value[i])
  }

  /** The samples of an upload whose measurement list can be mapped. */
  function UploadedSamples(raw: map<string, JValue>): Option<seq<Sample>> {
    MeasurementsValue(Lookup(SymbolizeKeys(raw), Sym("measurements")))
  }

  /** The rows of session `sid` among the old rows and the new ones are the
      new ones, when no old row belongs to it. */
  lemma {:induction false} MeasurementsOfNew(ms: seq<Measurement>, rows: seq<Measurement>, sid: nat)
    requires forall i :: 0 <= i < |ms| ==> ms[i].sessionId != sid
    requires forall i :: 0 <= i < |rows| ==> rows[i].sessionId == sid
    ensures MeasurementsOf(ms + rows, sid) == rows
  {
    if rows == [] {
      assert ms + rows == ms;
      NoneOf(ms, sid);
    } else {
      var init := rows[..|rows| - 1];
      var last := rows[|rows| - 1];
      MeasurementsOfNew(ms, init, sid);
      SplitLast(ms, rows);
      MeasurementsOfAppend(ms + init, last, sid);
    }
  }

  lemma {:induction false} NoneOf(ms: seq<Measurement>, sid: nat)
    requires forall i :: 0 <= i < |ms| ==> ms[i].sessionId != sid
    ensures MeasurementsOf(ms, sid) == []
  {
    if ms != [] {
      NoneOf(ms[..|ms| - 1], sid);
    }
  }

  /**
   * All or nothing: the upload succeeds exactly when it parses, its
   * measurements can be mapped, the session is valid and every measurement
   * is accepted, and a failed upload leaves the tables unchanged.
   */
  lemma CreateFromJsonAllOrNothing(db: Tables, raw: Option<map<string, JValue>>, photos: seq<Photo>,
                                   user: nat, token: string, accept: Sample -> bool)
    ensures var (r, id) := CreateFromJson(db, raw, photos, user, token, accept);
      && (id.Some? <==> UploadSucceeds(db, raw, photos, user, token, accept))
      && (id.None? ==> r == db)
  {
  }

  /**
   * A successful upload appends one session and one row per uploaded
   * measurement, in order, attached to the new session. The session is
   * valid among the old ones, carries the generated url token, counts its
   * measurements, and starts and ends at their earliest and latest times.
   */
  lemma CreateFromJsonSaves(db: Tables, raw: map<string, JValue>, photos: seq<Photo>,
                            user: nat, token: string, accept: Sample -> bool)
    requires Linked(db)
    requires UploadSucceeds(db, Some(raw), photos, user, token, accept)
    ensures var res := CreateFromJson(db, Some(raw), photos, user, token, accept);
      var r := res.0;
      var samples := UploadedSamples(raw).value;
      var sid := |db.sessions|;
      && res.1 == Some(sid)
      && r.sessions[..sid] == db.sessions && |r.sessions| == sid + 1
      && r.streams == db.streams
      && r.measurements == db.measurements + SessionRows(samples, sid)
      && SessionValid(r.sessions[sid], db.sessions)
      && r.sessions[sid].urlToken == Some(token) && r.sessions[sid].user == Some(user)
      && r.sessions[sid].measurementsCount == |samples|
      && SavedTimeframe(r.sessions[sid], samples)
  {
    var samples := UploadedSamples(raw).value;
    var s := UploadedSession(SymbolizeKeys(raw), photos, user, token);
    UploadResult(db, raw, photos, user, token, accept);
    SaveUploadSaves(db, s, samples);
  }

  /** A session's time frame is that of its samples: none without samples,
      else their earliest and latest times. */
  predicate SavedTimeframe(s: Session, samples: seq<Sample>) {
    && (samples == [] ==> s.startTime.None? && s.endTime.None?)
    && (samples != [] ==>
          && s.startTime.Some? && s.endTime.Some?
          && (forall i :: 0 <= i < |samples| ==> s.startTime.value <= samples[i].time <= s.endTime.value)
          && (exists i :: 0 <= i < |samples| && samples[i].time == s.startTime.value)
          && (exists i :: 0 <= i < |samples| && samples[i].time == s.endTime.value))
  }

  /** Saving appends the session, unchanged but for its count and time
      frame, and its rows; nothing else changes. */
  lemma SaveUploadSaves(db: Tables, s: Session, samples: seq<Sample>)
    requires Linked(db)
    ensures var r := SaveUpload(db, s, samples);
      var sid := |db.sessions|;
      && r.sessions[..sid] == db.sessions && |r.sessions| == sid + 1
      && r.streams == db.streams
      && r.measurements == db.measurements + SessionRows(samples, sid)
      && r.sessions[sid] == s.(measurementsCount := |samples|, startTime := r.sessions[sid].startTime,
                               endTime := r.sessions[sid].endTime)
      && SavedTimeframe(r.sessions[sid], samples)
  {
    var sid := |db.sessions|;
    forall i | 0 <= i < |db.measurements|
      ensures db.measurements[i].sessionId != sid
    {
      assert MeasurementLinked(db, db.measurements[i]);
    }
    RowsTimeframe(db.measurements, samples, sid);
    var r := SaveUpload(db, s, samples);
    assert r.sessions[..sid] == db.sessions;
  }

  /** The time frame of a new session is that of its uploaded samples:
      none without samples, else their earliest and latest times. */
  lemma RowsTimeframe(ms: seq<Measurement>, samples: seq<Sample>, sid: nat)
    requires forall i :: 0 <= i < |ms| ==> ms[i].sessionId != sid
    ensures var tf := SetTimeframe(MeasurementsOf(ms + SessionRows(samples, sid), sid));
      && (samples == [] ==> tf.start.None? && tf.end.None?)
      && (samples != [] ==>
            && tf.start.Some? && tf.end.Some?
            && (forall i :: 0 <= i < |samples| ==> tf.start.value <= samples[i].time <= tf.end.value)
            && (exists i :: 0 <= i < |samples| && samples[i].time == tf.start.value)
            && (exists i :: 0 <= i < |samples| && samples[i].time == tf.end.value))
  {
    var rows := SessionRows(samples, sid);
    MeasurementsOfNew(ms, rows, sid);
    assert forall i :: 0 <= i < |samples| ==> rows[i].time == samples[i].time;
  }

  /** A successful upload saves the session built from the object with its
      samples, under the next id. */
  lemma UploadResult(db: Tables, raw: map<string, JValue>, photos: seq<Photo>,
                     user: nat, token: string, accept: Sample -> bool)
    requires UploadSucceeds(db, Some(raw), photos, user, token, accept)
    ensures CreateFromJson(db, Some(raw), photos, user, token, accept)
         == (SaveUpload(db, UploadedSession(SymbolizeKeys(raw), photos, user, token), UploadedSamples(raw).value),
             Some(|db.sessions|))
  {
  }

  /** An upload keeps the store's invariant. The generated token must be
      unused, as the token generator guarantees. */
  lemma CreateFromJsonValid(db: Tables, raw: Option<map<string, JValue>>, photos: seq<Photo>,
                            user: nat, token: string, accept: Sample -> bool)
    requires TablesValid(db) && TokenUnused(db.sessions, token)
    ensures TablesValid(CreateFromJson(db, raw, photos, user, token, accept).0)
  {
    if UploadSucceeds(db, raw, photos, user, token, accept) {
      CreateFromJsonSaves(db, raw.value, photos, user, token, accept);
      UploadResult(db, raw.value, photos, user, token, accept);
      var samples := UploadedSamples(raw.value).value;
      var r := SaveUpload(db, UploadedSession(SymbolizeKeys(raw.value), photos, user, token), samples);
      var s := r.sessions[|db.sessions|];
      assert r == Tables(db.sessions + [s], db.streams, db.measurements + SessionRows(samples, |db.sessions|));
      assert RangeOrdered(s) by {
        if samples != [] {
          assert s.startTime.value <= samples[0].time <= s.endTime.value;
        }
      }
      SavedSessionValid(db, s, samples);
    } else {
      CreateFromJsonAllOrNothing(db, raw, photos, user, token, accept);
    }
  }

  /** Saving a valid new session with its rows keeps the invariant. */
  lemma SavedSessionValid(db: Tables, s: Session, samples: seq<Sample>)
    requires TablesValid(db) && SessionValid(s, db.sessions) && RangeOrdered(s)
    ensures TablesValid(Tables(db.sessions + [s], db.streams, db.measurements + SessionRows(samples, |db.sessions|)))
  {
    AddSessionValid(db, s);
    AttachRowsValid(AddSession(db, s), SessionRows(samples, |db.sessions|));
  }

  /** Attaching rows to an existing session, outside any stream, keeps the
      invariant. */
  lemma {:induction false} AttachRowsValid(db: Tables, rows: seq<Measurement>)
    requires TablesValid(db)
    requires forall i :: 0 <= i < |rows| ==> rows[i].sessionId < |db.sessions| && rows[i].streamId.None?
    ensures TablesValid(Tables(db.sessions, db.streams, db.measurements + rows))
  {
    if rows != [] {
      var init := rows[..|rows| - 1];
      var last := rows[|rows| - 1];
      AttachRowsValid(db, init);
      var mid := Tables(db.sessions, db.streams, db.measurements + init);
      AttachToSessionValid(mid, last);
      assert db.measurements + rows == (db.measurements + init) + [last];
    } else {
      assert db.measurements + rows == db.measurements;
    }
  }

  // ---------------------------------------------------------------------
  // sync
  // ---------------------------------------------------------------------

  /**
   * The data of a sync request. For the title and the description, None
   * is an absent key and Some(None) a null value; `tagList` is None when
   * absent or null; `notes` is None when absent or not a list.
   */
  datatype SyncData = SyncData(
    title: Option<Option<string>>,
    description: Option<Option<string>>,
    tagList: Option<string>,
    notes: Option<seq<SyncNote>>)

  /** The sessions other than `sid`, against which the uniqueness
      validations of session `sid` are checked. */
  function OtherSessions(sessions: seq<Session>, sid: nat): (r: seq<Session>)
    requires sid < |sessions|
    ensures |r| == |sessions| - 1
    ensures forall i :: 0 <= i < sid ==> r[i] == sessions[i]
    ensures forall i :: sid < i < |sessions| ==> r[i - 1] == sessions[i]
  {
    sessions[..sid] + sessions[sid + 1..]
  }

  /**
   * The session as `update_attributes(session_data, :as => :sync)` is about
   * to save it: the sync role's attributes assigned (title and description
   * when sent, the normalised tags always), then `set_url_token` before
   * validation, with `token` the generated token.
   */
  function SyncAttributes(s: Session, data: SyncData, token: string): (a: Session)
    ensures a.title == data.title.GetOr(s.title) && a.description == data.description.GetOr(s.description)
    ensures a.tagList == NormalizeTags(data.tagList)
    ensures a.urlToken == if s.urlToken.None? then Some(token) else s.urlToken
    ensures a == s.(title := a.title, description := a.description, tagList := a.tagList, urlToken := a.urlToken)
  {
    SetUrlToken(s.(title := data.title.GetOr(s.title),
                   description := data.description.GetOr(s.description),
                   tagList := NormalizeTags(data.tagList)), token)
  }

  /**
   * The session after `sync`, or None when the sync fails and its
   * transaction is rolled back: the notes are missing or the update loop
   * meets a number no note has. `update_attributes` saves the assigned
   * attributes only when the session then passes its validations among
   * `others`; otherwise it returns false, nothing of the row changes, and
   * the transaction goes on to reconcile the notes all the same.
   */
  function SyncSession(s: Session, others: seq<Session>, token: string, data: SyncData): Option<Session> {
    if data.notes.None? then None
    else
      match ReconcileNotes(s.notes, data.notes.value)
      case None => None
      case Some(notes) =>
        var a := SyncAttributes(s, data, token);
        Some((if SessionValid(a, others) then a else s).(notes := notes))
  }

  /** A sync fails exactly when the notes are missing, or every incoming
      note has a number key, every note has a number and some incoming number
      names no note. */
  lemma SyncFailsIff(s: Session, others: seq<Session>, token: string, data: SyncData)
    ensures SyncSession(s, others, token, data).None? <==>
      || data.notes.None?
      || (&& AllHaveNumberKey(data.notes.value) && AllNumbered(s.notes)
          && exists i :: 0 <= i < |data.notes.value| &&
               forall j :: 0 <= j < |s.notes| ==> s.notes[j].number != KeyNumber(data.notes.value[i].key))
  {
    if data.notes.Some? {
      ReconcileFailsIff(s.notes, data.notes.value);
    }
  }

  /**
   * A successful sync always stores the reconciled notes. When the session
   * with the assigned attributes is valid, it is saved: the title and the
   * description take the sent values and are kept unless sent, the tags are
   * stored normalised (normalising again changes nothing), a missing url
   * token is set; nothing else changes. When it is not valid, every
   * attribute of the row stays as it was.
   */
  lemma SyncKeepsTheRest(s: Session, others: seq<Session>, token: string, data: SyncData)
    requires SyncSession(s, others, token, data).Some?
    ensures var r := SyncSession(s, others, token, data).value;
      && r.notes == ReconcileNotes(s.notes, data.notes.value).value
      && r.user == s.user && r.uuid == s.uuid
      && r.calibration == s.calibration && r.offset60Db == s.offset60Db
      && r.startTime == s.startTime && r.endTime == s.endTime
      && r.measurementsCount == s.measurementsCount && r.contribute == s.contribute
      && (data.title.None? ==> r.title == s.title)
      && (data.description.None? ==> r.description == s.description)
    ensures var r := SyncSession(s, others, token, data).value;
      SessionValid(SyncAttributes(s, data, token), others) ==>
      && SessionValid(r, others)
      && (data.title.Some? ==> r.title == data.title.value)
      && (data.description.Some? ==> r.description == data.description.value)
      && NormalizeTags(Some(r.tagList)) == r.tagList
      && r.tagList == NormalizeTags(data.tagList)
      && r.urlToken == (if s.urlToken.None? then Some(token) else s.urlToken)
      && r == s.(title := r.title, description := r.description, tagList := r.tagList,
                 urlToken := r.urlToken, notes := r.notes)
    ensures var r := SyncSession(s, others, token, data).value;
      !SessionValid(SyncAttributes(s, data, token), others) ==> r == s.(notes := r.notes)
  {
    NormalizeTagsIdempotent(data.tagList);
  }

  /** A session without a uuid never passes validation, so a sync keeps its
      title whatever is sent, and still reconciles its notes: an empty
      incoming list removes them. */
  lemma SyncWithoutUuid(s: Session, others: seq<Session>, token: string)
    requires s.uuid.None?
    ensures SyncSession(s, others, token, SyncData(Some(Some("x")), None, None, Some([])))
            == Some(s.(notes := []))
  {
    ReconcileEmpty(s.notes);
  }

  /** Replacing a session keeps the store's invariant when the new row's
      keys differ from those of every other session. */
  lemma ReplaceSessionValid(db: Tables, sid: nat, s: Session)
    requires TablesValid(db) && sid < |db.sessions| && RangeOrdered(s)
    requires forall i :: 0 <= i < |db.sessions| && i != sid ==>
      KeysDiffer(s, db.sessions[i]) && KeysDiffer(db.sessions[i], s)
    ensures TablesValid(UpdateSession(db, sid, s))
  {
    var db' := UpdateSession(db, sid, s);
    forall i | 0 <= i < |db'.measurements|
      ensures MeasurementLinked(db', db'.measurements[i])
    {
      assert MeasurementLinked(db, db.measurements[i]);
    }
    forall i, j | 0 <= i < |db'.sessions| && 0 <= j < |db'.sessions| && i != j
      ensures KeysDiffer(db'.sessions[i], db'.sessions[j])
    {
      if i != sid && j != sid {
        assert KeysDiffer(db.sessions[i], db.sessions[j]);
      }
    }
  }

  /** A sync keeps the store's invariant: a saved session passed the
      uniqueness validations against the other sessions. */
  lemma SyncValid(db: Tables, sid: nat, token: string, data: SyncData)
    requires TablesValid(db) && sid < |db.sessions|
    requires SyncSession(db.sessions[sid], OtherSessions(db.sessions, sid), token, data).Some?
    ensures TablesValid(UpdateSession(db, sid,
              SyncSession(db.sessions[sid], OtherSessions(db.sessions, sid), token, data).value))
  {
    var s := db.sessions[sid];
    var others := OtherSessions(db.sessions, sid);
    var r := SyncSession(s, others, token, data).value;
    SyncKeepsTheRest(s, others, token, data);
    assert RangeOrdered(s);
    if SessionValid(SyncAttributes(s, data, token), others) {
      forall i | 0 <= i < |db.sessions| && i != sid
        ensures KeysDiffer(r, db.sessions[i]) && KeysDiffer(db.sessions[i], r)
      {
        var k := if i < sid then i else i - 1;
        assert others[k] == db.sessions[i];
      }
      ReplaceSessionValid(db, sid, r);
    } else {
      UpdateSessionValid(db, sid, r);
    }
  }
}
