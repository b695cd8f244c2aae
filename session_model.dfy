/**
 * The value-level logic of the `Session` model (app/models/session.rb):
 * pairing notes with photos, the bounding box and time frame of a
 * session's measurements, the validity rule, building a session from the
 * uploaded JSON object, and the notes reconciliation rule of `sync`.
 */
module SessionModel {
  import opened Wrappers
  import opened Tags
  import opened Aggregates
  import opened Records

  // ---------------------------------------------------------------------
  // Notes and photos (`prepare_notes`)
  // ---------------------------------------------------------------------

  /** The attributes of one uploaded note. */
  datatype NoteAttrs = NoteAttrs(number: Option<int>, text: string)

  /** `notes.zip(photos)`: the i-th note gets the i-th photo, or none. */
  function ZipPhotos(notes: seq<NoteAttrs>, photos: seq<Photo>): (r: seq<Note>)
    ensures |r| == |notes|
    ensures forall i :: 0 <= i < |notes| ==>
      r[i] == Note(notes[i].number, notes[i].text, if i < |photos| then Some(photos[i]) else None)
  {
    if notes == [] then []
    else
      var photo := if photos == [] then None else Some(photos[0]);
      var later := if photos == [] then [] else photos[1..];
      var rest := ZipPhotos(notes[1..], later);
      assert forall i :: 1 <= i < |notes| ==>
        (if i - 1 < |later| then Some(later[i - 1]) else None) == (if i < |photos| then Some(photos[i]) else None);
      [Note(notes[0].number, notes[0].text, photo)] + rest
  }

  /** `Session.prepare_notes`: missing notes count as none. */
  function PrepareNotes(notes: Option<seq<NoteAttrs>>, photos: seq<Photo>): (r: seq<Note>)
    ensures notes.None? ==> r == []
    ensures |r| == |notes.GetOr([])|
    ensures forall i :: 0 <= i < |r| ==>
      && r[i].number == notes.value[i].number
      && r[i].text == notes.value[i].text
      && r[i].photo == (if i < |photos| then Some(photos[i]) else None)
  {
    ZipPhotos(notes.GetOr([]), photos)
  }

  // ---------------------------------------------------------------------
  // A session's measurements, bounding box and time frame
  // ---------------------------------------------------------------------

  /** The measurements that belong to session `sid`, in insertion order. */
  function MeasurementsOf(ms: seq<Measurement>, sid: nat): (r: seq<Measurement>)
    ensures |r| <= |ms|
    ensures forall m :: m in r <==> m in ms && m.sessionId == sid
  {
    if ms == [] then []
    else
      var init := MeasurementsOf(ms[..|ms| - 1], sid);
      var last := ms[|ms| - 1];
      assert ms == ms[..|ms| - 1] + [last];
      if last.sessionId == sid then init + [last] else init
  }

  lemma MeasurementsOfAppend(ms: seq<Measurement>, m: Measurement, sid: nat)
    ensures MeasurementsOf(ms + [m], sid) == MeasurementsOf(ms, sid) + (if m.sessionId == sid then [m] else [])
  {
    assert (ms + [m])[..|ms|] == ms;
  }

  /** `west`: the least longitude, `0` (nil.to_f) for a session without measurements. */
  function West(ms: seq<Measurement>): (w: int)
    ensures ms == [] ==> w == 0
    ensures ms != [] ==> (exists i :: 0 <= i < |ms| && ms[i].longitude == w)
    ensures forall i :: 0 <= i < |ms| ==> w <= ms[i].longitude
  {
    if ms == [] then 0 else MinOf(Longitudes(ms))
  }

  /** `east`: the greatest longitude. */
  function East(ms: seq<Measurement>): (e: int)
    ensures ms == [] ==> e == 0
    ensures ms != [] ==> (exists i :: 0 <= i < |ms| && ms[i].longitude == e)
    ensures forall i :: 0 <= i < |ms| ==> ms[i].longitude <= e
  {
    if ms == [] then 0 else MaxOf(Longitudes(ms))
  }

  /** `north`: the greatest latitude. */
  function North(ms: seq<Measurement>): (n: int)
    ensures ms == [] ==> n == 0
    ensures ms != [] ==> (exists i :: 0 <= i < |ms| && ms[i].latitude == n)
    ensures forall i :: 0 <= i < |ms| ==> ms[i].latitude <= n
  {
    if ms == [] then 0 else MaxOf(Latitudes(ms))
  }

  /** `south`: the least latitude. */
  function South(ms: seq<Measurement>): (s: int)
    ensures ms == [] ==> s == 0
    ensures ms != [] ==> (exists i :: 0 <= i < |ms| && ms[i].latitude == s)
    ensures forall i :: 0 <= i < |ms| ==> s <= ms[i].latitude
  {
    if ms == [] then 0 else MinOf(Latitudes(ms))
  }

  /** The bounding box of a session is never inverted. */
  lemma BoundingBoxOrdered(ms: seq<Measurement>)
    ensures West(ms) <= East(ms)
    ensures South(ms) <= North(ms)
  {
    if ms != [] {
      assert West(ms) <= ms[0].longitude <= East(ms);
      assert South(ms) <= ms[0].latitude <= North(ms);
    }
  }

  /** `set_timeframe`: the earliest and the latest measurement time, both
      nil (SQL NULL) when there is no measurement. */
  datatype Timeframe = Timeframe(start: Option<int>, end: Option<int>)

  function SetTimeframe(ms: seq<Measurement>): (r: Timeframe)
    ensures r.start.Some? <==> ms != []
    ensures r.end.Some? <==> ms != []
    ensures ms != [] ==> (exists i :: 0 <= i < |ms| && ms[i].time == r.start.value)
    ensures ms != [] ==> (exists i :: 0 <= i < |ms| && ms[i].time == r.end.value)
    ensures ms != [] ==> forall i :: 0 <= i < |ms| ==> r.start.value <= ms[i].time <= r.end.value
  {
    if ms == [] then Timeframe(None, None)
    else Timeframe(Some(MinOf(Times(ms))), Some(MaxOf(Times(ms))))
  }

  /** A session with measurements starts no later than it ends. */
  lemma TimeframeOrdered(ms: seq<Measurement>)
    requires ms != []
    ensures SetTimeframe(ms).start.value <= SetTimeframe(ms).end.value
  {
    assert SetTimeframe(ms).start.value <= ms[0].time;
  }

  // ---------------------------------------------------------------------
  // Validation
  // ---------------------------------------------------------------------

  /** `presence: true` on a string column: present and not blank. */
  predicate Present(s: Option<string>) {
    s.Some? && !Blank(s.value)
  }

  /**
   * The validations of a session about to be saved among `others`: user,
   * uuid, url_token, calibration and offset_60_db are present,
   * offset_60_db lies in -5..5, and no other session has the same
   * url_token or uuid.
   */
  predicate SessionValid(s: Session, others: seq<Session>) {
    && s.user.Some?
    && Present(s.uuid)
    && Present(s.urlToken)
    && s.calibration.Some?
    && s.offset60Db.Some?
    && -5 <= s.offset60Db.value <= 5
    && forall i :: 0 <= i < |others| ==> others[i].uuid != s.uuid && others[i].urlToken != s.urlToken
  }

  /** `before_validation :set_url_token, unless: :url_token`: a token is
      assigned only when there is none (an empty string is kept). */
  function SetUrlToken(s: Session, token: string): (r: Session)
    ensures s.urlToken.None? ==> r.urlToken == Some(token)
    ensures s.urlToken.Some? ==> r == s
    ensures r == s.(urlToken := r.urlToken)
  {
    if s.urlToken.None? then s.(urlToken := Some(token)) else s
  }

  /** A token is used by no session of `sessions`. */
  predicate TokenUnused(sessions: seq<Session>, token: string) {
    forall i :: 0 <= i < |sessions| ==> sessions[i].urlToken != Some(token)
  }

  /**
   * Once a fresh, non-blank token has been assigned to a session without
   * one, the session is valid exactly when it has a user, a present uuid
   * that no other session has, a calibration, and an offset_60_db within
   * -5..5.
   */
  lemma ValidWithFreshToken(s: Session, others: seq<Session>, token: string)
    requires s.urlToken.None? && TokenUnused(others, token) && !Blank(token)
    ensures SessionValid(SetUrlToken(s, token), others) <==>
      && s.user.Some? && Present(s.uuid) && s.calibration.Some? && s.offset60Db.Some?
      && -5 <= s.offset60Db.value <= 5
      && forall i :: 0 <= i < |others| ==> others[i].uuid != s.uuid
  {
  }

  // ---------------------------------------------------------------------
  // The uploaded JSON object (`build_from_json`)
  // ---------------------------------------------------------------------

  /** A hash key: a string, or a symbol after `symbolize_keys!`. */
  datatype Key = Str(name: string) | Sym(name: string)

  /** The values that occur in the uploaded JSON object. */
  datatype JValue =
    | JNull
    | JText(text: string)
    | JNumber(number: int)
    | JBool(flag: bool)
    | JNotes(notes: seq<NoteAttrs>)
    | JSamples(samples: seq<Sample>)

  /** `symbolize_keys!` on the string-keyed hash that `JSON.parse` returns. */
  function SymbolizeKeys(h: map<string, JValue>): (r: map<Key, JValue>)
    ensures forall k :: k in h ==> Sym(k) in r && r[Sym(k)] == h[k]
    ensures forall k :: Sym(k) in r ==> k in h
    ensures forall k :: Str(k) !in r
  {
    map k | k in h :: Sym(k) := h[k]
  }

  function Lookup(h: map<Key, JValue>, k: Key): Option<JValue> {
    if k in h then Some(h[k]) else None
  }

  function TextAt(h: map<Key, JValue>, k: Key): Option<string> {
    if k in h && h[k].JText? then Some(h[k].text) else None
  }

  function NumberAt(h: map<Key, JValue>, k: Key): Option<int> {
    if k in h && h[k].JNumber? then Some(h[k].number) else None
  }

  /** The tag text removed from the hash (nil unless a string). */
  function TagText(v: Option<JValue>): Option<string> {
    if v.Some? && v.value.JText? then Some(v.value.text) else None
  }

  /** The notes removed from the hash (nil unless a list of notes). */
  function NotesValue(v: Option<JValue>): Option<seq<NoteAttrs>> {
    if v.Some? && v.value.JNotes? then Some(v.value.notes) else None
  }

  /**
   * `user.sessions.new(...)`: mass assignment of the accessible attributes
   * of the hash; other keys are dropped, the time frame is unset and the
   * measurement counter starts at zero.
   */
  function NewSession(h: map<Key, JValue>, user: nat, tagList: string, notes: seq<Note>): Session {
    Session(
      user := Some(user),
      uuid := TextAt(h, Sym("uuid")),
      urlToken := None,
      title := TextAt(h, Sym("title")),
      description := TextAt(h, Sym("description")),
      tagList := tagList,
      contribute := Sym("contribute") in h && h[Sym("contribute")] == JBool(true),
      isIndoor := false,
      calibration := NumberAt(h, Sym("calibration")),
      offset60Db := NumberAt(h, Sym("offset_60_db")),
      startTime := None,
      endTime := None,
      startTimeLocal := None,
      endTimeLocal := None,
      lastMeasurementAt := None,
      latitude := None,
      longitude := None,
      measurementsCount := 0,
      notes := notes,
      dataType := TextAt(h, Sym("data_type")),
      instrument := TextAt(h, Sym("instrument")))
  }

  /**
   * `build_from_json` AS WRITTEN, applied to the hash that `create_from_json`
   * has symbolised: it removes `'tag_list'` and `"notes"` by string key,
   * which finds nothing in a symbol-keyed hash.
   */
  function BuildFromJsonAsWritten(h: map<Key, JValue>, photos: seq<Photo>, user: nat): (r: Session)
    ensures r.user == Some(user) && r.urlToken.None? && r.uuid == TextAt(h, Sym("uuid"))
    ensures r.startTime.None? && r.endTime.None? && r.measurementsCount == 0
    ensures Str("tag_list") !in h ==> r.tagList == []
    ensures Str("notes") !in h ==> r.notes == []
  {
    var tags := NormalizeTags(TagText(Lookup(h, Str("tag_list"))));
    var notes := PrepareNotes(NotesValue(Lookup(h, Str("notes"))), photos);
    NewSession(h, user, tags, notes)
  }

  /** `build_from_json` as evidently intended: the tag text and the notes are
      taken from the keys that the symbolised hash actually has. */
  function BuildFromJson(h: map<Key, JValue>, photos: seq<Photo>, user: nat): (r: Session)
    ensures r.user == Some(user) && r.urlToken.None? && r.uuid == TextAt(h, Sym("uuid"))
    ensures r.startTime.None? && r.endTime.None? && r.measurementsCount == 0
    ensures NormalizeTags(Some(r.tagList)) == r.tagList
    ensures |r.notes| == |NotesValue(Lookup(h, Sym("notes"))).GetOr([])|
  {
    NormalizeTagsIdempotent(TagText(Lookup(h, Sym("tag_list"))));
    var tags := NormalizeTags(TagText(Lookup(h, Sym("tag_list"))));
    var notes := PrepareNotes(NotesValue(Lookup(h, Sym("notes"))), photos);
    NewSession(h, user, tags, notes)
  }

  /** As written, every session created from JSON loses its tags and notes. */
  lemma AsWrittenDropsTagsAndNotes(raw: map<string, JValue>, photos: seq<Photo>, user: nat)
    ensures BuildFromJsonAsWritten(SymbolizeKeys(raw), photos, user).tagList == []
    ensures BuildFromJsonAsWritten(SymbolizeKeys(raw), photos, user).notes == []
  {
    assert Str("tag_list") !in SymbolizeKeys(raw);
    assert Str("notes") !in SymbolizeKeys(raw);
  }

  /** The text `"a b"` splits into the pieces `"a"` and `"b"`. */
  lemma PiecesAB()
    ensures Pieces("a b") == ["a", "b"]
  {
    assert "a" + [' '] + "b" == "a b";
    PiecesAround("a", ' ', "b");
    PiecesOfPlain("a");
    PiecesOfPlain("b");
  }

  /** The tag text `"a b"` normalises to `"a,b"`. */
  lemma NormalizeAB()
    ensures NormalizeTags(Some("a b")) == "a,b"
  {
    PiecesAB();
    assert !Blank("a") && !Blank("b");
    NonBlankOfTags(["a", "b"]);
    assert TagsOf("a b") == ["a", "b"];
    assert Join(["a", "b"]) == "a,b";
  }

  /** The tag text the intended definition reads is the one under the
      symbol key. */
  lemma BuildFromJsonTagList(h: map<Key, JValue>, photos: seq<Photo>, user: nat, text: string)
    requires Sym("tag_list") in h && h[Sym("tag_list")] == JText(text)
    ensures BuildFromJson(h, photos, user).tagList == NormalizeTags(Some(text))
  {
  }

  /** A concrete upload that shows it: tags `"a b"` are lost as written and
      kept as `"a,b"` by the intended definition. */
  lemma AsWrittenCounterexample()
    ensures var raw := map["tag_list" := JText("a b")];
            && BuildFromJsonAsWritten(SymbolizeKeys(raw), [], 0).tagList == []
            && BuildFromJson(SymbolizeKeys(raw), [], 0).tagList == "a,b"
  {
    AsWrittenDropsTagsAndNotes(map["tag_list" := JText("a b")], [], 0);
    IntendedKeepsAB();
  }

  /** The intended half of the counterexample. */
  lemma IntendedKeepsAB()
    ensures BuildFromJson(SymbolizeKeys(map["tag_list" := JText("a b")]), [], 0).tagList == "a,b"
  {
    var raw := map["tag_list" := JText("a b")];
    var h := SymbolizeKeys(raw);
    assert "tag_list" in raw;
    BuildFromJsonTagList(h, [], 0, "a b");
    NormalizeAB();
  }

  /** Intended behaviour: the session keeps the normalised submitted tags and
      one note per submitted note, paired with the photos in order. */
  lemma BuildFromJsonKeepsTagsAndNotes(raw: map<string, JValue>, photos: seq<Photo>, user: nat)
    ensures var s := BuildFromJson(SymbolizeKeys(raw), photos, user);
      && ("tag_list" in raw && raw["tag_list"].JText? ==> s.tagList == NormalizeTags(Some(raw["tag_list"].text)))
      && ("notes" in raw && raw["notes"].JNotes? ==>
            && |s.notes| == |raw["notes"].notes|
            && forall i :: 0 <= i < |s.notes| ==>
                 s.notes[i].number == raw["notes"].notes[i].number
                 && s.notes[i].text == raw["notes"].notes[i].text
                 && s.notes[i].photo == (if i < |photos| then Some(photos[i]) else None))
  {
  }

  // ---------------------------------------------------------------------
  // Notes reconciliation (`sync`)
  // ---------------------------------------------------------------------

  /** The `:number` entry of an incoming note: absent, nil, or a number. */
  datatype NoteKey = NoNumberKey | NullNumber | Number(n: int)

  datatype SyncNote = SyncNote(key: NoteKey, text: string)

  /** The number an incoming note asks for (`note_data[:number]`). */
  function KeyNumber(k: NoteKey): Option<int> {
    if k.Number? then Some(k.n) else None
  }

  /** Every incoming note has a `:number` key (`n.include? :number`). */
  predicate AllHaveNumberKey(ds: seq<SyncNote>) {
    forall i :: 0 <= i < |ds| ==> !ds[i].key.NoNumberKey?
  }

  /** Every existing note has a number. */
  predicate AllNumbered(notes: seq<Note>) {
    forall j :: 0 <= j < |notes| ==> notes[j].number.Some?
  }

  /** `notes.find_by_number(n)`: the first note with that number. */
  function FindByNumber(notes: seq<Note>, n: Option<int>): (k: Option<nat>)
    ensures k.Some? ==> k.value < |notes| && notes[k.value].number == n
    ensures k.Some? ==> forall j :: 0 <= j < k.value ==> notes[j].number != n
    ensures k.None? ==> forall j :: 0 <= j < |notes| ==> notes[j].number != n
  {
    if notes == [] then None
    else if notes[0].number == n then Some(0)
    else
      var k := FindByNumber(notes[1..], n);
      if k.None? then None else Some(k.value + 1)
  }

  /** `note.update_attributes(note_data)`. */
  function UpdateNote(note: Note, d: SyncNote): Note {
    note.(number := KeyNumber(d.key), text := d.text)
  }

  /** One step of the update loop; a note that is not found fails the
      whole `sync` (a method call on nil). */
  function UpdateOne(notes: seq<Note>, d: SyncNote): (r: Option<seq<Note>>)
    ensures r.Some? <==> FindByNumber(notes, KeyNumber(d.key)).Some?
    ensures r.Some? ==>
      var k := FindByNumber(notes, KeyNumber(d.key)).value;
      && |r.value| == |notes|
      && r.value[k] == notes[k].(text := d.text)
      && forall j :: 0 <= j < |notes| && j != k ==> r.value[j] == notes[j]
  {
    match FindByNumber(notes, KeyNumber(d.key))
    case None => None
    case Some(k) => Some(notes[k := UpdateNote(notes[k], d)])
  }

  /** The update loop over the incoming notes, in order. */
  function ApplyNoteUpdates(notes: seq<Note>, ds: seq<SyncNote>): Option<seq<Note>>
    decreases |ds|
  {
    if ds == [] then Some(notes)
    else
      match ApplyNoteUpdates(notes, ds[..|ds| - 1])
      case None => None
      case Some(cur) => UpdateOne(cur, ds[|ds| - 1])
  }

  /** The text of the last incoming note that asks for number `n`. */
  function LastText(ds: seq<SyncNote>, n: Option<int>): (r: Option<string>)
    ensures r.None? <==> forall i :: 0 <= i < |ds| ==> KeyNumber(ds[i].key) != n
    ensures r.Some? ==> exists i :: 0 <= i < |ds| && KeyNumber(ds[i].key) == n && ds[i].text == r.value
    decreases |ds|
  {
    if ds == [] then None
    else if KeyNumber(ds[|ds| - 1].key) == n then Some(ds[|ds| - 1].text)
    else
      var init := ds[..|ds| - 1];
      assert forall i :: 0 <= i < |init| ==> init[i] == ds[i];
      LastText(init, n)
  }

  /**
   * What the update loop makes of note `j`: the first note with a given
   * number takes the text of the last incoming note with that number; a
   * later note with the same number, or one no incoming note asks for, is
   * left alone.
   */
  function Updated(notes: seq<Note>, ds: seq<SyncNote>, j: nat): Note
    requires j < |notes|
  {
    var t := LastText(ds, notes[j].number);
    if FindByNumber(notes, notes[j].number) == Some(j) && t.Some? then notes[j].(text := t.value)
    else notes[j]
  }

  /** The notes after a successful update loop, note by note. */
  function UpdatedNotes(notes: seq<Note>, ds: seq<SyncNote>): (r: seq<Note>)
    ensures |r| == |notes|
  {
    seq(|notes|, j requires 0 <= j < |notes| => Updated(notes, ds, j))
  }

  /** `find_by_number` only looks at the numbers. */
  lemma FindSameNumbers(a: seq<Note>, b: seq<Note>, n: Option<int>)
    requires |a| == |b| && forall j :: 0 <= j < |a| ==> a[j].number == b[j].number
    ensures FindByNumber(a, n) == FindByNumber(b, n)
  {
    var ka, kb := FindByNumber(a, n), FindByNumber(b, n);
    if ka.Some? {
      assert b[ka.value].number == n;
    }
    if kb.Some? {
      assert a[kb.value].number == n;
    }
  }

  /** Once an update fails, the loop has failed: a failure on a prefix of
      the incoming notes is a failure of the whole list. */
  lemma {:induction false} UpdatesFailFromPrefix(notes: seq<Note>, ds: seq<SyncNote>, k: nat)
    requires k <= |ds| && ApplyNoteUpdates(notes, ds[..k]).None?
    ensures ApplyNoteUpdates(notes, ds).None?
  {
    if k < |ds| {
      var init := ds[..|ds| - 1];
      assert init[..k] == ds[..k];
      UpdatesFailFromPrefix(notes, init, k);
    } else {
      assert ds[..k] == ds;
    }
  }

  /** The numbers the incoming notes carry. */
  function IncomingNumbers(ds: seq<SyncNote>): set<int> {
    set i | 0 <= i < |ds| && ds[i].key.Number? :: ds[i].key.n
  }

  /** `where("number NOT IN (?)", ...).destroy_all`: keep the notes whose
      number is among `nums`. */
  function KeepNumbers(notes: seq<Note>, nums: set<int>): (r: seq<Note>)
    ensures |r| <= |notes|
    ensures forall j :: 0 <= j < |r| ==> r[j] in notes && r[j].number.Some? && r[j].number.value in nums
    ensures forall j :: 0 <= j < |notes| && notes[j].number.Some? && notes[j].number.value in nums ==> notes[j] in r
  {
    if notes == [] then []
    else
      var rest := KeepNumbers(notes[1..], nums);
      assert forall n :: n in notes[1..] ==> n in notes;
      if notes[0].number.Some? && notes[0].number.value in nums then [notes[0]] + rest else rest
  }

  /** Destroying notes removes every copy of a note whose number is not
      among `nums` and keeps every copy of the others. */
  lemma {:induction false} KeepNumbersCounts(notes: seq<Note>, nums: set<int>)
    ensures forall n :: multiset(KeepNumbers(notes, nums))[n] ==
                          if n.number.Some? && n.number.value in nums then multiset(notes)[n] else 0
  {
    if notes != [] {
      KeepNumbersCounts(notes[1..], nums);
      assert notes == [notes[0]] + notes[1..];
    }
  }

  /** Destroying notes keeps the survivors in their order: the filter
      distributes over concatenation. */
  lemma {:induction false} KeepNumbersAppend(a: seq<Note>, b: seq<Note>, nums: set<int>)
    ensures KeepNumbers(a + b, nums) == KeepNumbers(a, nums) + KeepNumbers(b, nums)
  {
    if a != [] {
      var ab := a + b;
      assert ab[0] == a[0] && ab[1..] == a[1..] + b;
      KeepNumbersAppend(a[1..], b, nums);
      var keep := a[0].number.Some? && a[0].number.value in nums;
      assert KeepNumbers(ab, nums) == (if keep then [a[0]] else []) + KeepNumbers(a[1..] + b, nums);
      assert KeepNumbers(a, nums) == (if keep then [a[0]] else []) + KeepNumbers(a[1..], nums);
    } else {
      assert a + b == b;
    }
  }

  /** `Note.new(n)` for each incoming note. */
  function NewNotes(ds: seq<SyncNote>): (r: seq<Note>)
    ensures |r| == |ds|
    ensures forall i :: 0 <= i < |ds| ==> r[i] == Note(KeyNumber(ds[i].key), ds[i].text, None)
  {
    if ds == [] then [] else [Note(KeyNumber(ds[0].key), ds[0].text, None)] + NewNotes(ds[1..])
  }

  /**
   * The notes of a session after `sync`, or None when the update loop fails.
   * When every incoming note has a number key and every existing note has a
   * number, matching notes are updated and the others destroyed (all of them
   * for an empty incoming list); otherwise the notes are replaced.
   */
  function ReconcileNotes(existing: seq<Note>, ds: seq<SyncNote>): Option<seq<Note>> {
    if AllHaveNumberKey(ds) && AllNumbered(existing) then
      match ApplyNoteUpdates(existing, ds)
      case None => None
      case Some(updated) => Some(if ds == [] then [] else KeepNumbers(updated, IncomingNumbers(ds)))
    else Some(NewNotes(ds))
  }

  /** The update loop changes only texts: it keeps the length, the numbers
      and the photos of the notes. */
  /** The effect of a successful update loop: every note is as `Updated`
      describes it. */
  lemma {:induction false} UpdatesTexts(notes: seq<Note>, ds: seq<SyncNote>)
    requires ApplyNoteUpdates(notes, ds).Some?
    ensures ApplyNoteUpdates(notes, ds).value == UpdatedNotes(notes, ds)
  {
    var want := UpdatedNotes(notes, ds);
    if ds == [] {
      assert forall j :: 0 <= j < |notes| ==> want[j] == notes[j];
    } else {
      var init := ds[..|ds| - 1];
      var d := ds[|ds| - 1];
      var cur := ApplyNoteUpdates(notes, init).value;
      UpdatesTexts(notes, init);
      UpdatesKeepShape(notes, init);
      FindSameNumbers(cur, notes, KeyNumber(d.key));
      var k := FindByNumber(notes, KeyNumber(d.key)).value;
      var u := ApplyNoteUpdates(notes, ds).value;
      assert u == UpdateOne(cur, d).value;
      forall j | 0 <= j < |notes|
        ensures u[j] == want[j]
      {
        if j == k {
          assert LastText(ds, notes[j].number) == Some(d.text);
        } else if notes[j].number == KeyNumber(d.key) {
          assert FindByNumber(notes, notes[j].number) != Some(j);
        } else {
          assert LastText(ds, notes[j].number) == LastText(init, notes[j].number);
        }
      }
    }
  }

  lemma {:induction false} UpdatesKeepShape(notes: seq<Note>, ds: seq<SyncNote>)
    requires ApplyNoteUpdates(notes, ds).Some?
    ensures var u := ApplyNoteUpdates(notes, ds).value;
      && |u| == |notes|
      && forall j :: 0 <= j < |notes| ==> u[j].number == notes[j].number && u[j].photo == notes[j].photo
  {
    if ds != [] {
      UpdatesKeepShape(notes, ds[..|ds| - 1]);
    }
  }

  /** The update loop succeeds exactly when every incoming number names an
      existing note. */
  lemma {:induction false} UpdatesSucceedIff(notes: seq<Note>, ds: seq<SyncNote>)
    ensures ApplyNoteUpdates(notes, ds).Some? <==>
      forall i :: 0 <= i < |ds| ==> exists j :: 0 <= j < |notes| && notes[j].number == KeyNumber(ds[i].key)
  {
    if ds != [] {
      var init := ds[..|ds| - 1];
      var d := ds[|ds| - 1];
      UpdatesSucceedIff(notes, init);
      assert forall i :: 0 <= i < |init| ==> init[i] == ds[i];
      var prev := ApplyNoteUpdates(notes, init);
      if prev.Some? {
        UpdatesKeepShape(notes, init);
        var cur := prev.value;
        assert forall j :: 0 <= j < |notes| ==> cur[j].number == notes[j].number;
        if FindByNumber(cur, KeyNumber(d.key)).None? {
          assert !(exists j :: 0 <= j < |notes| && notes[j].number == KeyNumber(d.key));
        }
      }
    }
  }

  /** Numbered branch: the kept notes are exactly the existing notes whose
      number is among the incoming numbers, each with its photo. */
  lemma ReconcileNumbered(existing: seq<Note>, ds: seq<SyncNote>)
    requires AllHaveNumberKey(ds) && AllNumbered(existing) && ds != []
    requires ReconcileNotes(existing, ds).Some?
    ensures var r := ReconcileNotes(existing, ds).value;
      && |r| <= |existing|
      && (forall k :: 0 <= k < |r| ==> r[k].number.Some? && r[k].number.value in IncomingNumbers(ds))
      && (forall j :: 0 <= j < |existing| && existing[j].number.value in IncomingNumbers(ds) ==>
            exists k :: 0 <= k < |r| && r[k].number == existing[j].number && r[k].photo == existing[j].photo)
      && (forall j :: 0 <= j < |existing| && existing[j].number.value !in IncomingNumbers(ds) ==>
            forall k :: 0 <= k < |r| ==> r[k].number != existing[j].number)
      && r == KeepNumbers(UpdatedNotes(existing, ds), IncomingNumbers(ds))
      && (forall j :: 0 <= j < |existing| && existing[j].number.value in IncomingNumbers(ds) ==>
            Updated(existing, ds, j) in r)
  {
    var u := ApplyNoteUpdates(existing, ds).value;
    UpdatesKeepShape(existing, ds);
    UpdatesTexts(existing, ds);
    var r := ReconcileNotes(existing, ds).value;
    assert r == KeepNumbers(u, IncomingNumbers(ds));
    forall j | 0 <= j < |existing| && existing[j].number.value in IncomingNumbers(ds)
      ensures exists k :: 0 <= k < |r| && r[k].number == existing[j].number && r[k].photo == existing[j].photo
    {
      assert u[j] in r;
    }
  }

  /** A note that is sent again with a new text keeps its number and photo
      and takes the new text. */
  lemma ReconcileUpdatesText(photo: Option<Photo>)
    ensures ReconcileNotes([Note(Some(1), "old", photo)], [SyncNote(Number(1), "new")])
            == Some([Note(Some(1), "new", photo)])
  {
    var existing := [Note(Some(1), "old", photo)];
    var ds := [SyncNote(Number(1), "new")];
    assert ds[..|ds| - 1] == [];
    assert ApplyNoteUpdates(existing, []) == Some(existing);
    assert FindByNumber(existing, Some(1)) == Some(0);
    assert KeyNumber(ds[0].key) == Some(1);
    assert UpdateNote(existing[0], ds[0]) == Note(Some(1), "new", photo);
    assert existing[0 := Note(Some(1), "new", photo)] == [Note(Some(1), "new", photo)];
    assert UpdateOne(existing, ds[0]) == Some([Note(Some(1), "new", photo)]);
    assert ApplyNoteUpdates(existing, ds) == Some([Note(Some(1), "new", photo)]);
    assert ds[0].key.n == 1;
    assert 1 in IncomingNumbers(ds);
    var updated := [Note(Some(1), "new", photo)];
    assert KeepNumbers(updated[1..], IncomingNumbers(ds)) == [];
    assert KeepNumbers(updated, IncomingNumbers(ds)) == updated;
    assert AllHaveNumberKey(ds) && AllNumbered(existing);
  }

  /** Otherwise the incoming list replaces the notes, one new note each. */
  lemma ReconcileReplaces(existing: seq<Note>, ds: seq<SyncNote>)
    requires !(AllHaveNumberKey(ds) && AllNumbered(existing))
    ensures ReconcileNotes(existing, ds).Some?
    ensures |ReconcileNotes(existing, ds).value| == |ds|
    ensures forall i :: 0 <= i < |ds| ==>
      ReconcileNotes(existing, ds).value[i] == Note(KeyNumber(ds[i].key), ds[i].text, None)
  {
  }

  /** An empty incoming list removes every note, on both branches. */
  lemma ReconcileEmpty(existing: seq<Note>)
    ensures ReconcileNotes(existing, []) == Some([])
  {
  }

  /** Reconciliation fails exactly on the numbered branch when some incoming
      number names no existing note. */
  lemma ReconcileFailsIff(existing: seq<Note>, ds: seq<SyncNote>)
    ensures ReconcileNotes(existing, ds).None? <==>
      && AllHaveNumberKey(ds) && AllNumbered(existing)
      && exists i :: 0 <= i < |ds| && forall j :: 0 <= j < |existing| ==> existing[j].number != KeyNumber(ds[i].key)
  {
    UpdatesSucceedIff(existing, ds);
  }
}
