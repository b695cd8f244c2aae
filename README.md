# AirCasting sessions and measurement ingestion, in Dafny

AirCasting stores air-quality data in three tables:

- **Sessions:** one recording, owned by a user.
- **Streams:** one sensor channel of a session. A stream carries running aggregates: the count, the mean value, the bounding box and the starting point.
- **Measurements:** one sample each.

This project models three parts of the system and proves what they promise:

- **The logic of the `Session` model** (`app/models/session.rb`):
  - tag normalisation;
  - pairing notes with photos;
  - the time frame and the bounding box of a session's measurements;
  - the validations and the url token;
  - `create_from_json`, which saves an uploaded session with all of its measurements or nothing;
  - `sync`, which reconciles a session's notes with the notes a phone sends.
- **The PurpleAir bulk import** (`PurpleAir::ImportMeasurements`), as its RSpec examples pin it down:
  - a reading whose exact point is where an existing PurpleAir stream started is appended to that stream;
  - a later reading moves the session's end of range and renames the session;
  - any other reading creates a session and a stream seeded from it.
- **The realtime upload** (`Api::Realtime::MeasurementsController#create`), as its RSpec examples pin it down:
  - the session is found by uuid and owner;
  - the samples go to the stream of the same sensor, which is created when missing;
  - a request for a session the user does not own is rejected and writes nothing.

The implementations of `PurpleAir::ImportMeasurements` and `MeasurementsCreator` are not part of this model. The model follows the behaviour that the two spec files assert.

## Layout

- **`wrappers.dfy`, `aggregates.dfy`, `records.dfy`:**
  - `Option`;
  - min, max and mean over sequences;
  - the row types (`Session`, `Stream`, `Measurement`, `Note`, `Sample`) and `Tables`, the three tables as sequences, where ids are indices.
- **`tags.dfy`:** `normalize_tags`, with a reference definition: the pieces between separators, the blank ones dropped.
- **`aggregator.dfy`:**
  - stream aggregates as a fold over the stream's measurements;
  - `Aggregate`, the one-step update with the running mean;
  - `TablesValid`, the store invariant. It holds when:
    - every row points at existing parents;
    - every stream's aggregates agree with its measurements;
    - every session's time range is ordered;
    - uuids and url tokens are unique.
  - the table updates both ingestion paths are built from, each proved to keep `TablesValid`.
- **`session_model.dfy`:** the pure parts of `session.rb`. These are tags on build, notes, the bounding box, the time frame, validation, the url token, `build_from_json` and the notes reconciliation of `sync`.
- **`session_writes.dfy`:** `create_from_json` and `sync` as functions on `Tables`, with their all-or-nothing lemmas.
- **`purple_air.dfy`:** the bulk import as functions on `Tables`, with the lemmas for each RSpec example.
- **`realtime.dfy`:** the realtime request as a function on `Tables`, with its lemmas.
- **`store.dfy`:** class `Store`, whose `sessions`, `streams` and `measurements` fields the ingestion paths update in place. Each method runs the loop the source runs and is proved to leave the store as the matching function describes. The five entry points keep `Valid()`: `ImportReading`, `ImportMeasurements`, `CreateRealtime`, `CreateSessionFromJson` and `Sync`. The inner steps `AppendSample`, `AppendAll`, `AttachRows` and `SaveSession` are stated by their functions only, and the entry points prove `Valid()` around them.

`Realtime.Create`, `SessionWrites.CreateFromJson`, `SessionWrites.SyncSession` and `SessionModel.ReconcileNotes` are specification functions with no `ensures` of their own. The lemmas named below state what they promise.

Coordinates are integers in units of 1e-7 degree. Times are epoch seconds. Measured values are reals.

## Model

| member | source | states |
|---|---|---|
| Tags.TagsOf | app/models/session.rb:102 | every tag of a text is non-empty, non-blank and holds no comma and no character of the ASCII `\s` class (space, tab, newline, carriage return, vertical tab, form feed) |
| Tags.NormalizeTags | app/models/session.rb:101-103 | nil gives `""`; the result is empty exactly when the text has no tags; otherwise splitting the result at separators gives the tags of the input, in input order; the only separators in the result are commas |
| Tags.JoinCommas | app/models/session.rb:102 | joining tags that hold no separator with `,` leaves commas as the only separators |
| Tags.PiecesOfJoin | app/models/session.rb:102 | joining tags with `,` and splitting again gives the same tags back |
| Tags.TagsAround | app/models/session.rb:102 | a separator splits the tag list: the tags of `a + sep + b` are the tags of `a` followed by those of `b` |
| Tags.NormalizeTagsIdempotent | app/models/session.rb:101-103 | normalising an already normalised tag list changes nothing |
| Tags.NormalizeSpaceOnly | app/models/session.rb:101-103 | text made only of whitespace and commas (the empty text included) normalises to `""` |
| SessionModel.ZipPhotos | app/models/session.rb:96-98 | one note per note attribute set, in order, the i-th carrying the i-th photo or none when photos run out |
| SessionModel.PrepareNotes | app/models/session.rb:93-99 | nil notes give `[]`; otherwise one note per entry with its text and number and the i-th photo, or none |
| SessionModel.MeasurementsOf | app/models/session.rb:23 | a session's measurements are exactly the rows pointing at it |
| SessionModel.West | app/models/session.rb:155-157 | the least longitude, attained by some measurement; 0 for no measurements |
| SessionModel.East | app/models/session.rb:159-161 | the greatest longitude, attained by some measurement; 0 for no measurements |
| SessionModel.North | app/models/session.rb:163-165 | the greatest latitude, attained by some measurement; 0 for no measurements |
| SessionModel.South | app/models/session.rb:167-169 | the least latitude, attained by some measurement; 0 for no measurements |
| SessionModel.BoundingBoxOrdered | app/models/session.rb:155-169 | west ≤ east and south ≤ north |
| SessionModel.SetTimeframe | app/models/session.rb:204-208 | start and end are set exactly when there are measurements; they are the earliest and the latest measurement time |
| SessionModel.TimeframeOrdered | app/models/session.rb:204-208 | a session with measurements has start ≤ end |
| SessionModel.SetUrlToken | app/models/session.rb:32 | a token is assigned only when the session has none; no other attribute changes |
| SessionModel.ValidWithFreshToken | app/models/session.rb:26-32 | with a fresh non-blank token assigned, a session is valid exactly when it has a user, a present uuid no other session has, a calibration, and an offset_60_db within -5..5 |
| SessionModel.SymbolizeKeys | app/models/session.rb:64 | every string key becomes the symbol key with the same value, and no string key remains |
| SessionModel.BuildFromJsonAsWritten | app/models/session.rb:47-58 | as written: the session belongs to the user, has the submitted uuid, no url token, no time frame and count 0; with no string-keyed `tag_list` or `notes` it has no tags and no notes |
| SessionModel.BuildFromJson | app/models/session.rb:47-58 | as intended: the same user, uuid, token and time-frame facts; the tag list is stored normalised; one note per submitted note |
| SessionModel.AsWrittenDropsTagsAndNotes | app/models/session.rb:47-64 | as written, a session built from symbolised JSON always gets an empty tag list and no notes |
| SessionModel.AsWrittenCounterexample | app/models/session.rb:47-64 | the upload `{"tag_list": "a b"}` loses its tags as written and keeps `"a,b"` as intended |
| SessionModel.IntendedKeepsAB | app/models/session.rb:47-64 | the intended build keeps the tags of the upload `{"tag_list": "a b"}` as `"a,b"` |
| SessionModel.BuildFromJsonTagList | app/models/session.rb:48 | the intended build reads the tag text under the symbol key and normalises it |
| SessionModel.BuildFromJsonKeepsTagsAndNotes | app/models/session.rb:47-58 | the intended build keeps the normalised submitted tags and one note per submitted note, in order, with its number and text, paired with the photos |
| SessionModel.FindByNumber | app/models/session.rb:187 | the first note with the given number, or none when no note has it |
| SessionModel.UpdateOne | app/models/session.rb:186-189 | one incoming note succeeds exactly when some note has its number; then the first such note takes its text, keeps its number and photo, and every other note is unchanged |
| SessionModel.LastText | app/models/session.rb:186-189 | the text of the last incoming note with a given number, or none exactly when no incoming note has it |
| SessionModel.FindSameNumbers | app/models/session.rb:187 | `find_by_number` gives the same note for two note lists with the same numbers |
| SessionModel.UpdatesTexts | app/models/session.rb:186-189 | after a successful update loop, the first note with each number carries the text of the last incoming note with that number, and every other note is unchanged |
| SessionModel.UpdatesFailFromPrefix | app/models/session.rb:186-189 | once the update loop has failed, further incoming notes cannot make it succeed |
| SessionModel.KeepNumbers | app/models/session.rb:194-196 | every kept note is an input note whose number is among the incoming numbers, and every such input note is kept |
| SessionModel.KeepNumbersCounts | app/models/session.rb:194-196 | each note with an incoming number is kept as many times as it occurs, and any other note is removed entirely |
| SessionModel.KeepNumbersAppend | app/models/session.rb:194-196 | the filter distributes over concatenation, so the kept notes stay in their order |
| SessionModel.NewNotes | app/models/session.rb:199 | one new note per incoming note, with its number and text and no photo |
| SessionModel.UpdatesKeepShape | app/models/session.rb:186-189 | the update loop changes only texts: it keeps the number of notes and their numbers and photos |
| SessionModel.UpdatesSucceedIff | app/models/session.rb:186-189 | the update loop succeeds exactly when every incoming number names an existing note |
| SessionModel.ReconcileNumbered | app/models/session.rb:185-197 | numbered branch: the result is the updated notes (as `UpdatesTexts` gives them) filtered to the incoming numbers; a note survives exactly when its number was sent, keeping its photo and carrying its updated text |
| SessionModel.ReconcileUpdatesText | app/models/session.rb:186-196 | a note sent again under its number with a new text keeps its number and photo and takes the new text |
| SessionModel.ReconcileReplaces | app/models/session.rb:198-200 | otherwise the incoming notes replace the existing ones, one new note each |
| SessionModel.ReconcileEmpty | app/models/session.rb:191-192 | an empty incoming list removes every note |
| SessionModel.ReconcileFailsIff | app/models/session.rb:185-200 | reconciliation fails exactly on the numbered branch when some incoming number names no note |
| Aggregator.Seed | spec/controllers/api/realtime/measurements_controller_spec.rb:47-61 | a stream seeded from one measurement agrees with that measurement: count 1, degenerate box, mean = value |
| Aggregator.Aggregate | spec/services/purple_air/import_measurements_spec.rb:135-157 | one more measurement is one more step of the fold: count + 1, box widened, running mean, start kept |
| Aggregator.AggregateConsistent | spec/services/purple_air/import_measurements_spec.rb:135-157 | a stream that agreed with its measurements still agrees after one more is aggregated |
| Aggregator.ConsistentMeaning | spec/controllers/api/realtime/measurements_controller_spec.rb:47-61 | a stream agreeing with its measurements has their count and mean as count and average, their extreme coordinates as box, and the first one's point as start |
| Aggregator.StartInBox | spec/services/purple_air/import_measurements_spec.rb:59-64 | a stream's starting point lies inside its bounding box |
| Aggregator.AddSessionWithStreamValid | spec/services/purple_air/import_measurements_spec.rb:100-107 | adding a session with one stream and its first measurement keeps the store invariant |
| Aggregator.AttachNewStreamValid | spec/controllers/api/realtime/measurements_controller_spec.rb:47-55 | adding a stream to an existing session keeps the store invariant |
| Aggregator.AppendToStreamValid | spec/services/purple_air/import_measurements_spec.rb:135-157 | appending a measurement to a stream and updating its session keeps the store invariant |
| Aggregator.AddSessionValid | app/models/session.rb:26-28 | adding a session with fresh uuid and url token keeps the store invariant |
| Aggregator.AttachToSessionValid | app/models/session.rb:74-75 | attaching a measurement directly to a session keeps the store invariant |
| Aggregator.UpdateSessionValid | app/models/session.rb:183 | replacing a session's attributes, with its uuid and token kept, keeps the store invariant |
| SessionWrites.CreateFromJsonAllOrNothing | app/models/session.rb:63-91 | an upload succeeds exactly when it parses, its measurements map, the session is valid and every measurement is accepted; a failure changes nothing |
| SessionWrites.CreateFromJsonSaves | app/models/session.rb:63-87 | on success: one valid session with the generated token, its measurement count = number of measurements, start/end = their earliest/latest time, and their rows appended in order |
| SessionWrites.SaveUploadSaves | app/models/session.rb:71-80 | saving appends the session, changed only in count and time frame, and its rows; the other sessions and the streams are unchanged |
| SessionWrites.RowsTimeframe | app/models/session.rb:204-208 | the time frame of a new session's rows is none without samples, else the samples' earliest and latest times |
| SessionWrites.CreateFromJsonValid | app/models/session.rb:26-28 | an upload, successful or not, keeps the store invariant (the new session is valid and its token unused) |
| SessionWrites.AttachRowsValid | app/models/session.rb:74-75 | attaching rows to existing sessions keeps the store invariant |
| SessionWrites.OtherSessions | app/models/session.rb:27 | the sessions other than the one synced, in order: those the uniqueness validations compare it with |
| SessionWrites.SyncAttributes | app/models/session.rb:179-183 | the session as the sync's `update_attributes` is about to save it: sent title and description, normalised tags, a url token set when missing, nothing else changed |
| SessionWrites.SyncFailsIff | app/models/session.rb:178-202 | a sync fails exactly when notes are missing, or the numbered branch meets an incoming number that names no note |
| SessionWrites.SyncKeepsTheRest | app/models/session.rb:178-200 | a successful sync always stores the reconciled notes; when the session with the sent attributes is valid, it is saved with the sent title and description (kept unless sent), the normalised tags and a url token when it had none, and nothing else changes; otherwise every attribute stays as it was |
| SessionWrites.SyncWithoutUuid | app/models/session.rb:183-192 | a session without a uuid keeps its title when synced with a new one, and an empty incoming list still removes its notes |
| SessionWrites.ReplaceSessionValid | app/models/session.rb:27 | replacing a session by one whose keys differ from every other session's keeps the store invariant |
| SessionWrites.SyncValid | app/models/session.rb:178-202 | a successful sync keeps the store invariant, whether the attributes were saved (they passed the uniqueness validations) or not |
| PurpleAir.PurpleAirThresholdsIncreasing | spec/services/purple_air/import_measurements_spec.rb:47-58 | the fixed PurpleAir thresholds 0/12/35/55/150 are strictly increasing; the unit symbol is µg/m³ |
| PurpleAir.DecimalRoundTrip | spec/services/purple_air/import_measurements_spec.rb:83 | the decimal text of the sensor index in a title reads back as the index |
| PurpleAir.Title | spec/services/purple_air/import_measurements_spec.rb:83 | the title is the name, then ` (`, then the digits of the sensor index, which read back as the index, then `)` |
| PurpleAir.TitleParen | spec/services/purple_air/import_measurements_spec.rb:83 | the last `(` of a title is the one right after the name |
| PurpleAir.TitleDeterminesName | spec/services/purple_air/import_measurements_spec.rb:83 | the title `NAME (INDEX)` determines both the name and the sensor index |
| PurpleAir.NewImportedSession | spec/services/purple_air/import_measurements_spec.rb:70-97 | the new session belongs to the PurpleAir user, is titled `NAME (INDEX)`, contributes, is outdoor, has start, end and last-measurement time at the reading and local times by the conversion, the reading's point, and no data type or instrument; its range is ordered |
| PurpleAir.ImportedMeasurement | spec/services/purple_air/import_measurements_spec.rb:13-35 | the row carries the reading's value as value and measured value, its point, its last-seen time, 0 milliseconds and no time-zone offset |
| PurpleAir.LastStreamAt | spec/services/purple_air/import_measurements_spec.rb:118-157 | the most recently created PurpleAir stream starting at the reading's exact point, or none when no stream starts there |
| PurpleAir.Advance | spec/services/purple_air/import_measurements_spec.rb:159-196 | a later reading renames the session and moves end, local end and last-measurement time to it, changing nothing else; an earlier one leaves the session; the start never moves |
| PurpleAir.AdvanceMonotonic | spec/services/purple_air/import_measurements_spec.rb:159-196 | the session's end of range never moves backwards, and moves to a later reading's time |
| PurpleAir.ImportOne | spec/services/purple_air/import_measurements_spec.rb:100-116 | every reading adds exactly one measurement; no table shrinks; every stream still belongs to a session |
| PurpleAir.ImportAll | spec/services/purple_air/import_measurements_spec.rb:109-116 | a batch adds one measurement per reading |
| PurpleAir.ImportOneValid | spec/services/purple_air/import_measurements_spec.rb:100-107 | importing a reading keeps the store invariant |
| PurpleAir.ImportAllValid | spec/services/purple_air/import_measurements_spec.rb:100-107 | importing a batch keeps the store invariant |
| PurpleAir.ImportAllAppend | spec/services/purple_air/import_measurements_spec.rb:135-157 | a batch is its readings imported one after the other |
| PurpleAir.ImportAllConcat | spec/services/purple_air/import_measurements_spec.rb:135-157 | two successive import calls give the same tables as one call on both batches |
| PurpleAir.NewReading | spec/services/purple_air/import_measurements_spec.rb:24-107 | a reading at a new point creates one session, one PurpleAir stream and one measurement, linked to each other; the row fields, degenerate box, start point, count 1, mean and session fields are those of the reading |
| PurpleAir.MatchingReading | spec/services/purple_air/import_measurements_spec.rb:135-196 | a reading at a stream's start point appends to it: no new session or stream, count + 1, start kept, session advanced, nothing else changed |
| PurpleAir.GroupedAtOnePoint | spec/services/purple_air/import_measurements_spec.rb:118-133 | readings at one new point, whatever their sensor index, make one session and one stream whose count is the number of readings |
| PurpleAir.DistinctPointsSplit | spec/services/purple_air/import_measurements_spec.rb:109-116 | readings at N distinct new points make N sessions and N streams, stream k starting at reading k with count 1, old streams kept |
| PurpleAir.NewPoint | spec/services/purple_air/import_measurements_spec.rb:109-116 | a reading at a point where no stream starts adds one session, one stream starting there with count 1, and one measurement |
| Realtime.FindOwnedSession | spec/controllers/api/realtime/measurements_controller_spec.rb:37-45 | a session with the requested uuid owned by the user, or none when the user owns no such session |
| Realtime.OwnedSessionUnique | spec/controllers/api/realtime/measurements_controller_spec.rb:37-45 | uuids being unique, the session found is the one the user owns |
| Realtime.FindChannel | spec/controllers/api/realtime/measurements_controller_spec.rb:47-55 | the session's stream with the request's sensor package, sensor name and measurement type, or none |
| Realtime.RejectedIff | spec/controllers/api/realtime/measurements_controller_spec.rb:69-85 | a request is rejected as session-not-found exactly when the user owns no session with its uuid, and writes nothing when rejected |
| Realtime.CreateValid | spec/controllers/api/realtime/measurements_controller_spec.rb:37-85 | every request keeps the store invariant |
| Realtime.AppendsToExistingStream | spec/controllers/api/realtime/measurements_controller_spec.rb:63-66 | a request for a recorded channel appends one row per sample to its stream; no stream is created; nothing else changes |
| Realtime.CreatesNewStream | spec/controllers/api/realtime/measurements_controller_spec.rb:47-55 | a request for a new channel creates exactly one stream with the request's sensor and appends one row per sample to it |
| Realtime.NewStreamHoldsSamples | spec/controllers/api/realtime/measurements_controller_spec.rb:63-66 | the measurements of the new stream are exactly the request's rows |
| Realtime.NewStreamAggregates | spec/controllers/api/realtime/measurements_controller_spec.rb:47-61 | the new stream's count, average, box and start are those of the request's samples |
| Realtime.NewStreamOneSample | spec/controllers/api/realtime/measurements_controller_spec.rb:47-61 | after one sample, the box is the degenerate point at it and the average is its value |
| Realtime.AppendSamplesValid | spec/controllers/api/realtime/measurements_controller_spec.rb:63-66 | appending samples to a stream keeps the store invariant |
| Realtime.AppendSamplesWrites | spec/controllers/api/realtime/measurements_controller_spec.rb:63-66 | appending samples adds their rows in order and changes only that stream |
| Storage.AllAccepted | app/models/session.rb:75-86 | true exactly when every measurement is accepted |
| Storage.UpdateNotes | app/models/session.rb:186-189 | the loop updates note by note and matches the update function, failing when a number names no note |
| Storage.Store.ImportReading | spec/services/purple_air/import_measurements_spec.rb:100-157 | importing one reading in place leaves the tables as `ImportOne` does and keeps the invariant |
| Storage.Store.ImportMeasurements | spec/services/purple_air/import_measurements_spec.rb:109-157 | the loop over a batch leaves the tables as `ImportAll` does and keeps the invariant |
| Storage.Store.AppendSample | spec/controllers/api/realtime/measurements_controller_spec.rb:57-66 | one sample appended in place through the aggregator |
| Storage.Store.AppendAll | spec/controllers/api/realtime/measurements_controller_spec.rb:63-66 | the loop over the samples leaves the tables as `AppendSamples` does |
| Storage.Store.CreateRealtime | spec/controllers/api/realtime/measurements_controller_spec.rb:37-85 | one request in place: tables and outcome as `Create` gives them, invariant kept |
| Storage.Store.AttachRows | app/models/session.rb:74-75 | the loop attaches one row per sample to the session, in order, and changes nothing else |
| Storage.Store.CreateSessionFromJson | app/models/session.rb:63-91 | the upload in place: tables and new id as `CreateFromJson` gives them, invariant kept |
| Storage.Store.SaveSession | app/models/session.rb:71-80 | saves the session, attaches its rows, then sets its count and time frame; the id is the next index |
| Storage.Store.Sync | app/models/session.rb:178-202 | true exactly when the sync succeeds; then the session is replaced by the synced one (its attributes saved only when valid among the other sessions), otherwise nothing changes; invariant kept |

## Left out

- PurpleAir.LastStreamAt: the matching key is the PurpleAir sensor plus the exact start point of a stream, with no device identity. The RSpec examples group readings of different sensor indices at one point into one stream (import_measurements_spec.rb:118-133), so the model follows them and not a key built from device identity.
- Realtime.AppendsToExistingStream: the realtime path leaves the session row unchanged. Its end of range and last-measurement time are not moved, because nothing in the controller examples pins a session update for this path.
- PurpleAir.NewReading: an imported session has no uuid and no url token, and its own measurement counter stays 0. The import implementation is not part of this model and its RSpec examples check neither attribute, so none is invented. Such a session would not pass `SessionValid`; the store invariant `TablesValid` asks only that uuids and tokens, when set, are unique. The ingestion paths maintain counts on streams; `measurements_count` of a session is set only by `create_from_json`.
- PurpleAir.StartsAt: a stream matches on its PurpleAir sensor and its start point only, not on the session's owner. A PurpleAir-sensor stream at the same point in another user's session would receive the readings. The RSpec examples only create sessions through the import, so they do not pin the owner down.
- SessionWrites.CreateFromJson: builds the session with the intended `SessionModel.BuildFromJson`, not the as-written `SessionModel.BuildFromJsonAsWritten`, and so keeps the submitted tags and notes. `Storage.Store.CreateSessionFromJson` inherits this. See Findings for the as-written behaviour.
- Realtime.RejectedIff: a request with no samples is also rejected (as `NoMeasurements`) and writes nothing. The controller examples always send one sample.
- The PurpleAir fetch and the `utc_to_local` conversion are I/O and an opaque function. The batch is a parameter, and so is the conversion `toLocal`.
- `TokenGenerator`: the generated url token is a parameter. `create_from_json` requires that it is unused; on `sync` the uniqueness validation decides whether a session with the new token is saved. Random generation is not modelled.
- `Measurement.import` (activerecord-import): its per-row validation is the parameter `accept`. Its failed instances make the upload fail as a whole.
- `JSON.parse`: a parse failure is the input `None`. Parsed values are a small JSON datatype holding text, numbers, booleans, note lists and measurement lists. `phone_model`, `os_version` and other values of unexpected type are dropped.
- The `rescue Exception` of `create_from_json` is modelled only for the failures listed above: parse, measurement mapping, validation and rejected measurements. A database error is not modelled.
- Transactions, row locking and concurrent writers: each operation is one atomic state change.
- Floating point: coordinates are integers in units of 1e-7 degree and values are reals. Coordinate matching is exact equality.
- `filter`, `filtered_json`, `as_json`, `to_param`, the tagging library's storage and paperclip photo storage: query composition, serialisation and foreign libraries. Photos are opaque values.
- `delegate :username` and `delegate :size`: plain delegations with nothing to state.
- SessionModel.SyncNote: every incoming note is taken to carry a text, and a matched note's text is always overwritten. A note sent without `:text` would keep its text in the source. Note attributes other than number, text and photo are not modelled, so whatever else an incoming note sends is not written.
- The notes of `sync` are matched by number as in `find_by_number`. A second note with the same number is not updated, and duplicate numbers are not excluded.
- `app/javascript/angular/tests/_fixed_sessions.test.js`, `config/deploy.rb` and `config/schedule.rb` (client map code and deployment tooling) are not part of this model.

## Findings

| source | as written | input that shows it | evidently intended | confidence | as-written member | corrected member |
|---|---|---|---|---|---|---|
| app/models/session.rb:48-50 (with :64) | `create_from_json` symbolises the keys, then `build_from_json` deletes `'tag_list'` and `"notes"` by string key, which finds nothing, so the tags become `""` and the notes `[]` | the upload `{"tag_list": "a b"}`: the session gets tags `""` | read the symbol keys, so the tags become `"a,b"` and the submitted notes are kept | medium, not executed | SessionModel.AsWrittenCounterexample | SessionModel.BuildFromJsonKeepsTagsAndNotes |
