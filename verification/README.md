# mediscribe: verified model of the appointment records and the audio recorder

This project models the two pieces of local logic in mediscribe, a web app for
booking doctor appointments and recording consultations. Everything else in the
app is rendering, HTTP plumbing and calls to remote services.

- **Appointment and record logic** (`backend/core/crud.py`), in two modules:
  - `Crud` holds the pure part:
    - the configuration check done before every operation;
    - `handle_error`'s unwrapping of a query response;
    - the first-or-None reads and the `[0]` of create and update;
    - the partial-update dictionaries of the three `update_*` functions;
    - the records the `create_*` functions insert;
    - the free half-hour slots of a doctor's day.
  - `CrudTables` holds one database table as a class. Its rows are a map from
    the id column's value to the row. `Create`, `Read`, `Update` and `Delete`
    change that map as the database would. Each builds the response the
    database would return and unwraps it with the functions of `Crud`.
    `CreateAppointment`, `UpdatePatient` and the other per-entity methods
    run `Create` and `Update` on a table keyed by that entity's id column, with
    the dictionaries of `Crud`.
- **The audio recorder hook** (`frontend/lib/hooks/useAudioRecorder.ts`), in
  module `AudioRecording`. It is a class holding three fields:
  - the recording flag;
  - the current MediaRecorder, which is absent until a start succeeds;
  - the buffer of audio chunks.

  The browser's media APIs become events:
  - start succeeds or fails;
  - a `dataavailable` event delivers a chunk;
  - stopping a recorder fires one last `dataavailable` event and then `stop`,
    which runs `onstop`.

Parameters stand in for the environment variables, the query responses and
the ids that `uuid4` generates. Column names are the constructors of
`Crud.Column`, and `Column.DbName` gives each one's name in the database.

Behaviour of the audio hook worth knowing, as the code has it:
- Stopping resolves to an empty blob only when no recorder was ever created.
  Stopping again after a finished recording stops an inactive MediaRecorder.
  Under the MediaStream Recording specification that fires no event, so
  `onstop` never runs and the promise stays pending (`StopOutcome.Pending`).
- Start rethrows whatever error acquiring the microphone raised, unchanged.
- Start does not guard against a recording already in progress. The new
  recorder replaces the old one, and the buffer is emptied.

## Model

| member | source | states |
|---|---|---|
| `Crud.GetClient` | backend/core/crud.py:11-18 | The client is created exactly when both SUPABASE_URL and SUPABASE_KEY are set and non-empty. Otherwise the result is a ValueError with the source's message. |
| `Crud.HandleError` | backend/core/crud.py:21-30 | Raises a Supabase error exactly when the response has a truthy `error`. Otherwise returns `.data` when that attribute exists, and the response itself when it does not. |
| `Crud.ResultRows` | backend/core/crud.py:26-30 | The list that callers index. It is the `.data` list, or the response itself when that is a bare list. A response object without `.data` is not subscriptable (TypeError). Errors from `handle_error` pass through unchanged. |
| `Crud.FirstOrNone` | backend/core/crud.py:59 | None exactly for an empty result. Otherwise the first row. |
| `Crud.ReadFirst` | backend/core/crud.py:57-59 | A read returns the first matching row, or None when nothing matched. Errors from unwrapping pass through. |
| `Crud.FirstRow` | backend/core/crud.py:52 | `handle_error(response)[0]`: errors from unwrapping pass through. On an unwrapped list, IndexError exactly when the list is empty. A returned row is the list's first element. |
| `Crud.ReadAgreesWithFirstRow` | backend/core/crud.py:52-59 | On the same response, a read gives None exactly where `[0]` raises an IndexError. Otherwise both give the same row or the same error. |
| `Crud.DbNameInjective` | backend/core/crud.py:44-155 | Distinct columns have distinct database names, so Column keys stand for the source's string keys one to one. |
| `Crud.Fields` | backend/core/crud.py:44-51 | The insert dictionary holds exactly the listed columns, each with its given value. |
| `Crud.AppointmentFields` | backend/core/crud.py:44-51 | create_appointment's dictionary without the id: exactly date, time, patient_id, type and doctor_id, each with its argument. |
| `Crud.ConversationFields` | backend/core/crud.py:87-94 | create_conversation's dictionary without the id: exactly doctor_id, patient_id, appointment_id, text and summary, each with its argument. |
| `Crud.PatientFields` | backend/core/crud.py:130-136 | create_patient's dictionary without the id: exactly name, contact, medical_history and previous_procedures, each with its argument. |
| `Crud.NewRecord` | backend/core/crud.py:43-51 | The inserted record is the given fields plus the fresh id under the id column, with no other key. |
| `Crud.SuppliedFields` | backend/core/crud.py:66-72 | Every key of the update dictionary is one of the listed columns. A column is present exactly when its argument is not None. Its value is that argument, unchanged. |
| `Crud.NoneSuppliedIsEmpty` | backend/core/crud.py:66-72 | All-None arguments give an empty update dictionary. |
| `Crud.AllSuppliedIsFields` | backend/core/crud.py:44-72 | When every argument is given, the update dictionary equals the dictionary that create builds from the same values, without the id column. |
| `Crud.ApplyUpdates` | backend/core/crud.py:73 | Applying an update: the supplied columns take their new values and every other column keeps its old one. |
| `Crud.EntityColumns` | backend/core/crud.py:44-155 | No entity lists a column twice. No entity's update or insert columns include its own id column. |
| `Crud.AppointmentUpdates` | backend/core/crud.py:66-72 | update_appointment's dictionary: a subset of date/time/patient_id/type/doctor_id. Each column is present exactly when its argument is given, with that value. |
| `Crud.ConversationUpdates` | backend/core/crud.py:109-115 | update_conversation's dictionary: a subset of doctor_id/patient_id/appointment_id/text/summary. Each column is present exactly when its argument is given, with that value. |
| `Crud.PatientUpdates` | backend/core/crud.py:150-155 | update_patient's dictionary: a subset of name/contact/medical_history/previous_procedures. Each column is present exactly when its argument is given, with that value. |
| `Crud.AppointmentNoUpdates` | backend/core/crud.py:61-72 | update_appointment with every argument None sends an empty dictionary. |
| `Crud.ConversationNoUpdates` | backend/core/crud.py:104-115 | update_conversation with every argument None sends an empty dictionary. |
| `Crud.PatientNoUpdates` | backend/core/crud.py:146-155 | update_patient with every argument None sends an empty dictionary. |
| `Crud.AppointmentAllUpdates` | backend/core/crud.py:40-72 | update_appointment with every argument given sends the dictionary create_appointment inserts, without appointment_id. |
| `Crud.ConversationAllUpdates` | backend/core/crud.py:83-115 | update_conversation with every argument given sends the dictionary create_conversation inserts, without conversation_id. |
| `Crud.PatientAllUpdates` | backend/core/crud.py:126-155 | update_patient with every argument given sends the dictionary create_patient inserts, without id. |
| `Crud.SlotSchedule` | backend/core/crud.py:199 | The fixed day is 20 slots. Slot i lies 9:00 + 30·i minutes after midnight, so the slots run from 9:00 to 18:30 in half-hour steps. |
| `Crud.SlotsDistinct` | backend/core/crud.py:199 | No slot of the day appears twice. |
| `Crud.BookedTimes` | backend/core/crud.py:201 | The set of booked times is exactly the `time` values of the returned rows. A row without `time` raises KeyError. |
| `Crud.FreeSlots` | backend/core/crud.py:201 | A time is in the result exactly when it is a slot and not booked. Distinct slots give a result without duplicates. |
| `Crud.AvailableTimes` | backend/core/crud.py:182-201 | get_doctor_appointment_times returns only fixed slots. No returned slot is the time of a returned appointment. Every slot that no appointment occupies is returned. There are no duplicates and at most 20 entries. The call succeeds exactly when the client is configured, unwrapping succeeds and every returned row has a `time`. Otherwise the configuration ValueError, unwrapping errors and the KeyError pass through, in that order. |
| `Crud.NothingBookedAllFree` | backend/core/crud.py:199-201 | With nothing booked, every slot is free. The list comes out in the slots' day order, which is the order this model chooses for `FreeSlots`; Python's set gives no order. |
| `Crud.BookingRemovesSlot` | backend/core/crud.py:199-201 | One more booked time removes exactly that slot from the free list. The remaining slots keep `FreeSlots`' day order, an order this model chooses; Python's set gives no order. |
| `Crud.FreeSlotCount` | backend/core/crud.py:199-201 | The number of free slots is the number of slots minus the number of distinct booked times that are slots. |
| `Crud.AvailableCount` | backend/core/crud.py:191-201 | With the client configured, for any returned appointments that all carry a time, the call succeeds. It returns 20 minus the number of distinct booked slot times. |
| `CrudTables.Table.SelectById` | backend/core/crud.py:57 | Filtering on the id column matches at most one row: exactly the stored rows whose id column holds the id. |
| `CrudTables.Table.Create` | backend/core/crud.py:40-52 | Inserts one row: the fresh id under the table's id column plus exactly the given fields. Returns that row, which is the first returned row. No other row changes. A configuration error changes nothing. |
| `CrudTables.Table.Read` | backend/core/crud.py:54-59 | Returns the row stored under the id, or None when there is none. |
| `CrudTables.Table.Update` | backend/core/crud.py:61-74 | Only the row with the id changes, and only in the supplied columns. The updated row is returned. With no such row, nothing changes and `[0]` raises IndexError. |
| `CrudTables.Table.Delete` | backend/core/crud.py:76-80 | Removes the row with the id, if any, and leaves the rest. Returns the list of deleted rows, which is empty when nothing matched. |
| `CrudTables.CreateAppointment` | backend/core/crud.py:40-52 | On an appointment table, inserts and returns one row: the fresh id under appointment_id plus the five given fields, and no other column. No other row changes. A configuration error changes nothing. |
| `CrudTables.UpdateAppointment` | backend/core/crud.py:61-74 | On an appointment table, only the appointment with the id changes: the given fields take their values and the others keep theirs. The updated row is returned. With no such appointment, IndexError and no change. |
| `CrudTables.CreateConversation` | backend/core/crud.py:83-95 | On a conversation table, inserts and returns one row: the fresh id under conversation_id plus the five given fields, and no other column. No other row changes. A configuration error changes nothing. |
| `CrudTables.UpdateConversation` | backend/core/crud.py:104-117 | On a conversation table, only the conversation with the id changes: the given fields take their values and the others keep theirs. The updated row is returned. With no such conversation, IndexError and no change. |
| `CrudTables.CreatePatient` | backend/core/crud.py:126-137 | On a patient table, inserts and returns one row: the fresh id under id plus the four given fields, and no other column. No other row changes. A configuration error changes nothing. |
| `CrudTables.UpdatePatient` | backend/core/crud.py:146-157 | On a patient table, only the patient with the id changes: the given fields take their values and the others keep theirs. The updated row is returned. With no such patient, IndexError and no change. |
| `AudioRecording.NonEmpty` | frontend/lib/hooks/useAudioRecorder.ts:24-28 | The kept chunks are exactly the chunks of size greater than 0. |
| `AudioRecording.ConcatSize` | frontend/lib/hooks/useAudioRecorder.ts:46 | The blob built from the chunks is as large as the sum of their sizes. |
| `AudioRecording.ConcatAppend` | frontend/lib/hooks/useAudioRecorder.ts:46 | Concatenating two chunk lists one after the other gives the concatenation of their blobs. |
| `AudioRecording.NonEmptyAppend` | frontend/lib/hooks/useAudioRecorder.ts:24-28 | Filtering a run of events is filtering each part, in arrival order. |
| `AudioRecording.NonEmptyConcat` | frontend/lib/hooks/useAudioRecorder.ts:24-46 | Dropping zero-size chunks changes no byte of the final blob. |
| `AudioRecording.SessionBytes` | frontend/lib/hooks/useAudioRecorder.ts:24-46 | The kept chunks of a recording plus the kept last chunk hold every event's bytes in order. Their number of bytes is the sum of the event sizes. |
| `AudioRecording.AudioRecorder.constructor` | frontend/lib/hooks/useAudioRecorder.ts:4-6 | The hook starts not recording, with no recorder and an empty buffer. |
| `AudioRecording.AudioRecorder.StartRecording` | frontend/lib/hooks/useAudioRecorder.ts:8-36 | If acquiring the stream fails, its error is rethrown and nothing changes. On success the buffer is emptied, a recording recorder is installed and `isRecording` becomes true. |
| `AudioRecording.AudioRecorder.OnDataAvailable` | frontend/lib/hooks/useAudioRecorder.ts:24-28 | A chunk of size greater than 0 is appended at the end. A zero-size chunk leaves the buffer unchanged. Nothing else changes. |
| `AudioRecording.AudioRecorder.StopRecording` | frontend/lib/hooks/useAudioRecorder.ts:38-57 | With no recorder: an empty blob, and nothing changes. While recording: the buffered chunks plus the final non-empty chunk, in arrival order, typed audio/webm; afterwards `isRecording` is false and the buffer is empty. On an inactive recorder the promise stays pending. |
| `AudioRecording.RecordSession` | frontend/lib/hooks/useAudioRecorder.ts:8-57 | For any data events, start then events then stop yields an audio/webm blob whose bytes are the events' bytes in order. Its size is the sum of the event sizes. |
| `AudioRecording.StopBeforeStart` | frontend/lib/hooks/useAudioRecorder.ts:40-43 | Stop before any start resolves to a blob of size 0. |

## Left out

- Creating the Supabase client, building queries, `.execute()` and `uuid.uuid4()` (backend/core/crud.py:18, 36, 43, 57 and the like) belong to a foreign library and do I/O. Responses, environment variables and fresh ids are parameters instead.
- `get_doctors` and `get_doctor_appointments_by_date` (backend/core/crud.py:33-37, 165-180): each is a select whose only local logic is `handle_error`, which is modelled. The rows they return and the order of those rows are decided by the database.
- The `__main__` example block (backend/core/crud.py:203-221) only prints.
- CrudTables.Table.Create requires the fresh id to be absent from the table, which is what `uuid4` gives. An id collision and the database's answer to it are not modelled.
- CrudTables.Table: the database is assumed to succeed. Errors a real database reports are modelled only through `Crud.HandleError` on a response given as a parameter.
- CrudTables.Table.Update treats an empty update dictionary as an update that changes nothing and returns the row. How the database service answers an empty update body is not modelled.
- Crud.Row: every value is text, and a row holds only the columns of `Crud.Column`. Null values and extra columns such as timestamps are not modelled.
- Crud.Response: the `error` attribute is text, and an empty string is its only falsy present value. Error objects of other Python types are not modelled.
- Crud.AvailableTimes lists the free slots in day order. Python builds the list from a set, so its order is unspecified. Only membership and the absence of duplicates are promised.
- The browser media APIs are left out: the `getUserMedia` constraints, the recorder's codec option, the 100 ms timeslice, stopping the stream's tracks and `console.error` (frontend/lib/hooks/useAudioRecorder.ts:10-21, 30, 33, 55).
- AudioRecording.AudioRecorder.StopRecording runs the synchronous part of stop, the final `dataavailable` and `onstop` as one step. Promise timing and React's deferred state update are not modelled.
- AudioRecording.AudioRecorder.StartRecording: a recorder's `start(100)` itself throwing is not modelled. The stream and recorder that a second start leaves behind are not modelled either. Their later `dataavailable` events are calls of OnDataAvailable like any other.
- `backend/core/llm.py`, `backend/core/transcribe.py`, `frontend/lib/api.ts`, `frontend/app/api/prerequisites/route.ts`, the FastAPI routers, `backend/main.py`, and the pages and components of the frontend are not part of this model. They are remote LLM and transcription calls, `fetch` wrappers, framework glue and rendering.
