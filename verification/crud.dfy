/**
 * The local logic of backend/core/crud.py, with the Supabase client abstracted
 * away: the configuration check, the unwrapping of a query response, the
 * first-row reads, the partial-update dictionaries, the records that the create
 * operations insert, and the free appointment slots of a doctor's day.
 *
 * Environment variables and query responses are parameters here; the tables
 * themselves, which create, update and delete change, are in CrudTables.
 */
module Crud {
  import opened Wrappers

  /** Every column the tables hold is text. */
  type Value = string

  /** The columns of the appointment, conversation and patient tables. */
  datatype Column =
    | AppointmentId | Date | Time | PatientId | Type | DoctorId
    | ConversationId | Text | Summary
    | Id | Name | Contact | MedicalHistory | PreviousProcedures
  {
    /** The column's name in the database. */
    function DbName(): string {
      match this
      case AppointmentId => "appointment_id"
      case Date => "date"
      case Time => "time"
      case PatientId => "patient_id"
      case Type => "type"
      case DoctorId => "doctor_id"
      case ConversationId => "conversation_id"
      case Text => "text"
      case Summary => "summary"
      case Id => "id"
      case Name => "name"
      case Contact => "contact"
      case MedicalHistory => "medical_history"
      case PreviousProcedures => "previous_procedures"
    }
  }

  /** Distinct columns have distinct database names, so a map keyed by Column
      is a dictionary keyed by the names. */
  lemma DbNameInjective()
    ensures forall a: Column, b: Column :: a.DbName() == b.DbName() ==> a == b
  {
  }

  /** A row as the client hands it back: column to value. */
  type Row = map<Column, Value>

  /** The exceptions the functions of crud.py raise or let escape. */
  datatype CrudError =
    | ValueError(message: string)     // get_supabase_client: configuration missing
    | SupabaseError(message: string)  // handle_error: the response carries an error
    | IndexError                      // `[0]` on an empty result list
    | TypeError                       // `[0]` on a response object that is no list
    | KeyError(column: Column)        // `row[column]` on a row without that column

  predicate Distinct<T(==)>(s: seq<T>) {
    forall i, j :: 0 <= i < j < |s| ==> s[i] != s[j]
  }

  // ---------------------------------------------------------------------------
  // get_supabase_client

  const ConfigErrorMessage := "SUPABASE_URL and SUPABASE_KEY must be set in .env file"

  /** SUPABASE_URL and SUPABASE_KEY as the environment gives them; None when unset. */
  datatype Env = Env(supabaseUrl: Option<string>, supabaseKey: Option<string>)

  /** The two settings the client is created from. */
  datatype ClientConfig = ClientConfig(url: string, key: string)

  /** Python truthiness of an optional string: present and not empty. */
  predicate Truthy(s: Option<string>) {
    s.Some? && s.value != ""
  }

  /** Every operation of crud.py first obtains a client; it fails with a
      ValueError when either setting is unset or empty. */
  function GetClient(env: Env): (r: Result<ClientConfig, CrudError>)
    ensures r.Ok? <==> (env.supabaseUrl.Some? && env.supabaseUrl.value != ""
                        && env.supabaseKey.Some? && env.supabaseKey.value != "")
    ensures r.Ok? ==> r.value.url == env.supabaseUrl.value && r.value.key == env.supabaseKey.value
    ensures r.Err? ==> r.error == ValueError(ConfigErrorMessage)
  {
    if !Truthy(env.supabaseUrl) || !Truthy(env.supabaseKey) then
      Err(ValueError(ConfigErrorMessage))
    else
      Ok(ClientConfig(env.supabaseUrl.value, env.supabaseKey.value))
  }

  // ---------------------------------------------------------------------------
  // handle_error

  /**
   * What `.execute()` hands to handle_error: a response object whose `error`
   * and `data` attributes may each be missing (None; an `error` attribute that
   * holds None is falsy and behaves as a missing one), or a bare list of rows
   * that a client may return directly.
   */
  datatype Response =
    | ApiResponse(error: Option<string>, data: Option<seq<Row>>)
    | BareRows(rows: seq<Row>)

  /** What handle_error returns: the `.data` list, or the response itself. */
  datatype Handled = Data(rows: seq<Row>) | Itself(response: Response)

  function HandleError(response: Response): (r: Result<Handled, CrudError>)
    ensures r.Err? <==> response.ApiResponse? && Truthy(response.error)
    ensures r.Err? ==> r.error == SupabaseError("Supabase Error: " + response.error.value)
    ensures r.Ok? && response.ApiResponse? && response.data.Some? ==> r.value == Data(response.data.value)
    ensures r.Ok? && (response.BareRows? || response.data.None?) ==> r.value == Itself(response)
  {
    match response
    case ApiResponse(error, data) =>
      if Truthy(error) then Err(SupabaseError("Supabase Error: " + error.value))
      else if data.Some? then Ok(Data(data.value))
      else Ok(Itself(response))
    case BareRows(_) => Ok(Itself(response))
  }

  /**
   * The list that a caller of handle_error goes on to index or test: the
   * `.data` list, or the response itself when that is a bare list. A response
   * object without `.data` is truthy and not subscriptable, so indexing it
   * raises a TypeError.
   */
  function ResultRows(response: Response): (r: Result<seq<Row>, CrudError>)
    ensures HandleError(response).Err? ==> r == Err(HandleError(response).error)
    ensures r.Ok? <==> HandleError(response).Ok? && (response.BareRows? || response.data.Some?)
    ensures r.Ok? ==> r.value == (if response.BareRows? then response.rows else response.data.value)
    ensures HandleError(response).Ok? && !r.Ok? ==> r == Err(TypeError)
  {
    var handled :- HandleError(response);
    match handled
    case Data(rows) => Ok(rows)
    case Itself(BareRows(rows)) => Ok(rows)
    case Itself(ApiResponse(_, _)) => Err(TypeError)
  }

  // ---------------------------------------------------------------------------
  // read_* and the `[0]` of create_* / update_*

  /** `data[0] if data else None`. */
  function FirstOrNone(rows: seq<Row>): (r: Option<Row>)
    ensures r.None? <==> rows == []
    ensures r.Some? ==> r.value == rows[0]
  {
    if rows == [] then None else Some(rows[0])
  }

  /** read_*: the first matching row, or None when the query matched nothing. */
  function ReadFirst(response: Response): (r: Result<Option<Row>, CrudError>)
    ensures ResultRows(response).Err? ==> r == Err(ResultRows(response).error)
    ensures ResultRows(response).Ok? ==> r == Ok(FirstOrNone(ResultRows(response).value))
  {
    var rows :- ResultRows(response);
    Ok(FirstOrNone(rows))
  }

  /** create_* and update_*: `handle_error(response)[0]`. */
  function FirstRow(response: Response): (r: Result<Row, CrudError>)
    ensures ResultRows(response).Err? ==> r == Err(ResultRows(response).error)
    ensures ResultRows(response).Ok? ==> (r == Err(IndexError) <==> ResultRows(response).value == [])
    ensures r.Ok? ==> ResultRows(response).Ok? && ResultRows(response).value != []
                      && r.value == ResultRows(response).value[0]
  {
    var rows :- ResultRows(response);
    if rows == [] then Err(IndexError) else Ok(rows[0])
  }

  /** A read yields None exactly where `[0]` on the same response raises an
      IndexError, and otherwise the same row or the same error. */
  lemma ReadAgreesWithFirstRow(response: Response)
    ensures ReadFirst(response) == Ok(None) <==> FirstRow(response) == Err(IndexError)
    ensures forall row :: ReadFirst(response) == Ok(Some(row)) <==> FirstRow(response) == Ok(row)
    ensures ReadFirst(response).Err? ==> FirstRow(response) == Err(ReadFirst(response).error)
  {
    var rows := ResultRows(response);
    if rows.Ok? {
      assert ReadFirst(response) == Ok(FirstOrNone(rows.value));
    } else {
      assert rows.error != IndexError;
    }
  }

  // ---------------------------------------------------------------------------
  // The dictionaries of create_* and update_*

  /** The dictionary literal `{c0: v0, c1: v1, ...}`. */
  function Fields(columns: seq<Column>, values: seq<Value>): (row: Row)
    requires |columns| == |values| && Distinct(columns)
    ensures forall c :: c in row <==> c in columns
    ensures forall i :: 0 <= i < |columns| ==> row[columns[i]] == values[i]
    decreases |columns|
  {
    if columns == [] then map[]
    else Fields(columns[1..], values[1..])[columns[0] := values[0]]
  }

  /** The dictionary create_* inserts: the fresh id under the table's id column
      plus exactly the given fields. */
  function NewRecord(idColumn: Column, id: Value, fields: Row): (row: Row)
    requires idColumn !in fields
    ensures row.Keys == fields.Keys + {idColumn}
    ensures row[idColumn] == id
    ensures forall c :: c in fields ==> row[c] == fields[c]
  {
    fields[idColumn := id]
  }

  /** The comprehension of update_*: `{k: v for k, v in {c0: a0, ...}.items() if v is not None}`. */
  function SuppliedFields(columns: seq<Column>, args: seq<Option<Value>>): (u: Row)
    requires |columns| == |args| && Distinct(columns)
    ensures forall c :: c in u ==> c in columns
    ensures forall i :: 0 <= i < |columns| ==> (columns[i] in u <==> args[i].Some?)
    ensures forall i :: 0 <= i < |columns| && args[i].Some? ==> u[columns[i]] == args[i].value
    decreases |columns|
  {
    if columns == [] then map[]
    else
      var rest := SuppliedFields(columns[1..], args[1..]);
      if args[0].Some? then rest[columns[0] := args[0].value] else rest
  }

  /** No argument given: the update dictionary is empty. */
  lemma NoneSuppliedIsEmpty(columns: seq<Column>, args: seq<Option<Value>>)
    requires |columns| == |args| && Distinct(columns)
    requires forall i :: 0 <= i < |args| ==> args[i].None?
    ensures SuppliedFields(columns, args) == map[]
  {
    var u := SuppliedFields(columns, args);
    assert u.Keys == {};
  }

  /** Every argument given: the update dictionary is the dictionary create_*
      builds from the same values. */
  lemma {:induction false} AllSuppliedIsFields(columns: seq<Column>, values: seq<Value>, args: seq<Option<Value>>)
    requires |columns| == |values| == |args| && Distinct(columns)
    requires forall i :: 0 <= i < |args| ==> args[i] == Some(values[i])
    ensures SuppliedFields(columns, args) == Fields(columns, values)
    decreases |columns|
  {
    if columns != [] {
      AllSuppliedIsFields(columns[1..], values[1..], args[1..]);
    }
  }

  /** What the database does with an update dictionary: the supplied columns
      take their new values and every other column keeps its value. */
  function ApplyUpdates(row: Row, updates: Row): (r: Row)
    ensures r.Keys == row.Keys + updates.Keys
    ensures forall c :: c in updates ==> r[c] == updates[c]
    ensures forall c :: c in row && c !in updates ==> r[c] == row[c]
  {
    row + updates
  }

  // ---------------------------------------------------------------------------
  // The three entities

  const AppointmentKey := AppointmentId
  const AppointmentColumns: seq<Column> := [Date, Time, PatientId, Type, DoctorId]
  const ConversationKey := ConversationId
  const ConversationColumns: seq<Column> := [DoctorId, PatientId, AppointmentId, Text, Summary]
  const PatientKey := Id
  const PatientColumns: seq<Column> := [Name, Contact, MedicalHistory, PreviousProcedures]

  /** The columns of each entity's insert and update dictionaries, as sets. */
  const AppointmentColumnSet: set<Column> := set c | c in AppointmentColumns
  const ConversationColumnSet: set<Column> := set c | c in ConversationColumns
  const PatientColumnSet: set<Column> := set c | c in PatientColumns

  /** No entity lists a column twice, and none lists its own id column among
      the columns that create_* and update_* pass in. */
  lemma EntityColumns()
    ensures Distinct(AppointmentColumns) && AppointmentKey !in AppointmentColumns
    ensures Distinct(ConversationColumns) && ConversationKey !in ConversationColumns
    ensures Distinct(PatientColumns) && PatientKey !in PatientColumns
  {
  }

  /** The columns and values of the create_appointment dictionary. */
  lemma AppointmentFieldsShape(date: Value, time: Value, patientId: Value, kind: Value, doctorId: Value)
    ensures Distinct(AppointmentColumns)
    ensures var row := Fields(AppointmentColumns, [date, time, patientId, kind, doctorId]);
      row.Keys == AppointmentColumnSet
    ensures var row := Fields(AppointmentColumns, [date, time, patientId, kind, doctorId]);
      row[Date] == date && row[Time] == time && row[PatientId] == patientId && row[Type] == kind && row[DoctorId] == doctorId
  {
    EntityColumns();
  }

  /** The non-id fields create_appointment inserts. */
  function AppointmentFields(date: Value, time: Value, patientId: Value, kind: Value, doctorId: Value): (row: Row)
    ensures row.Keys == AppointmentColumnSet
    ensures row[Date] == date && row[Time] == time && row[PatientId] == patientId
    ensures row[Type] == kind && row[DoctorId] == doctorId
  {
    AppointmentFieldsShape(date, time, patientId, kind, doctorId);
    Fields(AppointmentColumns, [date, time, patientId, kind, doctorId])
  }

  /** The update dictionary of update_appointment. */
  function AppointmentUpdates(date: Option<Value>, time: Option<Value>, patientId: Option<Value>,
                              kind: Option<Value>, doctorId: Option<Value>): (u: Row)
    ensures u.Keys <= AppointmentColumnSet
    ensures (Date in u <==> date.Some?) && (date.Some? ==> u[Date] == date.value)
    ensures (Time in u <==> time.Some?) && (time.Some? ==> u[Time] == time.value)
    ensures (PatientId in u <==> patientId.Some?) && (patientId.Some? ==> u[PatientId] == patientId.value)
    ensures (Type in u <==> kind.Some?) && (kind.Some? ==> u[Type] == kind.value)
    ensures (DoctorId in u <==> doctorId.Some?) && (doctorId.Some? ==> u[DoctorId] == doctorId.value)
  {
    EntityColumns();
    SuppliedFields(AppointmentColumns, [date, time, patientId, kind, doctorId])
  }

  /** The columns and values of the create_conversation dictionary. */
  lemma ConversationFieldsShape(doctorId: Value, patientId: Value, appointmentId: Value, text: Value, summary: Value)
    ensures Distinct(ConversationColumns)
    ensures var row := Fields(ConversationColumns, [doctorId, patientId, appointmentId, text, summary]);
      row.Keys == ConversationColumnSet
    ensures var row := Fields(ConversationColumns, [doctorId, patientId, appointmentId, text, summary]);
      row[DoctorId] == doctorId && row[PatientId] == patientId && row[AppointmentId] == appointmentId && row[Text] == text && row[Summary] == summary
  {
    EntityColumns();
  }

  /** The non-id fields create_conversation inserts. */
  function ConversationFields(doctorId: Value, patientId: Value, appointmentId: Value, text: Value, summary: Value): (row: Row)
    ensures row.Keys == ConversationColumnSet
    ensures row[DoctorId] == doctorId && row[PatientId] == patientId && row[AppointmentId] == appointmentId
    ensures row[Text] == text && row[Summary] == summary
  {
    ConversationFieldsShape(doctorId, patientId, appointmentId, text, summary);
    Fields(ConversationColumns, [doctorId, patientId, appointmentId, text, summary])
  }

  /** The update dictionary of update_conversation. */
  function ConversationUpdates(doctorId: Option<Value>, patientId: Option<Value>, appointmentId: Option<Value>,
                               text: Option<Value>, summary: Option<Value>): (u: Row)
    ensures u.Keys <= ConversationColumnSet
    ensures (DoctorId in u <==> doctorId.Some?) && (doctorId.Some? ==> u[DoctorId] == doctorId.value)
    ensures (PatientId in u <==> patientId.Some?) && (patientId.Some? ==> u[PatientId] == patientId.value)
    ensures (AppointmentId in u <==> appointmentId.Some?) && (appointmentId.Some? ==> u[AppointmentId] == appointmentId.value)
    ensures (Text in u <==> text.Some?) && (text.Some? ==> u[Text] == text.value)
    ensures (Summary in u <==> summary.Some?) && (summary.Some? ==> u[Summary] == summary.value)
  {
    EntityColumns();
    SuppliedFields(ConversationColumns, [doctorId, patientId, appointmentId, text, summary])
  }

  /** The columns and values of the create_patient dictionary. */
  lemma PatientFieldsShape(name: Value, contact: Value, medicalHistory: Value, previousProcedures: Value)
    ensures Distinct(PatientColumns)
    ensures var row := Fields(PatientColumns, [name, contact, medicalHistory, previousProcedures]);
      row.Keys == PatientColumnSet
    ensures var row := Fields(PatientColumns, [name, contact, medicalHistory, previousProcedures]);
      row[Name] == name && row[Contact] == contact && row[MedicalHistory] == medicalHistory && row[PreviousProcedures] == previousProcedures
  {
    EntityColumns();
  }

  /** The non-id fields create_patient inserts. */
  function PatientFields(name: Value, contact: Value, medicalHistory: Value, previousProcedures: Value): (row: Row)
    ensures row.Keys == PatientColumnSet
    ensures row[Name] == name && row[Contact] == contact
    ensures row[MedicalHistory] == medicalHistory && row[PreviousProcedures] == previousProcedures
  {
    PatientFieldsShape(name, contact, medicalHistory, previousProcedures);
    Fields(PatientColumns, [name, contact, medicalHistory, previousProcedures])
  }

  /** The update dictionary of update_patient. */
  function PatientUpdates(name: Option<Value>, contact: Option<Value>, medicalHistory: Option<Value>,
                          previousProcedures: Option<Value>): (u: Row)
    ensures u.Keys <= PatientColumnSet
    ensures (Name in u <==> name.Some?) && (name.Some? ==> u[Name] == name.value)
    ensures (Contact in u <==> contact.Some?) && (contact.Some? ==> u[Contact] == contact.value)
    ensures (MedicalHistory in u <==> medicalHistory.Some?) && (medicalHistory.Some? ==> u[MedicalHistory] == medicalHistory.value)
    ensures (PreviousProcedures in u <==> previousProcedures.Some?) && (previousProcedures.Some? ==> u[PreviousProcedures] == previousProcedures.value)
  {
    EntityColumns();
    SuppliedFields(PatientColumns, [name, contact, medicalHistory, previousProcedures])
  }

  /** update_appointment with every argument None sends an empty dictionary. */
  lemma AppointmentNoUpdates()
    ensures AppointmentUpdates(None, None, None, None, None) == map[]
  {
    EntityColumns();
    NoneSuppliedIsEmpty(AppointmentColumns, [None, None, None, None, None]);
  }

  /** update_conversation with every argument None sends an empty dictionary. */
  lemma ConversationNoUpdates()
    ensures ConversationUpdates(None, None, None, None, None) == map[]
  {
    EntityColumns();
    NoneSuppliedIsEmpty(ConversationColumns, [None, None, None, None, None]);
  }

  /** update_patient with every argument None sends an empty dictionary. */
  lemma PatientNoUpdates()
    ensures PatientUpdates(None, None, None, None) == map[]
  {
    EntityColumns();
    NoneSuppliedIsEmpty(PatientColumns, [None, None, None, None]);
  }

  /** update_appointment with every argument given sends the same dictionary
      that create_appointment inserts (less the id). */
  lemma AppointmentAllUpdates(date: Value, time: Value, patientId: Value, kind: Value, doctorId: Value)
    ensures AppointmentUpdates(Some(date), Some(time), Some(patientId), Some(kind), Some(doctorId))
         == AppointmentFields(date, time, patientId, kind, doctorId)
  {
    EntityColumns();
    AllSuppliedIsFields(AppointmentColumns, [date, time, patientId, kind, doctorId], [Some(date), Some(time), Some(patientId), Some(kind), Some(doctorId)]);
  }

  /** update_conversation with every argument given sends the same dictionary
      that create_conversation inserts (less the id). */
  lemma ConversationAllUpdates(doctorId: Value, patientId: Value, appointmentId: Value, text: Value, summary: Value)
    ensures ConversationUpdates(Some(doctorId), Some(patientId), Some(appointmentId), Some(text), Some(summary))
         == ConversationFields(doctorId, patientId, appointmentId, text, summary)
  {
    EntityColumns();
    AllSuppliedIsFields(ConversationColumns, [doctorId, patientId, appointmentId, text, summary], [Some(doctorId), Some(patientId), Some(appointmentId), Some(text), Some(summary)]);
  }

  /** update_patient with every argument given sends the same dictionary that
      create_patient inserts (less the id). */
  lemma PatientAllUpdates(name: Value, contact: Value, medicalHistory: Value, previousProcedures: Value)
    ensures PatientUpdates(Some(name), Some(contact), Some(medicalHistory), Some(previousProcedures))
         == PatientFields(name, contact, medicalHistory, previousProcedures)
  {
    EntityColumns();
    AllSuppliedIsFields(PatientColumns, [name, contact, medicalHistory, previousProcedures], [Some(name), Some(contact), Some(medicalHistory), Some(previousProcedures)]);
  }

  // ---------------------------------------------------------------------------
  // get_doctor_appointment_times

  /** The fixed day of get_doctor_appointment_times. */
  const Slots: seq<Value> := ["9:00", "9:30", "10:00", "10:30", "11:00", "11:30", "12:00", "12:30",
                              "13:00", "13:30", "14:00", "14:30", "15:00", "15:30", "16:00", "16:30",
                              "17:00", "17:30", "18:00", "18:30"]

  function DigitValue(c: char): int {
    c as int - '0' as int
  }

  /** Minutes since midnight of a time written "H:MM" or "HH:MM" (0 for any other shape). */
  function Minutes(t: string): int {
    if |t| == 4 then DigitValue(t[0]) * 60 + DigitValue(t[2]) * 10 + DigitValue(t[3])
    else if |t| == 5 then (DigitValue(t[0]) * 10 + DigitValue(t[1])) * 60 + DigitValue(t[3]) * 10 + DigitValue(t[4])
    else 0
  }

  /** The morning slots, 9:00 to 13:30. */
  lemma SlotScheduleMorning()
    ensures |Slots| == 20
    ensures forall i :: 0 <= i < 10 ==> Minutes(Slots[i]) == 9 * 60 + 30 * i
  {
    assert Minutes(Slots[0]) == 540;
    assert Minutes(Slots[1]) == 570;
    assert Minutes(Slots[2]) == 600;
    assert Minutes(Slots[3]) == 630;
    assert Minutes(Slots[4]) == 660;
    assert Minutes(Slots[5]) == 690;
    assert Minutes(Slots[6]) == 720;
    assert Minutes(Slots[7]) == 750;
    assert Minutes(Slots[8]) == 780;
    assert Minutes(Slots[9]) == 810;
  }

  /** The afternoon slots, 14:00 to 18:30. */
  lemma SlotScheduleAfternoon()
    ensures |Slots| == 20
    ensures forall i :: 10 <= i < 20 ==> Minutes(Slots[i]) == 9 * 60 + 30 * i
  {
    assert Minutes(Slots[10]) == 840;
    assert Minutes(Slots[11]) == 870;
    assert Minutes(Slots[12]) == 900;
    assert Minutes(Slots[13]) == 930;
    assert Minutes(Slots[14]) == 960;
    assert Minutes(Slots[15]) == 990;
    assert Minutes(Slots[16]) == 1020;
    assert Minutes(Slots[17]) == 1050;
    assert Minutes(Slots[18]) == 1080;
    assert Minutes(Slots[19]) == 1110;
  }

  /** The day is twenty half-hour slots, the first at 9:00 and the last at 18:30. */
  lemma SlotSchedule()
    ensures |Slots| == 20
    ensures forall i :: 0 <= i < |Slots| ==> Minutes(Slots[i]) == 9 * 60 + 30 * i
  {
    SlotScheduleMorning();
    SlotScheduleAfternoon();
  }

  /** No slot of the day is listed twice. */
  lemma SlotsDistinct()
    ensures Distinct(Slots)
  {
    SlotSchedule();
  }

  /** `set([appointment["time"] for appointment in data])`, with the KeyError
      raised by a row that has no "time" column. */
  function BookedTimes(data: seq<Row>): (r: Result<set<Value>, CrudError>)
    ensures r.Ok? <==> forall i :: 0 <= i < |data| ==> Time in data[i]
    ensures r.Err? ==> r.error == KeyError(Time)
    ensures r.Ok? ==> forall i :: 0 <= i < |data| ==> data[i][Time] in r.value
    ensures r.Ok? ==> forall t :: t in r.value ==> exists i :: 0 <= i < |data| && data[i][Time] == t
  {
    if forall i :: 0 <= i < |data| ==> Time in data[i] then
      Ok(set i | 0 <= i < |data| :: data[i][Time])
    else
      Err(KeyError(Time))
  }

  /** The slots, in their order, that are not booked. */
  function FreeSlots(slots: seq<Value>, booked: set<Value>): (free: seq<Value>)
    ensures forall t :: t in free <==> t in slots && t !in booked
    ensures Distinct(slots) ==> Distinct(free)
    ensures |free| <= |slots|
  {
    if slots == [] then []
    else if slots[0] in booked then FreeSlots(slots[1..], booked)
    else [slots[0]] + FreeSlots(slots[1..], booked)
  }

  /**
   * get_doctor_appointment_times: the slots of the fixed day that no returned
   * appointment occupies, without duplicates. Python builds the list from a set,
   * so its order is unspecified; this model lists the slots in day order.
   */
  function AvailableTimes(env: Env, response: Response): (r: Result<seq<Value>, CrudError>)
    ensures GetClient(env).Err? ==> r == Err(GetClient(env).error)
    ensures GetClient(env).Ok? && ResultRows(response).Err? ==> r == Err(ResultRows(response).error)
    ensures (GetClient(env).Ok? && ResultRows(response).Ok? && BookedTimes(ResultRows(response).value).Err?)
              ==> r == Err(KeyError(Time))
    ensures r.Ok? <==> GetClient(env).Ok? && ResultRows(response).Ok? && BookedTimes(ResultRows(response).value).Ok?
    ensures r.Ok? ==> Distinct(r.value) && |r.value| <= 20
    ensures r.Ok? ==> forall t :: t in r.value ==> t in Slots
    ensures r.Ok? ==> forall row :: row in ResultRows(response).value ==> row[Time] !in r.value
    ensures r.Ok? ==> forall t :: t in Slots && (forall row :: row in ResultRows(response).value ==> row[Time] != t)
                                 ==> t in r.value
  {
    SlotsDistinct();
    var _ :- GetClient(env);
    var rows :- ResultRows(response);
    var booked :- BookedTimes(rows);
    Ok(FreeSlots(Slots, booked))
  }

  /** With nothing booked, every slot of the day is free, in day order. */
  lemma {:induction false} NothingBookedAllFree(slots: seq<Value>)
    ensures FreeSlots(slots, {}) == slots
  {
    if slots != [] {
      NothingBookedAllFree(slots[1..]);
    }
  }

  /** FreeSlots on a list with a first element. */
  lemma FreeSlotsCons(x: Value, rest: seq<Value>, booked: set<Value>)
    ensures FreeSlots([x] + rest, booked)
         == if x in booked then FreeSlots(rest, booked) else [x] + FreeSlots(rest, booked)
  {
    var s := [x] + rest;
    assert s[0] == x && s[1..] == rest;
  }

  /** One more booking takes exactly its slot out of the free list and keeps the
      order of the rest. */
  lemma {:induction false} BookingRemovesSlot(slots: seq<Value>, booked: set<Value>, t: Value)
    ensures FreeSlots(slots, booked + {t}) == FreeSlots(FreeSlots(slots, booked), {t})
  {
    if slots != [] {
      var x, rest := slots[0], slots[1..];
      assert slots == [x] + rest;
      BookingRemovesSlot(rest, booked, t);
      FreeSlotsCons(x, rest, booked + {t});
      FreeSlotsCons(x, rest, booked);
      if x !in booked {
        FreeSlotsCons(x, FreeSlots(rest, booked), {t});
      }
    }
  }

  /** The distinct elements of a list. */
  function Elements(s: seq<Value>): set<Value> {
    set t | t in s
  }

  /** Adding an element outside a set adds one to the count of its booked
      members exactly when it is booked itself. */
  lemma BookedCountStep(booked: set<Value>, tail: set<Value>, x: Value)
    requires x !in tail
    ensures |booked * (tail + {x})| == |booked * tail| + (if x in booked then 1 else 0)
  {
    if x in booked {
      assert booked * (tail + {x}) == (booked * tail) + {x};
    } else {
      assert booked * (tail + {x}) == booked * tail;
    }
  }

  /** The number of free slots is the number of slots less the number of
      distinct booked times that are slots. */
  lemma {:induction false} FreeSlotCount(slots: seq<Value>, booked: set<Value>)
    requires Distinct(slots)
    ensures |FreeSlots(slots, booked)| == |slots| - |booked * Elements(slots)|
  {
    if slots != [] {
      var x, rest := slots[0], slots[1..];
      assert Distinct(rest);
      FreeSlotCount(rest, booked);
      assert Elements(slots) == Elements(rest) + {x} by {
        assert slots == [x] + rest;
      }
      assert x !in Elements(rest);
      BookedCountStep(booked, Elements(rest), x);
    }
  }

  /** Appointments returned for a doctor's day leave 20 minus the number of
      distinct booked slot times free. */
  lemma AvailableCount(env: Env, data: seq<Row>)
    requires GetClient(env).Ok?
    requires forall i :: 0 <= i < |data| ==> Time in data[i]
    ensures AvailableTimes(env, ApiResponse(None, Some(data))).Ok?
    ensures |AvailableTimes(env, ApiResponse(None, Some(data))).value|
         == 20 - |BookedTimes(data).value * Elements(Slots)|
  {
    SlotsDistinct();
    FreeSlotCount(Slots, BookedTimes(data).value);
  }
}
