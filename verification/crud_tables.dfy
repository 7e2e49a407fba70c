/**
 * The create_*, read_*, update_* and delete_* operations of
 * backend/core/crud.py against one table. The database table is a map from
 * the value of the table's id column to the row; each operation first obtains
 * a client (GetClient), changes the map as the database would, builds the
 * response the database returns, and hands it to the same unwrapping
 * (HandleError and the `[0]` or first-or-None that follows) the source applies.
 */
module CrudTables {
  import opened Wrappers
  import opened Crud

  /** One table: appointment (id column appointment_id), conversation
      (conversation_id) or patient (id). */
  class Table {
    /** The column `.eq(...)` selects rows by. */
    const idColumn: Column
    /** The columns create_* fills and update_* may change. */
    const columns: set<Column>
    /** The rows, keyed by their id. */
    var rows: map<Value, Row>

    ghost predicate Valid()
      reads this
    {
      && idColumn !in columns
      && forall id :: id in rows ==> idColumn in rows[id] && rows[id][idColumn] == id
    }

    constructor (idColumn: Column, columns: set<Column>)
      requires idColumn !in columns
      ensures Valid()
      ensures this.idColumn == idColumn && this.columns == columns && rows == map[]
    {
      this.idColumn := idColumn;
      this.columns := columns;
      rows := map[];
    }

    /** The rows `.eq(idColumn, id)` matches: at most one, since the id is the key. */
    function SelectById(id: Value): (selected: seq<Row>)
      reads this
      requires Valid()
      ensures |selected| <= 1
      ensures forall row :: row in selected <==> row in rows.Values && idColumn in row && row[idColumn] == id
    {
      if id in rows then [rows[id]] else []
    }

    /**
     * create_*: inserts the fresh id under the id column plus exactly the given
     * fields, and returns the first row the insert returns, which is that row.
     */
    method Create(env: Env, freshId: Value, fields: Row) returns (r: Result<Row, CrudError>)
      requires Valid()
      requires fields.Keys == columns
      requires freshId !in rows  // uuid4 gives an id no stored row has
      modifies this
      ensures Valid()
      ensures GetClient(env).Err? ==> r == Err(GetClient(env).error) && rows == old(rows)
      ensures GetClient(env).Ok? ==>
                && r == Ok(NewRecord(idColumn, freshId, fields))
                && rows == old(rows)[freshId := NewRecord(idColumn, freshId, fields)]
    {
      var client := GetClient(env);
      if client.Err? {
        return Err(client.error);
      }
      var record := NewRecord(idColumn, freshId, fields);
      rows := rows[freshId := record];
      r := FirstRow(ApiResponse(None, Some([record])));
    }

    /** read_*: the row with the given id, or None when there is none. */
    method Read(env: Env, id: Value) returns (r: Result<Option<Row>, CrudError>)
      requires Valid()
      ensures GetClient(env).Err? ==> r == Err(GetClient(env).error)
      ensures GetClient(env).Ok? && id in rows ==> r == Ok(Some(rows[id]))
      ensures GetClient(env).Ok? && id !in rows ==> r == Ok(None)
    {
      var client := GetClient(env);
      if client.Err? {
        return Err(client.error);
      }
      r := ReadFirst(ApiResponse(None, Some(SelectById(id))));
    }

    /**
     * update_*: writes the supplied columns into the row with the given id and
     * returns the updated row; every other row and every other column stays as
     * it was. No row with that id: the update returns an empty list and `[0]`
     * raises an IndexError.
     */
    method Update(env: Env, id: Value, updates: Row) returns (r: Result<Row, CrudError>)
      requires Valid()
      requires updates.Keys <= columns
      modifies this
      ensures Valid()
      ensures GetClient(env).Err? ==> r == Err(GetClient(env).error) && rows == old(rows)
      ensures GetClient(env).Ok? && id !in old(rows) ==> r == Err(IndexError) && rows == old(rows)
      ensures GetClient(env).Ok? && id in old(rows) ==>
                && rows == old(rows)[id := ApplyUpdates(old(rows)[id], updates)]
                && r == Ok(rows[id])
    {
      var client := GetClient(env);
      if client.Err? {
        return Err(client.error);
      }
      var matched := SelectById(id);
      if id in rows {
        rows := rows[id := ApplyUpdates(rows[id], updates)];
        matched := [rows[id]];
      }
      r := FirstRow(ApiResponse(None, Some(matched)));
    }

    /** delete_*: removes the row with the given id and returns the deleted rows. */
    method Delete(env: Env, id: Value) returns (r: Result<Handled, CrudError>)
      requires Valid()
      modifies this
      ensures Valid()
      ensures GetClient(env).Err? ==> r == Err(GetClient(env).error) && rows == old(rows)
      ensures GetClient(env).Ok? ==> rows == old(rows) - {id}
      ensures GetClient(env).Ok? && id in old(rows) ==> r == Ok(Data([old(rows)[id]]))
      ensures GetClient(env).Ok? && id !in old(rows) ==> r == Ok(Data([]))
    {
      var client := GetClient(env);
      if client.Err? {
        return Err(client.error);
      }
      var deleted := SelectById(id);
      rows := rows - {id};
      r := HandleError(ApiResponse(None, Some(deleted)));
    }
  }

  // ---------------------------------------------------------------------------
  // The per-entity create_* and update_* functions on their tables

  /** A table of appointments, keyed by appointment_id. */
  ghost predicate AppointmentTable(t: Table)
    reads t
  {
    t.Valid() && t.idColumn == AppointmentKey && t.columns == AppointmentColumnSet
  }

  /** A table of conversations, keyed by conversation_id. */
  ghost predicate ConversationTable(t: Table)
    reads t
  {
    t.Valid() && t.idColumn == ConversationKey && t.columns == ConversationColumnSet
  }

  /** A table of patients, keyed by id. */
  ghost predicate PatientTable(t: Table)
    reads t
  {
    t.Valid() && t.idColumn == PatientKey && t.columns == PatientColumnSet
  }

  /** create_appointment: stores and returns the new appointment, its fresh id
      under appointment_id next to the five given fields. */
  method CreateAppointment(t: Table, env: Env, freshId: Value, date: Value, time: Value,
                           patientId: Value, kind: Value, doctorId: Value)
      returns (r: Result<Row, CrudError>)
    requires AppointmentTable(t)
    requires freshId !in t.rows
    modifies t
    ensures AppointmentTable(t)
    ensures GetClient(env).Err? ==> r == Err(GetClient(env).error) && t.rows == old(t.rows)
    ensures GetClient(env).Ok? ==> r.Ok? && t.rows == old(t.rows)[freshId := r.value]
    ensures r.Ok? ==> && r.value.Keys == AppointmentColumnSet + {AppointmentId}
                      && r.value[AppointmentId] == freshId
                      && r.value[Date] == date && r.value[Time] == time && r.value[PatientId] == patientId
                      && r.value[Type] == kind && r.value[DoctorId] == doctorId
  {
    var fields := AppointmentFields(date, time, patientId, kind, doctorId);
    assert fields.Keys == t.columns;
    r := t.Create(env, freshId, fields);
  }

  /** update_appointment: the given fields of the appointment change, the others
      keep their values; IndexError when no appointment has the id. */
  method UpdateAppointment(t: Table, env: Env, id: Value, date: Option<Value>, time: Option<Value>,
                           patientId: Option<Value>, kind: Option<Value>, doctorId: Option<Value>)
      returns (r: Result<Row, CrudError>)
    requires AppointmentTable(t)
    modifies t
    ensures AppointmentTable(t)
    ensures GetClient(env).Err? ==> r == Err(GetClient(env).error) && t.rows == old(t.rows)
    ensures GetClient(env).Ok? && id !in old(t.rows) ==> r == Err(IndexError) && t.rows == old(t.rows)
    ensures GetClient(env).Ok? && id in old(t.rows) ==>
              && r.Ok? && t.rows == old(t.rows)[id := r.value]
              && r.value == ApplyUpdates(old(t.rows)[id], AppointmentUpdates(date, time, patientId, kind, doctorId))
  {
    r := t.Update(env, id, AppointmentUpdates(date, time, patientId, kind, doctorId));
  }

  /** create_conversation: stores and returns the new conversation, its fresh id
      under conversation_id next to the five given fields. */
  method CreateConversation(t: Table, env: Env, freshId: Value, doctorId: Value, patientId: Value,
                            appointmentId: Value, text: Value, summary: Value)
      returns (r: Result<Row, CrudError>)
    requires ConversationTable(t)
    requires freshId !in t.rows
    modifies t
    ensures ConversationTable(t)
    ensures GetClient(env).Err? ==> r == Err(GetClient(env).error) && t.rows == old(t.rows)
    ensures GetClient(env).Ok? ==> r.Ok? && t.rows == old(t.rows)[freshId := r.value]
    ensures r.Ok? ==> && r.value.Keys == ConversationColumnSet + {ConversationId}
                      && r.value[ConversationId] == freshId
                      && r.value[DoctorId] == doctorId && r.value[PatientId] == patientId
                      && r.value[AppointmentId] == appointmentId
                      && r.value[Text] == text && r.value[Summary] == summary
  {
    var fields := ConversationFields(doctorId, patientId, appointmentId, text, summary);
    assert fields.Keys == t.columns;
    r := t.Create(env, freshId, fields);
  }

  /** update_conversation: the given fields of the conversation change, the
      others keep their values; IndexError when no conversation has the id. */
  method UpdateConversation(t: Table, env: Env, id: Value, doctorId: Option<Value>, patientId: Option<Value>,
                            appointmentId: Option<Value>, text: Option<Value>, summary: Option<Value>)
      returns (r: Result<Row, CrudError>)
    requires ConversationTable(t)
    modifies t
    ensures ConversationTable(t)
    ensures GetClient(env).Err? ==> r == Err(GetClient(env).error) && t.rows == old(t.rows)
    ensures GetClient(env).Ok? && id !in old(t.rows) ==> r == Err(IndexError) && t.rows == old(t.rows)
    ensures GetClient(env).Ok? && id in old(t.rows) ==>
              && r.Ok? && t.rows == old(t.rows)[id := r.value]
              && r.value == ApplyUpdates(old(t.rows)[id], ConversationUpdates(doctorId, patientId, appointmentId, text, summary))
  {
    r := t.Update(env, id, ConversationUpdates(doctorId, patientId, appointmentId, text, summary));
  }

  /** create_patient: stores and returns the new patient, its fresh id under id
      next to the four given fields. */
  method CreatePatient(t: Table, env: Env, freshId: Value, name: Value, contact: Value,
                       medicalHistory: Value, previousProcedures: Value)
      returns (r: Result<Row, CrudError>)
    requires PatientTable(t)
    requires freshId !in t.rows
    modifies t
    ensures PatientTable(t)
    ensures GetClient(env).Err? ==> r == Err(GetClient(env).error) && t.rows == old(t.rows)
    ensures GetClient(env).Ok? ==> r.Ok? && t.rows == old(t.rows)[freshId := r.value]
    ensures r.Ok? ==> && r.value.Keys == PatientColumnSet + {Id}
                      && r.value[Id] == freshId
                      && r.value[Name] == name && r.value[Contact] == contact
                      && r.value[MedicalHistory] == medicalHistory
                      && r.value[PreviousProcedures] == previousProcedures
  {
    var fields := PatientFields(name, contact, medicalHistory, previousProcedures);
    assert fields.Keys == t.columns;
    r := t.Create(env, freshId, fields);
  }

  /** update_patient: the given fields of the patient change, the others keep
      their values; IndexError when no patient has the id. */
  method UpdatePatient(t: Table, env: Env, id: Value, name: Option<Value>, contact: Option<Value>,
                       medicalHistory: Option<Value>, previousProcedures: Option<Value>)
      returns (r: Result<Row, CrudError>)
    requires PatientTable(t)
    modifies t
    ensures PatientTable(t)
    ensures GetClient(env).Err? ==> r == Err(GetClient(env).error) && t.rows == old(t.rows)
    ensures GetClient(env).Ok? && id !in old(t.rows) ==> r == Err(IndexError) && t.rows == old(t.rows)
    ensures GetClient(env).Ok? && id in old(t.rows) ==>
              && r.Ok? && t.rows == old(t.rows)[id := r.value]
              && r.value == ApplyUpdates(old(t.rows)[id], PatientUpdates(name, contact, medicalHistory, previousProcedures))
  {
    r := t.Update(env, id, PatientUpdates(name, contact, medicalHistory, previousProcedures));
  }
}
