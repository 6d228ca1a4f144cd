/** repositories/appointmentRepository.go: the appointments table, seen as a
    map from id to record, with the pets table (pet id to owner id) beside it
    for the join by owner. Eager loading of related rows is not modelled, and
    query results are keyed by id because the queries fix no order. */
module Repositories {
  import opened Outcomes
  import opened GoTime

  type Id = string

  datatype Appointment = Appointment(
    id: Id,
    petID: string,
    vetID: Option<string>,
    date: string,
    time: string,
    statusID: int,
    weightKg: Option<real>,
    temperature: Option<real>,
    reason: string,
    vaccinationStatus: string,
    medicationsPrescribed: string,
    additionalNotes: string)

  /** The column/value bag passed to `Update`: one optional slot per
      updatable column (a nullable column takes an `Option` value). */
  datatype Patch = Patch(
    petID: Option<string>,
    vetID: Option<Option<string>>,
    date: Option<string>,
    time: Option<string>,
    statusID: Option<int>,
    weightKg: Option<Option<real>>,
    temperature: Option<Option<real>>,
    reason: Option<string>,
    vaccinationStatus: Option<string>,
    medicationsPrescribed: Option<string>,
    additionalNotes: Option<string>)

  /** `len(fields) == 0`: no column is named. */
  predicate IsEmptyPatch(p: Patch)
    ensures IsEmptyPatch(p) <==>
      p == Patch(None, None, None, None, None, None, None, None, None, None, None)
  {
    && p.petID.None? && p.vetID.None? && p.date.None? && p.time.None? && p.statusID.None?
    && p.weightKg.None? && p.temperature.None? && p.reason.None? && p.vaccinationStatus.None?
    && p.medicationsPrescribed.None? && p.additionalNotes.None?
  }

  function Or<T>(o: Option<T>, current: T): T {
    if o.Some? then o.value else current
  }

  /** The record after `UPDATE ... SET` with the columns present in `p`. */
  function ApplyPatch(a: Appointment, p: Patch): (b: Appointment)
    ensures b.id == a.id
    ensures IsEmptyPatch(p) ==> b == a
    ensures p.petID.Some? ==> b.petID == p.petID.value
    ensures p.petID.None? ==> b.petID == a.petID
    ensures p.vetID.Some? ==> b.vetID == p.vetID.value
    ensures p.vetID.None? ==> b.vetID == a.vetID
    ensures p.date.Some? ==> b.date == p.date.value
    ensures p.date.None? ==> b.date == a.date
    ensures p.time.Some? ==> b.time == p.time.value
    ensures p.time.None? ==> b.time == a.time
    ensures p.statusID.Some? ==> b.statusID == p.statusID.value
    ensures p.statusID.None? ==> b.statusID == a.statusID
    ensures p.weightKg.Some? ==> b.weightKg == p.weightKg.value
    ensures p.weightKg.None? ==> b.weightKg == a.weightKg
    ensures p.temperature.Some? ==> b.temperature == p.temperature.value
    ensures p.temperature.None? ==> b.temperature == a.temperature
    ensures p.reason.Some? ==> b.reason == p.reason.value
    ensures p.reason.None? ==> b.reason == a.reason
    ensures p.vaccinationStatus.Some? ==> b.vaccinationStatus == p.vaccinationStatus.value
    ensures p.vaccinationStatus.None? ==> b.vaccinationStatus == a.vaccinationStatus
    ensures p.medicationsPrescribed.Some? ==> b.medicationsPrescribed == p.medicationsPrescribed.value
    ensures p.medicationsPrescribed.None? ==> b.medicationsPrescribed == a.medicationsPrescribed
    ensures p.additionalNotes.Some? ==> b.additionalNotes == p.additionalNotes.value
    ensures p.additionalNotes.None? ==> b.additionalNotes == a.additionalNotes
  {
    Appointment(a.id, Or(p.petID, a.petID), Or(p.vetID, a.vetID), Or(p.date, a.date),
                Or(p.time, a.time), Or(p.statusID, a.statusID), Or(p.weightKg, a.weightKg),
                Or(p.temperature, a.temperature), Or(p.reason, a.reason),
                Or(p.vaccinationStatus, a.vaccinationStatus),
                Or(p.medicationsPrescribed, a.medicationsPrescribed),
                Or(p.additionalNotes, a.additionalNotes))
  }

  datatype StoreError =
    | RecordNotFound       // gorm.ErrRecordNotFound, from `First`
    | DuplicateKey         // primary key already taken
    | ForeignKeyViolation  // pet_id names no pet

  const Active := 1
  const Completed := 2

  /** The status `Delete` writes: an active appointment becomes 2, anything else 1. */
  function ToggledStatus(status: int): (next: int)
    ensures next == Active || next == Completed
    ensures next == Completed <==> status == Active
  {
    if status == 1 then 2 else 1
  }

  /** Toggling twice restores statuses 1 and 2; status 3 goes to 1 and then 2. */
  lemma ToggleTwice(status: int)
    ensures status == 1 || status == 2 ==> ToggledStatus(ToggledStatus(status)) == status
    ensures status != 1 && status != 2 ==>
      ToggledStatus(status) == 1 && ToggledStatus(ToggledStatus(status)) == 2
  {
  }

  /** The records of `t` that satisfy `keep`, under their ids. */
  function Where(t: map<Id, Appointment>, keep: Appointment -> bool): (r: map<Id, Appointment>)
    ensures forall id :: id in r <==> id in t && keep(t[id])
    ensures forall id :: id in r ==> r[id] == t[id]
  {
    map id | id in t && keep(t[id]) :: t[id]
  }

  /** `status_id = 1 or status_id = 2 AND date = ?`: AND binds tighter, so
      every active appointment matches whatever its date. */
  predicate MatchesStatusAndDate(a: Appointment, dateText: string) {
    a.statusID == 1 || (a.statusID == 2 && a.date == dateText)
  }

  class AppointmentRepository {
    var table: map<Id, Appointment>
    var pets: map<string, string>

    /** Every record is stored under its own id. */
    ghost predicate Valid()
      reads this
    {
      forall id :: id in table ==> table[id].id == id
    }

    /** A store over tables that already hold rows: every appointment row
        carries the id it is keyed by. */
    constructor (table: map<Id, Appointment>, pets: map<string, string>)
      requires forall id :: id in table ==> table[id].id == id
      ensures Valid() && this.table == table && this.pets == pets
    {
      this.table := table;
      this.pets := pets;
    }

    /** `Create`: inserts the record, unless its id is taken or its pet does not exist. */
    method Create(app: Appointment) returns (err: Option<StoreError>)
      requires Valid()
      modifies this`table
      ensures Valid()
      ensures app.id in old(table) ==> err == Some(DuplicateKey) && table == old(table)
      ensures app.id !in old(table) && app.petID !in pets ==>
        err == Some(ForeignKeyViolation) && table == old(table)
      ensures app.id !in old(table) && app.petID in pets ==>
        err == None && table == old(table)[app.id := app]
      ensures err == None ==> GetByID(app.id) == Some(app)
    {
      if app.id in table {
        err := Some(DuplicateKey);
      } else if app.petID !in pets {
        err := Some(ForeignKeyViolation);
      } else {
        table := table[app.id := app];
        err := None;
      }
    }

    /** `GetByID`: a missing id is not an error, just no record. */
    function GetByID(id: Id): (r: Option<Appointment>)
      reads this
      ensures r.Some? <==> id in table
      ensures r.Some? ==> r.value == table[id]
    {
      if id in table then Some(table[id]) else None
    }

    function GetAll(): (r: map<Id, Appointment>)
      reads this
      ensures r.Keys == table.Keys
      ensures forall id :: id in r ==> r[id] == table[id]
    {
      table
    }

    /** The appointments of the pets `userID` owns (an inner join on pets). */
    function GetByUserID(userID: string): (r: map<Id, Appointment>)
      reads this
      ensures forall id :: id in r <==>
        id in table && table[id].petID in pets && pets[table[id].petID] == userID
      ensures forall id :: id in r ==> r[id] == table[id]
    {
      var owners := pets;
      Where(table, (a: Appointment) => a.petID in owners && owners[a.petID] == userID)
    }

    function GetAppointmentsByStatus(statusID: int): (r: map<Id, Appointment>)
      reads this
      ensures forall id :: id in r <==> id in table && table[id].statusID == statusID
      ensures forall id :: id in r ==> r[id] == table[id]
    {
      Where(table, (a: Appointment) => a.statusID == statusID)
    }

    /** The date is compared as the text "DD-MM-YYYY" it formats to. */
    function GetAppointmentsByStatusAndDate(date: Date): (r: map<Id, Appointment>)
      reads this
      ensures forall id :: id in r <==>
        id in table && (table[id].statusID == 1
                        || (table[id].statusID == 2 && table[id].date == FormatDate(date)))
      ensures forall id :: id in r ==> r[id] == table[id]
    {
      var dateText := FormatDate(date);
      Where(table, (a: Appointment) => MatchesStatusAndDate(a, dateText))
    }

    /** The completed visits of one pet. */
    function GetMedicalHistoryByPetID(petID: string): (r: map<Id, Appointment>)
      reads this
      ensures forall id :: id in r <==>
        id in table && table[id].petID == petID && table[id].statusID == Completed
      ensures forall id :: id in r ==> r[id] == table[id]
    {
      Where(table, (a: Appointment) => a.petID == petID && a.statusID == 2)
    }

    /** `Update`: an empty patch returns at once; otherwise the columns in the
        patch are written to the record with that id, if there is one. */
    method Update(id: Id, fields: Patch) returns (err: Option<StoreError>)
      requires Valid()
      modifies this`table
      ensures Valid()
      ensures err == None
      ensures IsEmptyPatch(fields) || id !in old(table) ==> table == old(table)
      ensures id in old(table) ==> table == old(table)[id := ApplyPatch(old(table)[id], fields)]
    {
      if IsEmptyPatch(fields) {
        return None;
      }
      if id in table {
        table := table[id := ApplyPatch(table[id], fields)];
      }
      err := None;
    }

    /** `UpdateStatus`: overwrites the status of the record with that id, if
        there is one; a missing id changes nothing and is not an error. */
    method UpdateStatus(id: Id, statusID: int) returns (err: Option<StoreError>)
      requires Valid()
      modifies this`table
      ensures Valid()
      ensures err == None
      ensures id !in old(table) ==> table == old(table)
      ensures id in old(table) ==> table == old(table)[id := old(table)[id].(statusID := statusID)]
    {
      if id in table {
        table := table[id := table[id].(statusID := statusID)];
      }
      err := None;
    }

    /** `Delete`: no row is removed; the status is toggled and the new status
        returned. A missing id is reported by `First` as record-not-found. */
    method Delete(id: Id) returns (newStatus: int, err: Option<StoreError>)
      requires Valid()
      modifies this`table
      ensures Valid()
      ensures id !in old(table) ==>
        newStatus == 0 && err == Some(RecordNotFound) && table == old(table)
      ensures id in old(table) ==>
        && err == None
        && newStatus == ToggledStatus(old(table)[id].statusID)
        && table == old(table)[id := old(table)[id].(statusID := newStatus)]
    {
      if id !in table {
        return 0, Some(RecordNotFound);
      }
      var app := table[id];
      newStatus := 1;
      if app.statusID == 1 {
        newStatus := 2;
      }
      table := table[id := app.(statusID := newStatus)];
      err := None;
    }
  }

  /** In a consistent store the record found under an id carries that id. */
  lemma GetByIDKeepsId(repo: AppointmentRepository, id: Id)
    requires repo.Valid()
    ensures repo.GetByID(id).Some? ==> repo.GetByID(id).value.id == id
  {
  }

  /** A record is in the medical history only once it is completed: one
      created active, or cancelled back to active, never appears there. */
  lemma MedicalHistoryNeedsCompleted(repo: AppointmentRepository, petID: string, id: Id)
    requires id in repo.table && repo.table[id].statusID != Completed
    ensures id !in repo.GetMedicalHistoryByPetID(petID)
  {
  }

  /** As written, the status/date query returns every active appointment,
      whatever its date, and no completed one on another date. */
  lemma StatusAndDatePrecedence(repo: AppointmentRepository, date: Date, id: Id)
    requires id in repo.table
    ensures repo.table[id].statusID == Active ==> id in repo.GetAppointmentsByStatusAndDate(date)
    ensures repo.table[id].statusID == Completed && repo.table[id].date != FormatDate(date) ==>
      id !in repo.GetAppointmentsByStatusAndDate(date)
    ensures repo.GetAppointmentsByStatusAndDate(date).Keys
            == repo.GetAppointmentsByStatus(Active).Keys
               + (repo.GetAppointmentsByStatus(Completed).Keys
                  * set id | id in repo.table && repo.table[id].date == FormatDate(date))
  {
  }
}
