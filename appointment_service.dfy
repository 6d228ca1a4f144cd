/** services/appointmentService.go: the service holds the repository and
    forwards to it; only `DeleteAppointment` adds behaviour of its own, the
    message for the status the toggle produced. */
module Services {
  import opened Outcomes
  import opened GoTime
  import opened Repositories

  const ReactivatedMessage := "Cita reactivada correctamente"
  const CancelledMessage := "Cita cancelada correctamente"

  /** The message for the status `Delete` wrote: back to active means reactivated. */
  function DeleteMessage(newStatus: int): (message: string)
    ensures message == ReactivatedMessage <==> newStatus == Active
    ensures message == CancelledMessage <==> newStatus != Active
  {
    if newStatus == 1 then ReactivatedMessage else CancelledMessage
  }

  /** After a successful delete the message tells which way the status went:
      an active appointment is cancelled, any other one is reactivated. */
  lemma DeleteMessageOfToggle(status: int)
    ensures DeleteMessage(ToggledStatus(status)) == CancelledMessage <==> status == Active
    ensures DeleteMessage(ToggledStatus(status)) == ReactivatedMessage <==> status != Active
  {
  }

  class AppointmentService {
    const repo: AppointmentRepository

    constructor (repo: AppointmentRepository)
      ensures this.repo == repo
    {
      this.repo := repo;
    }

    method CreateAppointment(app: Appointment) returns (err: Option<StoreError>)
      requires repo.Valid()
      modifies repo`table
      ensures repo.Valid()
      ensures app.id in old(repo.table) ==> err == Some(DuplicateKey) && repo.table == old(repo.table)
      ensures app.id !in old(repo.table) && app.petID !in repo.pets ==>
        err == Some(ForeignKeyViolation) && repo.table == old(repo.table)
      ensures app.id !in old(repo.table) && app.petID in repo.pets ==>
        err == None && repo.table == old(repo.table)[app.id := app]
    {
      err := repo.Create(app);
    }

    function GetAppointmentByID(id: Id): (r: Option<Appointment>)
      reads repo
      ensures r.Some? <==> id in repo.table
      ensures r.Some? ==> r.value == repo.table[id] && r == repo.GetByID(id)
    {
      repo.GetByID(id)
    }

    function GetAllAppointments(): (r: map<Id, Appointment>)
      reads repo
      ensures r == repo.table
    {
      repo.GetAll()
    }

    method UpdateAppointment(id: Id, fields: Patch) returns (err: Option<StoreError>)
      requires repo.Valid()
      modifies repo`table
      ensures repo.Valid()
      ensures err == None
      ensures IsEmptyPatch(fields) || id !in old(repo.table) ==> repo.table == old(repo.table)
      ensures id in old(repo.table) ==>
        repo.table == old(repo.table)[id := ApplyPatch(old(repo.table)[id], fields)]
    {
      err := repo.Update(id, fields);
    }

    function GetAppointmentsByStatus(statusID: int): (r: map<Id, Appointment>)
      reads repo
      ensures forall id :: id in r <==> id in repo.table && repo.table[id].statusID == statusID
      ensures r == repo.GetAppointmentsByStatus(statusID)
    {
      repo.GetAppointmentsByStatus(statusID)
    }

    function GetAppointmentsByStatusAndDate(date: Date): (r: map<Id, Appointment>)
      reads repo
      ensures forall id :: id in r <==> id in repo.table && MatchesStatusAndDate(repo.table[id], FormatDate(date))
      ensures r == repo.GetAppointmentsByStatusAndDate(date)
    {
      repo.GetAppointmentsByStatusAndDate(date)
    }

    method UpdateStatus(id: Id, statusID: int) returns (err: Option<StoreError>)
      requires repo.Valid()
      modifies repo`table
      ensures repo.Valid()
      ensures err == None
      ensures id !in old(repo.table) ==> repo.table == old(repo.table)
      ensures id in old(repo.table) ==>
        repo.table == old(repo.table)[id := old(repo.table)[id].(statusID := statusID)]
    {
      err := repo.UpdateStatus(id, statusID);
    }

    function GetByUserID(userID: string): (r: map<Id, Appointment>)
      reads repo
      ensures forall id :: id in r <==>
        id in repo.table && repo.table[id].petID in repo.pets && repo.pets[repo.table[id].petID] == userID
      ensures r == repo.GetByUserID(userID)
    {
      repo.GetByUserID(userID)
    }

    function GetMedicalHistoryByPetID(petID: string): (r: map<Id, Appointment>)
      reads repo
      ensures forall id :: id in r <==>
        id in repo.table && repo.table[id].petID == petID && repo.table[id].statusID == Completed
      ensures r == repo.GetMedicalHistoryByPetID(petID)
    {
      repo.GetMedicalHistoryByPetID(petID)
    }

    /** Toggles the status and reports which way it went; on a repository
        error the message is empty and the error is passed on unchanged. */
    method DeleteAppointment(id: Id) returns (message: string, err: Option<StoreError>)
      requires repo.Valid()
      modifies repo`table
      ensures repo.Valid()
      ensures id !in old(repo.table) ==>
        message == "" && err == Some(RecordNotFound) && repo.table == old(repo.table)
      ensures id in old(repo.table) ==>
        && err == None
        && (message == CancelledMessage <==> old(repo.table)[id].statusID == Active)
        && (message == ReactivatedMessage <==> old(repo.table)[id].statusID != Active)
        && repo.table == old(repo.table)[id := old(repo.table)[id].(statusID := ToggledStatus(old(repo.table)[id].statusID))]
    {
      var newStatus, e := repo.Delete(id);
      if e.Some? {
        return "", e;
      }
      DeleteMessageOfToggle(old(repo.table)[id].statusID);
      message, err := DeleteMessage(newStatus), None;
    }
  }

  /** Deleting an active appointment twice: first cancelled, then reactivated,
      and the table is back where it started. */
  method DeleteTwice(svc: AppointmentService, id: Id) returns (first: string, second: string)
    requires svc.repo.Valid()
    requires id in svc.repo.table && svc.repo.table[id].statusID == Active
    modifies svc.repo`table
    ensures first == CancelledMessage && second == ReactivatedMessage
    ensures svc.repo.table == old(svc.repo.table)
  {
    var e1, e2;
    first, e1 := svc.DeleteAppointment(id);
    second, e2 := svc.DeleteAppointment(id);
  }
}
