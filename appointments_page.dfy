/**
 * The provider's appointments page (app/appointments/page.tsx): after the status
 * update succeeds, `handleStatusChange` rewrites the local list, giving every
 * appointment with the chosen id the new status. The database update is an input:
 * whether it reported an error.
 */
module AppointmentsPage {

  datatype Appointment = Appointment(
    id: string,
    serviceName: string,
    clientName: string,
    date: string,
    status: string)

  /** The list after the local update of line 45. */
  function WithStatus(appointments: seq<Appointment>, appointmentId: string, newStatus: string)
    : (r: seq<Appointment>)
    ensures |r| == |appointments|
    ensures forall i :: 0 <= i < |r| ==>
      r[i] == if appointments[i].id == appointmentId then appointments[i].(status := newStatus)
              else appointments[i]
  {
    if appointments == [] then []
    else
      var a := appointments[0];
      [if a.id == appointmentId then a.(status := newStatus) else a]
        + WithStatus(appointments[1..], appointmentId, newStatus)
  }

  class AppointmentsView {
    var appointments: seq<Appointment>

    constructor(fetched: seq<Appointment>)
      ensures appointments == fetched
    {
      appointments := fetched;
    }

    /** Lines 39-47: the list changes only when the update reported no error. */
    method HandleStatusChange(appointmentId: string, newStatus: string, updateFailed: bool)
      modifies this
      ensures updateFailed ==> appointments == old(appointments)
      ensures !updateFailed ==> appointments == WithStatus(old(appointments), appointmentId, newStatus)
    {
      if !updateFailed {
        appointments := WithStatus(appointments, appointmentId, newStatus);
      }
    }
  }

  /** The ids of the listed appointments, in list order. */
  function AppointmentIds(appointments: seq<Appointment>): seq<string>
  {
    if appointments == [] then [] else [appointments[0].id] + AppointmentIds(appointments[1..])
  }

  /** A status change keeps the list's appointments and their order: the ids read
      the same. */
  lemma {:induction false} StatusChangeKeepsIds(appointments: seq<Appointment>, appointmentId: string,
                                                newStatus: string)
    ensures AppointmentIds(WithStatus(appointments, appointmentId, newStatus)) == AppointmentIds(appointments)
  {
    if appointments != [] {
      StatusChangeKeepsIds(appointments[1..], appointmentId, newStatus);
    }
  }

  /** Applying the same change twice is the same as applying it once. */
  lemma StatusChangeIdempotent(appointments: seq<Appointment>, appointmentId: string, newStatus: string)
    ensures WithStatus(WithStatus(appointments, appointmentId, newStatus), appointmentId, newStatus)
      == WithStatus(appointments, appointmentId, newStatus)
  {
    var once := WithStatus(appointments, appointmentId, newStatus);
    var twice := WithStatus(once, appointmentId, newStatus);
    assert |twice| == |once|;
    forall i | 0 <= i < |once|
      ensures twice[i] == once[i]
    {
    }
  }

  /** No guard on the current status (lines 72-79): a cancelled appointment can be
      confirmed again. */
  lemma CancelledCanBeConfirmed(a: Appointment)
    requires a.status == "cancelled"
    ensures WithStatus([a], a.id, "confirmed") == [a.(status := "confirmed")]
  {
  }
}
