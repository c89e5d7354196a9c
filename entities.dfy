/**
 * The records the scheduler consumes and produces, with the JSON-encoded fields of the
 * stored rows already decoded into typed sets.
 */
module Entities {
  import opened Calendar

  type DoctorId = int
  type ClinicId = int

  /** A clinic (external duty location): its fee per duty, its recurrence pattern
      (`frequency`) and the doctors it nominates (`preferred_doctors`). */
  datatype Clinic = Clinic(id: ClinicId, fee: int, frequency: string, nominated: set<DoctorId>)

  /** A doctor's wishes for the target month: hard-unavailable dates (NG), dates to
      avoid if possible, and preferred clinics. */
  datatype Preference = Preference(
    doctor: DoctorId, ngDates: set<Date>, avoidDates: set<Date>, preferredClinics: set<ClinicId>)

  /** The affinity weight of a doctor for a clinic. */
  datatype Affinity = Affinity(doctor: DoctorId, clinic: ClinicId, weight: real)

  /** The key of the clinic tables (`c["id"]`). */
  function ClinicKey(c: Clinic): ClinicId { c.id }

  /** A (clinic, date) pair to be staffed; also the key of a date override. */
  datatype Slot = Slot(clinic: ClinicId, date: Date)

  /** One doctor on duty at one clinic on one date. */
  datatype Assignment = Assignment(date: Date, clinic: ClinicId, doctor: DoctorId)

  /** The affinity weights that carry hard-constraint meaning. */
  const PriorityMust: real := 2.0      // must go at least once in the month
  const PriorityPossible: real := 1.0  // may go
  const PriorityNever: real := 0.0     // must never go
}
