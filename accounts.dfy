/**
 * The records the dashboard receives from the backend: users (`/api/users`)
 * and appointments joined with names and the medical record
 * (`/api/appointments`).
 */
module Accounts {
  import opened Wrappers

  /** An `id` as JSON carries it: a number from the database or a string. */
  datatype Id = Num(n: int) | Str(s: string)

  /** JavaScript truthiness of an id: `0` and `""` are falsy. */
  predicate IdTruthy(id: Id)
  {
    match id
    case Num(n) => n != 0
    case Str(s) => s != ""
  }

  /** `{id, name, email, role, spec}`; `spec` is `""` where the object has none. */
  datatype User = User(id: Id, name: string, email: string, role: string, spec: string)

  /** The vitals a doctor writes when completing a visit. */
  datatype Record = Record(bp: string, heartRate: string, temp: string, weight: string, comments: string)

  /** `{id, docId, patId, datetime, status, patName, docName, docSpec, record?}`. */
  datatype Appointment = Appointment(
    id: Id,
    docId: Id,
    patId: Id,
    datetime: string,
    status: string,
    patName: string,
    docName: string,
    docSpec: string,
    record: Option<Record>)

  const AdminRole := "admin"
  const DoctorRole := "doctor"
  const PatientRole := "patient"

  const Pending := "Pending"
  const Completed := "Completed"
  const Cancelled := "Cancelled"
}
