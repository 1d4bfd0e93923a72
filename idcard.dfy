/** ID-card requests: the `IdRequest` schema. Unlike the other kinds it has
    no `createdAt`, names the student `studentName`, and restricts `status`
    to three lower-case values. Its controller is not part of this model. */
module IdRequests {
  import Strings
  import opened Effects

  /** The schema's enum: 'pending', 'approved', 'rejected'. */
  datatype IdStatus = IdPending | IdApproved | IdRejected

  function StatusName(s: IdStatus): (name: string)
    ensures Strings.Lower(name) == name
    ensures name != "Pending" && name != "Approved" && name != "Rejected"
  {
    match s
    case IdPending => "pending"
    case IdApproved => "approved"
    case IdRejected => "rejected"
  }

  /** A stored request. A string path left out is "" here. */
  datatype IdRequest = IdRequest(
    id: nat, studentName: string, rollNumber: string, year: string, department: string,
    residence: string, college: string, phone: string, email: string, transport: string,
    requestDate: string, reason: string, status: IdStatus)

  /** The body of a new request; `requestDate` and `status` may be left out. */
  datatype IdForm = IdForm(
    studentName: string, rollNumber: string, year: string, department: string,
    residence: string, college: string, phone: string, email: string, transport: string,
    requestDate: string, reason: string)

  /** A new document as the schema's defaults complete it. The `requestDate`
      default is the day `new Date().toISOString()` gave when the schema was
      defined, at process start (`schemaDay`), not the day of the request. */
  function NewIdRequest(id: nat, f: IdForm, schemaDay: string): (r: IdRequest)
    ensures r.status == IdPending
    ensures r.requestDate == (if f.requestDate == "" then schemaDay else f.requestDate)
    ensures r.id == id && r.studentName == f.studentName && r.email == f.email
  {
    IdRequest(id, f.studentName, f.rollNumber, f.year, f.department, f.residence, f.college,
              f.phone, f.email, f.transport, OrElse(f.requestDate, schemaDay), f.reason, IdPending)
  }
}
