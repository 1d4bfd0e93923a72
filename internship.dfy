/** Internship applications: the `FormSubmission` schema and the handlers
    of the internship controller. The id always comes from the path, every
    email is awaited inside the handler's try block (so a failed send turns
    the reply into a 500 after the database was already changed), and every
    listing is sorted newest first. */
module InternshipForms {
  import opened Store
  import opened Effects

  /** The paths the schema declares besides `status` and `createdAt`. A
      string path the request body left out is "" here. */
  datatype Form = Form(
    name: string, rollNumber: string, college: string, branch: string, semester: string,
    internshipInstitute: string, startDate: string, endDate: string, email: string,
    offerLetterPath: Option<string>)

  type Application = Doc<Form>

  /** The body fields of a submission. */
  datatype Submission = Submission(
    name: string, rollNumber: string, college: string, branch: string, semester: string,
    internshipInstitute: string, startDate: string, endDate: string, email: string)

  /** `req.file?.path || null`: the stored upload's path, or null. */
  function OfferLetterPath(file: Option<Upload>): (p: Option<string>)
    ensures p.Some? <==> file.Some? && file.value.path != ""
    ensures p.Some? ==> p.value == file.value.path
  {
    if file.Some? && file.value.path != "" then Some(file.value.path) else None
  }

  /** The fields a new document is given. */
  function NewForm(s: Submission, file: Option<Upload>): Form {
    Form(s.name, s.rollNumber, s.college, s.branch, s.semester,
         s.internshipInstitute, s.startDate, s.endDate, s.email, OfferLetterPath(file))
  }

  /** `submitForm`: saves the new document (status "Pending", createdAt now),
      then mails the student and, if that succeeded, the admin. A failed
      send makes the reply 500, but the document stays saved. */
  method SubmitForm(c: Collection<Form>, fx: SideEffects, s: Submission, file: Option<Upload>,
                    now: int, studentMailOk: bool, adminMailOk: bool) returns (reply: Reply)
    requires c.Valid()
    modifies c, fx
    ensures c.Valid() && c.nextId == old(c.nextId) + 1
    ensures c.docs == old(c.docs)[old(c.nextId) := Doc(old(c.nextId), Pending, now, NewForm(s, file))]
    ensures c.order == old(c.order) + [old(c.nextId)]
    ensures fx.unlinks == old(fx.unlinks)
    ensures fx.mails == old(fx.mails) + [Mail(To(s.email), SubmissionReceived(old(c.nextId)))]
                        + (if studentMailOk then [Mail(AdminInbox, NewSubmission(old(c.nextId)))] else [])
    ensures reply.code == (if studentMailOk && adminMailOk then 200 else 500)
    ensures reply.success <==> reply.code == 200
  {
    var id := c.Save(Pending, now, NewForm(s, file));
    fx.Send(Mail(To(s.email), SubmissionReceived(id)));
    if !studentMailOk {
      return Reply(500, false, "Something went wrong.");
    }
    fx.Send(Mail(AdminInbox, NewSubmission(id)));
    if !adminMailOk {
      return Reply(500, false, "Something went wrong.");
    }
    reply := Reply(200, true, "Form submitted and emails sent!");
  }

  /** `getApplications`: every application, newest first. */
  method GetApplications(c: Collection<Form>) returns (r: seq<Application>)
    requires c.Valid()
    ensures NewestFirst(r)
    ensures multiset(r) == multiset(c.Find())
  {
    r := SortNewestFirst(c.Find());
  }

  /** `getApprovedApplications`, `getRejectedApplications`,
      `getPendingApplications`: exactly the applications whose status is
      `status`, newest first. */
  method GetByStatus(c: Collection<Form>, status: string) returns (r: seq<Application>)
    requires c.Valid()
    ensures NewestFirst(r)
    ensures forall d :: d in r <==> d in c.Find() && d.status == status
    ensures multiset(r) == multiset(WithStatus(c.Find(), status))
  {
    r := SortNewestFirst(WithStatus(c.Find(), status));
    assert forall d :: d in r <==> d in multiset(r);
  }

  /** The fields the reject update writes. The schema declares no
      `rejectionReason` path, and Mongoose's default strict mode drops
      undeclared paths from an update, so only the status changes. */
  function KeepFields(f: Form): (g: Form)
    ensures g == f
  {
    f
  }

  /** `approveApplication`: sets status "Approved" (nothing else, so nothing
      left by an earlier decision is cleared), then awaits the approval email;
      a failed send makes the reply 500 although the status is already stored.
      There is no check that the application is still pending. */
  method ApproveApplication(c: Collection<Form>, fx: SideEffects, id: IdParam, mailOk: bool)
    returns (reply: Reply, application: Option<Application>)
    requires c.Valid()
    modifies c, fx
    ensures c.Valid() && c.order == old(c.order) && c.nextId == old(c.nextId)
    ensures fx.unlinks == old(fx.unlinks)
    ensures id.Malformed? ==>
              reply.code == 500 && application == None && c.docs == old(c.docs) && fx.mails == old(fx.mails)
    ensures id.ObjectId? && id.id !in old(c.docs) ==>
              reply.code == 404 && application == None && c.docs == old(c.docs) && fx.mails == old(fx.mails)
    ensures id.ObjectId? && id.id in old(c.docs) ==>
              var d := old(c.docs)[id.id].(status := Approved);
              c.docs == old(c.docs)[id.id := d] &&
              fx.mails == old(fx.mails) + [Mail(To(d.fields.email), ApprovalNotice(id.id))] &&
              reply.code == (if mailOk then 200 else 500) &&
              application == (if mailOk then Some(d) else None)
  {
    if id.Malformed? {
      return Reply(500, false, "Failed to approve application"), None;
    }
    var updated := c.FindByIdAndUpdate(id.id, Approved, KeepFields);
    if updated.None? {
      return Reply(404, false, "Application not found"), None;
    }
    var d := updated.value;
    fx.Send(Mail(To(d.fields.email), ApprovalNotice(d.id)));
    if !mailOk {
      return Reply(500, false, "Failed to approve application"), None;
    }
    reply, application := Reply(200, true, ""), Some(d);
  }

  /** `rejectApplication`: sets status "Rejected"; the `reason` from the body
      is neither validated nor stored (see KeepFields), and appears in the
      email as itself or 'Not specified'. A failed send makes the reply 500
      although the status is already stored. */
  method RejectApplication(c: Collection<Form>, fx: SideEffects, id: IdParam, reason: string, mailOk: bool)
    returns (reply: Reply, application: Option<Application>)
    requires c.Valid()
    modifies c, fx
    ensures c.Valid() && c.order == old(c.order) && c.nextId == old(c.nextId)
    ensures fx.unlinks == old(fx.unlinks)
    ensures id.Malformed? ==>
              reply.code == 500 && application == None && c.docs == old(c.docs) && fx.mails == old(fx.mails)
    ensures id.ObjectId? && id.id !in old(c.docs) ==>
              reply.code == 404 && application == None && c.docs == old(c.docs) && fx.mails == old(fx.mails)
    ensures id.ObjectId? && id.id in old(c.docs) ==>
              var d := old(c.docs)[id.id].(status := Rejected);
              c.docs == old(c.docs)[id.id := d] &&
              fx.mails == old(fx.mails) + [Mail(To(d.fields.email), RejectionNotice(id.id, OrElse(reason, "Not specified")))] &&
              reply.code == (if mailOk then 200 else 500) &&
              application == (if mailOk then Some(d) else None)
  {
    if id.Malformed? {
      return Reply(500, false, "Failed to reject application"), None;
    }
    var updated := c.FindByIdAndUpdate(id.id, Rejected, KeepFields);
    if updated.None? {
      return Reply(404, false, "Application not found"), None;
    }
    var d := updated.value;
    fx.Send(Mail(To(d.fields.email), RejectionNotice(d.id, OrElse(reason, "Not specified"))));
    if !mailOk {
      return Reply(500, false, "Failed to reject application"), None;
    }
    reply, application := Reply(200, true, ""), Some(d);
  }

  /** `deleteApplication`: removes the document, then attempts to unlink its
      offer letter (a failure is only logged); 404 when there is none. */
  method DeleteApplication(c: Collection<Form>, fx: SideEffects, id: IdParam) returns (reply: Reply)
    requires c.Valid()
    modifies c, fx
    ensures c.Valid() && c.nextId == old(c.nextId)
    ensures fx.mails == old(fx.mails)
    ensures id.Malformed? ==>
              reply.code == 500 && c.docs == old(c.docs) && c.order == old(c.order) && fx.unlinks == old(fx.unlinks)
    ensures id.ObjectId? && id.id !in old(c.docs) ==>
              reply.code == 404 && c.docs == old(c.docs) && c.order == old(c.order) && fx.unlinks == old(fx.unlinks)
    ensures id.ObjectId? && id.id in old(c.docs) ==>
              var p := old(c.docs)[id.id].fields.offerLetterPath;
              reply.code == 200 &&
              c.docs == old(c.docs) - {id.id} && c.order == Without(old(c.order), id.id) &&
              fx.unlinks == old(fx.unlinks) + (if p.Some? && p.value != "" then [Unlink(WorkingDirectory, p.value)] else [])
  {
    if id.Malformed? {
      return Reply(500, false, "Failed to delete application");
    }
    var removed := c.FindByIdAndDelete(id.id);
    if removed.None? {
      return Reply(404, false, "Application not found");
    }
    var p := removed.value.fields.offerLetterPath;
    if p.Some? && p.value != "" {
      fx.Remove(Unlink(WorkingDirectory, p.value));
    }
    reply := Reply(200, true, "");
  }
}
