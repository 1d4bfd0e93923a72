/** Leave requests: the `LeaveRequest` schema and the handlers of the leave
    controller. Approve and reject take the id from the body (400 when it is
    missing), email only a request that has an email address, and only log a
    failed send; `getApplications` is sorted newest first, the status
    listings are not sorted. */
module LeaveRequests {
  import opened Store
  import opened Effects

  /** The paths the schema declares besides `status` and `createdAt`. A
      string path the request body left out is "" here. */
  datatype LeaveForm = LeaveForm(
    name: string, rollNumber: string, college: string, branch: string, semester: string,
    email: string, reason: string, startDate: string, endDate: string,
    receiptPath: Option<string>)

  type LeaveRequest = Doc<LeaveForm>

  /** The body fields of a submission. */
  datatype Submission = Submission(
    name: string, rollNumber: string, college: string, branch: string, semester: string,
    reason: string, startDate: string, endDate: string, email: string)

  /** `req.file ? \`pdfs/${req.file.filename}\` : null`. */
  function ReceiptPath(file: Option<Upload>): (p: Option<string>)
    ensures p.Some? <==> file.Some?
    ensures p.Some? ==> p.value == "pdfs/" + file.value.filename
  {
    if file.Some? then Some("pdfs/" + file.value.filename) else None
  }

  function NewLeaveForm(s: Submission, file: Option<Upload>): LeaveForm {
    LeaveForm(s.name, s.rollNumber, s.college, s.branch, s.semester,
              s.email, s.reason, s.startDate, s.endDate, ReceiptPath(file))
  }

  /** `submitForm`: saves the new document (status "Pending", createdAt now),
      then mails the student and, if that succeeded, the admin. A failed
      send makes the reply 500, but the document stays saved. */
  method SubmitForm(c: Collection<LeaveForm>, fx: SideEffects, s: Submission, file: Option<Upload>,
                    now: int, studentMailOk: bool, adminMailOk: bool) returns (reply: Reply)
    requires c.Valid()
    modifies c, fx
    ensures c.Valid() && c.nextId == old(c.nextId) + 1
    ensures c.docs == old(c.docs)[old(c.nextId) := Doc(old(c.nextId), Pending, now, NewLeaveForm(s, file))]
    ensures c.order == old(c.order) + [old(c.nextId)]
    ensures fx.unlinks == old(fx.unlinks)
    ensures fx.mails == old(fx.mails) + [Mail(To(s.email), SubmissionReceived(old(c.nextId)))]
                        + (if studentMailOk then [Mail(AdminInbox, NewSubmission(old(c.nextId)))] else [])
    ensures reply.code == (if studentMailOk && adminMailOk then 200 else 500)
    ensures reply.success <==> reply.code == 200
  {
    var id := c.Save(Pending, now, NewLeaveForm(s, file));
    fx.Send(Mail(To(s.email), SubmissionReceived(id)));
    if !studentMailOk {
      return Reply(500, false, "Something went wrong.");
    }
    fx.Send(Mail(AdminInbox, NewSubmission(id)));
    if !adminMailOk {
      return Reply(500, false, "Something went wrong.");
    }
    reply := Reply(200, true, "Form submitted and emails sent!");
  }

  /** `getApplications`: every request, newest first. */
  method GetApplications(c: Collection<LeaveForm>) returns (r: seq<LeaveRequest>)
    requires c.Valid()
    ensures NewestFirst(r)
    ensures multiset(r) == multiset(c.Find())
  {
    r := SortNewestFirst(c.Find());
  }

  /** `getApprovedApplications`, `getRejectedApplications`,
      `getPendingApplications`: exactly the requests whose status is
      `status`, in natural order (no sort). */
  method GetByStatus(c: Collection<LeaveForm>, status: string) returns (r: seq<LeaveRequest>)
    requires c.Valid()
    ensures forall d :: d in r <==> d in c.Find() && d.status == status
    ensures IsSubsequence(r, c.Find())
  {
    r := WithStatus(c.Find(), status);
  }

  /** The fields the reject update writes. The schema declares no `remarks`
      path, and Mongoose's default strict mode drops undeclared paths from an
      update, so only the status changes; the request's own `reason` stays. */
  function KeepFields(f: LeaveForm): (g: LeaveForm)
    ensures g == f
  {
    f
  }

  /** Sends the decision email when the request has an address; a failed
      send is only logged. */
  method Notify(fx: SideEffects, d: LeaveRequest, topic: Topic)
    modifies fx
    ensures fx.unlinks == old(fx.unlinks)
    ensures fx.mails == old(fx.mails) + (if d.fields.email != "" then [Mail(To(d.fields.email), topic)] else [])
  {
    if d.fields.email != "" {
      fx.Send(Mail(To(d.fields.email), topic));
    }
  }

  /** `approveApplication`: 400 without an id; otherwise sets status
      "Approved" (nothing else) and replies 200 with the updated request
      whatever became of the email. No check that the request is pending. */
  method ApproveApplication(c: Collection<LeaveForm>, fx: SideEffects, id: Option<IdParam>)
    returns (reply: Reply, application: Option<LeaveRequest>)
    requires c.Valid()
    modifies c, fx
    ensures c.Valid() && c.order == old(c.order) && c.nextId == old(c.nextId)
    ensures fx.unlinks == old(fx.unlinks)
    ensures id.None? ==>
              reply.code == 400 && application == None && c.docs == old(c.docs) && fx.mails == old(fx.mails)
    ensures id == Some(Malformed) ==>
              reply.code == 500 && application == None && c.docs == old(c.docs) && fx.mails == old(fx.mails)
    ensures id.Some? && id.value.ObjectId? && id.value.id !in old(c.docs) ==>
              reply.code == 404 && application == None && c.docs == old(c.docs) && fx.mails == old(fx.mails)
    ensures id.Some? && id.value.ObjectId? && id.value.id in old(c.docs) ==>
              var d := old(c.docs)[id.value.id].(status := Approved);
              c.docs == old(c.docs)[id.value.id := d] &&
              fx.mails == old(fx.mails) + (if d.fields.email != "" then [Mail(To(d.fields.email), ApprovalNotice(d.id))] else []) &&
              reply.code == 200 && application == Some(d)
  {
    if id.None? {
      return Reply(400, false, "ID is required"), None;
    }
    if id.value.Malformed? {
      return Reply(500, false, "Server error"), None;
    }
    var updated := c.FindByIdAndUpdate(id.value.id, Approved, KeepFields);
    if updated.None? {
      return Reply(404, false, "Application not found"), None;
    }
    var d := updated.value;
    Notify(fx, d, ApprovalNotice(d.id));
    reply, application := Reply(200, true, "Request approved"), Some(d);
  }

  /** `rejectApplication`: 400 without an id; otherwise sets status
      "Rejected" (the `reason` in the body is not stored, see KeepFields, and
      need not be given) and replies 200 whatever became of the email, which
      carries the reason or 'No reason provided'. */
  method RejectApplication(c: Collection<LeaveForm>, fx: SideEffects, id: Option<IdParam>, reason: string)
    returns (reply: Reply, application: Option<LeaveRequest>)
    requires c.Valid()
    modifies c, fx
    ensures c.Valid() && c.order == old(c.order) && c.nextId == old(c.nextId)
    ensures fx.unlinks == old(fx.unlinks)
    ensures id.None? ==>
              reply.code == 400 && application == None && c.docs == old(c.docs) && fx.mails == old(fx.mails)
    ensures id == Some(Malformed) ==>
              reply.code == 500 && application == None && c.docs == old(c.docs) && fx.mails == old(fx.mails)
    ensures id.Some? && id.value.ObjectId? && id.value.id !in old(c.docs) ==>
              reply.code == 404 && application == None && c.docs == old(c.docs) && fx.mails == old(fx.mails)
    ensures id.Some? && id.value.ObjectId? && id.value.id in old(c.docs) ==>
              var d := old(c.docs)[id.value.id].(status := Rejected);
              var note := OrElse(reason, "No reason provided");
              c.docs == old(c.docs)[id.value.id := d] &&
              fx.mails == old(fx.mails) + (if d.fields.email != "" then [Mail(To(d.fields.email), RejectionNotice(d.id, note))] else []) &&
              reply.code == 200 && application == Some(d)
  {
    if id.None? {
      return Reply(400, false, "ID is required"), None;
    }
    if id.value.Malformed? {
      return Reply(500, false, "Server error"), None;
    }
    var updated := c.FindByIdAndUpdate(id.value.id, Rejected, KeepFields);
    if updated.None? {
      return Reply(404, false, "Application not found"), None;
    }
    var d := updated.value;
    Notify(fx, d, RejectionNotice(d.id, OrElse(reason, "No reason provided")));
    reply, application := Reply(200, true, "Request rejected"), Some(d);
  }

  /** `deleteApplication`: removes the document, then attempts to unlink its
      receipt at the stored relative path (a failure is only logged); 404
      when there is none. */
  method DeleteApplication(c: Collection<LeaveForm>, fx: SideEffects, id: IdParam) returns (reply: Reply)
    requires c.Valid()
    modifies c, fx
    ensures c.Valid() && c.nextId == old(c.nextId)
    ensures fx.mails == old(fx.mails)
    ensures id.Malformed? ==>
              reply.code == 500 && c.docs == old(c.docs) && c.order == old(c.order) && fx.unlinks == old(fx.unlinks)
    ensures id.ObjectId? && id.id !in old(c.docs) ==>
              reply.code == 404 && c.docs == old(c.docs) && c.order == old(c.order) && fx.unlinks == old(fx.unlinks)
    ensures id.ObjectId? && id.id in old(c.docs) ==>
              var p := old(c.docs)[id.id].fields.receiptPath;
              reply.code == 200 &&
              c.docs == old(c.docs) - {id.id} && c.order == Without(old(c.order), id.id) &&
              fx.unlinks == old(fx.unlinks) + (if p.Some? && p.value != "" then [Unlink(WorkingDirectory, p.value)] else [])
  {
    if id.Malformed? {
      return Reply(500, false, "Failed to delete application");
    }
    var removed := c.FindByIdAndDelete(id.id);
    if removed.None? {
      return Reply(404, false, "Application not found");
    }
    var p := removed.value.fields.receiptPath;
    if p.Some? && p.value != "" {
      fx.Remove(Unlink(WorkingDirectory, p.value));
    }
    reply := Reply(200, true, "");
  }
}
