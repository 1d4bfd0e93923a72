/** Hackathon applications and the handlers of the hackathon controller.
    The hackathon schema (models/hackathonModel.js) is not part of this
    model: its paths are the ones the controller writes and reads. Approve
    and reject take the id from the body (400 when it is missing), reject
    stores `remarks || ""`, only an application with an email address is
    mailed and a failed send is only logged; `getApplications` is unsorted,
    the status listings are sorted newest first. */
module HackathonApplications {
  import opened Store
  import opened Effects

  /** The paths the controller uses besides `status` and `createdAt`. A
      string path the request body left out is "" here; `remarks` is absent
      (None) until a rejection writes it. */
  datatype HackathonForm = HackathonForm(
    name: string, rollNumber: string, college: string, branch: string, semester: string,
    email: string, hackathonInstitute: string, startDate: string, endDate: string,
    hackathonCertificatePath: Option<string>, remarks: Option<string>)

  type Hackathon = Doc<HackathonForm>

  /** The body fields of a submission. */
  datatype Submission = Submission(
    name: string, rollNumber: string, college: string, branch: string, semester: string,
    hackathonInstitute: string, startDate: string, endDate: string, email: string)

  /** `req.file ? path.join('hackathonuploads', req.file.filename) : null`. */
  function CertificatePath(file: Option<Upload>): (p: Option<string>)
    ensures p.Some? <==> file.Some?
    ensures p.Some? ==> p.value == "hackathonuploads/" + file.value.filename
  {
    if file.Some? then Some("hackathonuploads/" + file.value.filename) else None
  }

  function NewHackathonForm(s: Submission, file: Option<Upload>): HackathonForm {
    HackathonForm(s.name, s.rollNumber, s.college, s.branch, s.semester,
                  s.email, s.hackathonInstitute, s.startDate, s.endDate, CertificatePath(file), None)
  }

  /** `submitForm`: saves the new document (status "Pending", createdAt now),
      then mails the student and, if that succeeded, the admin. A failed
      send makes the reply 500, but the document stays saved. */
  method SubmitForm(c: Collection<HackathonForm>, fx: SideEffects, s: Submission, file: Option<Upload>,
                    now: int, studentMailOk: bool, adminMailOk: bool) returns (reply: Reply)
    requires c.Valid()
    modifies c, fx
    ensures c.Valid() && c.nextId == old(c.nextId) + 1
    ensures c.docs == old(c.docs)[old(c.nextId) := Doc(old(c.nextId), Pending, now, NewHackathonForm(s, file))]
    ensures c.order == old(c.order) + [old(c.nextId)]
    ensures fx.unlinks == old(fx.unlinks)
    ensures fx.mails == old(fx.mails) + [Mail(To(s.email), SubmissionReceived(old(c.nextId)))]
                        + (if studentMailOk then [Mail(AdminInbox, NewSubmission(old(c.nextId)))] else [])
    ensures reply.code == (if studentMailOk && adminMailOk then 200 else 500)
    ensures reply.success <==> reply.code == 200
  {
    var id := c.Save(Pending, now, NewHackathonForm(s, file));
    fx.Send(Mail(To(s.email), SubmissionReceived(id)));
    if !studentMailOk {
      return Reply(500, false, "Something went wrong.");
    }
    fx.Send(Mail(AdminInbox, NewSubmission(id)));
    if !adminMailOk {
      return Reply(500, false, "Something went wrong.");
    }
    reply := Reply(200, true, "Form submitted and emails sent!");
  }

  /** `getApplications`: every application, in natural order (no sort). */
  method GetApplications(c: Collection<HackathonForm>) returns (r: seq<Hackathon>)
    requires c.Valid()
    ensures forall k :: 0 <= k < |r| ==> r[k].id in c.docs && c.docs[r[k].id] == r[k]
    ensures forall id :: id in c.docs ==> c.docs[id] in r
    ensures |r| == |c.order| && forall k :: 0 <= k < |r| ==> r[k].id == c.order[k]
  {
    r := c.Find();
  }

  /** `getApprovedApplications`, `getRejectedApplications`,
      `getPendingApplications`: exactly the applications whose status is
      `status`, newest first. */
  method GetByStatus(c: Collection<HackathonForm>, status: string) returns (r: seq<Hackathon>)
    requires c.Valid()
    ensures NewestFirst(r)
    ensures forall d :: d in r <==> d in c.Find() && d.status == status
    ensures multiset(r) == multiset(WithStatus(c.Find(), status))
  {
    r := SortNewestFirst(WithStatus(c.Find(), status));
    assert forall d :: d in r <==> d in multiset(r);
  }

  /** The approve update writes only the status: the fields, `remarks`
      included, stay as they were. */
  function KeepFields(f: HackathonForm): (g: HackathonForm)
    ensures g == f
  {
    f
  }

  /** The reject update's `remarks: remarks || ""`: the remarks are set,
      every other field stays. */
  function WithRemarks(remarks: string, f: HackathonForm): (g: HackathonForm)
    ensures g.remarks == Some(remarks)
    ensures g == f.(remarks := g.remarks)
  {
    f.(remarks := Some(remarks))
  }

  /** Sends the decision email when the request has an address; a failed
      send is only logged. */
  method Notify(fx: SideEffects, d: Hackathon, topic: Topic)
    modifies fx
    ensures fx.unlinks == old(fx.unlinks)
    ensures fx.mails == old(fx.mails) + (if d.fields.email != "" then [Mail(To(d.fields.email), topic)] else [])
  {
    if d.fields.email != "" {
      fx.Send(Mail(To(d.fields.email), topic));
    }
  }

  /** `approveApplication`: 400 without an id; otherwise sets status
      "Approved" (remarks of an earlier rejection stay) and replies 200 with
      the updated application whatever became of the email. No check that
      the application is still pending. */
  method ApproveApplication(c: Collection<HackathonForm>, fx: SideEffects, id: Option<IdParam>)
    returns (reply: Reply, application: Option<Hackathon>)
    requires c.Valid()
    modifies c, fx
    ensures c.Valid() && c.order == old(c.order) && c.nextId == old(c.nextId)
    ensures fx.unlinks == old(fx.unlinks)
    ensures id.None? ==>
              reply.code == 400 && application == None && c.docs == old(c.docs) && fx.mails == old(fx.mails)
    ensures id == Some(Malformed) ==>
              reply.code == 500 && application == None && c.docs == old(c.docs) && fx.mails == old(fx.mails)
    ensures id.Some? && id.value.ObjectId? && id.value.id !in old(c.docs) ==>
              reply.code == 404 && application == None && c.docs == old(c.docs) && fx.mails == old(fx.mails)
    ensures id.Some? && id.value.ObjectId? && id.value.id in old(c.docs) ==>
              var d := old(c.docs)[id.value.id].(status := Approved);
              c.docs == old(c.docs)[id.value.id := d] &&
              fx.mails == old(fx.mails) + (if d.fields.email != "" then [Mail(To(d.fields.email), ApprovalNotice(d.id))] else []) &&
              reply.code == 200 && application == Some(d)
  {
    if id.None? {
      return Reply(400, false, "ID is required"), None;
    }
    if id.value.Malformed? {
      return Reply(500, false, "Server error"), None;
    }
    var updated := c.FindByIdAndUpdate(id.value.id, Approved, KeepFields);
    if updated.None? {
      return Reply(404, false, "Application not found"), None;
    }
    var d := updated.value;
    Notify(fx, d, ApprovalNotice(d.id));
    reply, application := Reply(200, true, "Application approved"), Some(d);
  }

  /** `rejectApplication`: 400 without an id; otherwise sets status
      "Rejected" and stores `remarks || ""` (never absent afterwards, may be
      empty), and replies 200 whatever became of the email, which carries the
      stored remarks or 'No remarks provided'. */
  method RejectApplication(c: Collection<HackathonForm>, fx: SideEffects, id: Option<IdParam>, remarks: string)
    returns (reply: Reply, application: Option<Hackathon>)
    requires c.Valid()
    modifies c, fx
    ensures c.Valid() && c.order == old(c.order) && c.nextId == old(c.nextId)
    ensures fx.unlinks == old(fx.unlinks)
    ensures id.None? ==>
              reply.code == 400 && application == None && c.docs == old(c.docs) && fx.mails == old(fx.mails)
    ensures id == Some(Malformed) ==>
              reply.code == 500 && application == None && c.docs == old(c.docs) && fx.mails == old(fx.mails)
    ensures id.Some? && id.value.ObjectId? && id.value.id !in old(c.docs) ==>
              reply.code == 404 && application == None && c.docs == old(c.docs) && fx.mails == old(fx.mails)
    ensures id.Some? && id.value.ObjectId? && id.value.id in old(c.docs) ==>
              var old_d := old(c.docs)[id.value.id];
              var d := old_d.(status := Rejected, fields := old_d.fields.(remarks := Some(OrElse(remarks, ""))));
              var note := OrElse(OrElse(remarks, ""), "No remarks provided");
              c.docs == old(c.docs)[id.value.id := d] &&
              fx.mails == old(fx.mails) + (if d.fields.email != "" then [Mail(To(d.fields.email), RejectionNotice(d.id, note))] else []) &&
              reply.code == 200 && application == Some(d)
  {
    if id.None? {
      return Reply(400, false, "ID is required"), None;
    }
    if id.value.Malformed? {
      return Reply(500, false, "Server error"), None;
    }
    var updated := c.FindByIdAndUpdate(id.value.id, Rejected, (f: HackathonForm) => WithRemarks(OrElse(remarks, ""), f));
    if updated.None? {
      return Reply(404, false, "Application not found"), None;
    }
    var d := updated.value;
    Notify(fx, d, RejectionNotice(d.id, OrElse(d.fields.remarks.value, "No remarks provided")));
    reply, application := Reply(200, true, "Application rejected with remarks"), Some(d);
  }

  /** `deleteApplication`: removes the document, then attempts to unlink its
      certificate, resolved against the application root (a failure is only
      logged); 404 when there is none. */
  method DeleteApplication(c: Collection<HackathonForm>, fx: SideEffects, id: IdParam) returns (reply: Reply)
    requires c.Valid()
    modifies c, fx
    ensures c.Valid() && c.nextId == old(c.nextId)
    ensures fx.mails == old(fx.mails)
    ensures id.Malformed? ==>
              reply.code == 500 && c.docs == old(c.docs) && c.order == old(c.order) && fx.unlinks == old(fx.unlinks)
    ensures id.ObjectId? && id.id !in old(c.docs) ==>
              reply.code == 404 && c.docs == old(c.docs) && c.order == old(c.order) && fx.unlinks == old(fx.unlinks)
    ensures id.ObjectId? && id.id in old(c.docs) ==>
              var p := old(c.docs)[id.id].fields.hackathonCertificatePath;
              reply.code == 200 &&
              c.docs == old(c.docs) - {id.id} && c.order == Without(old(c.order), id.id) &&
              fx.unlinks == old(fx.unlinks) + (if p.Some? && p.value != "" then [Unlink(AppRoot, p.value)] else [])
  {
    if id.Malformed? {
      return Reply(500, false, "Failed to delete application");
    }
    var removed := c.FindByIdAndDelete(id.id);
    if removed.None? {
      return Reply(404, false, "Application not found");
    }
    var p := removed.value.fields.hackathonCertificatePath;
    if p.Some? && p.value != "" {
      fx.Remove(Unlink(AppRoot, p.value));
    }
    reply := Reply(200, true, "");
  }
}
