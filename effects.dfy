/** What the handlers do outside the database, recorded rather than
    performed: the replies they send, the emails they attempt (success or
    failure comes in as a parameter) and the files they try to unlink. */
module Effects {

  /** An HTTP reply: status code, the `success` flag where the body has
      one (true for 200 replies otherwise), and the message. */
  datatype Reply = Reply(code: nat, success: bool, message: string)

  /** A file multer stored for the request: `req.file.path` and `req.file.filename`. */
  datatype Upload = Upload(path: string, filename: string)

  datatype Recipient = To(address: string) | AdminInbox

  /** What an email is about; its wording and attachments are not modelled. */
  datatype Topic =
    | SubmissionReceived(id: nat)
    | NewSubmission(id: nat)
    | ApprovalNotice(id: nat)
    | RejectionNotice(id: nat, note: string)
    | Welcome
    | VerificationCode(code: string)
    | PasswordResetCode(code: string)
    | UsernameChangeCode(code: string)
    | AdminWelcome

  datatype Mail = Mail(to: Recipient, topic: Topic)

  /** Where an unlinked path is resolved: the process's working directory,
      or the application root (`path.join(__dirname, '..', p)`). */
  datatype PathBase = WorkingDirectory | AppRoot

  datatype Unlink = Unlink(base: PathBase, path: string)

  /** The log of attempted side effects. */
  class SideEffects {
    var mails: seq<Mail>
    var unlinks: seq<Unlink>

    constructor ()
      ensures mails == [] && unlinks == []
    {
      mails, unlinks := [], [];
    }

    method Send(m: Mail)
      modifies this
      ensures mails == old(mails) + [m] && unlinks == old(unlinks)
    {
      mails := mails + [m];
    }

    method Remove(u: Unlink)
      modifies this
      ensures unlinks == old(unlinks) + [u] && mails == old(mails)
    {
      unlinks := unlinks + [u];
    }
  }

  /** JavaScript's `value || fallback` for an optional string body field:
      the fallback when the field is absent or empty. */
  function OrElse(value: string, fallback: string): (r: string)
    ensures r == value || r == fallback
    ensures r == fallback <==> value == "" || value == fallback
  {
    if value != "" then value else fallback
  }
}
