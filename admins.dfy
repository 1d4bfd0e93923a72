/** Administrator accounts (`adminAddModel`) and the handlers of the admin
    account controller: adding an admin, admin login, and password reset by
    one-time code. Accounts are kept in natural order; an account's id is
    its position. */
module AdminAccounts {
  import opened Store
  import opened Effects
  import opened Otp

  /** A stored admin: the schema's paths. */
  datatype Admin = Admin(
    email: string, password: string,
    verifyOtp: string, verifyOtpExpireAt: Millis,
    resetOtp: string, resetOtpExpireAt: Millis)

  /** `adminAddModel.create({ email, password })`: both codes default to ''
      and both expiries to 0. */
  function NewAdmin(email: string, hashed: string): (a: Admin)
    ensures a.email == email && a.password == hashed
    ensures a.verifyOtp == "" && a.resetOtp == ""
    ensures a.verifyOtpExpireAt == At(0) && a.resetOtpExpireAt == At(0)
  {
    Admin(email, hashed, "", At(0), "", At(0))
  }

  /** `adminAddModel.findOne({ email })`. */
  function FindByEmail(admins: seq<Admin>, email: string): (r: Option<nat>)
    ensures r.Some? ==> r.value < |admins| && admins[r.value].email == email
    ensures r.Some? ==> forall j :: 0 <= j < r.value ==> admins[j].email != email
    ensures r.None? <==> forall j :: 0 <= j < |admins| ==> admins[j].email != email
  {
    FindFirst(admins, (a: Admin) => a.email == email)
  }

  class Admins {
    var admins: seq<Admin>

    /** The schema's `required` and `unique` on `email`: every admin has an
        address and no two share one. */
    ghost predicate Valid()
      reads this
    {
      (forall i :: 0 <= i < |admins| ==> admins[i].email != "") &&
      (forall i, j :: 0 <= i < j < |admins| ==> admins[i].email != admins[j].email)
    }

    constructor ()
      ensures Valid() && admins == []
    {
      admins := [];
    }

    /** `register`: email and password required; an address already in use
        is refused; otherwise the admin is created with the hashed password
        and a welcome email is awaited, whose failure makes the reply 500
        although the admin exists. */
    method Register(fx: SideEffects, email: string, password: string, hashed: string, mailOk: bool)
      returns (reply: Reply)
      requires Valid()
      modifies this, fx
      ensures Valid()
      ensures fx.unlinks == old(fx.unlinks)
      ensures email == "" || password == "" ==>
                reply == Reply(400, false, "Please Fill All Fields !") &&
                admins == old(admins) && fx.mails == old(fx.mails)
      ensures email != "" && password != "" && FindByEmail(old(admins), email).Some? ==>
                reply == Reply(400, false, "User Already Exists !") &&
                admins == old(admins) && fx.mails == old(fx.mails)
      ensures email != "" && password != "" && FindByEmail(old(admins), email).None? ==>
                admins == old(admins) + [NewAdmin(email, hashed)] &&
                fx.mails == old(fx.mails) + [Mail(To(email), AdminWelcome)] &&
                reply.code == (if mailOk then 200 else 500) && (reply.success <==> mailOk)
    {
      if email == "" || password == "" {
        return Reply(400, false, "Please Fill All Fields !");
      }
      if FindByEmail(admins, email).Some? {
        return Reply(400, false, "User Already Exists !");
      }
      admins := admins + [NewAdmin(email, hashed)];
      fx.Send(Mail(To(email), AdminWelcome));
      if !mailOk {
        return Reply(500, false, "Failed to send welcome email");
      }
      reply := Reply(200, true, "Admin Added Successfully");
    }

    /** `login`: the admin with this email, if the password matches its
        stored hash. An unknown address and a wrong password get the same
        reply. */
    method Login(email: string, password: string, matches: (string, string) -> bool)
      returns (reply: Reply, who: Option<nat>)
      ensures email == "" || password == "" ==>
                reply == Reply(400, false, "Please Fill All Fields !") && who == None
      ensures email != "" && password != "" ==>
                var found := FindByEmail(admins, email);
                if found.Some? && matches(password, admins[found.value].password)
                then who == found && reply == Reply(200, true, "Login Success !")
                else who == None && reply == Reply(400, false, "Invalid Credentials !")
    {
      if email == "" || password == "" {
        return Reply(400, false, "Please Fill All Fields !"), None;
      }
      var found := FindByEmail(admins, email);
      if found.None? {
        return Reply(400, false, "Invalid Credentials !"), None;
      }
      if !matches(password, admins[found.value].password) {
        return Reply(400, false, "Invalid Credentials !"), None;
      }
      reply, who := Reply(200, true, "Login Success !"), found;
    }

    /** `sendResetOtp`: 400 without an email or for an unknown one;
        otherwise a fresh reset code valid for ten minutes is stored, then
        the email is sent, and the reply is 500 if sending failed (the code
        stays stored). */
    method SendResetOtp(fx: SideEffects, email: string, code: string, now: int, mailOk: bool)
      returns (reply: Reply)
      requires Valid()
      requires IsCode(code)
      modifies this, fx
      ensures Valid()
      ensures fx.unlinks == old(fx.unlinks)
      ensures email == "" ==>
                reply == Reply(400, false, "Please provide an email address") &&
                admins == old(admins) && fx.mails == old(fx.mails)
      ensures email != "" && FindByEmail(old(admins), email).None? ==>
                reply == Reply(400, false, "User not found!") && admins == old(admins) && fx.mails == old(fx.mails)
      ensures email != "" && FindByEmail(old(admins), email).Some? ==>
                var i := FindByEmail(old(admins), email).value;
                admins == old(admins)[i := old(admins)[i].(resetOtp := code, resetOtpExpireAt := At(now + Lifetime))] &&
                fx.mails == old(fx.mails) + [Mail(To(email), PasswordResetCode(code))] &&
                reply.code == (if mailOk then 200 else 500) && (reply.success <==> mailOk)
    {
      if email == "" {
        return Reply(400, false, "Please provide an email address");
      }
      var found := FindByEmail(admins, email);
      if found.None? {
        return Reply(400, false, "User not found!");
      }
      var i := found.value;
      admins := admins[i := admins[i].(resetOtp := code, resetOtpExpireAt := At(now + Lifetime))];
      fx.Send(Mail(To(email), PasswordResetCode(code)));
      if !mailOk {
        return Reply(500, false, "Failed to send reset OTP email.");
      }
      reply := Reply(200, true, "Reset OTP sent successfully to your email.");
    }

    /** `resetPassword`: on an accepted reset code the new password's hash
        replaces the old one and the code is cleared; nothing else changes. */
    method ResetPassword(email: string, otp: string, newPassword: string, newHash: string, now: int)
      returns (reply: Reply)
      requires Valid()
      modifies this
      ensures Valid()
      ensures email == "" || otp == "" || newPassword == "" ==>
                reply == Reply(400, false, "Please fill all the fields") && admins == old(admins)
      ensures email != "" && otp != "" && newPassword != "" && FindByEmail(old(admins), email).None? ==>
                reply == Reply(400, false, "User not found!") && admins == old(admins)
      ensures email != "" && otp != "" && newPassword != "" && FindByEmail(old(admins), email).Some? ==>
                var i := FindByEmail(old(admins), email).value;
                var a := old(admins)[i];
                match CheckCode(a.resetOtp, a.resetOtpExpireAt, otp, now)
                case InvalidCode => reply == Reply(400, false, "Invalid OTP!") && admins == old(admins)
                case ExpiredCode => reply == Reply(400, false, "OTP expired!") && admins == old(admins)
                case Accepted =>
                  reply == Reply(200, true, "Password reset successfully!") &&
                  admins == old(admins)[i := a.(password := newHash, resetOtp := "", resetOtpExpireAt := At(0))]
    {
      if email == "" || otp == "" || newPassword == "" {
        return Reply(400, false, "Please fill all the fields");
      }
      var found := FindByEmail(admins, email);
      if found.None? {
        return Reply(400, false, "User not found!");
      }
      var i := found.value;
      var a := admins[i];
      if a.resetOtp != otp || a.resetOtp == "" {
        return Reply(400, false, "Invalid OTP!");
      }
      if AsNumber(a.resetOtpExpireAt) < now {
        return Reply(400, false, "OTP expired!");
      }
      admins := admins[i := a.(password := newHash, resetOtp := "", resetOtpExpireAt := At(0))];
      reply := Reply(200, true, "Password reset successfully!");
    }
  }
}
