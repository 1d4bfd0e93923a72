# RequestHub backend, modelled in Dafny

RequestHub is an Express/Mongoose backend where students submit internship,
leave, hackathon and ID-card requests and administrators decide them. This
project models its core and proves properties of the model:

- the request lifecycle of each kind: submission, the listings,
  approve, reject and delete. Each kind's collection is a class over a map of
  documents (`Store.Collection`). Each kind keeps its own differences: where
  the id comes from, what reject stores, whether a failed email turns the
  reply into a 500, and how listings are sorted;
- the record schemas, including the ID-card schema with its lower-case
  status enum and its `requestDate` default fixed at start-up;
- the cross-kind readers:
  - per-user request counts;
  - the admin dashboard;
  - the combined "all requests" feed;
  - the bulk-approval selector, which picks pending applications by
    start-date window;
- the one-time-code account state machine for students and administrators:
  registration, login, email verification, password reset and username
  change.

Emails, file unlinks and replies are recorded, not performed. Success or
failure of each email arrives as a parameter. The clock (`now`), the
generated code, the bcrypt hash and the bcrypt comparison are inputs too.

Files: `strings.dfy` (case folding, string order, day strings, blank
strings), `store.dfy` (collections), `effects.dfy` (replies, emails,
unlinks), `internship.dfy`, `leave.dfy`, `hackathon.dfy`, `idcard.dfy`,
`counts.dfy`, `dashboard.dfy`, `feed.dfy`, `bulk.dfy`, `otp.dfy`,
`accounts.dfy`, `admins.dfy`.

Where the code and its documentation disagree, the model follows the code:

- Internship reject writes `rejectionReason` and leave reject writes
  `remarks`, but neither schema declares that path. Mongoose's default
  strict mode drops undeclared paths from an update, so only the status
  changes (`InternshipForms.KeepFields`, `LeaveRequests.KeepFields`).
- In the per-user counts, a group whose lower-cased status is `accepted` is
  counted as accepted, the same as `approved`. Only groups outside
  pending, approved, accepted and rejected go uncounted.
- In the bulk selector, the date window is formatted before the request
  type is checked. A non-numeric `daysAhead` therefore gives 500 even when
  the type is invalid.
- No decision handler requires the request to be pending. Rejecting never
  requires a reason.

## Model

| member | source | states |
|---|---|---|
| Store.SortNewestFirst | controllers/formController.js:80 | `sort({ createdAt: -1 })` returns a rearrangement (same multiset) of the documents with `createdAt` non-increasing |
| Store.WithStatus | controllers/leaveController.js:288 | `find({ status })` keeps exactly the documents with that status, in their original relative order |
| Store.CountIsFilterLength | controllers/dashboardController.js:13-32 | `countDocuments({ status })` equals the length of `find({ status })` |
| Store.FindFirst | controllers/authController.js:41 | `findOne` gives the first position whose element matches, or nothing exactly when none matches |
| Store.Collection.Find | controllers/hackathonController.js:127 | an unsorted `find()` returns every stored document and only stored documents |
| Store.Collection.Save | controllers/formController.js:26-30 | `save` adds the new document under a fresh id at the end of natural order and changes no other document |
| Store.Collection.FindByIdAndUpdate | controllers/formController.js:93-97 | an unknown id changes nothing and returns null; a known id gets the new status and edited fields, returned as the new document |
| Store.Collection.FindByIdAndDelete | controllers/formController.js:198 | an unknown id changes nothing; a known id is removed from the map and from natural order, and its document returned |
| Effects.OrElse | controllers/formController.js:164 | `value \|\| fallback` yields the fallback exactly when the value is empty (or already the fallback), else the value |
| InternshipForms.OfferLetterPath | controllers/formController.js:23 | `req.file?.path \|\| null`: the upload's path, or null without a file or with an empty path |
| InternshipForms.SubmitForm | controllers/formController.js:17-75 | the application is stored as Pending with its offer-letter path before any email; a failed student or admin email makes the reply 500 and leaves it stored; the admin email is attempted only after the student email succeeded |
| InternshipForms.GetApplications | controllers/formController.js:78-86 | every application, newest first |
| InternshipForms.GetByStatus | controllers/formController.js:215-245 | exactly the applications with that status, newest first |
| InternshipForms.KeepFields | controllers/formController.js:145-149 | the reject update's undeclared `rejectionReason` is dropped by strict mode: every stored field is left as it was |
| InternshipForms.ApproveApplication | controllers/formController.js:89-137 | malformed id 500 and unknown id 404 with nothing changed; otherwise only the status becomes Approved, one email is attempted, and a failed email gives 500 after the update persisted |
| InternshipForms.RejectApplication | controllers/formController.js:140-191 | as approve with status Rejected; the email carries the reason or 'Not specified'; the reason is not stored |
| InternshipForms.DeleteApplication | controllers/formController.js:194-212 | malformed 500, unknown 404 with nothing changed; otherwise the document leaves the map and natural order and its offer letter's unlink is attempted if it has one |
| LeaveRequests.ReceiptPath | controllers/leaveController.js:32 | `pdfs/<filename>` with a file, null without |
| LeaveRequests.SubmitForm | controllers/leaveController.js:26-121 | the request is stored as Pending with its receipt path; a failed email makes the reply 500 and leaves it stored |
| LeaveRequests.GetApplications | controllers/leaveController.js:123-130 | every request, newest first |
| LeaveRequests.GetByStatus | controllers/leaveController.js:286-313 | exactly the requests with that status, as a subsequence of natural order (unsorted) |
| LeaveRequests.Notify | controllers/leaveController.js:148-177 | a decision email is attempted only for a request with an email address |
| LeaveRequests.KeepFields | controllers/leaveController.js:195-199 | the reject update's undeclared `remarks` is dropped by strict mode: every stored field is left as it was |
| LeaveRequests.ApproveApplication | controllers/leaveController.js:133-189 | missing id 400, malformed 500, unknown 404, each with nothing changed; otherwise only the status becomes Approved and the reply is 200 whatever the email's outcome |
| LeaveRequests.RejectApplication | controllers/leaveController.js:190-260 | as approve with status Rejected; the email carries the reason or 'No reason provided'; the request's own `reason` is unchanged |
| LeaveRequests.DeleteApplication | controllers/leaveController.js:263-284 | malformed 500, unknown 404; otherwise removal and an unlink attempt on the stored receipt path |
| HackathonApplications.CertificatePath | controllers/hackathonController.js:32 | `hackathonuploads/<filename>` with a file, null without |
| HackathonApplications.SubmitForm | controllers/hackathonController.js:26-123 | the application is stored as Pending without remarks; a failed email makes the reply 500 and leaves it stored |
| HackathonApplications.GetApplications | controllers/hackathonController.js:125-132 | every application in natural order (unsorted) |
| HackathonApplications.GetByStatus | controllers/hackathonController.js:290-317 | exactly the applications with that status, newest first |
| HackathonApplications.Notify | controllers/hackathonController.js:150-178 | a decision email is attempted only for an application with an email address |
| HackathonApplications.KeepFields | controllers/hackathonController.js:140-144 | the approve update writes only the status: every field, `remarks` included, is left as it was |
| HackathonApplications.WithRemarks | controllers/hackathonController.js:199 | the reject update sets `remarks` to the given value and leaves every other field as it was |
| HackathonApplications.ApproveApplication | controllers/hackathonController.js:135-190 | missing id 400, malformed 500, unknown 404; otherwise only the status changes (remarks untouched) and the reply is 200 whatever the email's outcome |
| HackathonApplications.RejectApplication | controllers/hackathonController.js:192-265 | status Rejected and remarks stored as `remarks \|\| ""`, so never absent after a rejection; the email carries the stored remarks or 'No remarks provided' |
| HackathonApplications.DeleteApplication | controllers/hackathonController.js:266-288 | malformed 500, unknown 404; otherwise removal and an unlink attempt relative to the application root |
| IdRequests.StatusName | models/IdRequest.js:15-19 | every ID status is lower-case and differs from the capitalised Pending/Approved/Rejected |
| IdRequests.NewIdRequest | models/IdRequest.js:3-20 | a new request is 'pending' and takes the start-up `requestDate` unless one is given |
| RequestCounts.Matches | routes/userRoutes.js:29 | the `$match` regex match, taken as equality up to ASCII case: the user's own address always matches, and only addresses of the same length do |
| RequestCounts.AddOne | routes/userRoutes.js:30 | adding a document raises its key's group count by one, leaves the other counts alone and keeps keys distinct |
| RequestCounts.Group | routes/userRoutes.js:28-49 | the aggregation yields distinct keys, and each key's count is the number of the user's documents with that lower-cased status |
| RequestCounts.Reported | routes/userRoutes.js:63 | a group is reported as accepted exactly when its key is approved or accepted; any other key is reported as itself |
| RequestCounts.TallyGroups | routes/userRoutes.js:62-67 | the inner loop adds the pending, approved plus accepted, and rejected group counts to the running totals |
| RequestCounts.TallyCollections | routes/userRoutes.js:61-68 | the outer loop's totals are the per-key counts summed over the collections |
| RequestCounts.GetRequestCounts | routes/userRoutes.js:16-79 | no user email gives 500; otherwise pending, accepted (approved + accepted) and rejected are summed over the four collections and total is their sum |
| RequestCounts.CountsIgnoreEmailCase | routes/userRoutes.js:29 | two spellings of an address that differ only in letter case get the same counts |
| RequestCounts.AcrossIgnoresEmailCase | routes/userRoutes.js:28-49 | the same, summed over all four collections |
| RequestCounts.StatusCaseIsFolded | routes/userRoutes.js:30 | lower-casing every stored status changes no count ("Approved" and "approved" share a group) |
| RequestCounts.CountedAtMostOnce | routes/userRoutes.js:64-66 | in one collection the counted groups together never exceed the user's documents |
| RequestCounts.AcrossCountedAtMostOnce | routes/userRoutes.js:61-68 | the same bound summed over the collections |
| RequestCounts.TotalBoundedByUserRequests | routes/userRoutes.js:71 | the reported total is at most the number of the user's requests of all kinds |
| RequestCounts.AcceptedStatusCounts | routes/userRoutes.js:28-68 | adding to any collection one request of the user whose status lower-cases to "accepted" or "approved" raises the reported accepted count by exactly one and leaves pending and rejected unchanged |
| Dashboard.CountIds | controllers/dashboardController.js:15 | an ID-card status count never exceeds the number of ID-card requests |
| Dashboard.IdRequestsNeverCounted | controllers/dashboardController.js:13-32 | the capitalised status queries count no ID-card request |
| Dashboard.StatusCountsPartition | controllers/dashboardController.js:13-32 | within a kind, approved + rejected + pending is at most the kind's count, with equality exactly when every status is one of the three |
| Dashboard.GetDashboardOverview | controllers/dashboardController.js:6-54 | each per-kind count is that kind's size; the three status totals together never exceed the sum of the kinds |
| Dashboard.StatusTotalsMatchListings | controllers/dashboardController.js:13-41 | each status total is the size of that status listing summed over the internship, leave and hackathon kinds |
| Dashboard.StatusTotalsCoverAll | controllers/dashboardController.js:8-41 | the status totals equal the sum of the kinds exactly when there are no ID-card requests and every other request is approved, rejected or pending |
| AllRequests.GetAllRequests | controllers/requestController.js:8-30 | one entry per stored request: internships, then leaves, ID cards, hackathons, each in store order, each tagged with its own kind and carrying its record unchanged |
| AllRequests.TagsCountEachKind | controllers/requestController.js:17-28 | filtering the feed by tag gives back each kind's size |
| BulkSelect.Eligible | routes/bulkApprove.js:29-32 | `find` keeps exactly the Pending documents whose start date lies in the window (both ends inclusive, as strings), in natural order |
| BulkSelect.IdsOf | routes/bulkApprove.js:34-36 | one id per selected document, in order |
| BulkSelect.BulkApproveIds | routes/bulkApprove.js:7-41 | missing type or falsy daysAhead gives 400; an invalid date gives 500; a type other than hackathon or internship gives 400; otherwise an id is returned exactly when its record of that kind is Pending and starts within the window |
| BulkSelect.InvertedWindowSelectsNothing | routes/bulkApprove.js:15-32 | a window ending before it starts (negative daysAhead) selects nothing |
| BulkSelect.WiderWindowSelectsMore | routes/bulkApprove.js:15-32 | a window containing another selects everything the smaller one does |
| BulkSelect.WindowEndsInclusive | routes/bulkApprove.js:29-32 | a pending application whose start date equals either end of a non-empty window is selected |
| BulkSelect.Truthy | routes/bulkApprove.js:10 | `daysAhead` is falsy exactly when it is absent, 0 or "" |
| BulkSelect.TwoDaysAheadScenario | routes/bulkApprove.js:15-32 | on 2026-10-16 a start on 2026-10-18 is inside a five-day window and outside a one-day one |
| Strings.Lower | routes/userRoutes.js:30 | `$toLower` keeps the length and lower-cases each ASCII letter in place |
| Strings.LowerIdempotent | routes/userRoutes.js:30 | a lower-cased key is its own lower case |
| Strings.EqualsIgnoreCaseEquivalence | routes/userRoutes.js:29 | the case-insensitive match is reflexive, symmetric and transitive |
| Strings.TrimStart | controllers/authController.js:428 | `trim`'s leading half: empty exactly when the string is all white space, otherwise starting with a non-white-space character |
| Strings.TrimEnd | controllers/authController.js:428 | `trim`'s trailing half: empty exactly when the string is all white space, otherwise keeping the first character |
| Strings.IsBlank | controllers/authController.js:428 | `!s?.trim()` holds exactly when every character is JavaScript white space (the empty string included) |
| Strings.LexLeReflexive | routes/bulkApprove.js:29-32 | string order: every string is within `[s, s]` |
| Strings.LexLeTotal | routes/bulkApprove.js:29-32 | string order is total |
| Strings.LexLeAntisymmetric | routes/bulkApprove.js:29-32 | string order is antisymmetric |
| Strings.LexLeTransitive | routes/bulkApprove.js:29-32 | string order is transitive |
| Strings.LexLeAfterCommonPrefix | routes/bulkApprove.js:29-32 | past a common prefix the order is decided by the rest |
| Strings.SameShapeOrder | models/formModel.js:10-11 | strings with one digit layout compare as strings exactly as the numbers their digits spell |
| Strings.DayStringsCompareAsDates | routes/bulkApprove.js:18-19 | `YYYY-MM-DD` strings compare as strings exactly as the dates compare |
| Otp.AsNumber | controllers/authController.js:459-475 | a null expiry compares as 0 |
| Otp.CheckCode | controllers/authController.js:229-235 | empty or different stored code is invalid; otherwise expired exactly when `expireAt < now`; accepted up to and including the expiry millisecond |
| Otp.CheckUsernameCode | controllers/authController.js:445-464 | no code, wrong code and expired code are told apart; it accepts exactly what `CheckCode` accepts |
| Otp.IssuedCodeAcceptedForTenMinutes | controllers/authController.js:165-170 | a code issued at t is accepted by both checks exactly when resubmitted unchanged at a time no later than t + 600000 |
| Otp.ClearedCodeNeverAccepted | controllers/authController.js:236-240 | after a successful use clears the code, no submission is accepted |
| Accounts.NewUser | controllers/authController.js:50-55 | a new account has the given name, roll number, email and hash, is unverified, and has empty codes and zero expiries |
| Accounts.FindByEmail | controllers/authController.js:266 | `findOne({ email })`: the first account with exactly that email, or none exactly when no account has it |
| Accounts.FindByCredentials | controllers/authController.js:93 | `findOne({ rollNumber, email })`: the first account matching both, or none exactly when no account does |
| Accounts.IssueReset | controllers/authController.js:274-277 | a reset issue sets the code and its expiry now + 600000 and nothing else |
| Accounts.ResetCodeServesBothRoutes | controllers/authController.js:376-379 | a reset code from either send route opens both resetPassword and changeUsername for the same ten minutes |
| Accounts.Users.Register | controllers/authController.js:30-80 | any empty field 400, a registered email 400, both with nothing changed; otherwise one unverified account with the hash is appended, emails stay unique, and a failed welcome email gives 500 with the account kept |
| Accounts.Users.Login | controllers/authController.js:82-131 | success exactly for the first account matching both roll number and email whose hash accepts the password; unknown account and wrong password give the same reply |
| Accounts.Users.SendVerifyOtp | controllers/authController.js:147-214 | no user 404; a verified account 400; otherwise the code and expiry now + 600000 are stored before the email, and a failed email gives 500 with the code kept |
| Accounts.Users.VerifyEmail | controllers/authController.js:216-248 | missing fields 400; malformed id 200 with success false; unknown id 400; invalid then expired codes 400; on acceptance the account is verified and its code cleared to ''/0, nothing else changes |
| Accounts.Users.IssueResetOtp | controllers/authController.js:266-277 | looks the account up by exact email and stores the reset code on it only |
| Accounts.Users.SendResetOtp | controllers/authController.js:258-321 | missing email 400, unknown email 400; otherwise the reset code is stored, one email attempted, and the reply is 500 if it failed |
| Accounts.Users.SendResetOtp2 | controllers/authController.js:360-423 | the same state change as sendResetOtp, with a username-change email |
| Accounts.Users.ResetPassword | controllers/authController.js:323-358 | missing field 400, unknown 400, invalid then expired codes 400; on acceptance the hash is replaced and the code cleared to ''/0 |
| Accounts.Users.ChangeUsername | controllers/authController.js:425-492 | blank fields 400, unknown 404, then no code, wrong code, expired code and unchanged name each 400 in that order; on success the name changes and the code is cleared with a null expiry |
| AdminAccounts.NewAdmin | models/adminAddModel.js:3-29 | a new admin has the hash, empty codes and zero expiries |
| AdminAccounts.FindByEmail | controllers/adminAddController.js:135 | `findOne({ email })`: the first admin with exactly that email, or none exactly when no admin has it |
| AdminAccounts.Admins.Register | controllers/adminAddController.js:31-121 | missing email or password 400, existing email 400, nothing changed; otherwise the admin is appended with the hash, emails stay non-empty and unique, and a failed welcome email gives 500 with the admin kept |
| AdminAccounts.Admins.Login | controllers/adminAddController.js:123-170 | success exactly when the email's admin has a hash that accepts the password; unknown email and wrong password give the same "Invalid Credentials !" reply |
| AdminAccounts.Admins.SendResetOtp | controllers/adminAddController.js:186-249 | missing email 400, unknown 400; otherwise the reset code and expiry now + 600000 are stored and a failed email gives 500 |
| AdminAccounts.Admins.ResetPassword | controllers/adminAddController.js:251-286 | missing field 400, unknown 400, invalid then expired codes 400; on acceptance the hash is replaced and the code cleared to ''/0 |

## Left out

- Email content, attachments and SMTP delivery. Only the recipient and the topic of each attempted email are recorded; its outcome is a parameter.
- Multer storage, `fs.existsSync`, and the outcome of `fs.unlink`. An unlink is recorded as attempted, with the base directory it resolves against.
- bcrypt and JWT. The stored hash is an input, the password comparison is a function parameter, and cookies and tokens are not modelled.
- `Math.random` code generation. The code is an input, required to be six digits with a non-zero first digit.
- JavaScript `Date` arithmetic, time zones and `toISOString`. `now` is a number, and the bulk window is given as two day strings, or as none when the date is invalid.
- BulkSelect.BulkApproveIds: the link between `daysAhead` and the window end (`parseInt` and `setDate`) is not modelled; the window is an input.
- RequestCounts.Matches: the user's address is pasted unescaped into a regex; the model takes the match as equality up to ASCII case. It differs for addresses holding metacharacters. A `.` matches any character, so other addresses can be counted. A `+`, `*` or `?` makes a quantifier, so the user's own address can fail to match and its counts become zero. A `(` or `[` makes `new RegExp` throw, which gives 500. The regex `i` flag also folds non-ASCII letters, which the model does not.
- Case folding covers ASCII letters only, as `$toLower` does (the regex `i` flag is covered in the line above). String order is code-point order, which is how MongoDB's `$gte` and `$lte` compare strings.
- Database and save failures, and other exceptions not named above: the 500 replies those would cause are not modelled.
- Concurrency and `Promise.all` scheduling, which do not affect results.
- The order among documents with equal `createdAt` after sorting. Only `createdAt` order and the multiset of documents are stated.
- JSON body values that are not strings, such as a numeric OTP, which `!==` would always reject. Absent string fields are modelled as "".
- `path.join` normalisation of stored paths.
- models/hackathonModel.js is not part of this model. The hackathon record's fields are the ones the controller reads and writes. The controller never sets `status` or `createdAt` (controllers/hackathonController.js:36-48), so the model assumes the schema declares `remarks`, a `status` default of "Pending" and a `createdAt` default of the save time, and a `startDate` of type String. HackathonApplications.SubmitForm, HackathonApplications.GetByStatus (sorted on `createdAt`) and the hackathon branch of BulkSelect.BulkApproveIds (string comparison of `startDate`) rest on these assumptions.
- models/userModel.js is not part of this model. A new student account is assumed unverified, with empty codes and zero expiries.
- The ID-card controller and routes are not part of this model; only the ID schema is.
- The admin schema's `required` on `password` is not modelled: the stored value is always a bcrypt hash.
- `logout`, `isAuthenticated`, `getUserData`, the auth middleware, server.js and the route wiring.
