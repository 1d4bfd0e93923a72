/** `GET /api/user/request-counts`: for the signed-in user, how many of
    their requests of every kind are pending, accepted and rejected. Each
    collection is aggregated separately (documents whose email equals the
    user's ignoring case, grouped by lower-cased status); the handler then
    walks the four lists of groups and adds each group's count to the
    status it reports under, 'approved' being reported as 'accepted'. */
module RequestCounts {
  import opened Store
  import opened Effects
  import Strings
  import InternshipForms
  import LeaveRequests
  import HackathonApplications
  import IdRequests

  /** What the aggregation looks at in a document: its email and status. */
  datatype Row = Row(email: string, status: string)

  function DocRows<R>(s: seq<Doc<R>>, email: R -> string): (r: seq<Row>)
    ensures |r| == |s|
    ensures forall k :: 0 <= k < |s| ==> r[k] == Row(email(s[k].fields), s[k].status)
  {
    seq(|s|, k requires 0 <= k < |s| => Row(email(s[k].fields), s[k].status))
  }

  function HackathonRows(s: seq<HackathonApplications.Hackathon>): seq<Row> {
    DocRows(s, (f: HackathonApplications.HackathonForm) => f.email)
  }

  function InternshipRows(s: seq<InternshipForms.Application>): seq<Row> {
    DocRows(s, (f: InternshipForms.Form) => f.email)
  }

  function LeaveRows(s: seq<LeaveRequests.LeaveRequest>): seq<Row> {
    DocRows(s, (f: LeaveRequests.LeaveForm) => f.email)
  }

  function IdRows(s: seq<IdRequests.IdRequest>): (r: seq<Row>)
    ensures |r| == |s|
    ensures forall k :: 0 <= k < |s| ==> r[k] == Row(s[k].email, IdRequests.StatusName(s[k].status))
  {
    seq(|s|, k requires 0 <= k < |s| => Row(s[k].email, IdRequests.StatusName(s[k].status)))
  }

  /** The `$match` stage: the document's email matches `^userEmail$` with
      the `i` flag, taken here as equality up to ASCII letter case. The
      user's own address always matches, and only addresses of its length do. */
  predicate Matches(r: Row, userEmail: string): (b: bool)
    ensures r.email == userEmail ==> b
    ensures b ==> |r.email| == |userEmail|
  {
    Strings.EqualsIgnoreCase(r.email, userEmail)
  }

  /** The specification of a group's count: how many of the rows match the
      user and have `key` as their lower-cased status. */
  function CountMatching(rows: seq<Row>, userEmail: string, key: string): nat {
    if rows == [] then 0
    else (if Matches(rows[0], userEmail) && Strings.Lower(rows[0].status) == key then 1 else 0)
         + CountMatching(rows[1..], userEmail, key)
  }

  /** How many of the rows belong to the user, whatever their status. */
  function CountUser(rows: seq<Row>, userEmail: string): nat {
    if rows == [] then 0
    else (if Matches(rows[0], userEmail) then 1 else 0) + CountUser(rows[1..], userEmail)
  }

  /** One output document of `$group`: `{ _id: key, count }`. */
  datatype Bucket = Bucket(key: string, count: nat)

  function Keys(bs: seq<Bucket>): set<string> {
    if bs == [] then {} else {bs[0].key} + Keys(bs[1..])
  }

  predicate DistinctKeys(bs: seq<Bucket>) {
    bs == [] || (bs[0].key !in Keys(bs[1..]) && DistinctKeys(bs[1..]))
  }

  /** The count reported for `key` by a list of groups: the sum over the
      groups with that key (with distinct keys, that one group's count). */
  function Total(bs: seq<Bucket>, key: string): nat {
    if bs == [] then 0 else (if bs[0].key == key then bs[0].count else 0) + Total(bs[1..], key)
  }

  lemma {:induction false} TotalOfAbsentKey(bs: seq<Bucket>, key: string)
    requires key !in Keys(bs)
    ensures Total(bs, key) == 0
  {
    if bs != [] {
      TotalOfAbsentKey(bs[1..], key);
    }
  }

  /** Adds one document to the group of `key`, opening that group if needed. */
  function AddOne(bs: seq<Bucket>, key: string): (r: seq<Bucket>)
    ensures Keys(r) == Keys(bs) + {key}
    ensures DistinctKeys(bs) ==> DistinctKeys(r)
    ensures forall k :: Total(r, k) == Total(bs, k) + (if k == key then 1 else 0)
  {
    if bs == [] then
      [Bucket(key, 1)]
    else if bs[0].key == key then
      assert bs[0].(count := bs[0].count + 1).key == key;
      var r := [bs[0].(count := bs[0].count + 1)] + bs[1..];
      assert r[1..] == bs[1..];
      r
    else
      var rest := AddOne(bs[1..], key);
      var r := [bs[0]] + rest;
      assert r[1..] == rest;
      r
  }

  /** The two aggregation stages on one collection: the user's documents,
      grouped by lower-cased status, one group per distinct key. */
  function Group(rows: seq<Row>, userEmail: string): (r: seq<Bucket>)
    ensures DistinctKeys(r)
    ensures forall k :: Total(r, k) == CountMatching(rows, userEmail, k)
  {
    if rows == [] then []
    else if Matches(rows[0], userEmail) then AddOne(Group(rows[1..], userEmail), Strings.Lower(rows[0].status))
    else Group(rows[1..], userEmail)
  }

  /** The four collections in the order the handler walks them. */
  function Collections(hackathons: seq<HackathonApplications.Hackathon>,
                       internships: seq<InternshipForms.Application>,
                       leaves: seq<LeaveRequests.LeaveRequest>,
                       ids: seq<IdRequests.IdRequest>): seq<seq<Row>> {
    [HackathonRows(hackathons), InternshipRows(internships), LeaveRows(leaves), IdRows(ids)]
  }

  /** `CountMatching` summed over several collections. */
  function Across(cs: seq<seq<Row>>, userEmail: string, key: string): nat {
    if cs == [] then 0
    else Across(cs[..|cs| - 1], userEmail, key) + CountMatching(cs[|cs| - 1], userEmail, key)
  }

  /** `CountUser` summed over several collections. */
  function AcrossUser(cs: seq<seq<Row>>, userEmail: string): nat {
    if cs == [] then 0
    else AcrossUser(cs[..|cs| - 1], userEmail) + CountUser(cs[|cs| - 1], userEmail)
  }

  /** The JSON the handler replies with. */
  datatype Counts = Counts(pending: nat, accepted: nat, rejected: nat, total: nat)

  /** The status a group is counted under. */
  function Reported(key: string): (s: string)
    ensures s == "accepted" <==> key == "approved" || key == "accepted"
    ensures s != "accepted" ==> s == key
  {
    if key == "approved" then "accepted" else key
  }

  lemma {:induction false} TotalSnoc(bs: seq<Bucket>, b: Bucket, key: string)
    ensures Total(bs + [b], key) == Total(bs, key) + (if b.key == key then b.count else 0)
  {
    if bs != [] {
      assert (bs + [b])[1..] == bs[1..] + [b];
      TotalSnoc(bs[1..], b, key);
    }
  }

  /** The inner `forEach` over one collection's groups: adds each group's
      count to the status it is reported under. */
  method TallyGroups(groups: seq<Bucket>, pending0: nat, accepted0: nat, rejected0: nat)
    returns (pending: nat, accepted: nat, rejected: nat)
    ensures pending == pending0 + Total(groups, "pending")
    ensures accepted == accepted0 + Total(groups, "approved") + Total(groups, "accepted")
    ensures rejected == rejected0 + Total(groups, "rejected")
  {
    pending, accepted, rejected := pending0, accepted0, rejected0;
    var i := 0;
    while i < |groups|
      invariant 0 <= i <= |groups|
      invariant pending == pending0 + Total(groups[..i], "pending")
      invariant accepted == accepted0 + Total(groups[..i], "approved") + Total(groups[..i], "accepted")
      invariant rejected == rejected0 + Total(groups[..i], "rejected")
    {
      var item := groups[i];
      assert groups[..i + 1] == groups[..i] + [item];
      TotalSnoc(groups[..i], item, "pending");
      TotalSnoc(groups[..i], item, "approved");
      TotalSnoc(groups[..i], item, "accepted");
      TotalSnoc(groups[..i], item, "rejected");
      var status := Reported(item.key);
      if status == "pending" {
        pending := pending + item.count;
      }
      if status == "accepted" {
        accepted := accepted + item.count;
      }
      if status == "rejected" {
        rejected := rejected + item.count;
      }
      i := i + 1;
    }
    assert groups[..i] == groups;
  }

  lemma AcrossStep(cs: seq<seq<Row>>, c: nat, userEmail: string, key: string)
    requires c < |cs|
    ensures Across(cs[..c + 1], userEmail, key) == Across(cs[..c], userEmail, key) + CountMatching(cs[c], userEmail, key)
  {
    assert cs[..c + 1][..c] == cs[..c];
  }

  /** The outer `forEach` over the collections' group lists, in order. */
  method TallyCollections(cs: seq<seq<Row>>, userEmail: string) returns (pending: nat, accepted: nat, rejected: nat)
    ensures pending == Across(cs, userEmail, "pending")
    ensures accepted == Across(cs, userEmail, "approved") + Across(cs, userEmail, "accepted")
    ensures rejected == Across(cs, userEmail, "rejected")
  {
    pending, accepted, rejected := 0, 0, 0;
    var c := 0;
    while c < |cs|
      invariant 0 <= c <= |cs|
      invariant pending == Across(cs[..c], userEmail, "pending")
      invariant accepted == Across(cs[..c], userEmail, "approved") + Across(cs[..c], userEmail, "accepted")
      invariant rejected == Across(cs[..c], userEmail, "rejected")
    {
      var groups := Group(cs[c], userEmail);
      pending, accepted, rejected := TallyGroups(groups, pending, accepted, rejected);
      AcrossStep(cs, c, userEmail, "pending");
      AcrossStep(cs, c, userEmail, "approved");
      AcrossStep(cs, c, userEmail, "accepted");
      AcrossStep(cs, c, userEmail, "rejected");
      c := c + 1;
    }
    assert cs[..c] == cs;
  }

  /** The handler. A user without an email address makes it throw (500).
      Otherwise the user's pending, accepted and rejected counts are sums of
      group counts over the four collections: 'accepted' takes both the
      'approved' and the 'accepted' groups, groups under any other key are
      not counted, and `total` is the sum of the three. */
  method GetRequestCounts(userEmail: string,
                          hackathons: seq<HackathonApplications.Hackathon>,
                          internships: seq<InternshipForms.Application>,
                          leaves: seq<LeaveRequests.LeaveRequest>,
                          ids: seq<IdRequests.IdRequest>)
    returns (reply: Reply, counts: Option<Counts>)
    ensures userEmail == "" ==> reply.code == 500 && counts == None
    ensures userEmail != "" ==>
              var cs := Collections(hackathons, internships, leaves, ids);
              reply.code == 200 && counts.Some? &&
              counts.value.pending == Across(cs, userEmail, "pending") &&
              counts.value.accepted == Across(cs, userEmail, "approved") + Across(cs, userEmail, "accepted") &&
              counts.value.rejected == Across(cs, userEmail, "rejected") &&
              counts.value.total == counts.value.pending + counts.value.accepted + counts.value.rejected
  {
    if userEmail == "" {
      return Reply(500, false, "User email not found in token data"), None;
    }
    var pending, accepted, rejected := TallyCollections(Collections(hackathons, internships, leaves, ids), userEmail);
    counts := Some(Counts(pending, accepted, rejected, pending + accepted + rejected));
    reply := Reply(200, true, "");
  }

  /** The match ignores case: two spellings of one address get the same counts. */
  lemma {:induction false} CountsIgnoreEmailCase(rows: seq<Row>, e1: string, e2: string, key: string)
    requires Strings.EqualsIgnoreCase(e1, e2)
    ensures CountMatching(rows, e1, key) == CountMatching(rows, e2, key)
    ensures CountUser(rows, e1) == CountUser(rows, e2)
  {
    if rows != [] {
      CountsIgnoreEmailCase(rows[1..], e1, e2, key);
    }
  }

  lemma {:induction false} AcrossIgnoresEmailCase(cs: seq<seq<Row>>, e1: string, e2: string, key: string)
    requires Strings.EqualsIgnoreCase(e1, e2)
    ensures Across(cs, e1, key) == Across(cs, e2, key)
  {
    if cs != [] {
      AcrossIgnoresEmailCase(cs[..|cs| - 1], e1, e2, key);
      CountsIgnoreEmailCase(cs[|cs| - 1], e1, e2, key);
    }
  }

  function LowerStatuses(rows: seq<Row>): (r: seq<Row>)
    ensures |r| == |rows|
    ensures forall k :: 0 <= k < |rows| ==> r[k] == rows[k].(status := Strings.Lower(rows[k].status))
  {
    seq(|rows|, k requires 0 <= k < |rows| => rows[k].(status := Strings.Lower(rows[k].status)))
  }

  /** Statuses are grouped case-insensitively: "Approved" (the request
      controllers' spelling) and "approved" (the ID schema's) land in one
      group, so lower-casing every status changes no count. */
  lemma {:induction false} StatusCaseIsFolded(rows: seq<Row>, userEmail: string, key: string)
    ensures CountMatching(LowerStatuses(rows), userEmail, key) == CountMatching(rows, userEmail, key)
  {
    if rows != [] {
      Strings.LowerIdempotent(rows[0].status);
      assert LowerStatuses(rows)[1..] == LowerStatuses(rows[1..]);
      StatusCaseIsFolded(rows[1..], userEmail, key);
    }
  }

  /** Every counted request is one of the user's, and none is counted twice. */
  lemma {:induction false} CountedAtMostOnce(rows: seq<Row>, userEmail: string)
    ensures CountMatching(rows, userEmail, "pending") + CountMatching(rows, userEmail, "approved")
            + CountMatching(rows, userEmail, "accepted") + CountMatching(rows, userEmail, "rejected")
            <= CountUser(rows, userEmail)
  {
    if rows != [] {
      CountedAtMostOnce(rows[1..], userEmail);
    }
  }

  lemma {:induction false} AcrossCountedAtMostOnce(cs: seq<seq<Row>>, userEmail: string)
    ensures Across(cs, userEmail, "pending") + Across(cs, userEmail, "approved")
            + Across(cs, userEmail, "accepted") + Across(cs, userEmail, "rejected")
            <= AcrossUser(cs, userEmail)
  {
    if cs != [] {
      AcrossCountedAtMostOnce(cs[..|cs| - 1], userEmail);
      CountedAtMostOnce(cs[|cs| - 1], userEmail);
    }
  }

  /** The reported total never exceeds the number of the user's requests
      across the four kinds; it falls short by the requests whose status is
      none of pending, approved, accepted and rejected. */
  lemma TotalBoundedByUserRequests(userEmail: string, cs: seq<seq<Row>>, counts: Counts)
    requires counts.pending == Across(cs, userEmail, "pending")
    requires counts.accepted == Across(cs, userEmail, "approved") + Across(cs, userEmail, "accepted")
    requires counts.rejected == Across(cs, userEmail, "rejected")
    requires counts.total == counts.pending + counts.accepted + counts.rejected
    ensures counts.total <= AcrossUser(cs, userEmail)
  {
    AcrossCountedAtMostOnce(cs, userEmail);
  }

  /** Appending a row adds it to the count of its own key only. */
  lemma {:induction false} CountMatchingSnoc(rows: seq<Row>, r: Row, userEmail: string, key: string)
    ensures CountMatching(rows + [r], userEmail, key) ==
            CountMatching(rows, userEmail, key) + (if Matches(r, userEmail) && Strings.Lower(r.status) == key then 1 else 0)
  {
    if rows == [] {
      assert rows + [r] == [r];
      assert [r][1..] == [];
    } else {
      assert (rows + [r])[1..] == rows[1..] + [r];
      CountMatchingSnoc(rows[1..], r, userEmail, key);
    }
  }

  /** Replacing one collection's rows changes the sum over the collections
      by the difference of that collection's counts. */
  lemma {:induction false} AcrossUpdate(cs: seq<seq<Row>>, c: nat, rows: seq<Row>, userEmail: string, key: string)
    requires c < |cs|
    ensures Across(cs[c := rows], userEmail, key) + CountMatching(cs[c], userEmail, key) ==
            Across(cs, userEmail, key) + CountMatching(rows, userEmail, key)
  {
    var n := |cs| - 1;
    if c == n {
      assert cs[c := rows][..n] == cs[..n];
    } else {
      assert cs[c := rows][..n] == cs[..n][c := rows];
      AcrossUpdate(cs[..n], c, rows, userEmail, key);
    }
  }

  /** A new request of the user's whose status lower-cases to "accepted" or
      "approved", in any collection, raises the reported accepted count by
      exactly one and leaves pending and rejected as they were. */
  lemma AcceptedStatusCounts(cs: seq<seq<Row>>, c: nat, r: Row, userEmail: string)
    requires c < |cs|
    requires Matches(r, userEmail)
    requires Strings.Lower(r.status) == "accepted" || Strings.Lower(r.status) == "approved"
    ensures var after := cs[c := cs[c] + [r]];
            Across(after, userEmail, "approved") + Across(after, userEmail, "accepted") ==
              Across(cs, userEmail, "approved") + Across(cs, userEmail, "accepted") + 1 &&
            Across(after, userEmail, "pending") == Across(cs, userEmail, "pending") &&
            Across(after, userEmail, "rejected") == Across(cs, userEmail, "rejected")
  {
    var rows := cs[c] + [r];
    CountMatchingSnoc(cs[c], r, userEmail, "approved");
    CountMatchingSnoc(cs[c], r, userEmail, "accepted");
    CountMatchingSnoc(cs[c], r, userEmail, "pending");
    CountMatchingSnoc(cs[c], r, userEmail, "rejected");
    AcrossUpdate(cs, c, rows, userEmail, "approved");
    AcrossUpdate(cs, c, rows, userEmail, "accepted");
    AcrossUpdate(cs, c, rows, userEmail, "pending");
    AcrossUpdate(cs, c, rows, userEmail, "rejected");
  }
}
