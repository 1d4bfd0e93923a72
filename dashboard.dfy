/** `getDashboardOverview`: the admin dashboard's numbers. One count per
    kind, and approved, rejected and pending totals, each the sum over the
    four kinds of `countDocuments({ status })` with the capitalised status
    the request controllers write. */
module Dashboard {
  import opened Store
  import InternshipForms
  import LeaveRequests
  import HackathonApplications
  import IdRequests

  datatype Overview = Overview(
    internshipCount: nat, idCount: nat, leaveCount: nat, hackathonCount: nat,
    approvedCount: nat, rejectedCount: nat, pendingCount: nat)

  /** `IdRequest.countDocuments({ status })`. */
  function CountIds(ids: seq<IdRequests.IdRequest>, status: string): (n: nat)
    ensures n <= |ids|
  {
    if ids == [] then 0
    else (if IdRequests.StatusName(ids[0].status) == status then 1 else 0) + CountIds(ids[1..], status)
  }

  /** The ID schema only admits lower-case statuses, so the dashboard's
      capitalised queries never match an ID-card request. */
  lemma {:induction false} IdRequestsNeverCounted(ids: seq<IdRequests.IdRequest>)
    ensures CountIds(ids, Approved) == 0
    ensures CountIds(ids, Rejected) == 0
    ensures CountIds(ids, Pending) == 0
  {
    if ids != [] {
      IdRequestsNeverCounted(ids[1..]);
    }
  }

  predicate Decided<R>(d: Doc<R>) {
    d.status == Approved || d.status == Rejected || d.status == Pending
  }

  /** Within one kind, the three status counts add up to at most the
      kind's count, and to exactly that count when every document carries
      one of the three statuses. */
  lemma {:induction false} StatusCountsPartition<R>(s: seq<Doc<R>>)
    ensures Count(s, Approved) + Count(s, Rejected) + Count(s, Pending) <= |s|
    ensures Count(s, Approved) + Count(s, Rejected) + Count(s, Pending) == |s|
            <==> forall k :: 0 <= k < |s| ==> Decided(s[k])
  {
    if s != [] {
      StatusCountsPartition(s[1..]);
      assert forall k :: 0 < k < |s| ==> s[k] == s[1..][k - 1];
    }
  }

  /** The handler's reply. */
  function GetDashboardOverview(internships: seq<InternshipForms.Application>,
                                ids: seq<IdRequests.IdRequest>,
                                leaves: seq<LeaveRequests.LeaveRequest>,
                                hackathons: seq<HackathonApplications.Hackathon>): (o: Overview)
    ensures o.internshipCount == |internships| && o.idCount == |ids|
    ensures o.leaveCount == |leaves| && o.hackathonCount == |hackathons|
    ensures o.approvedCount + o.rejectedCount + o.pendingCount
            <= o.internshipCount + o.idCount + o.leaveCount + o.hackathonCount
  {
    StatusCountsPartition(internships);
    StatusCountsPartition(leaves);
    StatusCountsPartition(hackathons);
    IdRequestsNeverCounted(ids);
    Overview(|internships|, |ids|, |leaves|, |hackathons|,
             Count(internships, Approved) + CountIds(ids, Approved) + Count(leaves, Approved) + Count(hackathons, Approved),
             Count(internships, Rejected) + CountIds(ids, Rejected) + Count(leaves, Rejected) + Count(hackathons, Rejected),
             Count(internships, Pending) + CountIds(ids, Pending) + Count(leaves, Pending) + Count(hackathons, Pending))
  }

  /** Each status total is the number of requests the matching status
      listings (`getApprovedApplications` and the others) return across the
      internship, leave and hackathon kinds; ID-card requests add nothing. */
  lemma StatusTotalsMatchListings(internships: seq<InternshipForms.Application>,
                                  ids: seq<IdRequests.IdRequest>,
                                  leaves: seq<LeaveRequests.LeaveRequest>,
                                  hackathons: seq<HackathonApplications.Hackathon>)
    ensures var o := GetDashboardOverview(internships, ids, leaves, hackathons);
            o.approvedCount == |WithStatus(internships, Approved)| + |WithStatus(leaves, Approved)| + |WithStatus(hackathons, Approved)| &&
            o.rejectedCount == |WithStatus(internships, Rejected)| + |WithStatus(leaves, Rejected)| + |WithStatus(hackathons, Rejected)| &&
            o.pendingCount == |WithStatus(internships, Pending)| + |WithStatus(leaves, Pending)| + |WithStatus(hackathons, Pending)|
  {
    IdRequestsNeverCounted(ids);
    CountIsFilterLength(internships, Approved);
    CountIsFilterLength(internships, Rejected);
    CountIsFilterLength(internships, Pending);
    CountIsFilterLength(leaves, Approved);
    CountIsFilterLength(leaves, Rejected);
    CountIsFilterLength(leaves, Pending);
    CountIsFilterLength(hackathons, Approved);
    CountIsFilterLength(hackathons, Rejected);
    CountIsFilterLength(hackathons, Pending);
  }

  /** The status totals account for every request exactly when there are
      no ID-card requests and every other request is approved, rejected or
      pending. */
  lemma StatusTotalsCoverAll(internships: seq<InternshipForms.Application>,
                             ids: seq<IdRequests.IdRequest>,
                             leaves: seq<LeaveRequests.LeaveRequest>,
                             hackathons: seq<HackathonApplications.Hackathon>)
    ensures var o := GetDashboardOverview(internships, ids, leaves, hackathons);
            o.approvedCount + o.rejectedCount + o.pendingCount
              == o.internshipCount + o.idCount + o.leaveCount + o.hackathonCount
            <==>
            ids == [] &&
            (forall k :: 0 <= k < |internships| ==> Decided(internships[k])) &&
            (forall k :: 0 <= k < |leaves| ==> Decided(leaves[k])) &&
            (forall k :: 0 <= k < |hackathons| ==> Decided(hackathons[k]))
  {
    IdRequestsNeverCounted(ids);
    StatusCountsPartition(internships);
    StatusCountsPartition(leaves);
    StatusCountsPartition(hackathons);
  }
}
