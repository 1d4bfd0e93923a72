/** `getAllRequests`: every request of every kind in one list, each copied
    with a `type` tag naming its kind; internships first, then leave, ID-card
    and hackathon requests, each kind in natural order. */
module AllRequests {
  import InternshipForms
  import LeaveRequests
  import HackathonApplications
  import IdRequests

  /** The stored document an entry copies. */
  datatype Item =
    | InternshipItem(application: InternshipForms.Application)
    | LeaveItem(request: LeaveRequests.LeaveRequest)
    | IdCardItem(idRequest: IdRequests.IdRequest)
    | HackathonItem(hackathon: HackathonApplications.Hackathon)

  /** `{ ...item._doc, type }`. The internship, leave and ID-card schemas
      declare no `type` path, so for them the tag adds a field rather than
      overriding one (the hackathon schema is not part of this model). */
  datatype Entry = Entry(kind: string, item: Item)

  /** The tag `mapData` gives each kind. */
  function KindOf(item: Item): string {
    match item
    case InternshipItem(_) => "internship"
    case LeaveItem(_) => "leave"
    case IdCardItem(_) => "idcard"
    case HackathonItem(_) => "hackathon"
  }

  function TagInternships(s: seq<InternshipForms.Application>): seq<Entry> {
    seq(|s|, k requires 0 <= k < |s| => Entry("internship", InternshipItem(s[k])))
  }

  function TagLeaves(s: seq<LeaveRequests.LeaveRequest>): seq<Entry> {
    seq(|s|, k requires 0 <= k < |s| => Entry("leave", LeaveItem(s[k])))
  }

  function TagIds(s: seq<IdRequests.IdRequest>): seq<Entry> {
    seq(|s|, k requires 0 <= k < |s| => Entry("idcard", IdCardItem(s[k])))
  }

  function TagHackathons(s: seq<HackathonApplications.Hackathon>): seq<Entry> {
    seq(|s|, k requires 0 <= k < |s| => Entry("hackathon", HackathonItem(s[k])))
  }

  /** The handler's reply: one entry per stored request, in blocks by kind;
      within each block the collection's own order; nothing filtered. */
  function GetAllRequests(internships: seq<InternshipForms.Application>,
                          leaves: seq<LeaveRequests.LeaveRequest>,
                          ids: seq<IdRequests.IdRequest>,
                          hackathons: seq<HackathonApplications.Hackathon>): (r: seq<Entry>)
    ensures |r| == |internships| + |leaves| + |ids| + |hackathons|
    ensures forall k :: 0 <= k < |r| ==> r[k].kind == KindOf(r[k].item)
    ensures forall k :: 0 <= k < |internships| ==> r[k].item == InternshipItem(internships[k])
    ensures forall k :: 0 <= k < |leaves| ==> r[|internships| + k].item == LeaveItem(leaves[k])
    ensures forall k :: 0 <= k < |ids| ==> r[|internships| + |leaves| + k].item == IdCardItem(ids[k])
    ensures forall k :: 0 <= k < |hackathons| ==>
              r[|internships| + |leaves| + |ids| + k].item == HackathonItem(hackathons[k])
  {
    TagInternships(internships) + TagLeaves(leaves) + TagIds(ids) + TagHackathons(hackathons)
  }

  function CountKind(r: seq<Entry>, kind: string): nat {
    if r == [] then 0 else (if r[0].kind == kind then 1 else 0) + CountKind(r[1..], kind)
  }

  lemma {:induction false} CountKindAppend(a: seq<Entry>, b: seq<Entry>, kind: string)
    ensures CountKind(a + b, kind) == CountKind(a, kind) + CountKind(b, kind)
  {
    if a == [] {
      assert a + b == b;
    } else {
      assert (a + b)[1..] == a[1..] + b;
      CountKindAppend(a[1..], b, kind);
    }
  }

  lemma {:induction false} CountUniform(r: seq<Entry>, tag: string, kind: string)
    requires forall k :: 0 <= k < |r| ==> r[k].kind == tag
    ensures CountKind(r, kind) == (if tag == kind then |r| else 0)
  {
    if r != [] {
      CountUniform(r[1..], tag, kind);
    }
  }

  /** Filtering the combined list by its `type` tag gives back each kind's
      count: every request appears once, under its own kind. */
  lemma TagsCountEachKind(internships: seq<InternshipForms.Application>,
                          leaves: seq<LeaveRequests.LeaveRequest>,
                          ids: seq<IdRequests.IdRequest>,
                          hackathons: seq<HackathonApplications.Hackathon>)
    ensures var r := GetAllRequests(internships, leaves, ids, hackathons);
            CountKind(r, "internship") == |internships| && CountKind(r, "leave") == |leaves| &&
            CountKind(r, "idcard") == |ids| && CountKind(r, "hackathon") == |hackathons|
  {
    var a, b, c, d := TagInternships(internships), TagLeaves(leaves), TagIds(ids), TagHackathons(hackathons);
    forall kind: string
      ensures CountKind(a + b + c + d, kind) ==
                (if kind == "internship" then |a| else 0) + (if kind == "leave" then |b| else 0) +
                (if kind == "idcard" then |c| else 0) + (if kind == "hackathon" then |d| else 0)
    {
      CountKindAppend(a + b + c, d, kind);
      CountKindAppend(a + b, c, kind);
      CountKindAppend(a, b, kind);
      CountUniform(a, "internship", kind);
      CountUniform(b, "leave", kind);
      CountUniform(c, "idcard", kind);
      CountUniform(d, "hackathon", kind);
    }
  }
}
