/** `POST /admin/bulk-approve-ids`: the ids of the pending hackathon or
    internship applications whose start date falls between today and
    `daysAhead` days from now, both ends included, compared as
    `YYYY-MM-DD` strings. Nothing is approved here: the ids are returned. */
module BulkSelect {
  import opened Store
  import Strings
  import InternshipForms
  import HackathonApplications

  /** `daysAhead` as the JSON body carries it. */
  datatype DaysAhead = Absent | Number(n: int) | Text(s: string)

  /** JavaScript truthiness of `daysAhead`: absent, 0 and "" are the only
      falsy values it can take. */
  predicate Truthy(d: DaysAhead): (b: bool)
    ensures !b <==> d == Absent || d == Number(0) || d == Text("")
  {
    match d
    case Absent => false
    case Number(n) => n != 0
    case Text(s) => s != ""
  }

  /** `[startDateStr, endDateStr]`: today and today plus `daysAhead` days,
      each as `toISOString().split('T')[0]` writes it. */
  datatype Window = Window(from: string, to: string)

  /** `startDate: { $gte: from, $lte: to }` on string values. */
  predicate InWindow(startDate: string, w: Window) {
    Strings.LexLe(w.from, startDate) && Strings.LexLe(startDate, w.to)
  }

  predicate Selected<R>(d: Doc<R>, startDate: R -> string, w: Window) {
    d.status == Pending && InWindow(startDate(d.fields), w)
  }

  /** `model.find({ status: "Pending", startDate: { $gte, $lte } })`: the
      selected documents in natural order. */
  function Eligible<R(!new)>(docs: seq<Doc<R>>, startDate: R -> string, w: Window): (r: seq<Doc<R>>)
    ensures forall d :: d in r <==> d in docs && Selected(d, startDate, w)
    ensures IsSubsequence(r, docs)
  {
    if docs == [] then []
    else
      var rest := Eligible(docs[1..], startDate, w);
      assert docs == [docs[0]] + docs[1..];
      if Selected(docs[0], startDate, w) then
        assert ([docs[0]] + rest)[1..] == rest;
        [docs[0]] + rest
      else
        rest
  }

  /** `docs.map((doc) => doc._id)`. */
  function IdsOf<R>(docs: seq<Doc<R>>): (ids: seq<Id>)
    ensures |ids| == |docs|
    ensures forall k :: 0 <= k < |docs| ==> ids[k] == docs[k].id
  {
    seq(|docs|, k requires 0 <= k < |docs| => docs[k].id)
  }

  function HackathonStart(f: HackathonApplications.HackathonForm): string { f.startDate }
  function InternshipStart(f: InternshipForms.Form): string { f.startDate }

  /** The route's reply: the ids, or an error status with its message. */
  datatype BulkReply = Ids(ids: seq<Id>) | Failed(code: nat, error: string)

  /** The route. `window` is None when the date arithmetic produced an
      Invalid Date (a `daysAhead` that does not parse as a number), which
      makes `toISOString` throw. The checks run in the source's order:
      missing fields, then the date window, then the request type. */
  function BulkApproveIds(kind: string, daysAhead: DaysAhead, window: Option<Window>,
                          hackathons: seq<HackathonApplications.Hackathon>,
                          internships: seq<InternshipForms.Application>): (r: BulkReply)
    ensures kind == "" || !Truthy(daysAhead) ==> r == Failed(400, "Type and daysAhead are required.")
    ensures kind != "" && Truthy(daysAhead) && window.None? ==> r == Failed(500, "Internal server error.")
    ensures kind != "" && Truthy(daysAhead) && window.Some? && kind != "hackathon" && kind != "internship" ==>
              r == Failed(400, "Invalid request type.")
    ensures r.Ids? <==> Truthy(daysAhead) && window.Some? && (kind == "hackathon" || kind == "internship")
    ensures r.Ids? && kind == "hackathon" ==>
              forall id :: id in r.ids <==> exists d :: d in hackathons && d.id == id && Selected(d, HackathonStart, window.value)
    ensures r.Ids? && kind == "internship" ==>
              forall id :: id in r.ids <==> exists d :: d in internships && d.id == id && Selected(d, InternshipStart, window.value)
  {
    if kind == "" || !Truthy(daysAhead) then Failed(400, "Type and daysAhead are required.")
    else if window.None? then Failed(500, "Internal server error.")
    else if kind == "hackathon" then
      var e := Eligible(hackathons, HackathonStart, window.value);
      assert forall id :: id in IdsOf(e) <==> exists d :: d in e && d.id == id;
      Ids(IdsOf(e))
    else if kind == "internship" then
      var e := Eligible(internships, InternshipStart, window.value);
      assert forall id :: id in IdsOf(e) <==> exists d :: d in e && d.id == id;
      Ids(IdsOf(e))
    else Failed(400, "Invalid request type.")
  }

  /** A window that ends before it starts (a negative `daysAhead`) selects
      nothing. */
  lemma InvertedWindowSelectsNothing<R(!new)>(docs: seq<Doc<R>>, startDate: R -> string, w: Window)
    requires !Strings.LexLe(w.from, w.to)
    ensures Eligible(docs, startDate, w) == []
  {
    var r := Eligible(docs, startDate, w);
    if r != [] {
      var d := r[0];
      assert d in r;
      Strings.LexLeTransitive(w.from, startDate(d.fields), w.to);
      assert false;
    }
  }

  /** Looking further ahead never drops an application: everything a
      narrower window selects, a window containing it selects too. */
  lemma WiderWindowSelectsMore<R(!new)>(docs: seq<Doc<R>>, startDate: R -> string, narrow: Window, wide: Window)
    requires Strings.LexLe(wide.from, narrow.from) && Strings.LexLe(narrow.to, wide.to)
    ensures forall d :: d in Eligible(docs, startDate, narrow) ==> d in Eligible(docs, startDate, wide)
  {
    forall d | d in Eligible(docs, startDate, narrow)
      ensures d in Eligible(docs, startDate, wide)
    {
      Strings.LexLeTransitive(wide.from, narrow.from, startDate(d.fields));
      Strings.LexLeTransitive(startDate(d.fields), narrow.to, wide.to);
    }
  }

  /** Both ends are inclusive: a pending application starting today or on
      the last day of the window is selected. */
  lemma WindowEndsInclusive<R(!new)>(docs: seq<Doc<R>>, startDate: R -> string, w: Window, d: Doc<R>)
    requires Strings.LexLe(w.from, w.to)
    requires d in docs && d.status == Pending
    requires startDate(d.fields) == w.from || startDate(d.fields) == w.to
    ensures d in Eligible(docs, startDate, w)
  {
    Strings.LexLeReflexive(w.from);
    Strings.LexLeReflexive(w.to);
  }

  /** On 2026-10-16, an application starting on 2026-10-18 is in a five-day
      window and outside a one-day window. */
  lemma TwoDaysAheadScenario()
    ensures InWindow("2026-10-18", Window("2026-10-16", "2026-10-21"))
    ensures !InWindow("2026-10-18", Window("2026-10-16", "2026-10-17"))
  {
    Strings.LexLeAfterCommonPrefix("2026-10-16", "2026-10-18", 9);
    Strings.LexLeAfterCommonPrefix("2026-10-18", "2026-10-21", 8);
    Strings.LexLeAfterCommonPrefix("2026-10-18", "2026-10-17", 9);
  }
}
