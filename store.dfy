/** A MongoDB collection as the request controllers use it through
    Mongoose: documents keyed by their generated `_id`, kept in insertion
    (natural) order, with `save`, `findByIdAndUpdate`, `findByIdAndDelete`
    and `find` (optionally sorted by `createdAt` descending). */
module Store {

  datatype Option<T> = None | Some(value: T)

  /** An `_id`; ObjectIds are modelled as naturals handed out in increasing order. */
  type Id = nat

  /** An id as a handler receives it: a string that either parses as an
      ObjectId or makes Mongoose throw a CastError. */
  datatype IdParam = Malformed | ObjectId(id: Id)

  /** A stored document: the paths every request schema shares (`_id`,
      `status`, `createdAt`) and the kind's own fields. */
  datatype Doc<R> = Doc(id: Id, status: string, createdAt: int, fields: R)

  /** The status every request schema gives a new document (`default: "Pending"`). */
  const Pending := "Pending"
  const Approved := "Approved"
  const Rejected := "Rejected"

  /** `sort({ createdAt: -1 })`: newest first. */
  ghost predicate NewestFirst<R>(s: seq<Doc<R>>) {
    forall i, j :: 0 <= i < j < |s| ==> s[i].createdAt >= s[j].createdAt
  }

  function InsertNewestFirst<R(!new)>(d: Doc<R>, s: seq<Doc<R>>): (r: seq<Doc<R>>)
    requires NewestFirst(s)
    ensures NewestFirst(r)
    ensures multiset(r) == multiset(s) + multiset{d}
    ensures forall x :: x in r ==> x in s || x == d
  {
    if s == [] then [d]
    else if d.createdAt >= s[0].createdAt then [d] + s
    else
      var rest := InsertNewestFirst(d, s[1..]);
      assert s == [s[0]] + s[1..];
      assert forall x :: x in rest ==> x.createdAt <= s[0].createdAt;
      [s[0]] + rest
  }

  /** The order the database returns for `.sort({ createdAt: -1 })`: a
      rearrangement of the documents, newest first (ties in any order). */
  function SortNewestFirst<R(!new)>(s: seq<Doc<R>>): (r: seq<Doc<R>>)
    ensures NewestFirst(r)
    ensures multiset(r) == multiset(s)
  {
    if s == [] then []
    else
      assert s == [s[0]] + s[1..];
      InsertNewestFirst(s[0], SortNewestFirst(s[1..]))
  }

  /** `a` is `b` with some elements left out, the rest in their order. */
  ghost predicate IsSubsequence<T>(a: seq<T>, b: seq<T>)
    decreases |b|
  {
    if a == [] then true
    else if b == [] then false
    else (a[0] == b[0] && IsSubsequence(a[1..], b[1..])) || IsSubsequence(a, b[1..])
  }

  /** `find({ status })` without a sort: the documents with exactly that
      status, in the order they were given. */
  function WithStatus<R(!new)>(s: seq<Doc<R>>, status: string): (r: seq<Doc<R>>)
    ensures forall d :: d in r <==> d in s && d.status == status
    ensures IsSubsequence(r, s)
  {
    if s == [] then []
    else
      var rest := WithStatus(s[1..], status);
      assert s == [s[0]] + s[1..];
      if s[0].status == status then
        assert ([s[0]] + rest)[1..] == rest;
        [s[0]] + rest
      else
        rest
  }

  function Count<R>(s: seq<Doc<R>>, status: string): (n: nat)
    ensures n <= |s|
  {
    if s == [] then 0 else (if s[0].status == status then 1 else 0) + Count(s[1..], status)
  }

  /** `countDocuments({ status })` is the length of `find({ status })`. */
  lemma {:induction false} CountIsFilterLength<R(!new)>(s: seq<Doc<R>>, status: string)
    ensures Count(s, status) == |WithStatus(s, status)|
  {
    if s != [] {
      CountIsFilterLength(s[1..], status);
    }
  }

  /** The documents stored under `ids`, in that order. */
  function Lookup<R>(docs: map<Id, Doc<R>>, ids: seq<Id>): (r: seq<Doc<R>>)
    requires forall id :: id in ids ==> id in docs
    ensures |r| == |ids|
    ensures forall k :: 0 <= k < |ids| ==> r[k] == docs[ids[k]]
  {
    seq(|ids|, k requires 0 <= k < |ids| => docs[ids[k]])
  }

  function Without(ids: seq<Id>, id: Id): (r: seq<Id>)
    ensures forall x :: x in r <==> x in ids && x != id
    ensures |r| <= |ids|
    ensures (forall i, j :: 0 <= i < j < |ids| ==> ids[i] != ids[j]) ==>
              (forall i, j :: 0 <= i < j < |r| ==> r[i] != r[j])
  {
    if ids == [] then []
    else if ids[0] == id then Without(ids[1..], id)
    else
      var rest := Without(ids[1..], id);
      assert (forall i, j :: 0 <= i < j < |ids| ==> ids[i] != ids[j]) ==> ids[0] !in rest by {
        if forall i, j :: 0 <= i < j < |ids| ==> ids[i] != ids[j] {
          assert forall j :: 0 <= j < |ids[1..]| ==> ids[1..][j] == ids[j + 1];
        }
      }
      [ids[0]] + rest
  }

  /** `findOne(filter)` in natural order: the position of the first
      element that satisfies `p`. */
  function FindFirst<T>(s: seq<T>, p: T -> bool): (r: Option<nat>)
    ensures r.Some? ==> r.value < |s| && p(s[r.value])
    ensures r.Some? ==> forall j :: 0 <= j < r.value ==> !p(s[j])
    ensures r.None? <==> forall j :: 0 <= j < |s| ==> !p(s[j])
  {
    if s == [] then None
    else if p(s[0]) then Some(0)
    else match FindFirst(s[1..], p)
      case None => None
      case Some(i) => Some(i + 1)
  }

  /** One collection. `docs` holds the documents by `_id`; `order` lists
      their ids in natural order (the order of an unsorted `find()`);
      `nextId` is the id the next `save` hands out. */
  class Collection<R(!new)> {
    var docs: map<Id, Doc<R>>
    var order: seq<Id>
    var nextId: Id

    ghost predicate Valid()
      reads this
    {
      (forall i, j :: 0 <= i < j < |order| ==> order[i] != order[j]) &&
      (forall id :: id in docs <==> id in order) &&
      (forall id :: id in docs ==> docs[id].id == id && id < nextId)
    }

    constructor ()
      ensures Valid()
      ensures docs == map[] && order == []
    {
      docs, order, nextId := map[], [], 0;
    }

    /** `find()`: every document, in natural order. */
    function Find(): (r: seq<Doc<R>>)
      reads this
      requires Valid()
      ensures forall k :: 0 <= k < |r| ==> r[k].id in docs && docs[r[k].id] == r[k]
      ensures forall id :: id in docs ==> docs[id] in r
    {
      var r := Lookup(docs, order);
      assert forall id :: id in docs ==> docs[id] in r by {
        forall id | id in docs ensures docs[id] in r {
          var k :| 0 <= k < |order| && order[k] == id;
          assert r[k] == docs[id];
        }
      }
      r
    }

    /** `new Model({...}).save()`: a fresh id, the document appended in natural order. */
    method Save(status: string, createdAt: int, fields: R) returns (id: Id)
      requires Valid()
      modifies this
      ensures Valid()
      ensures id == old(nextId) && id !in old(docs)
      ensures docs == old(docs)[id := Doc(id, status, createdAt, fields)]
      ensures order == old(order) + [id]
      ensures nextId == old(nextId) + 1
    {
      id := nextId;
      assert id !in order;
      docs := docs[id := Doc(id, status, createdAt, fields)];
      order := order + [id];
      nextId := nextId + 1;
    }

    /** `findByIdAndUpdate(id, { status, ... }, { new: true })`: sets the
        status, applies `edit` to the kind's fields, returns the new document;
        None (and nothing changes) when no document has that id. */
    method FindByIdAndUpdate(id: Id, status: string, edit: R -> R) returns (updated: Option<Doc<R>>)
      requires Valid()
      modifies this
      ensures Valid()
      ensures order == old(order) && nextId == old(nextId)
      ensures id !in old(docs) ==> updated == None && docs == old(docs)
      ensures id in old(docs) ==>
                var d := old(docs)[id];
                var d' := d.(status := status, fields := edit(d.fields));
                updated == Some(d') && docs == old(docs)[id := d']
    {
      if id in docs {
        var d := docs[id];
        var d' := d.(status := status, fields := edit(d.fields));
        docs := docs[id := d'];
        updated := Some(d');
      } else {
        updated := None;
      }
    }

    /** `findByIdAndDelete(id)`: removes the document and returns it; None
        (and nothing changes) when no document has that id. */
    method FindByIdAndDelete(id: Id) returns (removed: Option<Doc<R>>)
      requires Valid()
      modifies this
      ensures Valid()
      ensures nextId == old(nextId)
      ensures id !in old(docs) ==> removed == None && docs == old(docs) && order == old(order)
      ensures id in old(docs) ==>
                removed == Some(old(docs)[id]) && docs == old(docs) - {id} && order == Without(old(order), id)
    {
      if id in docs {
        removed := Some(docs[id]);
        docs := docs - {id};
        order := Without(order, id);
      } else {
        removed := None;
      }
    }
  }

}
