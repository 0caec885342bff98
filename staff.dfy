// API/staff.js: `GET /staff/myLabs`, the devices of the labs the signed-in
// user is assigned to, one page at a time.

module Staff {
  import opened Wrappers
  import opened Seqs
  import opened Models
  import Paging

  /** `populate("labs")` then `map(lab => lab._id)`: the references that still resolve. */
  function LiveLabs(labs: seq<Doc<Lab>>, refs: seq<Id>): (r: seq<Id>)
    ensures forall l :: l in r <==> l in refs && FindById(labs, l).Some?
  {
    Filter(refs, (l: Id) => FindById(labs, l).Some?)
  }

  /** `{ labId: { $in: labIds } }`. */
  predicate InLabs(d: Doc<Item>, labIds: seq<Id>) {
    d.val.labId.Some? && d.val.labId.value in labIds
  }

  /** The devices the query matches, in natural order. */
  function Assigned(items: seq<Doc<Item>>, labIds: seq<Id>): (r: seq<Doc<Item>>)
    ensures forall d :: d in r <==> d in items && InLabs(d, labIds)
  {
    Filter(items, (d: Doc<Item>) => InLabs(d, labIds))
  }

  /**
   * `GET /staff/myLabs`: 404 when the user is gone; otherwise one page of
   * the devices whose lab is among the user's existing labs, with `total`
   * counting all of them. A negative skip fails in the store: 500.
   */
  function MyLabs(users: seq<Doc<User>>, labs: seq<Doc<Lab>>, items: seq<Doc<Item>>, viewer: Id, page: Option<int>, limit: Option<int>)
    : (r: Outcome<Paging.Page<Doc<Item>>>)
    ensures r == Failure(404) <==> FindById(users, viewer).None?
    ensures FindById(users, viewer).Some? && (Paging.ParamOr(page, 1) - 1) * Paging.ParamOr(limit, 10) < 0 ==> r == Failure(500)
    ensures FindById(users, viewer).Some? && (Paging.ParamOr(page, 1) - 1) * Paging.ParamOr(limit, 10) >= 0 ==> r.Success?
    ensures r.Success? ==>
      var u := FindById(users, viewer).value;
      && Paging.Paginate(Assigned(items, LiveLabs(labs, u.labs)), Paging.ParamOr(page, 1), Paging.ParamOr(limit, 10)) == Some(r.value)
      && r.value.page == Paging.ParamOr(page, 1) && r.value.limit == Paging.ParamOr(limit, 10)
      && r.value.total == |Assigned(items, LiveLabs(labs, u.labs))|
      && forall d :: d in r.value.docs ==>
           d in items && d.val.labId.Some? && d.val.labId.value in u.labs && FindById(labs, d.val.labId.value).Some?
  {
    var p := Paging.ParamOr(page, 1);
    var l := Paging.ParamOr(limit, 10);
    match FindById(users, viewer)
    case None => Failure(404)
    case Some(u) =>
      var mine := Assigned(items, LiveLabs(labs, u.labs));
      match Paging.Paginate(mine, p, l)
      case None => Failure(500)
      case Some(pg) =>
        assert forall d :: d in pg.docs ==> d in mine by {
          forall d | d in pg.docs ensures d in mine {
            var k :| 0 <= k < |pg.docs| && pg.docs[k] == d;
          }
        }
        Success(pg)
  }

  /** Page `page` of the user's listing holds `d`. */
  predicate MyLabsLists(users: seq<Doc<User>>, labs: seq<Doc<Lab>>, items: seq<Doc<Item>>, viewer: Id, page: int, limit: int, d: Doc<Item>) {
    var r := MyLabs(users, labs, items, viewer, Some(page), Some(limit));
    r.Success? && d in r.value.docs
  }

  /**
   * Every device of one of the user's labs is listed: with a positive
   * limit it appears on the page its position in the listing says.
   */
  lemma EveryAssignedDeviceListed(users: seq<Doc<User>>, labs: seq<Doc<Lab>>, items: seq<Doc<Item>>, viewer: Id, limit: int, d: Doc<Item>)
    requires limit > 0
    requires FindById(users, viewer).Some?
    requires d in items && d.val.labId.Some? && d.val.labId.value in FindById(users, viewer).value.labs
    requires FindById(labs, d.val.labId.value).Some?
    ensures exists page :: page >= 1 && MyLabsLists(users, labs, items, viewer, page, limit, d)
  {
    var mine := Assigned(items, LiveLabs(labs, FindById(users, viewer).value.labs));
    assert d in mine;
    var j :| 0 <= j < |mine| && mine[j] == d;
    Paging.PageOfIndex(mine, limit, j);
    ListedOnPage(users, labs, items, viewer, j / limit + 1, limit, j % limit);
  }

  /** Entry `k` of page `page` of the listing is on that page of the reply. */
  lemma ListedOnPage(users: seq<Doc<User>>, labs: seq<Doc<Lab>>, items: seq<Doc<Item>>, viewer: Id, page: int, limit: int, k: int)
    requires limit > 0 && page >= 1
    requires FindById(users, viewer).Some?
    requires var pg := Paging.Paginate(Assigned(items, LiveLabs(labs, FindById(users, viewer).value.labs)), page, limit);
      pg.Some? && 0 <= k < |pg.value.docs|
    ensures var pg := Paging.Paginate(Assigned(items, LiveLabs(labs, FindById(users, viewer).value.labs)), page, limit);
      MyLabsLists(users, labs, items, viewer, page, limit, pg.value.docs[k])
  {
    assert Paging.ParamOr(Some(page), 1) == page && Paging.ParamOr(Some(limit), 10) == limit;
    var r := MyLabs(users, labs, items, viewer, Some(page), Some(limit));
    assert r.Success?;
  }
}
