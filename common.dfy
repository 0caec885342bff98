// API/common.js: the `move-items` handler with its field table and move log,
// and `updateStateLog`.

module Common {
  import opened Wrappers
  import opened Seqs
  import opened Models
  import Text

  /** One side of a move: a container kind (`"lab"`, `"item"`, ...) and its id. */
  datatype Container = Container(kind: string, id: Id)

  /** The request body of `PUT /common/move-items`. */
  datatype MoveRequest = MoveRequest(moveFrom: Container, moveTo: Container, itemType: string, itemId: IdPayload)

  /** A scalar id is the one-element list; an array is used as it is. */
  function MovedIds(p: IdPayload): (ids: seq<Id>)
    ensures p.OneId? ==> ids == [p.id]
    ensures p.IdList? ==> ids == p.ids
  {
    match p
    case OneId(x) => [x]
    case IdList(xs) => xs
  }

  /** The membership arrays a move can touch: two on labs, two on devices. */
  datatype Field = ItemsField | ComponentsField | DeviceListField | ComponentListField

  predicate OnLab(f: Field) {
    f == ItemsField || f == ComponentsField
  }

  datatype FieldLookup = Found(field: Field) | NoEntry | UnknownItemType

  /**
   * `FIELD_MAP[itemType][container]`. An item type outside the table makes
   * the first index undefined, and indexing that throws.
   */
  function FieldFor(itemType: string, container: string): (r: FieldLookup)
    ensures r.UnknownItemType? <==> itemType != "item" && itemType != "component"
    ensures r.Found? <==> (itemType == "item" || itemType == "component") && (container == "lab" || container == "item")
    ensures r.Found? ==> (OnLab(r.field) <==> container == "lab")
    ensures r.Found? ==> (r.field in {ItemsField, DeviceListField} <==> itemType == "item")
  {
    if itemType == "item" then
      if container == "lab" then Found(ItemsField)
      else if container == "item" then Found(DeviceListField)
      else NoEntry
    else if itemType == "component" then
      if container == "lab" then Found(ComponentsField)
      else if container == "item" then Found(ComponentListField)
      else NoEntry
    else UnknownItemType
  }

  /** The four entries of the table, written out. */
  lemma FieldTable()
    ensures FieldFor("item", "lab") == Found(ItemsField)
    ensures FieldFor("item", "item") == Found(DeviceListField)
    ensures FieldFor("component", "lab") == Found(ComponentsField)
    ensures FieldFor("component", "item") == Found(ComponentListField)
  {
  }

  datatype MoveOutcome =
    | SameLocation
    | IntoItself
    | InvalidMove
    | ItemTypeUnknown
    | Moved(fromField: Field, toField: Field, ids: seq<Id>)

  /** The status code the handler answers with. */
  function MoveReply(o: MoveOutcome): (r: Reply)
    ensures r.success <==> o.Moved?
    ensures o.ItemTypeUnknown? <==> r.code == 500
    ensures o.Moved? ==> r == Ok(200)
    ensures !o.Moved? && !o.ItemTypeUnknown? ==> r == Fail(400)
  {
    match o
    case Moved(_, _, _) => Ok(200)
    case ItemTypeUnknown => Fail(500)
    case _ => Fail(400)
  }

  /**
   * The checks in the handler's order: same container, self-containment
   * (decided by the caller), then the table lookups for both sides.
   */
  function Resolve(req: MoveRequest, intoItself: bool): MoveOutcome
  {
    if req.moveFrom.id == req.moveTo.id then SameLocation
    else if intoItself then IntoItself
    else
      var from := FieldFor(req.itemType, req.moveFrom.kind);
      var to := FieldFor(req.itemType, req.moveTo.kind);
      if from.UnknownItemType? then ItemTypeUnknown
      else if from.Found? && to.Found? then Moved(from.field, to.field, MovedIds(req.itemId))
      else InvalidMove
  }

  /** `item.id == moveTo.id` under JavaScript's loose equality: an array compares as its comma-joined text. */
  predicate LooselyEqualsId(p: IdPayload, id: Id) {
    match p
    case OneId(x) => x == id
    case IdList(xs) => Text.Join(xs, ',') == id
  }

  /** The decision as the handler writes it. */
  function DecideAsWritten(req: MoveRequest): (o: MoveOutcome)
    ensures o == SameLocation <==> req.moveFrom.id == req.moveTo.id
  {
    Resolve(req, LooselyEqualsId(req.itemId, req.moveTo.id))
  }

  /** The decision with self-containment checked against every moved id. */
  function Decide(req: MoveRequest): (o: MoveOutcome)
    ensures o == SameLocation <==> req.moveFrom.id == req.moveTo.id
    ensures o == IntoItself <==> req.moveFrom.id != req.moveTo.id && req.moveTo.id in MovedIds(req.itemId)
    ensures o.Moved? ==> o.ids == MovedIds(req.itemId) && req.moveTo.id !in o.ids
    ensures o.Moved? <==>
      && req.moveFrom.id != req.moveTo.id
      && req.moveTo.id !in MovedIds(req.itemId)
      && FieldFor(req.itemType, req.moveFrom.kind).Found?
      && FieldFor(req.itemType, req.moveTo.kind).Found?
    ensures o == ItemTypeUnknown <==>
      && req.moveFrom.id != req.moveTo.id
      && req.moveTo.id !in MovedIds(req.itemId)
      && req.itemType != "item" && req.itemType != "component"
  {
    Resolve(req, req.moveTo.id in MovedIds(req.itemId))
  }

  /** With a single id both decisions agree. */
  lemma ScalarDecisionsAgree(req: MoveRequest)
    requires req.itemId.OneId?
    ensures DecideAsWritten(req) == Decide(req)
  {
  }

  /**
   * With well-formed ids (non-empty, no commas) the written check catches an
   * array only when it is exactly `[moveTo.id]`.
   */
  lemma {:induction false} LooseCheckOnArrays(xs: seq<Id>, to: Id)
    requires forall x :: x in xs ==> x != "" && ',' !in x
    requires to != "" && ',' !in to
    ensures LooselyEqualsId(IdList(xs), to) <==> xs == [to]
  {
    if |xs| >= 2 {
      Text.JoinHasSeparator(xs, ',');
    }
  }

  /** An array that holds the destination among other ids passes the written check. */
  lemma SelfMoveSlipsThrough()
    ensures var req := MoveRequest(Container("lab", "L"), Container("item", "b"), "item", IdList(["a", "b"]));
      && DecideAsWritten(req) == Moved(ItemsField, DeviceListField, ["a", "b"])
      && Decide(req) == IntoItself
  {
    var req := MoveRequest(Container("lab", "L"), Container("item", "b"), "item", IdList(["a", "b"]));
    assert Text.Join(["a", "b"], ',') == "a,b";
    assert "b" in MovedIds(req.itemId);
  }

  // ---------------------------------------------------------------------
  // The two writes

  /** The collections a move writes to. */
  datatype Docs = Docs(labs: map<Id, Lab>, items: map<Id, Item>)

  /** The array `f` of document `id`, if that document exists. */
  function FieldOf(d: Docs, f: Field, id: Id): Option<seq<Id>>
  {
    if OnLab(f) then
      if id in d.labs then Some(if f == ItemsField then d.labs[id].items else d.labs[id].components) else None
    else
      if id in d.items then Some(if f == DeviceListField then d.items[id].deviceList else d.items[id].componentList) else None
  }

  /** `findByIdAndUpdate(id, update)` on array `f`: a missing document is left alone. */
  function Update(d: Docs, f: Field, id: Id, g: seq<Id> -> seq<Id>): Docs
  {
    if OnLab(f) then
      if id !in d.labs then d
      else
        var l := d.labs[id];
        d.(labs := d.labs[id := if f == ItemsField then l.(items := g(l.items)) else l.(components := g(l.components))])
    else
      if id !in d.items then d
      else
        var i := d.items[id];
        d.(items := d.items[id := if f == DeviceListField then i.(deviceList := g(i.deviceList)) else i.(componentList := g(i.componentList))])
  }

  /** `$pull` with `$in` on the source, then `$push` with `$each` on the destination. */
  function AfterMove(d: Docs, from: Id, f: Field, to: Id, t: Field, ids: seq<Id>): Docs
  {
    var pulled := Update(d, f, from, s => Pull(s, ids));
    Update(pulled, t, to, s => s + ids)
  }

  /** Two fields are the same array slot when they name the same field of the same document. */
  predicate SameSlot(f: Field, x: Id, g: Field, y: Id) {
    f == g && x == y
  }

  /** One `findByIdAndUpdate` changes at most the one array it names. */
  lemma UpdateEffect(d: Docs, f: Field, id: Id, g: seq<Id> -> seq<Id>)
    ensures var a := Update(d, f, id, g);
      && a.labs.Keys == d.labs.Keys && a.items.Keys == d.items.Keys
      && (forall l :: l in a.labs ==> a.labs[l].staffs == d.labs[l].staffs && a.labs[l].name == d.labs[l].name)
      && (forall i :: i in a.items ==> a.items[i].labId == d.items[i].labId)
      && FieldOf(a, f, id) == (if FieldOf(d, f, id).Some? then Some(g(FieldOf(d, f, id).value)) else None)
      && (forall h, x :: !SameSlot(h, x, f, id) ==> FieldOf(a, h, x) == FieldOf(d, h, x))
  {
  }

  /**
   * What a successful move does: the source array loses every occurrence of
   * every moved id, the destination array gains all the ids in order, and
   * no other array changes; a missing document stays missing. No document is
   * created or deleted, and no staff list changes.
   */
  lemma MoveEffect(d: Docs, from: Id, f: Field, to: Id, t: Field, ids: seq<Id>)
    requires from != to
    ensures var a := AfterMove(d, from, f, to, t, ids);
      && a.labs.Keys == d.labs.Keys && a.items.Keys == d.items.Keys
      && (forall l :: l in a.labs ==> a.labs[l].staffs == d.labs[l].staffs && a.labs[l].name == d.labs[l].name)
      && (forall i :: i in a.items ==> a.items[i].labId == d.items[i].labId)
      && (FieldOf(d, f, from).Some? ==> FieldOf(a, f, from) == Some(Pull(FieldOf(d, f, from).value, ids)))
      && (FieldOf(d, t, to).Some? ==> FieldOf(a, t, to) == Some(FieldOf(d, t, to).value + ids))
      && (FieldOf(d, f, from).None? ==> FieldOf(a, f, from).None?)
      && (FieldOf(d, t, to).None? ==> FieldOf(a, t, to).None?)
      && (forall g, x :: !SameSlot(g, x, f, from) && !SameSlot(g, x, t, to) ==> FieldOf(a, g, x) == FieldOf(d, g, x))
  {
    var pull := s => Pull(s, ids);
    var push := s => s + ids;
    var pulled := Update(d, f, from, pull);
    UpdateEffect(d, f, from, pull);
    UpdateEffect(pulled, t, to, push);
    assert !SameSlot(t, to, f, from);
  }

  /** After a successful move none of the moved ids is left in the source array. */
  lemma MovedIdsLeaveSource(d: Docs, from: Id, f: Field, to: Id, t: Field, ids: seq<Id>, x: Id)
    requires from != to && x in ids
    requires FieldOf(d, f, from).Some?
    ensures x !in FieldOf(AfterMove(d, from, f, to, t, ids), f, from).value
  {
    MoveEffect(d, from, f, to, t, ids);
  }

  /** The one log a move writes. */
  function MoveLogOf(req: MoveRequest, actor: Id): (log: MoveLog)
    ensures log.moveFromId == req.moveFrom.id && log.moveToId == req.moveTo.id && log.userId == actor
    ensures log.moveFrom == req.moveFrom.kind && log.moveTo == req.moveTo.kind
    ensures log.itemType == req.itemType && log.itemId == req.itemId
  {
    MoveLog(req.moveTo.kind, req.moveTo.id, req.moveFrom.kind, req.moveFrom.id, req.itemType, req.itemId, actor)
  }

  /**
   * `PUT /common/move-items`. Success does not depend on the documents
   * existing. `logSaved` is whether the store accepted the move log: a
   * failed insert is swallowed and the reply is unaffected.
   */
  method MoveItems(db: Db, req: MoveRequest, actor: Id, logSaved: bool) returns (r: Reply)
    requires db.Valid()
    modifies db`labs, db`items, db`logs
    ensures db.Valid()
    ensures r == MoveReply(Decide(req))
    ensures Decide(req).Moved? ==>
      var o := Decide(req);
      && Docs(db.labs, db.items) == AfterMove(Docs(old(db.labs), old(db.items)), req.moveFrom.id, o.fromField, req.moveTo.id, o.toField, o.ids)
      && db.logs == old(db.logs) + (if logSaved then [MoveLogOf(req, actor)] else [])
    ensures !Decide(req).Moved? ==> db.labs == old(db.labs) && db.items == old(db.items) && db.logs == old(db.logs)
  {
    var ids := MovedIds(req.itemId);
    if req.moveFrom.id == req.moveTo.id {
      return Fail(400);
    }
    if req.moveTo.id in ids {
      return Fail(400);
    }
    var fromField := FieldFor(req.itemType, req.moveFrom.kind);
    if fromField.UnknownItemType? {
      return Fail(500);
    }
    var toField := FieldFor(req.itemType, req.moveTo.kind);
    if !fromField.Found? || !toField.Found? {
      return Fail(400);
    }
    var d := Docs(db.labs, db.items);
    var a := AfterMove(d, req.moveFrom.id, fromField.field, req.moveTo.id, toField.field, ids);
    MoveEffect(d, req.moveFrom.id, fromField.field, req.moveTo.id, toField.field, ids);
    StaffsKeepStaffLinked(db.users, db.labs, a.labs);
    db.labs, db.items := a.labs, a.items;
    r := Ok(200);
    if logSaved {
      db.logs := db.logs + [MoveLogOf(req, actor)];
    }
  }

  // ---------------------------------------------------------------------
  // updateStateLog

  const ValidStatuses: seq<string> := ["working", "broken", "under_maintenance"]

  function StateMessage(status: string): string {
    "Device marked as " + status
  }

  /**
   * `PUT /common/updateStateLog`. An unlisted status reaches an assignment to
   * a constant, which throws: 500 and nothing written. Otherwise the state of
   * the item (`itemType == "item"`) or component is overwritten and one state
   * log is appended.
   */
  method UpdateStateLog(db: Db, status: string, itemId: Id, itemType: string, actor: Id) returns (r: Reply)
    requires db.Valid()
    modifies db`items, db`components, db`stateLogs
    ensures db.Valid()
    ensures status !in ValidStatuses ==> r == Fail(500)
    ensures status in ValidStatuses && itemType == "item" ==>
      r == (if itemId in old(db.items) then Ok(200) else Fail(404))
    ensures status in ValidStatuses && itemType != "item" ==>
      r == (if itemId in old(db.components) then Ok(200) else Fail(404))
    ensures !r.success ==> db.items == old(db.items) && db.components == old(db.components) && db.stateLogs == old(db.stateLogs)
    ensures r.success ==> db.stateLogs == old(db.stateLogs) + [StateLog(itemId, itemType, status, StateMessage(status), actor)]
    ensures r.success && itemType == "item" ==>
      db.items == old(db.items)[itemId := old(db.items)[itemId].(currentState := status)] && db.components == old(db.components)
    ensures r.success && itemType != "item" ==>
      db.components == old(db.components)[itemId := old(db.components)[itemId].(currentState := status)] && db.items == old(db.items)
  {
    if status !in ValidStatuses {
      return Fail(500);
    }
    if itemType == "item" {
      if itemId !in db.items {
        return Fail(404);
      }
      db.items := db.items[itemId := db.items[itemId].(currentState := status)];
    } else {
      if itemId !in db.components {
        return Fail(404);
      }
      db.components := db.components[itemId := db.components[itemId].(currentState := status)];
    }
    r := Ok(200);
    db.stateLogs := db.stateLogs + [StateLog(itemId, itemType, status, StateMessage(status), actor)];
  }
}
