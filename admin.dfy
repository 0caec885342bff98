// API/admin.js: the admin handlers that write. Templates, labs, devices,
// and the two-sided lab/staff membership (`lab.staffs` against
// `user.labs`), with the cascades on delete. Each handler is one atomic
// sequence of writes on the store; fresh document ids are parameters.

module Admin {
  import opened Wrappers
  import opened Seqs
  import opened Models
  import opened Text
  import Paging

  // ---------------------------------------------------------------------
  // Templates

  /** Some stored template already has this category. */
  predicate CategoryTaken(templates: map<Id, Template>, category: string) {
    exists t :: t in templates && templates[t].category == category
  }

  /**
   * `POST /admin/add-template`. 400 without a category; the category is
   * lower-cased, and one already stored is refused with `success: false`
   * (status 200) and nothing inserted; otherwise 201.
   */
  method AddTemplate(db: Db, category: Option<string>, dataModel: string, actor: Id, tid: Id) returns (r: Reply)
    requires db.Valid() && tid !in db.templates
    modifies db`templates
    ensures db.Valid()
    ensures !Truthy(category) ==> r == Fail(400)
    ensures Truthy(category) && CategoryTaken(old(db.templates), Lower(category.value)) ==> r == Reply(200, false)
    ensures Truthy(category) && !CategoryTaken(old(db.templates), Lower(category.value)) ==>
      r == Ok(201) && db.templates == old(db.templates)[tid := Template(Lower(category.value), actor, dataModel)]
    ensures !r.success ==> db.templates == old(db.templates)
  {
    if !Truthy(category) {
      return Fail(400);
    }
    var cat := Lower(category.value);
    if exists t :: t in db.templates && db.templates[t].category == cat {
      return Reply(200, false);
    }
    LowerIsLower(category.value);
    db.templates := db.templates[tid := Template(cat, actor, dataModel)];
    r := Ok(201);
  }

  /** Once a category is stored, every spelling of it that differs only in case is taken. */
  lemma AddedCategoryTaken(templates: map<Id, Template>, tid: Id, category: string, actor: Id, dataModel: string, again: string)
    requires Lower(again) == Lower(category)
    ensures CategoryTaken(templates[tid := Template(Lower(category), actor, dataModel)], Lower(again))
  {
    var t' := templates[tid := Template(Lower(category), actor, dataModel)];
    assert tid in t' && t'[tid].category == Lower(again);
  }

  // ---------------------------------------------------------------------
  // Labs

  /**
   * `POST /admin/create-lab`. 400 unless name, type and dept are all given;
   * otherwise a lab with the creator as its one admin and no staff or items.
   */
  method CreateLab(db: Db, name: Option<string>, labType: Option<string>, dept: Option<string>, actor: Id, lid: Id)
    returns (r: Reply)
    requires db.Valid() && lid !in db.labs
    modifies db`labs
    ensures db.Valid()
    ensures !Truthy(name) || !Truthy(labType) || !Truthy(dept) ==> r == Fail(400) && db.labs == old(db.labs)
    ensures Truthy(name) && Truthy(labType) && Truthy(dept) ==>
      r == Ok(200) && db.labs == old(db.labs)[lid := Lab(name.value, labType.value, dept.value, [actor], [], [], [])]
  {
    if !Truthy(name) || !Truthy(labType) || !Truthy(dept) {
      return Fail(400);
    }
    var lab := Lab(name.value, labType.value, dept.value, [actor], [], [], []);
    NewLabKeepsStaffLinked(db.users, db.labs, lid, lab);
    db.labs := db.labs[lid := lab];
    r := Ok(200);
  }

  /**
   * `PUT /admin/update-lab`. 400 unless name, type and dept are all given;
   * 403 when no lab has the id; otherwise all three are overwritten.
   */
  method UpdateLab(db: Db, name: Option<string>, labType: Option<string>, dept: Option<string>, id: Id)
    returns (r: Reply)
    requires db.Valid()
    modifies db`labs
    ensures db.Valid()
    ensures !Truthy(name) || !Truthy(labType) || !Truthy(dept) ==> r == Fail(400)
    ensures Truthy(name) && Truthy(labType) && Truthy(dept) ==> r == (if id in old(db.labs) then Ok(200) else Fail(403))
    ensures !r.success ==> db.labs == old(db.labs)
    ensures r.success ==>
      db.labs == old(db.labs)[id := old(db.labs)[id].(name := name.value, labType := labType.value, dept := dept.value)]
  {
    if !Truthy(name) || !Truthy(labType) || !Truthy(dept) {
      return Fail(400);
    }
    if id !in db.labs {
      return Fail(403);
    }
    var lab := db.labs[id].(name := name.value, labType := labType.value, dept := dept.value);
    StaffsKeepStaffLinked(db.users, db.labs, db.labs[id := lab]);
    db.labs := db.labs[id := lab];
    r := Ok(200);
  }

  /** The partial update of `PUT /admin/labs/:labId`: only truthy fields are written. */
  function PatchedLab(l: Lab, name: Option<string>, labType: Option<string>, dept: Option<string>): (r: Lab)
    ensures r.name == (if Truthy(name) then name.value else l.name)
    ensures r.labType == (if Truthy(labType) then labType.value else l.labType)
    ensures r.dept == (if Truthy(dept) then dept.value else l.dept)
    ensures r.admins == l.admins && r.staffs == l.staffs && r.items == l.items && r.components == l.components
  {
    l.(name := OrElse(name, l.name), labType := OrElse(labType, l.labType), dept := OrElse(dept, l.dept))
  }

  /** Applying the same partial update twice is the same as once; an empty one changes nothing. */
  lemma PatchedLabIdempotent(l: Lab, name: Option<string>, labType: Option<string>, dept: Option<string>)
    ensures PatchedLab(PatchedLab(l, name, labType, dept), name, labType, dept) == PatchedLab(l, name, labType, dept)
    ensures !Truthy(name) && !Truthy(labType) && !Truthy(dept) ==> PatchedLab(l, name, labType, dept) == l
  {
  }

  /** `PUT /admin/labs/:labId`. 404 for a missing lab. */
  method PatchLab(db: Db, labId: Id, name: Option<string>, labType: Option<string>, dept: Option<string>) returns (r: Reply)
    requires db.Valid()
    modifies db`labs
    ensures db.Valid()
    ensures r == (if labId in old(db.labs) then Ok(200) else Fail(404))
    ensures !r.success ==> db.labs == old(db.labs)
    ensures r.success ==> db.labs == old(db.labs)[labId := PatchedLab(old(db.labs)[labId], name, labType, dept)]
  {
    if labId !in db.labs {
      return Fail(404);
    }
    var lab := PatchedLab(db.labs[labId], name, labType, dept);
    StaffsKeepStaffLinked(db.users, db.labs, db.labs[labId := lab]);
    db.labs := db.labs[labId := lab];
    r := Ok(200);
  }

  /**
   * `DELETE /admin/labs/:labId`. 404 for a missing lab; otherwise the lab
   * goes and its id is pulled from every user's `labs`.
   */
  method DeleteLab(db: Db, labId: Id) returns (r: Reply)
    requires db.Valid()
    modifies db`labs, db`users
    ensures db.Valid()
    ensures r == (if labId in old(db.labs) then Ok(200) else Fail(404))
    ensures !r.success ==> db.labs == old(db.labs) && db.users == old(db.users)
    ensures r.success ==> db.labs == old(db.labs) - {labId} && db.users == PullLabFromUsers(old(db.users), labId)
  {
    if labId !in db.labs {
      return Fail(404);
    }
    DropLabKeepsStaffLinked(db.users, db.labs, labId);
    var users' := PullLabFromUsers(db.users, labId);
    assert UniqueEmails(users') by {
      forall u | u in users' ensures users'[u].email == db.users[u].email { }
    }
    db.labs := db.labs - {labId};
    db.users := users';
    r := Ok(200);
  }

  /** After a lab is deleted no user lists it and nobody else's record changed. */
  lemma DeletedLabForgotten(users: map<Id, User>, labId: Id, u: Id)
    requires u in users
    ensures labId !in PullLabFromUsers(users, labId)[u].labs
    ensures labId !in users[u].labs ==> PullLabFromUsers(users, labId)[u] == users[u]
  {
    if labId !in users[u].labs {
      PullLabLeavesOthers(users, labId, u);
    }
  }

  // ---------------------------------------------------------------------
  // Devices

  /**
   * `POST /admin/devices`. 400 unless name, category and lab are given;
   * otherwise a device in state `working`, created by the caller, is
   * inserted, and its id is added once to the lab's `items` when the lab
   * exists.
   */
  method CreateDevice(db: Db, name: Option<string>, category: Option<string>, labId: Option<string>,
                      majorComponent: Option<string>, minorDescription: Option<string>, actor: Id, iid: Id)
    returns (r: Reply)
    requires db.Valid() && iid !in db.items
    modifies db`items, db`labs
    ensures db.Valid()
    ensures !Truthy(name) || !Truthy(category) || !Truthy(labId) ==>
      r == Fail(400) && db.items == old(db.items) && db.labs == old(db.labs)
    ensures Truthy(name) && Truthy(category) && Truthy(labId) ==>
      && r == Ok(201)
      && db.items == old(db.items)[iid := Item(name.value, category.value, Some(labId.value), "working", Some(actor),
                                                OrElse(majorComponent, ""), OrElse(minorDescription, ""), [], [])]
      && db.labs == (if labId.value in old(db.labs)
                     then old(db.labs)[labId.value := old(db.labs)[labId.value].(items := SetAdd(old(db.labs)[labId.value].items, iid))]
                     else old(db.labs))
  {
    if !Truthy(name) || !Truthy(category) || !Truthy(labId) {
      return Fail(400);
    }
    db.items := db.items[iid := Item(name.value, category.value, Some(labId.value), "working", Some(actor),
                                      OrElse(majorComponent, ""), OrElse(minorDescription, ""), [], [])];
    if labId.value in db.labs {
      var lab := db.labs[labId.value].(items := SetAdd(db.labs[labId.value].items, iid));
      StaffsKeepStaffLinked(db.users, db.labs, db.labs[labId.value := lab]);
      db.labs := db.labs[labId.value := lab];
    }
    r := Ok(201);
  }

  /** The partial update of `PUT /admin/devices/:deviceId`. */
  function PatchedItem(i: Item, name: Option<string>, category: Option<string>,
                       majorComponent: Option<string>, minorDescription: Option<string>): (r: Item)
    ensures r.name == (if Truthy(name) then name.value else i.name)
    ensures r.category == (if Truthy(category) then category.value else i.category)
    ensures r.majorComponent == (if Truthy(majorComponent) then majorComponent.value else i.majorComponent)
    ensures r.minorDescription == (if Truthy(minorDescription) then minorDescription.value else i.minorDescription)
    ensures r.labId == i.labId && r.currentState == i.currentState && r.createdBy == i.createdBy
    ensures r.deviceList == i.deviceList && r.componentList == i.componentList
  {
    i.(name := OrElse(name, i.name), category := OrElse(category, i.category),
       majorComponent := OrElse(majorComponent, i.majorComponent),
       minorDescription := OrElse(minorDescription, i.minorDescription))
  }

  /** `PUT /admin/devices/:deviceId`. 404 for a missing device. */
  method PatchDevice(db: Db, deviceId: Id, name: Option<string>, category: Option<string>,
                     majorComponent: Option<string>, minorDescription: Option<string>) returns (r: Reply)
    requires db.Valid()
    modifies db`items
    ensures db.Valid()
    ensures r == (if deviceId in old(db.items) then Ok(200) else Fail(404))
    ensures !r.success ==> db.items == old(db.items)
    ensures r.success ==>
      db.items == old(db.items)[deviceId := PatchedItem(old(db.items)[deviceId], name, category, majorComponent, minorDescription)]
  {
    if deviceId !in db.items {
      return Fail(404);
    }
    db.items := db.items[deviceId := PatchedItem(db.items[deviceId], name, category, majorComponent, minorDescription)];
    r := Ok(200);
  }

  /**
   * `DELETE /admin/devices/:deviceId`. 404 for a missing device; otherwise
   * it goes, and when it names a lab that exists, every occurrence of its
   * id is pulled from that lab's `items`.
   */
  method DeleteDevice(db: Db, deviceId: Id) returns (r: Reply)
    requires db.Valid()
    modifies db`items, db`labs
    ensures db.Valid()
    ensures r == (if deviceId in old(db.items) then Ok(200) else Fail(404))
    ensures !r.success ==> db.items == old(db.items) && db.labs == old(db.labs)
    ensures r.success ==>
      var lab := old(db.items)[deviceId].labId;
      && db.items == old(db.items) - {deviceId}
      && db.labs == (if lab.Some? && lab.value in old(db.labs)
                     then old(db.labs)[lab.value := old(db.labs)[lab.value].(items := Pull(old(db.labs)[lab.value].items, [deviceId]))]
                     else old(db.labs))
  {
    if deviceId !in db.items {
      return Fail(404);
    }
    var item := db.items[deviceId];
    db.items := db.items - {deviceId};
    if item.labId.Some? && item.labId.value in db.labs {
      var l := item.labId.value;
      var lab := db.labs[l].(items := Pull(db.labs[l].items, [deviceId]));
      StaffsKeepStaffLinked(db.users, db.labs, db.labs[l := lab]);
      db.labs := db.labs[l := lab];
    }
    r := Ok(200);
  }

  /** Deleting a device just created gives back the lab's item list and the device table. */
  lemma CreateThenDeleteDevice(items: map<Id, Item>, labItems: seq<Id>, iid: Id, item: Item)
    requires iid !in items && iid !in labItems
    ensures items[iid := item] - {iid} == items
    ensures Pull(SetAdd(labItems, iid), [iid]) == labItems
  {
    SetAddThenPull(labItems, iid);
  }

  // ---------------------------------------------------------------------
  // Staff membership

  /**
   * `PUT /admin/makeStaff`. 404 for a missing user; 401 when the user is
   * already staff or admin, role unchanged; otherwise the role becomes staff.
   */
  method MakeStaff(db: Db, staffId: Id) returns (r: Reply)
    requires db.Valid()
    modifies db`users
    ensures db.Valid()
    ensures staffId !in old(db.users) ==> r == Fail(404)
    ensures staffId in old(db.users) ==> r == (if old(db.users)[staffId].role == UserRole then Ok(201) else Fail(401))
    ensures !r.success ==> db.users == old(db.users)
    ensures r.success ==> db.users == old(db.users)[staffId := old(db.users)[staffId].(role := StaffRole)]
  {
    if staffId !in db.users {
      return Fail(404);
    }
    if db.users[staffId].role == StaffRole || db.users[staffId].role == AdminRole {
      return Fail(401);
    }
    var users' := db.users[staffId := db.users[staffId].(role := StaffRole)];
    SameLinksKeepInvariants(db.users, users', db.labs);
    db.users := users';
    r := Ok(201);
  }

  /**
   * `PUT /admin/assignStaff`. 404 for a missing user; 403 unless the user is
   * staff; 404 when the lab is missing or already lists the user, nothing
   * changed. Otherwise both sides gain the link, each at most once.
   */
  method AssignStaff(db: Db, labId: Id, staffId: Id) returns (r: Reply)
    requires db.Valid()
    modifies db`labs, db`users
    ensures db.Valid()
    ensures staffId !in old(db.users) ==> r == Fail(404)
    ensures staffId in old(db.users) && old(db.users)[staffId].role != StaffRole ==> r == Fail(403)
    ensures staffId in old(db.users) && old(db.users)[staffId].role == StaffRole ==>
      r == (if labId in old(db.labs) && staffId !in old(db.labs)[labId].staffs then Ok(201) else Fail(404))
    ensures !r.success ==> db.labs == old(db.labs) && db.users == old(db.users)
    ensures r.success ==>
      && db.labs == old(db.labs)[labId := old(db.labs)[labId].(staffs := SetAdd(old(db.labs)[labId].staffs, staffId))]
      && db.users == old(db.users)[staffId := old(db.users)[staffId].(labs := SetAdd(old(db.users)[staffId].labs, labId))]
  {
    if staffId !in db.users {
      return Fail(404);
    }
    if db.users[staffId].role != StaffRole {
      return Fail(403);
    }
    if labId !in db.labs || staffId in db.labs[labId].staffs {
      return Fail(404);
    }
    LinkKeepsStaffLinked(db.users, db.labs, labId, staffId);
    var users' := db.users[staffId := db.users[staffId].(labs := SetAdd(db.users[staffId].labs, labId))];
    assert UniqueEmails(users') by {
      forall u | u in users' ensures users'[u].email == db.users[u].email { }
    }
    db.labs := db.labs[labId := db.labs[labId].(staffs := SetAdd(db.labs[labId].staffs, staffId))];
    db.users := users';
    r := Ok(201);
  }

  /**
   * The unlink both remove routes perform: 404 for a missing lab, the user
   * untouched; otherwise every occurrence of the user is pulled from the
   * lab's staff and the lab from the user's labs. No role is checked.
   */
  method Unlink(db: Db, labId: Id, staffId: Id) returns (found: bool)
    requires db.Valid()
    modifies db`labs, db`users
    ensures db.Valid()
    ensures found <==> labId in old(db.labs)
    ensures !found ==> db.labs == old(db.labs) && db.users == old(db.users)
    ensures found ==>
      && db.labs == old(db.labs)[labId := old(db.labs)[labId].(staffs := Pull(old(db.labs)[labId].staffs, [staffId]))]
      && db.users == (if staffId in old(db.users)
                      then old(db.users)[staffId := old(db.users)[staffId].(labs := Pull(old(db.users)[staffId].labs, [labId]))]
                      else old(db.users))
  {
    if labId !in db.labs {
      return false;
    }
    UnlinkKeepsStaffLinked(db.users, db.labs, labId, staffId);
    db.labs := db.labs[labId := db.labs[labId].(staffs := Pull(db.labs[labId].staffs, [staffId]))];
    if staffId in db.users {
      var users' := db.users[staffId := db.users[staffId].(labs := Pull(db.users[staffId].labs, [labId]))];
      assert UniqueEmails(users') by {
        forall u | u in users' ensures users'[u].email == db.users[u].email { }
      }
      db.users := users';
    }
    found := true;
  }

  /** `PUT /admin/removeStaff`: 404 for a missing lab, 201 after unlinking. */
  method RemoveStaff(db: Db, labId: Id, staffId: Id) returns (r: Reply)
    requires db.Valid()
    modifies db`labs, db`users
    ensures db.Valid()
    ensures r == (if labId in old(db.labs) then Ok(201) else Fail(404))
    ensures r.success ==>
      db.labs == old(db.labs)[labId := old(db.labs)[labId].(staffs := Pull(old(db.labs)[labId].staffs, [staffId]))]
    ensures r.success ==>
      db.users == (if staffId in old(db.users)
                   then old(db.users)[staffId := old(db.users)[staffId].(labs := Pull(old(db.users)[staffId].labs, [labId]))]
                   else old(db.users))
    ensures r.success ==> labId in db.labs && staffId !in db.labs[labId].staffs
    ensures r.success && staffId in db.users ==> labId !in db.users[staffId].labs
    ensures !r.success ==> db.labs == old(db.labs) && db.users == old(db.users)
  {
    var found := Unlink(db, labId, staffId);
    r := if found then Ok(201) else Fail(404);
  }

  /** `DELETE /admin/labs/:labId/staffs/:staffId`: the same unlink, answered 200. */
  method RemoveStaffFromLab(db: Db, labId: Id, staffId: Id) returns (r: Reply)
    requires db.Valid()
    modifies db`labs, db`users
    ensures db.Valid()
    ensures r == (if labId in old(db.labs) then Ok(200) else Fail(404))
    ensures r.success ==>
      db.labs == old(db.labs)[labId := old(db.labs)[labId].(staffs := Pull(old(db.labs)[labId].staffs, [staffId]))]
    ensures r.success ==>
      db.users == (if staffId in old(db.users)
                   then old(db.users)[staffId := old(db.users)[staffId].(labs := Pull(old(db.users)[staffId].labs, [labId]))]
                   else old(db.users))
    ensures r.success ==> labId in db.labs && staffId !in db.labs[labId].staffs
    ensures r.success && staffId in db.users ==> labId !in db.users[staffId].labs
    ensures !r.success ==> db.labs == old(db.labs) && db.users == old(db.users)
  {
    var found := Unlink(db, labId, staffId);
    r := if found then Ok(200) else Fail(404);
  }

  /** Unlinking right after assigning gives both lists back as they were. */
  lemma AssignThenUnlink(staffs: seq<Id>, userLabs: seq<Id>, labId: Id, staffId: Id)
    requires staffId !in staffs && labId !in userLabs
    ensures Pull(SetAdd(staffs, staffId), [staffId]) == staffs
    ensures Pull(SetAdd(userLabs, labId), [labId]) == userLabs
  {
    SetAddThenPull(staffs, staffId);
    SetAddThenPull(userLabs, labId);
  }

  // ---------------------------------------------------------------------
  // Listings

  /**
   * `GET /admin/labs`, `GET /admin/devices` and `GET /admin/logs`: one page
   * of the collection (logs newest first) with the pagination block; a
   * negative skip fails in the store, answered with 500.
   */
  function Listing<T>(docs: seq<T>, page: Option<int>, limit: Option<int>): (r: Outcome<Paging.Page<T>>)
    ensures r.Failure? <==> (Paging.ParamOr(page, 1) - 1) * Paging.ParamOr(limit, 10) < 0
    ensures r.Failure? ==> r.code == 500
    ensures r.Success? ==> Paging.Paginate(docs, Paging.ParamOr(page, 1), Paging.ParamOr(limit, 10)) == Some(r.value)
  {
    match Paging.Paginate(docs, Paging.ParamOr(page, 1), Paging.ParamOr(limit, 10))
    case None => Failure(500)
    case Some(p) => Success(p)
  }
}
