// The documents of the store (Models/*.js) and the store itself, held in
// memory: one map from id to record per collection, plus the token table and
// the two audit collections as sequences in insertion order.

module Models {
  import opened Wrappers
  import opened Seqs
  import Text

  /** A document id (an ObjectId's hex text). */
  type Id = string

  datatype Role = AdminRole | StaffRole | UserRole

  /** The role as stored (`"admin"`, `"staff"`, `"user"`). */
  function RoleName(r: Role): (s: string)
    ensures s in {"admin", "staff", "user"}
  {
    match r
    case AdminRole => "admin"
    case StaffRole => "staff"
    case UserRole => "user"
  }

  lemma RoleNameInjective(a: Role, b: Role)
    ensures RoleName(a) == RoleName(b) <==> a == b
  {
  }

  datatype User = User(
    name: string,
    email: string,
    passwordHash: string,
    terms: bool,
    phone: string,
    address: string,
    role: Role,
    disabled: bool,
    labs: seq<Id>)

  datatype Lab = Lab(
    name: string,
    labType: string,
    dept: string,
    admins: seq<Id>,
    staffs: seq<Id>,
    items: seq<Id>,
    components: seq<Id>)

  /** A device. `majorComponent` is kept as opaque text ("" for `{}`). */
  datatype Item = Item(
    name: string,
    category: string,
    labId: Option<Id>,
    currentState: string,
    createdBy: Option<Id>,
    majorComponent: string,
    minorDescription: string,
    deviceList: seq<Id>,
    componentList: seq<Id>)

  datatype Component = Component(
    name: string,
    key: string,
    value: string,
    category: string,
    currentState: string,
    dataType: string,
    createdBy: Option<Id>)

  datatype Template = Template(category: string, createdBy: Id, dataModel: string)

  /** A stored session token. */
  datatype TokenRecord = TokenRecord(user: Id, token: string)

  /** The `id` of a move request's payload: one id, or an array of them. */
  datatype IdPayload = OneId(id: Id) | IdList(ids: seq<Id>)

  /** The audit record a move writes (`moveLogs`). */
  datatype MoveLog = MoveLog(
    moveTo: string,
    moveToId: Id,
    moveFrom: string,
    moveFromId: Id,
    itemType: string,
    itemId: IdPayload,
    userId: Id)

  /** The audit record a status change writes. */
  datatype StateLog = StateLog(itemId: Id, itemType: string, operation: string, message: string, userId: Id)

  /** The response envelope: status code and the `success` flag. */
  datatype Reply = Reply(code: int, success: bool)

  function Ok(code: int): Reply { Reply(code, true) }
  function Fail(code: int): Reply { Reply(code, false) }

  /** A read-only handler's answer: its data, or the error status it sends. */
  datatype Outcome<T> = Success(value: T) | Failure(code: int)

  /** A document as a query returns it: id and record. */
  datatype Doc<T> = Doc(id: Id, val: T)

  /** `findById` over a collection given in natural order. */
  function FindById<T>(docs: seq<Doc<T>>, id: Id): (r: Option<T>)
    ensures r.Some? ==> Doc(id, r.value) in docs
    ensures r.None? ==> forall d :: d in docs ==> d.id != id
  {
    if docs == [] then None
    else if docs[0].id == id then Some(docs[0].val)
    else FindById(docs[1..], id)
  }

  // ---------------------------------------------------------------------
  // Invariants the handlers keep

  /** A lab lists a user as staff exactly when that user lists the lab. */
  ghost predicate StaffLinked(users: map<Id, User>, labs: map<Id, Lab>) {
    && (forall l, u :: l in labs && u in labs[l].staffs ==> u in users && l in users[u].labs)
    && (forall u, l :: u in users && l in users[u].labs ==> l in labs && u in labs[l].staffs)
  }

  ghost predicate UniqueEmails(users: map<Id, User>) {
    forall u, v :: u in users && v in users && u != v ==> users[u].email != users[v].email
  }

  /** Template categories are stored lower-case and are pairwise distinct. */
  ghost predicate TemplatesCanonical(templates: map<Id, Template>) {
    && (forall t :: t in templates ==> Text.IsLower(templates[t].category))
    && (forall t, s :: t in templates && s in templates && t != s ==>
          templates[t].category != templates[s].category)
  }

  /** `Users.updateMany({ labs: lab }, { $pull: { labs: lab } })`. */
  function PullLabFromUsers(users: map<Id, User>, lab: Id): (r: map<Id, User>)
    ensures r.Keys == users.Keys
    ensures forall u :: u in r ==> lab !in r[u].labs
    ensures forall u :: u in r ==> r[u] == users[u].(labs := Pull(users[u].labs, [lab]))
  {
    map u | u in users :: users[u].(labs := Pull(users[u].labs, [lab]))
  }

  /** Users that never listed the lab come out of the cascade unchanged. */
  lemma PullLabLeavesOthers(users: map<Id, User>, lab: Id, u: Id)
    requires u in users && lab !in users[u].labs
    ensures PullLabFromUsers(users, lab)[u] == users[u]
  {
    PullAbsent(users[u].labs, [lab]);
  }

  /** Linking a staff member on both sides (assignStaff) keeps the relation symmetric. */
  lemma LinkKeepsStaffLinked(users: map<Id, User>, labs: map<Id, Lab>, lab: Id, staff: Id)
    requires StaffLinked(users, labs)
    requires staff in users && lab in labs && staff !in labs[lab].staffs
    ensures StaffLinked(
      users[staff := users[staff].(labs := SetAdd(users[staff].labs, lab))],
      labs[lab := labs[lab].(staffs := labs[lab].staffs + [staff])])
  {
  }

  /** Unlinking on both sides (removeStaff) keeps the relation symmetric. */
  lemma UnlinkKeepsStaffLinked(users: map<Id, User>, labs: map<Id, Lab>, lab: Id, staff: Id)
    requires StaffLinked(users, labs)
    requires lab in labs
    ensures StaffLinked(
      if staff in users then users[staff := users[staff].(labs := Pull(users[staff].labs, [lab]))] else users,
      labs[lab := labs[lab].(staffs := Pull(labs[lab].staffs, [staff]))])
  {
  }

  /** Deleting a lab and pulling it from every user keeps the relation symmetric. */
  lemma DropLabKeepsStaffLinked(users: map<Id, User>, labs: map<Id, Lab>, lab: Id)
    requires StaffLinked(users, labs)
    ensures StaffLinked(PullLabFromUsers(users, lab), labs - {lab})
  {
    DroppedLabStaffStillLinked(users, labs, lab);
    PulledUserLabsStillLinked(users, labs, lab);
  }

  lemma DroppedLabStaffStillLinked(users: map<Id, User>, labs: map<Id, Lab>, lab: Id)
    requires StaffLinked(users, labs)
    ensures var users' := PullLabFromUsers(users, lab);
      forall l, u :: l in labs - {lab} && u in labs[l].staffs ==> u in users' && l in users'[u].labs
  {
    var users' := PullLabFromUsers(users, lab);
    forall l, u | l in labs - {lab} && u in labs[l].staffs
      ensures u in users' && l in users'[u].labs
    {
      assert u in users && l in users[u].labs;
      assert users'[u].labs == Pull(users[u].labs, [lab]);
    }
  }

  lemma PulledUserLabsStillLinked(users: map<Id, User>, labs: map<Id, Lab>, lab: Id)
    requires StaffLinked(users, labs)
    ensures var users' := PullLabFromUsers(users, lab);
      forall u, l :: u in users' && l in users'[u].labs ==> l in labs - {lab} && u in labs[l].staffs
  {
    var users' := PullLabFromUsers(users, lab);
    forall u, l | u in users' && l in users'[u].labs
      ensures l in labs - {lab} && u in labs[l].staffs
    {
      assert users'[u].labs == Pull(users[u].labs, [lab]);
      assert l in users[u].labs && l != lab;
    }
  }

  /** Edits that leave every lab's staff list alone keep the relation. */
  lemma StaffsKeepStaffLinked(users: map<Id, User>, labs: map<Id, Lab>, labs': map<Id, Lab>)
    requires StaffLinked(users, labs)
    requires labs'.Keys == labs.Keys
    requires forall l :: l in labs' ==> labs'[l].staffs == labs[l].staffs
    ensures StaffLinked(users, labs')
  {
  }

  /** Edits that leave every user's email and lab list alone keep both user invariants. */
  lemma SameLinksKeepInvariants(users: map<Id, User>, users': map<Id, User>, labs: map<Id, Lab>)
    requires StaffLinked(users, labs) && UniqueEmails(users)
    requires users'.Keys == users.Keys
    requires forall u :: u in users' ==> users'[u].labs == users[u].labs && users'[u].email == users[u].email
    ensures StaffLinked(users', labs) && UniqueEmails(users')
  {
  }

  /** A new lab with no staff keeps the relation: no user can list an id that was not a lab. */
  lemma NewLabKeepsStaffLinked(users: map<Id, User>, labs: map<Id, Lab>, lid: Id, lab: Lab)
    requires StaffLinked(users, labs)
    requires lid !in labs && lab.staffs == []
    ensures StaffLinked(users, labs[lid := lab])
  {
  }

  /** A new user with no labs and an unused email keeps both user invariants. */
  lemma NewUserKeepsInvariants(users: map<Id, User>, labs: map<Id, Lab>, uid: Id, user: User)
    requires StaffLinked(users, labs) && UniqueEmails(users)
    requires uid !in users && user.labs == []
    requires forall v :: v in users ==> users[v].email != user.email
    ensures StaffLinked(users[uid := user], labs) && UniqueEmails(users[uid := user])
  {
  }

  // ---------------------------------------------------------------------
  // The store

  class Db {
    var users: map<Id, User>
    var labs: map<Id, Lab>
    var items: map<Id, Item>
    var components: map<Id, Component>
    var templates: map<Id, Template>
    var tokens: seq<TokenRecord>
    var logs: seq<MoveLog>  // the `Logs` collection; `LogExport.LogView` is its populated form
    var stateLogs: seq<StateLog>

    ghost predicate Valid()
      reads this
    {
      && StaffLinked(users, labs)
      && UniqueEmails(users)
      && TemplatesCanonical(templates)
    }

    constructor ()
      ensures Valid()
      ensures users == map[] && labs == map[] && items == map[] && components == map[]
      ensures templates == map[] && tokens == [] && logs == [] && stateLogs == []
    {
      users, labs, items, components, templates := map[], map[], map[], map[], map[];
      tokens, logs, stateLogs := [], [], [];
    }
  }
}
