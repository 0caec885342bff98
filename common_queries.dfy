// API/common.js: the read-only handlers. `searchLab`, `searchLabToInsert`,
// `searchUser` with its `@staff-` / `@admin-` dispatch, `searchUserWithFilter`,
// and the `/labs` device listing. A `$regex` query with option "i" is taken
// as a literal case-insensitive substring match. Every collection is given
// in the store's natural order.

module CommonQueries {
  import opened Wrappers
  import opened Seqs
  import opened Models
  import opened Text
  import Paging

  // ---------------------------------------------------------------------
  // searchLab

  /** `Labs.find({ name: { $regex: name, $options: "i" } })`. */
  function NameMatches(labs: seq<Doc<Lab>>, name: string): (r: seq<Doc<Lab>>)
    ensures forall d :: d in r <==> d in labs && MatchesIgnoreCase(d.val.name, name)
  {
    Filter(labs, (d: Doc<Lab>) => MatchesIgnoreCase(d.val.name, name))
  }

  /**
   * `GET /common/searchLab`: the labs whose name matches; only when none
   * matches and the query starts with `@all`, every lab.
   */
  function SearchLab(labs: seq<Doc<Lab>>, query: Option<string>): (r: seq<Doc<Lab>>)
    ensures var name := OrElse(query, "");
      && ((forall d :: d in labs ==> !MatchesIgnoreCase(d.val.name, name)) && StartsWith(name, "@all") ==> r == labs)
      && ((exists d :: d in labs && MatchesIgnoreCase(d.val.name, name)) || !StartsWith(name, "@all") ==>
            forall d :: d in r <==> d in labs && MatchesIgnoreCase(d.val.name, name))
  {
    var name := OrElse(query, "");
    var result := NameMatches(labs, name);
    if result == [] && StartsWith(name, "@all") then labs
    else
      assert result != [] ==> result[0] in result;
      result
  }

  /** An absent or empty query lists every lab, in order. */
  lemma SearchLabEmptyQuery(labs: seq<Doc<Lab>>, query: Option<string>)
    requires !Truthy(query)
    ensures SearchLab(labs, query) == labs
  {
    forall d | d in labs
      ensures MatchesIgnoreCase(d.val.name, "")
    {
      EmptyContained(Lower(d.val.name));
    }
    FilterAll(labs, (d: Doc<Lab>) => MatchesIgnoreCase(d.val.name, ""));
  }

  // ---------------------------------------------------------------------
  // searchLabToInsert

  /** A staff member only ever sees labs that list them; everyone else sees every lab. */
  predicate VisibleTo(viewer: Doc<User>, d: Doc<Lab>) {
    viewer.val.role != StaffRole || viewer.id in d.val.staffs
  }

  /**
   * `GET /common/searchLabToInsert`: like `searchLab`, but a staff viewer's
   * query is narrowed to the labs listing them, and so is the `@all`
   * fallback.
   */
  function SearchLabToInsert(labs: seq<Doc<Lab>>, query: Option<string>, viewer: Doc<User>): (r: seq<Doc<Lab>>)
    ensures forall d :: d in r ==> d in labs && VisibleTo(viewer, d)
    ensures var name := OrElse(query, "");
      && ((forall d :: d in labs && VisibleTo(viewer, d) ==> !MatchesIgnoreCase(d.val.name, name)) && StartsWith(name, "@all") ==>
            forall d :: d in r <==> d in labs && VisibleTo(viewer, d))
      && ((exists d :: d in labs && VisibleTo(viewer, d) && MatchesIgnoreCase(d.val.name, name)) || !StartsWith(name, "@all") ==>
            forall d :: d in r <==> d in labs && VisibleTo(viewer, d) && MatchesIgnoreCase(d.val.name, name))
    ensures viewer.val.role != StaffRole ==> r == SearchLab(labs, query)
  {
    var name := OrElse(query, "");
    var result := Filter(labs, (d: Doc<Lab>) => MatchesIgnoreCase(d.val.name, name) && VisibleTo(viewer, d));
    if result == [] && StartsWith(name, "@all") then
      if viewer.val.role == StaffRole then Filter(labs, (d: Doc<Lab>) => viewer.id in d.val.staffs)
      else labs
    else
      assert result != [] ==> result[0] in result;
      if viewer.val.role != StaffRole then
        FilterSame(labs,
          (d: Doc<Lab>) => MatchesIgnoreCase(d.val.name, name) && VisibleTo(viewer, d),
          (d: Doc<Lab>) => MatchesIgnoreCase(d.val.name, name));
        result
      else result
  }

  // ---------------------------------------------------------------------
  // searchUser

  /** `Users.find({ email_address: { $regex: email, $options: "i" } })`. */
  function EmailMatches(users: seq<Doc<User>>, email: string): (r: seq<Doc<User>>)
    ensures forall d :: d in r <==> d in users && MatchesIgnoreCase(d.val.email, email)
  {
    Filter(users, (d: Doc<User>) => MatchesIgnoreCase(d.val.email, email))
  }

  /** `Users.find({ role: role })`. */
  function WithRole(users: seq<Doc<User>>, role: Role): (r: seq<Doc<User>>)
    ensures forall d :: d in r <==> d in users && d.val.role == role
  {
    Filter(users, (d: Doc<User>) => d.val.role == role)
  }

  /** `populate` of a list of user references: each id that resolves, in order. */
  function Populate(users: seq<Doc<User>>, ids: seq<Id>): (r: seq<Doc<User>>)
    ensures forall d :: d in r ==> d in users && d.id in ids
    ensures forall i :: 0 <= i < |ids| && FindById(users, ids[i]).Some? ==> Doc(ids[i], FindById(users, ids[i]).value) in r
  {
    if ids == [] then []
    else
      var rest := Populate(users, ids[1..]);
      assert forall i :: 1 <= i < |ids| ==> ids[i] == ids[1..][i - 1];
      match FindById(users, ids[0])
      case None => rest
      case Some(u) => [Doc(ids[0], u)] + rest
  }

  /** `email.split("-")[1]`; `None` when there is no `-` (the value is `undefined`). */
  function SecondPart(email: string): Option<string> {
    var parts := Split(email, '-');
    if |parts| >= 2 then Some(parts[1]) else None
  }

  /**
   * `GET /common/searchUser`. `isValidId` is `ObjectId.isValid`, which turns
   * `undefined` down.
   */
  function SearchUser(users: seq<Doc<User>>, labs: seq<Doc<Lab>>, query: Option<string>, isValidId: string -> bool): (r: seq<Doc<User>>)
    ensures forall d :: d in r ==> d in users
    ensures var email := OrElse(query, "");
      && (!StartsWith(email, "@") ==> forall d :: d in r <==> d in users && MatchesIgnoreCase(d.val.email, email))
      && (StartsWith(email, "@") && !StartsWith(email, "@staff") && !StartsWith(email, "@admin") ==> r == [])
      && (StartsWith(email, "@staff") || StartsWith(email, "@admin") ==>
            SecondPart(email).None? || (SecondPart(email).value != "all" && !isValidId(SecondPart(email).value)) ==> r == [])
  {
    var email := OrElse(query, "");
    if StartsWith(email, "@") then
      if StartsWith(email, "@staff") then
        match SecondPart(email)
        case None => []
        case Some(id) =>
          if id == "all" then WithRole(users, StaffRole)
          else if !isValidId(id) then []
          else match FindById(labs, id)
            case None => []
            case Some(lab) => Populate(users, lab.staffs)
      else if StartsWith(email, "@admin") then
        match SecondPart(email)
        case None => []
        case Some(id) =>
          if id == "all" then WithRole(users, AdminRole)
          else if !isValidId(id) then []
          else match FindById(users, id)
            case None => []
            case Some(u) => [Doc(id, u)]
      else []
    else EmailMatches(users, email)
  }

  /** A prefix, a dash and a dash-free tail split into exactly those two parts. */
  lemma SecondPartOf(prefix: string, tail: string)
    requires '-' !in prefix && '-' !in tail
    ensures SecondPart(prefix + "-" + tail) == Some(tail)
  {
    SplitAfter(prefix, '-', tail);
    assert prefix + "-" + tail == prefix + ['-'] + tail;
  }

  /** `@staff-all` lists exactly the staff. */
  lemma SearchStaffAll(users: seq<Doc<User>>, labs: seq<Doc<Lab>>, isValidId: string -> bool)
    ensures forall d :: d in SearchUser(users, labs, Some("@staff-all"), isValidId) <==> d in users && d.val.role == StaffRole
  {
    SecondPartOf("@staff", "all");
    assert StartsWith("@staff-all", "@staff");
  }

  /** `@admin-all` lists exactly the admins. */
  lemma SearchAdminAll(users: seq<Doc<User>>, labs: seq<Doc<Lab>>, isValidId: string -> bool)
    ensures forall d :: d in SearchUser(users, labs, Some("@admin-all"), isValidId) <==> d in users && d.val.role == AdminRole
  {
    var email := "@admin-all";
    SecondPartOf("@admin", "all");
    assert "@admin" + "-" + "all" == email;
    assert StartsWith(email, "@") && StartsWith(email, "@admin");
    assert email[1] != "@staff"[1];
    assert SearchUser(users, labs, Some(email), isValidId) == WithRole(users, AdminRole);
  }

  /**
   * `@staff-<labId>` lists the lab's staff that resolve to users, and
   * nothing when the lab does not exist.
   */
  lemma SearchStaffOfLab(users: seq<Doc<User>>, labs: seq<Doc<Lab>>, labId: Id, isValidId: string -> bool)
    requires '-' !in labId && labId != "all" && isValidId(labId)
    ensures var r := SearchUser(users, labs, Some("@staff-" + labId), isValidId);
      && (FindById(labs, labId).None? ==> r == [])
      && (FindById(labs, labId).Some? ==>
            var staffs := FindById(labs, labId).value.staffs;
            && (forall d :: d in r ==> d in users && d.id in staffs)
            && (forall i :: 0 <= i < |staffs| && FindById(users, staffs[i]).Some? ==>
                  Doc(staffs[i], FindById(users, staffs[i]).value) in r))
  {
    SecondPartOf("@staff", labId);
    assert StartsWith("@staff-" + labId, "@staff");
    assert "@staff-" + labId == "@staff" + "-" + labId;
  }

  /** `@admin-<id>` returns that user alone, whatever the role, or nothing. */
  lemma SearchAdminById(users: seq<Doc<User>>, labs: seq<Doc<Lab>>, id: Id, isValidId: string -> bool)
    requires '-' !in id && id != "all" && isValidId(id)
    ensures SearchUser(users, labs, Some("@admin-" + id), isValidId) ==
      if FindById(users, id).Some? then [Doc(id, FindById(users, id).value)] else []
  {
    SecondPartOf("@admin", id);
    assert StartsWith("@admin-" + id, "@admin");
    assert ("@admin-" + id)[1] != "@staff"[1];
    assert "@admin-" + id == "@admin" + "-" + id;
  }

  // ---------------------------------------------------------------------
  // searchUserWithFilter

  /**
   * `GET /common/searchUserWithFilter`: both filters default to `@all`, and
   * a filter starting with `@all` does not narrow. The four branches of the
   * handler come to one conjunction.
   */
  function SearchUserWithFilter(users: seq<Doc<User>>, query: Option<string>, roleFilter: Option<string>): (r: seq<Doc<User>>)
    ensures var email := OrElse(query, "@all");
      var role := OrElse(roleFilter, "@all");
      forall d :: d in r <==>
        && d in users
        && (StartsWith(role, "@all") || RoleName(d.val.role) == role)
        && (StartsWith(email, "@all") || MatchesIgnoreCase(d.val.email, email))
  {
    var email := OrElse(query, "@all");
    var role := OrElse(roleFilter, "@all");
    if StartsWith(role, "@all") then
      if StartsWith(email, "@all") then users
      else EmailMatches(users, email)
    else
      if StartsWith(email, "@all") then Filter(users, (d: Doc<User>) => RoleName(d.val.role) == role)
      else Filter(users, (d: Doc<User>) => MatchesIgnoreCase(d.val.email, email) && RoleName(d.val.role) == role)
  }

  // ---------------------------------------------------------------------
  // GET /common/labs

  /**
   * `GET /common/labs`. An absent or empty `dept` reaches an assignment to a
   * constant, and a `dept` not starting with `@all` reads `skip`, which is
   * out of scope there: both throw, and the handler answers 500. Only the
   * `@all` branch lists, paginating over every device.
   */
  function DeviceListing(items: seq<Doc<Item>>, dept: Option<string>, page: Option<int>, limit: Option<int>): (r: Outcome<Paging.Page<Doc<Item>>>)
    ensures r.Failure? ==> r.code == 500
    ensures r.Success? <==>
      && Truthy(dept) && StartsWith(dept.value, "@all")
      && (Paging.ParamOr(page, 1) - 1) * Paging.ParamOr(limit, 10) >= 0
    ensures r.Success? ==> Paging.Paginate(items, Paging.ParamOr(page, 1), Paging.ParamOr(limit, 10)) == Some(r.value)
  {
    if !Truthy(dept) then Failure(500)
    else if StartsWith(dept.value, "@all") then
      match Paging.Paginate(items, Paging.ParamOr(page, 1), Paging.ParamOr(limit, 10))
      case None => Failure(500)
      case Some(p) => Success(p)
    else Failure(500)
  }
}
