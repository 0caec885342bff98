# Lab inventory backend — a Dafny model

The system is an Express/MongoDB backend for a laboratory inventory. Users
register and log in, and their sessions are JWTs kept in a token table and
carried in an `access_token` cookie. Admins create labs, devices and device
templates, promote users to staff, and assign staff to labs. A lab's
`staffs` array and a user's `labs` array mirror each other. Devices and
components move between labs and devices. Every move and state change is
logged, and admins can export the move log as CSV.

This project models the request handlers that make up that core. It also
models the three route guards and the timing middleware.

- The database is the class `Models.Db`. Its fields are one map per
  collection, plus sequences for the token table and the two log
  collections. Each handler that writes is a method with a `modifies` clause
  on the fields it touches.
- Every such method keeps `Db.Valid()`, which has three parts:
  - `StaffLinked`: a lab lists a user as staff exactly when that user lists
    the lab.
  - `UniqueEmails`: no two users share an email.
  - `TemplatesCanonical`: template categories are lower-case and distinct.
- Read-only handlers are functions over each collection, given as a sequence
  of documents in natural order. These are the searches, the listings and
  `/staff/myLabs`.
- bcrypt, JWT signing and verification, and `ObjectId.isValid` are
  function-typed parameters. So are the fresh ids the database assigns, and
  the wall clock.

Modules, by source file:

| module | file | models |
|---|---|---|
| `Text` | (helpers) | `x \|\| fallback`, `toLowerCase`, `replace("Bearer ", "")`, `split`, `join`, decimal numerals |
| `Seqs` | (helpers) | `find` filters, `$pull`, `$addToSet` |
| `Models` | `Models/*.js` | documents, the database class and its invariants |
| `Paging` | `API/admin.js`, `API/staff.js` | `parseInt(..) \|\| d`, `skip`/`limit`, `Math.ceil(total / limit)` |
| `Guards` | `utls/AuthFunctations.js` | `isUsersRegistered`, `isUserStaff`, `isUserAdmin` |
| `Auth` | `Auth.js` | login, register, logout, token login, cookie login |
| `CommonQueries` | `API/common.js` | `searchLab`, `searchLabToInsert`, `searchUser`, `searchUserWithFilter`, `/labs` |
| `Common` | `API/common.js` | `move-items`, `moveLogs`, `updateStateLog` |
| `Admin` | `API/admin.js` | templates, labs, devices, staff membership, listings |
| `LogExport` | `API/admin.js` | `logs/publish` (CSV and JSON) |
| `Staff` | `API/staff.js` | `myLabs` |
| `RequestTime` | `utls/RequestTimeInfo.js` | `diffToSecondsMillis`, the logged time text, `pathMiddleWare`, `printConsumedTime` |

Where the documented behaviour and the code disagree, the model follows the code:

- `/common/updateStateLog` with a status outside `working`, `broken` and
  `under_maintenance` does not fall back to `working`. It assigns to a
  `const`, which throws, so the reply is 500 and nothing is written
  (API/common.js:568-570).
- `/common/labs` answers 500 in two cases:
  - when `dept` is missing, because of the same assignment to a `const`
    (API/common.js:135-137);
  - for any `dept` that does not start with `@all`, because `skip` and
    `limit` are out of scope there (API/common.js:155).
  Only the `@all` branch lists devices.
- There is no handler that demotes staff.
- The route guards never read the token table. A cookie whose token was
  deleted by logout is refused by `/login_with_cookie`, but every guard
  still admits it (`Auth.LogoutLeavesGuardsOpen`).

## Model

| member | source | states |
|---|---|---|
| Text.OrElse | API/admin.js:222-225 | `x \|\| fallback`: the value when it is present and non-empty, otherwise the fallback |
| Text.Lower | API/admin.js:27 | `toLowerCase` keeps the length and maps each character to its lower-case form |
| Text.LowerIsLower | API/admin.js:27 | lower-cased text is lower-case, and lower-casing lower-case text changes nothing |
| Text.EmptyContained | API/common.js:265-268 | the empty search text matches every name |
| Text.StripAfterBearer | Auth.js:235 | stripping "Bearer " from the cookie value a login sets gives back the token |
| Text.Split | API/common.js:332 | `split` always yields at least one part |
| Text.SplitAfter | API/common.js:332 | splitting at the first separator yields the text before it, then the split of the rest |
| Text.SplitTerminated | API/admin.js:512-518 | newline-terminated lines split back into those lines plus the empty tail |
| Text.ParseNatToString | utls/RequestTimeInfo.js:17-24 | a number's decimal text is all digits and reads back as the number |
| Seqs.Filter | API/staff.js:26 | a query keeps exactly the documents that satisfy its condition |
| Seqs.FilterAppend | API/staff.js:26 | a query keeps the documents in collection order: filtering distributes over concatenation |
| Seqs.FilterCount | API/staff.js:26 | a query keeps every copy of a satisfying document and no copy of any other |
| Seqs.Pull | API/admin.js:608-611 | `$pull`: the result holds exactly the elements not in the pulled list |
| Seqs.PullCount | API/admin.js:608-611 | `$pull` removes every occurrence of a pulled value and keeps every other value's count |
| Seqs.SetAdd | API/admin.js:584-586 | `$addToSet`: adds the value once, only if it is absent |
| Seqs.SetAddThenPull | API/admin.js:569-624 | pulling a value just added to a set that lacked it restores the set |
| Seqs.SetAddNoDup | API/admin.js:584-586 | `$addToSet` keeps a duplicate-free array duplicate-free |
| Models.RoleName | Models/Users.js:12 | a role is stored as one of "admin", "staff" and "user" |
| Models.RoleNameInjective | Models/Users.js:12 | two roles have the same name exactly when they are the same role |
| Models.FindById | API/staff.js:18 | `findById` returns a document with that id, or nothing when no document has it |
| Models.PullLabFromUsers | API/admin.js:260 | after the cascade no user lists the lab; otherwise only users' `labs` change |
| Models.PullLabLeavesOthers | API/admin.js:260 | users who do not list the lab are unchanged |
| Models.LinkKeepsStaffLinked | API/admin.js:576-590 | adding a staff to a lab and the lab to the staff keeps the two-way link |
| Models.UnlinkKeepsStaffLinked | API/admin.js:604-624 | pulling each side from the other keeps the two-way link |
| Models.DropLabKeepsStaffLinked | API/admin.js:250-262 | deleting a lab and pulling it from all users keeps the two-way link |
| Models.DroppedLabStaffStillLinked | API/admin.js:253-260 | after the delete, every staff listed by a remaining lab still lists that lab |
| Models.PulledUserLabsStillLinked | API/admin.js:253-260 | after the delete, every lab a user lists remains and lists that user |
| Models.StaffsKeepStaffLinked | API/admin.js:216-243 | an update that keeps every lab's staff and the set of labs keeps the link |
| Models.SameLinksKeepInvariants | API/admin.js:545-568 | an update that keeps every user's labs and email keeps both user invariants |
| Models.NewLabKeepsStaffLinked | API/admin.js:103-112 | inserting a lab with no staff keeps the link |
| Models.NewUserKeepsInvariants | Auth.js:170-184 | inserting a user with a fresh email and no labs keeps both user invariants |
| Paging.ParamOr | API/admin.js:156-157 | `parseInt(x) \|\| d`: an unparsable or zero parameter gives the default |
| Paging.CeilDiv | API/admin.js:175 | `Math.ceil(total / limit)` for a limit of either sign, stated by its bounds |
| Paging.CeilDivUnique | API/admin.js:175 | with a positive limit, those bounds determine the page count |
| Paging.Paginate | API/admin.js:156-176 | a negative skip fails; otherwise total, page, limit, pages, and the window `docs[skip..]` of at most \|limit\| documents |
| Paging.PageOfIndex | API/staff.js:13-30 | with a positive limit, document `i` is entry `i % limit` of page `i / limit + 1` |
| Paging.NonEmptyPages | API/staff.js:26-41 | a page from 1 on holds documents exactly when it is at most `pages` |
| Paging.FifteenByTen | API/staff.js:26-42 | 15 documents at 10 per page give 2 pages, and page 2 holds the last 5 |
| Guards.Guard | utls/AuthFunctations.js:6-90 | 401 for a missing cookie, a bad token, or a missing or disabled user; then 403 for a role the guard refuses; otherwise next with that user |
| Guards.GuardsNest | utls/AuthFunctations.js:32-90 | passing the admin guard implies passing the staff guard, which implies passing the first guard |
| Guards.GuardsAgreeOn401 | utls/AuthFunctations.js:6-90 | the three guards answer 401 in exactly the same cases |
| Guards.DisabledUserIs401 | utls/AuthFunctations.js:20-22 | a disabled user is refused with 401 by every guard |
| Auth.SessionCookie | Auth.js:141-145 | the cookie is "Bearer " + token, carries the token and has the given lifetime |
| Auth.WithoutUser | Auth.js:124 | `deleteMany({ user })` keeps exactly the other users' records |
| Auth.WithoutToken | Auth.js:236 | `deleteMany({ token })` keeps exactly the records holding another token |
| Auth.TokensOf | Auth.js:124 | a user's records, in table order |
| Auth.TokensOfAppend | Auth.js:132-133 | one user's records in two concatenated tables are their records in each |
| Auth.NoTokensOf | Auth.js:124 | a table with no record for a user gives that user no records |
| Auth.OneTokenAfterLogin | Auth.js:123-133 | after a login the user holds exactly one token, the new one |
| Auth.LoginKeepsOthers | Auth.js:123-133 | a login leaves every other user's tokens unchanged |
| Auth.WithoutUserKeepsOthers | Auth.js:124 | deleting one user's tokens leaves every other user's tokens unchanged |
| Auth.CheckSession | Auth.js:16-46 | in order: no token, bad signature, not in the table, unknown user, success for the id in the claims |
| Auth.SessionReply | Auth.js:16-52 | 400 without a token; success only for a valid session; otherwise failure with the cookie cleared |
| Auth.LoginWithToken | Auth.js:8-54 | succeeds exactly when the session checks, and returns the whole user |
| Auth.LoginWithCookie | Auth.js:55-105 | succeeds exactly when the session checks, and returns name, email and role |
| Auth.SessionAfterLogin | Auth.js:123-145 | the cookie a login sets opens a session for that user |
| Auth.SessionAfterLogout | Auth.js:231-236 | after logout the same cookie is refused as not stored |
| Auth.LogoutLeavesGuardsOpen | utls/AuthFunctations.js:6-30 | a logged-out cookie fails the cookie login but still passes the guards |
| Auth.FindByEmail | Auth.js:116 | finds the user with that email, or reports that no user has it |
| Auth.Login | Auth.js:107-160 | 400 for a missing email or password; 401 for an unknown email or a wrong password, nothing changed; otherwise the user's old tokens are replaced by the new one and the cookie lifetime is 7 days or 12 hours |
| Auth.Register | Auth.js:161-220 | 400 for a missing field; 409 for a taken email, nothing created; otherwise a `user`-role account with one "7d" token and a 7-day cookie |
| Auth.Logout | Auth.js:223-245 | 400 without a cookie; otherwise every record holding the token is deleted and the cookie cleared |
| CommonQueries.NameMatches | API/common.js:266-268 | exactly the labs whose name contains the text, ignoring case |
| CommonQueries.SearchLab | API/common.js:264-286 | the matching labs; all labs only when nothing matches and the text starts with "@all" |
| CommonQueries.SearchLabEmptyQuery | API/common.js:265-268 | no search text lists every lab |
| CommonQueries.SearchLabToInsert | API/common.js:212-263 | staff see only labs that list them; every other role gets what `searchLab` returns |
| CommonQueries.EmailMatches | API/common.js:363-365 | exactly the users whose email contains the text, ignoring case |
| CommonQueries.WithRole | API/common.js:333-335 | exactly the users with that role |
| CommonQueries.Populate | API/common.js:340-344 | the lab's staff ids that resolve to users, and only those |
| CommonQueries.SearchUser | API/common.js:326-377 | returns only stored users; text without "@" searches emails; another "@" prefix gives []; an invalid or unknown id gives [] |
| CommonQueries.SecondPartOf | API/common.js:332 | `split("-")[1]` of `prefix-tail` is the tail |
| CommonQueries.SearchStaffAll | API/common.js:331-336 | "@staff-all" lists exactly the staff |
| CommonQueries.SearchAdminAll | API/common.js:347-351 | "@admin-all" lists exactly the admins |
| CommonQueries.SearchStaffOfLab | API/common.js:337-345 | "@staff-<lab>" lists the lab's resolvable staff, or [] for an unknown lab |
| CommonQueries.SearchAdminById | API/common.js:352-358 | "@admin-<id>" gives that user, or [] |
| CommonQueries.SearchUserWithFilter | API/common.js:287-325 | a user is listed exactly when the email text is "@all" or matches, and the role filter is "@all" or equals the role |
| CommonQueries.DeviceListing | API/common.js:133-171 | succeeds exactly for a dept starting with "@all" and a non-negative skip, with the page of all devices; otherwise 500 |
| Common.MovedIds | API/common.js:420 | a single id becomes a one-element list, and a list stays as it is |
| Common.FieldFor | API/common.js:433-450 | an unknown item type fails the lookup; a known type with a lab or item container finds the right array |
| Common.FieldTable | API/common.js:433-442 | the four entries of the field table |
| Common.MoveReply | API/common.js:422-479 | 200 for a move, 500 exactly for an unknown item type, 400 for every other refusal |
| Common.DecideAsWritten | API/common.js:422-455 | the checks as written, with `item.id == moveTo.id` as loose equality |
| Common.Decide | API/common.js:415-455 | 400 for the same location or for a destination among the moved ids; 500 for an unknown item type; a move carries all ids and never the destination |
| Common.ScalarDecisionsAgree | API/common.js:420-427 | with a single id the written and corrected checks agree |
| Common.LooseCheckOnArrays | API/common.js:425 | for an array of ids, loose equality holds only when the array is exactly `[moveTo.id]` |
| Common.SelfMoveSlipsThrough | API/common.js:425-427 | moving `["a","b"]` into item "b" passes the written check, and the corrected check refuses it |
| Common.UpdateEffect | API/common.js:458-472 | one `findByIdAndUpdate` changes at most the array it names, and a missing document is left alone |
| Common.MoveEffect | API/common.js:458-472 | a move pulls every moved id from the source, appends all ids to the destination, and changes no other array |
| Common.MovedIdsLeaveSource | API/common.js:458-464 | after a move, none of the moved ids remains in the source array |
| Common.MoveLogOf | API/common.js:684-701 | the move log records both container kinds and ids, the item type, the moved id or ids, and the acting user |
| Common.MoveItems | API/common.js:415-481 | replies as `Decide`; a move changes exactly the two arrays and appends one log when the log save succeeds |
| Common.UpdateStateLog | API/common.js:561-598 | 500 for an unlisted status; 404 for a missing item or component; otherwise the state is set and one log is appended |
| Admin.AddTemplate | API/admin.js:19-47 | 400 without a category; a category already stored after lower-casing gives `success: false`; otherwise the lower-cased template is inserted |
| Admin.AddedCategoryTaken | API/admin.js:27-33 | once a category is stored, every spelling of it that differs only in case is refused |
| Admin.CreateLab | API/admin.js:92-119 | 400 for a missing field; otherwise a lab with the creator as its only admin and no staff or items |
| Admin.UpdateLab | API/admin.js:125-146 | 400 for a missing field; 403 for an unknown id; otherwise all three fields are overwritten |
| Admin.PatchedLab | API/admin.js:220-225 | only the fields given are replaced; admins, staff and items are kept |
| Admin.PatchedLabIdempotent | API/admin.js:220-225 | a partial update applied twice equals one application, and an empty one changes nothing |
| Admin.PatchLab | API/admin.js:216-243 | 404 for an unknown lab; otherwise the partial update |
| Admin.DeleteLab | API/admin.js:250-270 | 404 for an unknown lab; otherwise the lab is removed and pulled from every user |
| Admin.DeletedLabForgotten | API/admin.js:254-260 | after the delete no user lists the lab, and users who did not list it are unchanged |
| Admin.CreateDevice | API/admin.js:279-319 | 400 for a missing field; otherwise a `working` device created by the caller, added once to its lab when the lab exists |
| Admin.PatchedItem | API/admin.js:399-403 | only the fields given are replaced; lab, state and creator are kept |
| Admin.PatchDevice | API/admin.js:394-422 | 404 for an unknown device; otherwise the partial update |
| Admin.DeleteDevice | API/admin.js:429-455 | 404 for an unknown device; otherwise the device is removed and pulled from its lab when it has one |
| Admin.CreateThenDeleteDevice | API/admin.js:279-455 | deleting a device just created gives back the device table and the lab's item list |
| Admin.MakeStaff | API/admin.js:545-568 | 404 for an unknown user; 401 for a user who is already staff or admin, nothing changed; otherwise the role becomes staff |
| Admin.AssignStaff | API/admin.js:569-603 | 404 for an unknown user; 403 for a user who is not staff; 404 when the lab is missing or already lists the user; otherwise both sides are linked once |
| Admin.Unlink | API/admin.js:604-624 | fails for an unknown lab; otherwise each side is pulled from the other, with no role check |
| Admin.RemoveStaff | API/admin.js:604-624 | 404 for an unknown lab; otherwise 201: the staff id is pulled from that lab's `staffs` and the lab from that user's `labs`, and every other lab and user is unchanged |
| Admin.RemoveStaffFromLab | API/admin.js:631-665 | 404 for an unknown lab; otherwise 200: the staff id is pulled from that lab's `staffs` and the lab from that user's `labs`, and every other lab and user is unchanged |
| Admin.AssignThenUnlink | API/admin.js:569-624 | unlinking right after assigning restores both arrays |
| Admin.Listing | API/admin.js:154-183 | 500 exactly for a negative skip; otherwise the page of the collection with its pagination block |
| LogExport.JsText | API/admin.js:514-517 | an absent value prints as "undefined" |
| LogExport.Fields | API/admin.js:513-518 | the seven cells in header order; a missing item or user reads "N/A", and a missing message reads "" |
| LogExport.RowIsOneLine | API/admin.js:513-518 | a row has no line break when none of its cells has one |
| LogExport.RowTexts | API/admin.js:512-519 | one row text per log, in order |
| LogExport.RowsSnoc | API/admin.js:512-519 | appending a log appends its line |
| LogExport.RowsAreLines | API/admin.js:512-519 | the rows are the row texts, each followed by a newline |
| LogExport.CsvLines | API/admin.js:510-519 | the file's lines are the header, one row per log in order, and the empty tail |
| LogExport.CsvTextStep | API/admin.js:513-518 | one pass of the export loop appends that log's line |
| LogExport.ExportCsv | API/admin.js:510-519 | the loop builds the header line followed by every log's row |
| LogExport.PublishLogs | API/admin.js:501-536 | format "csv" gives the CSV text; anything else, missing included, gives the JSON report with the record count |
| Staff.LiveLabs | API/staff.js:18-23 | the user's lab references that still resolve |
| Staff.Assigned | API/staff.js:26 | exactly the devices whose lab is one of those labs |
| Staff.MyLabs | API/staff.js:11-48 | 404 for a missing user; 500 for a negative skip; otherwise the page of devices in the user's existing labs, counting them all |
| Staff.EveryAssignedDeviceListed | API/staff.js:23-42 | with a positive limit, every device of one of the user's labs appears on some page |
| Staff.ListedOnPage | API/staff.js:26-42 | each entry of a page of the listing appears in that page's reply |
| RequestTime.DiffToSecondsMillis | utls/RequestTimeInfo.js:57-66 | seconds × 1000 + milliseconds is the absolute difference, with milliseconds below 1000 |
| RequestTime.DiffSymmetric | utls/RequestTimeInfo.js:59 | the order of the two readings does not matter |
| RequestTime.DiffUnique | utls/RequestTimeInfo.js:62-63 | that decomposition is the only one |
| RequestTime.ConsumedSecondsAlwaysZero | utls/RequestTimeInfo.js:51-56 | two millisecond-of-second readings always give 0 seconds |
| RequestTime.DisplayHour | utls/RequestTimeInfo.js:18 | hours 0 through 12 are shown as they are; hours 13 through 23 lose 12 |
| RequestTime.MinuteText | utls/RequestTimeInfo.js:20 | minutes below 10 gain a leading zero, so a valid minute is always two digits that read back as the minute |
| RequestTime.PrintTimeText | utls/RequestTimeInfo.js:39-47 | `printTime`'s text is the middleware's time text followed by a suffix |
| RequestTime.ParseTimeText | utls/RequestTimeInfo.js:17-24 | the logged text reads back as the shown hour, minutes, seconds and milliseconds |
| RequestTime.PathMiddleWare | utls/RequestTimeInfo.js:1-29 | "/favicon.ico" is neither logged nor stamped; any other path is stamped with the reading and its path, method and time text logged |
| RequestTime.PrintConsumedTime | utls/RequestTimeInfo.js:51-56 | without a stamp there is no result; otherwise the difference of the stamp and now |

## Left out

- Store failures and invalid-ObjectId casts, which the handlers answer with
  500, are not modelled. Documents are found by id in a map or a sequence.
- `$regex` with option `i` is modelled as an ASCII case-insensitive
  substring match. Regular-expression syntax in the search text is not
  interpreted.
- `toLowerCase` is modelled for ASCII letters only.
- The schemas' strict mode is not modelled:
  - `Models/Items.js` has no `deviceList`, `componentList`,
    `majorComponent` or `minorDescription` paths;
  - `Models/Labs.js` has no `components` path;
  - `Models/Logs.js` has no move fields;
  - `Models/Templates.js` has no `dataModel` path.
  The model stores these fields as the handlers write them.
- Admin.CreateDevice: `majorComponent || {}` stores an empty object, but the
  model stores the empty text. Component descriptions are opaque text.
- The seven-day TTL purge of token records (Models/Token.js:6) is left out,
  because it depends on time.
- JWT expiry is left out. `verify` is a parameter, and a token's expiry is
  its business.
- Cookie options (`httpOnly`, `secure`, `sameSite`, `domain`) are left
  out. Only the cookie's value and lifetime are modelled.
- Requests run one at a time. The interleaving of concurrent requests is not
  modelled. Neither is the fire-and-forget ordering of `moveLogs` and of the
  state-log save after the reply.
- Common.UpdateStateLog: a state-log save that fails after the reply was
  sent is not modelled; the log is always appended.
- Admin.AddTemplate: a request without a `data` object throws (500). The
  model takes the category directly.
- `/admin/update-template`, `/admin/delete-template`, the single-document
  GET routes, the count routes, `/profile`, `/change-password`, `/delay` and
  the template searches are not part of this model. They are one-line
  reads or updates with no logic of their own.
- Keys that `FIELD_MAP` inherits from `Object.prototype` (for example
  `constructor`) are not modelled. Item types other than "item" and
  "component" are treated as missing entries.
- Listings take their collection in the order the query sorts it.
  `/admin/logs` and `logs/publish` sort newest first; the caller passes
  the logs already in that order.
- RequestTime.PrintConsumedTime: when no stamp is set the source throws; the
  model returns no result instead.
- LogExport.CsvLines: cells are written between quotes without escaping. A
  cell holding a quote or a line break breaks the CSV. The lemma therefore
  requires that no cell holds a line break.
- `console.log` output is returned as text only where it is the subject
  (`pathMiddleWare`). Other logging is left out.

## Findings

| source | as written | input that shows it | evidently intended | confidence | as-written member | corrected member |
|---|---|---|---|---|---|---|
| API/common.js:425-427 | `item.id == moveTo.id` uses loose equality, so an array of ids is compared as its comma-joined text | `item.id = ["a","b"]`, `moveTo = { type: "item", id: "b" }`: the check passes, and item "b" is pushed into its own `deviceList` | refuse a move whose destination is one of the moved ids | high, not executed | Common.DecideAsWritten (with Common.SelfMoveSlipsThrough) | Common.Decide (used by Common.MoveItems) |
