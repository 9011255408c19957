/** The admin users endpoint: `GET` lists the users (seeding the demo accounts first) and
    `PUT` toggles one user's `active` flag or role in the users file. */
module AdminUsers {
  import opened Wrappers
  import opened Auth

  /** The decoded `PUT` body; a field the client left out is `None`. */
  datatype PutBody = PutBody(id: Option<string>, op: Option<string>)

  /** `Unhandled` is the framework's answer to an exception the handler does not catch. */
  datatype PutResult = Ok | NotFound(status: int, error: string) | Unhandled(status: int)

  const ToggleActiveOp := "toggleActive"
  const ToggleRoleOp := "toggleRole"

  /** `users.findIndex(u => u.id === id)`; an absent id matches no stored user. */
  function FindById(users: seq<StoredUser>, id: Option<string>): (r: Option<nat>)
    ensures r.Some? ==> r.value < |users| && id == Some(users[r.value].id)
    ensures r.Some? ==> forall j :: 0 <= j < r.value ==> id != Some(users[j].id)
    ensures r == None ==> forall j :: 0 <= j < |users| ==> id != Some(users[j].id)
  {
    if users == [] then None
    else if id == Some(users[0].id) then Some(0)
    else match FindById(users[1..], id)
      case None => None
      case Some(i) => Some(i + 1)
  }

  /** The in-place change `op` makes to one user; an unrecognised op changes nothing. */
  function Toggled(u: StoredUser, op: Option<string>): (v: StoredUser)
    ensures v.id == u.id && v.name == u.name && v.email == u.email && v.password == u.password
    ensures op == Some(ToggleActiveOp) ==> v.active == !u.active && v.role == u.role
    ensures op == Some(ToggleRoleOp) ==> v.active == u.active && v.role == (if u.role == "admin" then "user" else "admin")
    ensures op != Some(ToggleActiveOp) && op != Some(ToggleRoleOp) ==> v == u
  {
    if op == Some(ToggleActiveOp) then u.(active := !u.active)
    else if op == Some(ToggleRoleOp) then u.(role := if u.role == "admin" then "user" else "admin")
    else u
  }

  /** A role the application writes: "admin" or "user". */
  predicate KnownRole(role: string) {
    role == "admin" || role == "user"
  }

  /** Toggling twice restores the user, for either op, as long as the role is one the
      application writes. */
  lemma ToggleTwice(u: StoredUser, op: Option<string>)
    requires KnownRole(u.role)
    ensures Toggled(Toggled(u, op), op) == u
  {
  }

  /** Any role toggles into a known one: an unexpected stored role becomes "admin". */
  lemma ToggleRoleNormalises(u: StoredUser)
    ensures KnownRole(Toggled(u, Some(ToggleRoleOp)).role)
    ensures !KnownRole(u.role) ==> Toggled(u, Some(ToggleRoleOp)).role == "admin"
  {
  }

  /** The list written back by a `PUT` that found its user. */
  function Applied(users: seq<StoredUser>, body: PutBody): (r: seq<StoredUser>)
    ensures FindById(users, body.id) == None ==> r == users
    ensures |r| == |users|
    ensures FindById(users, body.id).Some? ==>
      var i := FindById(users, body.id).value;
      r[i] == Toggled(users[i], body.op) && forall j :: 0 <= j < |users| && j != i ==> r[j] == users[j]
  {
    match FindById(users, body.id)
    case None => users
    case Some(i) => users[i := Toggled(users[i], body.op)]
  }

  /** A `PUT` keeps every id where it was, so the same body finds the same user again. */
  lemma {:induction false} AppliedKeepsIds(users: seq<StoredUser>, body: PutBody, id: Option<string>)
    ensures FindById(Applied(users, body), id) == FindById(users, id)
  {
    var r := Applied(users, body);
    assert forall j :: 0 <= j < |users| ==> r[j].id == users[j].id;
    FindByIdSameIds(users, r, id);
  }

  lemma {:induction false} FindByIdSameIds(a: seq<StoredUser>, b: seq<StoredUser>, id: Option<string>)
    requires |a| == |b| && forall j :: 0 <= j < |a| ==> a[j].id == b[j].id
    ensures FindById(a, id) == FindById(b, id)
  {
    if a != [] {
      FindByIdSameIds(a[1..], b[1..], id);
    }
  }

  /** The same toggle sent twice leaves the file as it was. */
  lemma PutTwiceRestores(users: seq<StoredUser>, body: PutBody)
    requires forall j :: 0 <= j < |users| ==> KnownRole(users[j].role)
    ensures Applied(Applied(users, body), body) == users
  {
    AppliedKeepsIds(users, body, body.id);
    var once := Applied(users, body);
    var twice := Applied(once, body);
    if FindById(users, body.id).Some? {
      var i := FindById(users, body.id).value;
      ToggleTwice(users[i], body.op);
      assert twice == users;
    }
  }

  /** `PUT` with the body `body` (`None`: it could not be decoded, and the uncaught throw
      becomes a 500 before the file is read): an id that no stored user has gives 404 and
      nothing is written; otherwise the list is written back with that user toggled
      (unchanged for an unrecognised op) and the answer is ok. */
  method Put(file: UserFile, body: Option<PutBody>) returns (r: PutResult)
    modifies file
    ensures body == None ==> r == Unhandled(500) && file.users == old(file.users)
    ensures body.Some? && FindById(old(file.users), body.value.id) == None ==>
      r == NotFound(404, "Not found") && file.users == old(file.users)
    ensures body.Some? && FindById(old(file.users), body.value.id).Some? ==>
      r == Ok && file.users == Applied(old(file.users), body.value)
  {
    if body == None {
      return Unhandled(500);
    }
    var users := file.users;
    var idx := FindById(users, body.value.id);
    if idx == None {
      return NotFound(404, "Not found");
    }
    var i := idx.value;
    if body.value.op == Some(ToggleActiveOp) {
      users := users[i := users[i].(active := !users[i].active)];
    }
    if body.value.op == Some(ToggleRoleOp) {
      users := users[i := users[i].(role := if users[i].role == "admin" then "user" else "admin")];
    }
    file.users := users;
    r := Ok;
  }

  /** `GET`: seeds the demo accounts into an empty file, then lists the file. */
  method Get(file: UserFile) returns (users: seq<StoredUser>)
    modifies file
    ensures old(file.users) == [] ==> users == DefaultUsers()
    ensures old(file.users) != [] ==> users == old(file.users)
    ensures users == file.users
  {
    file.EnsureDefaultUsers();
    users := file.users;
  }
}
