/** Credential sign-in: the user file, `authorize` over it, the `jwt` and `session`
    callbacks that carry the role, and the seeding of the two demo accounts. */
module Auth {
  import opened Wrappers
  import opened Text

  /** A user as stored in the users file. `role` is whatever string the file holds; the
      application writes only "admin" and "user". */
  datatype StoredUser = StoredUser(
    id: string, name: string, email: string, role: string, active: bool, password: Option<string>)

  /** What the sign-in form submits; either field may be missing. */
  datatype Credentials = Credentials(email: Option<string>, password: Option<string>)

  /** What a successful `authorize` hands to the session machinery. */
  datatype AuthUser = AuthUser(id: string, name: string, email: string, role: string)

  /** The claims the `jwt` callback maintains. */
  datatype Token = Token(role: Option<string>, uid: Option<string>)

  datatype SessionUser = SessionUser(name: string, email: string, role: Option<string>, id: Option<string>)
  datatype Session = Session(user: Option<SessionUser>)

  /** The users file, read and replaced as a whole. */
  class UserFile {
    var users: seq<StoredUser>

    /** A missing file reads as the empty list. */
    constructor ()
      ensures users == []
    {
      users := [];
    }

    /** `ensureDefaultUsers`: an empty file gets the two demo accounts; any other content
        is left alone. */
    method EnsureDefaultUsers()
      modifies this
      ensures old(users) == [] ==> users == DefaultUsers()
      ensures old(users) != [] ==> users == old(users)
    {
      var current := users;
      if |current| == 0 {
        current := current + DefaultUsers();
        users := current;
      }
    }
  }

  /** The accounts seeded into an empty file: an active admin and an active user, with
      plain-text passwords. */
  function DefaultUsers(): (r: seq<StoredUser>)
    ensures |r| == 2
    ensures r[0].role == "admin" && r[1].role == "user" && r[0].active && r[1].active
    ensures r[0].id != r[1].id
  {
    [ StoredUser("1", "Admin", "admin@demo.com", "admin", true, Some("admin")),
      StoredUser("2", "User", "user@demo.com", "user", true, Some("user")) ]
  }

  /** The position of the first user whose email equals `email` ignoring case. */
  function FindByEmail(users: seq<StoredUser>, email: string): (r: Option<nat>)
    ensures r.Some? ==> r.value < |users| && Lower(users[r.value].email) == Lower(email)
    ensures r.Some? ==> forall j :: 0 <= j < r.value ==> Lower(users[j].email) != Lower(email)
    ensures r == None ==> forall j :: 0 <= j < |users| ==> Lower(users[j].email) != Lower(email)
  {
    if users == [] then None
    else if Lower(users[0].email) == Lower(email) then Some(0)
    else match FindByEmail(users[1..], email)
      case None => None
      case Some(i) => Some(i + 1)
  }

  /** The password check: a stored value starting with "$2" is a bcrypt hash and goes
      through `compare`; any other stored value must equal the given password, and a user
      without a stored password never passes. */
  predicate PasswordOk(stored: Option<string>, given: string, compare: (string, string) -> bool) {
    match stored
    case Some(p) => if StartsWith(p, "$2") then compare(given, p) else p == given
    case None => false
  }

  function AuthUserOf(u: StoredUser): (a: AuthUser)
    ensures a.id == u.id && a.name == u.name && a.email == u.email && a.role == u.role
  {
    AuthUser(u.id, u.name, u.email, u.role)
  }

  /** `authorize`: `None` stands for `null`. */
  function Authorize(creds: Option<Credentials>, users: seq<StoredUser>, compare: (string, string) -> bool)
    : (r: Option<AuthUser>)
    ensures creds == None || !Truthy(creds.value.email) || !Truthy(creds.value.password) ==> r == None
    ensures r.Some? <==>
      && creds.Some? && Truthy(creds.value.email) && Truthy(creds.value.password)
      && FindByEmail(users, creds.value.email.value).Some?
      && users[FindByEmail(users, creds.value.email.value).value].active
      && PasswordOk(users[FindByEmail(users, creds.value.email.value).value].password, creds.value.password.value, compare)
    ensures r.Some? ==> r.value == AuthUserOf(users[FindByEmail(users, creds.value.email.value).value])
  {
    if creds == None || !Truthy(creds.value.email) || !Truthy(creds.value.password) then None
    else
      match FindByEmail(users, creds.value.email.value)
      case None => None
      case Some(i) =>
        var u := users[i];
        if !u.active then None
        else if !PasswordOk(u.password, creds.value.password.value, compare) then None
        else Some(AuthUserOf(u))
  }

  /** Emails are compared ignoring case: two spellings that lowercase alike sign in the
      same way. */
  lemma {:induction false} AuthorizeIgnoresCase(users: seq<StoredUser>, e1: string, e2: string, password: Option<string>,
                                                compare: (string, string) -> bool)
    requires Lower(e1) == Lower(e2) && (e1 == [] <==> e2 == [])
    ensures Authorize(Some(Credentials(Some(e1), password)), users, compare)
         == Authorize(Some(Credentials(Some(e2), password)), users, compare)
  {
    FindByEmailIgnoresCase(users, e1, e2);
  }

  lemma {:induction false} FindByEmailIgnoresCase(users: seq<StoredUser>, e1: string, e2: string)
    requires Lower(e1) == Lower(e2)
    ensures FindByEmail(users, e1) == FindByEmail(users, e2)
  {
    if users != [] {
      FindByEmailIgnoresCase(users[1..], e1, e2);
    }
  }

  /** The first account with the email decides: when it is inactive, sign-in fails even
      if a later account with the same email is active and has that password. */
  lemma FirstMatchDecides(users: seq<StoredUser>, i: nat, creds: Credentials, compare: (string, string) -> bool)
    requires i < |users| && Lower(users[i].email) == Lower(creds.email.GetOr(""))
    requires forall j :: 0 <= j < i ==> Lower(users[j].email) != Lower(creds.email.GetOr(""))
    requires !users[i].active
    ensures Authorize(Some(creds), users, compare) == None
  {
    if Truthy(creds.email) {
      var k := FindByEmail(users, creds.email.value);
      assert k.Some? by {
        assert Lower(users[i].email) == Lower(creds.email.value);
      }
      assert Lower(users[k.value].email) == Lower(creds.email.value);
      assert k.value == i;
    }
  }

  /** A stored password that is not a bcrypt hash must be given exactly. */
  lemma PlainPasswordExact(creds: Credentials, users: seq<StoredUser>, compare: (string, string) -> bool)
    requires Authorize(Some(creds), users, compare).Some?
    ensures var u := users[FindByEmail(users, creds.email.value).value];
      u.password.Some? && (!StartsWith(u.password.value, "$2") ==> u.password.value == creds.password.value)
  {
  }

  /** The seeded admin account signs in with its seeded password, as an admin. */
  lemma DemoAdminSignsIn(compare: (string, string) -> bool)
    ensures Authorize(Some(Credentials(Some("admin@demo.com"), Some("admin"))), DefaultUsers(), compare)
         == Some(AuthUser("1", "Admin", "admin@demo.com", "admin"))
  {
    var users := DefaultUsers();
    assert FindByEmail(users, "admin@demo.com") == Some(0);
    assert !StartsWith("admin", "$2") by {
      assert "admin"[0] != "$2"[0];
    }
  }

  /** The `jwt` callback: on sign-in the token takes the user's role, or "user" when it
      is empty, and the user's id; afterwards the token is kept as it is. */
  function Jwt(token: Token, user: Option<AuthUser>): (t: Token)
    ensures user == None ==> t == token
    ensures user.Some? ==> t.uid == Some(user.value.id)
    ensures user.Some? ==> t.role == Some(if user.value.role != "" then user.value.role else "user")
  {
    match user
    case None => token
    case Some(u) => Token(Some(OrElse(Some(u.role), "user")), Some(u.id))
  }

  /** The `session` callback: the session's user gets the token's role and id. */
  function SessionOf(session: Session, token: Token): (s: Session)
    ensures session.user == None ==> s == session
    ensures session.user.Some? ==> s.user.Some? && s.user.value.role == token.role && s.user.value.id == token.uid
    ensures session.user.Some? ==> s.user.value.name == session.user.value.name && s.user.value.email == session.user.value.email
  {
    match session.user
    case None => session
    case Some(u) => Session(Some(u.(role := token.role, id := token.uid)))
  }

  /** A sign-in carries the stored user's role and id into every later session: the
      session built from the token written at sign-in shows them. */
  lemma SignInReachesSession(creds: Credentials, users: seq<StoredUser>, compare: (string, string) -> bool,
                             token: Token, session: Session)
    requires Authorize(Some(creds), users, compare).Some?
    requires session.user.Some?
    ensures var a := Authorize(Some(creds), users, compare).value;
      var s := SessionOf(session, Jwt(token, Some(a)));
      var u := users[FindByEmail(users, creds.email.value).value];
      && s.user.value.id == Some(u.id)
      && (u.role != "" ==> s.user.value.role == Some(u.role))
      && (u.role == "" ==> s.user.value.role == Some("user"))
  {
  }
}
