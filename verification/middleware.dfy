/** The route guard: which paths it runs on, which need a signed-in user, and the redirect
    of non-admins away from the admin pages. */
module Middleware {
  import opened Wrappers
  import opened Text

  /** What a guarded request turns into. */
  datatype Outcome =
    | Next                   // handled as requested
    | RedirectTo(url: string) // sent elsewhere by the guard
    | RedirectToSignIn       // sent to the sign-in page, which is '/login'

  const SignInPage := "/login"
  const AdminPrefix := "/admin"

  /** The segments the matcher leaves unguarded when the text after the leading '/' starts
      with one of them. The matcher is a regular expression, so the '.' of "favicon.ico"
      stands for any one character. */
  const Excluded: seq<string> := ["api", "_next/static", "_next/image", "favicon.ico", "fonts", "images"]

  /** `c` matches the pattern character `p`: a '.' matches anything. */
  predicate CharMatches(c: char, p: char) {
    p == '.' || c == p
  }

  /** `s` starts with something the pattern `p` matches. */
  predicate PatternPrefix(s: string, p: string) {
    |p| <= |s| && forall k :: 0 <= k < |p| ==> CharMatches(s[k], p[k])
  }

  /** The path is one the guard runs on: it starts with '/' and what follows does not
      start with an excluded segment. */
  predicate Matched(path: string) {
    |path| >= 1 && path[0] == '/' && forall e :: e in Excluded ==> !PatternPrefix(path[1..], e)
  }

  /** The `authorized` callback: only the sign-in page is open; every other path needs a
      token. */
  predicate Authorized(path: string, hasToken: bool) {
    path == SignInPage || hasToken
  }

  /** The middleware body: a path starting with "/admin" sends everyone whose token role is
      not "admin" to the home page; everything else goes through. */
  function Guard(path: string, role: Option<string>): (r: Outcome)
    ensures r == Next || r == RedirectTo("/")
    ensures r == RedirectTo("/") <==> StartsWith(path, AdminPrefix) && role != Some("admin")
  {
    if StartsWith(path, AdminPrefix) && role != Some("admin") then RedirectTo("/") else Next
  }

  /** A request as a whole: paths outside the matcher are not guarded; otherwise a request
      without a token for any path but the sign-in page goes to sign in, and the rest pass
      through the middleware body. `role` is the token's role claim. */
  function Handle(path: string, hasToken: bool, role: Option<string>): (r: Outcome)
    ensures !Matched(path) ==> r == Next
    ensures Matched(path) && !Authorized(path, hasToken) ==> r == RedirectToSignIn
    ensures Matched(path) && Authorized(path, hasToken) ==> r == Guard(path, role)
  {
    if !Matched(path) then Next
    else if !Authorized(path, hasToken) then RedirectToSignIn
    else Guard(path, role)
  }

  /** Without a token, the sign-in page is the only guarded page that is reached. */
  lemma OnlySignInIsPublic(path: string)
    requires Matched(path)
    ensures Handle(path, false, None) == Next <==> path == SignInPage
  {
    if path == SignInPage {
      assert !StartsWith(path, AdminPrefix) by {
        assert path[1] != AdminPrefix[1];
      }
    }
  }

  /** "/signup" is guarded too: it needs a token. */
  lemma SignupNeedsToken()
    ensures Handle("/signup", false, None) == RedirectToSignIn
  {
    var rest := "/signup"[1..];
    forall e | e in Excluded ensures !PatternPrefix(rest, e) {
      assert rest[0] == 's';
      assert e[0] != 's' && e[0] != '.';
    }
  }

  /** Any path with the "/admin" prefix, "/administrator" included, sends a signed-in
      non-admin home, and lets an admin through. */
  lemma AdminPrefixGuarded(path: string, role: Option<string>)
    requires Matched(path) && StartsWith(path, AdminPrefix)
    ensures role != Some("admin") ==> Handle(path, true, role) == RedirectTo("/")
    ensures Handle(path, true, Some("admin")) == Next
  {
  }

  lemma AdministratorIsAdminPath()
    ensures StartsWith("/administrator", AdminPrefix)
  {
    assert "/administrator"[..6] == "/admin";
  }

  /** Paths under an excluded segment are never guarded: no token is needed. */
  lemma ExcludedNotGuarded(e: string, rest: string, hasToken: bool, role: Option<string>)
    requires e in Excluded
    ensures Handle("/" + e + rest, hasToken, role) == Next
  {
    var path := "/" + e + rest;
    assert path[1..] == e + rest;
    assert PatternPrefix(path[1..], e);
  }

  /** The unescaped '.' of "favicon.ico" lets "/favicon-ico" through unguarded as well. */
  lemma FaviconDotMatchesAnyCharacter()
    ensures Handle("/favicon-ico", false, None) == Next
  {
    assert "favicon.ico" in Excluded;
    assert PatternPrefix("/favicon-ico"[1..], "favicon.ico");
  }
}
