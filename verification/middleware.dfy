/** The request gate in front of every matched page and API route: it checks only
    that an `auth_session` cookie is present, not that it is valid. */
module Middleware {
  import opened Wrappers
  import opened Strings

  const PUBLIC_PATHS: seq<string> := ["/login", "/api/auth/login"]

  /** A public path starts with one of the public prefixes. */
  predicate IsPublicPath(pathname: string) {
    exists i :: 0 <= i < |PUBLIC_PATHS| && StartsWith(pathname, PUBLIC_PATHS[i])
  }

  datatype Decision = Next | Redirect(target: string)

  /** `middleware`: without a cookie, any non-public path goes to `/login`; with
      one, `/login` itself goes to `/`; everything else passes. */
  function Gate(pathname: string, sessionCookie: Option<string>): (d: Decision)
    ensures d.Redirect? ==> d.target in {"/login", "/"}
    ensures d == Redirect("/login") <==> !Truthy(sessionCookie) && !IsPublicPath(pathname)
    ensures d == Redirect("/") <==> Truthy(sessionCookie) && pathname == "/login"
  {
    if !Truthy(sessionCookie) && !IsPublicPath(pathname) then Redirect("/login")
    else if Truthy(sessionCookie) && pathname == "/login" then Redirect("/")
    else Next
  }

  /** Following a redirect never leads to a second one. */
  lemma NoRedirectLoop(pathname: string, cookie: Option<string>)
    requires Gate(pathname, cookie).Redirect?
    ensures Gate(Gate(pathname, cookie).target, cookie) == Next
  {
    if !Truthy(cookie) {
      assert StartsWith("/login", PUBLIC_PATHS[0]);
    }
  }

  /** Only the cookie's presence matters: any two non-empty values are treated
      alike, so a forged or expired value passes the gate. */
  lemma CookieValueIrrelevant(pathname: string, c1: string, c2: string)
    requires c1 != "" && c2 != ""
    ensures Gate(pathname, Some(c1)) == Gate(pathname, Some(c2))
  {
  }

  /** Publicness is a prefix test, so every path that merely begins with `/login`
      is public. */
  lemma LoginPrefixIsPublic(rest: string)
    ensures IsPublicPath("/login" + rest)
  {
    assert StartsWith("/login" + rest, PUBLIC_PATHS[0]);
  }

  /** The matcher `/((?!_next/static|_next/image|favicon.ico|audio/).*)`: a leading
      `/`, then anything without a line break that does not begin with one of the
      excluded prefixes (the `.` of `favicon.ico` matches any character). */
  predicate Excluded(rest: string) {
    || StartsWith(rest, "_next/static")
    || StartsWith(rest, "_next/image")
    || (|rest| >= 11 && rest[..7] == "favicon" && rest[7] != '\n' && rest[8..11] == "ico")
    || StartsWith(rest, "audio/")
  }

  predicate Matched(pathname: string) {
    && |pathname| >= 1 && pathname[0] == '/'
    && (forall i :: 1 <= i < |pathname| ==> pathname[i] != '\n')
    && !Excluded(pathname[1..])
  }

  /** The middleware as deployed: unmatched paths bypass it. */
  function Handle(pathname: string, sessionCookie: Option<string>): (d: Decision)
    ensures !Matched(pathname) ==> d == Next
    ensures Matched(pathname) ==> d == Gate(pathname, sessionCookie)
  {
    if Matched(pathname) then Gate(pathname, sessionCookie) else Next
  }

  /** Generated audio under `/audio/` is served without any cookie. */
  lemma AudioBypassesGate(rest: string)
    ensures Handle("/audio/" + rest, None) == Next
  {
    assert ("/audio/" + rest)[1..] == "audio/" + rest;
    assert StartsWith("audio/" + rest, "audio/");
  }

  /** An API route other than login, called without a cookie, is redirected. */
  lemma ApiNeedsCookie()
    ensures Handle("/api/history", None) == Redirect("/login")
  {
    var p := "/api/history";
    assert p[1..] == "api/history";
    assert p[1] == 'a' && PUBLIC_PATHS[0][1] == 'l';
    assert !StartsWith(p, PUBLIC_PATHS[0]);
    assert |PUBLIC_PATHS[1]| > |p|;
    var rest := p[1..];
    assert rest[0] == 'a' && rest[1] == 'p';
    assert !Excluded(rest);
  }
}
