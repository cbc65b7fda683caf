/**
 * middleware.ts: the request gate in front of every page and API route.  It
 * first makes sure the browser holds a `csrf_token` cookie, then enforces
 * the double-submit CSRF check on the sensitive API routes, then protects
 * `/app`, `/dashboard` and `/api/protected` by looking the access token up
 * and refusing inactive users.
 *
 * The environment variables are strings, the empty string standing for an
 * unset one (both are falsy).  `crypto.randomUUID()` is the parameter
 * `uuid`; the Supabase `auth.getUser` call is the oracle `lookup`.
 */
module Middleware {
  import opened Text
  import opened Herramientas

  datatype Request = Request(
    method_: string,
    path: string,
    cookies: map<string, string>,
    headers: map<string, string>)

  datatype Env = Env(
    siteUrlPublic: string,     // NEXT_PUBLIC_SITE_URL
    siteUrl: string,           // SITE_URL
    supabaseUrl: string,       // NEXT_PUBLIC_SUPABASE_URL
    supabaseAnonKey: string)   // NEXT_PUBLIC_SUPABASE_ANON_KEY

  /** What `auth.getUser(token)` answers: an error, no user, or a user's two status fields. */
  datatype Lookup = LookupError | NoUser | User(appStatus: JsStr, userStatus: JsStr)

  /** The cookie the middleware may place on the pass-through response. */
  datatype Cookie = Cookie(value: string, httpOnly: bool, sameSite: string, path: string, secure: bool, maxAge: int)

  datatype Decision =
    | Pass                                           // `NextResponse.next()` with its cookies
    | CsrfFailed                                     // 403 'CSRF validation failed'
    | ToLogin(redirectedFrom: string, inactive: bool) // redirect to /login
    | Inactive                                       // 403 'Forbidden: user not active'

  const CsrfProtected: seq<string> := ["/api/auth/register", "/api/profile"]
  const ProtectedPaths: seq<string> := ["/app", "/dashboard", "/api/protected"]

  /** `config.matcher`: the routes matched exactly, and the `/:path*` subtrees. */
  const ExactMatched: seq<string> := ["/", "/login", "/register", "/forgot-password", "/reset-password"]
  const SubtreeMatched: seq<string> := ["/app", "/dashboard", "/api"]

  /** `root/:path*`: the root itself or anything below it. */
  predicate InSubtree(path: string, root: string)
  {
    path == root || StartsWith(path, root + "/")
  }

  /** The middleware runs only for the paths `config.matcher` selects. */
  predicate Matched(path: string)
  {
    (exists k :: 0 <= k < |ExactMatched| && path == ExactMatched[k])
    || (exists k :: 0 <= k < |SubtreeMatched| && InSubtree(path, SubtreeMatched[k]))
  }

  /** `prefixes.some((p) => path.startsWith(p))`. */
  predicate SomePrefix(path: string, prefixes: seq<string>)
  {
    exists k :: 0 <= k < |prefixes| && StartsWith(path, prefixes[k])
  }

  /** `req.cookies.get(name)?.value` (absent as `None`). */
  function GetCookie(req: Request, name: string): Option<string>
  {
    if name in req.cookies then Some(req.cookies[name]) else None
  }

  function GetHeader(req: Request, name: string): Option<string>
  {
    if name in req.headers then Some(req.headers[name]) else None
  }

  /** JavaScript truthiness of an optional string. */
  predicate Truthy(v: Option<string>) { v.Some? && v.value != "" }

  predicate ShouldCheckCsrf(req: Request)
  {
    (req.method_ == "POST" || req.method_ == "PATCH") && SomePrefix(req.path, CsrfProtected)
  }

  /** CSRF is enforced only for POST and PATCH below the two sensitive prefixes. */
  lemma ShouldCheckCsrfIff(req: Request)
    ensures ShouldCheckCsrf(req) <==>
      (req.method_ == "POST" || req.method_ == "PATCH")
      && (StartsWith(req.path, "/api/auth/register") || StartsWith(req.path, "/api/profile"))
  {
    if StartsWith(req.path, "/api/auth/register") {
      assert StartsWith(req.path, CsrfProtected[0]);
    }
    if StartsWith(req.path, "/api/profile") {
      assert StartsWith(req.path, CsrfProtected[1]);
    }
  }

  /** `NEXT_PUBLIC_SITE_URL || SITE_URL`. */
  function AllowedOrigin(env: Env): string
  {
    if env.siteUrlPublic != "" then env.siteUrlPublic else env.siteUrl
  }

  predicate OriginOk(req: Request, env: Env)
  {
    var origin := GetHeader(req, "origin");
    if AllowedOrigin(env) == "" || !Truthy(origin) then true else origin.value == AllowedOrigin(env)
  }

  /** The double-submit check: cookie and header present and equal, origin acceptable. */
  predicate CsrfPasses(req: Request, env: Env)
  {
    var header := GetHeader(req, "x-csrf-token");
    var cookie := GetCookie(req, "csrf_token");
    !(!Truthy(cookie) || !Truthy(header) || header.value != cookie.value || !OriginOk(req, env))
  }

  /** The token: the `sb-access-token` cookie, else the header with its first 'Bearer ' removed. */
  function AccessToken(req: Request): (t: string)
    ensures Truthy(GetCookie(req, "sb-access-token")) ==> t == req.cookies["sb-access-token"]
  {
    var fromCookie := GetCookie(req, "sb-access-token");
    if Truthy(fromCookie) then fromCookie.value
    else
      var fromHeader := GetHeader(req, "authorization");
      if fromHeader.Some? then ReplaceFirst(fromHeader.value, "Bearer ", "") else ""
  }

  /** `app_metadata?.status || user_metadata?.status`, as a string ('' when both are falsy). */
  function Status(u: Lookup): string
    requires u.User?
  {
    if !Falsy(u.appStatus) then u.appStatus.s
    else if u.userStatus.Str? then u.userStatus.s
    else ""
  }

  /** The gate's answer for one request. */
  function Decide(req: Request, env: Env, lookup: string -> Lookup): Decision
  {
    if ShouldCheckCsrf(req) && !CsrfPasses(req, env) then CsrfFailed
    else if !SomePrefix(req.path, ProtectedPaths) then Pass
    else
      var token := AccessToken(req);
      if token == "" then ToLogin(req.path, false)
      else if env.supabaseUrl == "" || env.supabaseAnonKey == "" then ToLogin(req.path, false)
      else
        var u := lookup(token);
        if !u.User? then ToLogin(req.path, false)
        else
          var status := Status(u);
          if status != "" && Lower(status) != "activo" then
            if StartsWith(req.path, "/api/") then Inactive else ToLogin(req.path, true)
          else Pass
  }

  /** What the browser gets: no middleware at all outside the matcher, `Decide` inside it. */
  function Gate(req: Request, env: Env, lookup: string -> Lookup): Decision
  {
    if Matched(req.path) then Decide(req, env, lookup) else Pass
  }

  /** The response `NextResponse.next()` creates, whose cookie jar the middleware fills. */
  class PassResponse {
    var cookies: map<string, Cookie>

    constructor ()
      ensures cookies == map[]
    {
      cookies := map[];
    }

    /** `ensureCsrfCookie`: a fresh token only when the request carries no truthy one. */
    method EnsureCsrfCookie(req: Request, uuid: string, production: bool)
      modifies this
      ensures Truthy(GetCookie(req, "csrf_token")) ==> cookies == old(cookies)
      ensures !Truthy(GetCookie(req, "csrf_token")) ==>
        cookies == old(cookies)["csrf_token" := Cookie(uuid, false, "lax", "/", production, 60 * 60 * 24)]
    {
      var existing := GetCookie(req, "csrf_token");
      if !Truthy(existing) {
        cookies := cookies["csrf_token" := Cookie(uuid, false, "lax", "/", production, 60 * 60 * 24)];
      }
    }
  }

  /** The cookies the pass-through response carries. */
  function PassCookies(req: Request, uuid: string, production: bool): map<string, Cookie>
  {
    if Truthy(GetCookie(req, "csrf_token")) then map[]
    else map["csrf_token" := Cookie(uuid, false, "lax", "/", production, 60 * 60 * 24)]
  }

  /**
   * A request through the matcher and `middleware(req)`: the decision, and
   * the cookies of the pass-through response (which only reach the browser
   * when the decision is `Pass`).  Outside the matcher the request goes on
   * untouched.
   */
  method Run(req: Request, env: Env, uuid: string, production: bool, lookup: string -> Lookup)
    returns (d: Decision, passCookies: map<string, Cookie>)
    ensures d == Gate(req, env, lookup)
    ensures passCookies == if Matched(req.path) then PassCookies(req, uuid, production) else map[]
  {
    if !Matched(req.path) {
      d := Pass;
      passCookies := map[];
      return;
    }
    var res := new PassResponse();
    res.EnsureCsrfCookie(req, uuid, production);
    passCookies := res.cookies;
    if ShouldCheckCsrf(req) {
      if !CsrfPasses(req, env) {
        d := CsrfFailed;
        return;
      }
    }
    if !SomePrefix(req.path, ProtectedPaths) {
      d := Pass;
      return;
    }
    var token := AccessToken(req);
    if token == "" {
      d := ToLogin(req.path, false);
      return;
    }
    if env.supabaseUrl == "" || env.supabaseAnonKey == "" {
      d := ToLogin(req.path, false);
      return;
    }
    var u := lookup(token);
    if !u.User? {
      d := ToLogin(req.path, false);
      return;
    }
    var status := Status(u);
    if status != "" && Lower(status) != "activo" {
      if StartsWith(req.path, "/api/") {
        d := Inactive;
        return;
      }
      d := ToLogin(req.path, true);
      return;
    }
    d := Pass;
  }

  // ---------------------------------------------------------------------------
  // Properties of the gate
  // ---------------------------------------------------------------------------

  /** The cookie goes on the response exactly when the request carries none. */
  lemma CsrfCookieOnlyWhenMissing(req: Request, uuid: string, production: bool)
    ensures "csrf_token" in PassCookies(req, uuid, production) <==> !Truthy(GetCookie(req, "csrf_token"))
    ensures "csrf_token" in PassCookies(req, uuid, production) ==>
      PassCookies(req, uuid, production)["csrf_token"].value == uuid
  {
  }

  /** A checked request is refused unless cookie and header agree and the origin is acceptable. */
  lemma CsrfRejection(req: Request, env: Env, lookup: string -> Lookup)
    requires ShouldCheckCsrf(req)
    ensures Decide(req, env, lookup) == CsrfFailed <==>
      !(req.cookies.Keys >= {"csrf_token"} && req.headers.Keys >= {"x-csrf-token"}
        && req.cookies["csrf_token"] != ""
        && req.headers["x-csrf-token"] == req.cookies["csrf_token"]
        && OriginOk(req, env))
  {
  }

  /** Without a configured origin or without an Origin header any origin passes; otherwise only an exact match. */
  lemma OriginRule(req: Request, env: Env)
    ensures OriginOk(req, env) <==>
      AllowedOrigin(env) == "" || "origin" !in req.headers || req.headers["origin"] == ""
      || req.headers["origin"] == AllowedOrigin(env)
  {
  }

  /** Unprotected paths pass once the CSRF step is behind them, whatever the session. */
  lemma UnprotectedPasses(req: Request, env: Env, lookup: string -> Lookup)
    requires !SomePrefix(req.path, ProtectedPaths)
    ensures Decide(req, env, lookup) == if ShouldCheckCsrf(req) && !CsrfPasses(req, env) then CsrfFailed else Pass
  {
  }

  /**
   * Inside the middleware the protection is a prefix test: `/application`
   * counts as protected and `/ap` does not.  The matcher never sends
   * `/application` to the middleware, though, so it is served ungated.
   */
  lemma PrefixProtection(req: Request, env: Env, lookup: string -> Lookup)
    requires req.path == "/application"
    ensures SomePrefix("/application", ProtectedPaths)
    ensures !SomePrefix("/ap", ProtectedPaths)
    ensures !Matched(req.path) && Gate(req, env, lookup) == Pass
  {
    assert StartsWith("/application", ProtectedPaths[0]);
    assert !StartsWith("/ap", ProtectedPaths[0]) && !StartsWith("/ap", ProtectedPaths[1]);
    assert !StartsWith("/ap", ProtectedPaths[2]);
    assert !InSubtree(req.path, SubtreeMatched[0]) by { assert req.path[4] != '/'; }
    assert !InSubtree(req.path, SubtreeMatched[1]) by { assert req.path[1] != 'd'; }
    assert !InSubtree(req.path, SubtreeMatched[2]) by { assert req.path[2] != 'p' || req.path[3] != 'i'; }
  }

  /** `/api/x` starts with `/api/`. */
  lemma ApiPrefix(path: string, p: string)
    requires StartsWith(path, p) && StartsWith(p, "/api/")
    ensures InSubtree(path, SubtreeMatched[2])
  {
    assert path[..5] == p[..5];
  }

  /** Every route the CSRF check guards is one the matcher sends to the middleware. */
  lemma CsrfRoutesMatched(req: Request)
    requires ShouldCheckCsrf(req)
    ensures Matched(req.path)
  {
    var k :| 0 <= k < |CsrfProtected| && StartsWith(req.path, CsrfProtected[k]);
    if k == 0 {
      ApiPrefix(req.path, CsrfProtected[0]);
    } else {
      ApiPrefix(req.path, CsrfProtected[1]);
    }
  }

  /**
   * The three protected areas, taken as subtrees, are both selected by the
   * matcher and protected by the middleware.
   */
  lemma ProtectedSubtreesGated(path: string)
    requires InSubtree(path, "/app") || InSubtree(path, "/dashboard") || InSubtree(path, "/api/protected")
    ensures Matched(path) && SomePrefix(path, ProtectedPaths)
  {
    if InSubtree(path, "/app") {
      assert InSubtree(path, SubtreeMatched[0]);
      assert StartsWith(path, ProtectedPaths[0]);
    } else if InSubtree(path, "/dashboard") {
      assert InSubtree(path, SubtreeMatched[1]);
      assert StartsWith(path, ProtectedPaths[1]);
    } else {
      assert StartsWith(path, ProtectedPaths[2]);
      ApiPrefix(path, ProtectedPaths[2]);
    }
  }

  /** Outside the matcher nothing is checked and no cookie is set, whatever the request. */
  lemma OutsideMatcherUntouched(req: Request, env: Env, lookup: string -> Lookup)
    requires req.path == "/admin/auth-events" || req.path == "/applications"
    ensures Gate(req, env, lookup) == Pass
  {
    assert !InSubtree(req.path, SubtreeMatched[0]) by { assert req.path[2] != 'p' || req.path[4] != '/'; }
    assert !InSubtree(req.path, SubtreeMatched[1]) by { assert req.path[1] != 'd'; }
    assert !InSubtree(req.path, SubtreeMatched[2]) by { assert req.path[2] != 'p' || req.path[3] != 'i'; }
  }

  /** The cookie token is preferred; the header loses the first 'Bearer ' only. */
  lemma TokenPrecedence(req: Request, t: string)
    ensures Truthy(GetCookie(req, "sb-access-token")) ==> AccessToken(req) == req.cookies["sb-access-token"]
    ensures (!Truthy(GetCookie(req, "sb-access-token")) && req.headers.Keys >= {"authorization"}
             && req.headers["authorization"] == "Bearer " + t) ==>
      AccessToken(req) == t
  {
    if !Truthy(GetCookie(req, "sb-access-token")) && req.headers.Keys >= {"authorization"}
        && req.headers["authorization"] == "Bearer " + t {
      var h := "Bearer " + t;
      assert OccursAt(h, "Bearer ", 0) by { assert h[..7] == "Bearer "; }
      assert IndexOf(h, "Bearer ") == Some(0);
      assert h[7..] == t;
    }
  }

  /** On a protected path, no token, no configuration or no user sends the browser to /login. */
  lemma MissingSessionRedirects(req: Request, env: Env, lookup: string -> Lookup)
    requires SomePrefix(req.path, ProtectedPaths) && !(ShouldCheckCsrf(req) && !CsrfPasses(req, env))
    requires AccessToken(req) == "" || env.supabaseUrl == "" || env.supabaseAnonKey == ""
      || !lookup(AccessToken(req)).User?
    ensures Decide(req, env, lookup) == ToLogin(req.path, false)
  {
  }

  /**
   * A looked-up user with a status other than 'activo' (in any case) is
   * refused: 403 on /api/ paths, a redirect with inactive=1 elsewhere; a user
   * without a status passes.
   */
  lemma StatusGate(req: Request, env: Env, lookup: string -> Lookup)
    requires SomePrefix(req.path, ProtectedPaths) && !(ShouldCheckCsrf(req) && !CsrfPasses(req, env))
    requires AccessToken(req) != "" && env.supabaseUrl != "" && env.supabaseAnonKey != ""
    requires lookup(AccessToken(req)).User?
    ensures var status := Status(lookup(AccessToken(req)));
      && (status == "" || Lower(status) == "activo" ==> Decide(req, env, lookup) == Pass)
      && (status != "" && Lower(status) != "activo" ==>
          Decide(req, env, lookup) == if StartsWith(req.path, "/api/") then Inactive else ToLogin(req.path, true))
  {
  }

  /** The application metadata's status wins over the user metadata's. */
  lemma AppStatusFirst(a: string, v: JsStr)
    requires a != ""
    ensures Status(User(Str(a), v)) == a
    ensures Status(User(Undef, Str(a))) == a
  {
  }

  /** Any capitalisation of 'activo' counts as active. */
  lemma ActivoAnyCase()
    ensures Lower("ACTIVO") == "activo" && Lower("Activo") == "activo"
  {
  }
}
