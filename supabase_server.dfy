/**
 * src/lib/supabase/server.ts: the server-side role test used by the admin
 * and protected API routes, and the bearer-token user lookup.  The Supabase
 * `auth.getUser` call is the oracle `getUser`.
 */
module SupabaseServer {
  import opened Text
  import opened Herramientas

  /** The role-bearing fields of a Supabase user: `user_metadata.role`, `app_metadata.role`, `role`. */
  datatype RoleUser = RoleUser(userMetaRole: JsStr, appMetaRole: JsStr, role: JsStr)

  /** `a || b` over two optional strings: the first truthy one, else the second as it is. */
  function Or(a: JsStr, b: JsStr): (r: JsStr)
    ensures !Falsy(a) ==> r == a
    ensures Falsy(a) ==> r == b
  {
    if !Falsy(a) then a else b
  }

  /** `user?.user_metadata?.role || user?.app_metadata?.role`. */
  function MetaRole(u: RoleUser): JsStr
  {
    Or(u.userMetaRole, u.appMetaRole)
  }

  /** `userHasRole(user, allowed)`. */
  predicate UserHasRole(user: Option<RoleUser>, allowed: seq<string>)
  {
    if user.None? then false
    else
      var role := MetaRole(user.value);
      if Falsy(role) then false
      else if |allowed| == 0 then true
      else role.s in allowed
  }

  /**
   * No user and no role both refuse, even with an empty list; a role with an
   * empty list is enough; otherwise the list must hold the role exactly.
   */
  lemma UserHasRoleCases(user: Option<RoleUser>, allowed: seq<string>)
    ensures user.None? ==> !UserHasRole(user, allowed)
    ensures user.Some? && Falsy(MetaRole(user.value)) ==> !UserHasRole(user, allowed)
    ensures user.Some? && !Falsy(MetaRole(user.value)) ==>
      (UserHasRole(user, allowed) <==> |allowed| == 0 || MetaRole(user.value).s in allowed)
  {
  }

  /** The user metadata's role is read before the app metadata's. */
  lemma UserMetadataFirst(r: string, app: JsStr, top: JsStr, allowed: seq<string>)
    requires r != ""
    ensures UserHasRole(Some(RoleUser(Str(r), app, top)), allowed) <==> |allowed| == 0 || r in allowed
    ensures UserHasRole(Some(RoleUser(Null, Str(r), top)), allowed) <==> |allowed| == 0 || r in allowed
  {
  }

  /** The comparison is exact: a role differing only in case is refused. */
  lemma CaseSensitive()
    ensures !UserHasRole(Some(RoleUser(Str("admin"), Undef, Undef)), ["Admin"])
  {
    assert "admin" != "Admin" by { assert "admin"[0] != "Admin"[0]; }
  }

  /** What `getUserFromAuthHeader` does: no call, a throw for missing configuration, or a lookup. */
  datatype HeaderLookup<U> = NotCalled | ConfigMissing | Looked(user: Option<U>)

  /** The token: the header with its first 'Bearer ' removed ('' without a header). */
  function BearerToken(header: Option<string>): string
  {
    if header.None? then "" else ReplaceFirst(header.value, "Bearer ", "")
  }

  function UserFromAuthHeader<U>(header: Option<string>, configured: bool, getUser: string -> Option<U>): HeaderLookup<U>
  {
    var token := BearerToken(header);
    if token == "" then NotCalled
    else if !configured then ConfigMissing
    else Looked(getUser(token))
  }

  /** Without a header, or with nothing after 'Bearer ', auth is never asked. */
  lemma NoTokenNoCall<U>(configured: bool, getUser: string -> Option<U>)
    ensures UserFromAuthHeader(None, configured, getUser) == NotCalled
    ensures UserFromAuthHeader(Some("Bearer "), configured, getUser) == NotCalled
    ensures UserFromAuthHeader(Some(""), configured, getUser) == NotCalled
  {
    assert OccursAt("Bearer ", "Bearer ", 0);
    assert IndexOf("Bearer ", "Bearer ") == Some(0);
  }

  /** With a non-empty token the lookup receives exactly the text after 'Bearer '. */
  lemma TokenPassedOn<U>(t: string, getUser: string -> Option<U>)
    requires t != []
    ensures UserFromAuthHeader(Some("Bearer " + t), true, getUser) == Looked(getUser(t))
  {
    var h := "Bearer " + t;
    assert OccursAt(h, "Bearer ", 0) by { assert h[..7] == "Bearer "; }
    assert IndexOf(h, "Bearer ") == Some(0);
    assert h[7..] == t;
    assert BearerToken(Some(h)) == h[..0] + "" + h[7..] == t;
    assert UserFromAuthHeader(Some(h), true, getUser) == Looked(getUser(BearerToken(Some(h))));
  }
}
