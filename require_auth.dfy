/**
 * src/components/RequireAuth.tsx: the client-side gate around protected
 * pages.  Its effect reads the session, optionally checks the user's role
 * against `allowedRoles` ignoring case, and either redirects or marks the
 * component ready; children are rendered only once it is ready.
 *
 * The session and the user are what the Supabase client answered; the
 * router is modelled by the list of paths passed to `router.replace`.
 */
module RequireAuth {
  import opened Text
  import opened Herramientas
  import opened Seqs
  import SupabaseServer

  /** `norm(s)`: `String(s || '').toLowerCase()`. */
  function Norm(s: string): string { Lower(s) }

  /** `user_metadata.role || user.role`, from a user that may be missing. */
  function ClientRole(user: Option<SupabaseServer.RoleUser>): JsStr
  {
    if user.None? then Undef else SupabaseServer.Or(user.value.userMetaRole, user.value.role)
  }

  /** `hasRole`: a truthy role whose normalised form is among the normalised allowed roles. */
  predicate HasRole(allowed: seq<string>, user: Option<SupabaseServer.RoleUser>)
  {
    var role := ClientRole(user);
    if Falsy(role) then false else Norm(role.s) in Map(Norm, allowed)
  }

  /** Whether the effect ends with `setReady(true)`. */
  predicate Admits(session: bool, allowedRoles: Option<seq<string>>, user: Option<SupabaseServer.RoleUser>)
  {
    if !session then false
    else if allowedRoles.Some? && |allowedRoles.value| > 0 then HasRole(allowedRoles.value, user)
    else true
  }

  /** The mounted component: its `ready` state and the redirects it asked the router for. */
  class Gate {
    var ready: bool
    var redirects: seq<string>

    constructor ()
      ensures !ready && redirects == []
    {
      ready := false;
      redirects := [];
    }

    /** Children are shown only when ready; until then the waiting message is. */
    function RendersChildren(): bool
      reads this
    {
      ready
    }

    /** One run of the effect. */
    method RunEffect(session: bool, allowedRoles: Option<seq<string>>,
                     user: Option<SupabaseServer.RoleUser>, redirectTo: string)
      modifies this
      ensures Admits(session, allowedRoles, user) ==> ready && redirects == old(redirects)
      ensures !Admits(session, allowedRoles, user) ==>
        ready == old(ready) && redirects == old(redirects) + [redirectTo]
    {
      if !session {
        redirects := redirects + [redirectTo];
        return;
      }
      if allowedRoles.Some? && |allowedRoles.value| > 0 {
        var role := ClientRole(user);
        var hasRole := if Falsy(role) then false else Norm(role.s) in Map(Norm, allowedRoles.value);
        if !hasRole {
          redirects := redirects + [redirectTo];
          return;
        }
      }
      ready := true;
    }
  }

  /** A freshly mounted gate renders its children after one run exactly when the checks pass. */
  method MountAndRun(session: bool, allowedRoles: Option<seq<string>>,
                     user: Option<SupabaseServer.RoleUser>, redirectTo: string)
    returns (rendered: bool, redirected: seq<string>)
    ensures rendered == Admits(session, allowedRoles, user)
    ensures redirected == if rendered then [] else [redirectTo]
  {
    var g := new Gate();
    g.RunEffect(session, allowedRoles, user, redirectTo);
    rendered := g.RendersChildren();
    redirected := g.redirects;
  }

  /** Without a session nothing is ever rendered, whatever the roles. */
  lemma NoSessionNoChildren(allowedRoles: Option<seq<string>>, user: Option<SupabaseServer.RoleUser>)
    ensures !Admits(false, allowedRoles, user)
  {
  }

  /** An absent or empty role list lets any session through. */
  lemma NoRolesAnySession(user: Option<SupabaseServer.RoleUser>)
    ensures Admits(true, None, user) && Admits(true, Some([]), user)
  {
  }

  /** With a non-empty list a user without a role is turned away. */
  lemma MissingRoleRefused(allowed: seq<string>)
    requires |allowed| > 0
    ensures !Admits(true, Some(allowed), None)
    ensures !Admits(true, Some(allowed), Some(SupabaseServer.RoleUser(Undef, Undef, Null)))
  {
  }

  /** The role found is compared with every allowed role ignoring case. */
  lemma HasRoleIff(allowed: seq<string>, user: Option<SupabaseServer.RoleUser>)
    requires !Falsy(ClientRole(user))
    ensures HasRole(allowed, user) <==> exists k :: 0 <= k < |allowed| && Lower(allowed[k]) == Lower(ClientRole(user).s)
  {
    var m := Map(Norm, allowed);
    if HasRole(allowed, user) {
      var k :| 0 <= k < |m| && m[k] == Norm(ClientRole(user).s);
      assert Lower(allowed[k]) == Lower(ClientRole(user).s);
    }
  }

  /**
   * The client gate ignores case where the server's `userHasRole` does not:
   * a user whose role is 'admin' passes `allowedRoles = ['Admin']` here and
   * fails it there.
   */
  lemma CaseInsensitiveUnlikeServer()
    ensures var u := SupabaseServer.RoleUser(Str("admin"), Undef, Undef);
      Admits(true, Some(["Admin"]), Some(u)) && !SupabaseServer.UserHasRole(Some(u), ["Admin"])
  {
    var u := SupabaseServer.RoleUser(Str("admin"), Undef, Undef);
    assert Lower("Admin") == "admin";
    assert Map(Norm, ["Admin"])[0] == "admin";
    SupabaseServer.CaseSensitive();
  }

  /** The client reads `user.role` where the server reads `app_metadata.role`. */
  lemma RoleSourcesDiffer()
    ensures var u := SupabaseServer.RoleUser(Undef, Str("admin"), Undef);
      !Admits(true, Some(["admin"]), Some(u)) && SupabaseServer.UserHasRole(Some(u), ["admin"])
  {
  }
}
