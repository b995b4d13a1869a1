/**
 * The request gate run before every page: static files, API calls and the
 * login page pass untouched; the three dashboards need a signed token, and
 * the admin and supervisor dashboards also need a suitable role.
 */
module Middleware {
  import opened Wrappers
  import opened Strings
  import opened Models
  import Rbac

  /** The decoded session token; its role claim may be missing. */
  datatype Token = Token(role: Option<string>)

  /** What the gate answers: let the request through, or redirect it. */
  datatype Decision =
    | Next
    | RedirectToLogin(callbackUrl: string)
    | RedirectHome

  /** `protectedPrefixes` */
  const PROTECTED_PREFIXES: seq<string> := ["/agent", "/supervisor", "/admin"]

  /** API routes, build assets, the two static images and the login page are never gated. */
  predicate Skipped(pathname: string) {
    Contains(pathname, "/api/") || Contains(pathname, "/_next/") || Contains(pathname, "/favicon.ico")
    || Contains(pathname, "/logo.jpg") || pathname == "/login"
  }

  /** `protectedPrefixes.some((p) => pathname.startsWith(p))` */
  predicate RequiresAuth(pathname: string) {
    exists i :: 0 <= i < |PROTECTED_PREFIXES| && StartsWith(pathname, PROTECTED_PREFIXES[i])
  }

  /** `role === r` for a role claim that may be missing. */
  predicate RoleIs(role: Option<string>, r: string) {
    role.Some? && role.value == r
  }

  /** `middleware(req)`; `token` is what `getToken` yields for the request. */
  function Gate(pathname: string, token: Option<Token>): (d: Decision)
    ensures d.RedirectToLogin? ==> d.callbackUrl == pathname
  {
    if Skipped(pathname) then Next
    else if !RequiresAuth(pathname) then Next
    else if token.None? then RedirectToLogin(pathname)
    else if StartsWith(pathname, "/admin") && !RoleIs(token.value.role, "admin") then RedirectHome
    else if StartsWith(pathname, "/supervisor")
      && !RoleIs(token.value.role, "supervisor") && !RoleIs(token.value.role, "admin") then RedirectHome
    else Next
  }

  /** A path is gated exactly when it starts with one of the three dashboard prefixes. */
  lemma RequiresAuthPrefixes(pathname: string)
    ensures RequiresAuth(pathname)
      <==> StartsWith(pathname, "/agent") || StartsWith(pathname, "/supervisor") || StartsWith(pathname, "/admin")
  {
    if StartsWith(pathname, "/agent") {
      assert StartsWith(pathname, PROTECTED_PREFIXES[0]);
    } else if StartsWith(pathname, "/supervisor") {
      assert StartsWith(pathname, PROTECTED_PREFIXES[1]);
    } else if StartsWith(pathname, "/admin") {
      assert StartsWith(pathname, PROTECTED_PREFIXES[2]);
    }
  }

  /** Which requests pass, and where the others are sent. */
  lemma GateCases(pathname: string, token: Option<Token>)
    ensures Skipped(pathname) ==> Gate(pathname, token) == Next
    ensures !(StartsWith(pathname, "/agent") || StartsWith(pathname, "/supervisor") || StartsWith(pathname, "/admin"))
      ==> Gate(pathname, token) == Next
    ensures !Skipped(pathname) && RequiresAuth(pathname) && token.None?
      ==> Gate(pathname, token) == RedirectToLogin(pathname)
    ensures !Skipped(pathname) && StartsWith(pathname, "/admin") && token.Some?
      ==> (Gate(pathname, token) == Next <==> RoleIs(token.value.role, "admin"))
    ensures !Skipped(pathname) && StartsWith(pathname, "/supervisor") && token.Some?
      ==> (Gate(pathname, token) == Next
           <==> RoleIs(token.value.role, "supervisor") || RoleIs(token.value.role, "admin"))
    ensures !Skipped(pathname) && StartsWith(pathname, "/agent") && token.Some? ==> Gate(pathname, token) == Next
    ensures Gate(pathname, token) != Next ==> RequiresAuth(pathname) && !Skipped(pathname)
  {
    RequiresAuthPrefixes(pathname);
    if StartsWith(pathname, "/admin") {
      assert !StartsWith(pathname, "/supervisor") by {
        assert pathname[1] == 'a';
      }
    }
    if StartsWith(pathname, "/agent") {
      assert !StartsWith(pathname, "/supervisor") && !StartsWith(pathname, "/admin") by {
        assert pathname[1] == 'a' && pathname[2] == 'g';
      }
    }
  }

  /**
   * For a token carrying one of the three known roles, the gate on the
   * admin and supervisor dashboards agrees with the route-access rule;
   * the agent dashboard is let through for any signed-in user.
   */
  lemma GateAgreesWithRouteAccess(pathname: string, id: Id, r: Role)
    requires !Skipped(pathname)
    requires StartsWith(pathname, "/supervisor") || StartsWith(pathname, "/admin")
    ensures Gate(pathname, Some(Token(Some(RoleName(r))))) == Next
      <==> Rbac.CanAccessRoute(Some(Rbac.Session(id, RoleName(r))), pathname)
  {
    GateCases(pathname, Some(Token(Some(RoleName(r)))));
    Rbac.CanAccessRouteCases(Some(Rbac.Session(id, RoleName(r))), pathname);
  }
}
