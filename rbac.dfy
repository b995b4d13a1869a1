/**
 * Role-based access: the rank of each role, the permission test built on
 * it, which signed-in sessions may open which page, and each role's
 * landing page.
 */
module Rbac {
  import opened Wrappers
  import opened Strings
  import opened Models

  /** The signed-in user as the session carries it: an id and a role name (any string). */
  datatype Session = Session(userId: Id, role: string)

  /** `roleHierarchy`: admin 3, supervisor 2, agent 1. */
  function Rank(r: Role): (n: int)
    ensures 1 <= n <= 3
  {
    match r
    case Admin => 3
    case Supervisor => 2
    case Agent => 1
  }

  /** `hasPermission(userRole, requiredRole)` */
  predicate HasPermission(userRole: Role, requiredRole: Role) {
    Rank(userRole) >= Rank(requiredRole)
  }

  /** The hierarchy spelt out: admin may act as anyone, supervisor as supervisor or agent, agent only as agent. */
  lemma HasPermissionTable(u: Role, r: Role)
    ensures HasPermission(u, r) <==> u == Admin || u == r || (u == Supervisor && r == Agent)
  {
  }

  /** The permission relation is a total order on the three roles. */
  lemma HasPermissionOrder(a: Role, b: Role, c: Role)
    ensures HasPermission(a, a)
    ensures HasPermission(a, b) && HasPermission(b, c) ==> HasPermission(a, c)
    ensures HasPermission(a, b) && HasPermission(b, a) ==> a == b
    ensures HasPermission(a, b) || HasPermission(b, a)
  {
  }

  /** `canAccessRoute(session, route)`; `None` is the absent session. */
  predicate CanAccessRoute(session: Option<Session>, route: string) {
    if session.None? then false
    else
      var role := session.value.role;
      if role == "admin" then true
      else if StartsWith(route, "/admin") then role == "admin"
      else if StartsWith(route, "/supervisor") then role == "supervisor" || role == "admin"
      else if StartsWith(route, "/agent") then role == "agent" || role == "supervisor" || role == "admin"
      else true
  }

  /** What each kind of route allows, case by case. */
  lemma CanAccessRouteCases(session: Option<Session>, route: string)
    ensures session.None? ==> !CanAccessRoute(session, route)
    ensures session.Some? && session.value.role == "admin" ==> CanAccessRoute(session, route)
    ensures session.Some? && StartsWith(route, "/admin")
      ==> (CanAccessRoute(session, route) <==> session.value.role == "admin")
    ensures session.Some? && StartsWith(route, "/supervisor")
      ==> (CanAccessRoute(session, route) <==> session.value.role in ["supervisor", "admin"])
    ensures session.Some? && StartsWith(route, "/agent")
      ==> (CanAccessRoute(session, route) <==> ParseRole(session.value.role).Some?)
    ensures session.Some?
      && !StartsWith(route, "/admin") && !StartsWith(route, "/supervisor") && !StartsWith(route, "/agent")
      ==> CanAccessRoute(session, route)
  {
    if session.Some? && StartsWith(route, "/admin") {
      assert !StartsWith(route, "/supervisor") && !StartsWith(route, "/agent") by {
        assert route[1] == 'a' && route[2] == 'd';
      }
    }
    if session.Some? && StartsWith(route, "/supervisor") {
      assert !StartsWith(route, "/agent") by {
        assert route[1] == 's';
      }
    }
  }

  /** On the three dashboards, route access for a known role is exactly the rank test. */
  lemma CanAccessRouteIsHierarchy(s: Session, route: string, r: Role)
    requires ParseRole(s.role) == Some(r)
    ensures StartsWith(route, "/admin") ==> (CanAccessRoute(Some(s), route) <==> HasPermission(r, Admin))
    ensures StartsWith(route, "/supervisor") ==> (CanAccessRoute(Some(s), route) <==> HasPermission(r, Supervisor))
    ensures StartsWith(route, "/agent") ==> (CanAccessRoute(Some(s), route) <==> HasPermission(r, Agent))
  {
    CanAccessRouteCases(Some(s), route);
  }

  /** `getDashboardPath(role)`: a role's landing page, `/` for an unknown role. */
  function DashboardPath(role: string): (path: string)
    ensures ParseRole(role).None? ==> path == "/"
    ensures ParseRole(role).Some? ==> path == "/" + role
  {
    if role == "admin" then "/admin"
    else if role == "supervisor" then "/supervisor"
    else if role == "agent" then "/agent"
    else "/"
  }

  /** Every signed-in user may open the page they are sent to after signing in. */
  lemma DashboardAlwaysAccessible(s: Session)
    ensures CanAccessRoute(Some(s), DashboardPath(s.role))
  {
    var p := DashboardPath(s.role);
    if s.role == "supervisor" {
      assert !StartsWith(p, "/admin") by {
        assert p[2] == 'u';
      }
    } else if s.role == "agent" {
      assert !StartsWith(p, "/admin") && !StartsWith(p, "/supervisor") by {
        assert p[1] == 'a' && p[2] == 'g';
      }
    }
  }
}
