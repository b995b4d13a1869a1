/**
 * The navigation bar: a fixed list of four links, each naming the roles
 * that see it, filtered by the signed-in user's role. Without a session the
 * bar is not rendered at all.
 */
module Navigation {
  import opened Wrappers
  import opened Strings
  import opened Queries
  import Rbac

  datatype NavItem = NavItem(href: string, title: string, roles: seq<string>)

  const HOME := NavItem("/", "Home", ["admin", "supervisor", "agent"])
  const AGENT_DASHBOARD := NavItem("/agent", "Agent Dashboard", ["agent", "supervisor", "admin"])
  const SUPERVISOR_DASHBOARD := NavItem("/supervisor", "Supervisor Dashboard", ["supervisor", "admin"])
  const ADMIN_DASHBOARD := NavItem("/admin", "Admin Dashboard", ["admin"])

  /** The fixed list, in display order. */
  const NAV_ITEMS: seq<NavItem> := [HOME, AGENT_DASHBOARD, SUPERVISOR_DASHBOARD, ADMIN_DASHBOARD]

  /** `item.roles.includes(userRole)` */
  function ShownTo(role: string): NavItem -> bool {
    (item: NavItem) => role in item.roles
  }

  /** The links shown to a session; `None` when nothing is rendered. */
  function Items(session: Option<Rbac.Session>): (r: Option<seq<NavItem>>)
    ensures r.None? <==> session.None?
    ensures r.Some? ==> forall k :: 0 <= k < |r.value| ==> r.value[k] in NAV_ITEMS && session.value.role in r.value[k].roles
    ensures r.Some? ==> forall k :: 0 <= k < |NAV_ITEMS| && session.value.role in NAV_ITEMS[k].roles ==> NAV_ITEMS[k] in r.value
  {
    if session.None? then None else Some(Filter(NAV_ITEMS, ShownTo(session.value.role)))
  }

  /** The link at position `k` when the role sees it, nothing otherwise. */
  function Keep(role: string, k: nat): seq<NavItem>
    requires k < |NAV_ITEMS|
  {
    if role in NAV_ITEMS[k].roles then [NAV_ITEMS[k]] else []
  }

  /** The filter's first step: the head is kept in front exactly when it passes. */
  lemma FilterCons<T>(x: T, t: seq<T>, p: T -> bool)
    ensures Filter([x] + t, p) == (if p(x) then [x] else []) + Filter(t, p)
  {
    assert ([x] + t)[0] == x && ([x] + t)[1..] == t;
  }

  /** Filtering a four-element list keeps each element in its place when it passes. */
  lemma FilterFour<T>(a: T, b: T, c: T, d: T, p: T -> bool)
    ensures Filter([a, b, c, d], p)
            == (if p(a) then [a] else []) + ((if p(b) then [b] else []) + ((if p(c) then [c] else []) + (if p(d) then [d] else [])))
  {
    FilterCons(d, [], p);
    assert [d] == [d] + [];
    assert Filter([d], p) == (if p(d) then [d] else []);
    FilterCons(c, [d], p);
    assert [c, d] == [c] + [d];
    FilterCons(b, [c, d], p);
    assert [b, c, d] == [b] + [c, d];
    FilterCons(a, [b, c, d], p);
    assert [a, b, c, d] == [a] + [b, c, d];
  }

  /** The filter over the fixed list, unrolled: each link in its place when the role sees it. */
  lemma ItemsUnrolled(s: Rbac.Session)
    ensures Items(Some(s)).value == Keep(s.role, 0) + (Keep(s.role, 1) + (Keep(s.role, 2) + Keep(s.role, 3)))
  {
    var n := NAV_ITEMS;
    assert n == [n[0], n[1], n[2], n[3]];
    FilterFour(n[0], n[1], n[2], n[3], ShownTo(s.role));
  }

  /** An admin sees all four links. */
  lemma AdminItems(s: Rbac.Session)
    requires s.role == "admin"
    ensures Items(Some(s)) == Some(NAV_ITEMS)
  {
    ItemsUnrolled(s);
    assert HOME.roles[0] == s.role && AGENT_DASHBOARD.roles[2] == s.role;
    assert SUPERVISOR_DASHBOARD.roles[1] == s.role && ADMIN_DASHBOARD.roles[0] == s.role;
    assert Keep(s.role, 0) + (Keep(s.role, 1) + (Keep(s.role, 2) + Keep(s.role, 3)))
        == [HOME, AGENT_DASHBOARD, SUPERVISOR_DASHBOARD, ADMIN_DASHBOARD] == NAV_ITEMS;
  }

  /** A supervisor sees every link but the admin dashboard, in order. */
  lemma SupervisorItems(s: Rbac.Session)
    requires s.role == "supervisor"
    ensures Items(Some(s)) == Some(NAV_ITEMS[..3])
  {
    ItemsUnrolled(s);
    assert HOME.roles[1] == s.role && AGENT_DASHBOARD.roles[1] == s.role && SUPERVISOR_DASHBOARD.roles[0] == s.role;
    assert |ADMIN_DASHBOARD.roles[0]| != |s.role|;
    assert Keep(s.role, 0) + (Keep(s.role, 1) + (Keep(s.role, 2) + Keep(s.role, 3)))
        == [HOME, AGENT_DASHBOARD, SUPERVISOR_DASHBOARD] == NAV_ITEMS[..3];
  }

  /** An agent sees Home and the agent dashboard. */
  lemma AgentItems(s: Rbac.Session)
    requires s.role == "agent"
    ensures Items(Some(s)) == Some(NAV_ITEMS[..2])
  {
    ItemsUnrolled(s);
    assert HOME.roles[2] == s.role && AGENT_DASHBOARD.roles[0] == s.role;
    assert s.role[1] != SUPERVISOR_DASHBOARD.roles[0][1] && s.role[1] != SUPERVISOR_DASHBOARD.roles[1][1];
    assert s.role[1] != ADMIN_DASHBOARD.roles[0][1];
    assert Keep(s.role, 0) + (Keep(s.role, 1) + (Keep(s.role, 2) + Keep(s.role, 3)))
        == [HOME, AGENT_DASHBOARD] == NAV_ITEMS[..2];
  }

  /** Any other role sees no link, though the bar is rendered. */
  lemma UnknownRoleItems(s: Rbac.Session)
    requires s.role != "admin" && s.role != "supervisor" && s.role != "agent"
    ensures Items(Some(s)) == Some([])
  {
    ItemsUnrolled(s);
  }

  /** The four links have different targets. */
  lemma HrefsDiffer()
    ensures HOME.href != AGENT_DASHBOARD.href && HOME.href != SUPERVISOR_DASHBOARD.href && HOME.href != ADMIN_DASHBOARD.href
    ensures AGENT_DASHBOARD.href != SUPERVISOR_DASHBOARD.href && AGENT_DASHBOARD.href != ADMIN_DASHBOARD.href
    ensures SUPERVISOR_DASHBOARD.href != ADMIN_DASHBOARD.href
  {
    assert AGENT_DASHBOARD.href[2] != ADMIN_DASHBOARD.href[2];
  }

  /**
   * For the three known roles the bar shows exactly the links the route
   * guard lets the session open.
   */
  lemma ShownLinksAreOpenable(s: Rbac.Session, k: nat)
    requires s.role in ["admin", "supervisor", "agent"]
    requires k < |NAV_ITEMS|
    ensures NAV_ITEMS[k] in Items(Some(s)).value <==> Rbac.CanAccessRoute(Some(s), NAV_ITEMS[k].href)
  {
    HrefsDiffer();
    var href := NAV_ITEMS[k].href;
    Rbac.CanAccessRouteCases(Some(s), href);
    if k == 0 {
      assert !StartsWith(href, "/admin") && !StartsWith(href, "/supervisor") && !StartsWith(href, "/agent");
    } else if k == 1 {
      assert StartsWith(href, "/agent") && !StartsWith(href, "/admin") && !StartsWith(href, "/supervisor");
    } else if k == 2 {
      assert StartsWith(href, "/supervisor") && !StartsWith(href, "/admin");
    } else {
      assert StartsWith(href, "/admin");
    }
    if s.role == "admin" {
      AdminItems(s);
    } else if s.role == "supervisor" {
      SupervisorItems(s);
    } else {
      AgentItems(s);
    }
  }
}
