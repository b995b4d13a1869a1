/**
 * `/api/agent-stats` and `/api/pending-follow-ups`: two read-only GET
 * endpoints for supervisors and admins, each handing back one roll-up of
 * the store unchanged.
 */
module StatsRoutes {
  import opened Wrappers
  import opened Models
  import opened Api
  import Rbac
  import opened Queries

  /** The gate both endpoints share: signed in, and supervisor or admin; `fault` is a failure of the store. */
  function Gated<T>(session: Option<Rbac.Session>, fault: bool, data: T): (r: Reply<T>)
    ensures r.Status() == 401 <==> session.None?
    ensures r.Status() == 403 <==> session.Some? && session.value.role !in {"supervisor", "admin"}
    ensures r.Status() == 500 <==> session.Some? && session.value.role in {"supervisor", "admin"} && fault
    ensures r.Ok? <==> session.Some? && session.value.role in {"supervisor", "admin"} && !fault
    ensures r.Ok? ==> r.data == data && r.note.None?
  {
    if session.None? then Unauthorized()
    else if !HasRole(session.value, {"supervisor", "admin"}) then Forbidden()
    else if fault then ServerError()
    else Ok(data, None)
  }

  /** GET /api/agent-stats: the customer count of every agent. */
  function AgentStats(session: Option<Rbac.Session>, db: Db, fault: bool): Reply<seq<AgentCustomerCount>> {
    Gated(session, fault, CustomerCountByAgent(db))
  }

  /** GET /api/pending-follow-ups: the open follow-ups of every agent. */
  function PendingFollowUps(session: Option<Rbac.Session>, db: Db, fault: bool): Reply<seq<AgentPending>> {
    Gated(session, fault, PendingFollowUpsByAgent(db))
  }

  /** A supervisor or admin gets one row per agent, in user order, with that agent's customer count. */
  lemma AgentStatsRows(s: Rbac.Session, db: Db)
    requires s.role in {"supervisor", "admin"}
    ensures AgentStats(Some(s), db, false).Ok?
    ensures var r := AgentStats(Some(s), db, false).data;
      && |r| == |Agents(db.users)|
      && forall k :: 0 <= k < |r| ==>
           r[k].agentId == Agents(db.users)[k].id
           && r[k].customerCount == CountWhere(db.customers, AgentIdOfCustomer, r[k].agentId)
  {
  }

  /** A supervisor or admin gets one row per agent, in user order, with that agent's open follow-ups. */
  lemma PendingRows(s: Rbac.Session, db: Db)
    requires s.role in {"supervisor", "admin"}
    ensures PendingFollowUps(Some(s), db, false).Ok?
    ensures var r := PendingFollowUps(Some(s), db, false).data;
      && |r| == |Agents(db.users)|
      && forall k :: 0 <= k < |r| ==>
           r[k].agentId == Agents(db.users)[k].id
           && r[k].pendingCount == CountWhere(OpenLatest(db.interactions), AgentIdOfInteraction, r[k].agentId)
  {
  }
}
