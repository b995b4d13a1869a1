/**
 * The supervisor dashboard's summary cards: the number of customers over
 * all agents, the number of pending follow-ups, and per agent the number
 * of its pending follow-ups, all computed from the two statistics
 * listings (`/api/agent-stats` and `/api/pending-follow-ups`). A listing
 * whose request failed stays empty.
 */
module SupervisorPage {
  import opened Wrappers
  import opened Models
  import opened Queries

  /** `agentStats.reduce((sum, agent) => sum + agent.customerCount, 0)` */
  function TotalCustomers(stats: seq<AgentCustomerCount>): (n: nat)
    ensures stats == [] ==> n == 0
    ensures forall k :: 0 <= k < |stats| ==> stats[k].customerCount <= n
  {
    if stats == [] then 0
    else
      var p := stats[..|stats| - 1];
      assert forall k :: 0 <= k < |p| ==> p[k] == stats[k];
      TotalCustomers(p) + stats[|stats| - 1].customerCount
  }

  /** The sum of the pending counts, taken in order. */
  function SumPending(stats: seq<AgentPending>): (n: nat)
    ensures stats == [] ==> n == 0
    ensures forall k :: 0 <= k < |stats| ==> stats[k].pendingCount <= n
  {
    if stats == [] then 0
    else
      var p := stats[..|stats| - 1];
      assert forall k :: 0 <= k < |p| ==> p[k] == stats[k];
      SumPending(p) + stats[|stats| - 1].pendingCount
  }

  /** The loop computing `totalPendingFollowUps`. */
  method TotalPendingFollowUps(stats: seq<AgentPending>) returns (total: nat)
    ensures total == SumPending(stats)
  {
    total := 0;
    for k := 0 to |stats|
      invariant total == SumPending(stats[..k])
    {
      assert stats[..k + 1][..k] == stats[..k];
      total := total + stats[k].pendingCount;
    }
    assert stats[..|stats|] == stats;
  }

  /** `pendingFollowUpsMap` as a value: each agent's count, a later row for the same agent overwriting an earlier one. */
  function PendingMap(stats: seq<AgentPending>): (m: map<Id, nat>)
    ensures forall a :: a in m <==> exists k :: 0 <= k < |stats| && stats[k].agentId == a
    ensures forall k :: 0 <= k < |stats| && (forall j :: k < j < |stats| ==> stats[j].agentId != stats[k].agentId)
                        ==> m[stats[k].agentId] == stats[k].pendingCount
  {
    if stats == [] then map[]
    else
      var p := stats[..|stats| - 1];
      assert forall k :: 0 <= k < |p| ==> p[k] == stats[k];
      PendingMap(p)[stats[|stats| - 1].agentId := stats[|stats| - 1].pendingCount]
  }

  /** The loop filling `pendingFollowUpsMap`. */
  method BuildPendingMap(stats: seq<AgentPending>) returns (m: map<Id, nat>)
    ensures m == PendingMap(stats)
  {
    m := map[];
    for k := 0 to |stats|
      invariant m == PendingMap(stats[..k])
    {
      assert stats[..k + 1][..k] == stats[..k];
      m := m[stats[k].agentId := stats[k].pendingCount];
    }
    assert stats[..|stats|] == stats;
  }

  /** `pendingFollowUpsMap.get(agent.agentId) || 0`: the count shown on an agent's card. */
  function CardPending(m: map<Id, nat>, agentId: Id): (n: nat)
    ensures agentId in m ==> n == m[agentId]
    ensures agentId !in m ==> n == 0
  {
    GetOrZero(m, agentId)
  }

  /** The agents' ids, in listing order. */
  function AgentIds(users: seq<User>): (r: seq<Id>)
    ensures |r| == |Agents(users)|
    ensures forall k :: 0 <= k < |r| ==> r[k] == Agents(users)[k].id
  {
    var agents := Agents(users);
    seq(|agents|, k requires 0 <= k < |agents| => agents[k].id)
  }

  /** Agents have distinct ids. */
  predicate DistinctAgents(db: Db) {
    forall i, j :: 0 <= i < j < |Agents(db.users)| ==> Agents(db.users)[i].id != Agents(db.users)[j].id
  }

  /** The customer counts of rows that count per listed agent sum as the counts do. */
  lemma {:induction false} TotalCustomersOfRows(rows: seq<AgentCustomerCount>, ids: seq<Id>, customers: seq<Customer>)
    requires |rows| == |ids|
    requires forall k :: 0 <= k < |rows| ==> rows[k].customerCount == CountWhere(customers, AgentIdOfCustomer, ids[k])
    ensures TotalCustomers(rows) == SumCounts(ids, customers, AgentIdOfCustomer)
  {
    if rows != [] {
      var n := |rows| - 1;
      TotalCustomersOfRows(rows[..n], ids[..n], customers);
      assert ids == ids[..n] + [ids[n]];
      SumCountsAddKey(ids[..n], ids[n], customers, AgentIdOfCustomer);
    }
  }

  /** The pending counts of rows that count per listed agent sum as the counts do. */
  lemma {:induction false} SumPendingOfRows(rows: seq<AgentPending>, ids: seq<Id>, open: seq<Interaction>)
    requires |rows| == |ids|
    requires forall k :: 0 <= k < |rows| ==> rows[k].pendingCount == CountWhere(open, AgentIdOfInteraction, ids[k])
    ensures SumPending(rows) == SumCounts(ids, open, AgentIdOfInteraction)
  {
    if rows != [] {
      var n := |rows| - 1;
      SumPendingOfRows(rows[..n], ids[..n], open);
      assert ids == ids[..n] + [ids[n]];
      SumCountsAddKey(ids[..n], ids[n], open, AgentIdOfInteraction);
    }
  }

  /** Distinct agents have distinct ids in the id list. */
  lemma DistinctAgentIds(db: Db)
    requires DistinctAgents(db)
    ensures forall i, j :: 0 <= i < j < |AgentIds(db.users)| ==> AgentIds(db.users)[i] != AgentIds(db.users)[j]
  {
  }

  /**
   * When every customer belongs to an agent (and agents' ids are
   * distinct), the total-customers card shows the number of customers.
   */
  lemma TotalCustomersCountsEveryCustomer(db: Db)
    requires DistinctAgents(db)
    requires forall j :: 0 <= j < |db.customers| ==> db.customers[j].agentId in AgentIds(db.users)
    ensures TotalCustomers(CustomerCountByAgent(db)) == |db.customers|
  {
    TotalCustomersOfRows(CustomerCountByAgent(db), AgentIds(db.users), db.customers);
    DistinctAgentIds(db);
    SumCountsCoverAll(AgentIds(db.users), db.customers, AgentIdOfCustomer);
  }

  /**
   * When every open latest interaction was recorded by an agent, the
   * pending card shows the number of customers whose latest interaction
   * still has an open follow-up.
   */
  lemma TotalPendingCountsOpenCustomers(db: Db)
    requires DistinctAgents(db)
    requires forall j :: 0 <= j < |OpenLatest(db.interactions)| ==> OpenLatest(db.interactions)[j].agentId in AgentIds(db.users)
    ensures SumPending(PendingFollowUpsByAgent(db)) == |OpenLatest(db.interactions)|
  {
    SumPendingOfRows(PendingFollowUpsByAgent(db), AgentIds(db.users), OpenLatest(db.interactions));
    DistinctAgentIds(db);
    SumCountsCoverAll(AgentIds(db.users), OpenLatest(db.interactions), AgentIdOfInteraction);
  }

  /** Each agent's card shows that agent's own pending count. */
  lemma CardShowsAgentsPending(db: Db, k: nat)
    requires DistinctAgents(db)
    requires k < |Agents(db.users)|
    ensures CardPending(PendingMap(PendingFollowUpsByAgent(db)), Agents(db.users)[k].id)
            == CountWhere(OpenLatest(db.interactions), AgentIdOfInteraction, Agents(db.users)[k].id)
  {
    var rows := PendingFollowUpsByAgent(db);
    assert forall j :: k < j < |rows| ==> rows[j].agentId != rows[k].agentId;
  }
}
