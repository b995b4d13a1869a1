/**
 * The admin dashboard's figures, computed in the browser from the three
 * listings it fetches: how many customers have an open or a completed
 * follow-up or were called in the last week, how many customers are new,
 * how many users and agents there are, and the agents with the most
 * calls, each with the rounded average length of their calls.
 *
 * Each listing is `None` when its reply did not carry `success` and an
 * array. The cutoff "one week ago" is a parameter.
 */
module AdminAnalytics {
  import opened Wrappers
  import opened Strings
  import opened Models
  import opened Queries

  // ---------------------------------------------------------------------
  // Customers with an open, a completed or a recent follow-up
  // ---------------------------------------------------------------------

  /** The three sets the interaction loop fills. */
  datatype Bucket = OpenFollowUp | CompletedFollowUp | RecentSince(cutoff: Millis)

  predicate InBucket(b: Bucket, i: Interaction) {
    match b
    case OpenFollowUp => IsOpen(i.followUpStatus)
    case CompletedFollowUp => i.followUpStatus == Completed
    case RecentSince(cutoff) => i.date > cutoff
  }

  /** The customers with at least one interaction in bucket `b`, collected in turn; never more of them than interactions. */
  function CustomersIn(s: seq<Interaction>, b: Bucket): (r: set<Id>)
    ensures |r| <= |s|
  {
    if s == [] then {}
    else
      var rest := CustomersIn(s[..|s| - 1], b);
      if InBucket(b, s[|s| - 1]) then rest + {s[|s| - 1].customerId} else rest
  }

  /** One more interaction adds its customer exactly when it falls in the bucket. */
  lemma CustomersInSnoc(s: seq<Interaction>, k: nat, b: Bucket)
    requires k < |s|
    ensures CustomersIn(s[..k + 1], b) == CustomersIn(s[..k], b) + (if InBucket(b, s[k]) then {s[k].customerId} else {})
  {
    assert s[..k + 1][..k] == s[..k];
  }

  /** A customer is in a bucket's set exactly when one of its interactions falls in that bucket. */
  lemma {:induction false} CustomersInMembers(s: seq<Interaction>, b: Bucket, x: Id)
    ensures x in CustomersIn(s, b) <==> exists k :: 0 <= k < |s| && InBucket(b, s[k]) && s[k].customerId == x
  {
    if s != [] {
      var n := |s| - 1;
      var p := s[..n];
      CustomersInMembers(p, b, x);
      if x in CustomersIn(s, b) {
        if x in CustomersIn(p, b) {
          var k :| 0 <= k < |p| && InBucket(b, p[k]) && p[k].customerId == x;
          assert s[k] == p[k];
        } else {
          assert InBucket(b, s[n]) && s[n].customerId == x;
        }
      }
      if exists k :: 0 <= k < |s| && InBucket(b, s[k]) && s[k].customerId == x {
        var k :| 0 <= k < |s| && InBucket(b, s[k]) && s[k].customerId == x;
        if k < n {
          assert p[k] == s[k];
        }
      }
    }
  }

  /**
   * The `forEach` over the interactions. An interaction's follow-up counts
   * as open or, failing that, as completed; recency is judged separately.
   */
  method FollowUpCustomers(s: seq<Interaction>, cutoff: Millis) returns (pending: set<Id>, completed: set<Id>, recent: set<Id>)
    ensures pending == CustomersIn(s, OpenFollowUp)
    ensures completed == CustomersIn(s, CompletedFollowUp)
    ensures recent == CustomersIn(s, RecentSince(cutoff))
  {
    pending, completed, recent := {}, {}, {};
    for k := 0 to |s|
      invariant pending == CustomersIn(s[..k], OpenFollowUp)
      invariant completed == CustomersIn(s[..k], CompletedFollowUp)
      invariant recent == CustomersIn(s[..k], RecentSince(cutoff))
    {
      CustomersInSnoc(s, k, OpenFollowUp);
      CustomersInSnoc(s, k, CompletedFollowUp);
      CustomersInSnoc(s, k, RecentSince(cutoff));
      var i := s[k];
      if i.followUpStatus == Pending || i.followUpStatus == InProgress {
        pending := pending + {i.customerId};
      } else if i.followUpStatus == Completed {
        completed := completed + {i.customerId};
      }
      if i.date > cutoff {
        recent := recent + {i.customerId};
      }
    }
    assert s[..|s|] == s;
  }

  /**
   * The open count looks at every interaction, not only a customer's
   * latest: a customer whose old follow-up is still pending but whose
   * latest is completed counts as both pending and completed.
   */
  lemma StaleFollowUpCountsTwice(s: seq<Interaction>, older: nat, latest: nat)
    requires older < latest < |s|
    requires s[older].customerId == s[latest].customerId
    requires s[older].followUpStatus == Pending && s[latest].followUpStatus == Completed
    ensures s[latest].customerId in CustomersIn(s, OpenFollowUp) * CustomersIn(s, CompletedFollowUp)
  {
    assert InBucket(OpenFollowUp, s[older]);
    CustomersInMembers(s, OpenFollowUp, s[latest].customerId);
    assert InBucket(CompletedFollowUp, s[latest]);
    CustomersInMembers(s, CompletedFollowUp, s[latest].customerId);
  }

  /** A later cutoff never adds recent customers. */
  lemma {:induction false} RecentShrinks(s: seq<Interaction>, early: Millis, late: Millis)
    requires early <= late
    ensures CustomersIn(s, RecentSince(late)) <= CustomersIn(s, RecentSince(early))
  {
    if s != [] {
      RecentShrinks(s[..|s| - 1], early, late);
    }
  }

  // ---------------------------------------------------------------------
  // Calls and durations per agent
  // ---------------------------------------------------------------------

  /** `ix.callDuration || 0` */
  function DurationOrZero(i: Interaction): (d: int)
    ensures i.callDuration.Some? ==> d == i.callDuration.value
    ensures i.callDuration.None? ==> d == 0
  {
    if i.callDuration.Some? then i.callDuration.value else 0
  }

  /** The summed duration of an agent's calls. */
  function TotalDuration(s: seq<Interaction>, agentId: Id): (t: int)
    ensures (forall j :: 0 <= j < |s| ==> s[j].agentId != agentId) ==> t == 0
  {
    if s == [] then 0
    else TotalDuration(s[..|s| - 1], agentId) + (if s[|s| - 1].agentId == agentId then DurationOrZero(s[|s| - 1]) else 0)
  }

  /** The keys of `agentMap` in insertion order: each agent when its first interaction is added. */
  function AgentOrder(s: seq<Interaction>): seq<Id> {
    if s == [] then []
    else
      var order := AgentOrder(s[..|s| - 1]);
      if s[|s| - 1].agentId in order then order else order + [s[|s| - 1].agentId]
  }

  /** An agent is a key exactly when it has an interaction. */
  lemma {:induction false} AgentOrderMembers(s: seq<Interaction>, a: Id)
    ensures a in AgentOrder(s) <==> exists k :: 0 <= k < |s| && s[k].agentId == a
  {
    if s != [] {
      var n := |s| - 1;
      var p := s[..n];
      AgentOrderMembers(p, a);
      if a in AgentOrder(p) {
        var k :| 0 <= k < |p| && p[k].agentId == a;
        assert s[k] == p[k];
      }
      if exists k :: 0 <= k < |s| && s[k].agentId == a {
        var k :| 0 <= k < |s| && s[k].agentId == a;
        if k < n {
          assert p[k] == s[k];
        }
      }
    }
  }

  /** No agent is a key twice. */
  lemma {:induction false} AgentOrderDistinct(s: seq<Interaction>)
    ensures forall i, j :: 0 <= i < j < |AgentOrder(s)| ==> AgentOrder(s)[i] != AgentOrder(s)[j]
  {
    if s != [] {
      AgentOrderDistinct(s[..|s| - 1]);
    }
  }

  /** One more interaction appends its agent to the key order when the agent is new. */
  lemma AgentOrderSnoc(s: seq<Interaction>, k: nat)
    requires k < |s|
    ensures AgentOrder(s[..k + 1])
            == if s[k].agentId in AgentOrder(s[..k]) then AgentOrder(s[..k]) else AgentOrder(s[..k]) + [s[k].agentId]
  {
    assert s[..k + 1][..k] == s[..k];
  }

  datatype Totals = Totals(calls: nat, totalDuration: int)

  /** The entry of an agent before its interaction is added: a fresh one when the key is new. */
  function Prior(m: map<Id, Totals>, a: Id): Totals {
    if a in m then m[a] else Totals(0, 0)
  }

  /** The agent map after adding one interaction's call and duration to its agent. */
  function AddCall(m: map<Id, Totals>, i: Interaction): map<Id, Totals> {
    var t := Prior(m, i.agentId);
    m[i.agentId := Totals(t.calls + 1, t.totalDuration + DurationOrZero(i))]
  }

  /** The entries of `agentMap` after the interactions `s`, added in turn. */
  function AgentMap(s: seq<Interaction>): map<Id, Totals> {
    if s == [] then map[] else AddCall(AgentMap(s[..|s| - 1]), s[|s| - 1])
  }

  /** One more interaction adds a call, and its duration, to its agent's entry, creating the entry when the key is new. */
  lemma AgentMapSnoc(s: seq<Interaction>, k: nat)
    requires k < |s|
    ensures var m, a := AgentMap(s[..k]), s[k].agentId;
      AgentMap(s[..k + 1]) == m[a := Totals(Prior(m, a).calls + 1, Prior(m, a).totalDuration + DurationOrZero(s[k]))]
  {
    assert s[..k + 1][..k] == s[..k];
  }

  /** An agent has an entry exactly when it is among the keys in order. */
  lemma {:induction false} AgentMapKeys(s: seq<Interaction>, a: Id)
    ensures a in AgentMap(s) <==> a in AgentOrder(s)
  {
    if s != [] {
      var n := |s| - 1;
      AgentMapKeys(s[..n], a);
      assert s[..n + 1] == s;
      AgentOrderSnoc(s, n);
      AgentMapSnoc(s, n);
    }
  }

  /** An agent's entry counts its calls and adds up their durations. */
  lemma {:induction false} AgentMapTotals(s: seq<Interaction>, a: Id)
    requires a in AgentMap(s)
    ensures AgentMap(s)[a] == Totals(CountWhere(s, AgentIdOfInteraction, a), TotalDuration(s, a))
  {
    var n := |s| - 1;
    var p := s[..n];
    assert s[..n + 1] == s;
    AgentMapSnoc(s, n);
    assert CountWhere(s, AgentIdOfInteraction, a)
           == CountWhere(p, AgentIdOfInteraction, a) + (if s[n].agentId == a then 1 else 0);
    assert TotalDuration(s, a) == TotalDuration(p, a) + (if s[n].agentId == a then DurationOrZero(s[n]) else 0);
    if a in AgentMap(p) {
      AgentMapTotals(p, a);
    } else {
      AgentMapKeys(p, a);
      AgentOrderMembers(p, a);
      assert forall j :: 0 <= j < n ==> p[j].agentId != a;
      assert CountWhere(p, AgentIdOfInteraction, a) == 0;
      assert TotalDuration(p, a) == 0;
    }
  }

  /**
   * The loop building `agentMap`. A JavaScript object lists its keys in
   * insertion order, so the object is modelled as that order together
   * with the map of its entries. A new key's entry starts at zero calls.
   */
  method BuildAgentMap(s: seq<Interaction>) returns (order: seq<Id>, m: map<Id, Totals>)
    ensures order == AgentOrder(s)
    ensures forall a :: a in m <==> a in order
    ensures forall a :: a in m ==> m[a] == Totals(CountWhere(s, AgentIdOfInteraction, a), TotalDuration(s, a))
  {
    order, m := [], map[];
    for k := 0 to |s|
      invariant order == AgentOrder(s[..k])
      invariant m == AgentMap(s[..k])
    {
      AgentOrderSnoc(s, k);
      AgentMapSnoc(s, k);
      var a := s[k].agentId;
      AgentMapKeys(s[..k], a);
      if a !in m {
        order := order + [a];
      }
      var entry := Prior(m, a);
      m := m[a := Totals(entry.calls + 1, entry.totalDuration + DurationOrZero(s[k]))];
    }
    assert s[..|s|] == s;
    forall a
      ensures a in m <==> a in order
      ensures a in m ==> m[a] == Totals(CountWhere(s, AgentIdOfInteraction, a), TotalDuration(s, a))
    {
      AgentMapKeys(s, a);
      if a in m {
        AgentMapTotals(s, a);
      }
    }
  }

  // ---------------------------------------------------------------------
  // The performance rows
  // ---------------------------------------------------------------------

  datatype PerfRow = PerfRow(agentId: Id, agentName: string, calls: nat, avgDurationSec: int)

  /** `Math.round(total / calls)` for a positive count, else 0: the integer nearest the mean, halves rounded up. */
  function RoundedAverage(total: int, calls: nat): (r: int)
    ensures calls > 0 ==> 2 * calls * r - calls <= 2 * total < 2 * calls * r + calls
    ensures calls == 0 ==> r == 0
  {
    if calls == 0 then 0
    else
      var q := (2 * total + calls) / (2 * calls);
      assert 2 * total + calls == (2 * calls) * q + (2 * total + calls) % (2 * calls);
      q
  }

  /** `Object.fromEntries` over the agents: a later agent with the same id overwrites an earlier one. */
  function NameById(users: seq<User>): map<Id, string> {
    if users == [] then map[]
    else
      var rest := NameById(users[..|users| - 1]);
      var last := users[|users| - 1];
      if last.role == Agent then rest[last.id := last.name] else rest
  }

  /** Exactly the agents' ids have a name. */
  lemma {:induction false} NameByIdKeys(users: seq<User>, id: Id)
    ensures id in NameById(users) <==> exists k :: 0 <= k < |users| && users[k].role == Agent && users[k].id == id
  {
    if users != [] {
      var n := |users| - 1;
      var p := users[..n];
      NameByIdKeys(p, id);
      if id in NameById(p) {
        var k :| 0 <= k < |p| && p[k].role == Agent && p[k].id == id;
        assert users[k] == p[k];
      }
      if exists k :: 0 <= k < |users| && users[k].role == Agent && users[k].id == id {
        var k :| 0 <= k < |users| && users[k].role == Agent && users[k].id == id;
        if k < n {
          assert p[k] == users[k];
        }
      }
    }
  }

  /** An agent's id names that agent when no later agent has the same id. */
  lemma {:induction false} NameByIdLast(users: seq<User>, k: nat)
    requires k < |users| && users[k].role == Agent
    requires forall j :: k < j < |users| && users[j].role == Agent ==> users[j].id != users[k].id
    ensures users[k].id in NameById(users) && NameById(users)[users[k].id] == users[k].name
  {
    var n := |users| - 1;
    var p := users[..n];
    if k < n {
      NameByIdLast(p, k);
    }
  }

  /** `nameById[agentId] || agentId.slice(0, 6)` */
  function DisplayName(names: map<Id, string>, agentId: Id): (n: string)
    ensures agentId in names && names[agentId] != "" ==> n == names[agentId]
    ensures (agentId !in names || names[agentId] == "") ==> n == Prefix(agentId, 6)
  {
    if agentId in names && names[agentId] != "" then names[agentId] else Prefix(agentId, 6)
  }

  /** One row per agent with calls, in key order. */
  function Entries(s: seq<Interaction>, names: map<Id, string>): (r: seq<PerfRow>)
    ensures |r| == |AgentOrder(s)|
    ensures forall k :: 0 <= k < |r| ==>
      && r[k].agentId == AgentOrder(s)[k]
      && r[k].calls == CountWhere(s, AgentIdOfInteraction, r[k].agentId)
      && r[k].agentName == DisplayName(names, r[k].agentId)
      && r[k].avgDurationSec == RoundedAverage(TotalDuration(s, r[k].agentId), r[k].calls)
  {
    var order := AgentOrder(s);
    seq(|order|, k requires 0 <= k < |order| =>
      var a := order[k];
      var calls := CountWhere(s, AgentIdOfInteraction, a);
      PerfRow(a, DisplayName(names, a), calls, RoundedAverage(TotalDuration(s, a), calls)))
  }

  /** Most calls first. */
  predicate ByCallsDesc(s: seq<PerfRow>) {
    forall i, j :: 0 <= i < j < |s| ==> s[i].calls >= s[j].calls
  }

  /** Puts `x` after every row with at least as many calls, keeping earlier rows first on ties. */
  function InsertByCalls(x: PerfRow, s: seq<PerfRow>): (r: seq<PerfRow>)
    ensures forall e :: e in r <==> e in s || e == x
    ensures ByCallsDesc(s) ==> ByCallsDesc(r)
  {
    if s == [] then [x]
    else if s[0].calls < x.calls then [x] + s
    else
      var rest := InsertByCalls(x, s[1..]);
      assert s == [s[0]] + s[1..];
      assert ByCallsDesc(s) ==> ByCallsDesc([s[0]] + rest) by {
        if ByCallsDesc(s) {
          assert forall i :: 0 <= i < |rest| ==> rest[i] in s[1..] || rest[i] == x;
          assert forall e :: e in s[1..] ==> s[0].calls >= e.calls;
        }
      }
      [s[0]] + rest
  }

  /** Inserting adds exactly the one row. */
  lemma {:induction false} InsertByCallsPermutes(x: PerfRow, s: seq<PerfRow>)
    ensures multiset(InsertByCalls(x, s)) == multiset(s) + multiset{x}
  {
    if s != [] && s[0].calls >= x.calls {
      InsertByCallsPermutes(x, s[1..]);
      assert s == [s[0]] + s[1..];
    }
  }

  /** `.sort((a, b) => b.calls - a.calls)`, an insertion sort taking the rows in turn. */
  function SortByCalls(s: seq<PerfRow>): (r: seq<PerfRow>)
    ensures multiset(r) == multiset(s)
    ensures ByCallsDesc(r)
  {
    if s == [] then []
    else
      assert s == s[..|s| - 1] + [s[|s| - 1]];
      InsertByCallsPermutes(s[|s| - 1], SortByCalls(s[..|s| - 1]));
      InsertByCalls(s[|s| - 1], SortByCalls(s[..|s| - 1]))
  }

  /** The number of rows shown. */
  const TOP_AGENTS := 8

  /** `.slice(0, 8)` of the sorted rows. */
  function TopPerformers(entries: seq<PerfRow>): (r: seq<PerfRow>)
    ensures |r| == if |entries| < TOP_AGENTS then |entries| else TOP_AGENTS
    ensures ByCallsDesc(r)
    ensures forall e :: e in r ==> e in entries
  {
    var sorted := SortByCalls(entries);
    assert forall e :: e in sorted ==> e in multiset(entries);
    if |sorted| <= TOP_AGENTS then sorted
    else
      assert forall e :: e in sorted[..TOP_AGENTS] ==> e in sorted;
      sorted[..TOP_AGENTS]
  }

  /** A row left out of the chart had no more calls than any row shown, and eight rows are shown. */
  lemma TopPerformersAreTop(entries: seq<PerfRow>, e: PerfRow)
    requires e in entries && e !in TopPerformers(entries)
    ensures |TopPerformers(entries)| == TOP_AGENTS
    ensures forall t :: t in TopPerformers(entries) ==> t.calls >= e.calls
  {
    var sorted := SortByCalls(entries);
    assert e in multiset(sorted);
    var j :| 0 <= j < |sorted| && sorted[j] == e;
    assert j >= TOP_AGENTS;
    var top := sorted[..TOP_AGENTS];
    forall t | t in top
      ensures t.calls >= e.calls
    {
      var i :| 0 <= i < TOP_AGENTS && top[i] == t;
    }
  }

  /** Every interaction is one call of exactly one agent row. */
  lemma {:induction false} CallsAddUp(s: seq<Interaction>)
    ensures SumCounts(AgentOrder(s), s, AgentIdOfInteraction) == |s|
  {
    AgentOrderDistinct(s);
    forall j | 0 <= j < |s|
      ensures AgentIdOfInteraction(s[j]) in AgentOrder(s)
    {
      AgentOrderMembers(s, s[j].agentId);
    }
    SumCountsCoverAll(AgentOrder(s), s, AgentIdOfInteraction);
  }

  /** The performance rows, before the top eight are taken, hold every interaction. */
  lemma EntriesCountEveryCall(s: seq<Interaction>, names: map<Id, string>)
    ensures SumCounts(AgentOrder(s), s, AgentIdOfInteraction) == |s|
    ensures forall k :: 0 <= k < |Entries(s, names)| ==> Entries(s, names)[k].calls > 0
  {
    CallsAddUp(s);
    var e := Entries(s, names);
    forall k | 0 <= k < |e|
      ensures e[k].calls > 0
    {
      var a := AgentOrder(s)[k];
      AgentOrderMembers(s, a);
      var j :| 0 <= j < |s| && s[j].agentId == a;
      assert AgentIdOfInteraction(s[j]) == a;
    }
  }

  // ---------------------------------------------------------------------
  // The dashboard
  // ---------------------------------------------------------------------

  datatype Analytics = Analytics(
    totalUsers: nat,
    pendingFollowUps: nat,
    completedFollowUps: nat,
    totalProspects: nat,
    activeAgents: nat,
    recentCustomers: nat)

  /** Customers created after the cutoff. */
  function CreatedAfter(cutoff: Millis): Customer -> bool {
    (c: Customer) => c.createdAt > cutoff
  }

  /** The agents' names, or none when the user listing failed. */
  function NamesOf(users: Option<seq<User>>): map<Id, string> {
    if users.Some? then NameById(users.value) else map[]
  }

  /**
   * `fetchData`: the figures and the performance rows. A failed listing
   * leaves its figures at zero (and the rows empty).
   */
  method Load(users: Option<seq<User>>, customers: Option<seq<Customer>>, interactions: Option<seq<Interaction>>,
              cutoff: Millis)
    returns (a: Analytics, perf: seq<PerfRow>)
    ensures a.totalUsers == (if users.Some? then |users.value| else 0)
    ensures a.activeAgents == (if users.Some? then |Agents(users.value)| else 0)
    ensures a.totalProspects == (if customers.Some? then |Filter(customers.value, CreatedAfter(cutoff))| else 0)
    ensures interactions.None? ==> a.pendingFollowUps == a.completedFollowUps == a.recentCustomers == 0 && perf == []
    ensures interactions.Some? ==>
      && a.pendingFollowUps == |CustomersIn(interactions.value, OpenFollowUp)|
      && a.completedFollowUps == |CustomersIn(interactions.value, CompletedFollowUp)|
      && a.recentCustomers == |CustomersIn(interactions.value, RecentSince(cutoff))|
      && perf == TopPerformers(Entries(interactions.value, NamesOf(users)))
  {
    var pendingCount, completedCount, recentCount := 0, 0, 0;
    perf := [];
    if interactions.Some? {
      var s := interactions.value;
      var pending, completed, recent := FollowUpCustomers(s, cutoff);
      pendingCount, completedCount, recentCount := |pending|, |completed|, |recent|;
      var order, m := BuildAgentMap(s);
      var names := NamesOf(users);
      var entries := seq(|order|, k requires 0 <= k < |order| =>
        var agent := order[k];
        PerfRow(agent, DisplayName(names, agent), m[agent].calls, RoundedAverage(m[agent].totalDuration, m[agent].calls)));
      assert entries == Entries(s, names);
      perf := TopPerformers(entries);
    }
    var prospects := if customers.Some? then |Filter(customers.value, CreatedAfter(cutoff))| else 0;
    var agents := if users.Some? then |Agents(users.value)| else 0;
    var total := if users.Some? then |users.value| else 0;
    a := Analytics(total, pendingCount, completedCount, prospects, agents, recentCount);
  }
}
