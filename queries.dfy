/**
 * The meaning of the data-access layer's queries over an in-memory store:
 * three collections held as sequences in insertion order. Each query the
 * service sends to the database is stated here as a function; the service
 * class proves its methods against these functions.
 */
module Queries {
  import opened Wrappers
  import opened Models

  /** The three collections. */
  datatype Db = Db(users: seq<User>, customers: seq<Customer>, interactions: seq<Interaction>)

  function UserId(u: User): Id { u.id }
  function CustomerId(c: Customer): Id { c.id }
  function InteractionId(i: Interaction): Id { i.id }

  // ---------------------------------------------------------------------
  // findOne / deleteOne / findOneAndUpdate on one collection
  // ---------------------------------------------------------------------

  /** The position of the first record whose key is `id` (`findOne({ _id })`). */
  function IndexOf<T>(s: seq<T>, key: T -> Id, id: Id): (r: Option<nat>)
    ensures r.Some? ==> r.value < |s| && key(s[r.value]) == id
    ensures r.Some? ==> forall j :: 0 <= j < r.value ==> key(s[j]) != id
    ensures r.None? <==> forall j :: 0 <= j < |s| ==> key(s[j]) != id
  {
    if s == [] then None
    else if key(s[0]) == id then Some(0)
    else
      match IndexOf(s[1..], key, id)
      case None => None
      case Some(k) => Some(k + 1)
  }

  /** The first record whose key is `id`, if any. */
  function FindFirst<T>(s: seq<T>, key: T -> Id, id: Id): (r: Option<T>)
    ensures r.Some? ==> r.value in s && key(r.value) == id
    ensures r.None? <==> forall j :: 0 <= j < |s| ==> key(s[j]) != id
  {
    match IndexOf(s, key, id)
    case None => None
    case Some(i) => Some(s[i])
  }

  /** `deleteOne({ _id })`: the collection without its first record keyed `id`, and whether one was removed. */
  function DeleteFirst<T>(s: seq<T>, key: T -> Id, id: Id): (r: (seq<T>, bool))
    ensures r.1 <==> exists j :: 0 <= j < |s| && key(s[j]) == id
    ensures !r.1 ==> r.0 == s
    ensures r.1 ==> |r.0| == |s| - 1 && multiset(r.0) + multiset{s[IndexOf(s, key, id).value]} == multiset(s)
    ensures r.1 ==> var i := IndexOf(s, key, id).value; r.0 == s[..i] + s[i + 1..]
  {
    match IndexOf(s, key, id)
    case None => (s, false)
    case Some(i) =>
      assert s == s[..i] + [s[i]] + s[i + 1..];
      (s[..i] + s[i + 1..], true)
  }

  /** `findOneAndUpdate({ _id }, ...)`: the first record keyed `id` replaced by `f` of it; the others untouched. */
  function UpdateFirst<T>(s: seq<T>, key: T -> Id, id: Id, f: T -> T): (r: (seq<T>, Option<T>))
    ensures |r.0| == |s|
    ensures r.1.None? <==> forall j :: 0 <= j < |s| ==> key(s[j]) != id
    ensures r.1.None? ==> r.0 == s
    ensures r.1.Some? ==> var i := IndexOf(s, key, id).value;
      r.0 == s[i := f(s[i])] && r.1.value == f(s[i])
  {
    match IndexOf(s, key, id)
    case None => (s, None)
    case Some(i) => (s[i := f(s[i])], Some(f(s[i])))
  }

  // ---------------------------------------------------------------------
  // find({ field }) and counting
  // ---------------------------------------------------------------------

  /** `find(filter)`: the records satisfying `p`, in collection order. */
  function Filter<T>(s: seq<T>, p: T -> bool): (r: seq<T>)
    ensures |r| <= |s|
    ensures forall k :: 0 <= k < |r| ==> r[k] in s && p(r[k])
    ensures forall k :: 0 <= k < |s| && p(s[k]) ==> s[k] in r
  {
    if s == [] then []
    else if p(s[0]) then [s[0]] + Filter(s[1..], p)
    else Filter(s[1..], p)
  }

  /** Filtering keeps nothing when no record satisfies the test. */
  lemma {:induction false} FilterNone<T>(s: seq<T>, p: T -> bool)
    requires forall k :: 0 <= k < |s| ==> !p(s[k])
    ensures Filter(s, p) == []
  {
    if s != [] {
      FilterNone(s[1..], p);
    }
  }

  /** Filtering a list extended by one record extends the result by that record when it passes. */
  lemma {:induction false} FilterAppend<T>(s: seq<T>, x: T, p: T -> bool)
    ensures Filter(s + [x], p) == Filter(s, p) + (if p(x) then [x] else [])
  {
    if s == [] {
      assert [x][1..] == [];
    } else {
      assert (s + [x])[1..] == s[1..] + [x];
      FilterAppend(s[1..], x, p);
    }
  }

  /** A record that passes lands at the index given by how many records before it pass. */
  lemma {:induction false} FilterPosition<T>(s: seq<T>, p: T -> bool, i: nat)
    requires i < |s| && p(s[i])
    ensures |Filter(s[..i], p)| < |Filter(s, p)|
    ensures Filter(s, p)[|Filter(s[..i], p)|] == s[i]
  {
    var init := s[..|s| - 1];
    assert s == init + [s[|s| - 1]];
    FilterAppend(init, s[|s| - 1], p);
    if i < |s| - 1 {
      FilterPosition(init, p, i);
      assert init[..i] == s[..i];
    } else {
      assert init == s[..i];
    }
  }

  /** Filtering keeps the order: of two passing records, the earlier one comes first in the result. */
  lemma FilterKeepsOrder<T>(s: seq<T>, p: T -> bool, i: nat, j: nat)
    requires i < j < |s| && p(s[i]) && p(s[j])
    ensures var r := Filter(s, p);
      var a, b := |Filter(s[..i], p)|, |Filter(s[..j], p)|;
      a < b < |r| && r[a] == s[i] && r[b] == s[j]
  {
    FilterPosition(s, p, i);
    FilterPosition(s, p, j);
    FilterPosition(s[..j], p, i);
    assert s[..j][..i] == s[..i];
  }

  /** How many records have key `id`. */
  function CountWhere<T>(s: seq<T>, key: T -> Id, id: Id): (n: nat)
    ensures n <= |s|
    ensures n == 0 <==> forall j :: 0 <= j < |s| ==> key(s[j]) != id
  {
    if s == [] then 0
    else CountWhere(s[..|s| - 1], key, id) + (if key(s[|s| - 1]) == id then 1 else 0)
  }

  /**
   * The counting map a loop builds with `acc[k] = (acc[k] || 0) + 1` for
   * each record in turn: a key is present once it has been seen.
   */
  function Tally<T>(s: seq<T>, key: T -> Id): (m: map<Id, nat>)
    ensures forall k :: k in m ==> m[k] > 0
  {
    if s == [] then map[]
    else
      var m := Tally(s[..|s| - 1], key);
      var k := key(s[|s| - 1]);
      m[k := (if k in m then m[k] else 0) + 1]
  }

  /** The summed counts of the given keys. */
  function SumCounts<T>(ids: seq<Id>, s: seq<T>, key: T -> Id): nat {
    if ids == [] then 0 else CountWhere(s, key, ids[0]) + SumCounts(ids[1..], s, key)
  }

  /** One more record adds one to the sum when its key is listed, once. */
  lemma {:induction false} SumCountsAddRecord<T>(ids: seq<Id>, s: seq<T>, key: T -> Id, x: T)
    requires forall i, j :: 0 <= i < j < |ids| ==> ids[i] != ids[j]
    ensures SumCounts(ids, s + [x], key) == SumCounts(ids, s, key) + (if key(x) in ids then 1 else 0)
  {
    if ids != [] {
      assert (s + [x])[..|s|] == s;
      assert ids[0] !in ids[1..];
      SumCountsAddRecord(ids[1..], s, key, x);
    }
  }

  /** Summing over one more key adds that key's count. */
  lemma {:induction false} SumCountsAddKey<T>(ids: seq<Id>, a: Id, s: seq<T>, key: T -> Id)
    ensures SumCounts(ids + [a], s, key) == SumCounts(ids, s, key) + CountWhere(s, key, a)
  {
    if ids != [] {
      assert (ids + [a])[1..] == ids[1..] + [a];
      SumCountsAddKey(ids[1..], a, s, key);
    }
  }

  /** When every record's key is listed, once, the counts add up to the number of records. */
  lemma {:induction false} SumCountsCoverAll<T>(ids: seq<Id>, s: seq<T>, key: T -> Id)
    requires forall i, j :: 0 <= i < j < |ids| ==> ids[i] != ids[j]
    requires forall j :: 0 <= j < |s| ==> key(s[j]) in ids
    ensures SumCounts(ids, s, key) == |s|
  {
    if s == [] {
      SumCountsOfNothing(ids, key);
    } else {
      var p := s[..|s| - 1];
      assert s == p + [s[|s| - 1]];
      SumCountsCoverAll(ids, p, key);
      SumCountsAddRecord(ids, p, key, s[|s| - 1]);
    }
  }

  lemma {:induction false} SumCountsOfNothing<T>(ids: seq<Id>, key: T -> Id)
    ensures SumCounts(ids, [], key) == 0
  {
    if ids != [] {
      SumCountsOfNothing(ids[1..], key);
    }
  }

  /** `m.get(k) || 0` */
  function GetOrZero(m: map<Id, nat>, k: Id): nat {
    if k in m then m[k] else 0
  }

  /** The counting map holds, for every key, the number of records carrying it (absent means 0). */
  lemma {:induction false} TallyCounts<T>(s: seq<T>, key: T -> Id, id: Id)
    ensures GetOrZero(Tally(s, key), id) == CountWhere(s, key, id)
  {
    if s != [] {
      TallyCounts(s[..|s| - 1], key, id);
    }
  }

  // ---------------------------------------------------------------------
  // Sorting by date, newest first (`sort({ date: -1 })`)
  // ---------------------------------------------------------------------

  predicate SortedByDateDesc(s: seq<Interaction>) {
    forall i, j :: 0 <= i < j < |s| ==> s[i].date >= s[j].date
  }

  /** Puts `x` in front of the first record that is not newer than it. */
  function InsertByDate(x: Interaction, s: seq<Interaction>): (r: seq<Interaction>)
    ensures |r| == |s| + 1
    ensures multiset(r) == multiset(s) + multiset{x}
  {
    if s == [] || s[0].date <= x.date then [x] + s
    else
      assert s == [s[0]] + s[1..];
      [s[0]] + InsertByDate(x, s[1..])
  }

  /** An insertion sort, newest first; records with equal dates keep their collection order. */
  function SortByDateDesc(s: seq<Interaction>): (r: seq<Interaction>)
    ensures |r| == |s|
    ensures multiset(r) == multiset(s)
  {
    if s == [] then []
    else
      assert s == [s[0]] + s[1..];
      InsertByDate(s[0], SortByDateDesc(s[1..]))
  }

  lemma {:induction false} InsertByDateSorted(x: Interaction, s: seq<Interaction>)
    requires SortedByDateDesc(s)
    ensures SortedByDateDesc(InsertByDate(x, s))
  {
    if s != [] && s[0].date > x.date {
      InsertByDateSorted(x, s[1..]);
      var r := InsertByDate(x, s[1..]);
      assert multiset(r) == multiset(s[1..]) + multiset{x};
      forall k | 0 <= k < |r|
        ensures s[0].date >= r[k].date
      {
        assert r[k] in multiset(r);
        if r[k] != x {
          assert r[k] in multiset(s[1..]);
          var j :| 0 <= j < |s[1..]| && s[1..][j] == r[k];
          assert s[j + 1] == r[k];
        }
      }
    }
  }

  /** The sort yields the same records, newest first. */
  lemma {:induction false} SortByDateDescSorted(s: seq<Interaction>)
    ensures SortedByDateDesc(SortByDateDesc(s))
    ensures multiset(SortByDateDesc(s)) == multiset(s)
  {
    if s != [] {
      SortByDateDescSorted(s[1..]);
      InsertByDateSorted(s[0], SortByDateDesc(s[1..]));
    }
  }
  /** A record is in the sorted result of a `find` exactly when it is stored and passes the test. */
  lemma SortedFilterMembers(s: seq<Interaction>, p: Interaction -> bool, x: Interaction)
    ensures x in SortByDateDesc(Filter(s, p)) <==> x in s && p(x)
  {
    var f := Filter(s, p);
    assert x in SortByDateDesc(f) <==> x in multiset(SortByDateDesc(f));
    if x in s && p(x) {
      var j :| 0 <= j < |s| && s[j] == x;
    }
    if x in f {
      var k :| 0 <= k < |f| && f[k] == x;
    }
  }


  // ---------------------------------------------------------------------
  // Latest interaction of a customer
  // ---------------------------------------------------------------------

  /**
   * `$match customerId, $sort date -1, $limit 1`: one of the customer's
   * interactions with the greatest date; among equal dates, the earliest
   * in the collection.
   */
  function LatestFor(s: seq<Interaction>, customerId: Id): (r: Option<Interaction>)
    ensures r.None? <==> forall j :: 0 <= j < |s| ==> s[j].customerId != customerId
    ensures r.Some? ==> r.value in s && r.value.customerId == customerId
    ensures r.Some? ==> forall j :: 0 <= j < |s| && s[j].customerId == customerId ==> s[j].date <= r.value.date
  {
    if s == [] then None
    else
      var rest := LatestFor(s[1..], customerId);
      if s[0].customerId != customerId then rest
      else if rest.None? || rest.value.date <= s[0].date then Some(s[0])
      else rest
  }

  /** Each customer id, once, in order of first appearance. */
  function Distinct(ids: seq<Id>): (r: seq<Id>)
    ensures forall x :: x in r <==> x in ids
    ensures forall i, j :: 0 <= i < j < |r| ==> r[i] != r[j]
  {
    if ids == [] then []
    else
      var rest := Distinct(ids[..|ids| - 1]);
      if ids[|ids| - 1] in rest then rest else rest + [ids[|ids| - 1]]
  }

  function CustomerIdsOf(s: seq<Interaction>): (r: seq<Id>)
    ensures |r| == |s|
    ensures forall k :: 0 <= k < |s| ==> r[k] == s[k].customerId
  {
    seq(|s|, k requires 0 <= k < |s| => s[k].customerId)
  }

  /** Every customer id that occurs has a latest interaction. */
  lemma OccurringIdsHaveLatest(s: seq<Interaction>)
    ensures forall x :: x in CustomerIdsOf(s) ==> LatestFor(s, x).Some?
  {
    forall x | x in CustomerIdsOf(s)
      ensures LatestFor(s, x).Some?
    {
      var j :| 0 <= j < |s| && CustomerIdsOf(s)[j] == x;
      assert s[j].customerId == x;
    }
  }

  /**
   * `$sort { customerId: 1, date: -1 }, $group { _id: customerId, $first }`:
   * the latest interaction of every customer that has one.
   */
  function LatestPerCustomer(s: seq<Interaction>): (r: seq<Interaction>)
    ensures |r| == |Distinct(CustomerIdsOf(s))|
    ensures forall k :: 0 <= k < |r| ==> Some(r[k]) == LatestFor(s, Distinct(CustomerIdsOf(s))[k])
  {
    OccurringIdsHaveLatest(s);
    var ids := Distinct(CustomerIdsOf(s));
    seq(|ids|, k requires 0 <= k < |ids| => LatestFor(s, ids[k]).value)
  }

  /** Exactly one latest interaction per customer: every customer with an interaction, and no customer twice. */
  lemma LatestPerCustomerOnePerCustomer(s: seq<Interaction>)
    ensures forall i :: i in s ==> exists k :: 0 <= k < |LatestPerCustomer(s)| && LatestPerCustomer(s)[k].customerId == i.customerId
    ensures forall a, b :: 0 <= a < b < |LatestPerCustomer(s)| ==> LatestPerCustomer(s)[a].customerId != LatestPerCustomer(s)[b].customerId
  {
    var r := LatestPerCustomer(s);
    var ids := Distinct(CustomerIdsOf(s));
    forall i | i in s
      ensures exists k :: 0 <= k < |r| && r[k].customerId == i.customerId
    {
      var j :| 0 <= j < |s| && s[j] == i;
      assert CustomerIdsOf(s)[j] == i.customerId;
      assert i.customerId in ids;
      var k :| 0 <= k < |ids| && ids[k] == i.customerId;
      assert r[k].customerId == ids[k];
    }
    forall a, b | 0 <= a < b < |r|
      ensures r[a].customerId != r[b].customerId
    {
      assert r[a].customerId == ids[a] && r[b].customerId == ids[b];
    }
  }

  // ---------------------------------------------------------------------
  // Roll-ups per agent
  // ---------------------------------------------------------------------

  function AgentIdOfCustomer(c: Customer): Id { c.agentId }
  function AgentIdOfInteraction(i: Interaction): Id { i.agentId }
  predicate IsAgent(u: User) { u.role == Agent }
  predicate HasOpenFollowUp(i: Interaction) { IsOpen(i.followUpStatus) }

  /** `users.find({ role: 'agent' })` */
  function Agents(users: seq<User>): (r: seq<User>)
    ensures forall k :: 0 <= k < |r| ==> r[k] in users && r[k].role == Agent
    ensures forall k :: 0 <= k < |users| && users[k].role == Agent ==> users[k] in r
  {
    Filter(users, IsAgent)
  }

  /** One row of getCustomerCountByAgent. */
  datatype AgentCustomerCount = AgentCustomerCount(agentId: Id, agentName: string, customerCount: nat)

  /** One row of getPendingFollowUpsByAgent. */
  datatype AgentPending = AgentPending(agentId: Id, pendingCount: nat)

  /** Every agent, in user order, with the number of customers it owns (0 when it owns none). */
  function CustomerCountByAgent(db: Db): (r: seq<AgentCustomerCount>)
    ensures |r| == |Agents(db.users)|
    ensures forall k :: 0 <= k < |r| ==>
      (r[k].agentId == Agents(db.users)[k].id
       && r[k].agentName == Agents(db.users)[k].name
       && r[k].customerCount == CountWhere(db.customers, AgentIdOfCustomer, r[k].agentId))
  {
    var agents := Agents(db.users);
    seq(|agents|, k requires 0 <= k < |agents| =>
      AgentCustomerCount(agents[k].id, agents[k].name, CountWhere(db.customers, AgentIdOfCustomer, agents[k].id)))
  }

  /** The latest interaction of each customer, kept only when its follow-up is still open. */
  function OpenLatest(interactions: seq<Interaction>): (r: seq<Interaction>)
    ensures forall k :: 0 <= k < |r| ==> r[k] in LatestPerCustomer(interactions) && IsOpen(r[k].followUpStatus)
  {
    Filter(LatestPerCustomer(interactions), HasOpenFollowUp)
  }

  /** Every agent, in user order, with the number of customers whose latest interaction is its and open. */
  function PendingFollowUpsByAgent(db: Db): (r: seq<AgentPending>)
    ensures |r| == |Agents(db.users)|
    ensures forall k :: 0 <= k < |r| ==>
      (r[k].agentId == Agents(db.users)[k].id
       && r[k].pendingCount == CountWhere(OpenLatest(db.interactions), AgentIdOfInteraction, r[k].agentId))
  {
    var agents := Agents(db.users);
    var open := OpenLatest(db.interactions);
    seq(|agents|, k requires 0 <= k < |agents| =>
      AgentPending(agents[k].id, CountWhere(open, AgentIdOfInteraction, agents[k].id)))
  }

  /**
   * Only the latest interaction of a customer counts: when every
   * customer's latest interaction is completed or closed, no agent has a
   * pending follow-up, whatever earlier interactions say.
   */
  lemma {:induction false} PendingIgnoresEarlierInteractions(db: Db)
    requires forall c :: c in CustomerIdsOf(db.interactions) ==> !IsOpen(LatestFor(db.interactions, c).value.followUpStatus)
    ensures forall k :: 0 <= k < |PendingFollowUpsByAgent(db)| ==> PendingFollowUpsByAgent(db)[k].pendingCount == 0
  {
    var open := OpenLatest(db.interactions);
    var latest := LatestPerCustomer(db.interactions);
    var ids := Distinct(CustomerIdsOf(db.interactions));
    OccurringIdsHaveLatest(db.interactions);
    forall k | 0 <= k < |latest|
      ensures !HasOpenFollowUp(latest[k])
    {
      assert ids[k] in CustomerIdsOf(db.interactions);
    }
    FilterNone(latest, HasOpenFollowUp);
  }

  // ---------------------------------------------------------------------
  // Joins
  // ---------------------------------------------------------------------

  /** One row of getCustomersWithLatestInteraction: the customer, its latest interaction, its agent's name. */
  datatype CustomerRow = CustomerRow(customer: Customer, latestInteraction: Option<Interaction>, agentName: Option<string>)

  /** `$lookup users by agentId, $arrayElemAt ['$agent.name', 0]` */
  function AgentNameOf(users: seq<User>, agentId: Id): (r: Option<string>)
    ensures r.Some? <==> exists j :: 0 <= j < |users| && users[j].id == agentId
  {
    match FindFirst(users, UserId, agentId)
    case None => None
    case Some(u) => Some(u.name)
  }

  /** `if (agentId) filter.agentId = agentId`: an absent or empty id selects every customer. */
  predicate MatchesAgentFilter(c: Customer, agentId: Option<Id>) {
    agentId.None? || agentId.value == "" || c.agentId == agentId.value
  }

  function RowOf(db: Db, c: Customer): CustomerRow {
    CustomerRow(c, LatestFor(db.interactions, c.id), AgentNameOf(db.users, c.agentId))
  }

  /** getCustomersWithLatestInteraction */
  function CustomersWithLatestInteraction(db: Db, agentId: Option<Id>): (r: seq<CustomerRow>)
    ensures |r| <= |db.customers|
    ensures forall k :: 0 <= k < |r| ==> r[k].customer in db.customers && MatchesAgentFilter(r[k].customer, agentId)
  {
    var selected := Filter(db.customers, (c: Customer) => MatchesAgentFilter(c, agentId));
    seq(|selected|, k requires 0 <= k < |selected| => RowOf(db, selected[k]))
  }

  /** No matching customer is dropped, and each row carries that customer's latest interaction. */
  lemma CustomersWithLatestInteractionComplete(db: Db, agentId: Option<Id>, c: Customer)
    requires c in db.customers && MatchesAgentFilter(c, agentId)
    ensures exists k ::
      (0 <= k < |CustomersWithLatestInteraction(db, agentId)|
       && CustomersWithLatestInteraction(db, agentId)[k] == RowOf(db, c))
  {
    var selected := Filter(db.customers, (c: Customer) => MatchesAgentFilter(c, agentId));
    var j :| 0 <= j < |db.customers| && db.customers[j] == c;
    assert c in selected;
    var k :| 0 <= k < |selected| && selected[k] == c;
    assert CustomersWithLatestInteraction(db, agentId)[k] == RowOf(db, c);
  }

  /** A row's interaction: absent exactly when the customer has none, otherwise one of the newest. */
  lemma RowLatestInteraction(db: Db, c: Customer, i: Interaction)
    requires i in db.interactions && i.customerId == c.id
    ensures RowOf(db, c).latestInteraction.Some?
    ensures RowOf(db, c).latestInteraction.value.customerId == c.id
    ensures i.date <= RowOf(db, c).latestInteraction.value.date
  {
    var j :| 0 <= j < |db.interactions| && db.interactions[j] == i;
  }

  /** One row of getInteractionsWithDetails. */
  datatype Detail = Detail(
    interaction: Interaction,
    customerName: string,
    agentName: string,
    customerContactTitle: string,
    customerEmail: string)

  /** `x || fallback` for an optional string. */
  function OrElse(x: Option<string>, fallback: string): (r: string)
    ensures x.Some? && x.value != "" ==> r == x.value
    ensures x.None? || x.value == "" ==> r == fallback
  {
    if x.Some? && x.value != "" then x.value else fallback
  }

  /** The interaction with its customer's and agent's names; 'Unknown' for a missing (or unnamed) record. */
  function DetailOf(db: Db, i: Interaction): Detail {
    var customer := FindFirst(db.customers, CustomerId, i.customerId);
    var agent := FindFirst(db.users, UserId, i.agentId);
    Detail(
      i,
      OrElse(if customer.Some? then Some(customer.value.name) else None, "Unknown"),
      OrElse(if agent.Some? then Some(agent.value.name) else None, "Unknown"),
      OrElse(if customer.Some? then customer.value.contactTitle else None, ""),
      OrElse(if customer.Some? then customer.value.email else None, ""))
  }

  /** getInteractionsWithDetails, computed afresh: every interaction, newest first, with names attached. */
  function InteractionsWithDetails(db: Db): (r: seq<Detail>)
    ensures |r| == |db.interactions|
  {
    var sorted := SortByDateDesc(db.interactions);
    seq(|sorted|, k requires 0 <= k < |sorted| => DetailOf(db, sorted[k]))
  }

  /** The interactions a detailed list is built from, in list order. */
  function InteractionsOf(r: seq<Detail>): (s: seq<Interaction>)
    ensures |s| == |r|
    ensures forall k :: 0 <= k < |r| ==> s[k] == r[k].interaction
  {
    seq(|r|, k requires 0 <= k < |r| => r[k].interaction)
  }

  /** The detailed list holds each interaction once, newest first. */
  lemma InteractionsWithDetailsOrdered(db: Db)
    ensures SortedByDateDesc(InteractionsOf(InteractionsWithDetails(db)))
    ensures multiset(InteractionsOf(InteractionsWithDetails(db))) == multiset(db.interactions)
  {
    SortByDateDescSorted(db.interactions);
    assert InteractionsOf(InteractionsWithDetails(db)) == SortByDateDesc(db.interactions);
  }

  // ---------------------------------------------------------------------
  // Cache keys
  // ---------------------------------------------------------------------

  function CustomersKey(agentId: Id): string { "customers_agent_" + agentId }
  function InteractionsKey(agentId: Id): string { "interactions_agent_" + agentId }
  const DETAILS_KEY: string := "interactions_with_details"

  /** The three kinds of key never collide, and each per-agent key names one agent. */
  lemma CacheKeysDistinct(a: Id, b: Id)
    ensures CustomersKey(a) != InteractionsKey(b)
    ensures CustomersKey(a) != DETAILS_KEY
    ensures InteractionsKey(a) != DETAILS_KEY
    ensures CustomersKey(a) == CustomersKey(b) ==> a == b
    ensures InteractionsKey(a) == InteractionsKey(b) ==> a == b
  {
    assert CustomersKey(a)[0] == 'c' && InteractionsKey(b)[0] == 'i' && DETAILS_KEY[0] == 'i';
    assert InteractionsKey(a)[13] == 'a' && DETAILS_KEY[13] == 'w';
    if CustomersKey(a) == CustomersKey(b) {
      assert a == CustomersKey(a)[16..];
    }
    if InteractionsKey(a) == InteractionsKey(b) {
      assert a == InteractionsKey(a)[19..];
    }
  }

  // ---------------------------------------------------------------------
  // Partial updates (`$set: { ...updates, updatedAt }`)
  // ---------------------------------------------------------------------

  function UserEmail(u: User): Id { u.email }

  /** The fields a user update may carry; an absent field is left as it is. */
  datatype UserPatch = UserPatch(
    name: Option<string>, email: Option<string>, role: Option<Role>, passwordHash: Option<string>)

  /** The fields a customer update may carry. */
  datatype CustomerPatch = CustomerPatch(
    name: Option<string>, contactTitle: Option<string>, email: Option<string>, phone: Option<string>,
    agentId: Option<Id>)

  /**
   * The one field an interaction update carries: the supervisor's comment.
   * `Some(c)` sets the comment to `c`, where `None` is JSON `null`; `None`
   * leaves it as it is.
   */
  datatype InteractionPatch = InteractionPatch(supervisorComment: Option<Option<string>>)

  function PatchUser(u: User, p: UserPatch, now: Millis): (r: User)
    ensures r.id == u.id && r.createdAt == u.createdAt && r.updatedAt == now
    ensures r.name == p.name.GetOr(u.name) && r.email == p.email.GetOr(u.email)
    ensures r.role == p.role.GetOr(u.role) && r.passwordHash == p.passwordHash.GetOr(u.passwordHash)
  {
    u.(name := p.name.GetOr(u.name), email := p.email.GetOr(u.email), role := p.role.GetOr(u.role),
       passwordHash := p.passwordHash.GetOr(u.passwordHash), updatedAt := now)
  }

  function PatchCustomer(c: Customer, p: CustomerPatch, now: Millis): (r: Customer)
    ensures r.id == c.id && r.createdAt == c.createdAt && r.updatedAt == now
    ensures r.name == p.name.GetOr(c.name) && r.agentId == p.agentId.GetOr(c.agentId)
    ensures r.contactTitle == (if p.contactTitle.Some? then p.contactTitle else c.contactTitle)
    ensures r.email == (if p.email.Some? then p.email else c.email)
    ensures r.phone == (if p.phone.Some? then p.phone else c.phone)
  {
    c.(name := p.name.GetOr(c.name),
       contactTitle := if p.contactTitle.Some? then p.contactTitle else c.contactTitle,
       email := if p.email.Some? then p.email else c.email,
       phone := if p.phone.Some? then p.phone else c.phone,
       agentId := p.agentId.GetOr(c.agentId),
       updatedAt := now)
  }

  /** Only the comment (when set, possibly to null) and the update time change. */
  function PatchInteraction(i: Interaction, p: InteractionPatch, now: Millis): (r: Interaction)
    ensures r.(supervisorComment := i.supervisorComment, updatedAt := i.updatedAt) == i
    ensures r.updatedAt == now
    ensures p.supervisorComment.Some? ==> r.supervisorComment == p.supervisorComment.value
    ensures p.supervisorComment.None? ==> r.supervisorComment == i.supervisorComment
  {
    i.(supervisorComment := p.supervisorComment.GetOr(i.supervisorComment), updatedAt := now)
  }

  /** Applying the same update twice at the same time is the same as applying it once. */
  lemma PatchesIdempotent(u: User, up: UserPatch, c: Customer, cp: CustomerPatch,
                          i: Interaction, ip: InteractionPatch, now: Millis)
    ensures PatchUser(PatchUser(u, up, now), up, now) == PatchUser(u, up, now)
    ensures PatchCustomer(PatchCustomer(c, cp, now), cp, now) == PatchCustomer(c, cp, now)
    ensures PatchInteraction(PatchInteraction(i, ip, now), ip, now) == PatchInteraction(i, ip, now)
  {
  }
}
