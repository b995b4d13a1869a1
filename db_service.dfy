/**
 * The data-access service: the three collections, held as sequences the
 * methods reassign, and the shared cache the per-agent lists and the
 * detailed interaction list are kept in. Each method is proved against the
 * query it sends, as stated in module Queries. Fresh record ids and the
 * clock are parameters.
 */
module DbService {
  import opened Wrappers
  import opened Models
  import opened Queries
  import Cache

  /** What the service keeps in the cache: a customer list, an interaction list or a detailed list. */
  datatype Cached =
    | CustomerList(customers: seq<Customer>)
    | InteractionList(interactions: seq<Interaction>)
    | DetailList(details: seq<Detail>)

  /** `2 * 60 * 1000` and `1 * 60 * 1000` */
  const CUSTOMERS_TTL: int := 120000
  const INTERACTIONS_TTL: int := 60000
  const DETAILS_TTL: int := 60000

  predicate OwnedBy(c: Customer, agentId: Id) { c.agentId == agentId }
  predicate MadeBy(i: Interaction, agentId: Id) { i.agentId == agentId }
  predicate About(i: Interaction, customerId: Id) { i.customerId == customerId }

  /** The `find` filters `{ agentId }` and `{ customerId }` over interactions. */
  function ByAgent(agentId: Id): Interaction -> bool { (i: Interaction) => MadeBy(i, agentId) }
  function ByCustomer(customerId: Id): Interaction -> bool { (i: Interaction) => About(i, customerId) }

  /** The cache's contents: each key's value and expiry time. */
  type Entries = map<string, Cache.Entry<Cached>>

  /** What a cached read returns, together with the cache it leaves behind. */
  datatype Read<T> = Read(value: T, entries: Entries)

  /** The cache after a read-through of `key` that missed: any expired entry dropped, the fresh value stored. */
  function Refilled(entries: Entries, key: string, now: Millis, v: Cached, ttl: int): (r: Entries)
    ensures key in r && r[key] == Cache.Entry(v, now + ttl)
    ensures r - {key} == entries - {key}
  {
    Cache.AfterLookup(entries, key, now)[key := Cache.Entry(v, now + ttl)]
  }

  /** A live interaction list is cached for the agent at `now`. */
  predicate HasInteractionList(entries: Entries, agentId: Id, now: Millis) {
    var hit := Cache.Lookup(entries, InteractionsKey(agentId), now);
    hit.Some? && hit.value.InteractionList?
  }

  /** A live detailed list is cached at `now`. */
  predicate HasDetailList(entries: Entries, now: Millis) {
    var hit := Cache.Lookup(entries, DETAILS_KEY, now);
    hit.Some? && hit.value.DetailList?
  }

  /**
   * getInteractionsByAgent over the cache: a live cached list is served as
   * it is, whatever the store now holds; otherwise the agent's
   * interactions are read newest first and cached for one minute. No other
   * key changes.
   */
  function ReadInteractionsByAgent(entries: Entries, db: Db, agentId: Id, now: Millis): (r: Read<seq<Interaction>>)
    ensures HasInteractionList(entries, agentId, now) ==>
      r.entries == entries && Cache.Lookup(entries, InteractionsKey(agentId), now) == Some(InteractionList(r.value))
    ensures !HasInteractionList(entries, agentId, now) ==>
      && r.value == SortByDateDesc(Filter(db.interactions, ByAgent(agentId)))
      && InteractionsKey(agentId) in r.entries
      && r.entries[InteractionsKey(agentId)] == Cache.Entry(InteractionList(r.value), now + INTERACTIONS_TTL)
    ensures r.entries - {InteractionsKey(agentId)} == entries - {InteractionsKey(agentId)}
  {
    var key := InteractionsKey(agentId);
    if HasInteractionList(entries, agentId, now) then
      Read(Cache.Lookup(entries, key, now).value.interactions, entries)
    else
      var v := SortByDateDesc(Filter(db.interactions, ByAgent(agentId)));
      Read(v, Refilled(entries, key, now, InteractionList(v), INTERACTIONS_TTL))
  }

  /**
   * getInteractionsWithDetails over the cache: a live cached list is served
   * as it is; otherwise the joined rows are built from the store and cached
   * for one minute. No other key changes.
   */
  function ReadInteractionsWithDetails(entries: Entries, db: Db, now: Millis): (r: Read<seq<Detail>>)
    ensures HasDetailList(entries, now) ==>
      r.entries == entries && Cache.Lookup(entries, DETAILS_KEY, now) == Some(DetailList(r.value))
    ensures !HasDetailList(entries, now) ==>
      && r.value == InteractionsWithDetails(db)
      && DETAILS_KEY in r.entries
      && r.entries[DETAILS_KEY] == Cache.Entry(DetailList(r.value), now + DETAILS_TTL)
    ensures r.entries - {DETAILS_KEY} == entries - {DETAILS_KEY}
  {
    if HasDetailList(entries, now) then
      Read(Cache.Lookup(entries, DETAILS_KEY, now).value.details, entries)
    else
      var v := InteractionsWithDetails(db);
      Read(v, Refilled(entries, DETAILS_KEY, now, DetailList(v), DETAILS_TTL))
  }

  /**
   * The counting loop both roll-ups run: for each record in turn,
   * `map[key] = (map[key] || 0) + 1`.
   */
  method CountByKey<T>(s: seq<T>, key: T -> Id) returns (m: map<Id, nat>)
    ensures m == Tally(s, key)
  {
    m := map[];
    var i := 0;
    while i < |s|
      invariant 0 <= i <= |s|
      invariant m == Tally(s[..i], key)
    {
      var k := key(s[i]);
      assert s[..i + 1][..i] == s[..i];
      m := m[k := GetOrZero(m, k) + 1];
      i := i + 1;
    }
    assert s[..i] == s;
  }

  /** The loop of getInteractionsWithDetails: each interaction in turn, with names attached. */
  method AttachDetails(db: Db, all: seq<Interaction>) returns (r: seq<Detail>)
    ensures |r| == |all|
    ensures forall k :: 0 <= k < |all| ==> r[k] == DetailOf(db, all[k])
  {
    r := [];
    var i := 0;
    while i < |all|
      invariant 0 <= i <= |all|
      invariant |r| == i
      invariant forall k :: 0 <= k < i ==> r[k] == DetailOf(db, all[k])
    {
      r := r + [DetailOf(db, all[i])];
      i := i + 1;
    }
  }

  class DatabaseService {
    var users: seq<User>
    var customers: seq<Customer>
    var interactions: seq<Interaction>
    const cache: Cache.TtlCache<Cached>

    /** The collections as one value. */
    function State(): Db
      reads this
    {
      Db(users, customers, interactions)
    }

    constructor (cache: Cache.TtlCache<Cached>)
      ensures users == [] && customers == [] && interactions == []
      ensures this.cache == cache
    {
      users := [];
      customers := [];
      interactions := [];
      this.cache := cache;
    }

    // -------------------------------------------------------------------
    // Users
    // -------------------------------------------------------------------

    /** createUser: stores the user with the fresh id and both timestamps set to now. */
    method CreateUser(fields: User, id: Id, now: Millis) returns (u: User)
      modifies this
      ensures u == fields.(id := id, createdAt := now, updatedAt := now)
      ensures users == old(users) + [u]
      ensures customers == old(customers) && interactions == old(interactions)
    {
      u := fields.(id := id, createdAt := now, updatedAt := now);
      users := users + [u];
    }

    /** getUserByEmail */
    method GetUserByEmail(email: string) returns (r: Option<User>)
      ensures r == FindFirst(users, UserEmail, email)
    {
      r := FindFirst(users, UserEmail, email);
    }

    /** getUserById */
    method GetUserById(id: Id) returns (r: Option<User>)
      ensures r == FindFirst(users, UserId, id)
    {
      r := FindFirst(users, UserId, id);
    }

    /** getAllUsers: every user, in collection order. */
    method GetAllUsers() returns (r: seq<User>)
      ensures r == users
    {
      r := users;
    }

    /** updateUser: the user after the update, or none when no user has the id. */
    method UpdateUser(id: Id, patch: UserPatch, now: Millis) returns (r: Option<User>)
      modifies this
      ensures (users, r) == UpdateFirst(old(users), UserId, id, (u: User) => PatchUser(u, patch, now))
      ensures customers == old(customers) && interactions == old(interactions)
    {
      var result := UpdateFirst(users, UserId, id, (u: User) => PatchUser(u, patch, now));
      users, r := result.0, result.1;
    }

    /** deleteUser: true exactly when one user was removed. */
    method DeleteUser(id: Id) returns (deleted: bool)
      modifies this
      ensures (users, deleted) == DeleteFirst(old(users), UserId, id)
      ensures customers == old(customers) && interactions == old(interactions)
    {
      var result := DeleteFirst(users, UserId, id);
      users, deleted := result.0, result.1;
    }

    // -------------------------------------------------------------------
    // Customers
    // -------------------------------------------------------------------

    /** createCustomer: stores the customer and drops the cached list of its agent, and no other entry. */
    method CreateCustomer(fields: Customer, id: Id, now: Millis) returns (c: Customer)
      modifies this, cache
      ensures c == fields.(id := id, createdAt := now, updatedAt := now)
      ensures customers == old(customers) + [c]
      ensures users == old(users) && interactions == old(interactions)
      ensures cache.entries == old(cache.entries) - {CustomersKey(fields.agentId)}
    {
      c := fields.(id := id, createdAt := now, updatedAt := now);
      customers := customers + [c];
      var _ := cache.Delete(CustomersKey(fields.agentId));
    }

    /** getCustomerById */
    method GetCustomerById(id: Id) returns (r: Option<Customer>)
      ensures r == FindFirst(customers, CustomerId, id)
    {
      r := FindFirst(customers, CustomerId, id);
    }

    /** getAllCustomers: every customer, in collection order. */
    method GetAllCustomers() returns (r: seq<Customer>)
      ensures r == customers
    {
      r := customers;
    }

    /**
     * getCustomersByAgent: the cached list when one is live, otherwise the
     * agent's customers, which are then cached for two minutes.
     */
    method GetCustomersByAgent(agentId: Id, now: Millis) returns (r: seq<Customer>)
      modifies cache
      ensures var key := CustomersKey(agentId);
        match Cache.Lookup<Cached>(old(cache.entries), key, now)
        case Some(CustomerList(v)) => r == v && cache.entries == old(cache.entries)
        case _ =>
          r == Filter(customers, (c: Customer) => OwnedBy(c, agentId))
          && cache.entries == Refilled(old(cache.entries), key, now, CustomerList(r), CUSTOMERS_TTL)
    {
      var key := CustomersKey(agentId);
      var cached := cache.Get(key, now);
      if cached.Some? && cached.value.CustomerList? {
        return cached.value.customers;
      }
      r := Filter(customers, (c: Customer) => OwnedBy(c, agentId));
      cache.Set(key, CustomerList(r), Some(CUSTOMERS_TTL), now);
    }

    /** getCustomersWithLatestInteraction */
    method GetCustomersWithLatestInteraction(agentId: Option<Id>) returns (r: seq<CustomerRow>)
      ensures r == CustomersWithLatestInteraction(State(), agentId)
    {
      r := CustomersWithLatestInteraction(State(), agentId);
    }

    /**
     * getCustomerCountByAgent: counts customers per agent id in a map, then
     * lists every agent with its count, 0 when the map has none.
     */
    method GetCustomerCountByAgent() returns (r: seq<AgentCustomerCount>)
      ensures r == CustomerCountByAgent(State())
    {
      var countMap := CountByKey(customers, AgentIdOfCustomer);
      var agents := Agents(users);
      r := seq(|agents|, k requires 0 <= k < |agents| =>
        AgentCustomerCount(agents[k].id, agents[k].name, GetOrZero(countMap, agents[k].id)));
      forall k | 0 <= k < |agents|
        ensures r[k] == CustomerCountByAgent(State())[k]
      {
        TallyCounts(customers, AgentIdOfCustomer, agents[k].id);
      }
    }

    /**
     * getPendingFollowUpsByAgent: takes each customer's latest interaction,
     * keeps the open ones, counts them per agent id, then lists every agent
     * with its count, 0 when it has none.
     */
    method GetPendingFollowUpsByAgent() returns (r: seq<AgentPending>)
      ensures r == PendingFollowUpsByAgent(State())
    {
      var pending := OpenLatest(interactions);
      var acc := CountByKey(pending, AgentIdOfInteraction);
      var agents := Agents(users);
      r := seq(|agents|, k requires 0 <= k < |agents| => AgentPending(agents[k].id, GetOrZero(acc, agents[k].id)));
      forall k | 0 <= k < |agents|
        ensures r[k] == PendingFollowUpsByAgent(State())[k]
      {
        TallyCounts(pending, AgentIdOfInteraction, agents[k].id);
      }
    }

    /** updateCustomer: leaves the cache untouched. */
    method UpdateCustomer(id: Id, patch: CustomerPatch, now: Millis) returns (r: Option<Customer>)
      modifies this
      ensures (customers, r) == UpdateFirst(old(customers), CustomerId, id, (c: Customer) => PatchCustomer(c, patch, now))
      ensures users == old(users) && interactions == old(interactions)
      ensures cache.entries == old(cache.entries)
    {
      var result := UpdateFirst(customers, CustomerId, id, (c: Customer) => PatchCustomer(c, patch, now));
      customers, r := result.0, result.1;
    }

    /** deleteCustomer: leaves the cache untouched. */
    method DeleteCustomer(id: Id) returns (deleted: bool)
      modifies this
      ensures (customers, deleted) == DeleteFirst(old(customers), CustomerId, id)
      ensures users == old(users) && interactions == old(interactions)
      ensures cache.entries == old(cache.entries)
    {
      var result := DeleteFirst(customers, CustomerId, id);
      customers, deleted := result.0, result.1;
    }

    // -------------------------------------------------------------------
    // Interactions
    // -------------------------------------------------------------------

    /**
     * createInteraction: stores the interaction dated `date`, or now when
     * no date is given, and drops the agent's cached list and the detailed
     * list, and no other entry.
     */
    method CreateInteraction(fields: Interaction, date: Option<Millis>, id: Id, now: Millis) returns (i: Interaction)
      modifies this, cache
      ensures i == fields.(id := id, date := date.GetOr(now), createdAt := now, updatedAt := now)
      ensures interactions == old(interactions) + [i]
      ensures users == old(users) && customers == old(customers)
      ensures cache.entries == old(cache.entries) - {InteractionsKey(fields.agentId), DETAILS_KEY}
    {
      var stored := fields.(date := if date.Some? then date.value else now, createdAt := now, updatedAt := now);
      i := stored.(id := id);
      interactions := interactions + [i];
      var _ := cache.Delete(InteractionsKey(fields.agentId));
      var _ := cache.Delete(DETAILS_KEY);
    }

    /** getInteractionById */
    method GetInteractionById(id: Id) returns (r: Option<Interaction>)
      ensures r == FindFirst(interactions, InteractionId, id)
    {
      r := FindFirst(interactions, InteractionId, id);
    }

    /**
     * getInteractionsByAgent: the cached list when one is live, otherwise
     * the agent's interactions newest first, then cached for one minute.
     */
    method GetInteractionsByAgent(agentId: Id, now: Millis) returns (r: seq<Interaction>)
      modifies cache
      ensures Read(r, cache.entries) == ReadInteractionsByAgent(old(cache.entries), State(), agentId, now)
    {
      var key := InteractionsKey(agentId);
      var cached := cache.Get(key, now);
      if cached.Some? && cached.value.InteractionList? {
        return cached.value.interactions;
      }
      r := SortByDateDesc(Filter(interactions, ByAgent(agentId)));
      cache.Set(key, InteractionList(r), Some(INTERACTIONS_TTL), now);
    }

    /** getInteractionsByCustomer: the customer's interactions, newest first. */
    method GetInteractionsByCustomer(customerId: Id) returns (r: seq<Interaction>)
      ensures r == SortByDateDesc(Filter(interactions, ByCustomer(customerId)))
    {
      r := SortByDateDesc(Filter(interactions, ByCustomer(customerId)));
    }

    /** getAllInteractions: every interaction, newest first. */
    method GetAllInteractions() returns (r: seq<Interaction>)
      ensures r == SortByDateDesc(interactions)
    {
      r := SortByDateDesc(interactions);
    }

    /** updateInteraction: leaves the cache untouched. */
    method UpdateInteraction(id: Id, patch: InteractionPatch, now: Millis) returns (r: Option<Interaction>)
      modifies this
      ensures (interactions, r)
        == UpdateFirst(old(interactions), InteractionId, id, (i: Interaction) => PatchInteraction(i, patch, now))
      ensures users == old(users) && customers == old(customers)
      ensures cache.entries == old(cache.entries)
    {
      var result := UpdateFirst(interactions, InteractionId, id, (i: Interaction) => PatchInteraction(i, patch, now));
      interactions, r := result.0, result.1;
    }

    /** deleteInteraction: leaves the cache untouched. */
    method DeleteInteraction(id: Id) returns (deleted: bool)
      modifies this
      ensures (interactions, deleted) == DeleteFirst(old(interactions), InteractionId, id)
      ensures users == old(users) && customers == old(customers)
      ensures cache.entries == old(cache.entries)
    {
      var result := DeleteFirst(interactions, InteractionId, id);
      interactions, deleted := result.0, result.1;
    }

    /**
     * getInteractionsWithDetails: the cached list when one is live;
     * otherwise every interaction, newest first, with its customer's and
     * agent's names, then cached for one minute.
     */
    method GetInteractionsWithDetails(now: Millis) returns (r: seq<Detail>)
      modifies cache
      ensures Read(r, cache.entries) == ReadInteractionsWithDetails(old(cache.entries), State(), now)
    {
      var cached := cache.Get(DETAILS_KEY, now);
      if cached.Some? && cached.value.DetailList? {
        return cached.value.details;
      }
      r := AttachDetails(State(), SortByDateDesc(interactions));
      assert r == InteractionsWithDetails(State());
      cache.Set(DETAILS_KEY, DetailList(r), Some(DETAILS_TTL), now);
    }
  }
}
