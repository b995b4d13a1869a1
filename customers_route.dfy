/**
 * `/api/customers`: listing customers (GET) and creating one (POST).
 * Agents only ever see and create their own customers; supervisors and
 * admins may list any agent's customers, and admins may create customers
 * for any agent.
 */
module CustomersRoute {
  import opened Wrappers
  import opened Strings
  import opened Models
  import opened Api
  import Rbac
  import opened Validation
  import opened Queries
  import DbService

  // ---------------------------------------------------------------------
  // GET
  // ---------------------------------------------------------------------

  /** The query string: `withLatest` and `agentId`. */
  datatype ListQuery = ListQuery(withLatest: Option<string>, agentId: Option<string>)

  /** The listing: plain customer records, or rows joined with the latest interaction and agent name. */
  datatype Listing = Plain(customers: seq<Customer>) | Joined(rows: seq<CustomerRow>)

  /** The customers a listing shows, in order. */
  function Listed(l: Listing): (r: seq<Customer>)
    ensures |r| == (if l.Plain? then |l.customers| else |l.rows|)
  {
    match l
    case Plain(cs) => cs
    case Joined(rows) => seq(|rows|, k requires 0 <= k < |rows| => rows[k].customer)
  }

  /**
   * Whose customers are listed: an agent's own, whatever the query says;
   * for anyone else the agent named by a non-empty `agentId`, or everyone's.
   */
  function Scope(s: Rbac.Session, q: ListQuery): (r: Option<Id>)
    ensures s.role == "agent" ==> r == Some(s.userId)
    ensures s.role != "agent" ==> (r.Some? <==> Truthy(q.agentId))
    ensures s.role != "agent" && r.Some? ==> r.value == q.agentId.value
  {
    if s.role == "agent" then Some(s.userId)
    else if Truthy(q.agentId) then Some(q.agentId.value)
    else None
  }

  /** `getCustomersWithLatestInteraction(scope)` when joined; `getCustomersByAgent` or `getAllCustomers` otherwise. */
  function List(db: Db, withLatest: bool, scope: Option<Id>): Listing {
    if withLatest then Joined(CustomersWithLatestInteraction(db, scope))
    else
      match scope
      case None => Plain(db.customers)
      case Some(a) => Plain(Filter(db.customers, (c: Customer) => DbService.OwnedBy(c, a)))
  }

  /** GET: `fault` is a failure of the store, answered with 500. */
  function Get(session: Option<Rbac.Session>, q: ListQuery, db: Db, fault: bool): Reply<Listing> {
    if session.None? then Unauthorized()
    else if !HasRole(session.value, {"agent", "admin", "supervisor"}) then Forbidden()
    else if fault then ServerError()
    else Ok(List(db, q.withLatest == Some("true"), Scope(session.value, q)), None)
  }

  /** Who gets which status. */
  lemma GetStatus(session: Option<Rbac.Session>, q: ListQuery, db: Db, fault: bool)
    ensures Get(session, q, db, fault).Status() == 401 <==> session.None?
    ensures Get(session, q, db, fault).Status() == 403
      <==> session.Some? && session.value.role !in {"agent", "admin", "supervisor"}
    ensures Get(session, q, db, fault).Status() == 200
      <==> session.Some? && session.value.role in {"agent", "admin", "supervisor"} && !fault
  {
  }

  /** `withLatest=true` selects the joined listing, anything else the plain one. */
  lemma GetShape(s: Rbac.Session, q: ListQuery, db: Db)
    requires s.role in {"agent", "admin", "supervisor"}
    ensures Get(Some(s), q, db, false).Ok?
    ensures Get(Some(s), q, db, false).data.Joined? <==> q.withLatest == Some("true")
  {
  }

  /** Every listed customer is in the store and within the scope. */
  lemma ListWithinScope(db: Db, withLatest: bool, scope: Option<Id>, k: int)
    requires scope.None? || scope.value != ""
    requires 0 <= k < |Listed(List(db, withLatest, scope))|
    ensures Listed(List(db, withLatest, scope))[k] in db.customers
    ensures scope.Some? ==> Listed(List(db, withLatest, scope))[k].agentId == scope.value
  {
    if withLatest {
      var rows := CustomersWithLatestInteraction(db, scope);
      assert Listed(List(db, withLatest, scope))[k] == rows[k].customer;
    }
  }

  /** No customer within the scope is left out. */
  lemma ListComplete(db: Db, withLatest: bool, scope: Option<Id>, c: Customer)
    requires c in db.customers && (scope.None? || c.agentId == scope.value)
    ensures c in Listed(List(db, withLatest, scope))
  {
    if withLatest {
      CustomersWithLatestInteractionComplete(db, scope, c);
      var rows := CustomersWithLatestInteraction(db, scope);
      var k :| 0 <= k < |rows| && rows[k] == RowOf(db, c);
      assert Listed(List(db, withLatest, scope))[k] == c;
    } else if scope.Some? {
      var j :| 0 <= j < |db.customers| && db.customers[j] == c;
      assert DbService.OwnedBy(db.customers[j], scope.value);
    }
  }

  /**
   * An agent's listing does not depend on the `agentId` parameter, and
   * holds exactly the agent's own customers.
   */
  lemma AgentSeesOnlyOwn(s: Rbac.Session, q: ListQuery, other: Option<string>, db: Db, c: Customer)
    requires s.role == "agent" && s.userId != ""
    ensures Get(Some(s), q, db, false) == Get(Some(s), q.(agentId := other), db, false)
    ensures Get(Some(s), q, db, false).Ok?
    ensures c in Listed(Get(Some(s), q, db, false).data) <==> c in db.customers && c.agentId == s.userId
  {
    var l := Get(Some(s), q, db, false).data;
    if c in Listed(l) {
      var k :| 0 <= k < |Listed(l)| && Listed(l)[k] == c;
      ListWithinScope(db, q.withLatest == Some("true"), Some(s.userId), k);
    }
    if c in db.customers && c.agentId == s.userId {
      ListComplete(db, q.withLatest == Some("true"), Some(s.userId), c);
    }
  }

  /** A supervisor or admin sees the customers of the named agent, or all customers when none is named. */
  lemma SupervisorChoosesScope(s: Rbac.Session, q: ListQuery, db: Db, c: Customer)
    requires s.role in {"admin", "supervisor"}
    ensures Get(Some(s), q, db, false).Ok?
    ensures Truthy(q.agentId) ==>
      (c in Listed(Get(Some(s), q, db, false).data) <==> c in db.customers && c.agentId == q.agentId.value)
    ensures !Truthy(q.agentId) ==>
      (c in Listed(Get(Some(s), q, db, false).data) <==> c in db.customers)
  {
    var scope := Scope(s, q);
    var l := Get(Some(s), q, db, false).data;
    if c in Listed(l) {
      var k :| 0 <= k < |Listed(l)| && Listed(l)[k] == c;
      ListWithinScope(db, q.withLatest == Some("true"), scope, k);
    }
    if c in db.customers && (scope.None? || c.agentId == scope.value) {
      ListComplete(db, q.withLatest == Some("true"), scope, c);
    }
  }

  // ---------------------------------------------------------------------
  // POST
  // ---------------------------------------------------------------------

  /** `body.agentId = session.user.id` for an agent: agents always create for themselves. */
  function Stamped(s: Rbac.Session, body: CustomerInput): (b: CustomerInput)
    ensures s.role == "agent" ==> b.agentId == Some(s.userId)
    ensures s.role != "agent" ==> b == body
    ensures b.(agentId := body.agentId) == body
  {
    if s.role == "agent" then body.(agentId := Some(s.userId)) else body
  }

  /** `customerData`, given the id the store assigns: absent contact fields are stored as ''. */
  function NewCustomer(body: CustomerInput, id: Id, now: Millis): (c: Customer)
    ensures c.contactTitle.Some? && c.email.Some? && c.phone.Some?
    ensures Truthy(body.contactTitle) ==> c.contactTitle == body.contactTitle
    ensures !Truthy(body.contactTitle) ==> c.contactTitle == Some("")
    ensures Truthy(body.email) ==> c.email == body.email
    ensures !Truthy(body.email) ==> c.email == Some("")
    ensures Truthy(body.phone) ==> c.phone == body.phone
    ensures !Truthy(body.phone) ==> c.phone == Some("")
  {
    Customer(id, OrEmpty(body.name), Some(OrEmpty(body.contactTitle)), Some(OrEmpty(body.email)),
             Some(OrEmpty(body.phone)), OrEmpty(body.agentId), now, now)
  }

  /**
   * POST: `body` is `None` when the request body is not JSON; `id` is the
   * id the store assigns; `fault` is a failure of the store.
   */
  function Post(session: Option<Rbac.Session>, body: Option<CustomerInput>, db: Db, id: Id, now: Millis, fault: bool)
    : Outcome<Customer>
  {
    if session.None? then Refuse(Unauthorized(), db)
    else if !HasRole(session.value, {"agent", "admin"}) then Refuse(Forbidden(), db)
    else if body.None? then Refuse(ServerError(), db)
    else
      var b := Stamped(session.value, body.value);
      var verdict := VerdictOf(CustomerErrors(CheckCustomer(b)));
      if verdict.Failure? then Refuse(Invalid(Messages(verdict.errors)), db)
      else if fault then Refuse(ServerError(), db)
      else
        var c := NewCustomer(b, id, now);
        Outcome(Ok(c, Some("Customer created successfully")),
                db.(customers := db.customers + [c]), {CustomersKey(c.agentId)})
  }

  /** A customer is created exactly when an agent or admin sends a valid body and the store works. */
  lemma PostCreatesIffValid(session: Option<Rbac.Session>, body: Option<CustomerInput>, db: Db, id: Id,
                            now: Millis, fault: bool)
    ensures Post(session, body, db, id, now, fault).reply.Ok?
      <==> (session.Some? && session.value.role in {"agent", "admin"} && body.Some? && !fault
            && CustomerErrors(CheckCustomer(Stamped(session.value, body.value))) == [])
    ensures Post(session, body, db, id, now, fault).reply.Status() == 401 <==> session.None?
    ensures Post(session, body, db, id, now, fault).reply.Status() == 403
      <==> session.Some? && session.value.role !in {"agent", "admin"}
  {
  }

  /** A created customer is appended and only its agent's cached list is dropped; any refusal changes nothing. */
  lemma PostEffect(session: Option<Rbac.Session>, body: Option<CustomerInput>, db: Db, id: Id, now: Millis, fault: bool)
    ensures var o := Post(session, body, db, id, now, fault);
      o.reply.Ok? ==> o.db == db.(customers := db.customers + [o.reply.data])
                      && o.evicted == {CustomersKey(o.reply.data.agentId)}
    ensures var o := Post(session, body, db, id, now, fault);
      !o.reply.Ok? ==> o.db == db && o.evicted == {}
  {
  }

  /** Validation failure: 400 with one message per failed check, in order. */
  lemma PostInvalid(s: Rbac.Session, body: CustomerInput, db: Db, id: Id, now: Millis, fault: bool)
    requires s.role in {"agent", "admin"}
    requires CustomerErrors(CheckCustomer(Stamped(s, body))) != []
    ensures Post(Some(s), Some(body), db, id, now, fault).reply
      == Invalid(Messages(CustomerErrors(CheckCustomer(Stamped(s, body)))))
    ensures Post(Some(s), Some(body), db, id, now, fault).reply.Status() == 400
  {
  }

  /** What a created customer holds: a valid name, its owner (the agent itself when an agent posts), and the body's contact fields. */
  lemma PostStores(s: Rbac.Session, body: CustomerInput, db: Db, id: Id, now: Millis)
    requires Post(Some(s), Some(body), db, id, now, false).reply.Ok?
    ensures var c := Post(Some(s), Some(body), db, id, now, false).reply.data;
      && c.id == id && c.createdAt == now && c.updatedAt == now
      && body.name == Some(c.name) && !IsBlank(c.name) && Utf16Length(c.name) <= 100
      && !IsBlank(c.agentId)
      && (s.role == "agent" ==> c.agentId == s.userId)
      && (s.role == "admin" ==> body.agentId == Some(c.agentId))
      && c.contactTitle == Some(OrEmpty(body.contactTitle))
      && c.email == Some(OrEmpty(body.email)) && c.phone == Some(OrEmpty(body.phone))
  {
    var b := Stamped(s, body);
    CustomerErrorsMembership(CheckCustomer(b));
  }
}
