/**
 * `/api/interactions`: listing interactions (GET), recording one (POST)
 * and commenting on one (PUT). Agents and admins record calls, agents
 * always in their own name; supervisors and admins comment, and a comment
 * is the only thing an update changes.
 */
module InteractionsRoute {
  import opened Wrappers
  import opened Strings
  import opened Models
  import opened Api
  import Rbac
  import opened Validation
  import opened Queries
  import DbService
  import Cache

  // ---------------------------------------------------------------------
  // GET
  // ---------------------------------------------------------------------

  /** The listing: plain interactions newest first, or the detailed list. */
  datatype Listing = Plain(interactions: seq<Interaction>) | Detailed(details: seq<Detail>)

  /** A GET's reply, together with the cache it leaves behind. */
  datatype Answer = Answer(reply: Reply<Listing>, entries: DbService.Entries)

  /**
   * GET with the `customerId` query parameter: that customer's
   * interactions, read from the store, for any signed-in user. Otherwise an
   * agent's own list or, for supervisors and admins, the detailed list, both
   * read through the cache at time `now`. `fault` is a failure of the
   * store, which only a read that reaches the store can meet; before it the
   * cache has already dropped an expired entry for the key.
   */
  function Get(session: Option<Rbac.Session>, customerId: Option<string>, db: Db, entries: DbService.Entries,
               now: Millis, fault: bool): Answer
  {
    if session.None? then Answer(Unauthorized(), entries)
    else if Truthy(customerId) then
      if fault then Answer(ServerError(), entries)
      else Answer(Ok(Plain(SortByDateDesc(Filter(db.interactions, DbService.ByCustomer(customerId.value)))), None), entries)
    else if session.value.role == "agent" then
      var agentId := session.value.userId;
      if fault && !DbService.HasInteractionList(entries, agentId, now) then
        Answer(ServerError(), Cache.AfterLookup(entries, InteractionsKey(agentId), now))
      else
        var r := DbService.ReadInteractionsByAgent(entries, db, agentId, now);
        Answer(Ok(Plain(r.value), None), r.entries)
    else if HasRole(session.value, {"supervisor", "admin"}) then
      if fault && !DbService.HasDetailList(entries, now) then
        Answer(ServerError(), Cache.AfterLookup(entries, DETAILS_KEY, now))
      else
        var r := DbService.ReadInteractionsWithDetails(entries, db, now);
        Answer(Ok(Detailed(r.value), None), r.entries)
    else Answer(Forbidden(), entries)
  }

  /**
   * Who gets which status: a customer's history is open to every signed-in
   * role, and a store failure shows only when the list was not cached.
   */
  lemma GetStatus(session: Option<Rbac.Session>, customerId: Option<string>, db: Db, entries: DbService.Entries,
                  now: Millis, fault: bool)
    ensures Get(session, customerId, db, entries, now, fault).reply.Status() == 401 <==> session.None?
    ensures Get(session, customerId, db, entries, now, fault).reply.Status() == 403
      <==> session.Some? && !Truthy(customerId) && session.value.role !in {"agent", "supervisor", "admin"}
    ensures Get(session, customerId, db, entries, now, fault).reply.Status() == 500
      <==> (session.Some? && fault
            && (|| Truthy(customerId)
                || (session.value.role == "agent" && !DbService.HasInteractionList(entries, session.value.userId, now))
                || (session.value.role in {"supervisor", "admin"} && !DbService.HasDetailList(entries, now))))
    ensures Get(session, customerId, db, entries, now, fault).reply.Status() in {200, 401, 403, 500}
  {
  }

  /** A GET changes at most the cache entry of the list it read. */
  lemma GetTouchesOnlyItsKey(s: Rbac.Session, customerId: Option<string>, db: Db, entries: DbService.Entries,
                             now: Millis, fault: bool)
    ensures var key := if s.role == "agent" then InteractionsKey(s.userId) else DETAILS_KEY;
      Get(Some(s), customerId, db, entries, now, fault).entries - {key} == entries - {key}
  {
    var key := if s.role == "agent" then InteractionsKey(s.userId) else DETAILS_KEY;
    var a := Get(Some(s), customerId, db, entries, now, fault);
    if !Truthy(customerId) && s.role in {"agent", "supervisor", "admin"} {
      assert a.entries - {key} == entries - {key};
    }
  }

  /** A listing by customer holds exactly that customer's interactions, newest first, whoever asks; the cache is not read. */
  lemma GetByCustomer(s: Rbac.Session, customerId: string, db: Db, entries: DbService.Entries, now: Millis,
                      i: Interaction)
    requires customerId != ""
    ensures Get(Some(s), Some(customerId), db, entries, now, false).reply.Ok?
    ensures Get(Some(s), Some(customerId), db, entries, now, false).reply.data.Plain?
    ensures Get(Some(s), Some(customerId), db, entries, now, false).entries == entries
    ensures SortedByDateDesc(Get(Some(s), Some(customerId), db, entries, now, false).reply.data.interactions)
    ensures i in Get(Some(s), Some(customerId), db, entries, now, false).reply.data.interactions
      <==> i in db.interactions && i.customerId == customerId
  {
    var r := Get(Some(s), Some(customerId), db, entries, now, false).reply;
    var f := Filter(db.interactions, DbService.ByCustomer(customerId));
    assert r.data.interactions == SortByDateDesc(f);
    SortByDateDescSorted(f);
    SortedFilterMembers(db.interactions, DbService.ByCustomer(customerId), i);
  }

  /**
   * Without a customer, and with no live list cached for the agent, an agent
   * is shown its own stored interactions only, newest first, and that list
   * is cached from then on.
   */
  lemma AgentSeesOwn(s: Rbac.Session, db: Db, entries: DbService.Entries, now: Millis, i: Interaction)
    requires s.role == "agent"
    requires !DbService.HasInteractionList(entries, s.userId, now)
    ensures Get(Some(s), None, db, entries, now, false).reply.Ok?
    ensures i in Get(Some(s), None, db, entries, now, false).reply.data.interactions
      <==> i in db.interactions && i.agentId == s.userId
    ensures SortedByDateDesc(Get(Some(s), None, db, entries, now, false).reply.data.interactions)
    ensures Cache.Lookup(Get(Some(s), None, db, entries, now, false).entries, InteractionsKey(s.userId), now)
      == Some(DbService.InteractionList(Get(Some(s), None, db, entries, now, false).reply.data.interactions))
  {
    var f := Filter(db.interactions, DbService.ByAgent(s.userId));
    assert Get(Some(s), None, db, entries, now, false).reply.data.interactions == SortByDateDesc(f);
    SortByDateDescSorted(f);
    SortedFilterMembers(db.interactions, DbService.ByAgent(s.userId), i);
  }

  /** With a live list cached for the agent, the agent is served that list, whatever the store holds. */
  lemma AgentServedFromCache(s: Rbac.Session, db: Db, entries: DbService.Entries, now: Millis, fault: bool,
                             v: seq<Interaction>)
    requires s.role == "agent"
    requires Cache.Lookup(entries, InteractionsKey(s.userId), now) == Some(DbService.InteractionList(v))
    ensures Get(Some(s), None, db, entries, now, fault) == Answer(Ok(Plain(v), None), entries)
  {
  }

  // ---------------------------------------------------------------------
  // POST
  // ---------------------------------------------------------------------

  /** `body.agentId = session.user.id` for an agent. */
  function Stamped(s: Rbac.Session, body: InteractionInput): (b: InteractionInput)
    ensures s.role == "agent" ==> b.agentId == Some(s.userId)
    ensures s.role != "agent" ==> b == body
    ensures b.(agentId := body.agentId) == body
  {
    if s.role == "agent" then body.(agentId := Some(s.userId)) else body
  }

  /** `body.callDuration || 0` for a duration that passed validation. */
  function DurationOrZero(d: DurationInput): (n: int)
    ensures d.Number? ==> n == d.seconds
    ensures !d.Number? ==> n == 0
  {
    match d
    case Number(n) => n
    case _ => 0
  }

  /** `body.followUpStatus || 'pending'`: an absent or empty status is pending. */
  function FollowUpOrPending(x: Option<string>): (f: FollowUpStatus)
    ensures Truthy(x) && ParseFollowUp(x.value).Some? ==> f == ParseFollowUp(x.value).value
    ensures !Truthy(x) ==> f == Pending
  {
    if !Truthy(x) then Pending
    else
      match ParseFollowUp(x.value)
      case Some(f) => f
      case None => Pending
  }

  /** `body.callStatus || 'called'`: an absent or empty status is called. */
  function CallStatusOrCalled(x: Option<string>): (c: CallStatus)
    ensures Truthy(x) && ParseCallStatus(x.value).Some? ==> c == ParseCallStatus(x.value).value
    ensures !Truthy(x) ==> c == Called
  {
    if !Truthy(x) then Called
    else
      match ParseCallStatus(x.value)
      case Some(c) => c
      case None => Called
  }

  /** `body.date ? new Date(body.date) : new Date()`: an absent or zero date means now. */
  function DateOrNow(date: Option<Millis>, now: Millis): (d: Millis)
    ensures date.Some? && date.value != 0 ==> d == date.value
    ensures date.None? || date.value == 0 ==> d == now
  {
    if date.Some? && date.value != 0 then date.value else now
  }

  /** `interactionData`, given the id the store assigns. */
  function NewInteraction(b: InteractionInput, id: Id, now: Millis): Interaction {
    Interaction(
      id, OrEmpty(b.customerId), OrEmpty(b.agentId), Some(DurationOrZero(b.callDuration)),
      FollowUpOrPending(b.followUpStatus), Some(OrEmpty(b.note)),
      if Truthy(b.supervisorComment) then b.supervisorComment else None,
      CallStatusOrCalled(b.callStatus), DateOrNow(b.date, now), now, now)
  }

  /**
   * POST: `body` is `None` when the request body is not JSON; `id` is the
   * id the store assigns; `fault` is a failure of the store.
   */
  function Post(session: Option<Rbac.Session>, body: Option<InteractionInput>, db: Db, id: Id, now: Millis,
                fault: bool): Outcome<Interaction>
  {
    if session.None? then Refuse(Unauthorized(), db)
    else if !HasRole(session.value, {"agent", "admin"}) then Refuse(Forbidden(), db)
    else if body.None? then Refuse(ServerError(), db)
    else
      var b := Stamped(session.value, body.value);
      var verdict := VerdictOf(InteractionErrors(CheckInteraction(b)));
      if verdict.Failure? then Refuse(Invalid(Messages(verdict.errors)), db)
      else if fault then Refuse(ServerError(), db)
      else
        var i := NewInteraction(b, id, now);
        Outcome(Ok(i, Some("Interaction recorded successfully")),
                db.(interactions := db.interactions + [i]), {InteractionsKey(i.agentId), DETAILS_KEY})
  }

  /** An interaction is recorded exactly when an agent or admin sends a valid body and the store works. */
  lemma PostRecordsIffValid(session: Option<Rbac.Session>, body: Option<InteractionInput>, db: Db, id: Id,
                            now: Millis, fault: bool)
    ensures Post(session, body, db, id, now, fault).reply.Ok?
      <==> (session.Some? && session.value.role in {"agent", "admin"} && body.Some? && !fault
            && InteractionErrors(CheckInteraction(Stamped(session.value, body.value))) == [])
    ensures Post(session, body, db, id, now, fault).reply.Status() == 401 <==> session.None?
    ensures Post(session, body, db, id, now, fault).reply.Status() == 403
      <==> session.Some? && session.value.role !in {"agent", "admin"}
  {
  }

  /** A recorded interaction is appended and drops its agent's list and the detailed list from the cache; a refusal changes nothing. */
  lemma PostEffect(session: Option<Rbac.Session>, body: Option<InteractionInput>, db: Db, id: Id, now: Millis,
                   fault: bool)
    ensures var o := Post(session, body, db, id, now, fault);
      o.reply.Ok? ==> o.db == db.(interactions := db.interactions + [o.reply.data])
                      && o.evicted == {InteractionsKey(o.reply.data.agentId), DETAILS_KEY}
    ensures var o := Post(session, body, db, id, now, fault);
      !o.reply.Ok? ==> o.db == db && o.evicted == {}
  {
  }

  /** The defaults a recorded interaction gets, and the agent it is recorded for. */
  lemma PostDefaults(s: Rbac.Session, body: InteractionInput, db: Db, id: Id, now: Millis)
    requires Post(Some(s), Some(body), db, id, now, false).reply.Ok?
    ensures var i := Post(Some(s), Some(body), db, id, now, false).reply.data;
      && (s.role == "agent" ==> i.agentId == s.userId)
      && (body.callDuration.Undefined? ==> i.callDuration == Some(0))
      && (body.callDuration.Number? ==> i.callDuration == Some(body.callDuration.seconds) && body.callDuration.seconds >= 0)
      && (!Truthy(body.followUpStatus) ==> i.followUpStatus == Pending)
      && (Truthy(body.followUpStatus) ==> FollowUpName(i.followUpStatus) == body.followUpStatus.value)
      && (!Truthy(body.note) ==> i.note == Some(""))
      && (Truthy(body.supervisorComment) ==> i.supervisorComment == body.supervisorComment)
      && (!Truthy(body.supervisorComment) ==> i.supervisorComment.None?)
      && (!Truthy(body.callStatus) ==> i.callStatus == Called)
      && (Truthy(body.callStatus) ==> CallStatusName(i.callStatus) == body.callStatus.value)
      && (body.date.None? ==> i.date == now)
  {
    var b := Stamped(s, body);
    InteractionRequiredMembership(CheckInteraction(b));
    InteractionOptionalMembership(CheckInteraction(b));
    if Truthy(body.followUpStatus) {
      var f := ParseFollowUp(body.followUpStatus.value).value;
      assert FollowUpName(f) == body.followUpStatus.value;
    }
    if Truthy(body.callStatus) {
      var c := ParseCallStatus(body.callStatus.value).value;
      assert CallStatusName(c) == body.callStatus.value;
    }
  }

  /** A successful POST stores the interaction built from the stamped body. */
  lemma PostStoresNew(s: Rbac.Session, body: InteractionInput, db: Db, id: Id, now: Millis)
    requires Post(Some(s), Some(body), db, id, now, false).reply.Ok?
    ensures Post(Some(s), Some(body), db, id, now, false).reply.data == NewInteraction(Stamped(s, body), id, now)
  {
  }

  // ---------------------------------------------------------------------
  // PUT
  // ---------------------------------------------------------------------

  /** A JSON `supervisorComment`: left out of the body, `null`, or text. */
  datatype CommentField = Omitted | Null | Text(text: string)

  /**
   * A PUT body: the interaction's `id`, its `supervisorComment`, and the
   * other fields the client sent, which the handler does not read (the
   * comment is the `supervisorComment` above, not the one in `others`).
   */
  datatype UpdateInput = UpdateInput(id: Option<string>, supervisorComment: CommentField, others: InteractionInput)

  /** A body with none of the interaction's other fields. */
  const NO_FIELDS: InteractionInput := InteractionInput(None, None, Undefined, None, None, None, None, None)

  /** `updates`: the comment exactly when the body has the key (`!== undefined`), `null` included. */
  function PatchOf(body: UpdateInput): (p: InteractionPatch)
    ensures p.supervisorComment.None? <==> body.supervisorComment.Omitted?
    ensures body.supervisorComment.Null? ==> p.supervisorComment == Some(None)
    ensures body.supervisorComment.Text? ==> p.supervisorComment == Some(Some(body.supervisorComment.text))
  {
    match body.supervisorComment
    case Omitted => InteractionPatch(None)
    case Null => InteractionPatch(Some(None))
    case Text(c) => InteractionPatch(Some(Some(c)))
  }

  /** PUT: `body` is `None` when the request body is not JSON; `fault` is a failure of the store. */
  function Put(session: Option<Rbac.Session>, body: Option<UpdateInput>, db: Db, now: Millis, fault: bool)
    : Outcome<Interaction>
  {
    if session.None? then Refuse(Unauthorized(), db)
    else if !HasRole(session.value, {"supervisor", "admin"}) then Refuse(Forbidden(), db)
    else if body.None? then Refuse(ServerError(), db)
    else if !Truthy(body.value.id) then Refuse(Fail(400, "Interaction ID is required"), db)
    else if fault then Refuse(ServerError(), db)
    else
      var patch := PatchOf(body.value);
      var (updated, found) :=
        UpdateFirst(db.interactions, InteractionId, body.value.id.value, (i: Interaction) => PatchInteraction(i, patch, now));
      if found.None? then Refuse(Fail(404, "Interaction not found"), db)
      else Outcome(Ok(found.value, Some("Interaction updated successfully")),
                   db.(interactions := updated), {DETAILS_KEY})
  }

  /** Who gets which status. */
  lemma PutStatus(session: Option<Rbac.Session>, body: Option<UpdateInput>, db: Db, now: Millis, fault: bool)
    ensures Put(session, body, db, now, fault).reply.Status() == 401 <==> session.None?
    ensures Put(session, body, db, now, fault).reply.Status() == 403
      <==> session.Some? && session.value.role !in {"supervisor", "admin"}
    ensures Put(session, body, db, now, fault).reply.Status() == 404
      <==> (session.Some? && session.value.role in {"supervisor", "admin"} && body.Some?
            && Truthy(body.value.id) && !fault
            && forall j :: 0 <= j < |db.interactions| ==> db.interactions[j].id != body.value.id.value)
  {
  }

  /** The update sees only the id and the comment: every other field of the body is ignored. */
  lemma PutIgnoresOtherFields(session: Option<Rbac.Session>, id: Option<string>, c: CommentField, f: InteractionInput,
                              g: InteractionInput, db: Db, now: Millis, fault: bool)
    ensures Put(session, Some(UpdateInput(id, c, f)), db, now, fault) == Put(session, Some(UpdateInput(id, c, g)), db, now, fault)
  {
  }

  /**
   * A successful update changes one stored interaction, and of it only the
   * comment (when the body has the key; `null` clears it) and the update time; the detailed list is
   * dropped from the cache. Any refusal changes nothing.
   */
  lemma PutEffect(s: Rbac.Session, body: UpdateInput, db: Db, now: Millis)
    ensures var o := Put(Some(s), Some(body), db, now, false);
      o.reply.Ok? ==>
        && |o.db.interactions| == |db.interactions|
        && o.db.users == db.users && o.db.customers == db.customers
        && o.evicted == {DETAILS_KEY}
        && var k := IndexOf(db.interactions, InteractionId, body.id.value).value;
           && o.db.interactions == db.interactions[k := o.reply.data]
           && o.reply.data.(supervisorComment := db.interactions[k].supervisorComment,
                            updatedAt := db.interactions[k].updatedAt) == db.interactions[k]
           && o.reply.data.updatedAt == now
           && (body.supervisorComment.Text? ==> o.reply.data.supervisorComment == Some(body.supervisorComment.text))
           && (body.supervisorComment.Null? ==> o.reply.data.supervisorComment == None)
           && (body.supervisorComment.Omitted? ==> o.reply.data.supervisorComment == db.interactions[k].supervisorComment)
    ensures var o := Put(Some(s), Some(body), db, now, false);
      !o.reply.Ok? ==> o.db == db && o.evicted == {}
  {
  }

  /** A supervisor's or admin's `{ id, supervisorComment: null }` on a stored interaction clears its comment. */
  lemma NullCommentClears(s: Rbac.Session, id: string, db: Db, now: Millis)
    requires s.role in {"supervisor", "admin"}
    requires id != ""
    requires IndexOf(db.interactions, InteractionId, id).Some?
    ensures var o := Put(Some(s), Some(UpdateInput(Some(id), Null, NO_FIELDS)), db, now, false);
      o.reply.Ok? && o.reply.data.id == id && o.reply.data.supervisorComment == None
      && o.db.interactions[IndexOf(db.interactions, InteractionId, id).value] == o.reply.data
  {
    var body := UpdateInput(Some(id), Null, NO_FIELDS);
    var k := IndexOf(db.interactions, InteractionId, id).value;
    PutStatus(Some(s), Some(body), db, now, false);
    PutEffect(s, body, db, now);
  }

  // ---------------------------------------------------------------------
  // A comment and the cached lists
  // ---------------------------------------------------------------------

  /** A comment's update reaches the supervisors' list: the detailed list is read afresh afterwards. */
  lemma CommentReachesDetails(sup: Rbac.Session, body: UpdateInput, db: Db, entries: DbService.Entries,
                              now: Millis, later: Millis)
    requires sup.role in {"supervisor", "admin"}
    ensures var p := Put(Some(sup), Some(body), db, now, false);
      p.reply.Ok? ==>
        Get(Some(sup), None, p.db, entries - p.evicted, later, false).reply == Ok(Detailed(InteractionsWithDetails(p.db)), None)
  {
    PutEffect(sup, body, db, now);
  }

  /**
   * As written, a comment leaves an agent's cached list in place: within a
   * minute of the agent's GET that filled the cache, the agent's next GET
   * returns the same list, whatever the PUT stored in between.
   */
  lemma CommentLeavesAgentListCached(a: Rbac.Session, sup: Rbac.Session, body: UpdateInput, db: Db,
                                     entries: DbService.Entries, t0: Millis, t1: Millis, t2: Millis)
    requires a.role == "agent"
    requires !DbService.HasInteractionList(entries, a.userId, t0)
    requires t0 <= t2 <= t0 + DbService.INTERACTIONS_TTL
    ensures var g1 := Get(Some(a), None, db, entries, t0, false);
      var p := Put(Some(sup), Some(body), db, t1, false);
      Get(Some(a), None, p.db, g1.entries - p.evicted, t2, false).reply == g1.reply
  {
    var key := InteractionsKey(a.userId);
    var g1 := Get(Some(a), None, db, entries, t0, false);
    var p := Put(Some(sup), Some(body), db, t1, false);
    PutEffect(sup, body, db, t1);
    CacheKeysDistinct(a.userId, a.userId);
    assert key !in p.evicted;
    var l := g1.reply.data.interactions;
    assert g1.entries[key] == Cache.Entry(DbService.InteractionList(l), t0 + DbService.INTERACTIONS_TTL);
    AgentServedFromCache(a, p.db, g1.entries - p.evicted, t2, false, l);
  }

  /** The stored interaction of the example below: agent "A"'s call to customer "C", without a comment. */
  const EXAMPLE_CALL: Interaction := Interaction("I", "C", "A", None, Pending, None, None, Called, 0, 0, 0)

  /**
   * The stale comment, on one call: agent A lists its calls at time 0, a
   * supervisor comments "call back" on the call at time 1, and at time 2
   * agent A is still shown the call without the comment the store now holds.
   */
  lemma StaleCommentExample()
    ensures var db := Db([], [], [EXAMPLE_CALL]);
      var agent := Rbac.Session("A", "agent");
      var sup := Rbac.Session("S", "supervisor");
      var g1 := Get(Some(agent), None, db, map[], 0, false);
      var p := Put(Some(sup), Some(UpdateInput(Some("I"), Text("call back"), NO_FIELDS)), db, 1, false);
      var g2 := Get(Some(agent), None, p.db, g1.entries - p.evicted, 2, false);
      && p.reply.Ok?
      && p.db.interactions[0].supervisorComment == Some("call back")
      && g2.reply == Ok(Plain([EXAMPLE_CALL]), None)
      && EXAMPLE_CALL.supervisorComment == None
  {
    var db := Db([], [], [EXAMPLE_CALL]);
    var agent := Rbac.Session("A", "agent");
    var sup := Rbac.Session("S", "supervisor");
    var body := UpdateInput(Some("I"), Text("call back"), NO_FIELDS);
    assert Filter(db.interactions, DbService.ByAgent("A")) == [EXAMPLE_CALL];
    SortByDateDescSorted([EXAMPLE_CALL]);
    assert SortByDateDesc([EXAMPLE_CALL]) == [EXAMPLE_CALL];
    CommentLeavesAgentListCached(agent, sup, body, db, map[], 0, 1, 2);
    PutEffect(sup, body, db, 1);
  }

  /**
   * PUT with the eviction a comment calls for: besides the detailed list,
   * the list cached for the commented interaction's agent is dropped, as
   * recording an interaction does. Reply and store are those of `Put`.
   */
  function PutInvalidating(session: Option<Rbac.Session>, body: Option<UpdateInput>, db: Db, now: Millis, fault: bool)
    : (o: Outcome<Interaction>)
    ensures o.reply == Put(session, body, db, now, fault).reply && o.db == Put(session, body, db, now, fault).db
    ensures o.reply.Ok? ==> o.evicted == {DETAILS_KEY, InteractionsKey(o.reply.data.agentId)}
    ensures !o.reply.Ok? ==> o.evicted == {}
  {
    var o := Put(session, body, db, now, fault);
    if o.reply.Ok? then o.(evicted := o.evicted + {InteractionsKey(o.reply.data.agentId)}) else o
  }

  /**
   * With that eviction, the comment reaches the agent: the agent's next GET
   * reads the store afresh and shows the commented interaction as stored.
   */
  lemma CommentReachesAgentList(a: Rbac.Session, sup: Rbac.Session, body: UpdateInput, db: Db,
                                entries: DbService.Entries, t0: Millis, t1: Millis, t2: Millis)
    requires a.role == "agent"
    ensures var g1 := Get(Some(a), None, db, entries, t0, false);
      var p := PutInvalidating(Some(sup), Some(body), db, t1, false);
      p.reply.Ok? && p.reply.data.agentId == a.userId ==>
        var g2 := Get(Some(a), None, p.db, g1.entries - p.evicted, t2, false);
        && g2.reply == Ok(Plain(SortByDateDesc(Filter(p.db.interactions, DbService.ByAgent(a.userId)))), None)
        && p.reply.data in g2.reply.data.interactions
  {
    var g1 := Get(Some(a), None, db, entries, t0, false);
    var p := PutInvalidating(Some(sup), Some(body), db, t1, false);
    if p.reply.Ok? && p.reply.data.agentId == a.userId {
      var e := g1.entries - p.evicted;
      assert InteractionsKey(a.userId) !in e;
      Cache.LookupMissing(e, InteractionsKey(a.userId), t2);
      PutEffect(sup, body, db, t1);
      var k := IndexOf(db.interactions, InteractionId, body.id.value).value;
      assert p.db.interactions[k] == p.reply.data;
      AgentSeesOwn(a, p.db, e, t2, p.reply.data);
    }
  }
}
