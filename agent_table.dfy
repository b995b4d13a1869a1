/**
 * The agent dashboard's customer table, beyond the shared pipeline: the
 * interaction editor's defaults, the interaction bodies it posts, and the
 * row selection with its bulk delete and select-all.
 */
module AgentTable {
  import opened Wrappers
  import opened Strings
  import opened Models
  import Rbac
  import opened Validation
  import opened Queries
  import opened CustomerTable
  import InteractionsRoute

  // ---------------------------------------------------------------------
  // The interaction editor
  // ---------------------------------------------------------------------

  /** `interactionFormData`: a partial interaction; a field the editor has not set is `None`. */
  datatype InteractionForm = InteractionForm(
    callDuration: Option<int>, followUpStatus: Option<FollowUpStatus>, callStatus: Option<CallStatus>,
    note: Option<string>, supervisorComment: Option<string>)

  /** The form after adding a customer or cancelling the add row. */
  const BLANK_FORM: InteractionForm := InteractionForm(Some(0), Some(Pending), Some(Called), Some(""), Some(""))

  /** The override that changes nothing. */
  const NO_OVERRIDE: InteractionForm := InteractionForm(None, None, None, None, None)

  /**
   * `handleEditClick`: the editor starts from the latest interaction, with
   * `|| 0`, `|| 'pending'`, `|| 'called'` and `|| ''` where it lacks a value.
   */
  function EditDefaults(latest: Option<Interaction>): (f: InteractionForm)
    ensures latest.None? ==> f == BLANK_FORM
    ensures f.callDuration.Some? && f.followUpStatus.Some? && f.callStatus.Some? && f.note.Some?
    ensures f.supervisorComment.Some?
  {
    match latest
    case None => BLANK_FORM
    case Some(l) =>
      InteractionForm(Some(l.callDuration.GetOr(0)), Some(l.followUpStatus), Some(l.callStatus),
                      Some(OrEmpty(l.note)), Some(OrEmpty(l.supervisorComment)))
  }

  /** `{ ...form, ...override }`: a field the override gives wins. */
  function Overlay(form: InteractionForm, over: InteractionForm): (f: InteractionForm)
    ensures over == NO_OVERRIDE ==> f == form
    ensures over.callDuration.Some? ==> f.callDuration == over.callDuration
    ensures over.callDuration.None? ==> f.callDuration == form.callDuration
  {
    InteractionForm(
      if over.callDuration.Some? then over.callDuration else form.callDuration,
      if over.followUpStatus.Some? then over.followUpStatus else form.followUpStatus,
      if over.callStatus.Some? then over.callStatus else form.callStatus,
      if over.note.Some? then over.note else form.note,
      if over.supervisorComment.Some? then over.supervisorComment else form.supervisorComment)
  }

  function DurationOf(d: Option<int>): DurationInput {
    match d
    case None => Undefined
    case Some(n) => Number(n)
  }

  function FollowUpText(f: Option<FollowUpStatus>): Option<string> {
    match f
    case None => None
    case Some(v) => Some(FollowUpName(v))
  }

  function CallStatusText(c: Option<CallStatus>): Option<string> {
    match c
    case None => None
    case Some(v) => Some(CallStatusName(v))
  }

  /** `canEditSupervisor = !isAgent`: everyone but a signed-in agent. */
  predicate CanEditSupervisor(session: Option<Rbac.Session>) {
    !(session.Some? && session.value.role == "agent")
  }

  function SessionUserId(session: Option<Rbac.Session>): Option<Id> {
    if session.Some? then Some(session.value.userId) else None
  }

  /**
   * The interaction snapshot posted after a new customer is created or a
   * row is saved: the form under the override, the customer, the session's
   * user as agent and the date `date`; the supervisor comment is deleted
   * unless the user may edit it.
   */
  function Snapshot(session: Option<Rbac.Session>, form: InteractionForm, over: InteractionForm, customerId: Id,
                    date: Millis): (p: InteractionInput)
    ensures p.customerId == Some(customerId) && p.agentId == SessionUserId(session) && p.date == Some(date)
    ensures !CanEditSupervisor(session) ==> p.supervisorComment.None?
    ensures CanEditSupervisor(session) ==> p.supervisorComment == Overlay(form, over).supervisorComment
  {
    var f := Overlay(form, over);
    InteractionInput(
      Some(customerId), SessionUserId(session), DurationOf(f.callDuration), FollowUpText(f.followUpStatus), f.note,
      if CanEditSupervisor(session) then f.supervisorComment else None, CallStatusText(f.callStatus), Some(date))
  }

  /**
   * The body posted when a call recording stops: the recorded duration, the
   * form's statuses and note with the usual defaults, and the comment only
   * when the user may edit it and it is not empty.
   */
  function RecordingBody(session: Option<Rbac.Session>, form: InteractionForm, customerId: Id, date: Millis,
                         seconds: nat): (p: InteractionInput)
    ensures p.customerId == Some(customerId) && p.agentId == SessionUserId(session) && p.date == Some(date)
    ensures p.callDuration == Number(seconds)
    ensures p.followUpStatus.Some? && p.callStatus.Some? && p.note.Some?
    ensures !CanEditSupervisor(session) ==> p.supervisorComment.None?
    ensures p.supervisorComment.Some? ==> Truthy(p.supervisorComment) && p.supervisorComment == form.supervisorComment
  {
    InteractionInput(
      Some(customerId), SessionUserId(session), Number(seconds),
      Some(FollowUpName(form.followUpStatus.GetOr(Pending))), Some(OrEmpty(form.note)),
      if CanEditSupervisor(session) && Truthy(form.supervisorComment) then form.supervisorComment else None,
      Some(CallStatusName(form.callStatus.GetOr(Called))), Some(date))
  }

  /**
   * An interaction an agent records from the table, whichever of the two
   * bodies it posts, is stored under the agent and without a supervisor
   * comment, whatever the form held.
   */
  lemma AgentRecordsNoComment(s: Rbac.Session, form: InteractionForm, over: InteractionForm, customerId: Id,
                              date: Millis, seconds: nat, db: Db, id: Id, now: Millis)
    requires s.role == "agent"
    ensures var o := InteractionsRoute.Post(Some(s), Some(Snapshot(Some(s), form, over, customerId, date)), db, id, now, false);
      o.reply.Ok? ==> o.reply.data.supervisorComment.None? && o.reply.data.agentId == s.userId
    ensures var o := InteractionsRoute.Post(Some(s), Some(RecordingBody(Some(s), form, customerId, date, seconds)), db, id, now, false);
      o.reply.Ok? ==> o.reply.data.supervisorComment.None? && o.reply.data.agentId == s.userId
  {
    var p := Snapshot(Some(s), form, over, customerId, date);
    if InteractionsRoute.Post(Some(s), Some(p), db, id, now, false).reply.Ok? {
      InteractionsRoute.PostDefaults(s, p, db, id, now);
    }
    var r := RecordingBody(Some(s), form, customerId, date, seconds);
    if InteractionsRoute.Post(Some(s), Some(r), db, id, now, false).reply.Ok? {
      InteractionsRoute.PostDefaults(s, r, db, id, now);
    }
  }

  /**
   * Saving a row whose editor was left as opened records a new interaction
   * that repeats the latest one's duration, statuses and note, dated at the
   * save.
   */
  lemma UnchangedEditRepeatsLatest(s: Rbac.Session, latest: Interaction, customerId: Id, date: Millis, db: Db,
                                   id: Id, now: Millis)
    requires InteractionsRoute.Post(
      Some(s), Some(Snapshot(Some(s), EditDefaults(Some(latest)), NO_OVERRIDE, customerId, date)), db, id, now, false).reply.Ok?
    ensures var i := InteractionsRoute.Post(
      Some(s), Some(Snapshot(Some(s), EditDefaults(Some(latest)), NO_OVERRIDE, customerId, date)), db, id, now, false).reply.data;
      && i.callDuration == Some(latest.callDuration.GetOr(0))
      && i.followUpStatus == latest.followUpStatus
      && i.callStatus == latest.callStatus
      && i.note == Some(OrEmpty(latest.note))
      && i.customerId == customerId
      && i.date == (if date != 0 then date else now)
  {
    var p := Snapshot(Some(s), EditDefaults(Some(latest)), NO_OVERRIDE, customerId, date);
    InteractionsRoute.PostStoresNew(s, p, db, id, now);
    FollowUpNameRoundTrip(latest.followUpStatus);
    CallStatusNameRoundTrip(latest.callStatus);
    var b := InteractionsRoute.Stamped(s, p);
    assert b.followUpStatus == Some(FollowUpName(latest.followUpStatus));
    assert b.callStatus == Some(CallStatusName(latest.callStatus));
  }

  // ---------------------------------------------------------------------
  // Selection and bulk delete
  // ---------------------------------------------------------------------

  /** `selectedIds`: the keys of `selected` whose box is ticked. */
  function SelectedIds(selected: map<string, bool>): (ids: set<string>)
    ensures forall k :: k in ids <==> k in selected && selected[k]
  {
    set k | k in selected && selected[k]
  }

  /** `next[id]` read as a boolean: an absent key is unticked. */
  predicate Ticked(selected: map<string, bool>, id: string) {
    id in selected && selected[id]
  }

  /** `allVisibleSelected`: the page is not empty and every row on it is ticked. */
  predicate AllVisibleSelected(selected: map<string, bool>, paged: seq<TableRow>) {
    |paged| > 0 && forall i :: 0 <= i < |paged| ==> Ticked(selected, paged[i].customer.id)
  }

  /** `selectedIds.forEach(id => { delete next[id]; })` */
  method Deselect(selected: map<string, bool>, ids: set<string>) returns (next: map<string, bool>)
    ensures forall k :: k in next <==> k in selected && k !in ids
    ensures forall k :: k in next ==> next[k] == selected[k]
  {
    next := selected;
    var rest := ids;
    while rest != {}
      invariant rest <= ids
      invariant forall k :: k in next <==> k in selected && k !in ids - rest
      invariant forall k :: k in next ==> next[k] == selected[k]
      decreases rest
    {
      var id :| id in rest;
      next := next - {id};
      rest := rest - {id};
    }
  }

  /** The test `prev.filter` applies: the row's key is not ticked. */
  function Unticked(selected: map<string, bool>): TableRow -> bool {
    (t: TableRow) => !Ticked(selected, RowId(t))
  }

  /**
   * `handleBulkDelete`'s local update, once the deletions were sent: the
   * ticked rows leave the list, the others keep their order, and their keys
   * leave the selection.
   */
  method BulkDelete(rows: seq<TableRow>, selected: map<string, bool>)
    returns (rows': seq<TableRow>, selected': map<string, bool>)
    ensures rows' == Filter(rows, Unticked(selected))
    ensures forall i :: 0 <= i < |rows'| ==> rows'[i] in rows && !Ticked(selected, RowId(rows'[i]))
    ensures forall i :: 0 <= i < |rows| && !Ticked(selected, RowId(rows[i])) ==> rows[i] in rows'
    ensures SelectedIds(selected') == {}
    ensures forall k :: k in selected' <==> k in selected && !selected[k]
  {
    var ids := SelectedIds(selected);
    if ids == {} {
      forall x: TableRow ensures Unticked(selected)(x) {
        assert RowId(x) !in ids;
      }
      FilterAll(rows, Unticked(selected));
      return rows, selected;
    }
    rows' := Filter(rows, Unticked(selected));
    selected' := Deselect(selected, ids);
  }

  /** Every non-empty id of the page. */
  function PageIds(paged: seq<TableRow>): (ids: set<string>)
    ensures forall k :: k in ids <==> k != "" && exists i :: 0 <= i < |paged| && RowId(paged[i]) == k
  {
    set i | 0 <= i < |paged| && RowId(paged[i]) != "" :: RowId(paged[i])
  }

  /**
   * The "select all" box: every row of the page with a non-empty id gets
   * the box's state; the rest of the selection is kept. Ticking it on a page
   * whose rows all have ids makes the whole page selected, and unticking it
   * leaves the page unselected.
   */
  method SelectPage(selected: map<string, bool>, paged: seq<TableRow>, checked: bool)
    returns (next: map<string, bool>)
    ensures forall k :: k in next <==> k in selected || k in PageIds(paged)
    ensures forall k :: k in next ==> next[k] == if k in PageIds(paged) then checked else selected[k]
    ensures checked && |paged| > 0 && (forall i :: 0 <= i < |paged| ==> RowId(paged[i]) != "")
            ==> AllVisibleSelected(next, paged)
    ensures !checked && |paged| > 0 && RowId(paged[0]) != "" ==> !AllVisibleSelected(next, paged)
  {
    next := selected;
    for i := 0 to |paged|
      invariant forall k :: k in next <==> k in selected || k in PageIds(paged[..i])
      invariant forall k :: k in next ==> next[k] == if k in PageIds(paged[..i]) then checked else selected[k]
    {
      assert paged[..i + 1] == paged[..i] + [paged[i]];
      var id := RowId(paged[i]);
      if id != "" {
        next := next[id := checked];
      }
    }
    assert paged[..|paged|] == paged;
    if checked && |paged| > 0 && (forall i :: 0 <= i < |paged| ==> RowId(paged[i]) != "") {
      forall i | 0 <= i < |paged|
        ensures Ticked(next, RowId(paged[i]))
      {
        assert RowId(paged[i]) in PageIds(paged);
      }
    }
    if !checked && |paged| > 0 && RowId(paged[0]) != "" {
      assert RowId(paged[0]) in PageIds(paged);
    }
  }
}
