/**
 * The supervisor dashboard's customer table, beyond the shared pipeline:
 * editing the supervisor comment of a customer's latest interaction. Saving
 * either updates that interaction's comment, or (for an admin, when the
 * customer has none) records a first interaction carrying the comment, or
 * fails without sending anything.
 */
module SupervisorTable {
  import opened Wrappers
  import opened Strings
  import opened Models
  import Rbac
  import opened Validation
  import opened Queries
  import opened CustomerTable
  import InteractionsRoute

  /** The error shown when there is no interaction to comment on and the user may not record one. */
  const NO_PRIOR_INTERACTION: string :=
    "No prior interaction to comment on. Ask an agent/admin to record an interaction first."

  /** `handleEditClick`: the comment editor starts from the latest interaction's comment, or ''. */
  function EditStart(t: TableRow): (comment: string)
    ensures |t.interactions| == 0 ==> comment == ""
    ensures |t.interactions| > 0 && Truthy(t.interactions[0].supervisorComment)
            ==> comment == t.interactions[0].supervisorComment.value
  {
    if |t.interactions| > 0 then OrEmpty(t.interactions[0].supervisorComment) else ""
  }

  /** What saving sends: nothing, a PUT of the comment, a POST of a new interaction, or an error. */
  datatype SaveAction =
    | NoAction
    | PutComment(update: InteractionsRoute.UpdateInput)
    | PostInteraction(body: InteractionInput)
    | Refused(message: string)

  /** The PUT body `{ id, supervisorComment }`: no other field is sent. */
  function CommentBody(interactionId: Id, comment: string): InteractionsRoute.UpdateInput {
    InteractionsRoute.UpdateInput(Some(interactionId), InteractionsRoute.Text(comment), InteractionsRoute.NO_FIELDS)
  }

  /** The edited row's latest interaction, when it has one with an id. */
  function LatestWithId(rows: seq<TableRow>, editingId: Id): (r: Option<Interaction>)
    ensures r.Some? ==> r.value.id != "" && exists k :: 0 <= k < |rows| && RowId(rows[k]) == editingId
                                                       && |rows[k].interactions| > 0 && rows[k].interactions[0] == r.value
  {
    match FindFirst(rows, RowId, editingId)
    case None => None
    case Some(t) => if |t.interactions| > 0 && t.interactions[0].id != "" then Some(t.interactions[0]) else None
  }

  /**
   * `handleSaveEdit`. `editingId` is the customer being edited, `comment`
   * the editor's text and `date` the time of saving.
   */
  function SaveDecision(session: Option<Rbac.Session>, editingId: Option<Id>, rows: seq<TableRow>,
                        comment: Option<string>, date: Millis): (a: SaveAction)
    ensures a.NoAction? <==> !Truthy(editingId)
    ensures a.PutComment? <==> Truthy(editingId) && LatestWithId(rows, editingId.value).Some?
    ensures a.PutComment? ==> a.update == CommentBody(LatestWithId(rows, editingId.value).value.id, OrEmpty(comment))
    ensures a.PostInteraction? <==> (Truthy(editingId) && LatestWithId(rows, editingId.value).None?
                                     && session.Some? && session.value.role == "admin")
    ensures a.PostInteraction? ==>
      && a.body.customerId == editingId && a.body.supervisorComment == Some(OrEmpty(comment))
      && a.body.callDuration == Number(0) && a.body.followUpStatus == Some("pending")
      && a.body.callStatus == Some("called") && a.body.note == Some("") && a.body.date == Some(date)
      && a.body.agentId.Some?
      && (a.body.agentId.value == session.value.userId
          || exists k :: 0 <= k < |rows| && RowId(rows[k]) == editingId.value
                         && rows[k].customer.agentId == a.body.agentId.value)
    ensures a.Refused? ==> a.message == NO_PRIOR_INTERACTION
  {
    if !Truthy(editingId) then NoAction
    else
      var id := editingId.value;
      match LatestWithId(rows, id)
      case Some(latest) => PutComment(CommentBody(latest.id, OrEmpty(comment)))
      case None =>
        if session.Some? && session.value.role == "admin" then
          var target := FindFirst(rows, RowId, id);
          var agentId := if target.Some? && target.value.customer.agentId != "" then target.value.customer.agentId
                         else session.value.userId;
          PostInteraction(InteractionInput(
            Some(id), Some(agentId), Number(0), Some("pending"), Some(""), Some(OrEmpty(comment)), Some("called"),
            Some(date)))
        else Refused(NO_PRIOR_INTERACTION)
  }

  /**
   * A comment saved onto an existing interaction reaches the store: when the
   * supervisor's or admin's PUT succeeds, the stored interaction carries the
   * editor's text and is otherwise unchanged but for its update time.
   */
  lemma SavedCommentIsStored(s: Rbac.Session, editingId: Id, rows: seq<TableRow>, comment: Option<string>,
                             date: Millis, db: Db, now: Millis)
    requires SaveDecision(Some(s), Some(editingId), rows, comment, date).PutComment?
    ensures var a := SaveDecision(Some(s), Some(editingId), rows, comment, date);
      var o := InteractionsRoute.Put(Some(s), Some(a.update), db, now, false);
      o.reply.Ok? ==>
        && o.reply.data.supervisorComment == Some(OrEmpty(comment))
        && o.reply.data.id == LatestWithId(rows, editingId).value.id
        && o.reply.data.(supervisorComment := db.interactions[IndexOf(db.interactions, InteractionId, o.reply.data.id).value].supervisorComment,
                         updatedAt := db.interactions[IndexOf(db.interactions, InteractionId, o.reply.data.id).value].updatedAt)
           == db.interactions[IndexOf(db.interactions, InteractionId, o.reply.data.id).value]
  {
    var a := SaveDecision(Some(s), Some(editingId), rows, comment, date);
    InteractionsRoute.PutEffect(s, a.update, db, now);
    var o := InteractionsRoute.Put(Some(s), Some(a.update), db, now, false);
    if o.reply.Ok? {
      var k := IndexOf(db.interactions, InteractionId, a.update.id.value).value;
      assert db.interactions[k].id == a.update.id.value;
      assert o.reply.data.id == db.interactions[k].id;
    }
  }

  /**
   * An admin's first interaction for a customer records the comment (none
   * when it is empty) with the default duration and statuses.
   */
  lemma AdminFirstInteraction(s: Rbac.Session, editingId: Id, rows: seq<TableRow>, comment: Option<string>,
                              date: Millis, db: Db, id: Id, now: Millis)
    requires SaveDecision(Some(s), Some(editingId), rows, comment, date).PostInteraction?
    requires InteractionsRoute.Post(
      Some(s), Some(SaveDecision(Some(s), Some(editingId), rows, comment, date).body), db, id, now, false).reply.Ok?
    ensures var i := InteractionsRoute.Post(
      Some(s), Some(SaveDecision(Some(s), Some(editingId), rows, comment, date).body), db, id, now, false).reply.data;
      && i.customerId == editingId
      && i.supervisorComment == (if Truthy(comment) then comment else None)
      && i.callDuration == Some(0) && i.followUpStatus == Pending && i.callStatus == Called && i.note == Some("")
  {
    var b := SaveDecision(Some(s), Some(editingId), rows, comment, date).body;
    InteractionsRoute.PostStoresNew(s, b, db, id, now);
  }

  /**
   * `{ ...undefined, supervisorComment }`: the element the local update
   * builds for a row that had no interaction. It carries the comment and
   * nothing else; in particular it has no id. The record type has no absent
   * form for the other fields, so they hold "", `None`, `Pending`, `Called`
   * and 0 here.
   */
  function CommentOnly(comment: string): (i: Interaction)
    ensures i.id == "" && i.supervisorComment == Some(comment)
  {
    Interaction("", "", "", None, Pending, None, Some(comment), Called, 0, 0, 0)
  }

  /**
   * The local update after a save: the edited customer's row gets the
   * comment on its (only) interaction, or an element holding just the
   * comment when it had none; every other row is left alone.
   */
  function LocalUpdate(rows: seq<TableRow>, editingId: Id, comment: Option<string>): (r: seq<TableRow>)
    ensures |r| == |rows|
    ensures forall k :: 0 <= k < |rows| && RowId(rows[k]) != editingId ==> r[k] == rows[k]
    ensures forall k :: 0 <= k < |rows| && RowId(rows[k]) == editingId && |rows[k].interactions| > 0 ==>
      && r[k].customer == rows[k].customer && r[k].agentName == rows[k].agentName
      && r[k].interactions == [rows[k].interactions[0].(supervisorComment := Some(OrEmpty(comment)))]
    ensures forall k :: 0 <= k < |rows| && RowId(rows[k]) == editingId && |rows[k].interactions| == 0 ==>
      && r[k].customer == rows[k].customer && r[k].agentName == rows[k].agentName
      && r[k].interactions == [CommentOnly(OrEmpty(comment))]
  {
    seq(|rows|, k requires 0 <= k < |rows| =>
      if RowId(rows[k]) != editingId then rows[k]
      else if |rows[k].interactions| == 0 then rows[k].(interactions := [CommentOnly(OrEmpty(comment))])
      else rows[k].(interactions := [rows[k].interactions[0].(supervisorComment := Some(OrEmpty(comment)))]))
  }

  /**
   * After an admin's first interaction for a customer, the row shows the
   * comment but, lacking an id, offers nothing to update: until the rows are
   * fetched again, the editor reopens on the comment, and saving again posts
   * another interaction.
   */
  lemma CommentOnlyRowPostsAgain(s: Rbac.Session, editingId: Id, rows: seq<TableRow>, comment: Option<string>,
                                 again: Option<string>, date: Millis, k: nat)
    requires s.role == "admin" && editingId != ""
    requires k < |rows| && RowId(rows[k]) == editingId && |rows[k].interactions| == 0
    requires forall j :: 0 <= j < |rows| && RowId(rows[j]) == editingId ==> j == k
    ensures EditStart(LocalUpdate(rows, editingId, comment)[k]) == OrEmpty(comment)
    ensures SaveDecision(Some(s), Some(editingId), LocalUpdate(rows, editingId, comment), again, date).PostInteraction?
  {
    var r := LocalUpdate(rows, editingId, comment);
    assert forall j :: 0 <= j < |r| ==> RowId(r[j]) == RowId(rows[j]);
  }

  /**
   * What the table shows after a successful comment save agrees with the
   * store: the edited row's interaction is the stored one, up to its update
   * time, and its editor reopens on the saved text.
   */
  lemma LocalUpdateMatchesStore(s: Rbac.Session, editingId: Id, rows: seq<TableRow>, comment: Option<string>,
                                date: Millis, db: Db, now: Millis, k: nat)
    requires SaveDecision(Some(s), Some(editingId), rows, comment, date).PutComment?
    requires InteractionsRoute.Put(
      Some(s), Some(SaveDecision(Some(s), Some(editingId), rows, comment, date).update), db, now, false).reply.Ok?
    requires k < |rows| && RowId(rows[k]) == editingId && |rows[k].interactions| > 0
    requires rows[k].interactions[0] in db.interactions
    requires forall j :: 0 <= j < |db.interactions| && db.interactions[j].id == rows[k].interactions[0].id
                         ==> db.interactions[j] == rows[k].interactions[0]
    requires forall j :: 0 <= j < |rows| && RowId(rows[j]) == editingId ==> j == k
    ensures var stored := InteractionsRoute.Put(
      Some(s), Some(SaveDecision(Some(s), Some(editingId), rows, comment, date).update), db, now, false).reply.data;
      LocalUpdate(rows, editingId, comment)[k].interactions[0] == stored.(updatedAt := rows[k].interactions[0].updatedAt)
    ensures EditStart(LocalUpdate(rows, editingId, comment)[k]) == OrEmpty(comment)
  {
    var latest := LatestWithId(rows, editingId).value;
    var j :| 0 <= j < |rows| && RowId(rows[j]) == editingId && |rows[j].interactions| > 0 && rows[j].interactions[0] == latest;
    assert j == k;
    SavedCommentIsStored(s, editingId, rows, comment, date, db, now);
    var a := SaveDecision(Some(s), Some(editingId), rows, comment, date);
    var i := IndexOf(db.interactions, InteractionId, latest.id).value;
    assert db.interactions[i] == latest;
  }
}
