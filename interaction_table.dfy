/**
 * The supervisor's interaction table: the fetched list with duplicates
 * dropped, optionally narrowed to one agent, and the editing of one
 * interaction's supervisor comment. The component's state is a value; each
 * handler is a function from the state (and what the network answered) to
 * the next state.
 */
module InteractionTable {
  import opened Wrappers
  import opened Strings
  import opened Models
  import opened Queries
  import Rbac
  import InteractionsRoute
  import SupervisorTable

  // ---------------------------------------------------------------------
  // De-duplication
  // ---------------------------------------------------------------------

  /**
   * The key a fetched row is known by: its id or, for a row without one,
   * customer, date, call status and follow-up status joined by `_`. The
   * date enters the key as its decimal millisecond count, which, like the
   * ISO text the browser sees, determines the date.
   */
  function Key(d: Detail): (k: string)
    ensures d.interaction.id != "" ==> k == d.interaction.id
  {
    var i := d.interaction;
    if i.id != "" then i.id
    else i.customerId + "_" + IntToString(i.date) + "_" + CallStatusName(i.callStatus) + "_" + FollowUpName(i.followUpStatus)
  }

  /** The keys of the rows. */
  function KeySet<T>(items: seq<T>, key: T -> string): set<string> {
    set j | 0 <= j < |items| :: key(items[j])
  }

  /** Where the first row carrying key `s` is (`|items|` when there is none). */
  function FirstPos<T>(items: seq<T>, key: T -> string, s: string): (i: nat)
    ensures i <= |items|
    ensures i < |items| <==> s in KeySet(items, key)
    ensures i < |items| ==> key(items[i]) == s
    ensures forall j :: 0 <= j < i && j < |items| ==> key(items[j]) != s
  {
    if items == [] then 0
    else
      var n := |items| - 1;
      var p := items[..n];
      assert KeySet(items, key) == KeySet(p, key) + {key(items[n])} by {
        assert forall j :: 0 <= j < n ==> p[j] == items[j];
      }
      var i := FirstPos(p, key, s);
      if i < n then i else if key(items[n]) == s then n else n + 1
  }

  /** The rows kept: the same keys as the fetched list, none of them twice. */
  function FirstByKey<T>(items: seq<T>, key: T -> string): (r: seq<T>)
    ensures |r| <= |items|
    ensures KeySet(r, key) == KeySet(items, key)
    ensures forall a, b :: 0 <= a < b < |r| ==> key(r[a]) != key(r[b])
  {
    if items == [] then []
    else
      var n := |items| - 1;
      var p := items[..n];
      var rest := FirstByKey(p, key);
      assert forall j :: 0 <= j < n ==> p[j] == items[j];
      assert KeySet(items, key) == KeySet(p, key) + {key(items[n])};
      assert forall a :: 0 <= a < |rest| ==> key(rest[a]) in KeySet(rest, key);
      if key(items[n]) in KeySet(p, key) then rest
      else
        var r := rest + [items[n]];
        assert KeySet(r, key) == KeySet(rest, key) + {key(items[n])} by {
          assert forall j :: 0 <= j < |rest| ==> r[j] == rest[j];
          assert r[|rest|] == items[n];
        }
        r
  }

  /** Adding a row leaves where the keys already present first occur. */
  lemma FirstPosSnoc<T>(items: seq<T>, key: T -> string, s: string)
    requires items != []
    ensures s in KeySet(items[..|items| - 1], key) ==> FirstPos(items, key, s) == FirstPos(items[..|items| - 1], key, s)
    ensures s !in KeySet(items[..|items| - 1], key) && s == key(items[|items| - 1]) ==> FirstPos(items, key, s) == |items| - 1
  {
  }

  /** Each kept row is the first fetched row with its key. */
  lemma {:induction false} FirstByKeyKeepsFirst<T>(items: seq<T>, key: T -> string, k: nat)
    requires k < |FirstByKey(items, key)|
    ensures var r := FirstByKey(items, key);
      FirstPos(items, key, key(r[k])) < |items| && items[FirstPos(items, key, key(r[k]))] == r[k]
  {
    var n := |items| - 1;
    var p := items[..n];
    var rest := FirstByKey(p, key);
    var r := FirstByKey(items, key);
    if k < |rest| {
      assert r[k] == rest[k];
      assert key(rest[k]) in KeySet(p, key);
      FirstPosSnoc(items, key, key(rest[k]));
      FirstByKeyKeepsFirst(p, key, k);
      var f := FirstPos(p, key, key(rest[k]));
      assert items[f] == p[f];
    } else {
      assert key(items[n]) !in KeySet(p, key);
      assert r == rest + [items[n]] && r[k] == items[n];
      FirstPosSnoc(items, key, key(items[n]));
    }
  }

  /** The kept rows are in the order of their keys' first rows. */
  lemma {:induction false} FirstByKeyInOrder<T>(items: seq<T>, key: T -> string, a: nat, b: nat)
    requires a < b < |FirstByKey(items, key)|
    ensures var r := FirstByKey(items, key);
      FirstPos(items, key, key(r[a])) < FirstPos(items, key, key(r[b]))
  {
    var n := |items| - 1;
    var p := items[..n];
    var rest := FirstByKey(p, key);
    var r := FirstByKey(items, key);
    assert r[a] == rest[a];
    assert key(rest[a]) in KeySet(p, key);
    FirstPosSnoc(items, key, key(rest[a]));
    if b < |rest| {
      assert r[b] == rest[b];
      assert key(rest[b]) in KeySet(p, key);
      FirstPosSnoc(items, key, key(rest[b]));
      FirstByKeyInOrder(p, key, a, b);
    } else {
      assert key(items[n]) !in KeySet(p, key);
      assert r == rest + [items[n]] && r[b] == items[n];
      FirstPosSnoc(items, key, key(items[n]));
    }
  }

  /** A list without repeated keys is kept whole, so de-duplicating twice is de-duplicating once. */
  lemma {:induction false} FirstByKeyOfUnique<T>(items: seq<T>, key: T -> string)
    requires forall a, b :: 0 <= a < b < |items| ==> key(items[a]) != key(items[b])
    ensures FirstByKey(items, key) == items
  {
    if items != [] {
      var n := |items| - 1;
      var p := items[..n];
      FirstByKeyOfUnique(p, key);
      assert key(items[n]) !in KeySet(p, key);
      assert items == p + [items[n]];
    }
  }

  lemma FirstByKeyIdempotent<T>(items: seq<T>, key: T -> string)
    ensures FirstByKey(FirstByKey(items, key), key) == FirstByKey(items, key)
  {
    FirstByKeyOfUnique(FirstByKey(items, key), key);
  }

  /** The fetched rows as the table keeps them. */
  function Unique(items: seq<Detail>): seq<Detail> {
    FirstByKey(items, Key)
  }

  /**
   * The `forEach` filling the `unique` map, run with `Key`. The map's
   * values, in the order their keys were inserted, are kept as `unique`.
   */
  method Deduplicate<T>(items: seq<T>, key: T -> string) returns (unique: seq<T>)
    ensures unique == FirstByKey(items, key)
  {
    var seen: map<string, T> := map[];
    unique := [];
    for k := 0 to |items|
      invariant unique == FirstByKey(items[..k], key)
      invariant seen.Keys == KeySet(items[..k], key)
    {
      assert items[..k + 1][..k] == items[..k];
      var s := key(items[k]);
      if s !in seen {
        seen := seen[s := items[k]];
        unique := unique + [items[k]];
      }
      assert KeySet(items[..k + 1], key) == KeySet(items[..k], key) + {s} by {
        assert forall j :: 0 <= j < k ==> items[..k + 1][j] == items[..k][j];
      }
    }
    assert items[..|items|] == items;
  }

  // ---------------------------------------------------------------------
  // The agent filter
  // ---------------------------------------------------------------------

  function AgentTest(agentId: Id): Detail -> bool {
    (d: Detail) => d.interaction.agentId == agentId
  }

  /** `agentId ? interactions.filter(i => i.agentId === agentId) : interactions` */
  function Visible(items: seq<Detail>, agentId: Option<Id>): (r: seq<Detail>)
    ensures !Truthy(agentId) ==> r == items
    ensures Truthy(agentId) ==> forall k :: 0 <= k < |r| ==> r[k] in items && r[k].interaction.agentId == agentId.value
    ensures Truthy(agentId) ==> forall k :: 0 <= k < |items| && items[k].interaction.agentId == agentId.value ==> items[k] in r
  {
    if Truthy(agentId) then Filter(items, AgentTest(agentId.value)) else items
  }

  // ---------------------------------------------------------------------
  // The component's state and its handlers
  // ---------------------------------------------------------------------

  datatype TableState = TableState(
    interactions: seq<Detail>,
    loading: bool,
    error: Option<string>,
    editingCommentId: Option<Id>,
    commentText: string)

  const INITIAL: TableState := TableState([], true, None, None, "")

  /**
   * Why a request failed: the reply said `success: false` (with its
   * message, if any), or something threw (an `Error` with its message,
   * or `None` for anything else).
   */
  datatype Failure = Rejected(message: Option<string>) | Thrown(error: Option<string>)

  /** The error text shown; `fallback` is the handler's own default for a rejected reply. */
  function ErrorText(f: Failure, fallback: string): (t: string)
    ensures f.Rejected? && Truthy(f.message) ==> t == f.message.value
    ensures f.Rejected? && !Truthy(f.message) ==> t == fallback
    ensures f.Thrown? && f.error.Some? ==> t == f.error.value
    ensures f.Thrown? && f.error.None? ==> t == "An error occurred"
  {
    match f
    case Rejected(m) => if Truthy(m) then m.value else fallback
    case Thrown(e) => if e.Some? then e.value else "An error occurred"
  }

  /** What the listing request gave: the rows, or a failure. */
  datatype FetchReply = Fetched(items: seq<Detail>) | NotFetched(failure: Failure)

  /** `fetchInteractions`: the de-duplicated list, or an error; loading ends either way. */
  function AfterFetch(st: TableState, reply: FetchReply): (next: TableState)
    ensures !next.loading
    ensures reply.Fetched? ==> next.interactions == Unique(reply.items) && next.error == st.error
    ensures reply.NotFetched? ==> next.interactions == st.interactions
                                  && next.error == Some(ErrorText(reply.failure, "Failed to fetch interactions"))
    ensures next.editingCommentId == st.editingCommentId && next.commentText == st.commentText
  {
    match reply
    case Fetched(items) => st.(interactions := Unique(items), loading := false)
    case NotFetched(f) => st.(error := Some(ErrorText(f, "Failed to fetch interactions")), loading := false)
  }

  /** `handleEditComment`: start editing from the row's comment, or ''. */
  function EditComment(st: TableState, interactionId: Id, current: Option<string>): (next: TableState)
    ensures next.editingCommentId == Some(interactionId)
    ensures Truthy(current) ==> next.commentText == current.value
    ensures !Truthy(current) ==> next.commentText == ""
    ensures next.interactions == st.interactions && next.error == st.error && next.loading == st.loading
  {
    st.(editingCommentId := Some(interactionId), commentText := OrEmpty(current))
  }

  /** `{ ...interaction, supervisorComment: commentText }` on the rows with the saved id. */
  function SetComment(items: seq<Detail>, interactionId: Id, text: string): (r: seq<Detail>)
    ensures |r| == |items|
    ensures forall k :: 0 <= k < |items| && items[k].interaction.id != interactionId ==> r[k] == items[k]
    ensures forall k :: 0 <= k < |items| && items[k].interaction.id == interactionId ==>
      r[k] == items[k].(interaction := items[k].interaction.(supervisorComment := Some(text)))
  {
    seq(|items|, k requires 0 <= k < |items| =>
      if items[k].interaction.id == interactionId
      then items[k].(interaction := items[k].interaction.(supervisorComment := Some(text)))
      else items[k])
  }

  /**
   * `handleSaveComment`: after a successful PUT (`failure` is `None`) the
   * row shows the text and editing ends; after a failure the rows and the
   * editor stay as they were and the error is shown.
   */
  function SaveComment(st: TableState, interactionId: Id, failure: Option<Failure>): (next: TableState)
    ensures failure.None? ==>
      && next.interactions == SetComment(st.interactions, interactionId, st.commentText)
      && next.editingCommentId.None? && next.commentText == "" && next.error == st.error
    ensures failure.Some? ==>
      && next.interactions == st.interactions
      && next.editingCommentId == st.editingCommentId && next.commentText == st.commentText
      && next.error == Some(ErrorText(failure.value, "Failed to update comment"))
    ensures next.loading == st.loading
  {
    match failure
    case None =>
      st.(interactions := SetComment(st.interactions, interactionId, st.commentText),
          editingCommentId := None, commentText := "")
    case Some(f) => st.(error := Some(ErrorText(f, "Failed to update comment")))
  }

  /** `handleCancelEdit` */
  function CancelEdit(st: TableState): (next: TableState)
    ensures next.editingCommentId.None? && next.commentText == ""
    ensures next.interactions == st.interactions && next.error == st.error && next.loading == st.loading
  {
    st.(editingCommentId := None, commentText := "")
  }

  /** What is on screen: the loading text, the error (an empty message counts as none), or the visible rows. */
  datatype Screen = LoadingText | ErrorMessage(message: string) | Rows(rows: seq<Detail>)

  function Render(st: TableState, agentId: Option<Id>): (s: Screen)
    ensures st.loading ==> s == LoadingText
    ensures !st.loading && Truthy(st.error) ==> s == ErrorMessage(st.error.value)
    ensures !st.loading && !Truthy(st.error) ==> s == Rows(Visible(st.interactions, agentId))
  {
    if st.loading then LoadingText
    else if Truthy(st.error) then ErrorMessage(st.error.value)
    else Rows(Visible(st.interactions, agentId))
  }

  /**
   * Editing and cancelling changes no row; and once a row's comment is
   * saved, a new edit of that row starts from the saved text.
   */
  lemma EditCycle(st: TableState, interactionId: Id, k: nat)
    requires k < |st.interactions| && st.interactions[k].interaction.id == interactionId
    ensures CancelEdit(EditComment(st, interactionId, st.interactions[k].interaction.supervisorComment)).interactions
            == st.interactions
    ensures var saved := SaveComment(st, interactionId, None);
      EditComment(saved, interactionId, saved.interactions[k].interaction.supervisorComment).commentText == st.commentText
  {
  }

  /**
   * The row updated locally after a successful save agrees with the store:
   * the interaction the PUT returned, but for its update time.
   */
  lemma SavedRowMatchesStore(s: Rbac.Session, st: TableState, interactionId: Id, db: Db, now: Millis, k: nat)
    requires InteractionsRoute.Put(
      Some(s), Some(SupervisorTable.CommentBody(interactionId, st.commentText)), db, now, false).reply.Ok?
    requires k < |st.interactions| && st.interactions[k].interaction.id == interactionId
    requires IndexOf(db.interactions, InteractionId, interactionId).Some?
    requires db.interactions[IndexOf(db.interactions, InteractionId, interactionId).value] == st.interactions[k].interaction
    ensures var stored := InteractionsRoute.Put(
      Some(s), Some(SupervisorTable.CommentBody(interactionId, st.commentText)), db, now, false).reply.data;
      SaveComment(st, interactionId, None).interactions[k].interaction
      == stored.(updatedAt := st.interactions[k].interaction.updatedAt)
  {
    InteractionsRoute.PutEffect(s, SupervisorTable.CommentBody(interactionId, st.commentText), db, now);
  }
}
