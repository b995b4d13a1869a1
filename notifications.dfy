/**
 * The notification pop-up: a list of at most five notifications, newest
 * first, and a visibility flag. Each non-empty interactions update adds a
 * "New Interaction" notice and shows the panel; a notice can be dismissed
 * by id; the panel renders nothing when hidden or empty.
 */
module Notifications {
  import opened Wrappers
  import opened Strings
  import opened Models
  import opened Queries

  datatype Kind = Info | Success | Warning | Error

  datatype Note = Note(id: string, title: string, message: string, kind: Kind, timestamp: Millis)

  datatype Panel = Panel(notes: seq<Note>, visible: bool)

  /** How many notifications are kept. */
  const MAX_NOTES: nat := 5

  /** The panel before any update: empty and hidden. */
  const INITIAL: Panel := Panel([], false)

  /** The notice for an update received at time `now` (its id is the time's decimal text). */
  function NewNote(now: Millis): Note {
    Note(IntToString(now), "New Interaction", "A new customer interaction has been recorded", Info, now)
  }

  /** The panel's invariant: never more than five notifications. */
  predicate Bounded(p: Panel) {
    |p.notes| <= MAX_NOTES
  }

  /**
   * The `interactionsUpdated` handler. `payloadLength` is the length of the
   * update's data, `None` when the data is missing.
   */
  function OnInteractionsUpdated(p: Panel, payloadLength: Option<nat>, now: Millis): (r: Panel)
    ensures payloadLength.None? || payloadLength.value == 0 ==> r == p
    ensures payloadLength.Some? && payloadLength.value > 0 ==>
      && r.visible
      && |r.notes| == (if |p.notes| + 1 < MAX_NOTES then |p.notes| + 1 else MAX_NOTES)
      && r.notes[0] == NewNote(now)
      && forall k :: 0 < k < |r.notes| ==> r.notes[k] == p.notes[k - 1]
  {
    if payloadLength.Some? && payloadLength.value > 0 then
      var all := [NewNote(now)] + p.notes;
      Panel(all[..if |all| < MAX_NOTES then |all| else MAX_NOTES], true)
    else p
  }

  /** The auto-hide timeout firing: the panel is hidden, the list kept. */
  function Hide(p: Panel): (r: Panel)
    ensures !r.visible && r.notes == p.notes
  {
    p.(visible := false)
  }

  /** `removeNotification(id)`: drops the notifications with that id, keeping the others in order. */
  function Remove(p: Panel, id: string): (r: Panel)
    ensures r.visible == p.visible
    ensures forall n :: n in r.notes <==> n in p.notes && n.id != id
  {
    p.(notes := Filter(p.notes, (n: Note) => n.id != id))
  }

  /** What is rendered: nothing when hidden or empty, otherwise the list. */
  function Rendered(p: Panel): (r: Option<seq<Note>>)
    ensures r.None? <==> !p.visible || |p.notes| == 0
    ensures r.Some? ==> r.value == p.notes
  {
    if !p.visible || |p.notes| == 0 then None else Some(p.notes)
  }

  /** Every change to the panel keeps it within five notifications. */
  lemma BoundedPreserved(p: Panel, payloadLength: Option<nat>, now: Millis, id: string)
    requires Bounded(p)
    ensures Bounded(OnInteractionsUpdated(p, payloadLength, now))
    ensures Bounded(Hide(p))
    ensures Bounded(Remove(p, id))
    ensures Bounded(INITIAL)
  {
  }

  /** The list holds the most recent updates, newest first: after two non-empty updates the later one leads. */
  lemma NewestFirst(p: Panel, n1: nat, n2: nat, t1: Millis, t2: Millis)
    requires n1 > 0 && n2 > 0
    ensures var r := OnInteractionsUpdated(OnInteractionsUpdated(p, Some(n1), t1), Some(n2), t2);
      r.notes[..2] == [NewNote(t2), NewNote(t1)]
  {
  }

  /** Dismissing an id no notification carries changes nothing. */
  lemma {:induction false} RemoveAbsent(notes: seq<Note>, id: string)
    requires forall k :: 0 <= k < |notes| ==> notes[k].id != id
    ensures Filter(notes, (n: Note) => n.id != id) == notes
  {
    if notes != [] {
      RemoveAbsent(notes[1..], id);
    }
  }

  /** After a dismissal no notification with that id is rendered. */
  lemma RemovedNotRendered(p: Panel, id: string)
    ensures var r := Rendered(Remove(p, id));
      r.Some? ==> forall k :: 0 <= k < |r.value| ==> r.value[k].id != id
  {
  }
}
