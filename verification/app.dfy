/**
 The state machine of the task-list component `App`: four pieces of state and
 one pure transition per handler. Each handler that talks to the server is
 modelled by the request it sends (if any) and the state once that request has
 settled; how it settled is a parameter, `Outcome`, standing for the awaited
 `fetch` and `res.json()` calls.
 */
module App {
  import opened JsString
  import opened Items

  datatype Option<T> = None | Some(value: T)

  /** How an awaited remote call settled. `Ok` carries the parsed reply body;
      `Failed` is the `catch` path, reached only when `fetch` or `res.json()`
      rejects (an HTTP error status still resolves). */
  datatype Outcome<T> = Ok(value: T) | Failed

  /** The requests the handlers send to the item store. */
  datatype Request = Post(name: string) | Delete(id: Id) | Put(id: Id, name: string)

  /** `items`, `newItem` (the add box), `editingId` (`null` is `None`) and
      `editingText` (the edit draft). */
  datatype State = State(items: seq<Item>, newItem: string, editingId: Option<Id>, editingText: string)

  /** What a handler sent, and the state once its reply has settled. */
  datatype Effect = Effect(sent: Option<Request>, state: State)

  /** The state at mount. */
  const Initial: State := State([], "", None, "")

  /** The mount-time load: the fetched list replaces `items`; nothing else changes. */
  function Load(s: State, reply: Outcome<seq<Item>>): (r: State)
    ensures reply.Failed? ==> r == s
    ensures reply.Ok? ==> r.items == reply.value
    ensures r.newItem == s.newItem && r.editingId == s.editingId && r.editingText == s.editingText
  {
    match reply
    case Ok(data) => s.(items := data)
    case Failed => s
  }

  /** `setNewItem` from the add box. */
  function TypeNewItem(s: State, text: string): (r: State)
    ensures r.newItem == text
    ensures r.items == s.items && r.editingId == s.editingId && r.editingText == s.editingText
  {
    s.(newItem := text)
  }

  /** `setEditingText` from the edit box. */
  function TypeDraft(s: State, text: string): (r: State)
    ensures r.editingText == text
    ensures r.items == s.items && r.newItem == s.newItem && r.editingId == s.editingId
  {
    s.(editingText := text)
  }

  /** `addItem`: a blank add box sends nothing and changes nothing. Otherwise the
      untrimmed text is posted; on success the reply is appended and the box
      cleared, on failure nothing changes. The edit session is never touched. */
  function AddItem(s: State, reply: Outcome<Item>): (r: Effect)
    ensures IsBlank(s.newItem) ==> r == Effect(None, s)
    ensures !IsBlank(s.newItem) ==> r.sent == Some(Post(s.newItem))
    ensures reply.Failed? ==> r.state == s
    ensures !IsBlank(s.newItem) && reply.Ok? ==>
              && |r.state.items| == |s.items| + 1
              && (forall i :: 0 <= i < |s.items| ==> r.state.items[i] == s.items[i])
              && r.state.items[|s.items|] == reply.value
              && r.state.newItem == ""
    ensures r.state.editingId == s.editingId && r.state.editingText == s.editingText
  {
    TrimEmptyIffBlank(s.newItem);
    if Trim(s.newItem) == [] then Effect(None, s)
    else
      var sent := Some(Post(s.newItem));
      match reply
      case Ok(data) => Effect(sent, s.(items := s.items + [data], newItem := ""))
      case Failed => Effect(sent, s)
  }

  /** `deleteItem(id)`: once the DELETE settles, the items carrying `id` are
      gone and the others stay in order. The add box and the edit session are
      left alone, even when the deleted item is the one being edited. */
  function DeleteItem(s: State, id: Id, reply: Outcome<()>): (r: Effect)
    ensures r.sent == Some(Delete(id))
    ensures reply.Failed? ==> r.state == s
    ensures reply.Ok? ==>
              && !HasId(r.state.items, id)
              && (forall x :: x in r.state.items <==> x in s.items && x.id != id)
              && IsSubsequence(r.state.items, s.items)
              && (forall x :: multiset(r.state.items)[x] == if x.id == id then 0 else multiset(s.items)[x])
              && (!HasId(s.items, id) ==> r.state.items == s.items)
    ensures r.state.newItem == s.newItem
    ensures r.state.editingId == s.editingId && r.state.editingText == s.editingText
  {
    var sent := Some(Delete(id));
    match reply
    case Ok(_) =>
      RemoveIdKeepsOrder(s.items, id);
      RemoveIdUnchangedIffAbsent(s.items, id);
      forall x
        ensures multiset(RemoveId(s.items, id))[x] == if x.id == id then 0 else multiset(s.items)[x]
      {
        RemoveIdMultiplicity(s.items, id, x);
      }
      Effect(sent, s.(items := RemoveId(s.items, id)))
    case Failed => Effect(sent, s)
  }

  /** `startEditing(id, name)`: the one edit session now belongs to `id` with
      `name` as its draft, whatever session there was before. */
  function StartEditing(s: State, id: Id, name: string): (r: State)
    ensures r.editingId == Some(id) && r.editingText == name
    ensures r.items == s.items && r.newItem == s.newItem
  {
    s.(editingId := Some(id), editingText := name)
  }

  /** `saveEdit(id)`: the draft is sent as it is, blank or not. On success every
      item carrying `id` becomes the reply, every other item stays, and the
      session is reset; on failure nothing changes. */
  function SaveEdit(s: State, id: Id, reply: Outcome<Item>): (r: Effect)
    ensures r.sent == Some(Put(id, s.editingText))
    ensures reply.Failed? ==> r.state == s
    ensures reply.Ok? ==>
              && |r.state.items| == |s.items|
              && (forall i :: 0 <= i < |s.items| && s.items[i].id == id ==> r.state.items[i] == reply.value)
              && (forall i :: 0 <= i < |s.items| && s.items[i].id != id ==> r.state.items[i] == s.items[i])
              && r.state.editingId == None && r.state.editingText == ""
    ensures r.state.newItem == s.newItem
  {
    var sent := Some(Put(id, s.editingText));
    match reply
    case Ok(data) => Effect(sent, s.(items := ReplaceId(s.items, id, data), editingId := None, editingText := ""))
    case Failed => Effect(sent, s)
  }

  /** The cancel button: ends the session but keeps the draft text. */
  function CancelEdit(s: State): (r: State)
    ensures r.editingId == None
    ensures r.items == s.items && r.newItem == s.newItem && r.editingText == s.editingText
  {
    s.(editingId := None)
  }

  /** The render's choice of which row shows the edit box: `editingId === item._id`. */
  predicate InEditMode(editingId: Option<Id>, item: Item) {
    editingId == Some(item.id)
  }

  /** How many rows of `items` render in edit mode for the session `editingId`:
      none exactly when no row passes the selection test. */
  function CountEditRows(items: seq<Item>, editingId: Option<Id>): (n: nat)
    ensures n <= |items|
    ensures n == 0 <==> forall i :: 0 <= i < |items| ==> !InEditMode(editingId, items[i])
  {
    if items == [] then 0
    else
      var n := CountEditRows(items[1..], editingId);
      assert forall i :: 0 < i < |items| ==> items[i] == items[1..][i - 1];
      (if InEditMode(editingId, items[0]) then 1 else 0) + n
  }

  /** The rows in edit mode are exactly those carrying the session's id. */
  lemma {:induction false} CountEditRowsPositive(items: seq<Item>, editingId: Option<Id>)
    ensures CountEditRows(items, editingId) > 0 <==> editingId.Some? && HasId(items, editingId.value)
  {
    if items != [] {
      CountEditRowsPositive(items[1..], editingId);
      if editingId.Some? {
        HasIdSplit(items, editingId.value);
      }
    }
  }

  /** With distinct ids, at most one row is in edit mode. */
  lemma {:induction false} CountEditRowsAtMostOne(items: seq<Item>, editingId: Option<Id>)
    requires DistinctIds(items)
    ensures CountEditRows(items, editingId) <= 1
  {
    if items != [] {
      DistinctIdsSplit(items);
      CountEditRowsAtMostOne(items[1..], editingId);
      CountEditRowsPositive(items[1..], editingId);
    }
  }

  /** The single-session invariant of the render: with distinct ids no two rows
      are in edit mode, and exactly one is when the session's id is listed. */
  lemma SingleEditRow(s: State)
    requires DistinctIds(s.items)
    ensures CountEditRows(s.items, s.editingId) <= 1
    ensures CountEditRows(s.items, s.editingId) == 1 <==> s.editingId.Some? && HasId(s.items, s.editingId.value)
    ensures forall i, j :: 0 <= i < |s.items| && 0 <= j < |s.items| && InEditMode(s.editingId, s.items[i]) && InEditMode(s.editingId, s.items[j]) ==> i == j
  {
    CountEditRowsAtMostOne(s.items, s.editingId);
    CountEditRowsPositive(s.items, s.editingId);
  }

  /** A second `startEditing` discards the first session and its draft. */
  lemma StartEditingOverwrites(s: State, a: Id, n: string, b: Id, m: string)
    ensures StartEditing(StartEditing(s, a, n), b, m) == StartEditing(s, b, m)
  {
  }

  /** Cancel takes every row out of edit mode, whichever row was in it, while
      the draft it was started with survives; a later `startEditing` then
      replaces that draft. */
  lemma CancelKeepsDraft(s: State, id: Id, name: string, other: Id, otherName: string)
    ensures var r := CancelEdit(StartEditing(s, id, name));
            && r.editingText == name
            && CountEditRows(r.items, r.editingId) == 0
            && r.items == s.items
    ensures StartEditing(CancelEdit(StartEditing(s, id, name)), other, otherName) == StartEditing(s, other, otherName)
  {
  }

  /** Deleting the item being edited leaves `editingId` pointing at an id that
      no row carries: the session survives but no row renders in edit mode. */
  lemma DeleteEditedItemLeavesOrphanSession(s: State, id: Id)
    requires s.editingId == Some(id)
    ensures DeleteItem(s, id, Ok(())).state.editingId == Some(id)
    ensures CountEditRows(DeleteItem(s, id, Ok(())).state.items, Some(id)) == 0
  {
    CountEditRowsPositive(DeleteItem(s, id, Ok(())).state.items, Some(id));
  }

  /** Deleting the same id twice, both times successfully, is deleting it once. */
  lemma DeleteTwiceIsDeleteOnce(s: State, id: Id)
    ensures DeleteItem(DeleteItem(s, id, Ok(())).state, id, Ok(())).state == DeleteItem(s, id, Ok(())).state
  {
    RemoveIdIdempotent(s.items, id);
  }

  /** The guard trims but the request does not: a padded name reaches the
      server with its padding. */
  lemma AddPostsUntrimmedText(s: State)
    requires s.newItem == " milk "
    ensures AddItem(s, Failed).sent == Some(Post(" milk "))
    ensures Trim(s.newItem) != s.newItem
  {
    assert !IsWhitespace('m');
  }

  /** Save has no blank check: a whitespace-only draft is sent and, on success,
      the reply replaces the item. */
  lemma SaveSendsBlankDraft(s: State, id: Id, data: Item)
    requires IsBlank(s.editingText)
    ensures SaveEdit(s, id, Ok(data)).sent == Some(Put(id, s.editingText))
    ensures SaveEdit(s, id, Ok(data)).state.editingId == None
  {
  }

  /** Distinct ids survive a successful add whose reply has a new id, any
      delete, and a save whose reply echoes the id it was sent for. */
  lemma TransitionsKeepIdsDistinct(s: State, id: Id, data: Item)
    requires DistinctIds(s.items)
    ensures !HasId(s.items, data.id) ==> DistinctIds(AddItem(s, Ok(data)).state.items)
    ensures DistinctIds(DeleteItem(s, id, Ok(())).state.items)
    ensures data.id == id ==> DistinctIds(SaveEdit(s, id, Ok(data)).state.items)
  {
    if !HasId(s.items, data.id) {
      AppendFreshKeepsDistinct(s.items, data);
    }
    RemoveIdKeepsDistinct(s.items, id);
    if data.id == id {
      ReplaceIdKeepsDistinct(s.items, id, data);
    }
  }
}
