/**
 Runs of the component: the user's events and the settled replies, applied one
 at a time to the state in the order they complete. Each reply is applied to
 the state current at its completion.
 */
module Trace {
  import opened Items
  import opened App

  /** One thing that changes the component's state. */
  datatype Event =
    | Loaded(list: Outcome<seq<Item>>)
    | TypedNewItem(text: string)
    | AddSettled(reply: Outcome<Item>)
    | DeleteSettled(id: Id, done: Outcome<()>)
    | EditClicked(id: Id, name: string)
    | TypedDraft(text: string)
    | SaveSettled(id: Id, reply: Outcome<Item>)
    | CancelClicked

  function Step(s: State, e: Event): State {
    match e
    case Loaded(list) => Load(s, list)
    case TypedNewItem(text) => TypeNewItem(s, text)
    case AddSettled(reply) => AddItem(s, reply).state
    case DeleteSettled(id, done) => DeleteItem(s, id, done).state
    case EditClicked(id, name) => StartEditing(s, id, name)
    case TypedDraft(text) => TypeDraft(s, text)
    case SaveSettled(id, reply) => SaveEdit(s, id, reply).state
    case CancelClicked => CancelEdit(s)
  }

  function Run(s: State, events: seq<Event>): State
    decreases |events|
  {
    if events == [] then s else Run(Step(s, events[0]), events[1..])
  }

  /** The server keeps its side of the id contract for this event: a loaded
      list has distinct ids, a created item has an id not yet listed, and an
      updated item keeps the id it was sent for. */
  predicate ConsistentReply(s: State, e: Event) {
    match e
    case Loaded(Ok(list)) => DistinctIds(list)
    case AddSettled(Ok(data)) => !HasId(s.items, data.id)
    case SaveSettled(id, Ok(data)) => data.id == id
    case _ => true
  }

  /** Every event of the run gets a consistent reply from the state it meets. */
  predicate ConsistentRun(s: State, events: seq<Event>)
    decreases |events|
  {
    events == [] || (ConsistentReply(s, events[0]) && ConsistentRun(Step(s, events[0]), events[1..]))
  }

  /** One step with a consistent reply keeps the ids distinct. */
  lemma StepKeepsIdsDistinct(s: State, e: Event)
    requires DistinctIds(s.items)
    requires ConsistentReply(s, e)
    ensures DistinctIds(Step(s, e).items)
  {
    match e
    case AddSettled(Ok(data)) => TransitionsKeepIdsDistinct(s, data.id, data);
    case DeleteSettled(id, _) => TransitionsKeepIdsDistinct(s, id, Item(id, ""));
    case SaveSettled(id, Ok(data)) => TransitionsKeepIdsDistinct(s, id, data);
    case _ =>
  }

  /** A whole consistent run keeps the ids distinct. */
  lemma {:induction false} RunKeepsIdsDistinct(s: State, events: seq<Event>)
    requires DistinctIds(s.items)
    requires ConsistentRun(s, events)
    ensures DistinctIds(Run(s, events).items)
    decreases |events|
  {
    if events != [] {
      StepKeepsIdsDistinct(s, events[0]);
      RunKeepsIdsDistinct(Step(s, events[0]), events[1..]);
    }
  }

  /** In every state a consistent run reaches from mount, at most one row
      renders in edit mode. */
  lemma ReachableSingleEditRow(events: seq<Event>)
    requires ConsistentRun(Initial, events)
    ensures CountEditRows(Run(Initial, events).items, Run(Initial, events).editingId) <= 1
  {
    RunKeepsIdsDistinct(Initial, events);
    SingleEditRow(Run(Initial, events));
  }

  /** Running `a` and then `b` is running `a + b`. */
  lemma {:induction false} RunConcat(s: State, a: seq<Event>, b: seq<Event>)
    ensures Run(s, a + b) == Run(Run(s, a), b)
    decreases |a|
  {
    if a != [] {
      assert (a + b)[0] == a[0] && (a + b)[1..] == a[1..] + b;
      RunConcat(Step(s, a[0]), a[1..], b);
    } else {
      assert a + b == b;
    }
  }

  /** A typed draft step, on its own: keeps concrete runs cheap to unfold. */
  lemma StepTypedDraft(s: State, text: string)
    ensures Step(s, TypedDraft(text)) == s.(editingText := text)
  {
  }

  /** A settled save step, on its own: keeps concrete runs cheap to unfold. */
  lemma StepSaveSettled(s: State, id: Id, reply: Outcome<Item>)
    ensures Step(s, SaveSettled(id, reply)) == SaveEdit(s, id, reply).state
  {
  }

  /** Adding "Buy milk", which the server creates with id "1". */
  const AddMilk: seq<Event> := [TypedNewItem("Buy milk"), AddSettled(Ok(Item("1", "Buy milk")))]

  /** Renaming item "1" to "Buy oat milk", which the server accepts. */
  const RenameMilk: seq<Event> :=
    [EditClicked("1", "Buy milk"), TypedDraft("Buy oat milk"), SaveSettled("1", Ok(Item("1", "Buy oat milk")))]

  /** Deleting item "1", which the server accepts. */
  const DeleteMilk: seq<Event> := [DeleteSettled("1", Ok(()))]

  /** The add phase leaves one item and an empty add box. */
  lemma AddMilkRun()
    ensures Run(Initial, AddMilk) == State([Item("1", "Buy milk")], "", None, "")
  {
    var typed := State([], "Buy milk", None, "");
    var added := State([Item("1", "Buy milk")], "", None, "");
    assert typed.newItem[0] == 'B' && !JsString.IsWhitespace('B');
    assert Step(Initial, AddMilk[0]) == typed;
    assert Step(typed, AddMilk[1]) == added;
    assert Run(typed, AddMilk[1..]) == Run(added, []);
  }

  /** The rename phase replaces the item and ends the session. */
  lemma RenameMilkRun()
    ensures Run(State([Item("1", "Buy milk")], "", None, ""), RenameMilk) == State([Item("1", "Buy oat milk")], "", None, "")
  {
    var added := State([Item("1", "Buy milk")], "", None, "");
    var editing := State([Item("1", "Buy milk")], "", Some("1"), "Buy milk");
    var drafted := State([Item("1", "Buy milk")], "", Some("1"), "Buy oat milk");
    var renamed := State([Item("1", "Buy oat milk")], "", None, "");
    var data := Item("1", "Buy oat milk");
    var click, draft, save := EditClicked("1", "Buy milk"), TypedDraft("Buy oat milk"), SaveSettled("1", Ok(data));
    assert RenameMilk == [click, draft, save];
    assert StartEditing(added, "1", "Buy milk") == editing;
    assert Step(added, click) == editing;
    StepTypedDraft(editing, "Buy oat milk");
    assert ReplaceId(drafted.items, "1", data) == [data];
    assert SaveEdit(drafted, "1", Ok(data)).state == renamed;
    StepSaveSettled(drafted, "1", Ok(data));
    assert Run(drafted, [save]) == Run(renamed, []);
    assert [click, draft, save][1..] == [draft, save] && [draft, save][1..] == [save];
  }

  /** The delete phase empties the list. */
  lemma DeleteMilkRun()
    ensures Run(State([Item("1", "Buy oat milk")], "", None, ""), DeleteMilk) == Initial
  {
    var renamed := State([Item("1", "Buy oat milk")], "", None, "");
    assert RemoveId(renamed.items, "1") == [];
    assert Step(renamed, DeleteMilk[0]) == Initial;
  }

  /** Add, edit, save and delete one item, all replies successful: the run
      ends where it started, with the list empty and no session. */
  lemma AddEditSaveDelete()
    ensures Run(Initial, AddMilk + RenameMilk + DeleteMilk) == Initial
  {
    AddMilkRun();
    RenameMilkRun();
    DeleteMilkRun();
    RunConcat(Initial, AddMilk, RenameMilk);
    RunConcat(Initial, AddMilk + RenameMilk, DeleteMilk);
  }
}
