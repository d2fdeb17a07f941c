# Task-list component state machine

A model of the state machine inside the `App` component of a small task-list
front end. The component keeps four pieces of state: `items` (a list of
`{_id, name}` records), `newItem` (the add box), `editingId` (the item being
renamed, or `null`) and `editingText` (the rename draft). Its handlers talk to
a remote item store with `fetch`. Each handler is modelled as a pure function
from the current state and the way its request settled (`Outcome`: `Ok(reply)`
or `Failed`, the `catch` path) to the request it sent and the next state.

Files:

- `js_string.dfy` (module `JsString`): JavaScript's `trim` and the blank-text
  guard of the add handler.
- `items.dfy` (module `Items`): the item record, remove-by-id (the delete
  handler's `filter`), replace-by-id (the save handler's `map`), and the
  distinct-ids invariant.
- `app.dfy` (module `App`): the state, the handlers, and the render's choice
  of which row shows the edit box.
- `trace.dfy` (module `Trace`): runs of events applied in completion order,
  and the invariants every run keeps.

The model follows the code as written:

- The add request carries the untrimmed text. Only the guard trims.
- Save has no blank-draft check. A failed save leaves everything as it was.
- Cancel clears only `editingId` and keeps the draft.
- Delete never ends an edit session, not even the one on the deleted item.
- `startEditing` accepts any id, listed or not.
- The mount-time load sets only `items`.

## Model

| member | source | states |
|---|---|---|
| JsString.TrimStart | src/App.jsx:23 | the result is the longest suffix that does not start with whitespace; everything cut off is whitespace |
| JsString.TrimEnd | src/App.jsx:23 | the result is the longest prefix that does not end with whitespace; everything cut off is whitespace |
| JsString.Trim | src/App.jsx:23 | the result is a contiguous slice of the input between two all-whitespace margins, and it neither starts nor ends with whitespace |
| JsString.TrimEmptyIffBlank | src/App.jsx:23 | `text.trim()` is empty exactly when every character of `text` is whitespace |
| Items.RemoveId | src/App.jsx:42 | no survivor carries the id; an item survives exactly when it was listed and its id differs; the list never grows |
| Items.RemoveIdKeepsOrder | src/App.jsx:42 | the survivors are a subsequence of the old list, so their relative order is kept |
| Items.RemoveIdMultiplicity | src/App.jsx:42 | each item with the deleted id occurs zero times afterwards, and every other item occurs as often as before |
| Items.RemoveIdUnchangedIffAbsent | src/App.jsx:42 | the list comes back unchanged if and only if no item carries the id |
| Items.RemoveIdIdempotent | src/App.jsx:42 | deleting the same id twice gives the same list as deleting it once |
| Items.RemoveIdCommutes | src/App.jsx:42 | deleting `a` then `b` gives the same list as deleting `b` then `a` |
| Items.RemoveIdLength | src/App.jsx:42 | with distinct ids, deleting a listed id removes exactly one item and deleting an unlisted id removes none |
| Items.RemoveIdKeepsDistinct | src/App.jsx:42 | deleting keeps the ids pairwise distinct |
| Items.ReplaceId | src/App.jsx:63 | the length is kept; every position whose id matches holds the reply; every other position is unchanged |
| Items.ReplaceIdAbsent | src/App.jsx:63 | replacing an id that no item carries leaves the list unchanged |
| Items.ReplaceIdIdempotent | src/App.jsx:63 | applying the same replacement twice gives the same list as applying it once |
| Items.ReplaceIdKeepsDistinct | src/App.jsx:63 | when the reply keeps the id it was sent for, the ids stay pairwise distinct |
| Items.AppendFreshKeepsDistinct | src/App.jsx:31 | appending an item whose id is not yet listed keeps the ids pairwise distinct |
| App.Load | src/App.jsx:14-19 | a loaded list replaces `items`; a failed load changes nothing; the add box and the edit session are never touched |
| App.TypeNewItem | src/App.jsx:81 | typing in the add box changes only `newItem` |
| App.TypeDraft | src/App.jsx:95 | typing in the edit box changes only `editingText` |
| App.AddItem | src/App.jsx:22-36 | blank text sends nothing and changes nothing; otherwise the untrimmed text is posted; success appends the reply after the unchanged old items and clears the box; failure changes nothing; the edit session is never touched |
| App.DeleteItem | src/App.jsx:39-46 | a DELETE for the id is always sent; on success no item carries the id, every other item survives in order with every copy kept (equal counts), and an unlisted id leaves the list as it was; failure changes nothing; the add box and the edit session are never touched |
| App.StartEditing | src/App.jsx:49-52 | the session becomes the given id with the given name as its draft; the items and the add box are unchanged |
| App.SaveEdit | src/App.jsx:55-69 | the draft is always sent as a PUT for the id; on success the length is kept, matching positions hold the reply, other positions are unchanged, and the session is reset to no id and an empty draft; failure changes nothing |
| App.CancelEdit | src/App.jsx:102 | cancel ends the session and keeps the draft, the items and the add box |
| App.InEditMode | src/App.jsx:90 | the row-selection test `editingId === item._id`; `null` never selects a row; every count and invariant about edit rows is stated through it |
| App.CountEditRows | src/App.jsx:88-90 | the number of rendered rows that pass the selection test: at most the number of items, and zero exactly when no row passes |
| App.CountEditRowsPositive | src/App.jsx:88-90 | some row is in edit mode if and only if `editingId` is set and some item carries it |
| App.CountEditRowsAtMostOne | src/App.jsx:88-90 | with distinct ids, at most one row is in edit mode |
| App.SingleEditRow | src/App.jsx:88-90 | with distinct ids, no two rows are in edit mode, and exactly one is when the session's id is listed |
| App.StartEditingOverwrites | src/App.jsx:49-52 | a second `startEditing` discards the first session and its draft entirely |
| App.CancelKeepsDraft | src/App.jsx:102 | after starting and then cancelling an edit, no row of the resulting state is in edit mode, the items are unchanged and the draft is still the started name; a later `startEditing` replaces that leftover draft as if the cancelled session had never been |
| App.DeleteEditedItemLeavesOrphanSession | src/App.jsx:39-46 | deleting the item under edit keeps `editingId` on the deleted id, and no row is in edit mode |
| App.DeleteTwiceIsDeleteOnce | src/App.jsx:42 | two successful deletes of one id give the same state as one |
| App.AddPostsUntrimmedText | src/App.jsx:23-28 | a padded name such as `" milk "` passes the trimmed guard but is posted with its padding |
| App.SaveSendsBlankDraft | src/App.jsx:55-60 | a whitespace-only draft is still sent, and a successful save then ends the session |
| App.TransitionsKeepIdsDistinct | src/App.jsx:22-69 | distinct ids survive an add whose reply has a new id, any delete, and a save whose reply keeps its id |
| Trace.StepKeepsIdsDistinct | src/App.jsx:14-102 | every single event keeps the ids distinct when the server's reply is consistent |
| Trace.RunKeepsIdsDistinct | src/App.jsx:14-102 | a whole run with consistent replies keeps the ids distinct |
| Trace.ReachableSingleEditRow | src/App.jsx:88-90 | in every state that a run with consistent replies reaches from mount, at most one row is in edit mode |
| Trace.AddEditSaveDelete | src/App.jsx:22-69 | one run of six events from mount (type "Buy milk", the add settles with id "1", start editing, type "Buy oat milk", the save settles, the delete settles) ends in the mount state |

## Left out

- `fetch`, `res.json()`, the `VITE_API_URL` lookup, the JSON request bodies and `console.error` are I/O. Each awaited call is a parameter of type `Outcome`. `Ok` means `fetch` resolved, whatever the HTTP status, and its body is used as an item. `Failed` means `fetch` or `res.json()` rejected.
- The stale-closure races are left out. Each handler reads `items` as of the render that created it, so two overlapping completions can lose an update. The model applies every completion to the state current when it completes. This is a concurrency effect.
- The JSX markup, the CSS and the button wiring are left out. The only part modelled is the row-selection test `editingId === item._id`. Which buttons a row offers is not modelled, so the trace lets any event happen in any state.
- Each handler is applied whole when its reply settles. In the source, the blank guard (line 23) and the request bodies (lines 28 and 60) read the state at the click. The model reads them when the reply arrives, so clearing the add box between the click and the reply makes the model drop an add that the source would append. Likewise `Trace.ConsistentReply` checks a created item's id against the list at completion time. That also excludes a load that lands between the server's create and the add's reply. Modelling pending requests would mean modelling the overlapping completions left out above.
- JsString.IsWhitespace: this is the WhiteSpace and LineTerminator set of ECMA-262, with the Unicode space separators written out as a fixed list. Later Unicode versions could add to that list.
- Reply shapes: an HTTP error reply whose body is not an item is modelled as an item anyway. The server's id contract is stated as `Trace.ConsistentReply`, an assumption about the server's replies, not something the component checks.
- The mount-time load happens once in the source. In the trace it may happen any number of times.
