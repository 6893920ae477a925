# Daily dashboard front-end: state machines of the to-do and sidebar components

This project models the state logic of a personal dashboard's React front-end. It covers five
pieces:

- **Username editor.** An edit-in-place field with three pieces of state: a committed name, a
  draft, and an editing flag. Its transitions are enter-edit, type, save, clear and key press.
- **Background selector.** It holds the parent's committed background type and value, the
  selected radio mode, a solid-colour draft, an image-search draft and a "changed" flag. It has
  commit and discard transitions and an effect that copies the committed background into the
  active mode's draft.
- **Local to-do list.** It appends a typed to-do only when the text is not blank. It keeps the
  browser's store in step with the list. An "initialized" flag stops the mount sequence from
  overwriting saved data.
- **Remote calls.** These are the state effects of fetching the lists and the profile, creating a
  list and deleting a list. Each call is reduced to an abstract outcome, `Ok(data)` or `Err`.
- **Sidebar visibility.** Open and close are separate commands. An overlay click closes the
  sidebar only when the click lands on the overlay itself.

The three components with handlers (username editor, background selector, to-do list) share
one shape:

- A value datatype for the state and one for the events.
- A pure `Step` function, which is the specification of one handler.
- A fold over event sequences: `Run` for the username editor and the background selector,
  `Session` for the to-do list (each event followed by the persistence effect, `Interact`).
- A class with one method per handler. The username editor's and the background selector's
  handler methods, and the to-do list's `SetNewTodo` and `HandleKeyDown`, ensure that the new
  state is `Step` of the old one. The to-do list's effects and its `AddTodo` are tied to `Load`,
  `Persist` and `Added`. The background selector's `ReceiveCommitted` is tied to
  `CommittedChange`.

The other two modules are smaller:

- `AppFunctions` has no events or `Step`. Its `AppState` methods state each field they change
  directly, in terms of `AppendCreated`, `RemoveById` and `ColorsOrEmpty`, whose properties are
  proved as lemmas.
- `SidebarVisibility` has a command datatype, a pure `Apply` function and a `Run` fold. Its
  `Sidebar` class methods state the new value of the class's one flag.

The lemmas state what the source promises:

- Save and Enter give the same state.
- Any number of keystrokes followed by a discard restore the committed value.
- Switching modes by radio events alone keeps both drafts.
- Mounting never overwrites stored data.
- Deleting a list keeps the others in order.

Each React effect is an explicit step:

- The to-do list's persistence effect runs after every user event
  (`LocalTodoList.UnchangedListNeedsNoWrite` shows this matches rerunning it only on change).
- The mount sequence runs the first render's persistence effect on the pre-load state, because
  that effect sees the first render's uninitialised flag.
- The background sync effect runs when the committed background differs (`CommittedChange`).
  `HandlersNeedNoSync` shows that when a handler itself commits, the effect changes nothing.

The username input is read-only outside editing (frontend/src/components/Sidebar/UserName.tsx:68).
So `HandleUsernameChange` requires `isEditing`: the browser raises no change event otherwise.
That precondition is what keeps the invariant "not editing ⇒ draft = committed". In the same way
the check and clear icons exist only while editing and the edit icon only outside it
(frontend/src/components/Sidebar/UserName.tsx:71-77), so their handlers require that mode.

The model has not been checked against the running application. Remote responses and the
stored entry are parameters of the model.

## Model

| member | source | states |
|---|---|---|
| `JsText.TrimStart` | frontend/src/components/TodoList.tsx:25 | the result is a suffix of the input; every character dropped is ECMAScript white space; the result does not start with white space |
| `JsText.TrimEnd` | frontend/src/components/TodoList.tsx:25 | the result is a prefix of the input; every character dropped is white space; the result does not end with white space |
| `JsText.Trim` | frontend/src/components/TodoList.tsx:25 | `trim()` is a slice of the input with only white space outside it; it is empty exactly when every character is white space; a non-empty result has no white space at either end; an already trimmed string is unchanged |
| `JsText.TrimBothIsCore` | frontend/src/components/TodoList.tsx:25 | removing leading then trailing white space leaves a slice of the input with only white space outside it |
| `UserNameEditor.Step` | frontend/src/components/Sidebar/UserName.tsx:26-55 | every handler the UI can fire keeps "not editing ⇒ draft = committed"; typing changes neither the committed name nor the editing flag |
| `UserNameEditor.Enabled` | frontend/src/components/Sidebar/UserName.tsx:62-78 | the input is read-only outside editing, so a change event is possible only while editing; the check and clear icons exist only while editing and the edit icon only outside it; key presses and double-clicks on the input are possible in both modes |
| `UserNameEditor.Admissible` | frontend/src/components/Sidebar/UserName.tsx:68 | an event sequence the UI can raise: each event is enabled in the state it meets |
| `UserNameEditor.RunPreservesValid` | frontend/src/components/Sidebar/UserName.tsx:26-68 | the invariant survives every event sequence the read-only input allows |
| `UserNameEditor.TypingChangesOnlyDraft` | frontend/src/components/Sidebar/UserName.tsx:26-28 | keystrokes change only the draft, which ends as the last value typed |
| `UserNameEditor.SaveClickAndEnterAgree` | frontend/src/components/Sidebar/UserName.tsx:35-50 | the check icon and Enter give identical states, with committed = old draft = new draft and editing off |
| `UserNameEditor.EditClickAndDoubleClickAgree` | frontend/src/components/Sidebar/UserName.tsx:30-55 | the edit icon and a double-click both give draft = committed with editing on (committed unchanged) |
| `UserNameEditor.EnterWhileViewingIsNoOp` | frontend/src/components/Sidebar/UserName.tsx:45-50 | Enter on the read-only field leaves the state as it was |
| `UserNameEditor.TypingThenClearRestores` | frontend/src/components/Sidebar/UserName.tsx:40-43 | any keystrokes followed by Clear give draft = committed = the name before, with editing off |
| `UserNameEditor.TypingThenSaveCommits` | frontend/src/components/Sidebar/UserName.tsx:35-38 | keystrokes followed by Save commit the last value typed |
| `UserNameEditor.DoubleClickMidEditDiscards` | frontend/src/components/Sidebar/UserName.tsx:52-55 | a double-click mid-edit discards the keystrokes and stays in editing |
| `UserNameEditor.UserName.constructor` | frontend/src/components/Sidebar/UserName.tsx:7-10 | the committed name starts as "Stranger", the draft equals it, and the field is not editing |
| `UserNameEditor.UserName.HandleUsernameChange` | frontend/src/components/Sidebar/UserName.tsx:26-28 | only the draft changes |
| `UserNameEditor.UserName.HandleEditClick` | frontend/src/components/Sidebar/UserName.tsx:30-33 | callable only outside editing, where the edit icon is rendered; draft := committed, editing on, committed unchanged |
| `UserNameEditor.UserName.HandleSaveClick` | frontend/src/components/Sidebar/UserName.tsx:35-38 | callable only while editing, where the check icon is rendered; committed := draft, editing off |
| `UserNameEditor.UserName.HandleClearClick` | frontend/src/components/Sidebar/UserName.tsx:40-43 | callable only while editing, where the clear icon is rendered; draft := committed, editing off, committed unchanged |
| `UserNameEditor.UserName.HandleKeyPress` | frontend/src/components/Sidebar/UserName.tsx:45-50 | Enter saves; every other key leaves the whole state unchanged |
| `UserNameEditor.UserName.HandleDoubleClick` | frontend/src/components/Sidebar/UserName.tsx:52-55 | draft := committed, editing on |
| `BackgroundSelector.Sync` | frontend/src/components/Sidebar/BackgroundSettings.tsx:23-30 | selected mode := committed type; only that mode's draft := committed value; the other draft, the committed background and the flag are kept |
| `BackgroundSelector.Init` | frontend/src/components/Sidebar/BackgroundSettings.tsx:17-19 | the mount state: mode = committed type, that mode's draft = committed value, the other draft its default ("#000000" or ""), flag off |
| `BackgroundSelector.Enabled` | frontend/src/components/Sidebar/BackgroundSettings.tsx:114-132 | colour boxes (only the four presets) exist in solid mode only, the search box in search mode only, the Save button only while the draft is marked changed |
| `BackgroundSelector.CommittedChange` | frontend/src/components/Sidebar/BackgroundSettings.tsx:23-30 | a new committed background is taken in and synchronised; an unchanged one leaves the state alone |
| `BackgroundSelector.Commit` | frontend/src/components/Sidebar/BackgroundSettings.tsx:56-61 | type := custom, value := search draft, flag cleared, mode and solid draft kept |
| `BackgroundSelector.Discard` | frontend/src/components/Sidebar/BackgroundSettings.tsx:62-65 | search draft := committed value, flag cleared, committed background, mode and solid draft kept |
| `BackgroundSelector.Step` | frontend/src/components/Sidebar/BackgroundSettings.tsx:39-80 | only the colour click, Save and Enter change the committed background; only a radio change changes the selected mode |
| `BackgroundSelector.ClickOutsideAsWritten` | frontend/src/components/Sidebar/BackgroundSettings.tsx:75-87 | in search mode, a press outside the box resets the search draft to the mount-time value and clears the flag; otherwise nothing changes; the committed background is never touched |
| `BackgroundSelector.MountSyncIsNoOp` | frontend/src/components/Sidebar/BackgroundSettings.tsx:17-30 | the mount state already has mode = committed type and that mode's draft = committed value, so the first sync changes nothing |
| `BackgroundSelector.SyncIsIdempotent` | frontend/src/components/Sidebar/BackgroundSettings.tsx:23-30 | running the sync effect twice is running it once |
| `BackgroundSelector.HandlersNeedNoSync` | frontend/src/components/Sidebar/BackgroundSettings.tsx:23-73 | for every handler the rendered controls allow, either the committed background is unchanged or the sync effect that follows changes nothing |
| `BackgroundSelector.RadioChangesOnlySelection` | frontend/src/components/Sidebar/BackgroundSettings.tsx:39-42 | any run of radio changes only sets the selected mode; both drafts and the committed background survive |
| `BackgroundSelector.SolidCustomSolidRestoresDraft` | frontend/src/components/Sidebar/BackgroundSettings.tsx:39-42 | solid, custom, solid restores the exact prior state apart from the mode |
| `BackgroundSelector.MouseSwitchResetsSearchDraft` | frontend/src/components/Sidebar/BackgroundSettings.tsx:75-87 | with the corrected click-outside handler, a mouse switch from search to solid and back, each press first reaching the document listener, brings the search draft back as the current committed value with the flag cleared; everything else, the solid draft included, is as before |
| `BackgroundSelector.MouseSwitchAsWrittenShowsMountValue` | frontend/src/components/Sidebar/BackgroundSettings.tsx:75-87 | with the listener as registered, the same mouse switch brings the search draft back as the value captured at mount, with the flag cleared; everything else is as before |
| `BackgroundSelector.TypingChangesOnlySearchDraft` | frontend/src/components/Sidebar/BackgroundSettings.tsx:51-54 | keystrokes set the search draft to the last value typed and the flag to (draft ≠ committed value), nothing else |
| `BackgroundSelector.EnterAndSaveAgree` | frontend/src/components/Sidebar/BackgroundSettings.tsx:56-73 | Enter and the Save button give identical states |
| `BackgroundSelector.EscapeAndClickOutsideAgree` | frontend/src/components/Sidebar/BackgroundSettings.tsx:75-80 | with the search box mounted, the corrected click-outside discards exactly as Escape does |
| `BackgroundSelector.TypingThenEscapeRestores` | frontend/src/components/Sidebar/BackgroundSettings.tsx:62-65 | any keystrokes then Escape restore the committed value in the box and clear the flag, all else as before |
| `BackgroundSelector.TypingThenEnterCommits` | frontend/src/components/Sidebar/BackgroundSettings.tsx:56-61 | keystrokes then Enter commit the last value typed as a custom background |
| `BackgroundSelector.BeachScenario` | frontend/src/components/Sidebar/BackgroundSettings.tsx:56-61 | switching to search, typing "beach" and pressing Enter gives type custom and value "beach" |
| `BackgroundSelector.ClickOutsideAsWrittenIsStale` | frontend/src/components/Sidebar/BackgroundSettings.tsx:75-87 | the registered handler shows a stale value after a commit, where the corrected one shows the committed value |
| `BackgroundSelector.BackgroundSettings.constructor` | frontend/src/components/Sidebar/BackgroundSettings.tsx:17-20 | mode = committed type; solid draft = value if solid else "#000000"; search draft = value if custom else ""; flag off |
| `BackgroundSelector.BackgroundSettings.ReceiveCommitted` | frontend/src/components/Sidebar/BackgroundSettings.tsx:23-30 | the new state is `CommittedChange` of the old one |
| `BackgroundSelector.BackgroundSettings.HandleRadioChange` | frontend/src/components/Sidebar/BackgroundSettings.tsx:39-42 | only the selected mode changes |
| `BackgroundSelector.BackgroundSettings.HandleSolidColorBoxClick` | frontend/src/components/Sidebar/BackgroundSettings.tsx:44-49 | callable only when a preset colour box is rendered (solid mode); solid draft := colour and committed := (solid, colour); search draft and flag kept |
| `BackgroundSelector.BackgroundSettings.HandleUnsplashInputChange` | frontend/src/components/Sidebar/BackgroundSettings.tsx:51-54 | callable only in search mode, where the box is rendered; search draft := value, flag := (value ≠ committed value) |
| `BackgroundSelector.BackgroundSettings.HandleUnsplashInputKeyDown` | frontend/src/components/Sidebar/BackgroundSettings.tsx:56-66 | callable only in search mode; Enter commits, Escape discards, every other key changes nothing |
| `BackgroundSelector.BackgroundSettings.HandleSaveButtonClick` | frontend/src/components/Sidebar/BackgroundSettings.tsx:68-73 | callable only while the Save button is rendered (search mode, draft changed); committed := (custom, search draft), flag cleared |
| `BackgroundSelector.BackgroundSettings.HandleClickOutside` | frontend/src/components/Sidebar/BackgroundSettings.tsx:75-80 | a press outside the mounted box resets the draft to the current committed value and clears the flag (corrected) |
| `LocalTodoList.Load` | frontend/src/components/TodoList.tsx:10-16 | the list becomes the stored array when there is one and stays otherwise; initialised either way; the store is untouched |
| `LocalTodoList.Initial` | frontend/src/components/TodoList.tsx:6-8 | the first render: empty list, empty draft, not initialised, store as found |
| `LocalTodoList.Mount` | frontend/src/components/TodoList.tsx:10-22 | the load effect runs first, then the first render's persistence effect, which reads that render's snapshot (flag off) and so writes nothing, as if it ran before the load; the second render persists. The result is synced and shows the stored array or, when none, the list as it was |
| `LocalTodoList.Persist` | frontend/src/components/TodoList.tsx:18-22 | before initialisation nothing changes; after it, the store equals the list |
| `LocalTodoList.Added` | frontend/src/components/TodoList.tsx:24-29 | a non-blank draft is appended untrimmed at the end (old list a prefix, length + 1) and the draft cleared; a blank one changes nothing |
| `LocalTodoList.Step` | frontend/src/components/TodoList.tsx:31-43 | keys other than Enter change nothing; the list either stays or gains the draft at its end; the flag and store are untouched |
| `LocalTodoList.Interact` | frontend/src/components/TodoList.tsx:18-35 | one event followed by the persistence effect: the list stays or gains the draft at its end; once initialised, the store mirrors the list; before that it is untouched |
| `LocalTodoList.Session` | frontend/src/components/TodoList.tsx:18-43 | a sequence of interactions keeps the flag; an uninitialised list never writes the store; an initialised one ends synced |
| `LocalTodoList.InteractKeeps` | frontend/src/components/TodoList.tsx:18-35 | from a synced state, one interaction stays synced, the list either stays or gains the non-blank draft at its end, and a list without blank to-dos keeps none |
| `LocalTodoList.SessionOnlyAppends` | frontend/src/components/TodoList.tsx:18-35 | over any session after mounting, the list before is a prefix of the list after |
| `LocalTodoList.SessionAddsNoBlank` | frontend/src/components/TodoList.tsx:24-29 | over any session after mounting, a list without blank to-dos never gains one |
| `LocalTodoList.MountKeepsSavedTodos` | frontend/src/components/TodoList.tsx:10-22 | after mounting, the list is the stored array (or empty when none), the store mirrors it, and a stored array is never overwritten |
| `LocalTodoList.NoWriteBeforeInitialized` | frontend/src/components/TodoList.tsx:18-22 | the first render's persistence effect writes nothing |
| `LocalTodoList.UnchangedListNeedsNoWrite` | frontend/src/components/TodoList.tsx:18-22 | when an event leaves the list as it was, the persistence effect changes nothing |
| `LocalTodoList.BlankDraftIsWhiteSpace` | frontend/src/components/TodoList.tsx:25 | adding is a no-op exactly when the draft is made only of white space |
| `LocalTodoList.OnlyEnterAdds` | frontend/src/components/TodoList.tsx:31-35 | Enter adds and every other key changes nothing |
| `LocalTodoList.SessionKeepsStoreInSync` | frontend/src/components/TodoList.tsx:18-29 | over any session after mounting, the store mirrors the list, the list only grows at its end, and it never gains a blank to-do |
| `LocalTodoList.TodoList.constructor` | frontend/src/components/TodoList.tsx:6-8 | empty list, empty draft, not initialised, store as found |
| `LocalTodoList.TodoList.LoadEffect` | frontend/src/components/TodoList.tsx:10-16 | the new state is `Load` of the old one |
| `LocalTodoList.TodoList.PersistEffect` | frontend/src/components/TodoList.tsx:18-22 | the store is written only once initialised |
| `LocalTodoList.TodoList.SetNewTodo` | frontend/src/components/TodoList.tsx:43 | only the draft changes |
| `LocalTodoList.TodoList.AddTodo` | frontend/src/components/TodoList.tsx:24-29 | appends a non-blank draft and clears it; a blank draft changes nothing |
| `LocalTodoList.TodoList.HandleKeyDown` | frontend/src/components/TodoList.tsx:31-35 | Enter adds; other keys change nothing |
| `AppFunctions.ColorsOrEmpty` | frontend/src/utils/appFunctions.ts:27 | a missing palette becomes the empty list |
| `AppFunctions.AppendCreated` | frontend/src/utils/appFunctions.ts:40 | the snapshot is kept as a prefix, in order, and the created list comes last |
| `AppFunctions.RemoveById` | frontend/src/utils/appFunctions.ts:52 | no list with the id remains; a list is kept iff its id differs; the length shrinks iff the id was present; without the id nothing changes |
| `AppFunctions.RemoveByIdAppend` | frontend/src/utils/appFunctions.ts:52 | filtering distributes over concatenation, so the kept lists keep their order |
| `AppFunctions.RemoveByIdIdempotent` | frontend/src/utils/appFunctions.ts:52 | deleting the same id again changes nothing |
| `AppFunctions.AddThenRemoveRestores` | frontend/src/utils/appFunctions.ts:33-56 | creating a list with a fresh id and deleting it restores the lists |
| `AppFunctions.RemoveByIdDropsDuplicates` | frontend/src/utils/appFunctions.ts:52 | two lists with the same id are both removed |
| `AppFunctions.AppState.constructor` | frontend/src/App.tsx:21-28 | the initial lists, sidebar flag, profile fields and active index |
| `AppFunctions.AppState.FetchTodoLists` | frontend/src/utils/appFunctions.ts:4-13 | success replaces the lists wholesale; failure leaves them |
| `AppFunctions.AppState.FetchUserProfile` | frontend/src/utils/appFunctions.ts:15-31 | success sets all four profile fields from one response, with a missing palette as []; failure sets none |
| `AppFunctions.AppState.AddTodoList` | frontend/src/utils/appFunctions.ts:33-44 | posts the "New Todo List" skeleton with no to-dos; success gives snapshot ++ [created]; failure leaves the lists |
| `AppFunctions.AppState.RemoveTodoList` | frontend/src/utils/appFunctions.ts:46-56 | success filters out every list with the id; failure leaves the lists |
| `AppFunctions.AppState.RemoveTodoListAndResetIndex` | frontend/src/App.tsx:95-98 | the active index becomes 0 whether or not the delete succeeded |
| `AppFunctions.AppState.OpenSidebar` | frontend/src/utils/appFunctions.ts:62-64 | the sidebar flag becomes true |
| `AppFunctions.AppState.CloseSidebar` | frontend/src/utils/appFunctions.ts:58-60 | the sidebar flag becomes false |
| `SidebarVisibility.Apply` | frontend/src/components/Sidebar.tsx:9-21 | open gives open and close gives closed, whatever came before; an overlay click closes only when it lands on the container |
| `SidebarVisibility.OpenCloseIdempotent` | frontend/src/components/Sidebar.tsx:9-15 | open and close are idempotent and ignore the prior state |
| `SidebarVisibility.CloseIconCloses` | frontend/src/components/Sidebar.tsx:28-30 | the close icon's click, bubbling to the overlay from inside, leaves the sidebar closed |
| `SidebarVisibility.InnerClicksChangeNothing` | frontend/src/components/Sidebar.tsx:17-21 | any number of clicks from inner elements leave the sidebar as it was |
| `SidebarVisibility.Sidebar.constructor` | frontend/src/components/Sidebar.tsx:7 | the sidebar starts closed |
| `SidebarVisibility.Sidebar.OpenSidebar` | frontend/src/components/Sidebar.tsx:9-11 | the sidebar is open |
| `SidebarVisibility.Sidebar.CloseSidebar` | frontend/src/components/Sidebar.tsx:13-15 | the sidebar is closed |
| `SidebarVisibility.Sidebar.HandleOverlayClick` | frontend/src/components/Sidebar.tsx:17-21 | closes when the target is the container itself, otherwise changes nothing |

## Left out

- HTTP is not modelled: the axios calls, the backend URL from the environment, the request paths and any request body except the create skeleton. Each call is an `Outcome` parameter. `console.log`/`console.error` and `logRefreshTriggerChange` are logging only.
- The remote profile updates (a PUT of the background or of the palette) and the palette's add/delete are not in these files, so they are not part of this model.
- Browser storage is the `store` field, an `Option<seq<string>>`. JSON encoding and decoding are not modelled. An empty stored string reads like an absent entry, because both are falsy at frontend/src/components/TodoList.tsx:12. The unguarded parse failure is not modelled.
- The React runtime is not modelled: render scheduling, batching, refs, focus (frontend/src/components/Sidebar/UserName.tsx:20-24) and input-width measurement (frontend/src/components/Sidebar/UserName.tsx:14-18). Each handler is one atomic method. Each effect is an explicit step.
- The click-outside listener is on the whole document (frontend/src/components/Sidebar/BackgroundSettings.tsx:83), so in search mode every mouse press outside the box (on a radio button, on the Save button, elsewhere) first raises a `ClickOutside(false)`. The model keeps that press as a separate event that a trace must list before the click it precedes: `RadioChangesOnlySelection` and `SolidCustomSolidRestoresDraft` describe radio events alone (for example from the keyboard); a mouse switch from search mode is the trace `[ClickOutside(false), RadioChange(...)]`, which resets the search draft first: to the current committed value with the corrected click-outside handler (`MouseSwitchResetsSearchDraft`), to the value captured at mount with the listener as registered (`MouseSwitchAsWrittenShowsMountValue`). Whether the Save button unmounts before its click arrives depends on render timing, which is not modelled.
- Async ordering is not modelled. Calls are sequential, and `AddTodoList` takes the caller's snapshot of the lists as a parameter, so a stale snapshot is possible but not its cause.
- The root component passes a third argument to `addTodoList` (frontend/src/App.tsx:74). The function ignores it, so `AddTodoList` leaves the active index alone.
- The list record type is declared in frontend/src/components/TodoList/TodoList, which is not part of this model. The model assumes the shape `{ id, title, todos }` with a string id and string to-dos.
- `BackgroundSelector.BackgroundType` has two values, so two inputs are narrowed to it: the radio value (the radios carry only "solid" and "custom") and the profile's `backgroundType` from the server.
- Strings are sequences of Unicode scalar values, not UTF-16 code units. `JsText.IsWhiteSpace` lists ECMAScript's WhiteSpace and LineTerminator code points.
- Styling files and the `completed` flag of frontend/src/styled-components/Todo.tsx:3 are not modelled, because nothing in the state reads them.

## Findings

| source | as written | input that shows it | evidently intended | confidence | as-written member | corrected member |
|---|---|---|---|---|---|---|
| frontend/src/components/Sidebar/BackgroundSettings.tsx:75-87 | the mouse-down listener is registered once, with empty dependencies, so it resets the search draft to the committed value it saw at mount | mount on a custom "beach" background, type "mountain", press Enter, then press the mouse outside the box: the box shows "beach" while the background stays "mountain" | reset to the current committed value, as Escape does (lines 62-65) | high; not executed | `BackgroundSelector.ClickOutsideAsWritten`, exhibited by `BackgroundSelector.ClickOutsideAsWrittenIsStale` | `BackgroundSelector.Step` (its `ClickOutside` case, used by `BackgroundSelector.BackgroundSettings.HandleClickOutside`), proved by `BackgroundSelector.EscapeAndClickOutsideAgree` |
