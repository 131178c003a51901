# History list adapter — a Dafny model

This project models the history list of the Fenix browser: `HistoryAdapter` and its three
view holders. The list is virtual. Row 0 is the delete control, row 1 is the "Today"
header, and row `p` from 2 up shows entry `p - 2`. The adapter keeps two fields, the
entries and the list's mode (`Normal`, or `Editing` with a set of entries picked for
removal). `updateData` replaces both. The view holders turn taps, long presses, checkbox
changes and the overflow menu's Delete entry into `HistoryAction`s sent to a shared
action sink.

Modules:

- `HistoryTypes` (`history_types.dfy`): `HistoryItem`, `Mode`, `HistoryAction`, and the action sink as a
  class `ActionEmitter` whose `OnNext` appends to a sequence.
- `ListItemRow` (`list_item_row.dfy`): the state of an entry row as a value (`RowView`), one function per event
  giving the row afterwards and the actions emitted, and the class
  `HistoryListItemViewHolder`. Its methods perform the event step by step, as the view
  holder does, and are proved to have exactly the effect the function gives.
- `DeleteRow` (`delete_row.dfy`): the delete control's label and click action, and `HistoryDeleteViewHolder`.
- `HeaderRow` (`header_row.dfy`): `HistoryHeaderViewHolder` and the hard-coded title.
- `Adapter` (`adapter.dfy`): row positions, view types, holder creation and bind dispatch, and the class
  `HistoryAdapter`.
- `Gestures` (`gestures.dfy`): runs of gestures on one entry row. It proves that they emit exactly what
  each gesture means, and that the Add/Remove actions keep the removal selection in step
  with the checkbox.
- `Scenarios` (`scenarios.dfy`): two client methods that drive the classes through their contracts only.

Modelling choices:

- The checkbox follows Android's `CompoundButton`. An assignment to its checked state keeps
  the value, and it calls the attached listener only when the value changes. The row
  counts every change request to the checkbox's checked state (`checkboxWrites`), whether
  the holder makes it or the user toggles the checkbox. With that count, "bind
  writes the checkbox only when it differs" can be stated.
- The delete holder's `lateinit` mode is an `Option`. A click before the first bind
  throws in the source. Here `OnClick` returns `initialized == false` and emits nothing.
- `onBindViewHolder` on an entry holder at a position with no entry throws
  `IndexOutOfBoundsException` in the source. Here `OnBindViewHolder` returns
  `indexed == false` and changes nothing.
- `onCreateViewHolder` fails for a view type that is not one of its three layouts. It
  inflates the view type first (HistoryAdapter.kt:189), which throws for an int that is no
  layout resource; a different layout reaches the `else` branch at line 195 and throws
  `IllegalStateException`. Here both cases return `UnknownViewType`.
- Layout resource ids are three distinct integers (1, 2, 3). Their real values come from
  the build.
- The inflated entry view's initial widget state (texts, checkbox, favicon) is a
  parameter (`ItemView`), because the layout files are not part of this model.
- The selection is a `set<HistoryItem>`. `HistoryState` is not part of this model.

## Model

| member | source | states |
|---|---|---|
| `HistoryTypes.ActionEmitter.OnNext` | app/src/main/java/org/mozilla/fenix/library/history/HistoryAdapter.kt:21 | the action sink receives actions in order, one per call |
| `ListItemRow.Inflated` | app/src/main/java/org/mozilla/fenix/library/history/HistoryAdapter.kt:34-81 | a new entry holder has no entry, is in `Normal` mode and has its check listener attached |
| `ListItemRow.CheckedChangeActions` | app/src/main/java/org/mozilla/fenix/library/history/HistoryAdapter.kt:37-51 | the check listener emits nothing in `Normal` or with no entry; otherwise exactly one action, `AddItemForRemoval(item)` when checked and `RemoveItemForRemoval(item)` when unchecked |
| `ListItemRow.WriteCheckedEffect` | app/src/main/java/org/mozilla/fenix/library/history/HistoryAdapter.kt:101-103 | a checkbox assignment stores the value, counts one write, and calls the listener only if the value changed and the listener is attached |
| `ListItemRow.TapEffect` | app/src/main/java/org/mozilla/fenix/library/history/HistoryAdapter.kt:56-65 | in `Normal` a tap leaves the row unchanged and emits one `Select(item)`, or nothing with no entry; in `Editing` it flips only the checkbox, never emits `Select`, emits exactly one Add/Remove matching the new checkbox state while listening with an entry, and nothing while not listening or with no entry |
| `ListItemRow.LongClickEffect` | app/src/main/java/org/mozilla/fenix/library/history/HistoryAdapter.kt:67-73 | a long press changes nothing on the row and emits exactly one `EnterEditMode(item)` when an entry is bound, else nothing |
| `ListItemRow.MenuDeleteEffect` | app/src/main/java/org/mozilla/fenix/library/history/HistoryAdapter.kt:108-116 | the menu's Delete emits exactly one `DeleteOne(item)` when an entry is bound, else nothing |
| `ListItemRow.BindEffect` | app/src/main/java/org/mozilla/fenix/library/history/HistoryAdapter.kt:84-106 | bind emits nothing; it shows the entry's title and url; the checkbox is visible and the favicon invisible exactly in `Editing`; in `Editing` the checkbox ends checked iff the entry is selected, is written once only if it differed, and the listener ends attached; in `Normal` checkbox and listener are untouched |
| `ListItemRow.RebindIsIdempotent` | app/src/main/java/org/mozilla/fenix/library/history/HistoryAdapter.kt:98-103 | binding the same entry and mode again changes nothing, and in particular makes no further checkbox write |
| `ListItemRow.HistoryListItemViewHolder.constructor` | app/src/main/java/org/mozilla/fenix/library/history/HistoryAdapter.kt:23-82 | a created holder is in the `Inflated` state and shares the given emitter |
| `ListItemRow.HistoryListItemViewHolder.OnCheckedChanged` | app/src/main/java/org/mozilla/fenix/library/history/HistoryAdapter.kt:37-51 | the listener appends exactly `CheckedChangeActions` to the sink |
| `ListItemRow.HistoryListItemViewHolder.WriteChecked` | app/src/main/java/org/mozilla/fenix/library/history/HistoryAdapter.kt:58 | the holder's state and the sink change as `WriteCheckedEffect` says |
| `ListItemRow.HistoryListItemViewHolder.OnClick` | app/src/main/java/org/mozilla/fenix/library/history/HistoryAdapter.kt:56-65 | the holder's state and the sink change as `TapEffect` says |
| `ListItemRow.HistoryListItemViewHolder.OnLongClick` | app/src/main/java/org/mozilla/fenix/library/history/HistoryAdapter.kt:67-73 | the gesture is always reported consumed, and the sink gets what `LongClickEffect` says |
| `ListItemRow.HistoryListItemViewHolder.OnMenuDelete` | app/src/main/java/org/mozilla/fenix/library/history/HistoryAdapter.kt:108-116 | the sink gets what `MenuDeleteEffect` says |
| `ListItemRow.HistoryListItemViewHolder.Bind` | app/src/main/java/org/mozilla/fenix/library/history/HistoryAdapter.kt:84-106 | the holder's state changes as `BindEffect` says, with the listener detached around the checkbox write, and the sink is unchanged |
| `DeleteRow.DeleteActionFor` | app/src/main/java/org/mozilla/fenix/library/history/HistoryAdapter.kt:144-151 | a click means `DeleteSome(selectedItems)` exactly when editing with a non-empty selection, otherwise `DeleteAll` |
| `DeleteRow.DeleteLabelFor` | app/src/main/java/org/mozilla/fenix/library/history/HistoryAdapter.kt:161-172 | the label reports the selection size exactly when editing with a non-empty selection, otherwise it reads "delete all" |
| `DeleteRow.LabelDescribesAction` | app/src/main/java/org/mozilla/fenix/library/history/HistoryAdapter.kt:143-172 | the label always announces what a click does: the count of a `DeleteSome`, or "delete all" iff the click emits `DeleteAll` |
| `DeleteRow.HistoryDeleteViewHolder.constructor` | app/src/main/java/org/mozilla/fenix/library/history/HistoryAdapter.kt:137-141 | a new delete holder has no mode and no label of its own yet |
| `DeleteRow.HistoryDeleteViewHolder.Bind` | app/src/main/java/org/mozilla/fenix/library/history/HistoryAdapter.kt:161-172 | bind records the mode and sets the text and its content description to the label for that mode |
| `DeleteRow.HistoryDeleteViewHolder.OnClick` | app/src/main/java/org/mozilla/fenix/library/history/HistoryAdapter.kt:141-151 | a click after bind emits exactly one action, `DeleteActionFor(mode)`; before any bind it fails and emits nothing |
| `HeaderRow.HistoryHeaderViewHolder.constructor` | app/src/main/java/org/mozilla/fenix/library/history/HistoryAdapter.kt:123-126 | a new header holder has no title of its own yet |
| `HeaderRow.HistoryHeaderViewHolder.Bind` | app/src/main/java/org/mozilla/fenix/library/history/HistoryAdapter.kt:128-130 | bind shows the given title |
| `Adapter.ItemViewType` | app/src/main/java/org/mozilla/fenix/library/history/HistoryAdapter.kt:199-205 | position 0 has the delete layout, position 1 the header layout, every other position the entry layout, each iff |
| `Adapter.KindOfViewType` | app/src/main/java/org/mozilla/fenix/library/history/HistoryAdapter.kt:191-196 | a view type gets a holder kind exactly when it is that kind's layout id; any other view type fails |
| `Adapter.EveryPositionHasHolder` | app/src/main/java/org/mozilla/fenix/library/history/HistoryAdapter.kt:188-205 | the failure branch of holder creation is never reached from a view type the adapter reports, and the kind matches the position |
| `Adapter.BoundItem` | app/src/main/java/org/mozilla/fenix/library/history/HistoryAdapter.kt:215 | an entry row has an entry exactly at positions 2 to `count - 1`, all of which have the entry layout, and the entry is one of the list's |
| `Adapter.EntryRowsShowItemsInOrder` | app/src/main/java/org/mozilla/fenix/library/history/HistoryAdapter.kt:207-215 | entry `i` is shown at position `i + 2`, and every entry-layout position below the count has an entry |
| `Adapter.HistoryAdapter.constructor` | app/src/main/java/org/mozilla/fenix/library/history/HistoryAdapter.kt:179-180 | a new adapter has no entries and is in `Normal` mode |
| `Adapter.HistoryAdapter.UpdateData` | app/src/main/java/org/mozilla/fenix/library/history/HistoryAdapter.kt:182-186 | the entries and the mode are replaced wholesale, and nothing else changes |
| `Adapter.HistoryAdapter.GetItemCount` | app/src/main/java/org/mozilla/fenix/library/history/HistoryAdapter.kt:207 | the count is the number of entries plus the two leading sections |
| `Adapter.HistoryAdapter.OnCreateViewHolder` | app/src/main/java/org/mozilla/fenix/library/history/HistoryAdapter.kt:188-197 | a known view type yields a new holder of its kind that shares the adapter's emitter; any other view type fails |
| `Adapter.HistoryAdapter.OnBindViewHolder` | app/src/main/java/org/mozilla/fenix/library/history/HistoryAdapter.kt:209-217 | by holder kind: the delete control gets the mode, and its label as both text and content description, the header gets "Today", and an entry holder at position p is bound to entry `p - 2` with the current mode, or is left unchanged when there is no such entry; the sink never changes |
| `Gestures.Apply` | app/src/main/java/org/mozilla/fenix/library/history/HistoryAdapter.kt:37-116 | any single gesture emits at most one action, and a rebind emits none |
| `Gestures.Run` | app/src/main/java/org/mozilla/fenix/library/history/HistoryAdapter.kt:37-116 | a run of gestures emits no more actions than there are gestures |
| `Gestures.ApplyEmitsIntended` | app/src/main/java/org/mozilla/fenix/library/history/HistoryAdapter.kt:37-116 | on a bound, listening row, one gesture keeps the row that way and emits what the gesture means |
| `Gestures.RunEmitsIntended` | app/src/main/java/org/mozilla/fenix/library/history/HistoryAdapter.kt:37-116 | on a bound, listening row, any run of gestures emits exactly what the gestures mean, in order: `Select` for a tap in `Normal`, one Add/Remove for a tap in `Editing`, `EnterEditMode` for a long press, `DeleteOne` for the menu, and nothing for a rebind |
| `Gestures.FreshRowEmitsIntended` | app/src/main/java/org/mozilla/fenix/library/history/HistoryAdapter.kt:23-116 | from a newly created holder, a bind followed by any gestures emits exactly what those gestures mean |
| `Gestures.TapsKeepCheckboxInStep` | app/src/main/java/org/mozilla/fenix/library/history/HistoryAdapter.kt:37-65 | in `Editing`, while the checkbox agrees with a removal selection, taps keep it agreeing with the selection the emitted Add/Remove actions produce |
| `Gestures.EditingRowMirrorsSelection` | app/src/main/java/org/mozilla/fenix/library/history/HistoryAdapter.kt:37-106 | after binding an entry in `Editing(selection)` from any state, any taps leave the checkbox showing whether the entry is in the selection the emitted actions produce |
| `Gestures.EchoedRebindMakesNoWrite` | app/src/main/java/org/mozilla/fenix/library/history/HistoryAdapter.kt:98-103 | after taps in `Editing`, rebinding the row with the selection the store reaches by applying their Add/Remove actions makes no checkbox write and leaves the checkbox as it was |
| `Scenarios.NormalListScenario` | app/src/main/java/org/mozilla/fenix/library/history/HistoryAdapter.kt:182-217 | with entries [A, B] in `Normal`, the list has four rows: "delete all", "Today", A, B; tapping A's row emits exactly `Select(A)` |
| `Scenarios.EditingDeleteScenario` | app/src/main/java/org/mozilla/fenix/library/history/HistoryAdapter.kt:143-172 | with entries A and B both picked, the delete label counts 2, A's checkbox is checked, and a click emits exactly `DeleteSome({A, B})` |

## Left out

- Layout inflation, the `ContextCompat` tinting of the delete icon, and building and
  showing the overflow `BrowserMenu` are Android view calls with no logic of their own.
- `notifyDataSetChanged` is not modelled. The framework then re-binds rows, which is
  `OnBindViewHolder`.
- Localised strings are left out. The delete label is the abstract `DeleteSomeLabel(n)`
  or `DeleteAllLabel`.
- The `Observer` sink's threading and delivery are not modelled. The sink is an
  append-only sequence.
- `Gestures.ApplyToSelection` is not the store's reducer, which is not part of this
  model. It only gives the meaning the Add/Remove action names carry.
- `HistoryAdapter.GetItemCount` does not model Kotlin `Int` overflow of `items.size + 2`,
  because a list that long cannot be shown.
- The pairing flow (SyncFragment.kt, SyncPairFragment.kt and SyncPairDialogFragment.kt) is
  left out. It is fragment lifecycle, camera-permission requests, navigation, and calls
  into the QR scanner and account service, with no local logic.
