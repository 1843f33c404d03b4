# prose-log-parser: the browsing state engine, in Dafny

This project models the interactive core of `prose-log-parser`, a terminal viewer
for structured JSON logs that carry XMPP stanza transcripts. It proves properties
of that model. The core is the state the viewer keeps while the user browses:

- **the records** of the log file, loaded all at once;
- **the span index**: the label `[All Messages]` followed by the distinct names of
  the spans found in the records, sorted;
- **the visible records**: all of them, or only those of the selected span;
- **the detail pane**: the selected record, formatted, with a vertical scroll
  cursor and a scrollbar;
- **the focused pane**, which receives Up and Down;
- **the live reload**, which rebuilds everything from the file and carries the
  user's place across.

Modules follow the source files:

| module | file | what it holds |
|---|---|---|
| `Wrappers` | `wrappers.dfy` | `Option` and `Result` |
| `LogMessages` | `log_message.dfy` | the record datatypes and the three formatters of `src/log_message.rs` |
| `StatefulLists` | `stateful_list.dfy` | the list with a circular cursor (`src/tui/stateful_list.rs`) and ratatui's `ListState` |
| `SelectedLogMessages` | `selected_log_message.dfy` | the detail pane's 16-bit saturating scroll (`src/tui/selected_log_message.rs`) |
| `RecordStore` | `record_store.dfy` | all-or-nothing loading and the span index (`AppInner::new`) |
| `Tui` | `app.dfy` | `AppArea`, span filtering, key routing, jump-to-end, reload, and the classes `AppInner` and `App` |

Each Rust struct that is updated in place is a Dafny class:

- `StatefulList<T>` and `SelectedLogMessage` keep the struct's fields.
- `AppInner` keeps the five list, detail and focus fields. Its `syntax_set` and
  `theme_set` become one constant `fmt: Formatter`, which holds the formatting
  functions they configure.
- `App` holds `inner` and the same `fmt`. Its `path` field is not kept. The
  file behind it is passed as a `Source` parameter to `New` and to each reload.

Each class has an abstraction function that reads the class as a value:

- `Value()` gives a `ListView` or a `Detail`;
- `View()` gives an `AppView`.

Every method is proved against a pure function of that value, for example
`ensures View() == KeyUp(old(View()), fmt)`. The properties the program promises
are stated as contracts and lemmas about those functions.

Some parts of the source are replaced by inputs to the model:

- **File and parser.** The file is a `Source` value: it cannot be opened, or it
  holds lines, each read or unreadable. The JSON parser of one line is a function
  parameter.
- **Formatting libraries.** The XML pretty-printer and the syntax highlighter are
  the function-valued fields of a `Formatter`. The model fixes only what the
  source itself decides: a record without a direction is shown verbatim, one
  white line per line of its message. For a stanza, a pretty-printing failure is
  propagated.

## Behaviour worth knowing

- **Reload does not re-apply the span filter.** The visible list after a reload is
  the unfiltered list of all records, even when the span cursor is on a span name.
- **Reload does not clamp the record cursor.** When the cursor was not on the last
  record, its index is copied as it was, even if the reloaded list is shorter. In
  that case no record is selected and the detail is empty.
- **Reload does not keep the previous state when loading fails.** The code unwraps
  the load, so `App.ReloadMessages` requires a successful load.
- **Reload restores the span cursor by index**, not by name.
- **`ListState::select(None)` also resets the list's scroll offset to 0.** This is
  ratatui's behaviour, and it is modelled in `StatefulLists.ListState.Select`. On a
  reload whose previous record cursor was empty, the copied offset is therefore
  reset.
- **The default focus is the messages pane**, not the detail pane.
- **A record whose stanza cannot be formatted gets no detail at all.** The detail
  pane then shows the `<no selection>` placeholder
  (`src/tui/app.rs:132-153`) instead of a raw rendering, even though a record
  is selected.
- **`prev` does not bring an out-of-range cursor back into range.** A cursor
  beyond the end is only decremented (`StatefulLists.ListView.Prev`).

## Model

| member | source | states |
|---|---|---|
| LogMessages.SpanEqualityIsByName | src/log_message.rs:17-20 | two spans are equal exactly when their names are |
| LogMessages.LinesWithEndings | src/log_message.rs:92 | the line pieces spell the message exactly, and there are none only for the empty message |
| LogMessages.LinesWithEndingsShape | src/log_message.rs:92 | every piece is non-empty, every piece but the last ends in a newline, and no piece has a newline elsewhere |
| LogMessages.PrettyPrintedXml | src/log_message.rs:54-61 | a record without a direction is returned unchanged; a stanza that the pretty-printer rejects gives an error |
| LogMessages.HighlightedStanzaXml | src/log_message.rs:63-83 | a record without a direction is returned unchanged; a pretty-printing error is returned as it is, and the highlighter is not reached |
| LogMessages.StanzaText | src/log_message.rs:85-130 | a record without a direction never fails and gives one white line per piece of its message, in order; a pretty-printing error is propagated |
| LogMessages.HighlightedStanzaXmlText | src/log_message.rs:85-130 | the loop that pushes one white line per piece produces exactly the lines `StanzaText` describes, and so does the stanza branch |
| LogMessages.PlainMessageShownVerbatim | src/log_message.rs:90-98 | for a record without a direction, all detail lines are white and their texts, read in order, are the message |
| StatefulLists.LastIndex | src/tui/stateful_list.rs:64 | `len.saturating_sub(1)`: the last index of a non-empty list, and 0 for an empty one |
| StatefulLists.ListState.Select | src/tui/app.rs:79-83 | selecting sets the cursor; selecting an index keeps the scroll offset, and deselecting resets it to 0 |
| StatefulLists.InitialView | src/tui/stateful_list.rs:10-19 | the cursor is on item 0 exactly when there are items, and otherwise there is none; the offset is 0 |
| StatefulLists.ListView.Next | src/tui/stateful_list.rs:21-32 | nothing changes on an empty list; otherwise the cursor lands in range, at `(i+1) mod len` from an item and at 0 from no item or an out-of-range one; items and offset are untouched |
| StatefulLists.ListView.Prev | src/tui/stateful_list.rs:34-45 | nothing changes on an empty list; otherwise the cursor moves to `(i+len-1) mod len` for `i <= len`, to 0 from no selection, and to `i-1` beyond the end; it is in range exactly when it started at most `len` |
| StatefulLists.ListView.SelectedItem | src/tui/stateful_list.rs:47-61 | an item is returned exactly when the cursor is in range, and it is the item at the cursor |
| StatefulLists.ListView.SelectLast | src/tui/stateful_list.rs:63-65 | the cursor is at index `len.saturating_sub(1)`: on the last item, or at 0 with no item selected on an empty list; items and offset are untouched |
| StatefulLists.NextTimesAdvances | src/tui/stateful_list.rs:21-32 | from an item, `k <= len` calls of `next` move the cursor `k` places on, circularly |
| StatefulLists.NextCycles | src/tui/stateful_list.rs:21-32 | from an item, `len` calls of `next` return the list to where it started |
| StatefulLists.PrevUndoesNext | src/tui/stateful_list.rs:21-45 | from an item, `prev` undoes `next` and `next` undoes `prev` |
| StatefulLists.StatefulList.WithItems | src/tui/stateful_list.rs:10-19 | the new list has the value `InitialView(items)` |
| StatefulLists.StatefulList.Clone | src/tui/app.rs:301 | the copy is a new object with the same items and state |
| StatefulLists.StatefulList.Next | src/tui/stateful_list.rs:21-32 | the list in place becomes `ListView.Next` of its old value |
| StatefulLists.StatefulList.Prev | src/tui/stateful_list.rs:34-45 | the list in place becomes `ListView.Prev` of its old value |
| StatefulLists.StatefulList.SelectLast | src/tui/stateful_list.rs:63-65 | the list in place becomes `ListView.SelectLast` of its old value |
| SelectedLogMessages.TruncateToU16 | src/tui/selected_log_message.rs:17 | `as u16` keeps the count modulo 65536, and keeps any count up to 65535 unchanged |
| SelectedLogMessages.SaturatingDec | src/tui/selected_log_message.rs:24 | one less, but never below 0 |
| SelectedLogMessages.SaturatingInc | src/tui/selected_log_message.rs:29 | one more, but never above 65535 |
| SelectedLogMessages.FromLines | src/tui/selected_log_message.rs:10-20 | a fresh detail holds the lines at position 0, with the scrollbar at 0 and its content length equal to the line count modulo 65536 |
| SelectedLogMessages.ScrolledUp | src/tui/selected_log_message.rs:23-26 | the position drops by one and stays at 0 at the top; the scrollbar follows; the text and content length are untouched |
| SelectedLogMessages.ScrolledDown | src/tui/selected_log_message.rs:28-31 | the position rises by one and stays at 65535 at the limit; the scrollbar follows; the text and content length are untouched |
| SelectedLogMessages.ScrollDownThenUp | src/tui/selected_log_message.rs:23-31 | below 65535, scrolling down then up restores the position, and the whole detail when the scrollbar mirrored it |
| SelectedLogMessages.SelectedLogMessage.From | src/tui/selected_log_message.rs:10-20 | the new detail has the value `FromLines(lines)` |
| SelectedLogMessages.SelectedLogMessage.Prev | src/tui/selected_log_message.rs:23-26 | the detail in place becomes `ScrolledUp` of its old value |
| SelectedLogMessages.SelectedLogMessage.Next | src/tui/selected_log_message.rs:28-31 | the detail in place becomes `ScrolledDown` of its old value |
| SelectedLogMessages.SelectedLogMessage.ScrollPosition | src/tui/selected_log_message.rs:33-35 | the vertical position with no horizontal scroll; it agrees with the scrollbar whenever the two are mirrored |
| RecordStore.CollectMessages | src/tui/app.rs:274-281 | the load succeeds exactly when every line is read and parses, giving one record per line in order; otherwise it fails with the error of the first bad line |
| RecordStore.Load | src/tui/app.rs:273-281 | a file that cannot be opened fails with `CannotOpen`; otherwise the result is that of collecting its lines |
| RecordStore.BelowIrreflexive | src/tui/app.rs:294 | no name sorts before itself |
| RecordStore.BelowTransitive | src/tui/app.rs:294 | the name order is transitive |
| RecordStore.BelowTotal | src/tui/app.rs:294 | any two distinct names are ordered one way or the other |
| RecordStore.BelowAsymmetric | src/tui/app.rs:294 | two names are never each below the other |
| RecordStore.InsertSorted | src/tui/app.rs:291-294 | inserting into a sorted list of distinct names keeps it sorted and adds exactly that name |
| RecordStore.SortedDistinct | src/tui/app.rs:291-294 | the result is ascending without repetition and holds exactly the input names |
| RecordStore.SortedIsUnique | src/tui/app.rs:291-294 | a sorted list without repetition is determined by its elements, so the hash set's iteration order does not matter |
| RecordStore.Names | src/tui/app.rs:288 | the names of a record's spans, one per span, in order |
| RecordStore.SpanNames | src/tui/app.rs:283-290 | a name is collected exactly when some record carries a span of that name in its `spans` list |
| RecordStore.SpanIndex | src/tui/app.rs:283-307 | the label comes first, followed by an ascending, repetition-free list of exactly the span names found in the records |
| RecordStore.SpanIndexIsCanonical | src/tui/app.rs:283-307 | any ascending, repetition-free list of those span names is exactly what follows the label |
| Tui.FilterBySpan | src/tui/app.rs:335-347 | the filtered list is no longer than the input, and every record in it carries the span |
| Tui.FilterKeepsTagged | src/tui/app.rs:335-347 | a record is kept exactly when it is among the input and carries the span |
| Tui.FilterDistributes | src/tui/app.rs:335-347 | the filter works record by record in file order: filtering `a + b` is filtering `a`, then filtering `b` |
| Tui.FilterSingle | src/tui/app.rs:339-344 | a single record is kept exactly when it carries the span |
| Tui.Initial | src/tui/app.rs:296-310 | after a load, all records are visible with the cursor on the first, the span cursor is on the label, there is no detail, and the messages pane has focus |
| Tui.SpanSelected | src/tui/app.rs:324-348 | only the visible list changes: it is all records (state included) under the label, empty when the span cursor is on no entry, and otherwise the records of the selected span with the cursor on the first |
| Tui.FormattedDetail | src/tui/app.rs:313-322 | there is a detail exactly when a record is selected and formats; it is the formatted lines at position 0 |
| Tui.MessageSelected | src/tui/app.rs:313-322 | only the detail changes: it exists exactly when the cursor is on a record that formats, and then it holds that record's lines at position 0 |
| Tui.KeyUp | src/tui/app.rs:350-366 | in the spans pane, the span cursor moves back and the visible list is rebuilt, with the detail kept; in the messages pane, the record cursor moves back and the detail is recomputed; in the detail pane, only the scroll moves up |
| Tui.KeyDown | src/tui/app.rs:368-384 | the same routing as `KeyUp`, one step forward |
| Tui.JumpedToEnd | src/tui/app.rs:102-106 | the record cursor goes to the last visible record and the detail is recomputed; nothing else changes |
| Tui.Reloaded | src/tui/app.rs:61-88 | the records and span index are the reloaded ones and the visible list is unfiltered; focus and span cursor are kept; the record cursor follows the tail if it was on the last record and is otherwise copied unclamped; the offset is kept, or reset when there was no selection; the detail is recomputed |
| Tui.CoherenceIsPreserved | src/tui/app.rs:61-106 | loading, key presses, jump-to-end, focus changes and reloads all keep the record list, the span index and the span cursor consistent |
| Tui.SpanNameShowsTaggedRecords | src/tui/app.rs:330-347 | with the span cursor on a span name, the rebuilt visible list is non-empty, holds exactly the records tagged with that name, and has its cursor on the first |
| Tui.SpanStepShowsTaggedRecords | src/tui/app.rs:368-372 | stepping forward through the spans pane always lands on an entry: the label shows every record, and a span name shows a non-empty list of exactly its records, cursor on the first |
| Tui.SpanStepBackShowsTaggedRecords | src/tui/app.rs:350-355 | stepping back lands on an entry exactly when the span cursor was at most one past the end, and otherwise leaves an empty visible list; on an entry, the label shows every record and a span name a non-empty list of exactly its records |
| Tui.ReloadKeepsPlace | src/tui/app.rs:65-83 | when following the tail, the cursor lands on the new last record; otherwise, on a list at least as long, it stays on the same position |
| Tui.ReloadFollowsGrowingTail | src/tui/app.rs:65-83 | a list of 5 with the cursor on the 5th, reloaded to 7 records, has the cursor on the 7th and the same offset |
| Tui.LoginScenario | src/tui/app.rs:335-347 | of three records with "login" on the second and third, the "login" filter gives exactly those two, in order |
| Tui.AppInner.FromMessages | src/tui/app.rs:296-310 | the state built from loaded records has the value `Initial(records)` and satisfies the invariant |
| Tui.AppInner.New | src/tui/app.rs:269-311 | building fails exactly when the load fails, with its error; otherwise the state is `Initial` of the loaded records |
| Tui.AppInner.UpdateSelectedMessage | src/tui/app.rs:313-322 | the state in place becomes `MessageSelected` of its old value |
| Tui.AppInner.UpdateSelectedSpan | src/tui/app.rs:324-348 | the state in place becomes `SpanSelected` of its old value |
| Tui.AppInner.CarryOver | src/tui/app.rs:65-83 | a freshly loaded state takes the previous state's span cursor, focus, offsets and record cursor, as in `Reloaded` |
| Tui.AppInner.Reload | src/tui/app.rs:65-87 | the new state is `Reloaded` of the previous state's value and the reloaded records |
| Tui.AppInner.HandleKeyUp | src/tui/app.rs:350-366 | the state in place becomes `KeyUp` of its old value |
| Tui.AppInner.HandleKeyDown | src/tui/app.rs:368-384 | the state in place becomes `KeyDown` of its old value |
| Tui.App.New | src/tui/app.rs:50-55 | the app is created exactly when the first load succeeds, holding `Initial` of the records; otherwise the load's own error is passed on |
| Tui.App.ReloadMessages | src/tui/app.rs:61-88 | the app's state is replaced by `Reloaded` of the old state |
| Tui.App.SelectArea | src/tui/app.rs:90-92 | only the focus changes |
| Tui.App.HandleKeyUp | src/tui/app.rs:94-96 | the state becomes `KeyUp` of the old state |
| Tui.App.HandleKeyDown | src/tui/app.rs:98-100 | the state becomes `KeyDown` of the old state |
| Tui.App.JumpToEnd | src/tui/app.rs:102-106 | the state becomes `JumpedToEnd` of the old state |
| Tui.App.HandleKey | src/tui/mod.rs:87-101 | `s`, `a` and `m` focus a pane, `r` reloads, `e` jumps to the end, and Up and Down are routed; Esc alone ends the loop; any other key leaves the state unchanged |

## Left out

- Rendering (`render_selected_message`, `render_spans_list`, `render_messages_list`) is I/O and is not modelled. Rendering a list through `render_stateful_widget` can move that list's scroll offset on every redraw. The model does not capture that movement, so a list's offset is an opaque value in the state. The offset clauses of `Tui.Reloaded` hold for whatever offset the state holds when the reload starts.
- `App::copy_selected_message_to_clipboard`: the clipboard is outside the model. In `Tui.App.HandleKey`, `c` leaves the state unchanged.
- `App::messages_len` and `App::path`: plain field reads, with no behaviour to state.
- The `Arc<Mutex<…>>` around the state, the tokio event loop, and the file watcher are not modelled. Each method runs as one uninterrupted step.
- Reading the file and JSON deserialisation (`FromStr for LogMessage`): the file is a `Source` value and the parser is a function parameter. The record's timestamp is dropped because nothing in the core reads it.
- The XML pretty-printer (`src/pretty_print.rs`), `String::from_utf8`, and the syntect highlighter: they are the opaque functions of a `Formatter`. The escaped-highlight branch of `highlighted_stanza_xml` is one of those functions, not a loop over lines.
- The theme lookup `themes["base16-ocean.dark"]` can panic when the theme is missing. The model assumes it is present.
- `src/format.rs` and `src/main.rs` are not part of this model.
- Tui.App.ReloadMessages: a failing reload is a precondition, because the code unwraps the load; the program panics there.
- StatefulLists.NextTimesAdvances: proved for up to one full round (`k <= len`), which is all `NextCycles` needs.
