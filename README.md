# GlkOte reconciliation engine, in Dafny

GlkOte is the browser-side display layer of a Glk interactive-fiction interpreter. The game
sends it JSON updates stamped with a generation number. Each update lists:

- the windows that should exist;
- the content to add to them;
- the input requests to open;
- a timer interval, and possibly a special input such as a file prompt.

GlkOte reconciles its window table with each update. It then answers the game with at most
one event per generation, for a line typed, a key pressed, a click, a timer tick or a resize.

This project models the state machine underneath the DOM work in `glkote.js`. The pieces are:

- the `generation`, `generation_sent` and `disabled` globals, and the outbound event gate
  (`send_response`) with its map of partial line input;
- the window table, created and closed by mark-and-sweep;
- grid lines and buffer paragraphs, trimmed to the scrollback limit;
- the shared queue of canvas draw ops, which suspends on image loads;
- input requests and the per-window command history;
- paging (`needspaging`, the more-prompt) and the focus and paging hints;
- the three timers, held as tokens;
- the browser event handlers that turn keys, clicks and timers into events.

Everything the browser measures is a parameter. `Layout` carries, per window:

- the offset of the first kept paragraph;
- how far the player has seen;
- whether content remains below the viewport.

Measured metrics arrive as values.

### Layout of the project

- `GlkTypes.dfy`: the values, from window records to the whole state `St`.
- The value model: pure functions and the lemmas about them.
  - `Content.dfy`: text runs, buffer paragraphs, scrollback trimming, grid lines.
  - `DrawQueue.dfy`: the draw-op queue.
  - `Registry.dfy`: the window set.
  - `Inputs.dfy`: input cancel and input set.
  - `Events.dfy`: the event gate and partial input.
  - `Paging.dfy`: the scroll pass, `window_scroll` and `readjust_paging_focus`.
  - `History.dfy`: the command history.
  - `KeyCodes.dfy`: the key tables.
  - `Protocol.dfy`: a whole update and the message dispatch.
  - `Handlers.dfy`: the browser event handlers.
- `Ordering.dfy` and `WindowTable.dfy`: the library's loops over its window table.
  `Object.values` on integer keys visits ids in ascending order. Each loop is written once,
  generically, as a `while` loop that takes the least id not yet visited. Each is proved to
  do to every entry what its callback says.
- `Passes.dfy`: the imperative passes on values. Each method has loops and invariants, and
  is proved equal to the value model's function.
- `Session.dfy`: class `Session`.
  - The library's globals are its fields, updated in place.
  - Each method's postcondition is `State() == F(old(State()), …)`, where `F` is the value
    model's function for that operation.
  - The methods that can send an event also keep the invariant `Valid()`: the events sent
    agree with the generation counters.
  - So every property proved about `F` holds of the object.

## Model

| member | source | states |
|---|---|---|
| Ordering.Prefer | glkote.js:1599-1605 | the window chosen is a candidate whenever there is one, the preferred one whenever it is a candidate, and otherwise the least candidate |
| Ordering.PreferChoosesCandidate | glkote.js:1599-1605 | the `if (!chosen \|\| id == preferred) chosen = id` loop yields 0 exactly when no window qualifies; otherwise a qualifying window, the preferred one whenever it qualifies, else the least id |
| WindowTable.EachWindow | glkote.js:747-806 | a pass over `Object.values(windowdic)` that rewrites each entry replaces every entry by its callback's result and adds or removes none |
| WindowTable.EachWindowLog | glkote.js:1416-1516 | the same pass, with the reports of the callbacks (errors) collected in ascending id order |
| WindowTable.KeepWindows | glkote.js:898 | a filter-and-close pass keeps exactly the entries its test accepts, unchanged |
| WindowTable.CollectWindows | glkote.js:2084-2096 | a collecting pass maps exactly the picked ids to the collected value |
| WindowTable.PreferPass | glkote.js:1599-1605 | the counting-and-choosing pass counts exactly the passing entries and chooses as `Prefer` does |
| Content.BufferRuns | glkote.js:1233-1285 | a buffer line keeps its text runs and images, in order, and drops every other special entry |
| Content.GridRuns | glkote.js:1127-1155 | a grid line keeps exactly its text runs and skips every special entry |
| Content.BufferRunsConcat | glkote.js:1233-1285 | decoding runs distributes over concatenation of the content |
| Content.Extend | glkote.js:1217-1231 | a paragraph is marked FlowBreak when the entry asks; empty content leaves its runs, and other content ends its blankness, drops the placeholder and follows the runs it keeps |
| Content.AddText | glkote.js:1202-1231 | an entry adds at most one paragraph, and adds one exactly when it is not an append, or is a non-empty append to an empty frame |
| Content.AddTexts | glkote.js:1202-1286 | the `text` list adds at most one paragraph per entry and removes none |
| Content.AddTextShape | glkote.js:1202-1231 | an empty appended entry changes nothing; an append merges into the last paragraph, which stays blank only if the content is empty; otherwise exactly one new paragraph is added, blank iff its content is empty, with the entry's flowbreak |
| Content.AppendExtendsLastParagraph | glkote.js:1205-1210 | appending to a non-blank last paragraph extends its runs by the decoded content |
| Content.ExtendKeepsRuns | glkote.js:1217-1231 | extending a paragraph adds exactly the decoded content to its runs, and a paragraph still blank holds nothing |
| Content.AddTextKeepsRuns | glkote.js:1202-1286 | after one text entry the window's runs are its old runs followed by the entry's decoded runs, and blank paragraphs stay empty |
| Content.AddTextsKeepsRuns | glkote.js:1202-1286 | after the whole `text` list the runs are the old runs followed by every entry's decoded runs, in order |
| Content.AddTextsKeepBlank | glkote.js:1211-1229 | through the whole `text` list a blank paragraph holds no runs |
| Content.AddTextsAppendRuns | glkote.js:1202-1286 | through the whole `text` list the runs are the old runs followed by every entry's decoded content, in order |
| Content.AddTextsKeepEarlier | glkote.js:1202-1216 | the `text` list leaves every paragraph before the last one as it was |
| Content.Trim | glkote.js:1297-1310 | trimming leaves exactly `max` children when there were more (the mark counts, and goes first), keeps the newest paragraphs as a suffix, and changes nothing within the limit |
| Content.TrimKeepsNewest | glkote.js:1297-1310 | after trimming exactly the smaller of the paragraph count and `max` paragraphs remain, and both paging cursors are clamped at 0 and never move down for a non-negative offset |
| Content.RemoveLive | glkote.js:1307-1309 | the removal loop of the trim as written, over the live child list: every pass that finds a child removes exactly one |
| Content.LiveRemovalKeepsMiddleChild | glkote.js:1297-1309 | three paragraphs, limit one: the intended trim keeps the newest; the trim as written keeps the middle one |
| Content.LiveRemovalThrows | glkote.js:1307-1309 | four paragraphs, limit one: the trim as written reads past the end of the live list |
| Content.BufferUpdate | glkote.js:1160-1310 | the frame ends with at most `max` children; `clear` removes the mark; without clear and within the limit the mark stays and the earlier paragraphs are kept, with none removed |
| Content.ClearThenAdd | glkote.js:1174-1178 | `clear` drops the mark and zeroes both cursors; when nothing is trimmed, the window's runs are exactly the update's |
| Content.ReplaceLine | glkote.js:1113-1124 | an entry for a nonexistent line fails; otherwise exactly that line's content is replaced (empty content blanks it) and no other line changes |
| Content.ReplaceLineAsWritten | glkote.js:1113-1124 | as written, an entry for a nonexistent line fails, non-empty content replaces the line as intended, and empty content leaves every line as it was |
| Content.EmptyGridLineKeepsOldText | glkote.js:1122-1123 | as written, empty content leaves the old text of the line; as intended, it blanks the line |
| Content.ReplaceLines | glkote.js:1112-1157 | the `lines` list never changes the number of grid lines |
| Content.ReplaceLinesLastWins | glkote.js:1112-1157 | a line named in the list ends with the content of one of its entries at or after any given one, so the last entry for a line wins |
| Content.ReplaceLinesKeepsUnnamed | glkote.js:1106-1107 | a line the list does not name keeps its content |
| Content.ReplaceLinesReportsMissing | glkote.js:1117-1120 | the lines reported are exactly the nonexistent ones the list names, in order |
| Content.MissingLines | glkote.js:1117-1120 | only nonexistent lines are reported |
| Content.ResizeLines | glkote.js:970-987 | a grid gets exactly `gridheight` lines; existing lines are kept, new ones are blank |
| DrawQueue.Step | glkote.js:1886-1975 | one op: the queue loses its head unless an image must be loaded, and then head and windows are unchanged with that image pending and not cached; paint is only added; windows are never added or removed |
| DrawQueue.Run | glkote.js:1886-1976 | the loop adds or removes no window, only adds paint, and stops with the queue empty (the pending load as before) or waiting for the image of its head op |
| DrawQueue.Drain | glkote.js:1874-1978 | perform_graphics_ops, with a held image given up with its op, leaves the queue empty or waiting on its head image, a suffix of the old queue; it only adds paint, adds or removes no window, and sends nothing |
| DrawQueue.DrainAsWritten | glkote.js:1874-1978 | perform_graphics_ops as written has the same outline: a suffix of the queue remains, empty or waiting on its head image; paint is only added and nothing is sent |
| DrawQueue.RunConsumesFront | glkote.js:1881-1884 | running the queue leaves a suffix of it, only adds paint, and adds or removes no window |
| DrawQueue.RunSettles | glkote.js:1886-1976 | a run ends with the queue empty and nothing pending, or suspended on an uncached image for a live canvas at the head |
| DrawQueue.UncachedImageSuspends | glkote.js:1928-1958 | an uncached image op returns at once, with the queue, windows and paint unchanged and that image pending |
| DrawQueue.MissingWindowDropped | glkote.js:1889-1900 | an op for a missing window or canvas is dropped and the run goes on with the rest |
| DrawQueue.ResumeConsumesHead | glkote.js:1953-1969 | a load or error callback removes exactly the head op; only a successful load caches and paints the image |
| DrawQueue.Resume | glkote.js:1953-1969 | with no load pending the callback changes nothing; otherwise the queue no longer waits for that load, unless ops remain; no window appears or disappears and nothing is sent |
| DrawQueue.ResumeAsWritten | glkote.js:1953-1969 | the callback as written has the same outline as `Resume` |
| DrawQueue.CarryNeedsHeldImage | glkote.js:1886-1976 | a run that starts with no image held behaves the same as written and as intended |
| DrawQueue.FullFillSetsBackground | glkote.js:1909-1922 | a fill without a rectangle paints the whole canvas and records its colour (or the default colour) as the background |
| DrawQueue.StepKeepsCacheSound | glkote.js:1962-1964 | one op keeps every cached image under its own number |
| DrawQueue.RunKeepsCacheSound | glkote.js:1962-1964 | a whole run keeps every cached image under its own number |
| DrawQueue.ResumeKeepsCacheSound | glkote.js:1953-1969 | resuming after a load keeps every cached image under its own number |
| DrawQueue.LoadedImageCarriedPastDroppedOp | glkote.js:1889-1900 | as written, an image loaded for a window that closed meanwhile is drawn for the next image op and cached under the wrong number; as intended, it is given up and the next image is fetched |
| Registry.NewWindow | glkote.js:912-958 | a new window has the listed id, rock and type, no input, terminators or mouse/hyperlink request, an empty history at position 0, and zero paging cursors |
| Registry.Place | glkote.js:1055-1060 | left + width + right equals the metrics' width, and top + height + bottom its height |
| Registry.Arrange | glkote.js:970-1048 | the window keeps its kind; a grid gets `gridheight` lines; a redraw is wanted exactly when an existing canvas changes size |
| Registry.Accepted | glkote.js:904-1065 | an accepted window is marked in place and placed; an existing one keeps its type, history, position and input; a new one starts empty |
| Registry.Redraws | glkote.js:1027-1046 | a redraw is deferred exactly for an existing canvas whose size changes |
| Registry.ResizedCanvasCleared | glkote.js:1027-1041 | a resized canvas takes the new size and is cleared to its default colour |
| Registry.Mismatch | glkote.js:962-966 | an error is reported exactly when the window already exists with another type, and at most one |
| Registry.AcceptOne | glkote.js:904-1065 | accepting an entry adds its id to the table and leaves every other window as it was |
| Registry.Mark | glkote.js:895 | marking clears `inplace` on every window and touches nothing else |
| Registry.Sweep | glkote.js:898 | closing keeps exactly the windows marked in place, unchanged |
| Registry.AcceptAll | glkote.js:896 | accepting the list closes no window; errors and owed redraws are only added to, at most one error per entry |
| Registry.WindowSet | glkote.js:894-899 | after accept_windowset every window is marked in place; errors and owed redraws are only added to, at most one error per entry |
| Registry.AcceptAllKeys | glkote.js:896 | after accepting the list the table holds the old ids plus the listed ones |
| Registry.AcceptAllMarks | glkote.js:895-896 | after marking and accepting, a window is in place exactly when it is listed |
| Registry.WindowSetKeys | glkote.js:894-899 | after accept_windowset the table's ids are exactly the listed ids |
| Registry.AcceptAllKeepsSurvivors | glkote.js:962-966 | an existing window keeps its type (a mismatch is only reported), history, position and input |
| Registry.WindowSetKeepsSurvivors | glkote.js:894-899 | a listed existing window survives the window set with its type, history and input |
| Registry.AcceptAllCreates | glkote.js:912-958 | a window first listed at entry `i` is created with that entry's type, no input, empty history at 0 and zero paging cursors |
| Registry.AcceptAllAbsent | glkote.js:896 | an id the list never names is not created |
| Registry.AcceptAllLastPlaces | glkote.js:1055-1060 | a window is placed by its last entry: `right = width - (left + width)`, `bottom = height - (top + height)`, and a grid has that entry's line count |
| Inputs.TypedMap | glkote.js:1379-1380 | every entry kept is filed under its own window and has a type |
| Inputs.TypedMapLast | glkote.js:1379-1380 | an id has a typed entry exactly when some entry for it has a type, and the entry kept is the last such one |
| Inputs.InputCancel | glkote.js:1378-1395 | input is cleared exactly on the windows whose open request is not among the typed entries or is listed with a larger generation; every other window is unchanged |
| Inputs.InputSetWindow | glkote.js:1416-1472 | the hyperlink and mouse flags follow the list; a typed entry opens the request; a fresh element takes the initial value, resets the history position and (for line input) the terminators; an existing element keeps its text, position and terminators |
| Inputs.InputSetErrors | glkote.js:1437-1448 | a window without a typed entry reports nothing, and no window reports more than two errors |
| Inputs.InputSetWindows | glkote.js:1416-1516 | accept_inputset neither adds nor removes windows |
| Inputs.CancelThenSet | glkote.js:1378-1472 | cancel then set: a request restarted with a larger generation gets a fresh element (initial value, position reset); one re-listed at the same or a smaller generation keeps the typed text and position |
| Inputs.InputSetReportsOnlyNewElements | glkote.js:1437-1448 | an unknown input type is reported exactly when a new element is created |
| Events.Emits | glkote.js:2023-2031 | while disabled only a special response goes out; a special response for a new generation always goes, and so do init and refresh while enabled |
| Events.Partial | glkote.js:2080-2097 | the partial map holds exactly the line-input windows with non-empty text, except the window a line or char event comes from, and is empty for init, refresh, special response and debug input |
| Events.EventFor | glkote.js:2037-2078 | an event carries the current generation and its request; an init carries the supported features |
| Events.Send | glkote.js:2023-2104 | nothing goes out while disabled (except a special response) or for an answered generation (except init and refresh); otherwise exactly one event is appended, the generation is answered, and nothing else changes |
| Events.SendKeepsEventsInOrder | glkote.js:2023-2038 | sending keeps every sent generation at or below `generation_sent` (itself at most `generation`), and the generations of non-init/refresh events strictly increasing |
| Events.NoRepeatedGeneration | glkote.js:2027-2031 | no two sent events other than init and refresh share a generation |
| Events.NewGenerationKeepsEventsInOrder | glkote.js:713 | moving the generation forward keeps the sent events in order |
| Paging.ScrollWindow | glkote.js:747-806 | the scroll pass touches only the scroll and paging fields, only of buffer windows that need scrolling, clears `needscroll`, never moves `topunseen` back, and leaves pending paging in place |
| Paging.ScrollPass | glkote.js:747-806 | the pass applies the per-window step to every window and keeps the set of windows |
| Paging.ScrollWindowPages | glkote.js:758-803 | with paging already pending nothing but `needscroll` changes; otherwise the window pages exactly when paging is on and content remains below, the more-prompt and mark follow, and the page starts at the old `topunseen` |
| Paging.PagingOffNeverPages | glkote.js:763-768 | with paging off the scroll pass never starts paging |
| Paging.ScrollPassKeepsPrompt | glkote.js:783-803 | the more-prompt is shown exactly on the windows that page, before and after the pass |
| Paging.PagingCount | glkote.js:1595-1606 | the paging count is 0 exactly when paging is off or no window pages, and never exceeds the number of windows |
| Paging.FocusChoice | glkote.js:827-836 | the focus goes to a window with input only while enabled and not paging, is 0 exactly when none qualifies, and prefers `last_known_focus` |
| Paging.PagingChoice | glkote.js:1596-1611 | the paging window is a window that pages, present exactly when the count is non-zero, and the previous one when it still pages |
| Paging.Readjust | glkote.js:1594-1635 | the count is recomputed; the paging hint moves only to a window that pages (keeping the previous one if it still pages); the focus moves only when allowed, with no paging and enabled, and then to a window with input (`last_known_focus` first); nothing else changes |
| Paging.Scrolled | glkote.js:2692-2701 | `topunseen` becomes the larger of itself and the seen line; paging ends, with the more-prompt, exactly when nothing remains below |
| Paging.WindowScroll | glkote.js:2682-2704 | only the scrolled window changes, and paging and focus are readjusted exactly when its paging has just ended |
| Paging.WindowScrollKeepsPrompt | glkote.js:2694-2701 | window_scroll keeps the more-prompt in step with paging |
| Paging.LastPageReturnsFocus | glkote.js:2697-2701 | when the last paging window reaches its end, paging stops and the focus returns to a window with input, `last_known_focus` first |
| Paging.PagingFocusIsPaging | glkote.js:1598-1611 | with paging off nothing pages and the paging hint stays; otherwise the hint names a window that pages |
| Protocol.ServerErrorOf | glkote.js:1708-1711 | an error message is shown as given, an empty one as a placeholder |
| Protocol.Tag | glkote.js:1359-1365 | each queued op is the op as given, tagged with its window, in order |
| Protocol.LineErrors | glkote.js:1117-1119 | one error per nonexistent line, in order |
| Protocol.ContentWindow | glkote.js:1104-1336 | content marks the window for scrolling and keeps its type, input, history, paging state and placement; only grid content reports lines |
| Protocol.ContentWindowByType | glkote.js:1106-1336 | grid lines are replaced, buffer text is added and trimmed, and a canvas changes only its scroll flag |
| Protocol.QueueDraw | glkote.js:1356-1368 | draw ops are appended to the shared queue, which runs at once exactly when it was empty and ops were added |
| Protocol.ContentOne | glkote.js:1091-1370 | content for a missing window or one awaiting line input is reported and changes nothing else; no content adds or removes windows or sends an event |
| Protocol.ContentAll | glkote.js:729-731 | the content list neither adds nor removes windows nor sends an event |
| Protocol.ContentKeepsInput | glkote.js:1091-1336 | content for a grid or buffer window keeps its input and history and touches no other window |
| Protocol.DrawOpsQueued | glkote.js:1352-1366 | while ops are already queued, a canvas's ops are only appended: nothing is painted or cached |
| Protocol.CancelStage | glkote.js:723-725 | the input-cancel stage sends nothing and leaves the gate as it was |
| Protocol.WindowStage | glkote.js:726-728 | the window stage sends nothing and leaves the gate as it was |
| Protocol.ContentStage | glkote.js:729-731 | the content stage sends nothing and leaves the gate as it was |
| Protocol.InputStage | glkote.js:732-734 | the input-set stage sends nothing and leaves the gate as it was |
| Protocol.TimerStage | glkote.js:1523-1538 | an absent field leaves the timer; any other cancels it, and a non-zero interval starts a new one |
| Protocol.SpecialStage | glkote.js:739-741 | the special-input stage sends nothing and leaves the gate as it was |
| Protocol.FocusStage | glkote.js:827-848 | scheduling the focus changes no window, paging count or gate |
| Protocol.Reconciled | glkote.js:713-820 | a newer update takes its generation, sends nothing, and leaves the display disabled exactly when it asks to be or asks for special input |
| Protocol.UpdateSpec | glkote.js:703-848 | an update not newer than the generation changes nothing; a newer one takes its generation, sends nothing and sets `disabled` as asked |
| Protocol.Handle | glkote.js:677-701 | an error message is reported, pass and unknown messages change nothing, retry sets the retry token, and an update is reconciled |
| Protocol.UpdateIdempotent | glkote.js:703-712 | receiving the same update, retry or pass twice is the same as receiving it once |
| Protocol.GenerationNeverDecreases | glkote.js:703-713 | no message moves the generation back or sends an event, and a stale update changes nothing |
| Protocol.HandleKeepsEventsInOrder | glkote.js:656-885 | every message keeps the sent events consistent with the generation counters |
| Protocol.UpdateReopensGate | glkote.js:713-719 | after a newer, enabling update the next event goes out, under the new generation |
| Protocol.OneEventPerGeneration | glkote.js:2027-2038 | after one event, no other (except init and refresh) goes out in the same generation |
| Protocol.DisabledUpdateBlocks | glkote.js:814-820 | after a disabling or special-input update only a special response can go out |
| Protocol.UpdateFocus | glkote.js:827-848 | the focus deferred at the end of an update targets a window with input, only while enabled and not paging, and the last focused one when it still has input |
| Protocol.RetryArmsOnce | glkote.js:686-695 | a retry leaves the retry token set, and a second retry changes nothing |
| History.Remember | glkote.js:1995-2008 | an empty line, or one equal to the newest entry, leaves the history; any other becomes the newest entry after the old ones, with the oldest dropped beyond twenty |
| History.RememberKeepsWellFormed | glkote.js:1995-2008 | the history stays at most 20 entries, none empty, no two adjacent equal |
| History.RememberAppendsOnce | glkote.js:2002-2008 | a non-empty line different from the last entry is appended, the oldest dropped at 20; any other line leaves the history |
| History.RememberIdempotent | glkote.js:2002 | submitting the same line twice remembers it once |
| History.HistoryUp | glkote.js:2598-2601 | up moves one entry older and shows it, except at the oldest, where nothing changes; the position stays within `[0, |history|]` |
| History.HistoryDown | glkote.js:2602-2606 | down moves one entry newer and shows it (empty past the newest), except past the newest, where nothing changes; the position stays within `[0, |history|]` |
| History.CursorStaysInRange | glkote.js:2598-2606 | up and down keep the position within `[0, |history|]`, and past the newest entry the field is empty |
| History.UpThenDown | glkote.js:2598-2606 | up then down returns to the same position, showing its entry |
| KeyCodes.KeyCodeOf | glkote.js:111-129 | every named key has a code between 8 and 123, and its name has at least two letters |
| KeyCodes.KeyNameOf | glkote.js:145-148 | only codes between 8 and 123 have names, of at least two letters, and every function key has one |
| KeyCodes.KeysByCodeInvertsKeyCodes | glkote.js:145-148 | `keys_by_code` is the inverse of `key_codes`: a name has a code exactly when the code has that name |
| KeyCodes.KeyNameRoundTrip | glkote.js:145-148 | a code's name maps back to the code |
| KeyCodes.KeyCodeRoundTrip | glkote.js:111-129 | a name's code maps back to the name |
| KeyCodes.TerminatorNameOf | glkote.js:131-142 | terminator_key_values names exactly Escape and the twelve function keys; each name it gives is a terminator key and is that code's name in keys_by_code |
| KeyCodes.TerminatorKeysRoundTrip | glkote.js:131-142 | every terminator key has a code that maps back to it |
| KeyCodes.CharKeypressName | glkote.js:2568 | a char keypress names one character, or `return` |
| KeyCodes.DocCharName | glkote.js:2440-2449 | a document keypress in char input names its key exactly when the key value is not 0, and the name reads back as the same value |
| KeyCodes.DocCharNameRoundTrip | glkote.js:2440-2449 | a document keypress in char input names a key that reads back as the same code |
| KeyCodes.CharKeypressRoundTrip | glkote.js:2568 | the name a char keypress sends reads back as the same code |
| Handlers.SubmitLine | glkote.js:1995-2011 | submitting a line updates only that window's history, and leaves the generation and `disabled` |
| Handlers.SubmitLineSends | glkote.js:1995-2011 | the line event, carrying the line, goes out exactly when the gate is open, and does not report the window's own text as partial |
| Handlers.InputKeydown | glkote.js:2584-2624 | no key code, an unknown window or one without input changes nothing; the history keys send nothing |
| Handlers.HistoryKeysStayInRange | glkote.js:2592-2607 | the history keys keep the position in range, show the entry reached, and keep the history |
| Handlers.TerminatorSubmits | glkote.js:2609-2620 | a terminator key submits the typed line with the key's name exactly when the request lists it |
| Handlers.InputKeypress | glkote.js:2630-2643 | Return submits the field's text with no terminator, and any other key changes nothing |
| Handlers.CharKeydown | glkote.js:2537-2557 | a key in the code table (Return included) for a window with input offers the gate a char event carrying the table's name for it; any other key changes nothing |
| Handlers.CharKeypress | glkote.js:2565-2578 | only a key for a window with input can send |
| Handlers.CharEventNamesKey | glkote.js:2565-2576 | a sent char event names the key so that it reads back as the code |
| Handlers.DocKeypress | glkote.js:2372-2381 | a key while disabled, with a modifier, or aimed at an input field changes nothing |
| Handlers.PagingKeysOnlyPage | glkote.js:2385-2398 | while paging is pending keys only page: nothing is sent, no text or history changes, and a non-printable key changes nothing |
| Handlers.DocKeyTypesIntoField | glkote.js:2401-2431 | a printable key reaches the focused line input's field, appended to its text, and nothing is sent |
| Handlers.DocKeySendsChar | glkote.js:2432-2452 | a document key aimed at a focused char-input window focuses it and, for a non-zero key value, offers one char event naming the key so that it reads back as the same value; key value 0 sends nothing |
| Handlers.DocReturnSubmits | glkote.js:2404-2415 | a document Return aimed at a focused line-input window submits its field as the field's own Return would |
| Handlers.PagingKey | glkote.js:2388-2393 | Return and every printable key scroll a paging window; no other key below 32 does |
| Handlers.WindowMousedown | glkote.js:2463-2478 | a click touches only the hints: the focus hint moves to a window with input, the paging hint to a paging window (and is cleared by a window with input) |
| Handlers.MousedownHintsFit | glkote.js:2463-2478 | a hint a click set names a window fit for it |
| Handlers.MousePosition | glkote.js:2495-2524 | the reported position is within the window's extent and not negative, and a position inside the window is reported as is |
| Handlers.MouseClick | glkote.js:2492-2528 | a left click in a window with a mouse request sends its position; a buffer window, another button or no request sends nothing |
| Handlers.InputFocus | glkote.js:2649-2658 | a focused field of a known window becomes the focus and paging hint |
| Handlers.InputBlur | glkote.js:2664-2669 | a blur clears only `currently_focused` |
| Handlers.FocusThenBlur | glkote.js:2649-2669 | focus then blur leaves the hints on the window and nothing focused |
| Handlers.WindowScrollEvent | glkote.js:2673-2680 | scrolling a window that does not page changes nothing |
| Handlers.HyperlinkClick | glkote.js:2713-2721 | a hyperlink click sends exactly when the window asks for hyperlinks |
| Handlers.TimerFires | glkote.js:2726-2743 | the timer re-arms with the same interval and sends a timer event unless cancelled or disabled |
| Handlers.RetryFires | glkote.js:1769-1773 | a pending retry is spent and a refresh offered; none pending changes nothing |
| Handlers.RetrySendsRefresh | glkote.js:1769-1773 | the refresh goes out even for an answered generation |
| Handlers.DocResize | glkote.js:2261-2272 | a resize only (re)starts the debounce token |
| Handlers.MetricsMatchAsWritten | glkote.js:597-604 | as written, metrics_match holds for any two metrics |
| Handlers.MetricsMatch | glkote.js:597-604 | as intended, metrics match exactly when window and character sizes agree |
| Handlers.MatchedNamesCompareSize | glkote.js:597-604 | comparing the named fields one by one agrees on exactly the same size |
| Handlers.ResizeFires | glkote.js:2289-2306 | the debounced resize with the intended comparison arranges exactly on a new size |
| Handlers.ResizeFiresAsWritten | glkote.js:2289-2306 | the debounced resize as written treats every size as unchanged |
| Handlers.ResizeWith | glkote.js:2289-2306 | the debounced resize waits while disabled, drops the same size, and records and reports a new one |
| Handlers.ResizeAsWrittenNeverArranges | glkote.js:2297-2305 | as written, a resize never records new metrics or sends an arrange event |
| Handlers.ResizeArrangesOnNewSize | glkote.js:2297-2305 | as intended, a new size is recorded and an arrange event offered, and the same size is dropped |
| Handlers.SendWindowRedraw | glkote.js:2314-2323 | a deferred redraw is sent only for a window that is still a canvas |
| Handlers.RunDeferred | glkote.js:1987-1990 | a deferred call runs oldest first and is consumed |
| Handlers.DeferredFocusWantsInput | glkote.js:843-847 | a deferred focus sends nothing and lands only on a window that still has input |
| Handlers.ImageLoaded | glkote.js:1953-1954 | an image callback sends nothing and keeps the generation; with no load pending it changes nothing |
| Handlers.ExtEvent | glkote.js:1762-1764 | an external event is offered to the gate |
| Handlers.DebugCommand | glkote.js:2747-2749 | a debug command goes out with no partial input when the gate is open, else changes nothing |
| Handlers.FileDialogReply | glkote.js:1542-1544 | the file dialog's reply goes out as a special response while the generation is unanswered, even while disabled |
| Handlers.FinishInit | glkote.js:421-427 | while enabled, init records the metrics and sends them with the supported features |
| Passes.TypedEntries | glkote.js:1379-1380 | the loop over the input list builds the typed-entry map |
| Passes.InputFlags | glkote.js:1401-1414 | one loop builds the typed entries and the hyperlink and mouse sets |
| Passes.ResizeGrid | glkote.js:973-987 | adding and removing GridLine rows gives the resized grid |
| Passes.MetricsAgree | glkote.js:597-604 | the metrics_match loop computes the comparison over its names |
| Passes.GridContent | glkote.js:1112-1157 | the loop over `lines` replaces the lines and collects the missing ones |
| Passes.ArrangePayload | glkote.js:970-1048 | the grid and canvas parts of accept_one_window arrange the payload |
| Passes.TrimScrollback | glkote.js:1297-1310 | the trim, removing the oldest children one at a time, gives `Trim` |
| Passes.BufferContent | glkote.js:1160-1310 | the buffer branch of accept_content, its text loop and the trim, gives the buffer update |
| Passes.PartialInputs | glkote.js:2082-2097 | the partial-input loop builds exactly the partial map |
| Passes.CancelPass | glkote.js:1378-1395 | the cancel pass gives `InputCancel` |
| Passes.MarkPass | glkote.js:895 | the marking pass gives `Mark` |
| Passes.SweepPass | glkote.js:898 | the closing pass gives `Sweep` |
| Passes.InputSetPass | glkote.js:1416-1516 | the input-set pass gives the new windows and its errors in ascending id order |
| Passes.ScrollAll | glkote.js:747-806 | the scroll loop gives `ScrollPass` |
| Passes.PagingCandidate | glkote.js:1595-1611 | the paging loop gives the paging count and the paging window |
| Passes.FocusCandidate | glkote.js:827-836 | the focus loop gives the focus choice |
| Passes.PushOps | glkote.js:1356-1365 | pushing each op tags it with its window and appends it |
| Passes.AcceptEntry | glkote.js:904-1065 | accept_one_window's state changes give `AcceptOne` |
| Passes.DrawStep | glkote.js:1886-1975 | one pass of the draw loop gives one step of the queue |
| Passes.DrawImageStep | glkote.js:1923-1969 | the image case of the draw loop gives the step of an image op |
| Passes.DrainQueue | glkote.js:1874-1978 | the draw loop runs the queue as `Run` does, stopping when an image must load |
| Passes.WindowSetPass | glkote.js:894-899 | mark, accept each entry, sweep gives `WindowSet` |
| Passes.ContentPass | glkote.js:1104-1336 | accept_content's window part gives `ContentWindow` |
| GlkOteSession.Initial | glkote.js:73-84 | the load-time state answers nothing yet, has no windows, is enabled, and keeps the events in order |
| GlkOteSession.InitSendsInit | glkote.js:421-427 | the first init event carries generation 0, the metrics and the supported features, with no partial input |
| GlkOteSession.Session.constructor | glkote.js:73-93 | the object starts in the load-time state |
| GlkOteSession.Session.SendResponse | glkote.js:2023-2104 | send_response changes the object as `Send` says and keeps the events in order |
| GlkOteSession.Session.AcceptWindowSet | glkote.js:894-899 | accept_windowset changes the table, errors and deferred calls as `WindowSet` says |
| GlkOteSession.Session.PerformGraphicsOps | glkote.js:1874-1978 | perform_graphics_ops changes the object as `Drain` says |
| GlkOteSession.Session.AcceptInputCancel | glkote.js:1378-1395 | accept_inputcancel changes only the table, as `InputCancel` says |
| GlkOteSession.Session.AcceptContent | glkote.js:1091-1370 | accept_content changes the object as `ContentOne` says |
| GlkOteSession.Session.AcceptContentList | glkote.js:729-731 | the content list changes the object as `ContentAll` says |
| GlkOteSession.Session.AcceptInputSet | glkote.js:1400-1517 | accept_inputset changes the table and appends its errors, nothing else |
| GlkOteSession.Session.AcceptTimerRequest | glkote.js:1523-1538 | accept_timerrequest changes only the request timer, as `TimerStage` says |
| GlkOteSession.Session.AcceptSpecialInput | glkote.js:1540-1562 | a file prompt changes nothing here; any other kind is reported |
| GlkOteSession.Session.ScrollWindows | glkote.js:747-806 | the scroll pass changes only the table |
| GlkOteSession.Session.ReadjustPagingFocus | glkote.js:1594-1635 | readjust_paging_focus changes the object as `Readjust` says |
| GlkOteSession.Session.PrepareUpdate | glkote.js:713-728 | the generation moves on, the display is enabled, then inputs are cancelled and windows set |
| GlkOteSession.Session.AcceptUpdateParts | glkote.js:729-741 | content, input set, timer and special input, in that order |
| GlkOteSession.Session.SettleUpdate | glkote.js:747-820 | scroll pass, paging readjustment, then `disabled` as the update asks |
| GlkOteSession.Session.Reconcile | glkote.js:713-820 | the stages of a newer update, in source order, give `Reconciled` |
| GlkOteSession.Session.ApplyUpdate | glkote.js:703-848 | an update changes the object as `UpdateSpec` says |
| GlkOteSession.Session.Receive | glkote.js:656-885 | glkote_update changes the object as `Handle` says and keeps the events in order |
| GlkOteSession.Session.SubmitLine | glkote.js:1995-2011 | submit_line_input, as `Handlers.SubmitLine` |
| GlkOteSession.Session.InputKeydown | glkote.js:2584-2624 | evhan_input_keydown, as `Handlers.InputKeydown` |
| GlkOteSession.Session.InputKeypress | glkote.js:2630-2643 | evhan_input_keypress, as `Handlers.InputKeypress` |
| GlkOteSession.Session.CharKeydown | glkote.js:2537-2557 | evhan_input_char_keydown, as `Handlers.CharKeydown` |
| GlkOteSession.Session.CharKeypress | glkote.js:2565-2578 | evhan_input_char_keypress, as `Handlers.CharKeypress` |
| GlkOteSession.Session.ScrollWindow | glkote.js:2682-2704 | window_scroll, as `WindowScroll` |
| GlkOteSession.Session.KeyToFocusedWindow | glkote.js:2401-2455 | a document key with no paging pending goes to the last focused window, as `Handlers.DocKeypress` |
| GlkOteSession.Session.DocKeypress | glkote.js:2367-2456 | evhan_doc_keypress, as `Handlers.DocKeypress` |
| GlkOteSession.Session.WindowMousedown | glkote.js:2463-2478 | evhan_window_mousedown, as `Handlers.WindowMousedown` |
| GlkOteSession.Session.MouseClick | glkote.js:2492-2528 | evhan_input_mouse_click, as `Handlers.MouseClick` |
| GlkOteSession.Session.InputFocus | glkote.js:2649-2658 | evhan_input_focus, as `Handlers.InputFocus` |
| GlkOteSession.Session.InputBlur | glkote.js:2664-2669 | evhan_input_blur, as `Handlers.InputBlur` |
| GlkOteSession.Session.WindowScrollEvent | glkote.js:2673-2680 | evhan_window_scroll, as `Handlers.WindowScrollEvent` |
| GlkOteSession.Session.HyperlinkClick | glkote.js:2713-2721 | a hyperlink click, as `Handlers.HyperlinkClick` |
| GlkOteSession.Session.TimerFires | glkote.js:2726-2743 | evhan_timer_event, as `Handlers.TimerFires` |
| GlkOteSession.Session.RetryFires | glkote.js:1769-1773 | retry_update, as `Handlers.RetryFires` |
| GlkOteSession.Session.DocResize | glkote.js:2261-2272 | evhan_doc_resize, as `Handlers.DocResize` |
| GlkOteSession.Session.ResizeFires | glkote.js:2289-2306 | doc_resize_real with the intended comparison, as `Handlers.ResizeFires` |
| GlkOteSession.Session.RunDeferred | glkote.js:1987-1990 | the oldest deferred call, as `Handlers.RunDeferred` |
| GlkOteSession.Session.ImageLoaded | glkote.js:1953-1954 | an image callback, as `Handlers.ImageLoaded` |
| GlkOteSession.Session.ExtEvent | glkote.js:1762-1764 | glkote_extevent, as `Handlers.ExtEvent` |
| GlkOteSession.Session.DebugCommand | glkote.js:2747-2749 | evhan_debug_command, as `Handlers.DebugCommand` |
| GlkOteSession.Session.FileDialogReply | glkote.js:1542-1544 | the dialog's reply, as `Handlers.FileDialogReply` |
| GlkOteSession.Session.FinishInit | glkote.js:421-427 | finish_init, as `Handlers.FinishInit` |

## Left out

- DOM construction, CSS classes, ARIA attributes, element ids and event-listener wiring are
  not modelled; their state effects are fields of `Window`.
- Pixel measurements are parameters (`Layout`, the measured `Metrics`, the click position
  in cells or pixels). This covers `offsetTop`, scroll positions, frame heights and the
  more-prompt margin test. The floating-point arithmetic that produces them is not modelled.
- The input element and the request are set and cleared together, so they are one field,
  `input`, holding the request and the element's text. `inputel.disabled` is the global
  `disabled`.
- The focus a handler gives with `focus()` is recorded as `focusTarget`. The focus and blur
  events that call provokes are separate handlers (`InputFocus`, `InputBlur`).
- Canvas painting is a trace of `Paint` records. The clear of a resized canvas changes its
  background but is not in that trace. Pixel ratio and scale (`evhan_doc_pixelreschange`)
  are not modelled.
- `glkote_init`, option parsing, `measure_window`, resize sensors, the loading, error and
  warning panes, logging, and the debug-output hook are not modelled. Errors are kept as a
  list.
- `finish_init` with a font delay is not modelled.
- Autorestore, `save_allstate`, transcript recording and query parameters are not modelled.
  Their loops misuse the `Object.entries` pair, so their behaviour as written has no clear
  meaning.
- The file dialog of `accept_specialinput` is not modelled. Its reply is the handler
  `FileDialogReply`, and a dialog that throws gives the same deferred null reply.
- `insert_text_detecting`, the regular-expression URL detection, and Blorb image URLs are
  not modelled. Text runs keep their text as given.
- `win.removeChild(inputel)` (glkote.js:1170): `win` is a plain record, so for a buffer
  window with char input this call would throw. The model takes it as the intended no-op.
- A null entry in the `windows` list is skipped in the source. The model's lists hold no
  null entries.
- A deferred focus for a window closed meanwhile is a no-op here. The source would read a
  missing entry.
- Timers are tokens. `requestTimer` holds the interval, and the timer event is a handler.
  Delays and the clock are not modelled.
- Session: the class groups its fields as the focus hints (`Hints`), the draw state
  (`DrawState`) and the timers (`Timers`). `State()` maps them to the flat state.
- Handlers.ResizeFires and GlkOteSession.Session.ResizeFires: use the comparison
  metrics_match was evidently meant to make (see Findings). As written it never fires.
- Protocol.ContentWindow, Protocol.ContentOne and GlkOteSession.Session.AcceptContent: use
  the grid line replacement and the scrollback trim the code was evidently meant to make
  (`Content.ReplaceLine`, `Content.Trim`; see Findings). As written, empty grid content
  leaves the old text, and the trim removes every other child or throws.
- Protocol.ContentWindow: a grid window's entry without `lines` is taken as an empty list.
  The source has no default for it (glkote.js:1108-1112): the loop throws, and the rest of
  the update is abandoned. That abort is not modelled.
- DrawQueue.Drain, Protocol.QueueDraw and GlkOteSession.Session.PerformGraphicsOps: give up
  a held image with the op it was loaded for (see Findings). As written, an op dropped for
  a closed window passes the image on to the next image op.
- DrawQueue.Resume, Handlers.ImageLoaded and GlkOteSession.Session.ImageLoaded: the load
  callback runs the queue as `Drain` does. As written, it can paint and cache the loaded
  image for the wrong op.

## Findings

| source | as written | input that shows it | evidently intended | confidence | as-written member | corrected member |
|---|---|---|---|---|---|---|
| glkote.js:1889-1900 | an op dropped for a missing window or canvas keeps `loadedimg`, so the next image op draws and caches the image loaded for the dropped one | queue [image 10 for window 1, image 20 for window 2], window 1 closed while image 10 loads: image 10 is painted in window 2 and cached as image 20 | the loaded image is given up with its op, and image 20 is fetched | high, not executed | DrawQueue.DrainAsWritten (DrawQueue.LoadedImageCarriedPastDroppedOp) | DrawQueue.Drain and DrawQueue.Resume (DrawQueue.RunKeepsCacheSound, DrawQueue.ResumeKeepsCacheSound) |
| glkote.js:1122-1123 | `lineel.text = NBSP` sets a property a div does not have, so empty content leaves the line's old text | a grid line holding "You are in a maze." updated with empty content | the line is blanked | high, not executed | Content.ReplaceLineAsWritten (Content.EmptyGridLineKeepsOldText) | Content.ReplaceLine |
| glkote.js:597-604 | `met1.metric != met2.metric` reads a property literally named `metric`, undefined on both, so any two metrics match | a resize from width 800 to width 1024 | compare `met1[metric]` and `met2[metric]` | high, not executed | Handlers.MetricsMatchAsWritten (Handlers.ResizeAsWrittenNeverArranges) | Handlers.MetricsMatch (Handlers.MatchedNamesCompareSize, Handlers.ResizeArrangesOnNewSize) |
| glkote.js:1297-1309 | `parals` is the live `children` list, so each `parals[ix].remove()` shifts the rest: the loop removes every other child, and throws once `ix` passes the shrinking end | three paragraphs and a limit of one keep the middle paragraph; four paragraphs and a limit of one throw on the third pass | remove the `totrim` oldest children | medium, not executed | Content.RemoveLive (Content.LiveRemovalKeepsMiddleChild, Content.LiveRemovalThrows) | Content.Trim (Content.TrimKeepsNewest) |
