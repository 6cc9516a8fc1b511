# multinav: input routing, layout and run logging, in Dafny

multinav is an Electron desktop app. It shows four browser panes beside a control panel and
routes the operator's input to them: broadcast text, broadcast keys, and mirrored raw input
from a source pane, rescaled into each other pane's coordinates. Two Python scripts come with
it. `muse_log.py` logs model responses into a SQLite database with two tables, `sessions`
and `runs`. `muse_labeler.py` is a small web service for labeling those runs.

This project models the parts of the three programs that make decisions, and proves what
they promise.

- **Panes and input routing** (`multinav/src/main.ts`). The module-level state (input mode,
  leader pane, spray flag, mirror switch and source, pane count, known webContents ids, and
  the per-pane bounds table) is the class `Multinav.Session`. Each setter and IPC handler is
  a method of that class. A handler does not call `sendInputEvent`; it returns the list of
  deliveries it would make. Each method is proved against a specification function in
  `Routing` or `Geometry`, and the properties are lemmas about those functions.
  - `Routing`: the mode state machine, broadcast targets, and the delivery lists of
    `sendText`, `sendKey` and `view:inputEvent`.
  - `Geometry`: the layout rectangles and the coordinate rescaling.
  - `Shortcuts`: the `before-input-event` shortcut classifier.
- **SQLite and Python values** (`json.dfy`, `sql.dfy`, `runstore.dfy`).
  - Python's decoded JSON values, with truthiness, `dict.get`, `or` and `str.strip`.
  - SQLite parameter binding, column affinity, and the `=` and `ORDER BY` comparisons.
  - The two tables and their key constraints.
  - The database as a class `RunStore.Database`, whose fields the statements reassign.
- **Run ingestion** (`MuseLog`, from `multinav/muse_log.py`).
  - `_bool` and `_json_join`.
  - The event dict, which `upsert_run` changes in place, is the class `MuseLog.EventDict`.
  - `_ensure_session` and `upsert_run` are methods on the database and the event dict.
  - The `ingest_stream` loop is a method with a loop invariant.
  - Each method is proved equal to a specification function (`EnsureSessionSpec`, `Upsert`,
    `Ingest`). Lemmas about those functions state how the id defaults work, what INSERT OR
    IGNORE and INSERT OR REPLACE guarantee, the line count, and the schema constraints.
- **Labeling** (`Labeler`, from `multinav/muse_labeler.py`).
  - `api_label` is a method on the database that runs at most one UPDATE statement. It is
    proved equal to the function `Label`.
  - `api_next` is the pure selection `ApiNext`.

`uuid4()`, `utcnow()`, `json.loads`, `json.dumps` and Python's `float(str)` are parameters
of the model. Two scenario methods in `session.dfy` replay call sequences and assert what
follows. `ModeScenario` issues two of the sequences that the control panel's `applyModeUI`
sends (`multinav/renderer/control.ts:123-136`): mirror led by pane 2, then control, both
with spray off. `PaneCountScenario` switches the pane count to three and back. The
sequences from any state are covered by `Routing.ApplyModeUIOutcomes`.

Three behaviours of the code that a reader might not expect, which the model follows:
- Text is split into code points (`Array.from`), not grapheme clusters.
- The mirror relay does not skip panes whose bounds are unset. It reads every pane's bounds
  and divides by the source width whatever it is. The model therefore makes bounds that are
  set for every pane and positive for the source a precondition of the rescaling path.
- The view preload sends `{fromIndex, ev}` (`multinav/src/preload_view.ts:13`). That wrapper
  has no top-level numeric `x`/`y`, so `main.ts` relays it unscaled
  (`Routing.WrappedEventIsNotRescaled`).

## Model

| member | source | states |
|---|---|---|
| Routing.AfterSetInputMode | multinav/src/main.ts:23-26 | the mode becomes `m`; the leader survives only when `m` is mirror; spray is untouched; the invariant "a leader only in mirror mode" is preserved |
| Routing.AfterSetLeader | multinav/src/main.ts:27-30 | the leader becomes `idx`; a non-null leader forces mirror mode; a null leader keeps the mode; afterwards a leader exists only in mirror mode |
| Routing.AfterSetSprayAll | multinav/src/main.ts:295 | only the spray flag changes |
| Routing.ApplyModeUIOutcomes | multinav/renderer/control.ts:123-136 | from any state, each of the three `applyModeUI` call sequences ends in exactly (control, no leader, spray), (none, no leader, spray) or (mirror, leader v, spray) |
| Routing.AllPanes | multinav/src/main.ts:32 | the indices 0..n-1 in order, so a value is in the list exactly when it is a pane index |
| Routing.TargetPaneIndices | multinav/src/main.ts:31-34 | with spray on, the targets are exactly the n panes; otherwise exactly the leader when one is set, and none when not; no pane is targeted twice (the length is the number of panes targeted) |
| Routing.ControlWithoutSprayHasNoTargets | multinav/src/main.ts:20-34 | under the leader invariant, control mode without spray targets no pane |
| Routing.CharsTo | multinav/src/main.ts:325 | one `char` event per code point, for the one pane, left to right |
| Routing.Existing | multinav/src/main.ts:322-324 | exactly the targets that index an existing pane: a value is kept exactly when it is among the targets and in range, so every existing target gets the text; no more entries than targets |
| Routing.Broadcast | multinav/src/main.ts:320-326 | definition of the control-mode loop over targets; properties in `BroadcastBlocks`, `BroadcastLength`, `BroadcastAt` and `BroadcastOnlyChars` |
| Routing.BroadcastBlocks | multinav/src/main.ts:320-326 | the broadcast is one whole block of the text per existing target, in target order |
| Routing.BroadcastLength | multinav/src/main.ts:320-326 | a broadcast has exactly (existing targets) × (code points) deliveries |
| Routing.BroadcastAt | multinav/src/main.ts:320-326 | delivery k·len(text)+j is code point j sent to the k-th existing target |
| Routing.BroadcastOnlyChars | multinav/src/main.ts:322-325 | every broadcast delivery is a `char` event for an existing pane |
| Routing.TextDeliveries | multinav/src/main.ts:318-333 | definition of the `control:sendText` deliveries; properties in `TextSprayedToAllPanes`, `TextToLeaderOnly`, `TextSilentCases` and `TextOnlyCharsToExistingPanes` |
| Routing.TextSprayedToAllPanes | multinav/src/main.ts:318-326 | in control mode with spray, n·len(text) deliveries: pane k gets code point j at position k·len(text)+j |
| Routing.TextToLeaderOnly | multinav/src/main.ts:327-329 | in mirror mode with a leader, only the leader gets the text, all of it, in order; an out-of-range leader gets nothing |
| Routing.TextSilentCases | multinav/src/main.ts:318-332 | nothing is delivered for empty text, in none mode, in mirror mode without a leader, or in control mode without spray |
| Routing.TextOnlyCharsToExistingPanes | multinav/src/main.ts:318-333 | whatever the mode, `sendText` only sends `char` events to existing panes |
| Routing.KeyFanOut | multinav/src/main.ts:335-342 | 2·n deliveries; pane i gets key-down at 2i and key-up right after it at 2i+1 |
| Routing.Coords | multinav/src/main.ts:353 | definition of the `ev && typeof ev.x === 'number' && typeof ev.y === 'number'` test; properties in `RemapRescalesCoordinates`, `MirrorRelaysToOthers` and `WrappedEventIsNotRescaled` |
| Routing.Remap | multinav/src/main.ts:355-362 | definition of the rescaled copy of an event; properties in `RemapRescalesCoordinates` |
| Routing.RemapRescalesCoordinates | multinav/src/main.ts:358-362 | the mapped event has the same keys; every field but `x`/`y` is copied; `x`/`y` are the rescaled values and lie in [0, max(0, w-1)] and [0, max(0, h-1)] |
| Routing.RelayUpToAt | multinav/src/main.ts:355-371 | the relay over panes 0..k-1 skips the origin: k-1 or k deliveries, the m-th going to pane m or m+1 with that pane's outgoing event |
| Routing.MirrorDeliveries | multinav/src/main.ts:345-372 | definition of the `view:inputEvent` relay; properties in `MirrorRelaysToOthers`, `MirrorSilentIff` and `WrappedEventIsNotRescaled` |
| Routing.MirrorRelaysToOthers | multinav/src/main.ts:345-371 | when the guards pass, every pane but the source gets exactly one event, in index order, and the source none; coordinate-less events pass unchanged and others are remapped into the target's bounds |
| Routing.MirrorSilentIff | multinav/src/main.ts:345-351 | nothing is relayed if and only if the mode is control, mirroring is off, the sender is unknown, or it is not the source pane |
| Routing.WrappedEventIsNotRescaled | multinav/src/preload_view.ts:12-14 | the `{fromIndex, ev}` wrapper carries no coordinates, so it is relayed unscaled |
| Routing.FindIndex | multinav/src/main.ts:281 | the first pane with this webContents id, or -1 exactly when there is none |
| Routing.ClampSource | multinav/src/main.ts:413 | the source index is in [0,3]; an in-range index is kept; below 0 gives 0 and above 3 gives 3 |
| Routing.NormalizeViewCount | multinav/src/main.ts:309 | the pane count is 3 exactly when 3 was asked for, and 4 otherwise |
| Geometry.ControlRect | multinav/src/main.ts:144 | the control panel covers exactly the points [0, 380) × [0, height); it shares no point with the panes' grid, and the two together cover a window at least 380 wide |
| Geometry.LayoutRects | multinav/src/main.ts:147-164 | four rectangles, one per pane slot |
| Geometry.FourPaneLayoutTiles | multinav/src/main.ts:151-157 | the four rectangles tile [380, 380+gw) × [0, height) exactly; the right column and bottom row are at most one pixel larger; columns and rows line up |
| Geometry.ThreePaneLayoutTiles | multinav/src/main.ts:158-163 | three full-width rows tile the grid, the last taking the remainder; pane 3 is the 1×1 rectangle at (380+gw, 0), outside the grid |
| Geometry.Round | multinav/src/main.ts:361-362 | `Math.round`: the integer within half of v, halves going up |
| Geometry.ScaleCoord | multinav/src/main.ts:358-362 | the result is in [0, max(0, tw-1)]; it equals round(v·tw/sw) when that is in range, and is clamped to the nearer end otherwise |
| Geometry.CornerMapsToLastPixel | multinav/src/main.ts:358-362 | (800, 600) from an 800×600 source lands on (399, 299) in a 400×300 target |
| Shortcuts.SourceDigit | multinav/src/main.ts:217-222 | the first of the digits 1, 2, 3, 4 that the press names (by its `Digit` code, its `Numpad` code or its key) selects pane digit-1; the result is -1 exactly when none of the four is named |
| Shortcuts.Classify | multinav/src/main.ts:187-229 | each of the seven actions is given exactly when its modifiers and keys match and no earlier check matched: reload, focus URL and mirror toggle by key; source by the first digit named; zoom in by Equal/`+`, zoom out by Minus/`-`, reset by Digit0/`0`, all only with Ctrl and without Alt; no Ctrl means no shortcut |
| Shortcuts.ClassifyPrecedence | multinav/src/main.ts:195-229 | for every press: a key that spells reload, focus URL or mirror toggle wins whatever the key code says; Ctrl+Alt never zooms; with Ctrl+Alt the first digit named, not a later one, picks the source pane |
| Multinav.Session.FromIndex | multinav/src/main.ts:350 | the sender has a pane exactly when `view:hello` recorded it; under the state invariant that pane is one of the four and its webContents has the sender's id |
| Multinav.Session.BoundsOf | multinav/src/main.ts:176-178 | definition of `boundsOf`; properties in `Multinav.Session.SetViewBounds` |
| Multinav.Session.constructor | multinav/src/main.ts:8-22 | the start-up state: control mode, no leader, spray on, mirroring off, source 0, four panes, no sender mapped yet, no bounds stored |
| Multinav.Session.SetInputMode | multinav/src/main.ts:23-26 | the targeting state becomes `AfterSetInputMode` of the old one; nothing else changes; the invariant holds |
| Multinav.Session.SetLeader | multinav/src/main.ts:27-30 | the targeting state becomes `AfterSetLeader` of the old one; nothing else changes |
| Multinav.Session.SetSprayAll | multinav/src/main.ts:295 | only the spray flag changes |
| Multinav.Session.SetMirrorEnabled | multinav/src/main.ts:417-419 | only the mirror switch changes |
| Multinav.Session.SetMirrorSource | multinav/src/main.ts:412-415 | the source becomes the clamped index; nothing else changes |
| Multinav.Session.SetViewBounds | multinav/src/main.ts:169-178 | an in-range index stores the rectangle, and `boundsOf` then returns it; an out-of-range index changes nothing |
| Multinav.Session.Layout | multinav/src/main.ts:139-167 | without a window nothing changes; otherwise the control bounds and all four pane bounds become the layout rectangles for the window and pane count |
| Multinav.Session.SetViewCount | multinav/src/main.ts:308-311 | the pane count becomes 3 or 4 as normalised, then the bounds are laid out again |
| Multinav.Session.Hello | multinav/src/main.ts:280-283 | a known webContents id is mapped to its pane index; an unknown id changes nothing |
| Multinav.Session.SendText | multinav/src/main.ts:318-333 | the deliveries are exactly `TextDeliveries` for the current targeting state and four panes |
| Multinav.Session.SendKey | multinav/src/main.ts:335-342 | the deliveries are exactly `KeyFanOut` for four panes, whatever the mode |
| Multinav.Session.InputEvent | multinav/src/main.ts:345-372 | the deliveries are exactly `MirrorDeliveries` for the current mode, switch, source, sender and bounds table |
| Multinav.LayoutMakesRemapReady | multinav/src/main.ts:54-56 | once `layout()` has run for a window of at least the 1200 × 800 minimum, every pane's bounds are set with positive width and height, for either pane count and any source, so the precondition of `InputEvent` holds |
| Multinav.Session.BeforeInput | multinav/src/main.ts:187-229 | the press is classified by `Classify`; Ctrl+Shift+M flips the mirror switch; Ctrl+Alt+digit sets the source; nothing else changes |
| PyJson.Get | multinav/muse_log.py:153 | `d.get(k)` is `None` exactly when k is missing or stores `None`; any other result is the value stored under k |
| PyJson.GetOr | multinav/muse_log.py:160 | `d.get(k, default)` is the default exactly when k is missing or stores the default; any other result is `d.get(k)`; with a `None` default the two agree |
| PyJson.Or | multinav/muse_log.py:161 | `v or default` is one of its two operands; it is truthy exactly when either operand is; a truthy v is returned itself |
| PyJson.StripLeft | multinav/muse_log.py:268 | `lstrip`: a suffix of the input that does not start with white space; everything cut off is white space |
| PyJson.StripRight | multinav/muse_log.py:268 | `rstrip`: a prefix of the input that does not end with white space; everything cut off is white space |
| PyJson.Strip | multinav/muse_log.py:268 | definition of `str.strip`; properties in `StripEmptyIffBlank` and `StripIsTrimmedSlice` |
| PyJson.StripEmptyIffBlank | multinav/muse_log.py:268-270 | a stripped line is empty exactly when every character is white space |
| PyJson.StripIsTrimmedSlice | multinav/muse_log.py:268 | the stripped line is a slice of the line with only white space cut from either end, and its ends are not white space |
| Sql.Bind | multinav/muse_log.py:165-168 | binding fails exactly for lists, dicts and ints beyond 64 bits; `None` binds to NULL, `bool` to 0/1, and numbers and strings to themselves |
| Sql.BindAll | multinav/muse_log.py:165-168 | a bound tuple has as many values as the parameters |
| Sql.BindAllBinds | multinav/muse_log.py:165-168 | a tuple binds exactly when each parameter binds, to each parameter's own value |
| Sql.Decimal | multinav/muse_log.py:43 | the text form of an integer is its decimal digits, with a minus sign for a negative one |
| Sql.DecimalInjective | multinav/muse_log.py:43 | different integers have different text forms, so TEXT affinity keeps integer keys apart |
| Sql.TextAffinity | multinav/muse_log.py:43-45 | a TEXT column never stores an integer; NULL stays NULL |
| Sql.RealAffinity | multinav/muse_log.py:54 | a REAL column stores an integer as the equal real |
| Sql.IntegerAffinity | multinav/muse_log.py:53 | an INTEGER column turns a whole real within 64 bits into the equal integer; a real stays a real otherwise; every other value is left alone, numeric-looking text included (see "## Left out") |
| Sql.KeyEqualityIsSqlEquality | multinav/muse_labeler.py:168 | for stored keys `event_id = ?` is plain equality |
| Sql.SqlLeTotal | multinav/muse_labeler.py:146 | the `ORDER BY` order relates any two values |
| Sql.SqlLeTransitive | multinav/muse_labeler.py:146 | the `ORDER BY` order is transitive |
| RunStore.RowOf | multinav/muse_log.py:202-253 | the five columns the rest of the model reads: key, session and ts under TEXT affinity, `label_quality` under TEXT and `label_kept` under INTEGER affinity |
| RunStore.InsertOrIgnore | multinav/muse_log.py:165-168 | `INSERT OR IGNORE`: the key is present afterwards; existing rows are unchanged; no other key appears; a new key holds the new row |
| RunStore.Keyed | multinav/muse_log.py:43 | exactly the rows carrying the key: a row is selected exactly when it is in the table with that key, in table order |
| RunStore.Without | multinav/muse_log.py:203 | exactly the rows carrying another key: a row is kept exactly when it is in the table with a different key, in table order |
| RunStore.InsertOrReplace | multinav/muse_log.py:202 | definition of `INSERT OR REPLACE` on the runs table; properties in `ReplaceLeavesOneRow` and `InsertRunKeepsConsistency` |
| RunStore.ReplaceLeavesOneRow | multinav/muse_log.py:202-214 | `INSERT OR REPLACE` keeps keys unique; exactly one row, the new one, has the key; every other key keeps the same rows |
| RunStore.InsertRunKeepsConsistency | multinav/muse_log.py:82-83 | inserting a run whose session exists keeps both primary keys and the foreign key |
| RunStore.Database.constructor | multinav/muse_log.py:140-146 | a new database has two empty tables that meet the schema |
| MuseLog.BoolColumn | multinav/muse_log.py:170-172 | definition of `_bool`; properties in `BoolColumnStoresFlag` |
| MuseLog.BoolColumnStoresFlag | multinav/muse_log.py:233-240 | a `_bool` column always binds and stores NULL, 0 or 1: NULL exactly for `None`, 1 exactly for a truthy value |
| MuseLog.JsonJoin | multinav/muse_log.py:174-181 | definition of `_json_join`; properties in `JsonJoinDecodes` |
| MuseLog.JsonJoinDecodes | multinav/muse_log.py:174-181 | a `_json_join` column binds and stores NULL exactly for `None`, a string as itself, and any other value as text that decodes back to it |
| MuseLog.Short | multinav/muse_log.py:156 | the first eight characters of the hex id, or all of them if shorter |
| MuseLog.SynthesizedSessionId | multinav/muse_log.py:156 | definition of the synthesised session id; properties in `EnsureSessionSpec` and `UpsertFillsIds` |
| MuseLog.EnsureSessionSpec | multinav/muse_log.py:152-168 | `session_id` is kept when truthy and synthesised otherwise, and written back; on success the session key exists, the runs are untouched, no existing session row changes and only that key can be new; on failure nothing changes; the schema constraints are kept |
| MuseLog.InputParams | multinav/muse_log.py:219-220 | the two `user_input` parameters |
| MuseLog.ModelParams | multinav/muse_log.py:222-226 | the five `model` parameters |
| MuseLog.ResponseParams | multinav/muse_log.py:228-231 | the four `response` parameters |
| MuseLog.ObservationParams | multinav/muse_log.py:233-235 | the three `observations` parameters |
| MuseLog.LabelParams | multinav/muse_log.py:237-240 | the four `labels` parameters |
| MuseLog.MetricParams | multinav/muse_log.py:242-245 | the four `metrics` parameters |
| MuseLog.CostParams | multinav/muse_log.py:247-249 | the three `costing` parameters |
| MuseLog.LinkParams | multinav/muse_log.py:251-252 | the two `links` parameters |
| MuseLog.RunParams | multinav/muse_log.py:188-253 | the tuple can be built exactly when every section read is a dict; it has 30 values, starting with event id, session id and ts |
| MuseLog.SectionParams | multinav/muse_log.py:219-252 | the 27 section parameters |
| MuseLog.RunRow | multinav/muse_log.py:202-253 | a stored row's key, session and ts are the bound event id, session id and ts under TEXT affinity |
| MuseLog.InsertRunStep | multinav/muse_log.py:202-254 | the event dict is unchanged; on failure the tables roll back; on success the key written is the row's key and the runs are the old runs with that row replaced |
| MuseLog.Upsert | multinav/muse_log.py:183-254 | definition of `upsert_run` on the tables and the event dict; properties in `UpsertFillsIds`, `UpsertKeepsSessions`, `UpsertFailureChangesNothing`, `UpsertReplacesRun`, `UpsertKeepsConsistency` and `UpsertTwiceKeepsOneRow` |
| MuseLog.UpsertFillsIds | multinav/muse_log.py:183-200 | afterwards, raised or not, `event_id` and `session_id` are the given ones when truthy and the generated ones otherwise; no other key of the event changes |
| MuseLog.UpsertKeepsSessions | multinav/muse_log.py:165-168 | no existing session row is ever changed or removed by a later event |
| MuseLog.UpsertFailureChangesNothing | multinav/muse_log.py:183-254 | an upsert that raises leaves both tables as they were |
| MuseLog.UpsertReplacesRun | multinav/muse_log.py:202-214 | after a successful upsert the rows with the event's key are exactly the one row built from the filled-in event; it names an existing session, the event's; every other key's rows are unchanged; the schema still holds |
| MuseLog.UpsertKeepsConsistency | multinav/muse_log.py:199-214 | `upsert_run` keeps the schema's constraints whether or not it raises |
| MuseLog.UpsertTwiceKeepsOneRow | multinav/muse_log.py:202-214 | upserting the same event twice writes the same key, and the rows with that key are exactly the one row the second upsert built |
| MuseLog.EnsureSession | multinav/muse_log.py:152-168 | on the live database and event dict, the outcome, tables and event equal `EnsureSessionSpec` of the old state |
| MuseLog.InsertRun | multinav/muse_log.py:202-254 | the run insert on the live database equals `InsertRunStep`, rolling the session insert back when it raises |
| MuseLog.UpsertRun | multinav/muse_log.py:183-254 | on the live database and event dict, the outcome, tables and event equal `Upsert` of the old state |
| MuseLog.IngestLineUpserts | multinav/muse_log.py:268-275 | a non-blank line that decodes to a dict is upserted and, if that succeeds, counted |
| MuseLog.Ingest | multinav/muse_log.py:263-278 | definition of the `ingest_stream` loop over a list of lines; properties in `IngestCountsNonBlankLines`, `IngestStopsAtFailure` and `IngestKeepsConsistency` |
| MuseLog.IngestLine | multinav/muse_log.py:268-275 | definition of one pass of the loop; properties in `IngestLineUpserts`, `IngestLineCounts` and `IngestLineKeepsConsistency` |
| MuseLog.IngestCountsNonBlankLines | multinav/muse_log.py:263-278 | when ingestion does not raise, the count it returns is the number of non-blank lines |
| MuseLog.IngestLineCounts | multinav/muse_log.py:268-275 | an iteration that does not raise adds one to the count exactly when its line is not blank |
| MuseLog.IngestStopsAtFailure | multinav/muse_log.py:266-277 | once a line raises, later lines are not read and the tables stay as they were |
| MuseLog.IngestLineKeepsConsistency | multinav/muse_log.py:267-275 | one loop iteration keeps the schema's constraints |
| MuseLog.IngestKeepsConsistency | multinav/muse_log.py:263-278 | ingesting any stream keeps the schema's constraints |
| MuseLog.UpsertEvent | multinav/muse_log.py:271-275 | upserting a decoded event on the live database equals `Counted` of `Upsert` |
| MuseLog.IngestOne | multinav/muse_log.py:268-275 | one loop pass on the live database equals `IngestLine` |
| MuseLog.IngestStream | multinav/muse_log.py:263-278 | the `ingest_stream` loop on the live database equals `Ingest` over all lines |
| Labeler.MissingFieldsRejected | multinav/muse_labeler.py:161-163 | the "missing event_id/action" 400 comes exactly for a dict body with a falsy `event_id` or `action`, and no row changes |
| Labeler.UnknownActionRejected | multinav/muse_labeler.py:188-189 | the "unknown action" 400 comes exactly when both fields are present and the action is none of the five, and no row changes |
| Labeler.Label | multinav/muse_labeler.py:155-194 | definition of `api_label` on the decoded body and the runs table; properties in `MissingFieldsRejected`, `UnknownActionRejected`, `OnlySuccessChanges`, `LabelUpdatesMatches`, `LabelKeepsConsistency` and `KeepAndJunkIdempotent` |
| Labeler.OnlySuccessChanges | multinav/muse_labeler.py:161-192 | an answer other than ok never comes with a changed table, and the row count never changes |
| Labeler.OneRowMatches | multinav/muse_labeler.py:167-168 | with unique keys in TEXT affinity, `WHERE event_id = ?` matches at most one row |
| Labeler.UpdateWhere | multinav/muse_labeler.py:167-187 | definition of one `UPDATE … WHERE event_id = ?`; properties in `LabelUpdatesMatches`, `UpdateKeepsIdentity` and `UpdateKeepsConsistency` |
| Labeler.ToFloat | multinav/muse_labeler.py:182-185 | definition of `float(score)` inside its `try`/`except`; properties in `ScoreSetsOverall` and `UnparsedScoreChangesNothing` |
| Labeler.LabelUpdatesMatches | multinav/muse_labeler.py:166-187 | a statement that runs answers ok, edits every matching row and leaves every other row as it was |
| Labeler.KeepAndJunkSetLabels | multinav/muse_labeler.py:167-170 | `keep` stores kept=1 and quality 'good'; `junk` stores kept=0 and 'bad'; no other column changes |
| Labeler.TogglesFlip | multinav/muse_labeler.py:171-180 | a toggle maps NULL and 0 to 1 and 1 to 0, always stores 0 or 1, and changes only its own column |
| Labeler.ScoreSetsOverall | multinav/muse_labeler.py:181-187 | a parsed score is stored in `score_overall`, and no other column changes |
| Labeler.UnparsedScoreChangesNothing | multinav/muse_labeler.py:181-192 | a score `float` cannot convert answers ok and changes nothing |
| Labeler.ApplyKeepsIdentity | multinav/muse_labeler.py:167-187 | no edit changes a row's key, session or timestamp |
| Labeler.LabelKeepsConsistency | multinav/muse_labeler.py:166-191 | labeling keeps the schema's constraints |
| Labeler.KeepAndJunkIdempotent | multinav/muse_labeler.py:167-170 | sending the same `keep` or `junk` request again changes nothing more |
| Labeler.ToggleTwiceRestores | multinav/muse_labeler.py:171-180 | toggling twice restores flags that held 0 or 1 |
| Labeler.Oldest | multinav/muse_labeler.py:140-147 | definition of the `WHERE … ORDER BY ts ASC LIMIT 1` selection; properties in `OldestIsFirstMinimum` |
| Labeler.Eligible | multinav/muse_labeler.py:145 | definition of the `WHERE` of `api_next`; properties in `OldestIsFirstMinimum`, `ApiNext` and `LabeledRowLeavesQueue` |
| Labeler.OldestIsFirstMinimum | multinav/muse_labeler.py:140-147 | a row is found exactly when one is eligible; its `ts` is no larger than any eligible row's, and strictly smaller than that of every eligible row before it |
| Labeler.View | multinav/muse_labeler.py:140-143 | the selected columns of the row, including its key and `ts` |
| Labeler.ApiNext | multinav/muse_labeler.py:136-153 | `{}` exactly when no row is eligible; otherwise the selected columns of the oldest eligible row |
| Labeler.LabeledRowLeavesQueue | multinav/muse_labeler.py:140-170 | after `keep` or `junk` the labeled row is no longer eligible, and `api_next` does not return it |
| Labeler.ApiLabel | multinav/muse_labeler.py:155-194 | on the live database, the answer and the new runs table equal `Label` of the old table; the sessions are untouched |
| Labeler.Execute | multinav/muse_labeler.py:167-168 | an UPDATE whose key cannot be bound raises and changes nothing; otherwise every matching row is edited |
| Labeler.UpdateKeepsIdentity | multinav/muse_labeler.py:167-187 | an UPDATE keeps the row count and every row's key and session |
| Labeler.UpdateKeepsConsistency | multinav/muse_labeler.py:167-187 | any UPDATE of the runs table keeps the schema's primary keys and foreign key |

## Left out

- Electron host plumbing is not modelled: window and view creation, `loadURL`, DevTools,
  `navigateAll`/`navigateOne`/`reloadAll`, `setTopBrowserView` and `focusControlURL` (a
  classified shortcut only names them). They are calls into the host runtime.
- `applySourceOutline` is not modelled. It inserts and removes CSS in foreign web contents,
  asynchronously.
- `setZoom` is not modelled, because it is floating-point `toFixed` rounding. The classifier
  names the three zoom actions and nothing carries them out.
- The content-logging path (`view:content`, `control:prompt`) is not modelled: a `fetch`,
  regular-expression heuristics and wall-clock ids.
- Geometry.ScaleCoord: uses exact rational arithmetic with halves rounded up, not
  floating-point division. The two can differ right at a .5 boundary.
- Multinav.Session.InputEvent: requires that every pane's bounds are set and that the source
  pane has a positive width and height whenever an event with coordinates is rescaled. The
  same precondition sits on `Routing.MirrorDeliveries` and `Routing.RemapRescalesCoordinates`.
  In the code, an unset bound makes `boundsOf` return `undefined`; reading its `width` throws
  a `TypeError` after the panes before it have been served. A zero source width gives an
  infinite scale, which the clamp turns into w-1 or 0, and NaN when x is 0. The model does
  not represent either. The precondition holds wherever the app calls the handler:
  `layout()` runs before `wireIPC()`, and the window is never smaller than 1200 × 800, so
  every pane is laid out with a positive size (`Multinav.LayoutMakesRemapReady`).
- Routing.CharsTo: a JavaScript string can hold a lone surrogate, which `Array.from` yields
  as an element of its own. A Dafny `char` cannot hold one, so such text is outside the
  model.
- Multinav.Session.SendText: takes a Dafny string, so text with a lone surrogate is outside
  the model, as for `Routing.CharsTo`.
- Multinav.Session: the pane count is fixed at four, as `createMainWindow` creates.
  Mirrored event values are a small JSON-like datatype, with numbers as reals.
- The preloads, the control renderers, the FastAPI ingest server, the type declarations and
  the build config are not modelled. They only copy fields or wire up the UI.
- The rest of `muse_log.py` is not modelled: the SQLite connection and pragmas, the schema
  DDL (its constraints appear as `RunStore.Consistent`), `write_ndjson`, `ingest_file`, the
  canned queries, `run_query` and the command line.
- The labeler's HTML page and the reading of the request body are not modelled. `Label`
  starts from the decoded body.
- MuseLog.IngestStream: stops at the first exception, as the source does. The `finally` that
  closes the connection has no counterpart.
- Sql.TextAffinity: only integers are turned into text. A real bound to a TEXT column stays
  a real, where SQLite would store its text form.
- Sql.IntegerAffinity: numeric-looking text bound to an INTEGER column stays text. SQLite
  would convert it to a number.
- Sql.RealAffinity: numeric-looking text bound to a REAL column stays text. SQLite would
  convert it to a real.
- Labeler.ToFloat: `float` of an int too large for a double raises `OverflowError` in Python
  and is caught, but the model converts it. Strings go through a parsing parameter, which
  cannot return NaN or infinity; a NaN score would be stored as NULL.
- MuseLog.UpsertRun: when the run insert raises, the model rolls back the session insert.
  That is what closing the connection without a commit does; the connection itself is not
  modelled.
- `ORDER BY ts` with equal timestamps is taken in table (rowid) order. That is the order the
  `ts` index yields, but SQL does not promise it.
