# The kernel's state machines, proved

This project models the logic of the kernel crate that decides what happens to a
user's windows, queries, history and background work, and proves what that logic
keeps. Nothing is drawn, stored or sent: the model is of the decisions. Where the
source edits an object in place, the model is a class whose methods do the same and
are proved to come to a function on values; the laws are then lemmas about those
functions. Where the source is a protocol between threads or executors, the model is
a state machine over its atomic steps, and the laws hold for every interleaving; a
method beside it runs the source's own loop, with the others at work wherever it
waits, and is proved to take exactly the steps it should.

`dafny verify dfyconfig.toml` checks everything.

## What is modelled

- **Filter language** (`FilterSyntax`, `FilterLexer`, `FilterParser`,
  `FilterRoundTrip`): the hand-written lexer and recursive parser with error
  recovery. Printing and parsing are inverse on exactly the trees the grammar can
  express; errors lie inside the line and the parser's are exactly about parentheses.
- **Layout** (`LayoutModel`, `LayoutColumns`, `LayoutInvariant`, `LayoutInverse`,
  `LayoutClose`, `LayoutOpen`, `LayoutGeometry`, `LayoutOps`, `LayoutSet`,
  `LayoutWs`, `LayoutWm`): columns of slots, joins, focus and camera, over nine
  workspaces with snapshots. One structural invariant over every run, what each
  operation moves and leaves alone, which moves undo which, and ids minted once.
- **Event stream** (`Utf8`, `Sse`): the incremental server-sent event reader, which
  implements part of sections 9.2.5 and 9.2.6 of the WHATWG HTML Living Standard. It
  refines a one-shot line parser for every cut of the bytes and every cancellation.
- **Scene graph** (`Dag`, `SceneGraph`, `Wrap`, `Canvas`, `CanvasApart`,
  `CanvasFlow`, `CanvasBuild`): longest-chain layers by a queue, greedy word wrap
  with the fewest lines, and a canvas on which nothing overlaps.
- **Undo tree** (`HistoryModel`, `HistoryTree`, `HistoryTravel`, `HistoryLog`,
  `HistoryRun`, `History`): a bounded branching tree with a cursor, expiring nodes,
  coalescing and travel, and the discipline of the claims given back and made again.
- **Effect queue** (`EffectModel`, `EffectRun`, `EffectPass`, `EffectQueue`): rows
  raced over by executors holding stale lists and by cancellation; what a pass does,
  disturbed or not.
- **Supervision** (`SupervisorModel`, `SupervisorRun`, `SupervisorLoop`,
  `Supervisor`): discovery, spawn, retirement and join of worker instances.
- **Search** (`SearchMerge`, `SearchModel`, `SearchRun`, `Search`): one question to
  many sources, the answers in any order, one list.
- **Calendar and percent-encoding** (`Calendar`, `Uri`): days to dates for every
  integer day (section 5.7 and Appendix C of RFC 3339), timestamps, and encoding.

## Where the code and its promises part

The model follows the code; where a promise is at stake, a lemma says what holds instead.

- Travel walks past the common ancestor when its child on the cursor's branch is
  expired or blocked, because undo skips such nodes (kernel/src/history.rs:438-446).
  `HistoryTravel.TravelExactly` says exactly when the tree stays whole and when the
  cursor lands; `HistoryRun.TravelCanBreak` is a tree of three nodes on which it does
  not stay whole, and `HistoryRun.ForkedReached` how a history comes to it.
- `supervise` can return before an instance it spawned has sent its completion: a
  spawn writes over an entry whose kick channel closed after the sweep
  (kernel/src/app.rs:1180-1205). `SupervisorRun.ReturnsLast` bounds the loss,
  `ReturnsEarly` is such a run, and `LostMayBeLate` says every such spawn allows it.
- A settlement that the store refuses is described as retried
  (kernel/src/effect.rs:173); the row stays processing instead
  (`EffectRun.CloseFailed`, `EffectRun.StuckForGood`; `EffectRun.LeftStuck` is such
  a run).
- A completed filter value with quotes in it does not always read back
  (kernel/src/filter.rs:622-628); `FilterRoundTrip.QuoteReadsBack` says exactly
  when, and `QuoteCanFail` is one that does not.
- The words of an edge can stick out of the bounds said to hold everything a block
  draws (kernel/src/scene.rs:256-257). Where edges name nodes and do not go round,
  `CanvasApart.WordsInside` says exactly when they do not, and `WordsStickOut` is a
  scene in which they do. Where the edges are at fault, which laying out accepts
  (kernel/src/scene.rs:332), arrows and words leave the columns to the right:
  `FaultedArrows` says how far and when they leave the bounds, and `WordsAside` is a
  scene in which they do.
- Claims can be attached by id to a node already undone
  (kernel/src/history.rs:289-291), and would then be made again without having been
  given back; `HistoryLog.ClaimAtLogOk` says exactly when they are not.
- `@not:` before anything but a tag character is read as a negated tag without a
  name, though `@` alone is an error (`FilterLexer.NamelessExactly`).
- The event reader differs from the standard where a lone carriage return ends no
  line, an unterminated last event is delivered, and `[DONE]` ends the stream.
- Closing is said to let focus fall to the left (kernel/src/layout.rs:466-469); it
  does where the column goes and is not the first, and otherwise falls down or up in
  the column, to the shown tab, or to the right (`LayoutClose.FocusLands`).
- A second step sideways does not always undo a first
  (`LayoutInverse.StepAndBack`), and consuming undoes expelling only for a column's
  bottom slot (`LayoutInverse.ExpelThenConsume`).

## Model

| member | source | states |
|---|---|---|
| `FilterLexer.Lexer.Run` | kernel/src/filter.rs:198-228 | Reading a line in place leaves exactly the tokens and errors the turn-by-turn reading from the start of the line gives, whatever the line |
| `FilterLexer.Lexer.Turn` | kernel/src/filter.rs:198-228 | One turn of the loop moves on by at least one character and adds exactly that turn's token or error |
| `FilterLexer.Lexer.ReadName` | kernel/src/filter.rs:232-245 | A name is the run of tag characters, dashes as underscores; one character that can end no name is skipped |
| `FilterLexer.Lexer.ReadTag` | kernel/src/filter.rs:247-277 | After `@`: a tag, a comparison by the longer operator that fits, or an error at the `@` |
| `FilterLexer.Lexer.ReadNotTag` | kernel/src/filter.rs:279-291 | After `@not:`: a negated tag or negated equality, or an error |
| `FilterLexer.Lexer.ReadValue` | kernel/src/filter.rs:302-331 | A value is quoted up to the next quote, or bare up to a space or parenthesis; an unclosed quote is an error that eats the rest of the line |
| `FilterLexer.Lexer.ReadText` | kernel/src/filter.rs:334-350 | Free text runs to the next `@` or parenthesis, trimmed, dropped when blank |
| `FilterLexer.StepIsOk` | kernel/src/filter.rs:198-350 | Every turn moves on, stays in the line, and makes a well-formed token or an error placed inside the line |
| `FilterLexer.LexIsOk` | kernel/src/filter.rs:198-350 | For every line all tokens are well-formed (names of tag characters, empty only when negated; values that can be spelled; text visible at both ends) and every token and error lies inside it |
| `FilterLexer.NamelessExactly` | kernel/src/filter.rs:279-291 | A token names no tag if and only if it was read at an `@not:` that no tag character follows |
| `FilterLexer.NamelessReads` | kernel/src/filter.rs:279-291 | `@not:` alone is read as such a token, with no error |
| `FilterParser.OrGroup` | kernel/src/filter.rs:426-471 | The shrinking-slice loop of a parenthesised group, recursion included, gives the group, the rest and the errors of the recursive reading |
| `FilterParser.ElementsWithOr` | kernel/src/filter.rs:393-423 | The top-level loop gives the branches, the rest and the errors of the recursive reading |
| `FilterParser.ParseLine` | kernel/src/filter.rs:100-122 | Parsing a line is trimming, lexing and parsing, errors of the lexer first |
| `FilterParser.ParsedIsExpressible` | kernel/src/filter.rs:100-122 | Whatever the line and whatever its errors, a tree that comes out is one the grammar can spell |
| `FilterParser.ErrorsPointInside` | kernel/src/filter.rs:100-122 | Every error of either pass points inside the trimmed line |
| `FilterParser.ParserErrorsExactly` | kernel/src/filter.rs:357-471 | The parser complains if and only if some parenthesis is unmatched or some group holds nothing |
| `FilterRoundTrip.PrintParses` | kernel/src/filter.rs:100-487 | Print then parse is the identity with no errors, on every tree the grammar can express |
| `FilterRoundTrip.ParseRange` | kernel/src/filter.rs:100-487 | The trees lines parse to are exactly the expressible ones, with or without errors on the way |
| `FilterRoundTrip.ElementReads` | kernel/src/filter.rs:198-350 | A printed element, nested groups included, lexes to its own tokens wherever it stands in a line |
| `FilterRoundTrip.GroupReadsElement` | kernel/src/filter.rs:426-471 | Inside a group an element's tokens add exactly that element and no error |
| `FilterRoundTrip.BranchesParse` | kernel/src/filter.rs:357-487 | A printed line of branches parses to what the branches come to |
| `FilterRoundTrip.OrWord` | kernel/src/filter.rs:198-228 | `or` is the only name that would be read as `@or` |
| `FilterRoundTrip.NotWord` | kernel/src/filter.rs:198-228 | `not` before a colon is the only name read as the start of `@not:` |
| `FilterRoundTrip.QuoteReadsBack` | kernel/src/filter.rs:622-628 | A completed value reads back as it was offered if and only if it holds no quote when it needs quoting, and starts with none when it does not |
| `FilterRoundTrip.QuoteCanFail` | kernel/src/filter.rs:622-628 | A value that does not: offered as it is, it reads as an open quote |
| `LayoutInvariant.ConsumeOrExpelMoves` | kernel/src/layout.rs:552-578 | Consuming or expelling keeps the invariant and every other slot's order; the slot lands at the bottom of the column beside a lone one, or in a column of its own beside a stacked one |
| `LayoutInvariant.ConsumeFromRightMoves` | kernel/src/layout.rs:582-596 | Only the next column's first slot moves, to the bottom of this column; invariant kept |
| `LayoutInvariant.ExpelBottomMoves` | kernel/src/layout.rs:600-611 | Only the bottom slot moves, to the next column of its own; invariant kept |
| `LayoutInvariant.MoveSlotMoves` | kernel/src/layout.rs:624-663 | A step lands the slot exactly where the direction says (row, neighbour at its own row, swap when alone, own column at the edge) and moves nobody else |
| `LayoutInvariant.PlaceIntoMoves` | kernel/src/layout.rs:670-713 | An explicit drop into a column lands before the row counted with the slot left out |
| `LayoutInvariant.PlaceAtMoves` | kernel/src/layout.rs:670-713 | A drop at a boundary gives the slot a column there; either edge of a column it has alone leaves it in it |
| `LayoutInvariant.PlaceNowhere` | kernel/src/layout.rs:670-713 | A missing slot, column or boundary changes nothing |
| `LayoutInvariant.ToggleInv` | kernel/src/layout.rs:614-619 | Toggling tabs changes no list of slots and keeps the invariant |
| `LayoutInvariant.NormalizeInv` | kernel/src/layout.rs:533-547 | Normalizing a workspace in order only sets which tab shows: same slots, same tab strips, nothing else changed |
| `LayoutInverse.ConsumeThenExpel` | kernel/src/layout.rs:552-578 | A lone slot consumed to one side and expelled to the other is back where it was, and so is everybody else |
| `LayoutInverse.ExpelThenConsume` | kernel/src/layout.rs:552-578 | The other way round it comes back to the bottom of its column: to its place if and only if it was the bottom |
| `LayoutInverse.ExpelBottomThenConsumeRight` | kernel/src/layout.rs:582-611 | Expelling the bottom and consuming from the right puts every slot back |
| `LayoutInverse.ConsumeRightThenExpelBottom` | kernel/src/layout.rs:582-611 | Consuming from the right and expelling the bottom does so if and only if the slot was alone in its column |
| `LayoutInverse.StepAndBack` | kernel/src/layout.rs:624-663 | A step sideways and one back restores every list if and only if the slot was alone or the neighbour had as many rows to put above it |
| `LayoutClose.DetachExactly` | kernel/src/layout.rs:484-521 | Taking one slot out removes it alone: the others keep their order, joins not its own survive, and focus falls from it to the slot below, else above, to the shown tab, or to the left column, else the right |
| `LayoutClose.ChainExactly` | kernel/src/layout.rs:361-374 | Closing a chain closes exactly the slots joined below, transitively; it terminates since joins lead strictly rightwards |
| `LayoutClose.CloseExactly` | kernel/src/layout.rs:470-478 | Close removes exactly the slot and its join descendants, keeps the order of all others and every join between survivors; the deepest goes first, and focus falls each time it is on the one that goes |
| `LayoutClose.FocusLands` | kernel/src/layout.rs:499-518 | Where focus falls from a slot, told from the columns as they stood before |
| `LayoutClose.CloseNothing` | kernel/src/layout.rs:470-478 | Closing a slot that is not there changes nothing |
| `LayoutClose.ReplaceExactly` | kernel/src/layout.rs:454-464 | Replace closes exactly the descendants; the slot stays in place, shows the new panel and has the focus |
| `LayoutClose.ReplaceKeepsParent` | kernel/src/layout.rs:454-464 | A replaced slot keeps the join it hangs from |
| `LayoutClose.UnjoinExactly` | kernel/src/layout.rs:317-321 | Unjoining drops exactly the pair the slot takes part in, its own parent first, and moves nobody |
| `LayoutClose.ChainLeadsRight` | kernel/src/layout.rs:326-374 | A join chain never comes back to a slot it started from |
| `LayoutOpen.OpenKeepsInv` | kernel/src/layout.rs:380-422 | Opening adds one fresh, focused slot and leaves everybody else in order; invariant kept |
| `LayoutOpen.JoinedOpenIsJoined` | kernel/src/layout.rs:380-422 | A joined open always ends with a live join from opener to new slot |
| `LayoutOpen.UnjoinedOpenKeepsPairs` | kernel/src/layout.rs:380-422 | An open that is not joined keeps every join whose parent is in the opener's column |
| `LayoutOpen.FollowOpenShows` | kernel/src/layout.rs:428-439 | A solid link ends on a focused slot showing the panel: the live child re-targeted in place, or a new slot joined, or in no pair if so asked |
| `LayoutOpen.FollowReplaceShows` | kernel/src/layout.rs:444-450 | A dotted link shows the panel in the slot itself, or in a new one that is in no pair; asked of a slot that is not there it changes nothing |
| `LayoutGeometry.ColumnsApart` | kernel/src/layout.rs:717-728 | Columns lie one gap apart, so none overlaps another |
| `LayoutGeometry.SlotDrawn` | kernel/src/layout.rs:827-885 | Every slot is drawn where its column and row say |
| `LayoutGeometry.DrawnOnce` | kernel/src/layout.rs:827-885 | As many slots are drawn as there are, none twice |
| `LayoutGeometry.RowsApart` | kernel/src/layout.rs:827-885 | Slots of a plain column stand one gap apart, one under another |
| `LayoutGeometry.PlainColumnFits` | kernel/src/layout.rs:827-885 | A column asking for no more rows than the grid has ends above the bottom margin |
| `LayoutGeometry.EnsuredIsOnScreen` | kernel/src/layout.rs:890-948 | A slot on screen changes nothing; of one that fits, the next scene drawn, normalized and its camera clamped to the strip, has the whole, a gap each side |
| `LayoutGeometry.EnsuredWideSlot` | kernel/src/layout.rs:890-897 | A slot too wide for the screen is shown from its left edge, a gap before it |
| `LayoutGeometry.SnapIsNearest` | kernel/src/layout.rs:735-755 | Snapping lands on an in-range alignment that no other beats, and snapping again stays |
| `LayoutGeometry.FocusDirSteps` | kernel/src/layout.rs:760-825 | A focus step changes focus only: the slot right above or below, the shown tab beside, or the slot beside whose centre is nearest; nothing at the ends; the first slot when nothing is focused |
| `LayoutOps.OpKeepsInv` | kernel/src/layout.rs:343-948 | Every workspace operation keeps the structural invariant and mints at most one number, above the last |
| `LayoutOps.RunKeepsInv` | kernel/src/layout.rs:343-948 | So does any run of them: one place per slot, no empty column, live focus, joins only between adjacent columns, one parent each |
| `LayoutOps.NewRunKeepsInv` | kernel/src/layout.rs:215-948 | In particular every run from a new workspace |
| `LayoutSet.SendKeeps` | kernel/src/layout.rs:1017-1030 | Sending takes one slot out of its workspace as closing it alone would and puts it, number and panel unchanged and focused, in a last column of its own in another; all others keep order and joins in both, other workspaces are untouched, and no id lives twice |
| `LayoutSet.RestoreSnapshot` | kernel/src/layout.rs:1163-1198 | Restoring a snapshot of any reachable set gives that set with every workspace normalized and every counter at or above every live number of its range |
| `LayoutSet.SnapshotRoundTrip` | kernel/src/layout.rs:1137-1198 | Snapshot, restore, snapshot gives the snapshot of the normalized set, so exactly the same on a normalized one |
| `LayoutSet.ApplySnapshotKeeps` | kernel/src/layout.rs:1147-1156 | Undo to any earlier snapshot keeps every counter where it stands, so nothing is minted again |
| `LayoutSet.SessionKeeps` | kernel/src/layout.rs:993-1198 | In every session with counters in their ranges no number is minted twice and each live slot is in exactly one workspace, across opens, closes, sends and snapshots |
| `LayoutWs.Ws.constructor` | kernel/src/layout.rs:215-217 | A new workspace is empty, its counter where it is told |
| `LayoutWs.Ws.Find` | kernel/src/layout.rs:221-228 | The scan finds the first place that holds the slot |
| `LayoutWs.Ws.FindParent` | kernel/src/layout.rs:295-297 | The parent found is the one the slot hangs from; none exactly when it hangs from none |
| `LayoutWs.Ws.Validate` | kernel/src/layout.rs:326-341 | After it exactly the joins whose child still stands right of its parent are left |
| `LayoutWs.Ws.BreakJoin` | kernel/src/layout.rs:317-321 | Breaks the pair UnjoinExactly describes and answers it |
| `LayoutWs.Ws.Remove` | kernel/src/layout.rs:350-357 | The columns without the slot, an emptied column with it |
| `LayoutWs.Ws.TakeOut` | kernel/src/layout.rs:484-521 | The in-place removal comes to what DetachExactly describes, and answers what the slot showed |
| `LayoutWs.Ws.CloseChain` | kernel/src/layout.rs:361-374 | The recursive closing in place comes to what ChainExactly describes |
| `LayoutWs.Ws.CloseSlot` | kernel/src/layout.rs:470-478 | The in-place close comes to what CloseExactly describes |
| `LayoutWs.Ws.ReplaceSlot` | kernel/src/layout.rs:454-464 | The in-place replace comes to what ReplaceExactly describes |
| `LayoutWs.Ws.PlaceBeside` | kernel/src/layout.rs:380-401 | The right-hand column takes the slot if its rows fit; else a fresh column does |
| `LayoutWs.Ws.OpenSlot` | kernel/src/layout.rs:406-422 | The in-place open comes to what OpenKeepsInv describes and answers the fresh id |
| `LayoutWs.Ws.Follow` | kernel/src/layout.rs:428-439 | Comes to what FollowOpenShows describes and answers the slot shown |
| `LayoutWs.Ws.FollowDotted` | kernel/src/layout.rs:444-450 | Comes to what FollowReplaceShows describes |
| `LayoutWs.Ws.Tidy` | kernel/src/layout.rs:533-547 | The normalizing loop drops empty columns, clamps the shown tab and lets it follow focus |
| `LayoutWs.Ws.ToggleTabs` | kernel/src/layout.rs:614-619 | Comes to what ToggleInv describes |
| `LayoutWs.Ws.ConsumeExpel` | kernel/src/layout.rs:552-578 | Comes to what ConsumeOrExpelMoves describes |
| `LayoutWs.Ws.ConsumeRight` | kernel/src/layout.rs:582-596 | Comes to what ConsumeFromRightMoves describes, given no empty column |
| `LayoutWs.Ws.Expel` | kernel/src/layout.rs:600-611 | Comes to what ExpelBottomMoves describes |
| `LayoutWs.Ws.Step` | kernel/src/layout.rs:624-663 | Comes to what MoveSlotMoves describes |
| `LayoutWs.Ws.DropOn` | kernel/src/layout.rs:670-713 | Comes to what PlaceIntoMoves, PlaceAtMoves and PlaceNowhere describe |
| `LayoutWs.Ws.Ranges` | kernel/src/layout.rs:717-728 | The running sum gives each column's start and width and the strip's width |
| `LayoutWs.Ws.Snap` | kernel/src/layout.rs:735-755 | The search over alignments comes to what SnapIsNearest describes |
| `LayoutWs.Ws.Targets` | kernel/src/layout.rs:827-885 | The advancing loops draw what SlotDrawn describes |
| `LayoutWs.Ws.MakeVisible` | kernel/src/layout.rs:890-897 | Comes to what EnsuredIsOnScreen describes |
| `LayoutWs.Ws.SceneNow` | kernel/src/layout.rs:929-948 | Normalizes, clamps the camera to the strip and draws |
| `LayoutWs.Ws.MoveFocus` | kernel/src/layout.rs:760-825 | Comes to what FocusDirSteps describes |
| `LayoutWm.Wm.constructor` | kernel/src/layout.rs:993-1002 | Nine workspaces, each minting from a range of its own |
| `LayoutWm.Wm.SendFocused` | kernel/src/layout.rs:1017-1030 | The set changes as SendKeeps describes |
| `LayoutWm.Wm.CloseAnywhere` | kernel/src/layout.rs:1063-1067 | Closes the slot in whichever workspace holds it, and nothing elsewhere |
| `LayoutWm.Wm.UnjoinAnywhere` | kernel/src/layout.rs:1079-1082 | Breaks the pair in whichever workspace holds the slot, and answers it |
| `LayoutWm.Wm.FocusAnywhere` | kernel/src/layout.rs:1086-1091 | Makes the holding workspace active and the slot its focus, and answers which; nothing for a slot nowhere |
| `LayoutWm.Wm.TakeSnapshot` | kernel/src/layout.rs:1137-1142 | The snapshot of the whole set |
| `LayoutWm.Wm.FromSnapshot` | kernel/src/layout.rs:1163-1198 | Boot restore gives the set RestoreSnapshot describes |
| `LayoutWm.Wm.UseSnapshot` | kernel/src/layout.rs:1147-1156 | Undo gives the set ApplySnapshotKeeps describes |
| `Sse.SseReader.TakeLine` | kernel/src/sse.rs:105-117 | The bytes before the first line feed, one trailing carriage return dropped, taken off the buffer; nothing while there is no line feed |
| `Sse.SseReader.Fill` | kernel/src/sse.rs:121-134 | A read adds its bytes and loses none, retries interruptions, and leaves everything as it was on failure or when dropped |
| `Sse.SseReader.Next` | kernel/src/sse.rs:60-100 | Each call hands out exactly the next event or error of what the stream still says; a failed read or abandoned wait takes nothing off it |
| `Sse.ReadAll` | kernel/src/sse.rs:60-134 | Calling until the end, retrying failures and abandoned waits, gives what the one-shot line parser makes of the concatenated bytes: no cut and no cancellation leaves a trace |
| `Sse.PiecesJoin` | kernel/src/sse.rs:121-134 | Any cut of the same bytes into reads concatenates to the same stream |
| `Sse.LinesEnded` | kernel/src/sse.rs:88-96 | An unterminated last line reads as if it had been ended |
| `Sse.BadLineExactly` | kernel/src/sse.rs:105-117 | The not-UTF-8 error comes if and only if some line before the first `[DONE]` is not UTF-8 |
| `Sse.TextLineByLine` | kernel/src/sse.rs:105-117 | A stream is UTF-8 if and only if each of its lines is: no character holds a line feed |
| `Sse.TextNeverBad` | kernel/src/sse.rs:105-117 | A stream that is UTF-8 as a whole never yields the not-UTF-8 error, wherever its characters were cut |
| `Utf8.CutBeforeAscii` | kernel/src/sse.rs:9-13 | Text cut before an ASCII byte is text on both sides and only then (sections 3 and 4 of RFC 3629) |
| `Dag.Layers` | kernel/src/scene.rs:148-179 | The queue over in-place counts answers none if and only if the arcs go round; otherwise each node's layer is the length of the longest chain of arcs into it, parallel arcs included |
| `Dag.AllTaken` | kernel/src/scene.rs:162-178 | Once every node has left the queue there is no cycle and layers are longest chains |
| `Dag.Stuck` | kernel/src/scene.rs:175-177 | With a node left that never became ready there is a cycle |
| `Dag.Take` | kernel/src/scene.rs:164-174 | Taking a node raises its targets, counts down once per arc, and queues exactly those left waiting on nothing |
| `SceneGraph.Layers` | kernel/src/scene.rs:148-179 | Ok exactly when every edge names nodes and the graph is acyclic, with longest-chain layers; else the first unresolved edge, or the cycle |
| `SceneGraph.Check` | kernel/src/scene.rs:119-143 | No fault if and only if names are unique and non-empty, edges join two different existing nodes, and nothing goes round; a fault reported is the first in the order checked |
| `SceneGraph.Index` | kernel/src/scene.rs:111-113 | The first node of that name; none exactly when no node has it |
| `Wrap.WrapText` | kernel/src/scene.rs:497-518 | The line buffer loop gives, paragraph by paragraph, the greedy breaking of its words, for any width and any width of a character |
| `Wrap.Columns` | kernel/src/scene.rs:498 | The most whole characters that fit the width, at least one, capped at what a machine word holds |
| `Wrap.GreedyKeepsWords` | kernel/src/scene.rs:497-518 | The lines hold the paragraph's words in order, none lost or added |
| `Wrap.GreedyFits` | kernel/src/scene.rs:497-518 | Every line is within the width or is one over-long word; no line is empty unless the paragraph is |
| `Wrap.AnyBreaking` | kernel/src/scene.rs:497-518 | Any breaking into lines that fit, or single long words, has at least as many lines as the greedy one |
| `Wrap.WrapIsBest` | kernel/src/scene.rs:497-518 | Words in order, lines in width, and the fewest lines of any such breaking |
| `CanvasBuild.Rows` | kernel/src/scene.rs:348-368 | Each layer's nodes take its first rows, one each, ordered by the lowest row leading to them and then by authoring order |
| `CanvasBuild.ColumnsOf` | kernel/src/scene.rs:370-400 | Column positions, widths, gaps and the width they span |
| `CanvasBuild.BandsOf` | kernel/src/scene.rs:407-424 | Row bands high enough for the longest note and the tallest node of each row |
| `CanvasBuild.PlanFor` | kernel/src/scene.rs:325-346 | Layers by the longest chain, or all 0 when the edges are at fault, and rows to match |
| `CanvasBuild.BlockFor` | kernel/src/scene.rs:325-492 | The block built with arrays and loops is the one whose boxes, arrows and bounds the lemmas of CanvasApart are about |
| `CanvasBuild.Layout` | kernel/src/scene.rs:279-300 | One block a scene, in order, each moved to its place in the flow; with lines not of negative height no two closer than a block gap, all a margin inside the canvas |
| `CanvasBuild.DrawnInRegion` | kernel/src/scene.rs:426-442 | What is drawn of a node on the canvas, mount and caption, lies inside the region kept apart, the caption ending above the mount |
| `CanvasBuild.DrawnAcross` | kernel/src/scene.rs:447-471 | On the canvas, for edges that name nodes and do not go round, every arrow has from.x < elbow_x < to.x and its words between |
| `CanvasApart.NodesApart` | kernel/src/scene.rs:325-447 | No two nodes of a block overlap, captions included, whatever the edges |
| `CanvasApart.ColumnsApart` | kernel/src/scene.rs:370-396 | Every column starts at least its gap past the end of any column before it |
| `CanvasApart.BandsApart` | kernel/src/scene.rs:407-424 | Every row band starts a row gap below the end of any band above it |
| `CanvasApart.ArrowsAcross` | kernel/src/scene.rs:447-471 | from.x < elbow_x < to.x, and the label fits between the two nodes |
| `CanvasApart.HeadInside` | kernel/src/scene.rs:472-491 | The bounds hold the title and the description |
| `CanvasApart.RegionInside` | kernel/src/scene.rs:472-491 | The bounds hold every mount and caption, and captions start below the description |
| `CanvasApart.ArrowInside` | kernel/src/scene.rs:443-491 | For edges that name nodes and do not go round, the bounds hold every arrow's line |
| `CanvasApart.WordsInside` | kernel/src/scene.rs:443-491 | In such a scene an edge's words lie wholly inside the bounds, left, right, top and bottom, if and only if the edge does not descend, or a later row follows, or a node of the target's row reaches down as far |
| `CanvasApart.FaultedArrows` | kernel/src/scene.rs:325-491 | In a scene whose edges are at fault every arrow turns, and its words start, right of the one column there is; they are inside the bounds only where the title or the description reaches as far |
| `CanvasApart.WordsAside` | kernel/src/scene.rs:325-491 | Three nodes, two of them leading to each other: arrow and words end past the right of the bounds, though a row follows below |
| `CanvasApart.WordsBelow` | kernel/src/scene.rs:455-491 | Whatever the scene, the words of a descending edge end above the bottom of the bounds if and only if a later row follows or a node of the target's row reaches down as far |
| `CanvasApart.WordsStickOut` | kernel/src/scene.rs:455-491 | A scene of two nodes in one row whose edge's words end past the bounds |
| `CanvasFlow.Sheet.Shift` | kernel/src/scene.rs:302-322 | Shifting a block in place moves every part by the same amount and nothing else |
| `CanvasFlow.BlocksApart` | kernel/src/scene.rs:279-300 | Of two blocks the later is a block gap to the right in the same row, or a block gap below |
| `CanvasFlow.RowsFit` | kernel/src/scene.rs:284-288 | A row is no wider than the row width unless one block fills it |
| `CanvasFlow.CanvasHolds` | kernel/src/scene.rs:290-299 | Every block lies a margin inside the canvas |
| `CanvasFlow.AllNodesApart` | kernel/src/scene.rs:279-492 | No two nodes anywhere on the canvas overlap, captions and all |
| `HistoryTree.ApplySound` | kernel/src/history.rs:218-260 | Recording, coalescing or growing and trimming, keeps the tree whole: shape, path states, at most 200 nodes |
| `HistoryTree.AmendSound` | kernel/src/history.rs:274-284 | Folding into the head keeps the tree whole |
| `HistoryTree.ClaimSound` | kernel/src/history.rs:297-301 | Attaching a claim keeps the tree whole |
| `HistoryTree.ClaimAtSound` | kernel/src/history.rs:289-291 | So does attaching claims to any node by its id |
| `HistoryTree.ExpireSound` | kernel/src/history.rs:293-295 | Expiring the head keeps the tree whole |
| `HistoryTree.UndoSound` | kernel/src/history.rs:306-363 | Undo keeps the tree whole whatever the world answers |
| `HistoryTree.RedoSound` | kernel/src/history.rs:365-405 | Redo keeps the tree whole whatever the world answers |
| `HistoryTree.TrimSound` | kernel/src/history.rs:546-561 | Dropping the oldest nodes leaves at most 200, parents present or 0, path states as they should be |
| `HistoryTravel.TravelSound` | kernel/src/history.rs:409-523 | For any world: once the way up ends where the paths part, travel lands on its target and keeps the tree whole |
| `HistoryTravel.TravelExactly` | kernel/src/history.rs:409-523 | With blocking steady, by conditions on the tree before the call: when travel lands, if and only if, whatever claims fail; and with none failing, when it keeps the path states, if and only if |
| `HistoryTravel.ClimbArrives` | kernel/src/history.rs:438-446 | The way up ends at the common ancestor when its child on the cursor's branch can be undone |
| `HistoryTravel.ClimbMisses` | kernel/src/history.rs:438-446 | It goes past it to the beginning when that child is expired or blocked |
| `HistoryTravel.LcaExists` | kernel/src/history.rs:416-432 | The two ancestor chains always meet |
| `HistoryLog.UndoReverses` | kernel/src/history.rs:306-363 | An undo reverses all claims of exactly one node on the path, each asked first and none blocked, or reverses nothing; a failure expires the node |
| `HistoryLog.UndoLogOk` | kernel/src/history.rs:306-363 | Undo keeps the discipline of the log: each claim reversed and re-applied strictly in turn, none after it failed |
| `HistoryLog.RedoLogOk` | kernel/src/history.rs:375-405 | Redo keeps it too |
| `HistoryLog.TravelLogOk` | kernel/src/history.rs:409-523 | Travel keeps it wherever it lands |
| `HistoryLog.ClaimAtLogOk` | kernel/src/history.rs:289-291 | Attaching claims by id keeps it if and only if the node is not undone, or none are attached |
| `HistoryRun.RunKeeps` | kernel/src/history.rs:218-561 | In every run whose travels arrive or go straight up and whose claims attached by id go to nodes not undone: path nodes applied or expired, others undone or expired, parents 0 or present and smaller, at most 200 nodes, claims strictly alternating |
| `HistoryRun.NewRunKeeps` | kernel/src/history.rs:170-561 | In particular in every such run from an empty history |
| `HistoryRun.ArrivingExactly` | kernel/src/history.rs:409-523 | With blocking steady, whatever claims fail, whether a travel keeps a run in order can be told before it: the cursor at the meeting point, the meeting point the beginning, or its child on the cursor's branch neither expired nor blocked |
| `HistoryRun.UpwardSound` | kernel/src/history.rs:409-523 | A travel to an ancestor keeps the tree whole even when its way up goes past it |
| `HistoryRun.ActLater` | kernel/src/history.rs:218-561 | No id is used twice and an expired node stays expired, whatever is done |
| `HistoryRun.RedoUndoes` | kernel/src/history.rs:306-405 | Redo takes back an undo if and only if no newer child of the same parent stands undone |
| `HistoryRun.UndoUndoes` | kernel/src/history.rs:306-405 | Undo takes back a redo if and only if the world does not block the node |
| `HistoryRun.TravelCanBreak` | kernel/src/history.rs:409-523 | A tree of three nodes on which travel lands on its target and leaves the target's parent undone |
| `HistoryRun.ForkedReached` | kernel/src/history.rs:218-523 | Six operations on an empty history come to that tree, in any world |
| `History.History.Record` | kernel/src/history.rs:218-260 | In place: a burst amends the head and keeps its earlier `before`; otherwise a new leaf, and the oldest fall off |
| `History.History.Amend` | kernel/src/history.rs:274-284 | In place: folds into an applied head, else records |
| `History.History.Trim` | kernel/src/history.rs:546-561 | The trimming loop drops the oldest until 200 are left, their children hanging from the beginning |
| `History.History.Undo` | kernel/src/history.rs:306-363 | The loop over the cursor comes to the walk UndoSound and UndoReverses are about, step reported included |
| `History.History.NewestUndoneChild` | kernel/src/history.rs:365-371 | The highest undone child of the cursor |
| `History.History.Redo` | kernel/src/history.rs:375-405 | Comes to the walk RedoSound and RedoLogOk are about |
| `History.History.Travel` | kernel/src/history.rs:409-523 | The chains, the climb and the descent in place come to the walk TravelExactly is about, and terminate |
| `History.History.CanUndoNow` | kernel/src/history.rs:195-207 | True exactly when some node on the path is not expired |
| `EffectRun.RunKeeps` | kernel/src/effect.rs:888-1375 | However executors with stale due-lists, cancels and enqueues interleave, with writes failing and executors dropped: one performer to a job, attempts bounded, settlements accounted for |
| `EffectRun.EveryJob` | kernel/src/effect.rs:888-1375 | From the start of a process: no job has two performers, attempts never exceed 6, a non-idempotent job is performed at most once, a job is settled once if done and never otherwise |
| `EffectRun.ClaimKeeps` | kernel/src/effect.rs:1288-1306 | The claim takes only a row still pending, so for one executor only |
| `EffectRun.CloseKeeps` | kernel/src/effect.rs:1319-1343 | Status and settlement land together or not at all, by the executor that claimed the job |
| `EffectRun.FinalForGood` | kernel/src/effect.rs:1271-1375 | Done, failed and obsolete rows never change again |
| `EffectRun.StuckForGood` | kernel/src/effect.rs:1319-1343 | A row whose close was not written stays processing for the rest of the run: nothing retries it |
| `EffectRun.CloseFailed` | kernel/src/effect.rs:1341-1343 | A close that fails to be written leaves the row processing with no holder |
| `EffectRun.LeftStuck` | kernel/src/effect.rs:888-1343 | Five steps from an empty queue that leave a row so |
| `EffectQueue.Queue.Insert` | kernel/src/effect.rs:888-904 | A fresh pending row with no attempts |
| `EffectQueue.Queue.CancelTx` | kernel/src/effect.rs:914-921 | Wins exactly when the row is still pending, and then makes it obsolete |
| `EffectQueue.Queue.DueNow` | kernel/src/effect.rs:1272-1283 | The pending rows due by now that this pass may run, in id order |
| `EffectQueue.Queue.ClaimRow` | kernel/src/effect.rs:1291-1303 | Wins exactly when the row is still pending; then one attempt more |
| `EffectQueue.Queue.Fail` | kernel/src/effect.rs:1352-1375 | Final, or out of attempts, is failed; otherwise pending again after the backoff for its attempts |
| `EffectQueue.Queue.CloseJob` | kernel/src/effect.rs:1319-1343 | What each outcome does to the row, with the settlement or without |
| `EffectQueue.Queue.RunEffectsWhere` | kernel/src/effect.rs:1271-1346 | A pass, with others at work at every wait, is exactly the run it should be: it reads what is due, spends one round on each row in turn, makes the trip and the close of a claim it wins and of no other, and leaves; it answers how many claims it won |
| `EffectPass.PassOwn` | kernel/src/effect.rs:1271-1346 | The executor's own steps in a pass: the start, a claim for each of the first rounds, trip and close behind exactly those won, and the leaving |
| `EffectPass.ClaimsInOrder` | kernel/src/effect.rs:1285-1346 | However others interleave, the claim of a round is made on the due row whose turn it is, in the order they were read |
| `EffectPass.DueIs` | kernel/src/effect.rs:1272-1283 | The rows read are exactly the pending ones due that the pass may run, each once, ids ascending |
| `EffectPass.PassAlone` | kernel/src/effect.rs:1259-1346 | A pass nobody disturbs, its writes going through and rounds enough, claims every job due exactly once, in id order; each row due stands as its outcome says with one attempt more, every other row as it did |
| `SupervisorRun.RunKeeps` | kernel/src/app.rs:1138-1213 | In every run each running instance's completion is in `live` or `retired`, no name in both, and a completion neither arrived nor held was dropped by a spawn |
| `SupervisorRun.OneRunning` | kernel/src/app.rs:1138-1213 | At most one running instance to a name, and in exactly one of the two sets |
| `SupervisorRun.ReturnsLast` | kernel/src/app.rs:1138-1213 | It returns only when no instance it ever spawned still runs; all have completed, save those whose completion a spawn dropped |
| `SupervisorRun.ReturnsEarly` | kernel/src/app.rs:1180-1212 | A run in which an instance closes between the sweep and the spawn: its completion is dropped and supervise returns before it is sent |
| `SupervisorRun.LostMayBeLate` | kernel/src/app.rs:1180-1212 | Every spawn that drops a completion allows that: any run that returns after it also returns with the completion still to come |
| `SupervisorRun.RetainKeeps` | kernel/src/app.rs:842-849 | Retain moves completions between the sets and loses none |
| `SupervisorLoop.DiscoveryProvides` | kernel/src/app.rs:1166-1208 | However instances exit and complete meanwhile, after a discovery the running set holds wanted names only and each wanted name is in it or still held; a wanted instance still running is the one that ran before, an unwanted or held one is held until it has completed, and new ones have wanted names |
| `SupervisorLoop.TurnProvides` | kernel/src/app.rs:1138-1208 | So does every turn that finds workers, wherever it comes in a run |
| `SupervisorLoop.TurnsKeep` | kernel/src/app.rs:1138-1208 | Whatever the turns, every instance spawned stays in the list, under its name and no less far; the loop ends waiting or told to end |
| `SupervisorLoop.TurnOwn` | kernel/src/app.rs:1143-1208 | A turn adds exactly the acts it calls for: none unless woken; the wake, and what was discovered, one retain, one sweep and a look at each wanted name |
| `Supervisor.Supervisor.Meanwhile` | kernel/src/app.rs:1138-1213 | Instances exit and complete as they will, and nothing else moves |
| `Supervisor.Supervisor.HasRunning` | kernel/src/app.rs:811-813 | True exactly when the name is in the set and its kick channel is open |
| `Supervisor.Supervisor.Wait` | kernel/src/app.rs:1144-1165 | Wakes on a request, a hang-up, or a completion that has arrived, whose entry it removes; otherwise changes nothing |
| `Supervisor.Supervisor.RetainIn` | kernel/src/app.rs:842-849 | Entries unwanted or closed leave `live` for `retired`, the others stay |
| `Supervisor.Supervisor.SweepRetired` | kernel/src/app.rs:1181-1188 | Of the completions held it lets go of those met that have arrived, and of no others; instances and running set stay |
| `Supervisor.Supervisor.SpawnUnlessHeld` | kernel/src/app.rs:1189-1205 | Spawns one instance exactly when the name is neither running in `live` nor held in `retired` |
| `Supervisor.Supervisor.Discover` | kernel/src/app.rs:1166-1208 | A discovery does what DiscoveryProvides is about, fails, or finds the requests closed; says whether to go on |
| `Supervisor.Supervisor.JoinAll` | kernel/src/app.rs:1209-1213 | Waits until nothing is held, taking only completions that have arrived; gives up only with something held and nobody left to move |
| `Supervisor.Supervisor.Supervise` | kernel/src/app.rs:1138-1213 | The loop takes the turns as TurnProvides and TurnOwn say until told to end, then lets go of everybody, joins and returns; when it returns nothing it spawned still runs |
| `Calendar.CivilIsOnCalendar` | kernel/src/r2.rs:821-832 | For every integer day the result is a valid proleptic Gregorian date, the one that many days from 1970-01-01 counted year by year and month by month |
| `Calendar.CivilSteps` | kernel/src/r2.rs:821-832 | Day 0 is 1970-01-01 and each day's date is followed by the calendar's next, negative days included |
| `Calendar.CivilOfNumber` | kernel/src/r2.rs:821-832 | Every valid date is some day's: the two countings invert each other |
| `Calendar.YearOfEraIs` | kernel/src/r2.rs:825-827 | The corrected quotient is the year of the 400-year era and the day of that year, leap days included |
| `Calendar.MonthAndDayIs` | kernel/src/r2.rs:828-831 | The month arithmetic walks the months from March to February, and only a leap year reaches day 366 |
| `Calendar.AmzReadsBack` | kernel/src/r2.rs:806-818 | The timestamp says every second since the epoch exactly, the date is its head, and it has sixteen characters if and only if the year is at most 9999 |
| `Uri.Encode` | kernel/src/r2.rs:789-801 | The buffer loop gives the byte-by-byte encoding |
| `Uri.DecodesBack` | kernel/src/r2.rs:789-801 | Percent-decoding what was encoded gives it back, slashes encoded or not (section 2.1 of RFC 3986) |
| `Uri.OnlySafe` | kernel/src/r2.rs:789-801 | Nothing but unreserved characters (section 2.3 of RFC 3986), escapes and, if asked, slashes comes out |
| `SearchMerge.Merge` | kernel/src/search.rs:434-462 | The loop that stops at two hundred gives the merged list of whatever has answered |
| `SearchMerge.FirstsExactly` | kernel/src/search.rs:434-462 | The rows kept are, in registration order, exactly those whose panel no earlier row offers |
| `SearchMerge.MergedIs` | kernel/src/search.rs:434-462 | No panel twice, no more than two hundred rows; short of that every panel offered is listed |
| `SearchRun.RunKeeps` | kernel/src/search.rs:258-493 | However asks, threads and answers interleave, stale generations mixed in: an answer shown is its source's own to the question standing |
| `SearchRun.OneList` | kernel/src/search.rs:382-462 | Once every source has answered the current question the list equals the inline engine's, whatever order the answers came in |
| `SearchRun.NoneLands` | kernel/src/search.rs:405-422 | When a collection says that nothing changed, no answer did |
| `SearchRun.SoFar` | kernel/src/search.rs:405-462 | Until then the list is the merge of what has answered, each answer its source's own |
| `SearchRun.QuietAnswers` | kernel/src/search.rs:382-493 | With no thread dead and nothing under way no answer is owed: a newer question is always picked up |
| `Search.Query.Ask` | kernel/src/search.rs:382-401 | Threads are sent away with the new generation; in place every source has answered, and the list is complete, when it returns |
| `Search.Query.Collect` | kernel/src/search.rs:405-422 | Answers of the current generation land in their slots, older ones are dropped, the list is merged anew |
| `Search.Query.PendingNow` | kernel/src/search.rs:373-375 | True exactly when a non-empty question still has a source owing |

## Left out

Simplifications of what is modelled:

- Numbers: `f64` coordinates are `real`, so rounding, infinities and not-a-number are not modelled; ids, counters and times are unbounded, save the ranges of 2^32 ids a workspace mints from.
- LayoutGeometry.ColumnsApart: asks for a grid at least one unit each way and a gap that is not negative, as every use of the geometry does.
- LayoutWs.Ws.ConsumeRight: asks for no empty column, which every operation keeps; the source would panic on one.
- LayoutWs.Ws.FindParent: asks that no child has two parents, which every operation keeps; with two the source answers whichever its hash map meets first.
- Slots: a slot is its number and what it shows; snapshots hold maps where the source holds sorted vectors of the same entries.
- LayoutSet.SessionKeeps: speaks of sessions whose counters have not run past their 2^32 range; past it the source would mint into the next workspace's range.
- Sse.SseReader.Fill: a read is a step that yields any number of bytes, an interruption, a failure or a dropped wait; the 4096-byte buffer and the kinds of failure are not told apart.
- Wrap.WrapText: characters are Unicode scalar values; a negative zero or not-a-number for a width is left out with the rest of `f64`.
- CanvasApart.NodesApart: asks, as the other lemmas on what lies apart do, for lines of no negative height, which no metrics have.
- CanvasBuild.Layout: blocks are said to stay clear when lines have no negative height; only CanvasApart.ArrowInside, CanvasApart.WordsInside and CanvasApart.WordsBelow ask for node sizes that are not negative. Node payloads and the text of error messages are left out.
- Claims: a claim is its place on its node, and the world's answers are a function of time and claim; labels of failures are the failing claims themselves.
- HistoryRun.RunKeeps: travels in a run are those that arrive or go straight up, the others being what TravelExactly is about, and claims attached by id those ClaimAtLogOk allows.
- Transactions: each write is one atomic step that happens or fails; payloads, entities, timestamps of creation and the order of SQLite's own locks are left out. Backoff is part of the row, but a claim does not look at it again, as in the source.
- Instances: instances may exit at any time and every completion is sent, so panics and unwinding are left out; kicks, entities and notifications change nothing that is proved.
- Sources: a source given time finds the same for the same query, so the database is taken to stand still while one question is answered; an ask is one step, its sends to the threads being indistinguishable from that.
- Calendar.AmzReadsBack: starts from whole seconds since the epoch; the system clock itself is left out.

Parts of the kernel that are not modelled:

- The filter's completion context, unknown-tag listing and splicing (kernel/src/filter.rs:127-147, 529-616): string offsets only.
- Fitting two slots together on screen, the roster and lookups by panel (kernel/src/layout.rs:911-924, 1048-1055, 1097-1106): one-function claims.
- The ring of in-memory effects, the log's SQL and the registry (kernel/src/effect.rs:190-423, 512-858).
- The sweep that frees jobs stuck in processing, SQLite, the store, sync, sessions and the rich table: not part of this model.
- Inline workers, the kicker capability, the schema ladder and the app registry (kernel/src/app.rs:182-703, 890-1133): the first are easy, the others registries.
- The worker's own loop (kernel/src/app.rs:1217-1261) beyond the phases an instance goes through.
- Splitting a query into terms and matching them (kernel/src/search.rs:70-101).
- Signing, hashing, requests and credentials (kernel/src/r2.rs:1-763, 835-938): cryptography and network.
- Springs, navigation, panels, the launcher, problems and contexts: rules that lean on the session, or one-function claims.
