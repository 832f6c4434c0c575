# Verified models of the factory extension

Dafny models of the algorithms and protocols of the factory: the terminal extension under
`pi-ext/factory-watch/src` and the Python packages `substrate` and `coherence`. Code that works step by
step is imperative here too, each method proved against a specification function; what the source
promises is then proved about those functions, over every input, interleaving or run.

| files | subject |
|---|---|
| `GraphLayout`, `LayoutOrder`, `LayoutGeometry`, `LayoutCrossings`, `Neighbourhood` | the layered trace graph and its bounded neighbourhoods |
| `ManagedBlock` | the marked region of AGENTS.md as a lens |
| `Navigation` | asynchronous navigation as a step system with its controller |
| `SessionMemory`, `SessionAudit`, `SessionRuns`, `SessionConservation`, `Capping` | the continuity store, its audit and runs over both |
| `MarkdownInline`, `MarkdownQuotes`, `MarkdownSpans`, `Markdown`, `MarkdownLines`, `MarkdownDocument` | the markdown renderer |
| `ChildStream`, `ChildOverflow`, `Collector` | reading a child's event stream in bounded memory |
| `DiffRows`, `ReviewOverlay`, `ReviewDecisions` | anchoring, browsing and deciding a review |
| `Watcher` | the grill prompt and terminal notifications |
| `Values`, `Artifacts`, `Observations`, `Projections`, `Compact` | observation values, envelopes and their views |
| `Inbox`, `Status` | the triage queue and the status snapshot |
| `PolishNames` | command file names |
| `Sequences`, `Texts`, `Decimals`, `Wrappers` | library code the programs call: sorting, searching, numerals |

`dafny verify dfyconfig.toml` checks everything.

Where code and comments disagree the model follows the code, shows an input and proves the exact extent:

- an edge runs through its own boxes inside one column (`SameKindEdgeCrosses`, `EdgeMissesItsLabels`) and through
  boxes it passes when it skips one (`ThreeKindsCross`, `EdgeCrossesExactly`);
- a first block insertion is not reported and can be skipped by init (`ReplacedFlag`, `InitLeavesTheBlock`);
- the fallback loader leaks into a later scope (`FallbackLeaks`, `CurrentExactlyWithoutStaleWrites`);
- an answer can outgrow its cap by its separators, though never its line (`SeparatorExceedsTheCap`,
  `AnswerExceedsCapExactly`, `RetainedStaysBounded`), and a long stream loses its last answer
  (`EarlierTextCostsTheAnswer`, `AnswerIsLastMessage`);
- complete lines can be cut by the buffer cap (`CapCutsALine`, `CutHeadCostsALine`, `StreamKeepsLinesExactly`);
- the row after a final newline is anchored (`TrailingBlankIsAnchored`, `TrailingBlankExactly`);
- two prompts of a session can be open at once (`SecondPromptWhileFirstIsOpen`, `OnePromptExactly`);
- runs with a NUL in their names can share a notification key (`NulConfusesRuns`, `KeyIsOwnExactly`);
- the audit cap can be exceeded (`CapAuditCanExceedItsCap`, `CapAuditHoldsExactly`);
- command order is lost where a counter gains a digit within one millisecond (`NewDigitMisorders`,
  `SortedExactlyWhenSeparated`).

That a full audit drops notes for good is its design; when it does is exact as well (`FullAuditLoses`,
`RunConservesExactly`).

## Model

| member | source | states |
|---|---|---|
| `LayoutOrder.LayoutIgnoresInputOrder` | pi-ext/factory-watch/src/graph-layout.ts:57-157 | For every permutation of distinct-id nodes and of edges, and any number of passes, boxes, columns, width and height are identical and the edge segments are the same multiset. |
| `GraphLayout.LayoutGraph` | pi-ext/factory-watch/src/graph-layout.ts:57-157 | The imperative layout with its four barycentre passes computes the specified layout for every graph, the empty one included. |
| `GraphLayout.LayoutWith` | pi-ext/factory-watch/src/graph-layout.ts:57-157 | The same for any number of passes. |
| `GraphLayout.MakePasses` | pi-ext/factory-watch/src/graph-layout.ts:82-104 | Every pass re-sorts every column in rank order, each seeing the rows written just before. |
| `GraphLayout.ReorderColumn` | pi-ext/factory-watch/src/graph-layout.ts:85-102 | One column is re-sorted by mean neighbour row, then by id, and its rows renumbered, leaving other columns alone. |
| `GraphLayout.PassesHold` | pi-ext/factory-watch/src/graph-layout.ts:83-104 | Through all passes each column holds exactly the nodes of its kind. |
| `GraphLayout.DrawableEndsPlaced` | pi-ext/factory-watch/src/graph-layout.ts:126-133 | Both ends of every drawn edge have a box, so the unguarded position lookups never fail. |
| `LayoutGeometry.RowsAreBijective` | pi-ext/factory-watch/src/graph-layout.ts:71-104 | After any number of passes row numbers and column positions are inverse: within each column a bijection onto 0..n-1. |
| `LayoutGeometry.EveryNodeDrawnOnce` | pi-ext/factory-watch/src/graph-layout.ts:111-124 | The boxes carry exactly the given nodes, with multiplicity. |
| `LayoutGeometry.BoxesNeverCollide` | pi-ext/factory-watch/src/graph-layout.ts:106-124 | No two boxes of a finished layout share an interior point. |
| `LayoutGeometry.SameColumnSameKind` | pi-ext/factory-watch/src/graph-layout.ts:106-124 | Two boxes share an x exactly when their nodes share a kind; otherwise they are at least a column width apart. |
| `LayoutGeometry.EdgeMissesItsLabels` | pi-ext/factory-watch/src/graph-layout.ts:127-143 | An edge avoids the interiors of the two boxes it connects exactly when they are of different kinds; the comment promises it always. |
| `LayoutGeometry.SameKindEdgeCrosses` | pi-ext/factory-watch/src/graph-layout.ts:126-143 | An edge in a graph of one kind does run through a box it connects. |
| `LayoutGeometry.GutterEdgesTouchNothing` | pi-ext/factory-watch/src/graph-layout.ts:50-52 | An edge between neighbouring columns crosses no box of the whole layout. |
| `LayoutCrossings.EdgeCrossesExactly` | pi-ext/factory-watch/src/graph-layout.ts:126-143 | An edge between two columns crosses exactly the boxes of the columns strictly between them whose height its line passes at one side or both, in whole numbers. |
| `LayoutCrossings.SkippedRowIsCrossed` | pi-ext/factory-watch/src/graph-layout.ts:126-143 | So an edge along one row that skips a column goes through the box in between: the gutter promise holds of neighbouring columns only. |
| `LayoutCrossings.ThreeKindsCross` | pi-ext/factory-watch/src/graph-layout.ts:126-143 | Three nodes are enough: in the layout of any three of three kinds an edge between the outer two runs through the box of the third. |
| `Neighbourhood.NeighbourhoodOf` | pi-ext/factory-watch/src/graph-layout.ts:159-189 | The hop loop returns exactly the present nodes in the ball around the root, in input order, and the edges among them; nothing for an absent root. |
| `Neighbourhood.NeighbourhoodIsDistance` | pi-ext/factory-watch/src/graph-layout.ts:185-188 | Membership in the result is undirected distance at most `hops` over present nodes; fewer hops give a subset. |
| `Neighbourhood.LayerIsExactDistance` | pi-ext/factory-watch/src/graph-layout.ts:168-183 | The frontier after a round is exactly the nodes at that distance. |
| `Neighbourhood.BallIsWithin` | pi-ext/factory-watch/src/graph-layout.ts:168-183 | Growing a ball layer by layer reaches exactly the nodes joined to the root by a walk of that length. |
| `Neighbourhood.Expand` | pi-ext/factory-watch/src/graph-layout.ts:171-182 | One round adds every present node one edge from the frontier and lists exactly the new ones, each once, as the next frontier. |
| `ManagedBlock.SplitManaged` | pi-ext/factory-watch/src/factory-init.ts:552-572 | Computes the parts around and inside the markers and the marker count, malformed files included. |
| `ManagedBlock.PassesExactlyWhenWellMarked` | pi-ext/factory-watch/src/factory-init.ts:582-595 | A file has no issues exactly when it has no marker at all or one start marker followed by one end marker. |
| `ManagedBlock.BlockMarkersProper` | pi-ext/factory-watch/src/factory-init.ts:38-39 | The two real markers each contain `<` only at index 0, so marker occurrences cannot overlap or straddle a splice. |
| `ManagedBlock.WriteThenRead` | pi-ext/factory-watch/src/factory-init.ts:597-612 | A written block reads back as written, the bytes before and after it unchanged, and the file has no marker issues. |
| `ManagedBlock.WrittenFilePasses` | pi-ext/factory-watch/src/factory-init.ts:597-612 | A written file has no marker issues exactly when the new body holds no marker. |
| `ManagedBlock.LastWriteWins` | pi-ext/factory-watch/src/factory-init.ts:597-612 | Two writes leave what the second alone would have left. |
| `ManagedBlock.WritingBackChangesNothing` | pi-ext/factory-watch/src/factory-init.ts:597-612 | Writing back the block just read is a no-op, reported as such. |
| `ManagedBlock.SecondWriteIsNoOp` | pi-ext/factory-watch/src/factory-init.ts:608-610 | Writing the same block twice changes nothing the second time. |
| `ManagedBlock.ReplacedFlag` | pi-ext/factory-watch/src/factory-init.ts:609-611 | The file changes exactly when the block does; the `replaced` flag is set exactly when an existing block changed, so a first insertion is not reported. |
| `ManagedBlock.InitLeavesTheBlock` | pi-ext/factory-watch/src/factory-init.ts:777-800 | After init the file has no marker issues; it holds the block exactly when there was no file, the profile changed or the file was marked: an unmarked file with an up-to-date profile is skipped. |
| `ManagedBlock.InitSettles` | pi-ext/factory-watch/src/factory-init.ts:777-800 | A second init with nothing new changes nothing. |
| `Navigation.CurrentExactlyWithoutStaleWrites` | pi-ext/factory-watch/src/system-bootstrap.ts:200-208 | Over every interleaving of navigations, responses, aborts, trace loads and health scans, the open scope shows only its own evidence at every moment exactly when no superseded per-endpoint load resumes into it. |
| `Navigation.StepKeeps` | pi-ext/factory-watch/src/system-bootstrap.ts:787-803 | Every event but such a stale write keeps panels, trace refs and loaded trace those of the current generation and scope. |
| `Navigation.StaleWriteBreaks` | pi-ext/factory-watch/src/system-bootstrap.ts:1064-1067 | Every such stale write leaves the open scope with another navigation's trace refs. |
| `Navigation.DossierRunsStayCurrent` | pi-ext/factory-watch/src/system-bootstrap.ts:956-991 | As long as the dossier endpoint answers, every interleaving is safe without condition. |
| `Navigation.FallbackLeaks` | pi-ext/factory-watch/src/system-bootstrap.ts:1007-1068 | A concrete run of five events, for any two features, that leaves the second scope with the first one's refs. |
| `Navigation.NavigationSilencesScans` | pi-ext/factory-watch/src/system-bootstrap.ts:1475-1519 | After a navigation no health scan started before it has any effect, whatever happens in between, later scans included. |
| `Navigation.OnlyLatestScanActs` | pi-ext/factory-watch/src/system-bootstrap.ts:1475-1519 | A health result that has any effect belongs to the scan started last. |
| `Navigation.Controller.LoadScopeNow` | pi-ext/factory-watch/src/system-bootstrap.ts:1169-1232 | Opening a scope starts a new generation, cancels the scan and resets every panel, ref and trace to it. |
| `Navigation.Controller.FinishBundleScopeLoad` | pi-ext/factory-watch/src/system-bootstrap.ts:874-922 | The shared tail of the bundle loaders writes as its step says. |
| `Navigation.Controller.Handle` | pi-ext/factory-watch/src/system-bootstrap.ts:580-594 | Every user event changes the controller's fields as the step system says. |
| `Navigation.Controller.Dispatch` | pi-ext/factory-watch/src/system-bootstrap.ts:810-1160 | Every response resumed changes the controller's fields as the step system says. |
| `SessionMemory.NextId` | pi-ext/factory-watch/src/session-memory.ts:111-117 | Terminates with the least unused positive number, at most the number of entries plus one. |
| `SessionMemory.IdInjective` | pi-ext/factory-watch/src/session-memory.ts:111-117 | Different numbers give different ids, whatever their width. |
| `SessionMemory.PackLines` | pi-ext/factory-watch/src/session-memory.ts:213-226 | The lines are the longest prefix within the token budget, but never less than one line while the budget is positive. |
| `SessionMemory.BuildMemoryRollup` | pi-ext/factory-watch/src/session-memory.ts:205-231 | The rollup is such a prefix of the live notes in creation order; there is none exactly when nothing is live or the budget is not positive. |
| `Capping.CapKeepsNewest` | pi-ext/factory-watch/src/session-memory.ts:140-146 | With unique keys, capping keeps exactly the newest `max` entries. |
| `Capping.CapDropsOldest` | pi-ext/factory-watch/src/session-memory.ts:140-146 | No entry dropped is newer than one kept. |
| `SessionRuns.NewNoteStays` | pi-ext/factory-watch/src/session-memory.ts:158-188 | A new note survives its own write exactly when its time to live and the cap are positive. |
| `SessionRuns.AddNoteOk` | pi-ext/factory-watch/src/session-memory.ts:178-188 | Adding keeps ids unique, at most one entry per topic, and the size within the cap. |
| `SessionRuns.PruneOk` | pi-ext/factory-watch/src/session-memory-command.ts:53-58 | So does a prune pass. |
| `SessionConservation.StepConserves` | pi-ext/factory-watch/src/session-memory-command.ts:53-114 | One command writes its note if that has time to live and the cap room for one, loses no other note instance but to the audit's cap, and loses none exactly when that cap drops nothing whose id and prune moment no kept entry has. |
| `SessionConservation.RunConserves` | pi-ext/factory-watch/src/session-memory-command.ts:53-115 | Over every run with a clock that never goes back, the policy read again at each command, no note instance is in two places, ids and topics stay unique and the cap last read holds; every instance ever written is still in store or audit exactly when no step's audit cap drops one. |
| `SessionConservation.RunConservesWithRoom` | pi-ext/factory-watch/src/session-memory-command.ts:53-115 | So nothing is lost while at every step the audit has room for what that step removes. |
| `SessionConservation.RunConservesExactly` | pi-ext/factory-watch/src/session-memory-command.ts:53-115 | With a clock that strictly advances that is exact: each instance ever written is in store or audit exactly when every step that removes notes finds room for them in the audit. |
| `SessionConservation.FullAuditLoses` | pi-ext/factory-watch/src/session-audit.ts:74-85 | And notes are lost: any expired note pruned under an audit cap of zero is in neither file afterwards. |
| `SessionConservation.RunKeepsNewest` | pi-ext/factory-watch/src/session-audit.ts:74-117 | Under one cap, over every run whose clock strictly advances, the audit is exactly the last entries of all ever stamped, as many as the cap allows; they are stamped in order of time, so the oldest prunes go first. |
| `SessionConservation.RunKeepsAuditCap` | pi-ext/factory-watch/src/session-memory-command.ts:53-115 | Over every such run, with caps that change, no id is in the audit twice under one moment, and the audit never exceeds the caps it is given. |
| `SessionRuns.RememberLabels` | pi-ext/factory-watch/src/session-memory-command.ts:105-113 | A note removed by `/remember` is labelled superseded exactly when it was the live note of the topic, and capped otherwise, expired or not; when the new note does not stay, the label is read off the old note that comes last, or is capped if none is left. |
| `SessionRuns.RemovedAre` | pi-ext/factory-watch/src/session-audit.ts:91-94 | Comparing by id finds exactly the notes that are gone, although ids are reused. |
| `SessionRuns.SessionFiles.RememberNote` | pi-ext/factory-watch/src/session-memory-command.ts:99-114 | The handler rewrites store and audit as the step says. |
| `SessionRuns.SessionFiles.PruneStore` | pi-ext/factory-watch/src/session-memory-command.ts:53-67 | The prune pass rewrites store and audit as the step says. |
| `SessionAudit.CapAuditKeepsNewest` | pi-ext/factory-watch/src/session-audit.ts:74-85 | With no id pruned twice at one moment the audit cap is exact and drops the oldest prunes. |
| `SessionAudit.CapAuditHoldsExactly` | pi-ext/factory-watch/src/session-audit.ts:74-85 | The audit stays within its cap exactly when nothing it should drop shares id and prune moment with something it keeps. |
| `SessionAudit.CapAuditCanExceedItsCap` | pi-ext/factory-watch/src/session-audit.ts:74-85 | It can fail: two prunes of one id at one moment both stay under a cap of one. |
| `Capping.CapHoldsExactly` | pi-ext/factory-watch/src/session-audit.ts:74-85 | For any such cap by keys: it holds exactly when no dropped entry shares a key with a kept one, and then the newest entries are what stays. |
| `SessionAudit.RecentAuditIsNewest` | pi-ext/factory-watch/src/session-audit.ts:119-124 | The audit view is a newest part of the audit of the requested size. |
| `MarkdownInline.EscapeRoundTrips` | pi-ext/factory-watch/src/md-render.ts:18-27 | Escaping has a left inverse. |
| `MarkdownInline.ReplaceIsSafe` | pi-ext/factory-watch/src/md-render.ts:35-41 | Each of the four inline passes keeps a text in which every raw `<` begins one of the renderer's tags. |
| `MarkdownInline.InlineIsSafe` | pi-ext/factory-watch/src/md-render.ts:33-41 | Whatever the text, every raw `<` of its rendering begins one of the renderer's tags. |
| `MarkdownQuotes.InlineQuotesAreLinkTags` | pi-ext/factory-watch/src/md-render.ts:33-41 | Whatever the text, every raw `"` of its rendering is one of the two of a link tag, whose address holds none: no source text can end the attribute it is put into. |
| `MarkdownInline.PlainTextIsOnlyEscaped` | pi-ext/factory-watch/src/md-render.ts:33-41 | Text without markup characters is only escaped and can be read back. |
| `MarkdownSpans.CodeSpanRenders` | pi-ext/factory-watch/src/md-render.ts:37 | A code span is wrapped in its tags, its text and surroundings only escaped. |
| `MarkdownSpans.StrongSpanRenders` | pi-ext/factory-watch/src/md-render.ts:38 | The same for strong emphasis. |
| `MarkdownSpans.EmSpanRenders` | pi-ext/factory-watch/src/md-render.ts:39 | The same for emphasis whose text does not begin with a space. |
| `MarkdownSpans.LinkSpanRenders` | pi-ext/factory-watch/src/md-render.ts:40 | A link puts its text between the anchor tags and its address in the attribute. |
| `MarkdownSpans.InlineTagsInterleave` | pi-ext/factory-watch/src/md-render.ts:35-41 | Inline tags need not nest: emphasis opened inside a code span and closed outside crosses it. |
| `MarkdownLines.HeadingReads` | pi-ext/factory-watch/src/md-render.ts:102-109 | One to six marks, a space and text make a heading of that level; seven do not. |
| `MarkdownLines.BulletReads` | pi-ext/factory-watch/src/md-render.ts:149-161 | A dash item lies one level deeper per two spaces of indent and keeps its text. |
| `MarkdownLines.CheckboxReads` | pi-ext/factory-watch/src/md-render.ts:163-173 | A checkbox is ticked by `x` or `X`, open with a space, and nothing else is one. |
| `Markdown.ListsNest` | pi-ext/factory-watch/src/md-render.ts:68-74 | For every source the list tags balance and nest like the stack; items stand only inside a list, other blocks only outside every list. |
| `Markdown.SlugsRepeat` | pi-ext/factory-watch/src/md-render.ts:76-109 | Slugs can repeat: after two headings of one base, a heading whose own base is that with `-2` at its end gets the second one's slug. |
| `Markdown.BlockAt` | pi-ext/factory-watch/src/md-render.ts:83-202 | Every turn of the loop consumes at least one line and ends at most one past the last. |
| `Markdown.OnlyOpenFenceOvershoots` | pi-ext/factory-watch/src/md-render.ts:83-100 | The index passes the end of the source exactly at a fence that is never closed. |
| `MarkdownDocument.DocumentIsSafe` | pi-ext/factory-watch/src/md-render.ts:59-209 | In the whole document every raw `<` begins one of the renderer's tags. |
| `MarkdownDocument.ProgressAndContents` | pi-ext/factory-watch/src/md-render.ts:163-173 | Progress counts exactly the checkboxes and the ticked ones among them; the contents list is exactly the headings in order. |
| `MarkdownDocument.RenderMarkdown` | pi-ext/factory-watch/src/md-render.ts:59-209 | The loop terminates on every input with the specified document, which is safe; progress is absent exactly without checkboxes. |
| `MarkdownDocument.Renderer.RenderBlock` | pi-ext/factory-watch/src/md-render.ts:83-202 | One turn renders exactly the block at the line and returns the line after it. |
| `MarkdownDocument.Renderer.CloseLists` | pi-ext/factory-watch/src/md-render.ts:70-74 | Closes open lists innermost first down to a depth. |
| `ChildStream.SplitIsLinesThenRest` | pi-ext/factory-watch/src/subagent-tool.ts:339 | Splitting at once gives the terminated lines, each without its carriage return, and then the unterminated remainder. |
| `ChildStream.FramingContinues` | pi-ext/factory-watch/src/subagent-tool.ts:591-598 | Framing a concatenation is framing the first part and continuing from its remainder. |
| `ChildStream.ChunksDoNotMatter` | pi-ext/factory-watch/src/subagent-tool.ts:586-598 | For every cut of a stream that stays under the buffer cap the collector receives the same lines. |
| `ChildStream.StreamedIsOneShotLessRemainder` | pi-ext/factory-watch/src/subagent-tool.ts:586-598 | Those are the lines of the one-shot split less its last piece, which streaming never hands over. |
| `ChildStream.TailIsAccepted` | pi-ext/factory-watch/src/subagent-tool.ts:597 | The diagnostics tail is always the end of all accepted text, overflow or not. |
| `ChildStream.BufferStaysBounded` | pi-ext/factory-watch/src/subagent-tool.ts:589-590 | The line buffer never exceeds its cap. |
| `ChildOverflow.StreamKeepsLinesExactly` | pi-ext/factory-watch/src/subagent-tool.ts:586-598 | For every cap and every sequence of chunks, the lines received are those of the whole stream exactly when no chunk's cut costs one: each takes nothing, meets text without a newline, or takes only the carriage return of an empty first line, counting what earlier cuts took from the line still open. |
| `ChildOverflow.OverflowCutsLines` | pi-ext/factory-watch/src/subagent-tool.ts:588-595 | The step of that: the cap, applied before splitting, leaves the lines of one buffer alone exactly in those three cases. |
| `ChildOverflow.FittingIsSpared` | pi-ext/factory-watch/src/subagent-tool.ts:588-595 | A stream that never overflows the buffer is spared. |
| `ChildOverflow.CutHeadCostsALine` | pi-ext/factory-watch/src/subagent-tool.ts:588-595 | A cut that meets no newline can still cost a line later: under a cap of one the line "a" arrives empty when its terminator is split over two chunks. |
| `ChildOverflow.CapCutsALine` | pi-ext/factory-watch/src/subagent-tool.ts:588-595 | A complete line can be cut: one of two characters under a cap of two. |
| `ChildStream.Stdout.OnData` | pi-ext/factory-watch/src/subagent-tool.ts:586-598 | The handler's loop hands over the lines, keeps the remainder and updates the tail as specified. |
| `Collector.StreamIsKept` | pi-ext/factory-watch/src/subagent-tool.ts:267-323 | From any stream of lines the collector holds, of the last assistant message, the longest beginning that fits what earlier messages left of the cap. |
| `Collector.FittingIsLongest` | pi-ext/factory-watch/src/subagent-tool.ts:267-275 | That beginning is the longest: one more block would exceed the room. |
| `Collector.AnswerIsLastMessage` | pi-ext/factory-watch/src/subagent-tool.ts:297-314 | The collected answer is the last assistant message whole exactly when all assistant text of the stream fits the cap, whose count is never reset, or that message has no text. |
| `Collector.EarlierTextCostsTheAnswer` | pi-ext/factory-watch/src/subagent-tool.ts:267-275 | After a first message of exactly the cap nothing is kept of the second. |
| `Collector.RetainedStaysBounded` | pi-ext/factory-watch/src/subagent-tool.ts:238-247 | Memory is bounded for every stream: retained text never exceeds the cap, and text and separators together, hence the answer, never exceed the line limit, since every block came written out in one line. |
| `Collector.AnswerExceedsCapExactly` | pi-ext/factory-watch/src/subagent-tool.ts:267-331 | The answer is longer than the cap exactly when text and separators of what is kept of the last message are; with all the text within the cap that is the whole message. |
| `Collector.SeparatorExceedsTheCap` | pi-ext/factory-watch/src/subagent-tool.ts:83-84 | Such a stream exists: one line well within its limit, a message of exactly the cap and an empty block, answers one character over the cap. |
| `Collector.OneShotPushesRemainder` | pi-ext/factory-watch/src/subagent-tool.ts:336-341 | Parsing a captured stream at once is streaming it and then pushing the unterminated line. |
| `Collector.StreamedAnswerIsOneShot` | pi-ext/factory-watch/src/subagent-tool.ts:336-341 | A newline-terminated stream gives the same answer however it is cut, as long as the buffer's cap costs it no line. |
| `Collector.JsonlCollector.PushLine` | pi-ext/factory-watch/src/subagent-tool.ts:277-323 | One line updates the collector's fields as specified; over-long and unparsable lines change nothing. |
| `Collector.IdleKeeper.OnElapsed` | pi-ext/factory-watch/src/subagent-tool.ts:410-423 | Kills exactly when the last signals, one more than the grace and never fewer than two, were all silent windows. |
| `Collector.BreachesCountSilence` | pi-ext/factory-watch/src/subagent-tool.ts:401-423 | The breach count is the length of the silence since the last sign of life. |
| `DiffRows.HeaderRoundTrips` | pi-ext/factory-watch/src/review-model.ts:46 | Every hunk header gives back its two starting lines, whatever its counts and heading. |
| `DiffRows.BodyLineIsNoHeader` | pi-ext/factory-watch/src/review-model.ts:53-70 | No body line, `---` and `+++` look-alikes included, is ever taken for a section start or hunk header. |
| `DiffRows.MapDiffRows` | pi-ext/factory-watch/src/review-model.ts:48-89 | The loop gives the specified row for every line. |
| `DiffRows.SectionRowsAre` | pi-ext/factory-watch/src/review-model.ts:52-66 | A section gets its own rows wherever in a diff it stands; nothing carries over. |
| `DiffRows.DiffRowsAre` | pi-ext/factory-watch/src/review-model.ts:48-89 | A well-formed diff gets one row per line, section by section. |
| `DiffRows.AnchoredRowsShowTheirLine` | pi-ext/factory-watch/src/review-model.ts:71-85 | Each anchored row of a well-formed section is the anchored line of the anchored file, after its mark. |
| `DiffRows.AnchorsAreDistinct` | pi-ext/factory-watch/src/review-model.ts:71-85 | No two rows of a section share an anchor. |
| `DiffRows.TrailingBlankIsAnchored` | pi-ext/factory-watch/src/review-model.ts:81-85 | The empty string after a final newline is anchored as context to the line after the last hunk's, and shows no line of either file. |
| `DiffRows.TrailingBlankExactly` | pi-ext/factory-watch/src/review-model.ts:81-85 | In a whole diff that extra row is anchored exactly when the last section has hunks, and then to the line after the last one's. |
| `Watcher.DiffBlocked` | pi-ext/factory-watch/src/pipeline-diff.ts:31-43 | Lists, in registry order, exactly the interactive nodes blocked now and not before, the last of duplicate entries deciding. |
| `Watcher.RaisedExactlyOnEdges` | pi-ext/factory-watch/src/index.ts:280-300 | In every interleaving a check, opening or polled, raises a prompt of a session exactly when it sees the grill blocked that the same watcher's previous check did not, and the re-read record is the session's, blocked, with no result and no resolved prompt; a watcher polls only once its awaited opening check is done. |
| `Watcher.NeverAgain` | pi-ext/factory-watch/src/index.ts:238-247 | Once a prompt of a session has resolved none is ever raised for it again. |
| `Watcher.OnePromptExactly` | pi-ext/factory-watch/src/index.ts:231-254 | In every run at most one prompt of a session is open at a time exactly when no check meets that edge while one is: the guard is set only after the answer. |
| `Watcher.SecondPromptWhileFirstIsOpen` | pi-ext/factory-watch/src/index.ts:239-247 | It can fail: a watcher opened on an idle grill that sees it blocked, idle and blocked again raises a second prompt beside the unanswered first. |
| `Watcher.PromptsBalance` | pi-ext/factory-watch/src/index.ts:231-254 | Open prompts are exactly those raised and not resolved; the guard sets record exactly the resolved sessions and existing results. |
| `Watcher.Extension.CheckTransitions` | pi-ext/factory-watch/src/index.ts:280-295 | One check updates its watcher's memory and raises the prompt exactly as specified. |
| `Watcher.Extension.RunMissionControl` | pi-ext/factory-watch/src/index.ts:296-297 | Opening makes the awaited check; the watcher waits while the prompt it raised is open. |
| `Watcher.Extension.Tick` | pi-ext/factory-watch/src/index.ts:297-299 | A poll is the step of the system it should be. |
| `Watcher.KeysDistinguishRuns` | pi-ext/factory-watch/src/index.ts:921-925 | Two finished runs share a notification key exactly when producer, run id and terminal observation agree, as long as the first two hold no NUL. |
| `Watcher.NulConfusesRuns` | pi-ext/factory-watch/src/index.ts:921-925 | With a NUL inside, two different runs can share one. |
| `Watcher.KeyIsOwnExactly` | pi-ext/factory-watch/src/index.ts:921-925 | No other finished run shares a run's key exactly when its producer and id hold no NUL and its terminal observation none before its last character. |
| `Watcher.TerminalNotifier.NotifyNewTerminals` | pi-ext/factory-watch/src/index.ts:926-940 | Over all polls every terminal identity seen is notified exactly once. |
| `Values.ThawUndoesFreeze` | src/substrate/observations.py:38-63 | Thawing a frozen tree gives it back exactly when it was made of dicts and lists throughout. |
| `Values.FreezeUndoesThaw` | src/substrate/observations.py:38-63 | Freezing a thawed tree gives it back exactly when it was frozen throughout. |
| `Values.FrozenIsImmutable` | src/substrate/observations.py:38-56 | Freezing leaves no mutable container at any depth and is idempotent. |
| `Values.DeepFreeze` | src/substrate/observations.py:38-56 | The recursive freeze succeeds exactly on trees with string keys and supported leaves. |
| `Artifacts.ArtifactRoundTrips` | src/substrate/artifacts.py:101-149 | Parsing the serialized form of a constructed artifact reference gives it back. |
| `Artifacts.ParsedArtifactSerializesBack` | src/substrate/artifacts.py:120-149 | Whatever parses is valid and serializes to what was parsed, up to tuples and explicit nulls. |
| `Artifacts.InputRoundTrips` | src/substrate/artifacts.py:152-172 | The same round trip for snapshot inputs. |
| `Artifacts.ProducerRoundTrips` | src/substrate/artifacts.py:175-204 | The same for producers. |
| `Artifacts.SnapshotRoundTrips` | src/substrate/artifacts.py:207-277 | The same for snapshots, nested producer and inputs included. |
| `Artifacts.ParsedSnapshotSerializesBack` | src/substrate/artifacts.py:207-277 | Whatever parses satisfies every constructor check and serializes to what was parsed, nested references included, up to tuples and explicit nulls. |
| `Observations.EnvelopeRoundTrips` | src/substrate/observations.py:249-347 | Parsing a serialized envelope gives it back, except that eligibility is never carried over. |
| `Observations.ParsedEnvelopeIsValid` | src/substrate/observations.py:215-299 | Whatever parses is valid, its facts frozen throughout, and not eligible. |
| `Observations.ParsedEnvelopeSerializesBack` | src/substrate/observations.py:249-347 | And it serializes to what was parsed, nested references and facts included, up to tuples and explicit nulls in references. |
| `Observations.EligibleExactlyWhenValidated` | src/substrate/observations.py:298-332 | An observation is gate-eligible exactly when its facts' registered validator accepted them and its outcome is pass or fail; it is rejected exactly when that validator is missing or refuses. |
| `Observations.ValidationKeepsEnvelope` | src/substrate/observations.py:306-328 | Validation changes nothing of an envelope but its eligibility. |
| `Observations.RejectionKeepsEvidence` | src/substrate/observations.py:350-416 | A rejection keeps identity, diagnostics and artifacts, leads with its reason, and is never eligible. |
| `Observations.PayloadRegistry.Register` | src/substrate/observations.py:173-177 | Registering replaces one schema's validator; a blank schema is refused. |
| `Observations.PayloadRegistry.Validate` | src/substrate/observations.py:182-192 | Refuses exactly facts whose schema has no validator or whose validator refuses; what is no facts object is a type error. |
| `Projections.RedactionKeepsShape` | src/substrate/projections.py:61-90 | Redaction keeps the tree: same containers, keys, lengths and non-string leaves. |
| `Projections.LeavesAfterwards` | src/substrate/projections.py:61-90 | The string leaves afterwards are exactly the undeclared ones from before and the placeholder if anything matched. |
| `Projections.NothingDeclaredSurvives` | src/substrate/projections.py:61-66 | No declared string survives as a leaf, unless it is the placeholder. |
| `Projections.RedactionIsIdempotent` | src/substrate/projections.py:61-90 | Redacting twice is redacting once. |
| `Projections.RedactValue` | src/substrate/projections.py:61-90 | The recursive loops compute that tree, and the flag is set exactly when a declared string matched a leaf. |
| `Projections.FitText` | src/substrate/projections.py:203-217 | Text within the budget is unchanged; longer text becomes the longest run of whole first lines that fits. |
| `Projections.CutIsPrefixExactly` | src/substrate/projections.py:209-217 | The cut is literally a beginning of the text exactly when the breaks kept in it are plain newlines. |
| `Projections.AgentCompact` | src/substrate/projections.py:311-340 | The compact text never exceeds the budget and is cut that way; a negative budget is an error. |
| `Compact.CompactHidesDeclared` | src/substrate/projections.py:237-308 | Two observations that differ only in strings the redactions declare, or in facts while invalid or unknown, have the same compact lines in the same order. |
| `Compact.UntrustedFactsAreHidden` | src/substrate/projections.py:273-280 | The facts of an invalid or unknown envelope never show. |
| `Compact.CompactView` | src/substrate/projections.py:311-340 | The view is those lines, redacted before rendering, cut to the budget. |
| `Inbox.ListItems` | src/coherence/inbox.py:396-418 | The list is strictly sorted by id, covers every collected id, and keeps the item collected first under each. |
| `Inbox.AuthoringConsentItems` | src/coherence/inbox.py:310-393 | No register directory gives nothing and an unreadable register one visible item; otherwise duplicated ids are emitted exactly once and every other requirement exactly when its consent is not on record. |
| `Inbox.UniqueIsClearedExactly` | src/coherence/inbox.py:316-378 | A requirement registered once is off the queue exactly when its own well-formed decision file records a current accept, a defer not due, or a reject; otherwise it is on it once. |
| `Inbox.DuplicateIsOnePendingItem` | src/coherence/inbox.py:311-325 | An id registered more than once stays pending as exactly one item, whatever is on file. |
| `Status.ZeroExactlyWhenAllClean` | src/coherence/status.py:96-127 | The exit code is zero exactly when every line says nothing is pending; no unknown outcome can look clean. |
| `Status.RankIsPlace` | src/coherence/status.py:96-112 | Every declared outcome ranks at its own place in the precedence, and any other outcome as a probe error. |
| `Status.PrimaryIsWorst` | src/coherence/status.py:115-127 | The primary line is as severe as any. |
| `Status.TiesKeepDeclaredOrder` | src/coherence/status.py:115-127 | Equally severe lines keep the order in which the probes were declared. |
| `Status.CleanExactlyWhenProbesAre` | src/coherence/status.py:393-419 | The snapshot is clean exactly when every probe answered and answered clean; a crashing probe costs only its own line. |
| `ReviewOverlay.EveryRowOnce` | pi-ext/factory-watch/src/review-overlay.ts:193-200 | In `total` steps the cyclic search visits every row exactly once, the cursor's own last. |
| `ReviewOverlay.JumpToMatch` | pi-ext/factory-watch/src/review-overlay.ts:187-202 | Lands on the nearest match in the search direction, wrapping once, with the viewport following; otherwise nothing moves. |
| `ReviewOverlay.LandingIsUnique` | pi-ext/factory-watch/src/review-overlay.ts:187-202 | That determines the view completely. |
| `ReviewOverlay.LandedIsVisible` | pi-ext/factory-watch/src/review-overlay.ts:187-202 | A landing that moved leaves its cursor on screen. |
| `ReviewOverlay.FollowMovesLeast` | pi-ext/factory-watch/src/review-overlay.ts:174-180 | Following the cursor shows it and moves the viewport no further than any offset showing it needs. |
| `ReviewOverlay.NextHunk` | pi-ext/factory-watch/src/review-overlay.ts:265-274 | The next hunk row after the cursor, if any. |
| `ReviewOverlay.PreviousHunk` | pi-ext/factory-watch/src/review-overlay.ts:275-284 | The nearest hunk row before the cursor, if any. |
| `ReviewOverlay.FallbackNeverAnchors` | pi-ext/factory-watch/src/review-overlay.ts:130-139 | When rendering changed the number of lines no row is anchored and no hunk is jumped to; otherwise anchors are those of the diff itself. |
| `ReviewOverlay.Overlay.SearchKey` | pi-ext/factory-watch/src/review-overlay.ts:212-224 | While a search is typed no key moves the cursor or emits an action until Enter or Escape. |
| `ReviewOverlay.Overlay.FileKey` | pi-ext/factory-watch/src/review-overlay.ts:225-291 | Every file-mode key keeps cursor and file in range; no decision starts here, and a comment is anchored to the row under the cursor. |
| `ReviewOverlay.Overlay.SummaryKey` | pi-ext/factory-watch/src/review-overlay.ts:294-336 | Every summary key keeps the selection in range; approval and rejection start only here. |
| `ReviewOverlay.Overlay.ClampForRender` | pi-ext/factory-watch/src/review-overlay.ts:364-370 | Rendering clamps the offset to the file and never moves a valid cursor or hides a visible one. |
| `ReviewDecisions.PutThenGet` | pi-ext/factory-watch/src/mission-control-review.ts:129-148 | After an edit the place holds exactly the text given, or nothing. |
| `ReviewDecisions.PutKeepsOthers` | pi-ext/factory-watch/src/mission-control-review.ts:129-148 | And every other place holds what it held. |
| `ReviewDecisions.RunIsSafe` | pi-ext/factory-watch/src/mission-control-review.ts:126-211 | Over every input sequence: one comment per place, a rejection always carries a comment, prompt and comment list are never both open. |
| `ReviewDecisions.DecisionsAreConfirmed` | pi-ext/factory-watch/src/mission-control-review.ts:184-199 | A decision leaves exactly when a key confirms an open prompt, one asked for by the matching action, unanswered since, with the comments unchanged. |
| `ReviewDecisions.ReviewBrowser.HandleInput` | pi-ext/factory-watch/src/mission-control-review.ts:201-211 | Keys go to prompt, list or browser and change the fields as the state machine says. |
| `ReviewDecisions.RunReviewLoop` | pi-ext/factory-watch/src/review-overlay.ts:469-571 | The host's loop returns at the first confirmed decision that is allowed, with exactly the comments made and the files marked up to it. |
| `ReviewDecisions.ReviewedIsOdd` | pi-ext/factory-watch/src/review-overlay.ts:505-512 | A file is marked reviewed exactly when it was toggled an odd number of times. |
| `PolishNames.NamesDistinct` | pi-ext/factory-watch/src/polish-protocol.ts:31-36 | No two commands share a file name. |
| `PolishNames.SortedExactlyWhenSeparated` | pi-ext/factory-watch/src/polish-protocol.ts:26-38 | For every run with a non-decreasing clock of fourteen digits, names sort in write order exactly when the clock moves on at every write whose counter gains its fifth or a later digit. |
| `PolishNames.SortedForEveryClock` | pi-ext/factory-watch/src/polish-protocol.ts:26-38 | So up to 10000 commands sort under every such clock, and no larger number does. |
| `PolishNames.LaterMillisLaterName` | pi-ext/factory-watch/src/polish-protocol.ts:35-38 | A strictly later millisecond always sorts later, whatever the counter. |
| `PolishNames.NewDigitMisorders` | pi-ext/factory-watch/src/polish-protocol.ts:35-38 | A counter gaining its fifth or a later digit undoes the order within one millisecond. |
| `PolishNames.SortingRestoresIssueOrder` | pi-ext/factory-watch/src/polish-protocol.ts:26-38 | Whichever commands have been applied already, and however the directory lists the rest, sorting the names gives the order in which they were written. |
| `PolishNames.CommandWriter.Write` | pi-ext/factory-watch/src/polish-protocol.ts:35-38 | A write adds one file and never overwrites a pending one. |

## Left out

- Navigation.DossierRunsStayCurrent: the per-endpoint fallback loader is covered only by the exact condition of `CurrentExactlyWithoutStaleWrites`, because it writes after an await without asking whether its navigation is still current.
- LayoutOrder.LayoutIgnoresInputOrder: ids are their places in collation order, so two different ids that collate as equal are not modelled; means are exact reals, not doubles.
- SessionConservation.RunConserves: malformed files are read as empty by the original, which is not modelled.
- SessionConservation.RunKeepsNewest: stated under one cap; when the cap changes between commands, a larger one does not bring back what a smaller one dropped.
- Markdown.ListsNest: balance is stated for block-level pieces only, since inline tags can interleave (`InlineTagsInterleave`); of slugs only their characters and that they can repeat (`SlugsRepeat`) are stated.
- MarkdownInline.InlineIsSafe: says where markup comes from, not that an address is harmless.
- ChildStream.ChunksDoNotMatter: characters are whole; decoding of bytes split across chunks is the runtime's.
- Collector.JsonlCollector.PushLine: JSON parsing is a parameter that yields the fields the collector reads.
- Collector.RetainedStaysBounded: that a message takes up at least as many characters of its line as it has text and blocks is a fact of JSON, stated as a condition on the parser.
- DiffRows.HeaderRoundTrips: line numbers are unbounded, so numbers beyond 2^53 do not lose digits.
- Watcher.RaisedExactlyOnEdges: the registry's order is taken to name the grill at most once; result files are never deleted.
- Watcher.NeverAgain: a dialog that raises an error instead of resolving is not modelled.
- Values.DeepFreeze: which of several bad values is reported, and the text of the error, are not modelled; floats are reals.
- Artifacts.ProducerRoundTrips: version syntax and ISO timestamps are parameters; field names are an enumeration rather than strings.
- Projections.AgentCompact: takes the full text as given; `Compact.CompactView` assembles it.
- Compact.CompactView: JSON rendering and the order of fact names are parameters; the summary flag of the whole view is left out, that of each redacted value is `Projections.RedactValue`'s.
- Inbox.UniqueIsClearedExactly: whether an accept still covers the content, and the checksum backfill that decides it for old files, are inputs; a duplicate or an outside path loses its own reason to "no DecisionFile", as in the original.
- ReviewDecisions.RunIsSafe: comments are values, so later edits do not reach a payload already sent, which in the original shares the array.
- ReviewOverlay.Overlay.FileKey: the raw and the rendered lines of a file's diff are given; recomputing it after an edit, rendering, colours and widths are left out.
- PolishNames.SortedExactlyWhenSeparated: clocks of fifteen digits, past the year 5138, are not covered.
- Profile, drift and tool alignment of `factory-init.ts` (`computeDrift`, `dedupeCommands`, `toolsSignature`, `alignBootstrapTools`): single loops with easy contracts.
- Process spawning, timers, settling of the child process and of `cli-runner.ts`: their results are inputs to the step systems.
- `vcs.py`, `router.py`, `plan-brainstorm-command.ts`, `compare_findings.py`: easy members only.
- HTTP, files, atomic renames, editors, terminal rendering and DOM construction.
