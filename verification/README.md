# agentsim: recording, geometry, replay and small languages, proved

A Dafny model of the parts of agentsim whose promises no finite test can settle, with the proofs.

- **Recording.** `TraceCache` is the record cache of a run, `Recording` the recorder that filters, holds, sends and frees,
  `RecordingSystem` the two with a channel, a store and the reports that come back, as a state machine over their steps, and
  `RecordingProtocol` and `RecordingBytes` what holds in every state a run reaches. The profile's filter and redaction are one partial function. A
  report may cover several committed batches.
- **Geometry**, over exact reals: `Raycast`, `Polygons`, `Zones` and `SpatialHashing`.
- **Reading a run back.** `Replay` (the cursor's records and poses), `Paging` and `BeliefFrames` (reading page by page),
  `RunFiles` and `Atob` (a run as a file), `RunRenaming`, `RunBlobs`, `RunBundles`, `RunImports` and `RunExchange` (a bundle as a new
  run and back, through a file or not), `ResimRefs` (what a re-simulated window refers to). The storage ports are ordered sequences with the query contracts of `packages/storage/src/ports.ts`.
- **Incremental state.** `LiveViews` (live subscriptions) and `PlanQueries` (the index of planning queries).
- **Small languages and codecs.** `FilterScan` and `Filters`, `SqlStatements` and `SqlConsoles`, `Base64`, `ChunkRle`, `Priors`.
- `Trace`, `StoredLog`, `Wrappers`, `Decimal`, `Sorting` and `Reals` hold what several of these share.

Objects the program updates in place are classes with its fields; each method is proved equal to a function of the old state, and
the lemmas are about those functions. Loops are loops with invariants. `dafny verify dfyconfig.toml` checks everything.

What the proofs show beside what was expected:

- The bytes of items in the recorder's backlog are not always exact: a batch with items only shares its number with the batch before it
  and is released with it (`RecordingProtocol.ItemBytesReleasedEarly`). They are exact just when no such batch carries bytes, as when
  every item refers to a record still to be gathered (`RecordingBytes.BytesExactWhen`, `ReferringItemsAreExact`). A wait ends after a
  collect, and not without one (`WaitEnds`, `ItemWaitsForCollect`).
- Two pushes of a live subscription can follow at once after `flushNow`, which leaves the timer armed (`LiveViews.FlushBreaksSpacing`);
  that timer's push is the only one that can come early (`PushGap`).
- The agents `PlanQueryIndex.ingest` returns leave out exactly those whose rows a reset took away (`PlanQueries.NotReturned`,
  `EmptyListForgets`).
- The frames of an agent are all exported exactly when no tick holds a full page of them with others behind it
  (`BeliefFrames.ReadAgent`, `StallShown`).
- A manifest that came as a section of a snapshot, or as a group of another, is not opened when it is exported, and its groups can be
  missing (`RunBlobs.GroupLost`); `RunBlobs.GroupLeftOut` says which.
- An imported record that refers to a record of the run's new ID gains an edge (`RunRenaming.StrayGainsAnEdge`); without such a
  reference the renaming keeps every edge and makes none, and only then (`RunRenaming.EdgesKeptWhen`).
- A bundle is checked for the groups of its keyframes, while reading opens the blob of every frame of an agent that has a keyframe: one
  whose other frames name manifests is imported and cannot be exported again when a group of those is missing
  (`RunImports.DeltaManifest`; `WriteThenRead` has the exact condition).

## Model

| member | source | states |
|---|---|---|
| TraceCache.TraceBuffer.RestoreCursor | packages/trace/src/trace-buffer.ts:107-112 | the counter and the time are taken over only by an empty buffer; otherwise the error and no change |
| TraceCache.TraceBuffer.Append | packages/trace/src/trace-buffer.ts:55-70 | a record older than the last is refused and nothing changes; otherwise it gets the next number, goes to the end, and what may be forgotten is |
| TraceCache.TraceBuffer.Hold | packages/trace/src/trace-buffer.ts:114-117 | from here on unsaved records are held |
| TraceCache.TraceBuffer.Mark | packages/trace/src/trace-buffer.ts:119-123 | an acknowledgement raises what counts as saved and forgets what it allows |
| TraceCache.TraceBuffer.ForgetPersisted | packages/trace/src/trace-buffer.ts:125-129 | the counting loop and the cut drop just the longest saved front that is over capacity |
| TraceCache.TraceBuffer.ReadSince | packages/trace/src/trace-buffer.ts:137-141 | the records above a number, computed from the end of the array; the state is left alone |
| TraceCache.ForgetTakesSavedPrefix | packages/trace/src/trace-buffer.ts:125-129 | what is forgotten is a front, all of it saved, and it stops at capacity or at the first unsaved record |
| TraceCache.PushKeepsInv | packages/trace/src/trace-buffer.ts:55-70 | an append keeps the cache a gap-free end of the log that never lost an unsaved record |
| TraceCache.MarkPersistedKeepsInv | packages/trace/src/trace-buffer.ts:119-129 | an acknowledgement keeps the same invariant |
| TraceCache.SinceSkipsNothing | packages/trace/src/trace-buffer.ts:137-141 | reading from a cursor that is not before the cache gives every record of the log above it |
| TraceCache.RunKeepsInv | packages/trace/src/trace-buffer.ts:55-141 | over any sequence of appends and acknowledgements the cache stays a gap-free end of the log |
| TraceCache.HeldCacheForgetsOnlySaved | packages/trace/src/trace-buffer.ts:114-129 | once unsaved records are held, whatever is forgotten later was acknowledged as saved, and the cache is over capacity only while its oldest record is unsaved |
| Recording.RunRecorder.OnHeaderStored | packages/trace/src/recorder.ts:227-235 | what was held goes out in order, items first, then one batch |
| Recording.RunRecorder.OnEnqueue | packages/trace/src/recorder.ts:241-252 | an item is sent, or waits for the header, or is refused when the recorder takes none |
| Recording.RunRecorder.OnCollect | packages/trace/src/recorder.ts:258-279 | new records are filtered, redacted, added to the held ones and the panel, and flushed when the header is stored |
| Recording.RunRecorder.FlushHeld | packages/trace/src/recorder.ts:281-293 | one batch of what is held; when nothing is held, under way or sent, no batch but the saved head moves on to this tick |
| Recording.RunRecorder.OnPersisted | packages/trace/src/recorder.ts:296-303 | a head of the run that is not behind the last releases every batch it covers and frees the cache; any other changes nothing |
| Recording.RunRecorder.OnTakePanel | packages/trace/src/recorder.ts:306-310 | the panel's records are handed over and the list starts anew |
| Recording.RunRecorder.Backlog | packages/trace/src/recorder.ts:205-213 | the sums over the batches under way and the held records, computed by a loop |
| Recording.RunRecorder.RefreshWaiting | packages/trace/src/recorder.ts:220-224 | waiting begins at a high mark and ends at both low marks |
| RecordingSystem.StepKeeps | packages/trace/src/recorder.ts:176-310 | every step of recorder, channel, store and reports keeps the protocol's invariant |
| RecordingProtocol.ReachableInv | packages/trace/src/recorder.ts:176-310 | the invariant holds in every reachable state, whatever the interleaving |
| RecordingProtocol.ExactlyOnceInOrder | packages/trace/src/recorder.ts:227-310 | in every reachable state store, channel, held and ungathered records together are exactly the kept records emitted, in order; the same for the panel and for items |
| RecordingProtocol.ReportedIsStored | packages/trace/src/recorder.ts:296-303 | every kept record up to an accepted persisted head is in the store |
| RecordingProtocol.BacklogExact | packages/trace/src/recorder.ts:205-224 | the backlog counts exactly the kept records above the saved head, also when batches share a number |
| RecordingBytes.StepLoads | packages/trace/src/recorder.ts:176-310 | every step keeps it that a batch under way weighs its records and the items sent since the batch before, and that an item stands behind every batch without its record and before the next that has it |
| RecordingBytes.BacklogBytesAre | packages/trace/src/recorder.ts:205-213 | in every reachable state the backlog's bytes are those of the kept records not released and of the items sent behind the released batches or still held |
| RecordingBytes.BytesExactWhen | packages/trace/src/recorder.ts:205-303 | they are the bytes no report has covered exactly when no batch between the last reported and the first under way carries item bytes; they are never more |
| RecordingBytes.ReferringItemsAreExact | packages/trace/src/recorder.ts:241-303 | a caller whose items with bytes all refer to a record still to be gathered has exact bytes in every reachable state |
| RecordingProtocol.WaitFollowsMarks | packages/trace/src/recorder.ts:215-224 | not waiting implies below both high marks, waiting implies above a low mark, in every reachable state |
| RecordingProtocol.WaitEnds | packages/trace/src/recorder.ts:281-303 | with the header stored, after a collect storage alone ends the wait in a bounded number of commits and reports, however it groups them |
| RecordingProtocol.ItemWaitsForCollect | packages/trace/src/recorder.ts:241-252 | without that collect the wait need not end: an item alone can hold it (a concrete way) |
| RecordingProtocol.ItemBytesReleasedEarly | packages/trace/src/recorder.ts:281-303 | a batch with items only shares its number with the one before, so its bytes are released before it is saved (a concrete run) |
| RecordingProtocol.ItemsBeforeTheirRecords | packages/trace/src/recorder.ts:227-293 | an item is sent, and committed, no later than the batch with the records that refer to it |
| RecordingSystem.ReportOfKeeps | packages/storage/src/worker/recorder-ingest.ts:37-58 | a report of the last batch of a commit, however many batches it covers, keeps the invariant |
| Polygons.IntersectMeansShare | packages/scenarios/src/validate.ts:224-246 | the intersection test is true exactly when the closed segments share a point, collinear and degenerate ones included |
| Polygons.IsSimplePolygon | packages/scenarios/src/validate.ts:250-276 | true exactly for at least three corners, area, no empty edge, and no two edges that are not neighbours sharing a point |
| Polygons.StartMakesNoDifference | packages/scenarios/src/validate.ts:250-276 | the answer is the same from whichever corner the list starts |
| Zones.PointInPolygon | packages/spatial/src/zones.ts:28-40 | the toggling loop is the parity of the edges crossed by the half-line to the right |
| Zones.CrossedLineParity | packages/spatial/src/zones.ts:28-40 | a closed cycle of corners crosses a horizontal line an even number of times |
| Zones.OutsideBoxIsOutside | packages/spatial/src/zones.ts:71-76 | a point outside a box around the polygon is not inside the polygon |
| Zones.RectIsHalfOpen | packages/spatial/src/zones.ts:15-40 | of a rectangle the left and lower sides are in, the right and upper ones out |
| Zones.ZoneSet.Make | packages/spatial/src/zones.ts:47-69 | accepted exactly when no two zones share an id and each has at least three corners; then they are kept sorted by id with their boxes; otherwise the error tells of the first zone that cannot be taken, its id looked at first |
| Zones.ZoneSet.BoundsOf | packages/spatial/src/zones.ts:47-69 | the box is around every corner, and inside every other box that is |
| Zones.ZoneSet.Contains | packages/spatial/src/zones.ts:71-76 | the box test changes nothing: the answer is that of the polygon alone |
| Zones.ZoneSet.ZonesAt | packages/spatial/src/zones.ts:79-85 | exactly the zones that hold the point, of the asked kind, in order |
| Zones.ZoneSet.IsNoFly | packages/spatial/src/zones.ts:88-96 | true exactly when some no-fly zone holds the point within its height band |
| Zones.ZoneSet.OutsideGeofence | packages/spatial/src/zones.ts:99-107 | true exactly when there are geofences and none holds the point |
| Zones.SortedZones | packages/spatial/src/zones.ts:47-69 | the zones kept are those given, in the order of their ids |
| Raycast.Walk | packages/spatial/src/raycast.ts:45-70 | the walk ends; before the returned distance the ray meets the interior of visited, unblocked cells only; a hit cell is blocked and holds the point at the distance; without a hit nothing blocked is met in range; the visited cells are a path over shared edges, each touched by the ray |
| Raycast.Raycast2d | packages/spatial/src/raycast.ts:20-70 | for any direction: none asks nothing, a blocked start is a hit at once, otherwise the walk along the unit direction |
| Raycast.LineOfSight | packages/spatial/src/raycast.ts:77-83 | true means no blocked cell's interior is met on the segment, false that the segment touches a blocked cell |
| Raycast.StepKeeps | packages/spatial/src/raycast.ts:51-61 | after a step the coordinate is on the closure of the next stretch and its next crossing is its next border |
| Raycast.StartInv | packages/spatial/src/raycast.ts:45-50 | at the start each coordinate's first crossing is the border ahead of it |
| Raycast.FreeUntil | packages/spatial/src/raycast.ts:51-70 | up to the next crossing the ray meets the interior of the current cell only |
| SpatialHashing.SpatialHash.Put | packages/spatial/src/spatial-hash.ts:22-35 | the entity is where it was put, in its bucket and no other, and no other has moved |
| SpatialHashing.SpatialHash.Remove | packages/spatial/src/spatial-hash.ts:37-42 | the entity is gone from the table and its bucket |
| SpatialHashing.SpatialHash.QueryRadius | packages/spatial/src/spatial-hash.ts:49-72 | the ids found are sorted, each once, all within the radius and none excluded, and none within the radius in the grid is missed |
| SpatialHashing.SpatialHash.InGridIsExact | packages/spatial/src/spatial-hash.ts:49-72 | for an entity inside the bucket grid being found is exactly being within the radius and not excluded |
| SpatialHashing.DiscInRectangle | packages/spatial/src/spatial-hash.ts:49-58 | an entity within the radius stands in a bucket of the searched rectangle |
| SpatialHashing.KeyUnique | packages/spatial/src/spatial-hash.ts:17-19 | inside the grid two buckets never share a key |
| FilterScan.Scan | packages/trace/src/filter.ts:58-84 | the loop gives the tokens of the character-by-character reading and where a quote was left open |
| FilterScan.TokensAreSlices | packages/trace/src/filter.ts:58-84 | tokens are exact slices of the text, in order, and only white space stands between them |
| FilterScan.ScanJoined | packages/trace/src/filter.ts:58-84 | scanning two texts joined by a space is the first scan and the second shifted, when the first leaves no quote open |
| FilterScan.Unquote | packages/trace/src/filter.ts:120-135 | the loop takes off the quotes and the backslashes, or tells which of the three errors it meets |
| FilterScan.QuoteRoundTrip | packages/trace/src/filter.ts:120-135 | any text escaped and quoted is unquoted to itself |
| FilterScan.QuotedIsOneToken | packages/trace/src/filter.ts:58-84 | a key with a quoted value is one token, whatever the value |
| Filters.ParseFilter | packages/trace/src/filter.ts:233-251 | the limits, the first bad term and the first term that does not fit the target, in that order, or the terms with their target |
| Filters.JoinedParse | packages/trace/src/filter.ts:233-252 | two filters of one target joined by a space parse to the terms of the first and then the second, within the limits |
| Filters.JoinedMatchesBoth | packages/trace/src/filter.ts:261-323 | the joined filter matches a record, or a sample, exactly when both do |
| Filters.TextParsesBack | packages/trace/src/filter.ts:120-252 | a text of 1 to 200 characters, escaped and quoted, parses to a term that holds it |
| Filters.MinusInverts | packages/trace/src/filter.ts:154-323 | a term with a minus matches exactly what the term without it does not |
| LiveViews.LiveSubscriptions.Subscribe | packages/storage/src/live-subscriptions.ts:76-84 | accepted exactly for a new, well-formed view below the limit with a filter that parses; then it starts empty, last in the order; otherwise the first of the four errors, and no change |
| LiveViews.LiveSubscriptions.ChangeFilter | packages/storage/src/live-subscriptions.ts:87-101 | a known view with a filter that parses drops what waited and counts anew; otherwise the one of the two errors, and nothing changes |
| LiveViews.LiveSubscriptions.Unsubscribe | packages/storage/src/live-subscriptions.ts:103-109 | tells whether the view was there; it is gone, and the others keep their order |
| LiveViews.LiveSubscriptions.OfferRecords | packages/storage/src/live-subscriptions.ts:112-125 | every subscription takes the records that match it and arms its timer, the others are left alone |
| LiveViews.LiveSubscriptions.OfferSamples | packages/storage/src/live-subscriptions.ts:128-141 | the same for metric samples |
| LiveViews.LiveSubscriptions.FireTimer | packages/storage/src/live-subscriptions.ts:153-180 | the timer is disarmed and what waits is pushed |
| LiveViews.LiveSubscriptions.FlushNow | packages/storage/src/live-subscriptions.ts:144-146 | every subscription pushes what it holds, in the order they were made |
| LiveViews.NextKeeps | packages/storage/src/live-subscriptions.ts:112-180 | each event adds exactly its matches to what is counted out and what waits, and what waits has a timer |
| LiveViews.MatchesConserved | packages/storage/src/live-subscriptions.ts:76-180 | over any life of a subscription what was counted out and what waits is the number of matching items offered since it began or changed; what waits always has a timer |
| LiveViews.PushesSpaced | packages/storage/src/live-subscriptions.ts:153-180 | without a flush two pushes of a subscription are at least the interval apart |
| LiveViews.PushGap | packages/storage/src/live-subscriptions.ts:144-180 | in any life a timer's push follows the push before it by less than the interval only when that one was a flush under the same timer, which is then due within an interval of the flush; after any other push the gap is at least the interval |
| LiveViews.FlushBreaksSpacing | packages/storage/src/live-subscriptions.ts:76-180 | it does so in a life that begins with the subscription: two pushes at one instant |
| LiveViews.PickSpreads | packages/storage/src/live-subscriptions.ts:162-170 | a sampled batch shows exactly the cap, at strictly increasing, evenly spaced positions from the first; a smaller one shows everything |
| PlanQueries.PlanQueryIndex.Ingest | apps/lab/src/panels/plan-queries.ts:146-165 | for any list in the order of its numbers: after it the rows are those of a rescan of all that was read, the new part being what is beyond the cursor, or the whole list after a reset; the agents returned are exactly those the new part touches, which is every changed one but exactly those a reset left without rows |
| PlanQueries.WindowsAreRead | apps/lab/src/panels/plan-queries.ts:146-165 | of windows of a log, grown or cut at their front, what was read is one stretch from where reading began to the last window's end, while they leave no gap; a window that ends earlier is read afresh |
| PlanQueries.BeginningsAreRead | apps/lab/src/panels/plan-queries.ts:146-165 | when the lists are beginnings of one log a run, what was read is the list given last, whatever was ingested before |
| PlanQueries.PlanQueryIndex.Queries | apps/lab/src/panels/plan-queries.ts:168-175 | what is returned, from the cache or not, is what a rescan of what was read gives, in the order the queries started |
| PlanQueries.PlanQueryIndex.Apply | apps/lab/src/panels/plan-queries.ts:184-232 | one record changes or begins the row of its query, and tells whether it did |
| PlanQueries.PlanQueryIndex.ReadOn | apps/lab/src/panels/plan-queries.ts:154-162 | walking back to the cursor and reading on from there adds just the records beyond it, and changes only rows of the agents returned |
| PlanQueries.TableTells | apps/lab/src/panels/plan-queries.ts:184-232 | each row says what its query's records say: restarts and legs in order, the count of interruptions, the status and plan of the last record that decides them; one row a query, in the order they started |
| PlanQueries.ResetForgetsAgents | apps/lab/src/panels/plan-queries.ts:145-165 | after a reset an agent that had rows and has none is not among those returned, exactly when records touched it before and none does now; the comment promises every changed agent |
| PlanQueries.NotReturned | apps/lab/src/panels/plan-queries.ts:145-165 | an agent's rows change and it is not among those returned exactly when the list starts anew, records touched it before and none of the list does |
| PlanQueries.EmptyListForgets | apps/lab/src/panels/plan-queries.ts:145-152 | any list that touches an agent and then the empty one: nothing is returned and its rows are gone (a concrete way) |
| PlanQueries.FoldOn | apps/lab/src/panels/plan-queries.ts:154-162 | agents no new record touches keep their rows |
| SqlStatements.SplitStatements | packages/storage/src/sql-console.ts:72-114 | the scanner gives the statements of the text's lexemes |
| SqlStatements.LexemesCover | packages/storage/src/sql-console.ts:77-111 | the lexemes cover the text; a line comment runs to the end of its line, a block comment to its first end, a quote to its first closer that is not doubled |
| SqlStatements.SplitsAtSemicolons | packages/storage/src/sql-console.ts:72-114 | the statements are what stands between the semicolons outside quotes and comments, without comments, trimmed, blank ones left out |
| SqlStatements.SplittingIsStable | packages/storage/src/sql-console.ts:72-114 | each statement found is, split again, just itself |
| SqlStatements.QuoteEnds | packages/storage/src/sql-console.ts:86-102 | a quote ends at its first closer that is not doubled, or is open to the end |
| SqlConsoles.SqlConsole.Slice | packages/storage/src/sql-console.ts:226-255 | a slice steps only under the guards, leaves them off, and gathers a front of the statement's rows |
| SqlConsoles.SqlConsole.StepAll | packages/storage/src/sql-console.ts:223-259 | however the slices fall the result is the first rows up to the limit and whether there are more; the guards are off at every yield; it ends |
| SqlConsoles.SqlConsole.Execute | packages/storage/src/sql-console.ts:181-267 | a result has the columns of a readable statement, its first rows within the limit and the time the clock showed; an error has one of the listed causes; the statement is closed and the guards are off afterwards |
| SqlConsoles.SqlConsole.Run | packages/storage/src/sql-console.ts:159-179 | only a single statement that begins with a reading word runs, and returns its columns, rows and time; every refusal in its order; the console is free again afterwards |
| Base64.ToBase64 | packages/spatial/src/codec/chunk-rle.ts:17-30 | the loop writes the base64 text of the bytes |
| Base64.FromBase64 | packages/spatial/src/codec/chunk-rle.ts:32-54 | the loop reads it, and refuses any other length or letter, and padding that is not at the end |
| Base64.Base64RoundTrip | packages/spatial/src/codec/chunk-rle.ts:17-54 | what is written reads back, whatever the bytes, and takes four letters for every three bytes begun |
| ChunkRle.EncodeChunkRle | packages/spatial/src/codec/chunk-rle.ts:57-75 | the loops write the run lengths and values of a chunk |
| ChunkRle.DecodeChunkRle | packages/spatial/src/codec/chunk-rle.ts:78-108 | the reader fills the cells of a chunk, or tells which of the six errors it meets first |
| ChunkRle.DecodedFits | packages/spatial/src/codec/chunk-rle.ts:78-108 | whatever text it is given, what it accepts is exactly as many cells as asked for, each within the width |
| ChunkRle.VarintReads | packages/spatial/src/codec/chunk-rle.ts:65-70 | a run length reads back with what stands behind it |
| ChunkRle.NotTooLong | packages/spatial/src/codec/chunk-rle.ts:79-82 | the size check never refuses an encoding |
| ChunkRle.ChunkRoundTrip | packages/spatial/src/codec/chunk-rle.ts:57-108 | a chunk written reads back as its values, each cut to its width |
| Priors.EncodePriorKnowledge | packages/scenarios/src/encode.ts:34-62 | the nested loops emit the chunks of the tiles row by row: none for an unknown tile, a fill for a uniform one, run lengths for any other |
| Priors.FillTile | packages/scenarios/src/encode.ts:42-53 | the buffer holds the tile, unknown beyond the map, with whether it is uniform and what it begins with |
| Priors.EncodedIsProper | packages/scenarios/src/encode.ts:34-62 | the chunks are row-major, each at most once and inside the grid, so the chunk rules accept them |
| Priors.CheckChunks | packages/scenarios/src/validate.ts:196-204 | accepted exactly when every chunk is inside the grid and none comes twice; otherwise the first that is not, and why |
| Priors.DecodeLayer | packages/scenarios/src/load.ts:189-231 | each cell is what the last chunk over it says, or as absent chunks are; refused exactly at the first chunk that does not decode or holds too large a value |
| Priors.PriorRoundTrip | packages/scenarios/src/load.ts:189-231 | a prior map survives tiling, whatever its size and the size of its chunks, partial edge chunks included |
| Priors.TileAndBack | packages/scenarios/src/encode.ts:34-62 | writing and reading one after the other gives the original array |
| ResimRefs.UnresolvedReferences | apps/lab/src/sim/resim-refs.ts:23-44 | the two passes give what is asked for and not answered |
| ResimRefs.MakeCopies | apps/lab/src/sim/resim-refs.ts:51-70 | the first record of each number, copied, in the order of the numbers |
| ResimRefs.CopiesAre | apps/lab/src/sim/resim-refs.ts:51-70 | copies have rising numbers, one for every number found, each the copy of a record found |
| ResimRefs.CompleteReferences | apps/lab/src/sim/resim-refs.ts:77-99 | the rounds give the copies of the recursive reading, sorted, with what they leave unanswered |
| ResimRefs.CopiesFitTheWindow | apps/lab/src/sim/resim-refs.ts:77-99 | whatever the parent answers, the copies have rising, distinct numbers, none of them the window's, and `unresolved` is exactly what copies and window leave unanswered |
| ResimRefs.ShortChainsComplete | apps/lab/src/sim/resim-refs.ts:77-99 | if the parent answers every reference the window does not answer itself, and no chain of such references over different records is longer than eight, nothing is left unresolved, circles or not |
| ResimRefs.OneRoundFurther | apps/lab/src/sim/resim-refs.ts:77-99 | what is unresolved after a round is asked for by a record that round brought, one hop further on |
| ResimRefs.InsideReferences | apps/lab/src/sim/resim-refs.ts:77-99 | a window whose second record refers to its first and its first to the parent is complete after asking the parent for one record (a concrete window) |
| Paging.ReadAll | packages/storage/src/run-bundle.ts:77-82 | reading page by page gives every stored item behind the cursor, once, in order, and ends |
| Paging.BehindElement | packages/storage/src/ports.ts:277-279 | what a query continued after an item selects is what follows it |
| Replay.ReplayRunSource.LoadTo | apps/lab/src/sim/replay-run-source.ts:244-264 | after any move of the cursor the list is the end of the stored records told up to it, and all of them exactly when they fit and nothing was cut before |
| Replay.ReplayRunSource.PartOf | apps/lab/src/sim/replay-run-source.ts:244-253 | what going back keeps is a gap-free part of what is told, ending at the new cursor |
| Replay.ReplayRunSource.LoadPosesAround | apps/lab/src/sim/replay-run-source.ts:266-306 | afterwards the window of poses begins at or before the cursor and reaches it exactly when the head does, and in it each agent's samples are the stored ones |
| Replay.ReplayRunSource.Refresh | apps/lab/src/sim/replay-run-source.ts:199-306 | both, after every completed refresh at the clamped cursor, also when the log grew behind the poses loaded |
| Replay.Replayed | apps/lab/src/sim/replay-run-source.ts:199-306 | a replay opened with the end of what is recorded, after any moves of the cursor and growth of the log: the list is the end of what is told up to the cursor, all of it while it never was more than a list may hold, and the cursor has the stored poses around it |
| Replay.Extend | apps/lab/src/sim/replay-run-source.ts:295-302 | later samples are added and those too far behind dropped; what is in reach of the cursor is kept |
| Replay.UptoIsSelected | packages/storage/src/ports.ts:12-34 | the records told up to the cursor are exactly those a query with that end selects |
| Replay.LastAtOrBefore | apps/lab/src/sim/replay-run-source.ts:545-557 | the binary search finds the last sample at or before the cursor |
| Replay.ShownIsStored | apps/lab/src/sim/replay-run-source.ts:309-319 | the sample shown is the last stored one, when that is in the window |
| Replay.HeadOf | apps/lab/src/sim/replay-run-source.ts:560-570 | the time of the last record is found from the count on, also when numbers skip |
| BeliefFrames.ReadAgent | packages/storage/src/run-bundle.ts:97-108 | all frames of an agent are read, exactly when no tick holds a full page of them with others behind it; otherwise those up to the end of the first such page |
| BeliefFrames.ReadFrames | packages/storage/src/run-bundle.ts:92-109 | agent by agent in the order of the keyframes; all of an agent's exactly when it has no frame, or a keyframe among the first page of keyframes and no such tick |
| BeliefFrames.StallShown | packages/storage/src/run-bundle.ts:97-108 | a page of frames and one more at one tick: the one more is not read (a concrete agent) |
| BeliefFrames.OnePage | packages/storage/src/run-bundle.ts:97-108 | a page brings what is behind the frames already read |
| RunFiles.BundleToJsonl | packages/storage/src/run-bundle.ts:271-281 | the lines of the bundle in their order, each on its own line, bytes as base64 |
| RunFiles.BundleFromJsonl | packages/storage/src/run-bundle.ts:284-331 | the file is read line by line into a bundle, or the first error of the listed ones |
| RunFiles.FileRoundTrip | packages/storage/src/run-bundle.ts:271-331 | with JSON text that carries the lines of this file, a bundle written reads back as itself, absent metrics as empty, exactly when its header is one and it is within the limits; otherwise the error tells which |
| Atob.Base64ToBytes | packages/storage/src/run-bundle.ts:62-67 | the bytes of base64 as the platform reads it: white space passed over, padding not asked for, anything else refused |
| Atob.BlanksPass | packages/storage/src/run-bundle.ts:62-67 | white space anywhere in the text makes no difference |
| Atob.ForgivenRoundTrip | packages/storage/src/run-bundle.ts:56-67 | what is written of bytes is read as them |
| RunFiles.LinesOfJoined | packages/storage/src/run-bundle.ts:280-287 | splitting what was joined gives the lines back, and the empty one behind the last |
| RunRenaming.RewriteUndone | packages/storage/src/run-bundle.ts:202 | the renaming of an ID can be undone exactly when the ID named the old run, did not name the new one, or both are the same |
| RunRenaming.RewriteInjective | packages/storage/src/run-bundle.ts:202 | on IDs that do not name the new run it is one-to-one |
| RunRenaming.EdgeExact | packages/storage/src/run-bundle.ts:202-241 | a record names another after the renaming, as its parent or at a place of its causes, exactly when it did before or by a stray reference: to that number of the new run, and not of the old |
| RunRenaming.EdgesKeptWhen | packages/storage/src/run-bundle.ts:241 | every parent and cause edge of a run is kept and none is made, exactly when no record has a stray reference to a number of the run |
| RunRenaming.StraysAre | packages/storage/src/run-bundle.ts:202 | with run IDs without a number sign a stray reference is just one to that number of another, new run |
| RunRenaming.StrayGainsAnEdge | packages/storage/src/run-bundle.ts:202-241 | a record that refers to record 0 of the run it becomes is given record 0 of its own run as parent (a concrete import) |
| RunRenaming.RecordsCarried | packages/storage/src/run-bundle.ts:241-245 | the records written are those of the bundle in the order of their numbers, each with the ID of its number in the new run, and nothing else of them changed but what they refer to |
| RunRenaming.CarriedBack | packages/storage/src/run-bundle.ts:241 | renamed back they are what they were, exactly when what they refer to can be |
| RunBundles.Database.BundleProblem | packages/storage/src/run-bundle.ts:160-196 | the problem a bundle is refused for, its parts looked at in this order: the header, its recording, a record that is not the run's, two of one number, time that goes back, the inputs, and a recording whose parts are malformed, out of order, too many, or refer to a blob or group that is not there |
| RunBundles.Database.ScenarioVersion | packages/storage/src/run-bundle.ts:213-226 | the first version with the same content is reused and nothing saved; when there is none, one more is saved behind the others |
| RunBundles.Database.WriteRunBundle | packages/storage/src/run-bundle.ts:209-266 | on success one run more, under an ID never given before, is the bundle renamed; on failure no run has come and none changed, and the error is the bundle's problem or a failed write; while no write fails it succeeds exactly for a bundle without a problem whose header refers to a stored scenario and whose samples do not repeat |
| RunBundles.Database.ReadRunBundle | packages/storage/src/run-bundle.ts:72-140 | header, scenario, inputs, records, snapshots and metrics are read whole and in the store's order, the frames as their reading gives them, and just the blobs these refer to; broken exactly when the blob of a frame it reads, or a group of a manifest it opens, is not stored |
| RunBlobs.GatherSections | packages/storage/src/run-bundle.ts:84-90 | exactly the sections of the snapshots that are stored |
| RunBlobs.GatherFrames | packages/storage/src/run-bundle.ts:116-128 | exactly what was there, the blobs of the frames, and the groups of the manifests opened; fails exactly when one of these is not stored |
| RunBlobs.GroupLeftOut | packages/storage/src/run-bundle.ts:116-128 | a group is left out exactly when it is no section and no manifest and no opened manifest names it; then every manifest that names it came as a section of a snapshot or as a group of another |
| RunBlobs.GroupLost | packages/storage/src/run-bundle.ts:116-128 | a keyframe whose manifest is a section too: its group is left out (a concrete run) |
| RunImports.SnapshotsCarried | packages/storage/src/run-bundle.ts:249-252 | the snapshots listed are the bundle's, one for each content; all of them when their contents differ |
| RunImports.AllFramesRead | packages/storage/src/run-bundle.ts:92-109 | of an imported run all frames of an agent with a keyframe are read, and none of another |
| RunImports.BundleFramesRead | packages/storage/src/run-bundle.ts:92-109 | what is read of an imported run's frames is, in the store's order, all frames of the agents with a keyframe |
| RunImports.DeltaManifest | packages/storage/src/run-bundle.ts:116-194 | a bundle of a keyframe and a frame that is none but names a manifest whose group is missing: it has the recording a bundle must have, all its frames are read, and it does not come back (a concrete bundle) |
| RunImports.WriteThenRead | packages/storage/src/run-bundle.ts:72-266 | written and read again, into a database that gives it the same ID or another, a bundle is the same run: header, inputs, renamed records, snapshots, samples, scenario content, the frames of every agent with a keyframe, and the blobs these refer to; renamed back the records are the bundle's, and their edges the same, exactly when the renaming lemmas say; while no write fails it comes back exactly when it has no problem, is taken, and holds the blobs of its frames that are read and the groups of the manifests opened among them |
| RunExchange.ExportRunJsonl | packages/storage/src/run-bundle.ts:334-337 | exported exactly when the run is there and its blobs are stored; then the file is that of the bundle read |
| RunExchange.ImportRunJsonl | packages/storage/src/run-bundle.ts:340-343 | a file that does not read as a bundle changes nothing and gives its error; any other is written as a new run |
| RunExchange.ExportThenImport | packages/storage/src/run-bundle.ts:334-343 | a run exported and imported, into another database or its own: the file is refused exactly when it is past a limit or its header is none; while no write fails the run is added exactly when the bundle has no problem and is taken; its records are the run's, renamed, and its inputs and header the same |

## Left out

- Floating-point rounding: lengths, times and coordinates are exact reals. A length that the program takes as a square root is a
  parameter with the right square; a search for a minimum that starts at infinity starts at the first corner.
- Time, timers and the network: clocks and due times are parameters, a timer fires when it is due, ports answer at once.
- Shared, mutable subscription objects, rows and samples are values in the maps that hold them; identity of a cached array is not
  modelled, its contents are. A map whose order matters is a sequence of its entries.
- Strings are sequences of characters, not of UTF-16 units; shifts and masks are written as division and remainder.
- JSON text is a pair of functions, which undo each other on the lines of the file at hand; error wording, hashes, and the schemas of headers and payloads are left out
  or are parameters. A payload's number is never infinite.
- `wallTime` and other wall-clock fields of a trace record.
- Storage that refuses a batch (`rejected` in packages/storage/src/worker/recorder-ingest.ts): the protocol's store accepts what it is sent.
- TraceBuffer's degradation and backpressure records, which are ordinary appends, and its by-kind reader.
- The vocabularies of filter terms (which kinds, detectors and metrics there are) are a parameter; hints for a bad term are left out.
- SpatialHash's refusal of a bucket size that is not positive is a precondition of its constructor.
- Zone kinds beyond those asked about, and the renderer's use of zones.
- PlanQueries: the strategy view is kept as the payload value it is read from.
- SqlConsole's authorizer table, schema listing and error classification; an interrupt of the engine is a fault of a step.
- A prior's limit on its encoded size, and its metadata; `encodeLayer` of a grid, which uses the same chunk code.
- The three sets of unresolved references are one set of tagged references; the parent's reader is a function of what is asked.
- Replay refreshes run to completion one after another; trails, the status block, blending between poses and belief maps of the renderer
  are left out. An agent has one pose a time, and poses stored later are later than what was loaded of them.
- RunBundles.Database.BundleProblem: the shapes of header, recording, records, inputs, blobs (with their IDs), snapshots and frames are
  parameters, looked at where the program looks at them; what refers to what and the orders are modelled.
- RunBundles.Database.WriteRunBundle: a store's refusal is a failing write; undoing a failed import is taken to succeed, and the scenario version it
  may have saved stays.
- Saving a scenario keeps the bundle's content hash and name; its other checks are left out. A blob whose bytes do not fit its ID counts as
  not stored, a stored snapshot always opens, and the shape of a sample is checked with the failing writes.
- Panels, the shell, workers and message ports, SQLite and OPFS.
