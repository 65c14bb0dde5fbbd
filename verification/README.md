# cloud-vinyl, modelled

cloud-vinyl runs Varnish caches on Kubernetes: a tracer turns varnishlog output into spans, an
agent beside each varnishd loads and discards VCL, an operator pushes generated VCL to the pods,
and a proxy routes invalidations. This project models the stateful core of these parts and
proves what they keep over whole runs.

* **Parsing** (`Vsl`, `VslLines`, `VslGroups`, `VslParser`, `VslRoundTrip`, `VslStreams`). The
  parser is a heap of linked objects, proved to hold the tree a simple line machine describes.
  Printed forests parse back to themselves, and arbitrary text yields exactly its accepted lines.
* **Spans** (`Spans`, `SpanShape`, `SpanBuilder`, `Traceparents`, `Records`, `SpanRecords`). The
  builder's two walks are proved against a recursive specification, that against paths in the
  tree, and what each span says against the records it comes from.
* **Linking** (`VxidCaches`, `CacheRoom`, `Linking`, `LinkerRuns`, `LinkerLot`, `LinkerLinks`,
  `LinkerRestarts`, `LinkerOrder`, `LinkerCalls`, `LinkerFacts`). The class `Linker` is proved
  against a step machine, and each step told by records, cache and clock alone. Over every run
  groups leave exactly once, every link has an exported target, restart chains share a trace,
  and the order of two independent calls does not show in the output.
* **Export** (`Batching`, `Pipeline`). The queue is a state machine over every interleaving of
  producers, run loop and cancellation; with the linker it accounts for every span built.
* **VCL** (`Agents`, `AgentHistories`, `Operators`, `Pods`, `Clusters`, `Recovery`, `Convergence`,
  `RestartBounds`, `Refusals`). Lifecycle of loaded VCLs over pushes, validations, discards,
  failing commands and restarts; then runs of the operator against such agents: what its claims
  mean, how often pods are pushed to, how they recover, and exactly when a claim can be premature.
* **Proxy and status** (`Routers`, `Statuses`). Routing by host refines the log of requests and
  the set of registered caches; conditions and phase refine the history of calls.

`Wrappers` and `Text` hold shared datatypes and the string functions of the source's library.

`dafny verify dfyconfig.toml` checks the project.

## Where promise and code differ

* `internal/agent/admin.go:234-277`: the comment has rows of Varnish 6.0 fail. They do unless
  label columns follow the name: then the fifth word is reported as the name
  (`Agents.FourColumnListing`).
* `internal/controller/vcl_push.go:102-129`: a pod that answers "already loaded" counts as pushed.
  It has the VCL loaded, and where nothing is stuck it is on it exactly when the name was not due
  for discard (`AgentHistories.ReportedActiveExactlyWhen`). While activations work, this never goes
  wrong
  * with no varnishd restart and no pod leaving the ready set, exactly when names do not come back
    along a growing ready set (`Refusals.NeverRefusedExactlyWhen`);
  * with varnishd restarts only, exactly when there is at most one pod or the VCL does not depend on
    the ready set (`Refusals.NeverRefusedByRestartsExactlyWhen`);
  * with pods leaving the ready set because their agent restarts or their health check goes
    unanswered, exactly when the VCL does not depend on the ready set
    (`Refusals.NeverRefusedAtAllExactlyWhen`).

  A discard of that name that goes through, or a restart of varnishd, ends it
  (`Recovery.ClearExactlyWhen`, `Recovery.PrematureClaimEnds`).
* `internal/agent/admin.go:164-231`: the result of a scheduled discard is ignored, and the discard
  is lost when the agent restarts. Either way, as after an activation or listing that fails, a VCL
  stays loaded that is neither active nor scheduled (`Agents.FireTidyExactlyWhen`,
  `AgentHistories.ForgottenDiscardsStick`, `AgentHistories.FailedUseLeavesItLoaded`). Pushing it
  reports success and changes nothing (`Agents.StuckForGood`), until varnishd restarts. That this
  happens exactly then is `AgentHistories.StuckExactlyWhen`, and
  `Clusters.StuckExactlyWhenAbandoned` for the whole cluster.
* `internal/tracer/spans/spans.go:176-178`: the comment has a direct fetch win over one nested
  deeper. The walk is in pre-order, so it does exactly when nothing under an earlier sibling mints
  a trace (`SpanShape.DirectFetchTrace`, `SpanShape.NestedFetchWins`).
* `internal/tracer/export/batcher.go:90-130`: a span enqueued after the loop returned is neither
  exported nor counted (`Batching.LateSpanStranded`, `Batching.StrandedExactlyWhenLate`); the order of shutdown in
  `cmd/tracer/main.go` excludes it (`Batching.ShutdownLosesNothing`).

## Model

| member | source | states |
|---|---|---|
| `Linking.Linker.Build` | internal/tracer/spans/linker.go:295-346 | one call moves the linker exactly as the step machine does and returns exactly what that step releases, in order: overdue waiters, waiters resolved by this group, an overflow victim, the group itself unless it is parked; the outcome is that of this group alone |
| `Linking.Linker.constructor` | internal/tracer/spans/linker.go:213-222 | a new linker has empty caches of the given size and age, an empty lot and the default bounds |
| `Linking.Linker.ReleaseAgedParked` | internal/tracer/spans/linker.go:500-512 | exactly the groups parked longer than the limit leave, unlinked and counted as misses, the others stay in order |
| `Linking.Linker.ResolveParked` | internal/tracer/spans/linker.go:520-533 | exactly the waiters whose fetch is cached leave, each linked to it, the others stay in order |
| `Linking.Linker.DegradeRelease` | internal/tracer/spans/linker.go:540-544 | a group given up on leaves with the unlinked flag on its top span and one more miss |
| `Linking.Linker.RecordFetches` | internal/tracer/spans/linker.go:331-335 | every fetch span of the group is written to the fetch cache, in order, and nothing else changes; what is written is pinned by LinkClosure |
| `Linking.Linker.RecordRestartLinks` | internal/tracer/spans/linker.go:386-399 | every restart the group announces is written to the restart cache under the announced number |
| `Linking.Linker.Restitch` | internal/tracer/spans/linker.go:323-329 | a continuation is moved onto its original when that is cached, otherwise one miss is counted |
| `Linking.Linker.Park` | internal/tracer/spans/linker.go:485-495 | the newcomer goes to the back; a full lot gives up exactly its oldest group |
| `Linking.Linker.ResolveHit` | internal/tracer/spans/linker.go:427-451 | a hit is linked, parked or flagged; which of these, by cache and records, is CallFromRecords |
| `Linking.Linker.Flush` | internal/tracer/spans/linker.go:552-559 | the lot is emptied, every group in it leaves unlinked and is counted |
| `Linking.ReparentRestart` | internal/tracer/spans/linker.go:371-381 | the top span is hung on the original, and the old trace id is replaced throughout, read before the top is overwritten |
| `Linking.StepSound` | internal/tracer/spans/linker.go:295-346 | every call keeps both caches well formed, every parked group non-empty and the lot within its bound |
| `Linking.EmptyGroup` | internal/tracer/spans/linker.go:302-321 | the miss counted for a group without spans cannot happen, as the comment there claims |
| `LinkerRuns.StepConserves` | internal/tracer/spans/linker.go:295-346 | in one call, what leaves plus what is parked afterwards is what was parked before plus the group built |
| `LinkerRuns.ExactlyOnce` | internal/tracer/spans/linker.go:295-346 | over every run, released groups and parked groups are together the groups built, with multiplicity |
| `LinkerRuns.ExactlyOnceAfterFlush` | internal/tracer/spans/linker.go:552-559 | after a flush every group ever built has left exactly once and none is parked |
| `LinkerRuns.ReleasedIntact` | internal/tracer/spans/linker.go:457-475 | a group leaves with its length, order and lower spans untouched; its top span only gains attributes and links |
| `LinkerRuns.OutputSettles` | internal/tracer/spans/linker.go:427-451 | over every run, a group is linked or given up on exactly if it has a hit |
| `LinkerRuns.HitOutcome` | internal/tracer/spans/linker.go:457-475 | a released hit carries exactly one of link and unlinked flag, only on its top span; coalesced exactly if it began before its fetch ended |
| `LinkerRuns.CountersAddUp` | internal/tracer/spans/linker.go:295-346 | over every run, misses are the unlinked releases plus continuations without an original; parkings are the releases out of the lot plus its present size |
| `LinkerRuns.CountersAfterFlush` | internal/tracer/spans/linker.go:552-559 | the same balance at shutdown, with nothing left in the lot |
| `LinkerLot.StepKeepsLot` | internal/tracer/spans/linker.go:295-346 | each call at a later time keeps the lot in arrival order, without overdue or already resolvable groups |
| `LinkerLot.LotInvariantHolds` | internal/tracer/spans/linker.go:105-149 | so in every run of a new linker whose clock does not go back: at most 256 groups, none of which has waited more than ten seconds |
| `LinkerLot.WaiterReleased` | internal/tracer/spans/linker.go:520-533 | a waiter within its limit leaves, linked, with the first call that leaves its fetch cached |
| `LinkerLinks.FetchCacheIsLog` | internal/tracer/spans/linker.go:331-335 | after every run the fetch cache is the replay of all fetch spans built, in their final form |
| `LinkerLinks.LinkClosure` | internal/tracer/spans/linker.go:331-335 | every link of every run carries trace and span id of the latest fetch span built with the hit's number up to that call; the hit is flagged coalesced exactly if it began before that fetch ended |
| `LinkerLinks.FetchesAreExported` | internal/tracer/spans/linker.go:331-346 | once flushed, every fetch span built has been exported unchanged |
| `LinkerLinks.LinkTargetExported` | internal/tracer/spans/linker.go:427-466 | that fetch span, with these ids and this end, is itself among the exported spans |
| `LinkerRestarts.RestartCacheIsLog` | internal/tracer/spans/linker.go:386-399 | after every run the restart cache is the replay of all announcements |
| `LinkerRestarts.ContinuationJoins` | internal/tracer/spans/linker.go:323-329 | a continuation whose original is cached hangs on its top span, marked, and its spans move into that trace; all else stays |
| `LinkerRestarts.GroupExactly` | internal/tracer/spans/linker.go:323-381 | a group is moved exactly if it is a continuation whose original is cached at that time; spans of a foreign trace keep theirs; any other group stays as built |
| `LinkerRestarts.RestartChain` | internal/tracer/spans/linker.go:371-381 | restart chains of any length share one trace id and form one parent chain |
| `CacheRoom.LookupWritten` | internal/tracer/spans/linker.go:56-85 | with room in the cache a lookup within the ttl of a call sees that call's last write of the key |
| `CacheRoom.LookupAfter` | internal/tracer/spans/linker.go:56-85 | with room, after one call's writes any number leads to the last of them, else to what it led to before |
| `LinkerOrder.GroupUnaffected` | internal/tracer/spans/linker.go:323-329 | a call builds and stitches the same group before another call as after it, unless that one announces it or the entry comes or goes in between |
| `LinkerOrder.OneOrder` | internal/tracer/spans/linker.go:295-346 | what leaves and what stays over two calls, told only by what each number leads to once both are made |
| `LinkerOrder.InitiatorFirst` | internal/tracer/spans/linker.go:427-451 | initiator first: the waiter leaves with its own call, linked to the initiator's fetch |
| `LinkerOrder.WaiterFirst` | internal/tracer/spans/linker.go:485-533 | waiter first: it is parked, then leaves with the initiator's call, linked to the same fetch |
| `LinkerOrder.SameSettlement` | internal/tracer/spans/linker.go:105-133 | whichever of two independent calls comes first, whatever both fetch, hit or restart: the same groups leave, each settled the same way |
| `LinkerOrder.OrderingIndependence` | internal/tracer/spans/linker.go:105-133 | so the same spans are exported with the same links and flags; the same groups stay parked, and the very same lot unless a call waits for a third one's fetch |
| `LinkerOrder.OrdinaryRace` | internal/tracer/spans/linker.go:295-346 | two ordinary requests that race (different fetches, room in cache and lot, no age or ttl limit reached in between), the first without a hit, the second a waiter on a fetch of the first that is not cached, are independent |
| `LinkerOrder.PlainHitShowsOrder` | internal/tracer/spans/linker.go:427-451 | for a hit without a waiting-list record on the other call's fetch the order shows: unlinked before it, linked after it, so the two outputs differ unless another group has the same spans |
| `LinkerCalls.IdleCall` | internal/tracer/spans/linker.go:295-312 | a call that builds nothing gives up, in order, exactly the groups that have waited longer than the limit, counts each, and keeps the rest |
| `LinkerCalls.BuildingCall` | internal/tracer/spans/linker.go:295-346 | every other call, by hit, cache and clock alone: late groups leave unlinked, known ones linked, in lot order; then its own group leaves as it is, linked or unlinked, or goes to the back of the lot, which gives up its oldest if full; and the misses counted |
| `LinkerFacts.FactsFromRecords` | internal/tracer/spans/linker.go:354-365 | number, continuation, waiter and hit of a group exactly from its first Begin and Hit records and its waiting-list stamp |
| `LinkerFacts.HitExactlyWhen` | internal/tracer/spans/linker.go:427-436 | a group has hit v exactly if its first Hit record starts with v in decimal, zeros aside, within 64 bits |
| `LinkerFacts.KeysFromRecords` | internal/tracer/spans/linker.go:386-399 | the continuations announced are, in order, exactly those of the records that link a restart |
| `LinkerFacts.CallFromRecords` | internal/tracer/spans/linker.go:427-451 | from the records: a hit on a cached fetch leaves linked to it; otherwise a group with a readable waiting-list stamp is withheld, any other leaves flagged; without a hit it leaves as it is |
| `LinkerFacts.PrintedWait` | internal/tracer/spans/linker.go:427-451 | a waiting-list stamp makes a waiter exactly if its epoch can be read |
| `LinkerFacts.PrintedHit` | internal/tracer/spans/linker.go:427-436 | a printed Hit record names its fetch |
| `VxidCaches.VxidCache.constructor` | internal/tracer/spans/linker.go:40-49 | a new cache remembers nothing |
| `VxidCaches.VxidCache.Set` | internal/tracer/spans/linker.go:56-74 | front expiry, insertion and overflow eviction move the cache exactly as specified and keep ring and map in step |
| `VxidCaches.VxidCache.Get` | internal/tracer/spans/linker.go:78-85 | a lookup answers from the map and the age test alone |
| `VxidCaches.PutValid` | internal/tracer/spans/linker.go:56-74 | ring and map stay the same duplicate-free key set, never above capacity, also at capacity zero or below |
| `VxidCaches.LookupIsLatestWrite` | internal/tracer/spans/linker.go:78-85 | after any writes at any times, a hit returns the value of the latest write of its key, and that is within the ttl |
| `VxidCaches.CacheRefinesLog` | internal/tracer/spans/linker.go:40-85 | keys written once, clock not going back: a lookup succeeds exactly if the key is among the last `capacity` writes and young enough |
| `Traceparents.ParseOfFormat` | internal/tracer/spans/spans.go:95-111 | reading any printed header returns its ids and the sampled bit, whatever the version below ff |
| `Traceparents.FormatOfParse` | internal/tracer/spans/spans.go:95-111 | only printed headers are accepted: what is read is the print of some header, blanks around it aside |
| `Traceparents.ParseOfPadded` | internal/tracer/spans/spans.go:95-111 | blanks around a printed header do not matter |
| `SpanBuilder.CollectMinted` | internal/tracer/spans/spans.go:188-208 | the minted ids recorded are exactly those of the minting nodes below, and the first trace id is the first minted one in pre-order |
| `SpanBuilder.BuildChildren` | internal/tracer/spans/spans.go:259-338 | the spans below a node are appended in order and the id source advances by exactly the ids they draw |
| `SpanBuilder.BuildWithOutcome` | internal/tracer/spans/spans.go:146-240 | spans, outcome and ids drawn of one group, including every early return, against the specification that TopSpanIs, NodeSpanIs and OutcomeExactlyWhen describe |
| `SpanShape.SpanTreeShape` | internal/tracer/spans/spans.go:146-338 | for every tree: one span per node all of whose ancestors yield spans, in pre-order, top first; what each says is TopSpanIs and NodeSpanIs |
| `SpanShape.NodePathsVisible` | internal/tracer/spans/spans.go:259-338 | the listed nodes are exactly the visible ones |
| `SpanShape.NodePathsAscend` | internal/tracer/spans/spans.go:259-338 | they are listed in strict pre-order, so none twice |
| `SpanShape.VisibleIffAncestors` | internal/tracer/spans/spans.go:259-338 | a node is listed exactly if it and everything between it and the top are usable |
| `SpanShape.ParentEdge` | internal/tracer/spans/spans.go:259-338 | each span below the top is parented on the span of its own parent node, which comes before it |
| `SpanShape.SpanContents` | internal/tracer/spans/spans.go:146-338 | each span carries its node's number, the group's one trace id, no link, and its retry ordinal |
| `SpanShape.DepthIsRetryOrdinal` | internal/tracer/spans/spans.go:259-338 | the depth carried down is the number of fetches above the node |
| `SpanShape.SpanIds` | internal/tracer/spans/spans.go:210-338 | a span id is the one minted in the node's own header, else a drawn one; no draw serves two spans |
| `SpanShape.DrawsDiffer` | internal/tracer/spans/spans.go:259-338 | a later node never draws an earlier node's number, in any subtree |
| `SpanShape.NodeFirstMintIs` | internal/tracer/spans/spans.go:188-208 | the trace id found in a tree is that of its first minting node, or none mints |
| `SpanShape.AdoptedTrace` | internal/tracer/spans/spans.go:210-216 | the group's trace id is the incoming one, else the first minted, else a drawn one |
| `SpanShape.DirectFetchTrace` | internal/tracer/spans/spans.go:176-208 | a direct fetch that mints gives the group its trace exactly if nothing under an earlier sibling mints; otherwise the trace is minted there |
| `SpanShape.NestedFetchWins` | internal/tracer/spans/spans.go:176-208 | so a fetch under an ESI fragment wins over a direct fetch after it |
| `SpanRecords.OutcomeExactlyWhen` | internal/tracer/spans/spans.go:146-166 | spans are built exactly for a request with a start and an end whose readable trace header, if any, is sampled; unusable and unsampled exactly otherwise, in that order |
| `SpanRecords.TopSpanIs` | internal/tracer/spans/spans.go:210-238 | the top span has the caller's parent and trace if the last trace header is readable, no parent otherwise, the request's own times, and as its only mark the number of restart links |
| `SpanRecords.CallerIsParent` | internal/tracer/spans/spans.go:155-166 | from the text: a printed trace header, any case and blanks, is sampled if spans are built, and they hang under its parent in its trace |
| `SpanRecords.NodeSpanIs` | internal/tracer/spans/spans.go:259-338 | every other span: times, minted id and marks of its own node (retry ordinal, foreign minted trace, ESI), in the trace of the top span |
| `SpanRecords.RespEndExactlyWhen` | internal/tracer/spans/spans.go:352-363 | a request ends with its Resp stamp, else Restart, else PipeSess |
| `SpanRecords.RestartsAreCounted` | internal/tracer/spans/spans.go:368-378 | the restart count is the number of restart links among the records |
| `SpanRecords.MintExactlyWhen` | internal/tracer/spans/spans.go:188-208 | a fetch mints exactly the ids of its own readable header, unless that names the incoming parent |
| `SpanRecords.TraceFromRecords` | internal/tracer/spans/spans.go:188-216 | a trace id is drawn exactly if neither the request nor any node names one; else the first minting node in pre-order gives it |
| `SpanRecords.DrawsStayInside` | internal/tracer/spans/spans.go:210-338 | a drawn span id comes from the numbers this group advances the source by, so no later group repeats it |
| `SpanRecords.DrawsOneEach` | internal/tracer/spans/spans.go:210-338 | a group draws one span id for each of its spans whose node mints none, and no more; without spans it draws nothing |
| `Vsl.ScanFirst` | internal/tracer/vsl/vsl.go:120-127 | the payload of the first record with the tag |
| `Vsl.FindFirstIs` | internal/tracer/vsl/vsl.go:120-127 | what it returns is at an index before which nothing matches |
| `Vsl.ScanHeader` | internal/tracer/vsl/vsl.go:176-188 | one pass that keeps overwriting yields the last header of that name, ignoring case |
| `Vsl.FindLastIs` | internal/tracer/vsl/vsl.go:176-188 | what it returns is at an index after which nothing matches |
| `Records.FirstExactlyWhen` | internal/tracer/vsl/vsl.go:120-127 | a payload is answered exactly if the first record of that tag has it; none exactly if there is no such record |
| `Records.TimestampExactlyWhen` | internal/tracer/vsl/vsl.go:148-168 | a time is answered exactly if the first stamp of that label has a first word that reads as it |
| `Records.TimestampOfPrinted` | internal/tracer/vsl/vsl.go:148-168 | a printed stamp is read, whatever follows the epoch |
| `Records.HeaderExactlyWhen` | internal/tracer/vsl/vsl.go:176-188 | a header value is answered exactly if the last record that sets that name, cut at its first colon, sets it to that |
| `Records.HeaderOfPrinted` | internal/tracer/vsl/vsl.go:176-188 | a printed header is found under its name in any case, blanks around name and value aside |
| `VslLines.ClassifyHeader` | internal/tracer/vsl/vsl.go:31-34 | a header line is read back with depth, type and number, whatever the padding |
| `VslLines.ClassifyRecord` | internal/tracer/vsl/vsl.go:31-34 | a record line is read back with depth, tag and payload |
| `VslLines.LineExactlyWhen` | internal/tracer/vsl/vsl.go:31-34 | every line, exactly: blank if all blanks, a header or record only in that form with that depth, type, number (cut off at 64 bits), tag and payload |
| `VslLines.Classes` | internal/tracer/vsl/vsl.go:31-34 | the blanks and word characters of both expressions by code point |
| `Text.BlanksAndDigits` | internal/tracer/vsl/vsl.go:55-66 | the blanks of a blank line, and digits, by code point |
| `VslParser.Parser.constructor` | internal/tracer/vsl/vsl.go:46-51 | a new parser has nothing pending |
| `VslParser.Parser.OpenRoot` | internal/tracer/vsl/vsl.go:55-111 | a top-level header starts a pending tree of one object |
| `VslParser.Parser.OpenChild` | internal/tracer/vsl/vsl.go:55-111 | a deeper header is linked below the most recent object one level up, and no other object changes its children |
| `VslParser.Parser.Attach` | internal/tracer/vsl/vsl.go:55-111 | a record is appended to the most recent object of its depth only |
| `VslParser.Parser.Complete` | internal/tracer/vsl/vsl.go:55-111 | the pending tree is handed out and forgotten |
| `VslParser.Parser.Take` | internal/tracer/vsl/vsl.go:55-111 | one line does to the linked objects what the line machine does to the group, whatever the line |
| `VslParser.Parser.Next` | internal/tracer/vsl/vsl.go:55-111 | the next completed group, its objects linked as that group's tree; end and read error only when no group is left |
| `VslParser.ScanIsFirst` | internal/tracer/vsl/vsl.go:55-111 | repeated calls return the groups of the text one by one |
| `VslParser.ReadAll` | cmd/tracer/supervise.go:74-87 | the supervisor's loop receives every group of the text, and no tree changes after it was handed out |
| `VslParser.ByLevelIsRightmost` | internal/tracer/vsl/vsl.go:55-111 | the parser's level stack is the rightmost path of the pending tree |
| `VslParser.RepresentsUnfolds` | internal/tracer/vsl/vsl.go:21-29 | following the children of an object handed out reads exactly the group's tree |
| `VslGroups.SpineExists` | internal/tracer/vsl/vsl.go:55-111 | every depth up to the current one has a most recent node with only deeper ones after it |
| `VslGroups.SpineIsRightmost` | internal/tracer/vsl/vsl.go:55-111 | each entry of that path is the last child of the one before |
| `VslGroups.AppendKids` | internal/tracer/vsl/vsl.go:55-111 | an accepted header becomes the last child of exactly one node |
| `VslGroups.FeedWellLevelled` | internal/tracer/vsl/vsl.go:55-111 | no line makes a pending group skip a level, and only the pending group is ever completed |
| `VslRoundTrip.TreeOfFlat` | internal/tracer/vsl/vsl.go:55-111 | a tree printed at any depth between any other nodes is read back as that tree |
| `VslRoundTrip.ReadForest` | internal/tracer/vsl/vsl.go:55-111 | the text of a forest is read as its flattened trees, group by group |
| `VslRoundTrip.PrintParseRoundTrip` | internal/tracer/vsl/vsl.go:55-111 | printing any forest of well-formed trees and parsing the text returns that forest |
| `VslRoundTrip.ReadPrinted` | internal/tracer/vsl/vsl.go:55-111 | the same for the running parser: the objects it hands out unfold to the trees that were printed |
| `VslStreams.NodesAreAcceptedLines` | internal/tracer/vsl/vsl.go:55-111 | for arbitrary line streams, the groups are the accepted headers in order, each with exactly its own records |
| `VslStreams.OneGroupPerTopHeader` | internal/tracer/vsl/vsl.go:55-111 | one group per top-level header, completed or pending |
| `VslStreams.ReturnedGroups` | internal/tracer/vsl/vsl.go:55-111 | the groups returned for arbitrary text hold exactly its accepted headers and records |
| `Batching.Batcher.constructor` | internal/tracer/export/batcher.go:69-77 | an empty queue of the given length |
| `Batching.Batcher.Enqueue` | internal/tracer/export/batcher.go:81-87 | a span is queued, or dropped and counted when the queue is full |
| `Batching.Batcher.FlushBuffer` | internal/tracer/export/batcher.go:96-108 | a non-empty buffer becomes one exported or failed batch |
| `Batching.Batcher.Receive` | internal/tracer/export/batcher.go:111-115 | the oldest queued span joins the buffer, which is flushed at the batch limit |
| `Batching.Batcher.Drain` | internal/tracer/export/batcher.go:118-128 | after cancellation everything queued is flushed before the loop returns |
| `Batching.Conservation` | internal/tracer/export/batcher.go:81-130 | in every interleaving, accepted spans are in arrival order exported, then buffered, then queued; the others are counted as dropped |
| `Batching.SentByResult` | internal/tracer/export/batcher.go:96-108 | exported spans are those of successful and of failed batches, none twice |
| `Batching.SentWithMember` | internal/tracer/export/batcher.go:96-108 | a span counts as exported with a result exactly if some batch with that result holds it |
| `Batching.BatchesBounded` | internal/tracer/export/batcher.go:90-130 | in every interleaving no batch is empty and only the final one of a drain may exceed 512 spans |
| `Batching.TurnSends` | internal/tracer/export/batcher.go:90-130 | a tick and the end of a drain send the whole buffer if there is one, a receipt exactly the buffer it makes 512 long, each with the result of that export; nothing else sends |
| `Batching.TickLeavesNothing` | internal/tracer/export/batcher.go:90-130 | after every tick of every interleaving, what was accepted is in a batch or still queued, in arrival order |
| `Batching.StrandedExactlyWhenLate` | internal/tracer/export/batcher.go:90-130 | when the loop has returned, a span is stranded exactly if somebody enqueued after that |
| `Batching.ShutdownLosesNothing` | cmd/tracer/main.go:67-74 | cancelled after the last enqueue: every span offered was exported, failed with its batch, or was counted as dropped |
| `Batching.EveryDrainEnds` | internal/tracer/export/batcher.go:118-128 | every undisturbed drain takes one step per queued span plus one, and ends with everything flushed in one batch |
| `Batching.DrainTerminates` | internal/tracer/export/batcher.go:118-128 | such a drain exists from every draining state, so it is never stuck |
| `Batching.LateSpanStranded` | internal/tracer/export/batcher.go:81-130 | a run in which a span enqueued late is neither exported nor counted |
| `Pipeline.BuiltIsFresh` | internal/tracer/spans/spans.go:146-338 | every built group is headed by its request and carries no link or flag yet |
| `Pipeline.EventsWellFormed` | cmd/tracer/main.go:105-123 | the assumptions of the run theorems hold for every sequence of transactions |
| `Pipeline.EveryHitSettledOnce` | cmd/tracer/main.go:105-133 | for every sequence of transactions, each hit leaves the tracer with exactly one of link and unlinked flag |
| `Pipeline.EveryLinkLeadsToAFetch` | cmd/tracer/main.go:105-133 | for every sequence of transactions, each link in the flushed output names trace and span id of a fetch span of that output, and is coalesced exactly if the hit began before that fetch ended |
| `Pipeline.ReleasedBare` | internal/tracer/spans/linker.go:457-475 | attributes and links aside, the spans released are exactly the spans of the groups that left |
| `Pipeline.JobsCore` | internal/tracer/spans/linker.go:371-381 | trace and parent aside, the spans of all groups are exactly the spans built from the transactions |
| `Pipeline.EveryBuiltSpanAccountedFor` | cmd/tracer/main.go:67-138 | for all transactions and interleavings: the spans exported, failed and dropped are together exactly the spans of all groups, up to attributes and links, and exactly those built, up to stitching |
| `Pipeline.RunLoop` | internal/tracer/export/batcher.go:90-117 | whatever turns the export loop takes, nothing offered is lost or repeated |
| `Pipeline.EnqueueAll` | cmd/tracer/main.go:119-121 | all spans are offered to the queue, whatever turns the loop takes in between |
| `Pipeline.Handle` | cmd/tracer/main.go:105-123 | one group is built, linked, and everything released is offered to the queue |
| `Pipeline.Shutdown` | cmd/tracer/main.go:126-138 | flush, enqueue, cancel, drain, with any turns of the loop in between: lot, queue and buffer end empty and nothing offered is forgotten |
| `Agents.AdminClient.constructor` | internal/agent/handler.go:210-215 | varnishd starts with the bootstrap VCL loaded and active and no discard scheduled, which is tidy |
| `Agents.AdminClient.PushVCL` | internal/agent/admin.go:164-200 | inline, list, use and the scheduled discard of the previous VCL, each failing where the CLI does; a tidy agent stays tidy exactly if the CLI does not fail after the inline |
| `Agents.AdminClient.ValidateVCL` | internal/agent/admin.go:203-231 | a temporary VCL is compiled and its discard scheduled, keeping the agent tidy; the verdict is that of the compiler |
| `Agents.AdminClient.DiscardVCL` | internal/agent/admin.go:292-301 | a scheduled discard fires once, whether or not the command goes through; a tidy agent stays tidy exactly if it does; an active VCL is refused |
| `Agents.PushOutcome` | internal/agent/admin.go:164-200 | a push is counted exactly if the name was loaded, or compiles and is activated; at most that name is loaded, and exactly the VCL it replaces is scheduled |
| `Agents.ValidationOutcome` | internal/agent/admin.go:203-231 | a validation activates nothing and schedules exactly what it loaded |
| `Agents.DiscardOutcome` | internal/agent/admin.go:292-301 | a discard takes out at most its own VCL, and only if that is inactive and the command goes through |
| `Agents.LifecycleInvariant` | internal/agent/admin.go:164-301 | over any pushes, validations, refusals and discards: the loaded VCLs are the active one and the scheduled ones, none scheduled twice, the active one never, exactly if every command on the way went through |
| `Agents.FireTidyExactlyWhen` | internal/agent/admin.go:186-197 | a discard whose command fails leaves its VCL loaded, inactive and unscheduled |
| `Agents.OnlyActiveRemains` | internal/agent/admin.go:292-301 | once all discards have fired only the active VCL is loaded |
| `Agents.LifecycleFromStart` | internal/agent/admin.go:164-301 | both from a started varnishd, after any run |
| `Agents.StuckForGood` | internal/agent/admin.go:164-231 | a VCL that is loaded, inactive and unscheduled stays so over any run, and every push of it is reported as success and changes nothing |
| `Agents.PushTidyExactlyWhen` | internal/agent/admin.go:164-200 | a push keeps that invariant exactly if listing and activation succeed whenever the inline did |
| `AgentHistories.StuckExactlyWhen` | internal/agent/admin.go:164-301 | over any history with failing commands and restarts of varnishd or the agent: a VCL is stuck exactly if it was before or some step left it behind, and varnishd has not restarted since |
| `AgentHistories.NoLeakExactlyWhen` | internal/agent/admin.go:164-301 | so every loaded VCL is active or scheduled exactly if nothing was left behind since varnishd last restarted |
| `AgentHistories.RestartsDoNotLeak` | internal/agent/admin.go:164-301 | in particular when every command goes through and the agent stays, however often varnishd restarts |
| `AgentHistories.ForgottenDiscardsStick` | internal/agent/admin.go:186-197 | an agent that restarts leaves stuck exactly the VCLs it was going to discard |
| `AgentHistories.FailedUseLeavesItLoaded` | internal/agent/admin.go:164-200 | a failed activation of a freshly loaded name leaves it stuck |
| `AgentHistories.ReportedMeansLoaded` | internal/controller/vcl_push.go:102-129 | a pod counted as pushed has the VCL loaded; if it is not active, nothing was changed and it is scheduled for discard or stuck |
| `AgentHistories.ReportedActiveExactlyWhen` | internal/controller/vcl_push.go:102-129 | where nothing is stuck, a pod counted as pushed is on that VCL exactly if the name was not due for discard there |
| `AgentHistories.ClaimAdvances` | internal/agent/admin.go:164-200 | one step while only one name is pushed: scheduled, gone, active or stuck, and how each follows from the step and its outcome |
| `AgentHistories.ClaimOverRun` | internal/agent/admin.go:164-301 | the same over any run: the standing follows from discards and pushes and how they went |
| `AgentHistories.ClaimResolves` | internal/agent/admin.go:164-200 | an already loaded stale name is refused until its discard goes through; the next push activates it |
| `Agents.ActiveVCL` | internal/agent/admin.go:234-277 | the name in the first row whose status is active, or an error |
| `Agents.ActiveOfListing` | internal/agent/admin.go:234-277 | for every listing in the five-column form it is the active VCL's name, whatever names, labels and blanks the rest holds |
| `Agents.FourColumnListing` | internal/agent/admin.go:234-277 | a listing of the older four-column form is refused exactly if the active row has no label columns; otherwise the fifth word is reported |
| `Operators.NeverBoot` | internal/controller/vcl_push.go:139-145 | no generated name is the bootstrap name |
| `Operators.NameIsHash` | internal/controller/vcl_push.go:139-145 | names of one cache agree exactly if the hashes agree in eight characters |
| `Operators.CheckAgentStarted` | internal/controller/vcl_push.go:203-210 | the agent container has started, or the pod lists none |
| `Operators.CheckReady` | internal/controller/vcl_push.go:213-220 | the pod reports the ready condition as true |
| `Operators.CollectPeers` | internal/controller/vcl_push.go:161-198 | one pass over the pods yields those that can be pushed to and those that may serve, in list order; which these are is PeersAreThePods |
| `Operators.ReadyAreReachable` | internal/controller/vcl_push.go:161-198 | every serving pod is also one that can be pushed to |
| `Pods.PodExactlyWhen` | internal/controller/vcl_push.go:161-220 | a pod is pushed to exactly if it runs, has an address and its first agent container, if listed, has started; it counts as ready exactly if it also has a true Ready condition |
| `Pods.PeersAreThePods` | internal/controller/vcl_push.go:161-198 | both lists hold exactly those pods, in order, each under its name with dashes replaced |
| `Pods.ReadinessDoesNotGatePushes` | internal/controller/vcl_push.go:147-160 | who can be pushed to does not change when any pod's conditions do |
| `Pods.PodsGiveTheCluster` | internal/controller/vcl_push.go:161-198 | for pods that are up, ready or not, every agent is on the push list and the ready list gives the ready set |
| `Pods.CollectedRound` | internal/controller/vinylcache_controller.go:219-248 | so a round over the collected pods is the cluster's round, also when nobody is ready yet |
| `Operators.ObserveVCLNames` | internal/controller/vcl_observe.go:65-98 | every peer gets an entry: its answer, or empty when the query failed |
| `Operators.PodsNeedingVCL` | internal/controller/vcl_observe.go:109-121 | exactly the peers not showing the desired name, in order |
| `Operators.TallyPush` | internal/controller/vcl_push.go:102-129 | an error exactly if there were peers and all failed; otherwise exactly the peers that took it |
| `Operators.RecordPushed` | internal/controller/vinylcache_controller.go:245-247 | the recorded name changes for exactly the pushed peers |
| `Operators.PushAllAt` | internal/controller/vcl_push.go:41-100 | pushing to a list of peers changes exactly the listed, answering ones |
| `Operators.TargetsAreSelected` | internal/controller/vcl_observe.go:109-121 | the selection on observed names is the set of pods really diverging or not answering |
| `Operators.Verdict` | internal/controller/vcl_push.go:102-129 | the tally is the same whether taken over the selection or over all diverging pods |
| `Operators.TakersCount` | internal/controller/vcl_push.go:102-129 | the pods counted are exactly the diverging ones whose push was taken |
| `Operators.Reconcile` | internal/controller/vinylcache_controller.go:219-248 | one round from observation to recording, whatever the agents and their CLIs answer: each agent, each record, the number of pods that took the VCL, and an error exactly if some diverged and none took it |
| `Clusters.RoundIsReconcile` | internal/controller/vinylcache_controller.go:219-248 | a round of the cluster machine is what the reconcile above leaves behind, and its claims are the names recorded |
| `Clusters.StuckExactlyWhenAbandoned` | internal/agent/admin.go:164-301 | in every run of rounds, probes, discards, failing commands and restarts of varnishd or agents: a VCL is stuck on a pod exactly if an event left it behind there since its varnishd last restarted |
| `Clusters.RunsDoNotLeak` | internal/agent/admin.go:164-301 | so every loaded VCL is active or scheduled on every pod exactly if no event left one behind |
| `Clusters.ClaimedPodsCarryIt` | internal/controller/vinylcache_controller.go:219-248 | in every such run a pod recorded on the desired VCL has it loaded, and active, scheduled or left behind; if not active, every later round for it finds the pod diverging |
| `Recovery.ClearExactlyWhen` | internal/controller/vcl_push.go:102-129 | while one VCL is wanted: exactly by a discard of it that goes through or a restart of varnishd does a pod stop refusing it, and exactly by a failed activation does it start |
| `Recovery.ClearPodConverges` | internal/controller/vinylcache_controller.go:219-248 | while one VCL is wanted, a pod with nothing in its way is on it from the first round that reaches it, whatever happens elsewhere |
| `Recovery.PrematureClaimEnds` | internal/controller/vinylcache_controller.go:219-248 | once a scheduled discard of the wanted VCL has gone through, the first round that reaches the pod activates it, whatever happens elsewhere |
| `Recovery.RestartedPodHeals` | internal/controller/vcl_observe.go:54-64 | after a restart of varnishd the first round that reaches the pod brings it back to the wanted VCL |
| `Convergence.HashedNamesAreProper` | internal/controller/vcl_push.go:139-145 | generated names meet the assumption below if the shortened hashes tell the sets of these pods apart |
| `Convergence.RunOk` | internal/controller/vinylcache_controller.go:180-251 | in every stable run (no varnishd restarts, no pod leaves the ready set), whoever answers and whatever else fails: each pod took VCLs for strictly growing ready sets and is on the last one; if activations work it holds no others |
| `Convergence.ReadyNeverRegresses` | internal/agent/handler.go:202-217 | in a stable run the ready set never shrinks |
| `RestartBounds.ShrinksExactlyWhen` | internal/controller/vcl_push.go:161-198 | the ready set shrinks exactly by a probe that finds a ready pod on the bootstrap VCL, or by the loss of a ready pod |
| `RestartBounds.ReadyUnlessRestarted` | internal/agent/handler.go:202-217 | in any run at all a ready pod is off the bootstrap VCL unless its varnishd has restarted |
| `Convergence.PodPushesBounded` | internal/controller/vinylcache_controller.go:219-248 | in a stable run each pod takes at most one VCL more than there are ready pods |
| `RestartBounds.ShrinksArePaidFor` | internal/controller/vcl_push.go:161-198 | in any run at all the ready set shrinks at most as often as varnishd restarts plus pods are lost for other reasons |
| `RestartBounds.PodPushesBoundedInAnyRun` | internal/controller/vinylcache_controller.go:219-248 | in any run at all a pod changes its VCL at most (1 + pods) times (1 + its own restarts + all restarts + losses of readiness) times |
| `Convergence.PushesAreNeverRefused` | internal/controller/vcl_push.go:102-129 | in a stable run, if names do not come back and activations work, no diverging pod refuses its push, even when discards fail |
| `Convergence.RoundReachesPod` | internal/controller/vinylcache_controller.go:219-248 | then a pod reached by a round is on the VCL generated for the peers ready at that round |
| `Convergence.CalmSettles` | internal/controller/vinylcache_controller.go:219-248 | in a stable run with every round answered, all pods are on the VCL of the last round |
| `Convergence.PushNeedsChange` | internal/controller/vinylcache_controller.go:219-248 | such a round pushes only if it is the first or the ready set has grown |
| `Convergence.PushRoundsBounded` | internal/controller/vinylcache_controller.go:219-248 | such rounds push at most one time more than there are ready pods, so at most one plus the number of pods |
| `Refusals.ReturnIsRefused` | internal/controller/vcl_push.go:102-129 | if a name comes back along a growing ready set, some run of these pods counts a push as taken that was refused |
| `Refusals.NeverRefusedExactlyWhen` | internal/controller/vcl_push.go:102-129 | in stable runs with working activations, no counted push is ever refused exactly if names do not come back |
| `Refusals.FailedUseIsRefused` | internal/controller/vcl_push.go:102-129 | a failing activation is enough for a refused push, whatever the generator |
| `Refusals.RestartBringsBack` | internal/controller/vcl_push.go:102-129 | one pod turning ready and restarting makes any other pod refuse the VCL it has just left |
| `Refusals.LossBringsBack` | internal/controller/vcl_push.go:161-198 | one pod turning ready and being lost without any restart makes every pod, itself included, refuse the VCL it has just left |
| `Refusals.OnePodIsNeverRefused` | internal/controller/vcl_push.go:102-129 | a cache of one pod that becomes unready only by failing probes never comes to a refused push, restarts of varnishd included |
| `Refusals.NeverRefusedByRestartsExactlyWhen` | internal/controller/vcl_push.go:102-129 | with restarts but no other loss of readiness, and working activations: no counted push is ever refused exactly if there is at most one pod or the VCL is the same for every ready set |
| `Refusals.NeverRefusedAtAllExactlyWhen` | internal/controller/vcl_push.go:102-129 | once pods can leave the ready set for other reasons, with or without restarts and for any number of pods: no counted push is ever refused exactly if the VCL is the same for every ready set |
| `Routers.ShortHostInjective` | internal/proxy/routing.go:68-78 | short hosts of dotless namespaces identify the cache |
| `Routers.FqdnHostInjective` | internal/proxy/routing.go:68-78 | so do qualified hosts |
| `Routers.ShortIsNotFqdn` | internal/proxy/routing.go:68-78 | a short host is never a qualified one |
| `Routers.HostOwner` | internal/proxy/routing.go:134-140 | a host belongs to at most one cache |
| `Routers.PurgeKeyInjective` | internal/proxy/routing.go:94-110 | purge keys identify the cache if namespaces hold no slash |
| `Routers.SameShortHostExactlyWhen` | internal/proxy/routing.go:68-78 | for arbitrary strings: two caches share a short host exactly if one name and namespace are nested in the other's |
| `Routers.NestedNeedsDot` | internal/proxy/routing.go:68-78 | such a pair needs a dot in a namespace |
| `Routers.NestedPair` | internal/proxy/routing.go:68-78 | and a concrete pair exists |
| `Routers.StripPortOf` | internal/proxy/routing.go:143-148 | a host with and without a port is the same host |
| `Routers.StripPortExactly` | internal/proxy/routing.go:143-148 | for any text, what follows the last colon is cut off, and nothing without one |
| `Routers.RegisteredRouter.constructor` | internal/proxy/routing.go:58-64 | nothing is registered |
| `Routers.RegisteredRouter.Register` | internal/proxy/routing.go:68-78 | for any names: table and log of requests keep agreeing when a cache is registered under both hosts |
| `Routers.RegisteredRouter.Unregister` | internal/proxy/routing.go:81-90 | likewise when a cache, its hosts and its purge hosts are removed |
| `Routers.RegisteredRouter.SetPurgeHosts` | internal/proxy/routing.go:94-103 | likewise when the purge hosts of a cache are replaced, or cleared by an empty list |
| `Routers.RegisteredRouter.PurgeHosts` | internal/proxy/routing.go:106-110 | the hosts last set under the cache's key; those set for that cache if no namespace holds a slash |
| `Routers.RegisteredRouter.LookupHost` | internal/proxy/routing.go:134-140 | the cache last registered under the host, port aside; with names Kubernetes admits, exactly the registered cache whose host it is |
| `Routers.RegisteredRouter.Suggest` | internal/proxy/routing.go:118-131 | the short hosts leading to caches of that bare name, sorted, each once; with names Kubernetes admits, exactly those of the registered ones |
| `Routers.OwnerExactlyWhen` | internal/proxy/routing.go:68-90 | over any requests with names Kubernetes admits, a host leads to a cache exactly if that is registered and not unregistered since |
| `Routers.OwnerWasRegistered` | internal/proxy/routing.go:68-90 | for any names, a host leads only to a cache that was registered under it |
| `Routers.OwnerIsLast` | internal/proxy/routing.go:68-90 | for any names, a host leads to a cache exactly if the last request about that host registered it |
| `Routers.PurgesAreLast` | internal/proxy/routing.go:81-110 | purge hosts are found exactly if the last request about their key set them |
| `Routers.RegisteredIsLast` | internal/proxy/routing.go:68-90 | a cache counts as registered exactly if it was and was not unregistered since |
| `Routers.PurgesAreOwn` | internal/proxy/routing.go:81-110 | where no namespace holds a slash, a cache never sees another's purge hosts |
| `Routers.ListedAreSuggested` | internal/proxy/routing.go:118-131 | with names Kubernetes admits, the listed hosts are the short hosts of the registered caches of that name |
| `Routers.SortStrings` | internal/proxy/routing.go:118-131 | a sorted permutation |
| `Routers.StringLeExactlyWhen` | internal/proxy/routing.go:118-131 | the order is that of strings: a beginning, or smaller where they first differ |
| `Routers.PublishedAddressRoutesBack` | internal/controller/service.go:41-43 | the address published for a cache is routed to it and to no other |
| `Routers.FoundWithAnyPort` | internal/proxy/routing.go:134-148 | a cache just registered is found under both hosts, with and without a port, whatever was asked before |
| `Statuses.FindAfterSet` | internal/controller/status.go:210-241 | a call changes the condition of its own type only |
| `Statuses.SetUnique` | internal/controller/status.go:210-241 | no type ever appears twice |
| `Statuses.HistoryReflected` | internal/controller/status.go:210-241 | over any calls, a condition bears its last status and reason, and the time since which that status has lasted |
| `Statuses.PhaseAfterUpdate` | internal/controller/status.go:108-207 | after an update the phase is stopped, degraded, ready or pending exactly by replicas, missing endpoints and ready count, whatever the conditions were before |
| `Statuses.PhaseExactlyWhen` | internal/controller/status.go:191-207 | for any conditions, the phase exactly by the first condition of each type and the counts |
| `Statuses.UpdateReports` | internal/controller/status.go:108-160 | the conditions after an update, type by type, by replicas, ready count, missing endpoints and the runtime condition |
| `Statuses.FailureReports` | internal/controller/status.go:168-179 | the conditions after a failed round |
| `Statuses.ResolutionReports` | internal/controller/status.go:264-312 | a runtime resolution sets its own condition, and leaves it false exactly if the image was not found |
| `Statuses.StatusHistory` | internal/controller/status.go:108-296 | the same history over any run of updates, failures and runtime resolutions |
| `Statuses.CacheStatus.SetCondition` | internal/controller/status.go:210-241 | updates in place or appends, keeping the transition time unless the status changes |
| `Statuses.CacheStatus.FindCondition` | internal/controller/status.go:316-323 | the condition of that type, or none |
| `Statuses.CacheStatus.CalculatePhase` | internal/controller/status.go:191-207 | the phase derived from conditions and peer counts |
| `Statuses.CacheStatus.UpdateStatus` | internal/controller/status.go:108-160 | Ready is true exactly if there are no replicas or enough are ready; BackendsAvailable false exactly if one has no endpoints; Progressing true exactly if the runtime is unresolved or replicas are missing; VCLSynced true; each with its reason and transition time, other conditions untouched; and the phase of the observation |
| `Statuses.CacheStatus.SetErrorStatus` | internal/controller/status.go:168-179 | Ready and VCLSynced turn false with their reasons, other conditions untouched, and the phase is error |

## Left out

- OrderingIndependence: two calls that fetch different numbers, neither announcing the other's restart, with room in caches and lot for both and no age limit reached between them; a hit on the other call's fetch must be a waiter's (`PlainHitShowsOrder`), and that fetch must not already be live in the cache. Each group's own ids are the same in both orders, although the ids drawn depend on arrival.
- CacheRefinesLog: exact for keys written once and a clock that does not go back; for other logs `LookupIsLatestWrite` gives the direction that still holds.
- LinkClosure: numbers reused by Varnish after a wrap are ordinary rewrites of a key, so the latest fetch is meant.
- EveryBuiltSpanAccountedFor: assumes a queue of length at least one; an unbuffered channel is not modelled.
- Pipeline.Shutdown: the loop drains in one go once it has seen the cancellation; drains step by step are in `Batching.EveryDrainEnds`.
- Operators.Reconcile: agents are pushed to one after another.
- RunOk: stable runs, in which no varnishd restarts and no pod leaves the ready set; what holds otherwise is in `Clusters`, `Recovery`, `RestartBounds` and `Refusals`.
- ReadyNeverRegresses: the same; `ShrinksExactlyWhen` and `ShrinksArePaidFor` cover every run.
- PodPushesBounded: the same; `PodPushesBoundedInAnyRun` covers every run.
- PushesAreNeverRefused: the same, and activations work; `LossBringsBack`, `RestartBringsBack` and `FailedUseIsRefused` show what happens otherwise.
- RoundReachesPod: the same.
- CalmSettles: the same, and every round is answered by and reaches all pods.
- PushNeedsChange: the same as `CalmSettles`.
- PushRoundsBounded: the same as `CalmSettles`; for other rounds `PodPushesBounded` and `PodPushesBoundedInAnyRun` bound what each pod takes.
- Clusters: the set of pods is fixed, so scaling and a replaced pod with a new address are left out; the VCL depends on the ready pods alone, not on changes of the spec or of backend endpoints; a pod becomes ready only by a probe that finds it off the bootstrap VCL.
- LifecycleInvariant: the agent's calls do not overlap; two concurrent pushes to one varnishd are not modelled.
- CollectedRound: every pod of the cluster is up; a pod that is not is left out of that round by `PodExactlyWhen`.
- LotInvariantHolds: assumes a clock that does not go back; the size bound holds without that (`Linking.StepSound`).
- OwnerExactlyWhen: names as Kubernetes admits them (no dot, slash or colon in the namespace, no colon in the name); `SameShortHostExactlyWhen` says when two caches share a host without that.
- Spans.Span: descriptive attributes (method, URL, status, byte counts) are not modelled, only those that decide linking, retries and restarts.
- Vsl.Timestamp: turning the epoch text into a time is a parameter, so floating-point rounding is not modelled.
- Reading bytes into lines, the scanner's token limit and UTF-8 decoding; the parser gets a list of lines and whether reading failed.
- Random id generation: ids come from an arbitrary stream, so their uniqueness is a matter of draws, not of values.
- OTLP exporters, Prometheus registration, the varnishlog subprocess and its restart backoff.
- HTTP handlers, authentication, the admin socket's framing and challenge response.
- VCL text generation and its hash; the generated name is a function of the ready peers.
- Kubernetes objects (StatefulSet, Services, NetworkPolicy, ConfigMaps), webhooks, debouncing, watches and finalizers.
- Status messages, observed generation and the per-pod list in the status.
- The static router, broadcasting to pods, xkey purging, rate limits and the proxy's request checks.
- Mutexes of router and caches; each operation is one atomic step.
- Catalog, probe, monitoring and command-line handling.
