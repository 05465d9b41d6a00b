# Verified model of the Obsidian write gateway

A write gateway stands between an agent and an Obsidian vault: a stdio proxy forwards tool calls to a
restartable backend, patches are compiled to documents before anything is written, and every write under
instructions is planned, sealed and applied. This project models the logic that these guarantees rest on
and proves it with Dafny. `dafny verify dfyconfig.toml` checks the whole project.

## What is modelled

**Protocols.** Code between two suspension points is one atomic step; calls, failures, timers and changes
from outside interleave without restriction, and a run is any sequence of enabled steps. Where the program
keeps its state in an object, there is a class beside the state machine: each method states its whole new
state by the function the state machine uses, so that what is proved over runs is about the class.

- `StdioProxy`, `StdioProxyRuns`, `StdioProxyAnswers`, `StdioProxyConnections`, `StdioProxyProgress`, `StdioProxyObjects`:
  connection generations, leases, retirement and draining, tool metadata bound to a generation, the rule for sending a
  call again, and what a call answers.
- `SemanticCache`, `SemanticCacheRuns`, `SemanticCacheTimes`, `SemanticCacheDecisions`, `SemanticCacheService`: refreshes and
  readiness checks guarded by a generation and a source signature, the time to live, shared reads, the persisted copy,
  invalidation.
- `VaultPaths`, `VaultPathParts`, `InstructionRules`, `InstructionChains`, `InstructionOrder`: which instruction files apply to a
  path. `InstructionTargets`: the paths of a call. `InstructionLedger`, `InstructionMemory`: proofs that a reader was served a
  file, and for how long they are remembered. `InstructionSeals`, `InstructionsGate`, `InstructionsGateAsked`,
  `InstructionsGateRuns`, `InstructionsGateAnswers`, `InstructionsGateChanges`: sealed plans, and the checks before a tool is
  reached.
- `TransferBroker`, `TransferBrokerRuns`, `TransferBrokerLog`, `TransferBrokerObjects`: capacity under one lock, single-use
  tickets told from the log of events, and the stream that hands a buffer over.
- `ExtensionLifecycle`, `ExtensionLifecycleObject`: one timer, one mount, pending cleanup, backoff.

**Compilers.**

- `CanvasJson`, `CanvasPatch`, `CanvasPatchProofs`, `CanvasPatchCompiler`, `CanvasEdgeText`: the document edited by index against
  the graph edited by id, and the removal of edges from the text of their array. `CanvasContents` and `CanvasValidity` say
  field by field what a patch does, and what is valid.
- `BaseConfig`, `BaseConfigProofs`, `BaseConfigAnswers`: two interpreters of the same operations, on plain data and on an ordered
  YAML document with comments, and when they refuse.
- `FrontmatterSource`, `FrontmatterLines`, `FrontmatterLayout`, `FrontmatterPatch`, `FrontmatterProofs`,
  `FrontmatterResults` work on lines; `FrontmatterContents` and `FrontmatterAnswers` say what a patch leaves under each key and
  when it is accepted; `FrontmatterCompiler` and `FrontmatterCompile` are the loops over character offsets, proved equal to it.
- `TextSplice`, `TextSpliceTies`: edits applied front to back and back to front. `TextOrder` and `StableSort` hold the orders
  and the stable sort that several modules use.
- `NoteCreate`, `NoteCreateAnswers`: a created note explained as the sealed text plus date lines.
- `MarkdownMask`, `MarkdownFences`: fenced blocks (section 4.5 of CommonMark 0.31.2) and spans between backtick runs of equal length
  blanked. Unlike section 6.1, a run behind any backslash starts no span, and a span may cross blank lines.

**Selection.** `ToolProfiles`, `ToolProfilesProofs`, `ToolProfilesExposure` (registration with atomic families and withheld
fallbacks) and `OperationCockpit` (pages over several sources).

## What does not hold

Some properties one would expect fail in the code. Each of these has a lemma with a concrete run or input, and
the condition under which the property holds is proved for all.

- A lease can be taken on a connection that was retired in the meantime, because obtaining the connection
  is awaited (src/stdio-proxy.ts:1032): `StdioProxyRuns.LeaseOnRetiredConnection`; exactly when another
  generation is active by then: `StdioProxyRuns.LeaseLandsOnRetired`.
- A query made after an invalidation can get a snapshot from before it: `SemanticCacheRuns.StaleJoin`; exactly
  when it joins a refresh that has its answer already and is of a generation that is over:
  `SemanticCacheRuns.CallerIsCurrentIff`.
- The load marker is described as the start of the oldest load in flight (src/services/semanticCache.ts:229-231),
  but can outlive that load: `SemanticCacheRuns.MarkerOutlivesItsLoad`; exactly when the load that set it has
  ended: `SemanticCacheRuns.MarkerIsOldestIff`.
- A query that has to store what it read fails when the source lists a note twice:
  `SemanticCacheRuns.RepeatedNoteFails`; exactly then, apart from a database fault: `SemanticCacheRuns.StoringFailsIff`.
- An apply can be refused because its rules changed with no change to show:
  `InstructionsGateChanges.AddedNameRefusesApply`; exactly when the files agree and the vault or the configured
  names are others: `InstructionsGateRuns.ChangedShowsDifference`.
- A disposal of the broker can let the ticket limit be exceeded: `TransferBrokerRuns.DisposalBreaksCapacity`;
  the limits hold in every continuation whose further disposals are idle exactly when nothing was reserved or in
  flight: `TransferBrokerRuns.DisposalIsSafeIff`.
- A frontmatter value rendered with a line separator other than CR and LF is written and then refused when the
  result is read again: `FrontmatterCompile.SeparatorIsRefused`; exactly then: `FrontmatterResults.AcceptedIff`.
- The two splice loops differ on edits at one position: `TextSpliceTies.TwoInsertions`; they agree for all
  replacements exactly when no two starts coincide: `TextSpliceTies.AgreeIffDistinctStarts`. This is a property
  of the loops only: no accepted frontmatter patch has such edits (`FrontmatterCompile.BothPassesAgree`), and the
  additions of a Base formula patch start behind every entry (src/services/baseConfigPatchCompiler.ts:403-415).

## Model

| member | source | states |
|---|---|---|
| `StdioProxyRuns.StepKeeps` | src/stdio-proxy.ts:860-1253 | every step, whatever its order with others, keeps the invariant of connections, leases, attempts, metadata and dispatch logs |
| `StdioProxyRuns.ReachableKeeps` | src/stdio-proxy.ts:860-1253 | that invariant holds in every state of every run |
| `StdioProxyRuns.AtMostOneReplay` | src/stdio-proxy.ts:1078-1193 | a call is sent at most twice, and again only after the session was rejected before entry, or after a loss on the network of a tool that the generations of both sends had listed as read-only by the time of the second send |
| `StdioProxyRuns.MutationNeverReplayed` | src/stdio-proxy.ts:1106-1193 | a tool call lost on the network without a read-only proof is never sent again in any continuation of the run |
| `StdioProxyRuns.LogGrowsInRun` | src/stdio-proxy.ts:1106-1193 | what a call has sent is never forgotten or rewritten: the log of a call only continues |
| `StdioProxyRuns.UnknownOutcomeReported` | src/stdio-proxy.ts:1124-1193 | a finished tool call reports an unknown outcome exactly when one of its sends was lost on the network without authority to repeat it |
| `StdioProxyRuns.AnswerTellsOutcome` | src/stdio-proxy.ts:1124-1193 | a finished tool call answers a result exactly when its last send succeeded, an application error whenever that send failed so, and a refused replay only after one authorized loss on the network |
| `StdioProxyAnswers.FinishesIff` | src/stdio-proxy.ts:1106-1193 | a tool call ends exactly at the steps that leave nothing to try, and its answer is one its sends allow |
| `StdioProxyAnswers.ReplayRefusedIff` | src/stdio-proxy.ts:1165-1171 | a second send is refused exactly when one send of a proven call was lost on the network and the proof of the second run does not list its tool |
| `StdioProxyAnswers.SecondRunIff` | src/stdio-proxy.ts:1128-1166 | after a rejected session, or a loss that may be repeated, the second run begins exactly when a connection is found again |
| `StdioProxyAnswers.SentIff` | src/stdio-proxy.ts:1025-1056 | a call is sent exactly when it leases the connection its proof is bound to, to that connection, and its outcome is the one that settles it |
| `StdioProxyRuns.ConnectionsAreDrained` | src/stdio-proxy.ts:860-908 | in-flight counts equal outstanding leases, a connection is closed at most once, "drained" only without leases, and a retired one not yet closing has leases and an armed timer; the active one is not retired |
| `StdioProxyRuns.MetadataIsCurrent` | src/stdio-proxy.ts:1208-1253 | stored read-only names were answered by the generation that is active now |
| `StdioProxyRuns.ActiveGenerationIncreases` | src/stdio-proxy.ts:982-1023 | the active generation never goes back along a run |
| `StdioProxyConnections.FinishedAttemptIs` | src/stdio-proxy.ts:982-1023 | a finished attempt gives its caller the connection that is active then: its own where that is installed, else the one that was active, and every other connection it leaves is retired |
| `StdioProxyConnections.AttemptsAreShared` | src/stdio-proxy.ts:982-1023 | an attempt to connect begins exactly when a call needs one and none is under way; otherwise the call waits for the pending one |
| `StdioProxyConnections.ShutDownCloses` | src/stdio-proxy.ts:1262-1275 | after a shutdown every connection that is active or was retired is closed |
| `StdioProxyConnections.DrainsEnd` | src/stdio-proxy.ts:860-908 | a drain that takes too long closes its connection, and a closed one is forgotten |
| `StdioProxyConnections.ServedWasAnswered` | src/stdio-proxy.ts:1208-1253 | names a tool is proven by were answered by that very connection before |
| `StdioProxyRuns.LeaseLandsOnRetired` | src/stdio-proxy.ts:1025-1056 | a lease about to be taken lands on a retired connection exactly when another generation has become active |
| `StdioProxyRuns.LeaseOnRetiredConnection` | src/stdio-proxy.ts:1025-1056 | a run in which a drained, closed connection gets a lease |
| `StdioProxyProgress.FreshRemaining` | src/stdio-proxy.ts:1025-1253 | what a fresh call has left to do, with everything it may wait for, is 258 for a tool and 17 for a listing, and 18 more for each refresh |
| `StdioProxyProgress.StepsLower` | src/stdio-proxy.ts:982-1253 | a step of a call lowers what it has left, and no step of anything else, connection changes and failures included, raises it |
| `StdioProxyProgress.NeverStuck` | src/stdio-proxy.ts:982-1253 | calls wait only for younger calls and for attempts that can go on: in every reachable state some enabled step lowers what an unfinished call has left |
| `StdioProxyProgress.CallsEnd` | src/stdio-proxy.ts:982-1253 | over any stretch of any run a call takes no more steps than it had left |
| `StdioProxyObjects.BackendConnection.CloseBackendConnection` | src/stdio-proxy.ts:860-888 | a second close does nothing; the first records its reason and clears the timer |
| `StdioProxyObjects.BackendConnection.CloseRetiredBackend` | src/stdio-proxy.ts:890-893 | a retired connection without leases is closed as drained, any other is left |
| `StdioProxyObjects.Proxy.RetireBackend` | src/stdio-proxy.ts:895-908 | a connection is retired once, listed once, and closed at once when nothing is in flight |
| `StdioProxyObjects.Proxy.FinishInitial` | src/stdio-proxy.ts:982-994 | the first connection to finish becomes active; a later one is retired and the active one is used |
| `StdioProxyObjects.Proxy.FinishReconnect` | src/stdio-proxy.ts:996-1023 | the failed connection is replaced and its metadata dropped only if it is still the active one; otherwise the replacement is retired |
| `StdioProxyObjects.Proxy.StoreToolsList` | src/stdio-proxy.ts:1208-1253 | an answer is stored exactly while the generation that gave it is active |
| `CanvasPatchProofs.StepLockstep` | src/services/canvasPatchCompiler.ts:529-759 | after every operation the document edited by index equals the graph edited by id, so that the mismatch refusal cannot fire |
| `CanvasPatchProofs.CascadeAgrees` | src/services/canvasPatchCompiler.ts:648-694 | deleting incident edges from the document is deleting the edges that touch the node from the graph |
| `CanvasPatchProofs.CheckAllMeans` | src/services/canvasPatchCompiler.ts:419-503 | the running check accepts exactly the lists of supported operations with pairwise distinct targets |
| `CanvasPatchProofs.StepAccounted` | src/services/canvasPatchCompiler.ts:529-751 | every operation keeps the accounting: totals follow adds, deletes and cascades, explicit and implicit edge changes are disjoint, untargeted entities keep value and order |
| `CanvasPatchProofs.PatchAccounted` | src/services/canvasPatchCompiler.ts:523-751 | lockstep and accounting hold after any accepted list of operations |
| `CanvasPatchProofs.StepKeepsAnchors` | src/services/canvasPatchCompiler.ts:529-751 | an operation that re-targets no endpoint leaves no dangling edge |
| `CanvasPatchProofs.PatchKeepsAnchors` | src/services/canvasPatchCompiler.ts:523-751 | so does a whole patch without re-targeting, starting from a valid graph |
| `CanvasPatchProofs.FinishDecides` | src/services/canvasPatchCompiler.ts:753-786 | after the operations only an invalid resulting graph is refused |
| `CanvasPatchProofs.FinishPublishes` | src/services/canvasPatchCompiler.ts:753-820 | the published text is the graph edited by id and the proof counts its changes exactly; visible changed edges equal the edge operations |
| `CanvasPatchCompiler.CompileCanvasPatch` | src/services/canvasPatchCompiler.ts:513-821 | a patch is accepted exactly when its operations are supported, apply, and leave a valid graph; its published document does as asked field by field, its counts are exact, and the projection refusals never happen |
| `CanvasContents.PatchIsAsAsked` | src/services/canvasPatchCompiler.ts:523-751 | for every id, over a whole patch: a moved, retexted or updated entity has the given value in each field asked for and every other field as before, an added one exactly its fields, a deleted one is gone with the edges at it, and an untargeted one is as before |
| `CanvasContents.StepRefuses` | src/services/canvasPatchCompiler.ts:529-751 | an operation is refused exactly for the reason its target gives: missing, already there, or of another type |
| `CanvasValidity.AcceptedListIff` | src/services/canvasPatchCompiler.ts:419-503 | a list is accepted exactly with one to sixty-four operations, each supported, with distinct targets |
| `CanvasValidity.ValidGraphIff` | src/services/canvasPatchCompiler.ts:279-417 | a graph is valid exactly with distinct ids, supported fields in every node and edge, and edges that end at nodes |
| `CanvasEdgeText.KeptIndicesMean` | src/services/canvasPatchCompiler.ts:230-234 | the kept elements are exactly those whose id is not removed, in order |
| `CanvasEdgeText.SameAsOutside` | src/services/canvasPatchCompiler.ts:212-274 | removing by text keeps the same edges as filtering the parsed edges |
| `CanvasEdgeText.KeepOnlyWellFormed` | src/services/canvasPatchCompiler.ts:240-270 | kept elements joined by the separators behind them form an array |
| `CanvasEdgeText.KeepOnlyNotLonger` | src/services/canvasPatchCompiler.ts:240-270 | removal never makes the array text longer |
| `CanvasEdgeText.RemoveEdgesById` | src/services/canvasPatchCompiler.ts:212-274 | the result is the source with the array replaced by its kept elements byte for byte, well-formed and never longer; the missing-separator refusal is unreachable |
| `BaseConfigProofs.StepRefines` | src/services/baseFullConfigCompiler.ts:203-346 | whatever the plain-data interpreter accepts the YAML interpreter accepts, and the document then reads as exactly that data |
| `BaseConfigProofs.CompileBaseConfigPatch` | src/services/baseFullConfigCompiler.ts:366-399 | the compiler accepts exactly what the model accepts over the whole list and the check of the result passes, refuses with the reasons of the model otherwise, and the document reads as the model |
| `BaseConfigProofs.DeleteTopAbs` | src/services/baseFullConfigCompiler.ts:291-306 | removing a top-level key while moving its comments is removing it from the data |
| `BaseConfigProofs.PruneAbs` | src/services/baseFullConfigCompiler.ts:308-311 | a section is written back, or goes when nothing is left in it |
| `BaseConfigProofs.DeleteTopKeepsComments` | src/services/baseFullConfigCompiler.ts:291-306 | of the comments at the top level (before the document, above its keys and behind them) no line is lost or repeated when a key goes, and only the last key's move behind the closing ones; comments inside the removed section go with it |
| `BaseConfigProofs.ViewNamesStayUnique` | src/services/baseFullConfigCompiler.ts:187-271 | no operation makes two views share a name |
| `BaseConfigProofs.ViewOperation` | src/services/baseFullConfigCompiler.ts:251-269 | an operation on a view hits one view of that name, changes it as asked, and never empties the list |
| `BaseConfigProofs.MoveIsPermutation` | src/services/baseFullConfigCompiler.ts:256-259 | moving a view is a permutation that keeps the order of the others |
| `BaseConfigProofs.OnlyTheSectionChanges` | src/services/baseFullConfigCompiler.ts:203-271 | an operation leaves every other section as it was |
| `BaseConfigProofs.OnlyTheEntryChanges` | src/services/baseFullConfigCompiler.ts:214-244 | a formula or summary operation changes its own entry as asked and no other |
| `BaseConfigProofs.OnlyTheSettingChanges` | src/services/baseFullConfigCompiler.ts:220-237 | a property operation changes the settings it addresses as asked and no other, leaves the other properties as they were, and leaves no property empty behind |
| `BaseConfigAnswers.AcceptedIff` | src/services/baseFullConfigCompiler.ts:180-271 | an operation is accepted exactly when what it writes into has the right shape, the one view it names is there, the name it gives is free, a view is left and what it deletes is there; otherwise the first of these that fails is the reason |
| `BaseConfigAnswers.ViewIsDone` | src/services/baseFullConfigCompiler.ts:251-271 | the one view of that name is removed, moved to the position asked for, or has the one field set or gone; all other fields and views are as before, in order |
| `BaseConfigAnswers.AddedOrFiltered` | src/services/baseFullConfigCompiler.ts:209-250 | an added view stands at its position, or last, among the others in order; filters are as given, or gone |
| `BaseConfigAnswers.EmptiedSectionGoes` | src/services/baseFullConfigCompiler.ts:214-246 | a deletion leaves no empty section behind, and nothing of a property deleted whole |
| `BaseConfigAnswers.ViewsKeepNameAndType` | src/services/baseFullConfigCompiler.ts:160-271 | no accepted operation leaves a view without its name or its type |
| `SemanticCacheRuns.InsertRowsKeeps` | src/services/semanticCache.ts:601-675 | a snapshot can be stored exactly when no note appears twice; the rows are then its items in key order |
| `SemanticCacheRuns.RepeatedNoteFails` | src/services/semanticCache.ts:342-349 | a run in which sources that list one note twice are read, nothing is stored, and the query fails |
| `SemanticCacheRuns.StoringFailsIff` | src/services/semanticCache.ts:339-350 | a refresh whose read is of the current generation fails, with memory, rows and publications as before, exactly when a note is repeated or the database fails |
| `SemanticCacheRuns.ReachableKeeps` | src/services/semanticCache.ts:247-502 | in every interleaving of queries, probes, scans, reads and invalidations the invariant of the cache holds |
| `SemanticCacheRuns.PublishedWithoutInvalidation` | src/services/semanticCache.ts:304-350 | a published snapshot saw no invalidation since its attempt began, and its items come from a read begun in that generation for the signature scanned |
| `SemanticCacheRuns.MemoryIsCurrent` | src/services/semanticCache.ts:304-350 | the snapshot in memory was published by an attempt begun after the last invalidation |
| `SemanticCacheRuns.StoredCopyIsOneSnapshot` | src/services/semanticCache.ts:601-675 | manifest and rows are those found at start, or exactly one snapshot read from the sources |
| `SemanticCacheRuns.EveryAnswerHasASource` | src/services/semanticCache.ts:304-350 | every answer is a snapshot read under the signature now scanned, or the copy found at start |
| `SemanticCacheRuns.MarkerWhilePending` | src/services/semanticCache.ts:263-279 | the load marker is set exactly while a refresh or validation is pending, at most one of each |
| `SemanticCacheRuns.MarkerIsOldestIff` | src/services/semanticCache.ts:229-279 | the marker belongs to the oldest load in flight exactly while the load that set it has not ended |
| `SemanticCacheRuns.MarkerOutlivesItsLoad` | src/services/semanticCache.ts:229-279 | a run in which the marker keeps the start of a load that has ended |
| `SemanticCacheRuns.CallerIsCurrentIff` | src/services/semanticCache.ts:247-274 | a query is refused, and nothing ever starts, without a directory; one answered at once, or starting the refresh, gets a snapshot whose attempt began after every earlier invalidation; one that joins a refresh gets such a snapshot exactly unless that refresh already has its answer and is of a generation that is over |
| `SemanticCacheTimes.QueryIsAnsweredIff` | src/services/semanticCache.ts:247-267 | a query is answered at once exactly when a snapshot is in memory and the time to live is zero or not over since the event that published it; otherwise it joins the refresh that runs or starts one |
| `SemanticCacheTimes.ProbeIsAnsweredIff` | src/services/semanticCache.ts:356-398 | a probe is answered at once exactly as a query, or within the time to live, a minute at most, of the event that validated the readiness kept |
| `SemanticCacheDecisions.RefreshDecides` | src/services/semanticCache.ts:304-337 | after a scan a refresh begins again exactly when an invalidation came since it began; else it answers memory of the scanned signature, else the stored copy if that is of this directory and signature and decodes, and reads only otherwise |
| `SemanticCacheDecisions.ValidationDecides` | src/services/semanticCache.ts:407-434 | after a scan a validation counts the stored copy if that matches and decodes, and reads otherwise |
| `SemanticCacheDecisions.ReadDecides` | src/services/semanticCache.ts:338-350 | after a read: failure when nothing could be read, nothing usable was counted, or the items cannot be stored; begin again when overtaken; else the items read, as of that time |
| `SemanticCacheDecisions.JoinsReadIff` | src/services/semanticCache.ts:441-461 | an attempt joins the last read started exactly while its starter waits for it, in the same generation and for the same signature |
| `SemanticCacheRuns.StaleJoin` | src/services/semanticCache.ts:247-274 | a run in which a query joins a refresh that was answered before an invalidation and not cleared yet |
| `SemanticCacheRuns.SharedReads` | src/services/semanticCache.ts:441-461 | attempts share a read of the sources only for one generation and signature |
| `SemanticCacheRuns.ReadinessIsCurrent` | src/services/semanticCache.ts:407-434 | a kept readiness counts usable vectors and was validated since the last invalidation |
| `SemanticCacheRuns.ProbesObserve` | src/services/semanticCache.ts:352-434 | probes and validations never change the stored rows, the publications or the snapshot in memory |
| `SemanticCacheRuns.NeverStuck` | src/services/semanticCache.ts:304-461 | every load that has not ended has an enabled step of its own, which brings it closer to its end |
| `SemanticCacheRuns.LoadsProgress` | src/services/semanticCache.ts:304-461 | every own step of a load lowers a bound on the steps left, and nothing but an invalidation raises it |
| `SemanticCacheService.CacheDatabase.PersistSnapshot` | src/services/semanticCache.ts:601-675 | one transaction: rows and manifest are replaced together, or nothing changes |
| `SemanticCacheService.Cache.GetSnapshot` | src/services/semanticCache.ts:247-267 | refuses without a directory, answers from memory, joins the pending refresh, or starts one and sets the marker |
| `SemanticCacheService.Cache.ProbeReadiness` | src/services/semanticCache.ts:356-398 | refuses without a directory, answers from what is known, joins, or starts a validation |
| `SemanticCacheService.Cache.RefreshScanned` | src/services/semanticCache.ts:314-335 | after a scan: begin again when overtaken, else answer from memory or matching rows, else read |
| `SemanticCacheService.Cache.LoadSource` | src/services/semanticCache.ts:441-461 | a pending read is joined exactly for the same generation and signature |
| `SemanticCacheService.Cache.RefreshResumed` | src/services/semanticCache.ts:342-349 | a result is published exactly if no invalidation overtook it and it could be stored; else nothing changes |
| `SemanticCacheService.Cache.ForceRefresh` | src/services/semanticCache.ts:497-502 | an invalidation forgets memory and readiness and opens a new generation, and spares the stored rows |
| `TextSplice.ApplyForward` | src/services/frontmatterPatchCompiler.ts:569-595 | overlap is refused exactly when the sorted ranges overlap; otherwise text and remainder are those of the ranges |
| `TextSplice.ApplyBackward` | src/services/baseConfigPatchCompiler.ts:416-423 | the loop replaces the ranges from the last start to the first |
| `TextSplice.UntouchedSource` | src/services/baseConfigPatchCompiler.ts:333-341 | the remainder is what stands between and after the sorted ranges |
| `TextSplice.BackwardIsForward` | src/services/baseConfigPatchCompiler.ts:416-423 | replacing from the back gives the text of one forward pass |
| `TextSplice.PassesAgree` | src/services/baseConfigPatchCompiler.ts:333-423 | for disjoint ranges with distinct starts both loops give the same text and remainder and nothing is refused |
| `TextSpliceTies.AgreeIffDistinctStarts` | src/services/baseConfigPatchCompiler.ts:333-423 | for any list of disjoint ranges both loops agree for all replacements exactly when no two ranges share a start |
| `TextSpliceTies.TwoInsertions` | src/services/baseConfigPatchCompiler.ts:416-423 | two insertions at one place come out in opposite orders |
| `TextSplice.OutsideKept` | src/services/frontmatterPatchCompiler.ts:569-595 | every character outside the ranges is in the result, moved by what was gained and lost before it |
| `FrontmatterCompiler.SplitLines` | src/services/frontmatterPatchCompiler.ts:126-143 | the cursor loop cuts the range into its lines, each with its offsets |
| `FrontmatterCompiler.FindClosing` | src/services/frontmatterPatchCompiler.ts:308-328 | the search finds the first delimiter line, or none |
| `FrontmatterCompiler.FindStarts` | src/services/frontmatterPatchCompiler.ts:355-396 | the scan over lines finds the key lines, or refuses as the layout demands |
| `FrontmatterCompiler.BuildEntries` | src/services/frontmatterPatchCompiler.ts:398-447 | the offsets of every entry are those of its lines, trailing separators left out |
| `FrontmatterCompiler.ParseFrontmatterSource` | src/services/frontmatterPatchCompiler.ts:297-471 | the reading by offsets is the reading by lines, refusals included |
| `FrontmatterCompiler.SortText` | src/services/frontmatterPatchCompiler.ts:569-595 | sorting edits by character offset sorts the edits of lines |
| `FrontmatterCompiler.SpliceText` | src/services/frontmatterPatchCompiler.ts:569-595 | splicing characters is splicing lines within an unchanged frame |
| `FrontmatterLayout.StartsMean` | src/services/frontmatterPatchCompiler.ts:355-396 | the scan accepts exactly the supported layouts whose folded keys differ, and finds their keys in order |
| `FrontmatterLines.ParsedIsFramed` | src/services/frontmatterPatchCompiler.ts:298-330 | a note read is its opening, its lines, the first delimiter behind them, and its body, with nothing lost |
| `FrontmatterLines.Reparsed` | src/services/frontmatterPatchCompiler.ts:298-333 | other whole lines put in the same frame are read back as exactly those lines, with the same body |
| `FrontmatterProofs.CheckMeans` | src/services/frontmatterPatchCompiler.ts:522-567 | a list passes exactly when every operation is supported and no two target one folded key |
| `FrontmatterProofs.ListingOrderIsIrrelevant` | src/services/frontmatterPatchCompiler.ts:522-567 | the order in which operations are listed changes neither acceptance nor result |
| `FrontmatterProofs.EditedKeys` | src/services/frontmatterPatchCompiler.ts:608-669 | edits of entries leave the old keys, in order and spelling, without the deleted ones |
| `FrontmatterProofs.AddedKeys` | src/services/frontmatterPatchCompiler.ts:671-685 | added lines come last among the keys |
| `FrontmatterProofs.JsonLineKind` | src/services/frontmatterPatchCompiler.ts:649-657 | a rendered line is read back as its key exactly when its value holds no other line separator |
| `FrontmatterProofs.OrderedIs` | src/services/frontmatterPatchCompiler.ts:573-584 | the sorted edits never overlap, and the additions come last |
| `FrontmatterResults.Rescan` | src/services/frontmatterPatchCompiler.ts:687-693 | the result is read back in the same frame, and its scan succeeds exactly when every written value is one line |
| `FrontmatterResults.AcceptedIff` | src/services/frontmatterPatchCompiler.ts:597-693 | with edits planned, a patch is accepted exactly when every written value is one line and the result is a mapping the reader supports; the overlap and body-drift refusals never happen |
| `FrontmatterResults.AcceptedPatch` | src/services/frontmatterPatchCompiler.ts:597-693 | an accepted result is read back with the old keys minus the deleted ones plus the additions in canonical order, and the same body |
| `FrontmatterContents.PatchedAsAsked` | src/services/frontmatterPatchCompiler.ts:597-693 | after an accepted patch a key that is set owns exactly one line with its rendered value, spelled as before; a key that is deleted was there and is gone; every other key owns the lines it had |
| `FrontmatterAnswers.AcceptedExactly` | src/services/frontmatterPatchCompiler.ts:522-693 | a patch is accepted exactly when its list is, the note can be read, every operation is allowed on its entry, no key is added behind a comment, every value is one line, and the YAML library accepts the result |
| `FrontmatterCompile.CompileFrontmatterPatch` | src/services/frontmatterPatchCompiler.ts:597-693 | the compiler over character offsets gives exactly the result specified over lines, refusals included |
| `FrontmatterCompile.NextIsSpliced` | src/services/frontmatterPatchCompiler.ts:597-693 | an accepted result is the note with its authorized ranges replaced, and its remainder is the note without them |
| `FrontmatterCompile.BytesOutsideKept` | src/services/frontmatterPatchCompiler.ts:597-693 | every character outside the authorized ranges is kept |
| `FrontmatterCompile.BothPassesAgree` | src/services/frontmatterPatchCompiler.ts:569-595 | no two ranges of an accepted patch share a start, so that the loop from the back would give the same text and remainder |
| `FrontmatterCompile.SeparatorIsRefused` | src/services/frontmatterPatchCompiler.ts:649-693 | a note, a patch and a runtime in which a value with U+2028 is planned and the result is refused for an unsupported top-level line |
| `VaultPaths.NormalizeTwice` | src/services/vaultInstructions.ts:105-127 | a canonical path is its own canonical form |
| `VaultPaths.CanonicalSegments` | src/services/vaultInstructions.ts:105-127 | a canonical path has the meaningful segments of the original, none of them a step up |
| `VaultPathParts.PathIs` | src/services/vaultInstructions.ts:105-127 | a text is a vault path exactly with at most 4096 characters, none of them NUL, and at most 64 parts that count, none of them a dot or a step up and the first no drive; the canonical path has those parts in order |
| `InstructionChains.ProbedIff` | src/services/vaultInstructions.ts:126-487 | a path is probed exactly when it is a spelling of a configured name in a folder above a spelling of a target, or in the target itself if that is a folder |
| `InstructionChains.RulesGovern` | src/services/vaultInstructions.ts:468-527 | the rules of a call are governing files that exist, with their digests, and cover every existing one up to spelling |
| `InstructionOrder.EndingsAreIgnored` | src/services/vaultInstructions.ts:93-97 | contents that differ in the form of a line ending have one digest |
| `InstructionOrder.RulesAreRanked` | src/services/vaultInstructions.ts:489-515 | rules are listed shallower folders first, then in the configured order of names, then by path |
| `InstructionOrder.RuleIsPreferred` | src/services/vaultInstructions.ts:488-516 | of the spellings under which one file answers, a rule names the one preferred to all others |
| `InstructionRules.RulesMean` | src/services/vaultInstructions.ts:469-527 | the rules name existing files of the chains with their current digests, and cover every existing one up to spelling |
| `InstructionRules.DiffEmptyIffSameMaps` | src/mcp-server/vaultInstructionsGate.ts:953-969 | the difference from the sealed rules is empty exactly when both rule maps are equal |
| `InstructionRules.SameMapSameRules` | src/services/vaultInstructions.ts:488-516 | two lists of rules in the order of the same names are equal exactly when their difference is empty |
| `InstructionTargets.ExplicitIff` | src/mcp-server/vaultInstructionsGate.ts:136-144 | a call is resolved exactly when it names paths and every one of them resolves |
| `InstructionTargets.ResolvedAre` | src/mcp-server/vaultInstructionsGate.ts:125-144 | a resolved call has one target for each path it names: that file, in canonical form |
| `InstructionTargets.AdminTargets` | src/mcp-server/vaultInstructionsGate.ts:198-217 | the loop collects every source and every destination of the items |
| `InstructionTargets.AdminResolvedIff` | src/mcp-server/vaultInstructionsGate.ts:198-217 | a filesystem call is resolved exactly when it has items and every source and destination resolves |
| `InstructionTargets.MoveResolvedIff` | src/mcp-server/vaultInstructionsGate.ts:146-191 | a move is resolved exactly when source and destination both are |
| `InstructionTargets.RevealedMean` | src/mcp-server/vaultInstructionsGate.ts:731-745 | a plan's revealed targets are the files of all its affected paths, or unknown as soon as one does not resolve |
| `InstructionLedger.RecordAddsOne` | src/services/vaultInstructions.ts:194-236 | recording and looking up never invent a proof |
| `InstructionLedger.RecordedIsFound` | src/services/vaultInstructions.ts:218-236 | a proof just recorded is found whatever was forgotten, and the ledger stays bounded |
| `InstructionLedger.ReadLedger.RecordProof` | src/services/vaultInstructions.ts:218-228 | the map of readers changes as specified, oldest entries going first |
| `InstructionLedger.ReadLedger.LookUp` | src/services/vaultInstructions.ts:229-236 | a lookup answers the reader's proof and counts as a visit |
| `InstructionMemory.ServedIsRemembered` | src/services/vaultInstructions.ts:182-236 | a version served is remembered through any uses in which fewer other readers occur than there is room for, fewer other files are served to the reader than it keeps, and the reader is seen in time |
| `InstructionMemory.IdleIsForgotten` | src/services/vaultInstructions.ts:194-201 | a reader not seen for longer than its time has no proof left |
| `InstructionSeals.PurgeIsUnseen` | src/services/vaultInstructionsSeal.ts:76-84 | purging expired seals changes no later answer |
| `InstructionSeals.WrittenIsFound` | src/services/vaultInstructionsSeal.ts:85-127 | a seal is found until its retention has passed, and no other seal changes |
| `InstructionSeals.SealJournal.SealPlan` | src/services/vaultInstructionsSeal.ts:85-105 | a plan is sealed with the current time, replacing its earlier seal |
| `InstructionSeals.SealJournal.Get` | src/services/vaultInstructionsSeal.ts:106-127 | expired seals are not answered |
| `InstructionsGateRuns.StepKeeps` | src/mcp-server/vaultInstructionsGate.ts:747-1140 | every step of any call, probe or vault change keeps the invariant of calls, ledger, served contents and seals |
| `InstructionsGateRuns.ReachableKeeps` | src/mcp-server/vaultInstructionsGate.ts:747-1140 | that invariant holds in every state of every run |
| `InstructionsGateRuns.EnforcedToolIsInstructed` | src/mcp-server/vaultInstructionsGate.ts:747-1082 | under enforcement a tool is reached only after the same reader was served the current content of every configured file in every folder above each target the call asked for, as probed during the call |
| `InstructionsGateRuns.EnforcedApplyIsSealed` | src/mcp-server/vaultInstructionsGate.ts:971-1082 | under enforcement an apply reaches its tool only with a seal of its own plan family within its retention, inherited or written in the run over every path its plan asked for or revealed, whose vault, names and rules equal those of its targets probed again |
| `InstructionsGateRuns.ChangedShowsDifference` | src/mcp-server/vaultInstructionsGate.ts:1028-1047 | the digest differs exactly when the difference is not empty or the vault or the configured names are others; among changes, the difference is empty exactly when the files agree and the vault or the names are others |
| `InstructionsGateChanges.RefusedWithoutDifference` | src/mcp-server/vaultInstructionsGate.ts:1012-1047 | for any seal without files of another vault or other names, a run in which its apply is refused as changed with an empty difference |
| `InstructionsGateChanges.AddedNameRefusesApply` | src/mcp-server/vaultInstructionsGate.ts:1012-1047 | such a run in which one name was added to the configuration, which no file has |
| `InstructionsGateRuns.LedgerIsHistory` | src/mcp-server/vaultInstructionsGate.ts:1084-1140 | what the ledger holds for a reader was served to that reader |
| `InstructionsGateAnswers.StartWriteDecides` | src/mcp-server/vaultInstructionsGate.ts:747-811 | an enforced write is refused at once exactly when its targets are not known, or it is a plan that could not be sealed |
| `InstructionsGateAnswers.StartApplyDecides` | src/mcp-server/vaultInstructionsGate.ts:971-1010 | an enforced apply is refused at once exactly without a journal or a seal of its family in retention |
| `InstructionsGateAnswers.EvaluationDecides` | src/mcp-server/vaultInstructionsGate.ts:812-1065 | an evaluated call runs over its targets unless it is enforced and its seal was made for other rules, or its reader is not remembered to have been served every rule |
| `InstructionsGateAnswers.PlanReturns` | src/mcp-server/vaultInstructionsGate.ts:847-925 | a plan that returns is sealed at once exactly when it succeeded, named its plan, revealed nothing new and the journal takes the seal; with new targets it is evaluated again over all of them |
| `InstructionsGateAnswers.RevealedDecides` | src/mcp-server/vaultInstructionsGate.ts:868-925 | evaluated again, a plan is sealed over all targets unless it is enforced and a rule of them is not remembered as read |
| `InstructionsGateAnswers.ReadLeavesProofs` | src/mcp-server/vaultInstructionsGate.ts:1084-1140 | a read proves every one of its paths whose own copy is what was served |
| `TransferBrokerRuns.StepKeeps` | src/services/externalTransferBroker.ts:325-540 | every step but a disposal keeps the counters exact and within both limits, and no clamp takes effect |
| `TransferBrokerRuns.CapacityHolds` | src/services/externalTransferBroker.ts:325-540 | so in every run whose disposals find nothing outstanding: tickets, reservations and transfers stay within the limits in number and bytes |
| `TransferBrokerLog.ReserveGrantedIff` | src/services/externalTransferBroker.ts:476-497 | in such runs a reservation is granted exactly when unexpired tickets, open reservations and unfinished transfers leave room for it in number and bytes |
| `TransferBrokerRuns.DisposalIsSafeIff` | src/services/externalTransferBroker.ts:465-540 | after a disposal the limits hold in every continuation whose further disposals are idle exactly when nothing was reserved or in flight |
| `TransferBrokerRuns.DisposalBreaksCapacity` | src/services/externalTransferBroker.ts:465-502 | a run in which a disposal lets two tickets be listed where one is allowed |
| `TransferBrokerRuns.TicketsAreSingleUse` | src/services/externalTransferBroker.ts:418-463 | in every run a ticket is consumed at most once, by its owner, before it expires, and its buffer whole |
| `TransferBrokerLog.IssuedIsStored` | src/services/externalTransferBroker.ts:326-417 | every ticket issued stems from a store event of an issue: its buffer is the one stored, its owner the one of that reservation, its expiry the store time plus the time to live |
| `TransferBrokerLog.TicketsStand` | src/services/externalTransferBroker.ts:326-540 | the tickets listed are exactly the entries stored and neither consumed, disposed of nor swept since |
| `TransferBrokerLog.ConsumeAnswersIff` | src/services/externalTransferBroker.ts:418-463 | a consumption answers a buffer exactly when it was stored for this very caller, is not over, and was not taken away before; any other call gets nothing |
| `TransferBrokerObjects.ExternalTransferBroker.ReserveCapacity` | src/services/externalTransferBroker.ts:476-497 | a reservation is granted exactly when it fits both limits after expired tickets are dropped |
| `TransferBrokerObjects.ExternalTransferBroker.PruneExpired` | src/services/externalTransferBroker.ts:521-526 | the loop drops exactly the expired tickets |
| `TransferBrokerObjects.ExternalTransferBroker.Consume` | src/services/externalTransferBroker.ts:418-463 | a ticket is claimed only by its identity, and a claimed one is taken out and counted as in flight |
| `TransferBrokerObjects.StreamDelivers` | src/services/externalTransferBroker.ts:80-131 | after any sequence of pulls, cancel and timeout the lease is released at most once and exactly when the stream has ended, and a closed stream's chunks concatenate to the buffer |
| `TransferBrokerObjects.PullsClose` | src/services/externalTransferBroker.ts:107-126 | a stream that is only pulled closes after its chunks |
| `TransferBrokerObjects.HandoffStream.OnPull` | src/services/externalTransferBroker.ts:107-126 | a pull enqueues the next chunk, or closes and releases behind the last one |
| `ExtensionLifecycle.LifecycleHolds` | plugins/shared/restExtensionLifecycle.ts:103-246 | in every run mounts plus partial mounts minus unloads is 0 or 1 and says whether a cleanup is held, and exactly one timer is outstanding while running, none after a stop |
| `ExtensionLifecycle.RetryDelaysGrow` | plugins/shared/restExtensionLifecycle.ts:219-226 | retry delays stay between their bounds and never shrink with more failures in a row |
| `ExtensionLifecycle.RetryDelayDoubles` | plugins/shared/restExtensionLifecycle.ts:219-226 | the first retry waits for the initial delay, and each further one twice as long up to the longest, for twenty doublings |
| `ExtensionLifecycle.ProbeDecides` | plugins/shared/restExtensionLifecycle.ts:117-217 | phase, failures, what stays mounted and the next delay after a probe, told from what its callbacks did |
| `ExtensionLifecycle.StopDecides` | plugins/shared/restExtensionLifecycle.ts:109-115 | a stop releases the mount exactly if its cleanup works, and otherwise keeps it pending |
| `ExtensionLifecycle.MountsAreCalled` | plugins/shared/restExtensionLifecycle.ts:117-217 | a step calls mount at most once, only a call counts a mount or partial mount, and over an earlier mount only after its cleanup has run with success |
| `ExtensionLifecycle.NoMountOverAnother` | plugins/shared/restExtensionLifecycle.ts:117-185 | in every run every logged call to mount found no cleanup held, and its provider was not the one ready when the probe began |
| `ExtensionLifecycle.PendingCleanupIsKept` | plugins/shared/restExtensionLifecycle.ts:198-217 | a cleanup that has not succeeded is held until it does |
| `ExtensionLifecycleObject.RestExtensionLifecycle.RunProbe` | plugins/shared/restExtensionLifecycle.ts:117-185 | one probe, whatever its outcome, leaves the state of the life cycle's step |
| `ExtensionLifecycleObject.RestExtensionLifecycle.StopNow` | plugins/shared/restExtensionLifecycle.ts:109-115 | a stop clears the timer and disposes of the mount, or keeps its cleanup pending |
| `OperationCockpit.PageIsFirstRows` | src/services/operationCockpit.ts:201-243 | a page shows the first rows that remain, in the common order of all sources |
| `OperationCockpit.ListIs` | src/services/operationCockpit.ts:201-243 | a listing is refused exactly for a limit out of range, and otherwise shows the first rows and says whether more remain |
| `OperationCockpit.CursorIffMore` | src/services/operationCockpit.ts:201-243 | a next cursor is given exactly when rows remain |
| `OperationCockpit.RestRemains` | src/services/operationCockpit.ts:107-141 | behind the last row shown exactly the other rows remain |
| `OperationCockpit.FollowListsAll` | src/services/operationCockpit.ts:201-243 | following the cursors ends and lists every row exactly once in global order |
| `NoteCreate.ObserveCreateContent` | src/services/noteCreateContract.ts:69-114 | the loop over the fields gives the specified observation |
| `NoteCreate.StepsDrop` | src/services/noteCreateContract.ts:87-112 | the rewritten text differs from the sealed one in lines of the policy's fields only, one line more per field at most |
| `NoteCreate.OtherFieldKept` | src/services/noteCreateContract.ts:87-112 | explaining one field leaves the lines of the others |
| `NoteCreate.BodyKept` | src/services/noteCreateContract.ts:79-113 | explaining the fields in their observed order never inserts a line behind the closing delimiter |
| `NoteCreate.SettledMeans` | src/services/noteCreateContract.ts:69-114 | when date-settled: without policy lines both texts are the same, each field has one line at most in the frontmatter and none is lost, everything from the closing delimiter on and any sealed created date are unchanged, and the longest delay has elapsed |
| `NoteCreateAnswers.ObservedIff` | src/services/noteCreateContract.ts:33-114 | the policy is refused exactly when it is not acceptable; a note observed long enough is exact when as sealed, and settled exactly when texts lead to it from the sealed one, each explained by one field whose change the verifier accepts |
| `NoteCreateAnswers.StepIff` | src/services/noteCreateContract.ts:87-112 | a field explains exactly: nothing where both texts lack it or agree, else one line written in place of its own or where the observed text has it, never over a created date |
| `MarkdownMask.FencedIff` | src/services/markdownTags.ts:17-30 | a line is blanked as fenced exactly when a block opened at or before it has not been closed in between |
| `MarkdownFences.OpensIff` | src/services/markdownTags.ts:17-30 | a line opens a block exactly with at most three spaces and three or more markers, and no further backtick before its end behind backticks |
| `MarkdownFences.ClosesIff` | src/services/markdownTags.ts:17-30 | a line closes a block exactly with at most three spaces, at least as many of its markers, and nothing else but blanks |
| `MarkdownMask.CloseIsFirst` | src/services/markdownTags.ts:35-51 | a span is closed by the first run of backticks of its length |
| `MarkdownMask.SpansAreOk` | src/services/markdownTags.ts:31-53 | the spans are in order, apart, and each stands between two runs of equal length |
| `MarkdownMask.SpansAreComplete` | src/services/markdownTags.ts:31-53 | no span is missed: a run outside all spans that could have started one has no later run of its length |
| `MarkdownMask.MaskFencedLines` | src/services/markdownTags.ts:17-30 | the line loop blanks exactly the fenced lines and tells whether a fence is open at the end |
| `MarkdownMask.MaskSpansInPlace` | src/services/markdownTags.ts:31-53 | the loop that searches the array it overwrites blanks exactly the spans of the original text |
| `MarkdownMask.MarkdownWithoutCode` | src/services/markdownTags.ts:13-54 | fences first, then spans of what is left |
| `MarkdownMask.MaskingMeans` | src/services/markdownTags.ts:13-54 | length and line breaks stay, and a character becomes a space exactly inside a fenced region or a code span, of which none is missed |
| `ToolProfiles.LifecycleRolesByFamily` | src/mcp-server/toolProfiles.ts:141-152 | the loop maps each governed family to the roles its tools have |
| `ToolProfiles.RegistrationGate.Reconcile` | src/mcp-server/toolProfileRuntime.ts:31-73 | exactly the allowed tools end up enabled, and no handle is added or lost |
| `ToolProfiles.RegistrationGate.RegisterTool` | src/mcp-server/toolProfileRuntime.ts:31-73 | after each registration exactly the selected tools are enabled |
| `ToolProfilesProofs.SelectionIs` | src/mcp-server/toolProfiles.ts:210-306 | the selection is never refused, is in name order, and holds what stays of what is offered |
| `ToolProfilesProofs.FamiliesAreAtomic` | src/mcp-server/toolProfiles.ts:159-184 | of a governed family all tools are exposed or none |
| `ToolProfilesProofs.FamilyExposedIff` | src/mcp-server/toolProfiles.ts:154-172 | a governed family is exposed exactly when all its tools are offered |
| `ToolProfilesProofs.FallbackWithheldIff` | src/mcp-server/toolProfiles.ts:130-139 | an offered fallback is withheld exactly while its alternative family is exposed, or as historical |
| `ToolProfilesProofs.OnlyTheSetMatters` | src/mcp-server/toolProfiles.ts:286-306 | the outcome depends on the set of registered names only |
| `ToolProfilesProofs.RuntimeIsStatic` | src/mcp-server/toolProfiles.ts:242-306 | on the whole surface of a mode the selection is the static profile |
| `ToolProfilesExposure.ExposedIff` | src/mcp-server/toolProfiles.ts:186-306 | a known tool is exposed exactly when it is registered, of the profile and works now, with its whole family if governed, unless it is the fallback of a family that is there or the historical tool |
| `ToolProfilesExposure.CompiledIff` | src/mcp-server/toolProfiles.ts:210-263 | the static profile of a mode has exactly the tools that show among those of the mode whose requirements are met |
| `ToolProfilesExposure.WholeIff` | src/mcp-server/toolSurfaceRegistry.ts:319-324 | a family is whole with plan, apply and status, and recovery except for the seven short families |
| `ToolProfilesProofs.RegisterAll` | src/mcp-server/toolProfileRuntime.ts:31-73 | after any sequence of registrations exactly the selection from those names is enabled |

## Left out

- HTTP, the MCP SDK, stdio, SQLite, the file system and process spawning: kept as state with success or failure chosen freely.
- JSON and YAML parsing and rendering, hashing, base64: foreign code; digests stand for the text they are of, `modify` is a tree update, and rendering is a parameter.
- Unicode classes, case folding, normalization and collation are parameters, with what is used of them stated in `Conventional`, `StrictTotal` or `WellFormed`; text lengths count characters, not UTF-16 units.
- Stdio proxy: connection numbers start at 0 instead of 1; that sends are answered and connection attempts settle is left to their timeouts; external transfers, profiles and the contents of answers are not part of the steps.
- Canvas: size limits of the source, formatting of edits other than the removal of edges, and the choice of messages.
- Base configuration: keys that are not text, anchors and tags, comments inside sections, and the check of filters and values before the operations.
- CompileBaseConfigPatch: takes the validation of the resulting Base as a parameter, because that validator is another module.
- Semantic cache: dominant model and dimension, the decoding of vectors, statistics and maintenance; one process owns the database.
- Frontmatter: the scan for block and quoted scalars and the depth check of values are oracles; key order inside written values and the list of native keys are left to the renderer.
- Base formulas: only the edit and splice loops of that compiler; what a formula entry spans is not modelled.
- Instructions gate: targets that need other tools to resolve, wording of reports and refusals, mode `off`, the limiter and deadlines of probes (a probe fails at any time instead); the contract version in the rules digest is a constant.
- Transfer broker: the integrity check of a buffer on consumption (buffers are values here) and the fairness of the lock.
- Extension lifecycle: callbacks do not call `start`, `stop` or `probeNow` again, and error callbacks and timers do not throw.
- Cockpit: the text form of cursors, the public projection of a row, and filters that change between pages.
- Note creation: the verifier of one date line is a predicate, texts are lists of lines, and the policy's own format fields are not kept.
- Tool profiles: the full profile, which installs no gate, and the handles' own methods beyond enabling.
- Markdown: extraction of tags from the masked text; its rules follow from Unicode classes.
