# Verification of the header chain, filter sync, UTXO scan, block relay and notification logic

Dafny models of the stateful core of a merge-mined full node and its light client, with proofs of
what each part promises. `dafny verify dfyconfig.toml` checks the project.

Hashes are free constructors over what they hash, so no two things share a hash and no block is its
own ancestor. What a component cannot see is a parameter: the time, the mempool, the blocks a chain
has, the work and sanity of a header, the verdict of a filter, the order in which a map is read,
which channel is ready. A handler is one atomic step, and a run is a sequence of steps.

| module | models |
|---|---|
| `Chain`, `Stores` | header chains; the block and filter header stores with their index |
| `HeaderRules`, `HeaderSafety`, `HeaderList`, `HeaderRuns`, `BlockManager`, `HeaderRing` | handling of headers messages: what they do, what one message keeps, the same when the list in memory is ahead of the store, what runs keep, the imperative handler that does it, and the bounded list |
| `FilterHeaders`, `FilterSync`, `FilterSyncer` | checkpointed sync of filter headers with responses in any order |
| `FilterVote` | deciding which peers serve invalid filters |
| `SpendReporter`, `UtxoScan`, `UtxoScanner` | batched scan for spends that skips blocks by their filters |
| `CheckpointCache` | the cache behind filter checkpoint replies |
| `PeerState` | peer maps and group counters |
| `CompactBlock`, `CompactRelay` | compact-block relay |
| `Rescan`, `Notifications`, `Queues` | websocket rescans, request indexes and queues |

In each part the imperative code is a class or method with the loops and fields of the source,
proved against functions and predicates on values; the properties are lemmas about these.

What the code does not do, although one might expect it, is stated and proved with its exact
condition:

- New headers on the tip stop short if one of them fails its check after others were pushed to the
  list, or has another hash than the next checkpoint at its height. From a list that agrees with the
  store, a message whose headers stop short, and no other, leaves headers in the list that are not in
  the store (`HeaderSafety.HandleSafe` with `HeaderSafety.HandleStops`; `HeaderRuns.SecondHeaderFails`
  is a family of such messages).
- The handler goes by the back of the list. A message grafts if, after headers that are stored or are
  the back itself, its headers build on the back of a list that does not end in the tip of the store,
  and all of them pass on the list, up to the end or a right checkpoint. From every state with a chain
  in the store, every message leaves a chain exactly if it does not graft (`HeaderList.ReactChain`,
  and `BlockManager.Manager.HandleHeaders` for the handler itself), so over every run the store stays
  a chain exactly if no message grafts (`HeaderRuns.RunSafe`). `HeaderRuns.GraftAfterFailure` is a
  family of messages that do.
- From such a list a branch off the tip of the store may put a header at the height of the next
  checkpoint, where it is not compared with it; the exact condition is that of
  `HeaderRuns.ReactKeepsNextAbove`, and `HeaderRuns.CheckpointIsSkipped` is a case: a first wrong
  header at a checkpoint opens the way for a second.
- A header at a checkpoint's height is lost exactly if it is the tip and the message is a branch that
  is accepted (`HeaderRuns.CheckpointSurvives`; `HeaderRuns.CheckpointAtTipIsReplaced` is a case).
- An unspent output asked for twice is reported from the block of the later birth
  (`UtxoScan.AgreesWithNaive`). Requests are lost at a height exactly if its block cannot be fetched
  and a queued or arriving request is born there (`UtxoScanner.Scanner.ScanHeight`).
- A getcfcheckpt request that fails half way may overwrite the cache it shares its array with
  (`CheckpointCache.UnansweredKeeps`).
- A block that left the best chain is not a missing block to the database. A rescan goes on past a
  block that it cannot read only if the block is on the best chain and the database lost it; if the
  block left the best chain the rescan ends with a database error (`Rescan.Client.Step`,
  `Rescan.ReorganizedScan`).
- A rescan through the current block that finishes registers the client, except exactly if it missed a
  block and the chain then had none to go on with (`Rescan.Client.ScanBlockChunks`,
  `Rescan.UnregisteredScan`).
- A write to a websocket client that fails is not reported, and nothing is handed on to it any more
  (`Queues.NotificationQueue.NotificationQueueHandler`).

## Model

| member | source | states |
|---|---|---|
| Chain.DepthIsHeight | spv/blockmanager.go:2919-2943 | In a hash-linked chain from genesis the header at position i has exactly i ancestors, so position is height. |
| Chain.Distinct | spv/headerfs/store.go:334-353 | No header occurs twice in such a chain, so a hash has one height. |
| Chain.AncestorInChain | spv/blockmanager.go:3190-3231 | Following the parent link n times from position i of a chain gives position i - n. |
| Chain.AncestorBelowGenesis | spv/blockmanager.go:3190-3231 | Following it more often than there are ancestors gives none. |
| Stores.ChainStores.FetchHeader | spv/headerfs/store.go:334-353 | A hash finds a header and height exactly if the header is stored, and then the header with that hash at that height. |
| Stores.ChainStores.ChainTip | spv/headerfs/store.go:733-749 | The tip is the last stored header with its height. |
| Stores.ChainStores.FilterChainTip | spv/headerfs/store.go:1101-1118 | The filter tip is the last filter header with its height. |
| Stores.ChainStores.FetchHeaderAncestors | spv/headerfs/store.go:383-400 | The run of stored headers that ends at a hash, with the height it starts at. |
| Stores.AddEntries | spv/headerfs/index.go:189-235 | Adding the entries of a batch to the hash index keeps the index exact for the file with the batch appended, and its tip is the last header. |
| Stores.ChainStores.WriteHeaders | spv/headerfs/store.go:507-570 | A batch that continues the chain is appended: file, index and tip together stay valid, and filters stay as they were. |
| Stores.ChainStores.RollbackLastBlock | spv/headerfs/store.go:420-483 | Removes exactly the last header from file and index and returns the new tip; the inverse of writing one header. |
| Stores.ChainStores.RollbackLastFilter | spv/headerfs/store.go:1126-1163 | Removes exactly the last filter header and returns the new height. |
| Stores.ChainStores.WriteFilterHeaders | spv/headerfs/store.go:1030-1095 | A batch of filter headers that does not pass the block tip is appended. |
| HeaderRules.PreviousCheckpoint | spv/blockmanager.go:2164-2183 | The result is genesis or a checkpoint strictly below the height, and of ascending checkpoints the greatest such. |
| HeaderRules.NextCheckpoint | spv/blockmanager.go:2133-2157 | The result is a checkpoint strictly above the height, and of ascending checkpoints the least such; none only if there is none. |
| HeaderSafety.LookupFollowsLinks | spv/blockmanager.go:3190-3231 | From every header of a chain, looking an ancestor up in the in-memory list and then in the store by height gives what following parent links that often gives, for a chain extending the tip and for a branch whose upper part is only in the reorg list. |
| HeaderSafety.ViewIsAncestry | spv/blockmanager.go:2683-2726 | Header checks on a branch or on the tip see exactly the ancestry of the header. |
| HeaderSafety.PushAgrees | spv/blockmanager.go:2576-2608 | Pushing the next header keeps the bounded list a suffix of the chain. |
| HeaderSafety.DisconnectsListRemoved | spv/blockmanager.go:1282-1336 | Notification i of a rollback is for the i-th header from the old tip down, carries its height and its parent, and there is one for each removed header. |
| HeaderSafety.RollBackReports | spv/blockmanager.go:1282-1336 | A rollback cuts the block headers and the filter headers to the height, and the log grows by exactly one entry per removed header: entry i is the i-th header from the old tip, with its height and the header below it. |
| HeaderSafety.RollBackKeepsChain | spv/blockmanager.go:1282-1336 | Rolling back both stores leaves a chain whose filter headers do not lead. |
| HeaderSafety.ExtendSafe | spv/blockmanager.go:2551-2612 | Extending the tip keeps the store a chain at every exit, and list and store agree after it exactly if the exit is not one that leaves pushed headers unwritten. |
| HeaderSafety.ExtendStops | spv/blockmanager.go:2551-2612 | Extending leaves pushed headers unwritten exactly if the headers stop short: at some position, with all before it sane and below the next checkpoint, a header fails its check after others were pushed, or contradicts the next checkpoint. |
| HeaderSafety.SwitchSafe | spv/blockmanager.go:2780-2812 | Switching to the first header of an accepted branch keeps the store a chain, filters behind it, and the list in agreement. |
| HeaderSafety.SaneBranchNeverFails | spv/blockmanager.go:2683-2726 | A branch whose headers all passed while it was judged does not fail a header check while it is stored. |
| HeaderSafety.ReorgSafe | spv/blockmanager.go:2612-2812 | A reorganization keeps the store a chain at every exit; agreement of list and store after it is exactly decided by the exit. |
| HeaderSafety.Attachment | spv/blockmanager.go:2551-2660 | The headers of a message that are known come first, and the first new one attaches to the known one before it, at the height its parent has. |
| HeaderSafety.BatchedNeverBranches | spv/blockmanager.go:2551-2660 | Once a header of a message was batched on the tip, every later header builds on the one before it, so the reorganization branch is never taken after a header was batched. |
| HeaderSafety.HandleStops | spv/blockmanager.go:2475-2906 | A message leaves the list ahead of the store exactly if it attaches and its new headers stop short, on the tip or on an accepted branch: a condition on state and message. |
| HeaderSafety.HandleSafe | spv/blockmanager.go:2475-2906 | From a state whose list is a suffix of the store, every exit of every headers message leaves the block store a hash-linked chain from genesis with filters not leading it; and list and store agree afterwards exactly if the headers of the message do not stop short. |
| HeaderSafety.ExtendStoresAll | spv/blockmanager.go:2815-2866 | A message that completes stores all its new headers, unless it stopped at the checkpoint it reached. |
| HeaderSafety.WorkRule | node/blockchain/chain.go:1146-1160 | The tip changes exactly if there is more work and the lighter of the two tips weighs less than four times one more than the gain. |
| HeaderSafety.AcceptedExactlyIf | spv/blockmanager.go:2666-2776 | A branch is accepted if and only if no checkpoint below the tip is above its fork, its headers pass their checks, and the work rule is met. |
| HeaderSafety.ReorgGainsWork | spv/blockmanager.go:2730-2776 | A reorganization that completes without reaching the next checkpoint leaves strictly more cumulative work. |
| HeaderSafety.HandleKeepsWork | spv/blockmanager.go:2475-2906 | No message that completes without reaching a checkpoint loses cumulative work. |
| HeaderList.ExtendListIs | spv/blockmanager.go:2551-2612 | On a list that agrees with the store, checking and pushing headers by the list is extending the chain. |
| HeaderList.KnownWalkIs | spv/blockmanager.go:2730-2757 | On such a list the walk back through list and store sums the work of the stored headers above the fork. |
| HeaderList.JudgeListIs | spv/blockmanager.go:2666-2776 | On such a list the verdict on a branch is that of the rules. |
| HeaderList.PassedIsKnown | spv/blockmanager.go:2632-2645 | On such a list exactly the stored headers of a message are passed over. |
| HeaderList.ReactIsHandle | spv/blockmanager.go:2475-2906 | The reaction of the handler to a message, defined by the back of the list for any list, is what the rules say whenever the list agrees with the store. |
| HeaderList.ExtensionNeedsAgreement | spv/blockmanager.go:2551-2612 | Writing any run of headers that builds on the back of the list keeps the store a chain if and only if the back of the list is the tip of the store. |
| HeaderList.TakenIsWritten | spv/blockmanager.go:2815-2875 | An extension of the list that is taken is written as a whole, up to the end or the checkpoint it reaches, and starts on the old back of the list. |
| HeaderList.RefusedIsDropped | spv/blockmanager.go:2551-2612 | One that is not taken writes nothing: the store is as it was, or rolled back to a shorter chain. |
| HeaderList.ReactChain | spv/blockmanager.go:2475-2906 | From every state with a chain in the store, whatever the list holds, every message leaves the store a chain if and only if it does not graft: a condition on state and message. |
| HeaderList.ReactPlaced | spv/blockmanager.go:2576-2608 | After every message the back of the list is at the height that its ancestry gives, whether the list agrees with the store or not. |
| HeaderList.ReactTells | spv/blockmanager.go:2780-2851 | For every message on every list: an accepted branch disconnects exactly the stored headers above its fork, tip first; a contradicted checkpoint then disconnects exactly what is stored above the checkpoint before it; nothing else is sent; and filter headers leave with the headers they are for. |
| HeaderList.ReactMovesOn | spv/blockmanager.go:2814-2872 | The next checkpoint changes only when the store ends with the header of that checkpoint, and then to the one after it. |
| HeaderRuns.HandleKeepsCheckpoints | spv/blockmanager.go:2666-2682 | Every checkpointed header strictly below the tip survives every message. |
| HeaderRuns.ReorgDropsSuffix | spv/blockmanager.go:2612-2812 | An accepted branch drops every stored header above the fork, the tip included, also if it contradicts the next checkpoint later and is rolled back. |
| HeaderRuns.CheckpointSurvives | spv/blockmanager.go:2612-2812 | A stored header at a checkpoint height survives a message if and only if it is not the tip or the message is not a branch off a header below it that is accepted. |
| HeaderRuns.CheckpointAtTipIsReplaced | spv/blockmanager.go:2666-2682 | A checkpoint at the tip itself is not protected: a heavier branch replaces it and the next checkpoint is not set back. |
| HeaderRuns.HandleKeepsNextAbove | spv/blockmanager.go:2780-2830 | On a list that agrees with the store every message keeps the next checkpoint above the tip, so the first header of an accepted branch, which is not compared with it, is never at its height. |
| HeaderRuns.SecondHeaderFails | spv/blockmanager.go:2576-2612 | Two headers on the tip of which the second fails its check: the store stays as it was, the first header stays at the back of the list, and the two disagree. |
| HeaderRuns.GraftAfterFailure | spv/blockmanager.go:2551-2640 | After it, a header on that first header is grafted if it passes on the list, alone or after the first header itself: the store has it after a header that it does not build on. |
| HeaderRuns.RunSafe | spv/blockmanager.go:1994-2047 | Over every run of headers messages, from any peers and whether list and store agree or not, and of sync-peer disconnects: the store is a hash-linked chain throughout if and only if no message grafts onto the state it meets, and then filter headers never lead it. |
| HeaderRuns.ReactKeepsNextAbove | spv/blockmanager.go:2780-2830 | From any list, a message that does not graft keeps the next checkpoint above the tip if and only if it is not an accepted branch off the tip of the store whose first header is at the height of the checkpoint. |
| HeaderRuns.CheckpointIsSkipped | spv/blockmanager.go:2780-2850 | With only genesis stored, a header that contradicts the checkpoint above it stays in the list, and a heavier header beside it is then accepted whatever its hash, and the checkpoint is never met. |
| HeaderRuns.DisciplinedSafe | spv/blockmanager.go:440-467 | A run in which every message that stops short is followed by a sync-peer disconnect never grafts; the next checkpoint stays above the tip, and list and store agree at the end unless the last message stopped short. |
| HeaderRuns.StepSafe | spv/blockmanager.go:440-467 | Resetting the list on a sync-peer disconnect always restores agreement, and a message on an agreeing list does not graft and loses agreement exactly if it stops short. |
| BlockManager.Manager.FindPreviousHeaderCheckpoint | spv/blockmanager.go:2164-2183 | The loop finds the checkpoint that PreviousCheckpoint characterizes. |
| BlockManager.Manager.FindNextHeaderCheckpoint | spv/blockmanager.go:2133-2157 | The backward loop with its early exits finds the checkpoint that NextCheckpoint characterizes. |
| BlockManager.Manager.AreHeadersConnected | spv/blockmanager.go:2919-2943 | True exactly if every header of the message names the one before it as its parent. |
| BlockManager.Manager.RollBackTip | spv/blockmanager.go:1282-1336 | One turn of the rollback loop takes the block tip off, the filter tip with it if it is as high, and appends one disconnect, of the old tip with its height and the header below it. |
| BlockManager.Manager.RollBackToHeight | spv/blockmanager.go:1282-1336 | The block headers and the filter headers are cut to the height, and the log grows by exactly one disconnect per removed header, tip first, each with its height and the header below it; it terminates and never fails on a valid state. |
| BlockManager.Manager.ResetHeaderState | spv/blockmanager.go:440-467 | Restores agreement of list and store. |
| BlockManager.Manager.RelativeAncestorCtx | spv/blockmanager.go:3190-3231 | The backward walk through the list followed by the store lookup computes RelativeAncestor, which LookupFollowsLinks relates to parent links. |
| BlockManager.Manager.CheckBranch | spv/blockmanager.go:2678-2728 | Accepts exactly the branches all of whose headers pass against their own ancestry, and its sum is the work of the message suffix. |
| BlockManager.Manager.KnownWork | spv/blockmanager.go:2730-2757 | The walk through list and store sums the work of the list from its back down and then of the parents found in the store; if the list agrees with the store, exactly the work of the stored headers above the fork. |
| BlockManager.Manager.JudgeBranch | spv/blockmanager.go:2666-2776 | The verdict on a branch, from any list: refused below the checkpoint before the back of the list, refused if a header fails, refused unless the work rule says to change, else accepted. |
| BlockManager.Manager.CompareWork | spv/blockmanager.go:2730-2776 | Applies the work rule to the work that the walk finds, from any list, and that of the branch; if the list agrees with the store, to the work of the stored suffix. |
| BlockManager.Manager.SwitchToBranch | spv/blockmanager.go:2780-2812 | Rolls both stores back to the fork, stores the first header of the branch and leaves a two-node list. |
| BlockManager.Manager.HandleBranch | spv/blockmanager.go:2612-2812 | From any list, a header that does not build on its back is an orphan, refused, or switched to; a switch leaves stores and list in agreement. |
| BlockManager.Manager.MeetCheckpoint | spv/blockmanager.go:2814-2851 | At the next checkpoint the batch is written and the next checkpoint moves on if the hash is right; else both stores go back to the checkpoint before. |
| BlockManager.Manager.HandleHeaders | spv/blockmanager.go:2475-2906 | From every valid state, whatever the list holds, the whole handler, with its nested loops, early exits, two lists and two stores, computes the exit and state of React; the store stays a chain, and the stores valid, if and only if the message does not graft. From a state whose list agrees with the store it computes what the declarative rules give. The disconnects sent are exactly those of the headers that an accepted branch or a contradicted checkpoint removes, and the next checkpoint moves on only with its header. |
| HeaderRing.BoundedMemoryChain.PushBack | spv/headerlist/bounded_header_list.go:90-137 | The ring with wrapping pointers holds the last maxSize nodes in order, each linked to the one before; in a ring of one slot a node that replaces another is linked to itself. |
| HeaderRing.BoundedMemoryChain.ResetHeaderState | spv/headerlist/bounded_header_list.go:52-58 | The ring holds exactly the given node. |
| HeaderRing.BoundedMemoryChain.WalkBack | spv/headerlist/bounded_header_list.go:64-70 | Walking back n links from the end gives the n-th last node held, and none past the oldest; from a node linked to itself, in a ring of one slot, it gives that node for ever. |
| FilterHeaders.FoldConcat | spv/blockmanager.go:1194-1219 | Folding a prefix of filter hashes and then the rest is folding the whole. |
| FilterHeaders.FoldInjective | spv/blockmanager.go:1360-1375 | Two lists of filter hashes that lead from one filter header to the same one are equal. |
| FilterHeaders.FoldHashes | spv/blockmanager.go:1194-1219 | The filter hashes between two headers of a chain fold from one to the other. |
| FilterHeaders.FoldsHashes | spv/blockmanager.go:1202-1219 | The headers computed from these hashes are the headers of the chain. |
| FilterHeaders.Quotient | spv/blockmanager.go:956-976 | Integer division finds the last checkpoint at or below a height. |
| FilterSync.QueriesConnect | spv/blockmanager.go:985-1034 | The queries built from an interval on tile the heights up to the last checkpoint: each starts where the last ended. |
| FilterSync.QueriesApart | spv/blockmanager.go:985-1034 | Queries do not overlap and have different intervals. |
| FilterSync.VerifiedAreEqual | spv/blockmanager.go:1360-1375 | Two responses accepted between the same checkpoints carry identical filter hashes. |
| FilterSync.VerifiedAnswers | spv/blockmanager.go:846-940 | A response that passes the two checkpoint checks of its query carries exactly the filter hashes of the chain the checkpoints were sampled from. |
| FilterSync.AnswerPosition | spv/blockmanager.go:1090-1116 | A response covers only written heights exactly if its query is behind the write position. |
| FilterSync.Enqueued | spv/blockmanager.go:1104-1121 | Stashing a response that came early keeps the run consistent. |
| FilterSync.AlignedWrite | spv/blockmanager.go:1123-1168 | The response taken next continues the store exactly, for the first query after trimming by the outer start height, so the out-of-order error does not occur. |
| FilterSync.Advanced | spv/blockmanager.go:1164-1173 | Writing the next response moves the run on by one query. |
| FilterSync.FinishedWhenAllAnswered | spv/blockmanager.go:1066-1183 | With nothing stashed at the write position, the run is finished exactly when every query was answered, and then the last checkpoint is reached. |
| FilterSyncer.VerifyCheckpoint | spv/blockmanager.go:1360-1375 | True exactly if the response starts at the previous checkpoint and its hashes fold to the next. |
| FilterSyncer.Syncer.WriteCFHeadersMsg | spv/blockmanager.go:1191-1278 | Appends the headers of a message that continues the filter store and fits below its stop block; refuses one that is empty, does not continue it or does not fit. |
| FilterSyncer.Syncer.WriteNext | spv/blockmanager.go:1123-1173 | Takes the stashed response at the write position, trims it and writes it: the store is again a prefix of the sampled chain, one query further. |
| FilterSyncer.Syncer.BuildQueries | spv/blockmanager.go:985-1034 | Every query gets the stop hash of its last block, and distinct queries distinct ones. |
| FilterSyncer.Syncer.HandleResponse | spv/blockmanager.go:846-940 | Accepts a message exactly if it is the answer to the query it is offered for. |
| FilterSyncer.Syncer.Deliver | spv/blockmanager.go:1090-1173 | A duplicate or late response is dropped, an early one is stashed, and one at the write position is written with all stashed ones that follow it. |
| FilterSyncer.Syncer.GetCheckpointedCFHeaders | spv/blockmanager.go:945-1183 | For every arrival order of responses, duplicates included, the filter store stays a prefix of the chain the checkpoints were sampled from; the sync completes exactly if every query was answered, and then the store ends at the last checkpoint, at its count times the interval. |
| SpendReporter.FindAll | spv/batch_spend_reporter.go:169-246 | One pass over the block with a shrinking index of transaction ids finds, for every new request, the output at its index of the first transaction with its id, with block hash, height and position, and nothing exactly if there is no such output. |
| SpendReporter.CreatedIs | spv/batch_spend_reporter.go:169-246 | The report of a block for an outpoint is none exactly if no transaction has the id or the first one that has it has no output at the index; else it has that output of that transaction, the hash of the block, the height and the position of the transaction. |
| SpendReporter.RecordsCreations | spv/batch_spend_reporter.go:169-246 | So is the recorded report of every new request, and the reports of other outpoints stay. |
| SpendReporter.InitialsAre | spv/batch_spend_reporter.go:224-246 | The recorded report of an outpoint is overwritten by every new request for it and else kept; the map has the same keys as the requests. |
| SpendReporter.AddedLists | spv/batch_spend_reporter.go:144-161 | Adding new requests makes exactly these wait as well, none twice and none answered. |
| SpendReporter.Reporter.NotifyRequests | spv/batch_spend_reporter.go:94-107 | Every request waiting for the outpoint gets the answer, none a second one, and the outpoint leaves all three maps. |
| SpendReporter.Reporter.AddNewRequests | spv/batch_spend_reporter.go:144-161 | The watch list keeps covering exactly the cached scripts. |
| SpendReporter.Reporter.FindInitialTransactions | spv/batch_spend_reporter.go:169-246 | The report recorded for every new request is the output at its index of the first transaction of the block with its id, or none exactly if there is no such output; the reports of other outpoints stay. |
| SpendReporter.Reporter.NotifySpends | spv/batch_spend_reporter.go:251-287 | The outpoints answered are exactly those that the block spends, each with its first spend in transaction and input order; the others stay. |
| SpendReporter.Reporter.ProcessBlock | spv/batch_spend_reporter.go:115-139 | After a block the three maps have equal keys, the watch list covers the script cached for every outstanding outpoint, that of its first request, and requests, answers and reports are those of the old state with the new requests, less what the block spends. |
| SpendReporter.Reporter.NotifyUnspentAndUnfound | spv/batch_spend_reporter.go:60-75 | Every request still waiting gets the recorded report, or a nil report if there is none, and none is left. |
| SpendReporter.Reporter.FailRemaining | spv/batch_spend_reporter.go:82-88 | Every request still waiting gets the error, and none is left. |
| UtxoScan.FirstSpendIsFirst | spv/batch_spend_reporter.go:251-287 | The reference scan is none exactly if no input in the range spends the outpoint, and else the least position in height, transaction and input order. |
| UtxoScan.JoinScanned | spv/batch_spend_reporter.go:115-127 | Requests born at a height join a batch that scanned the blocks below it. |
| UtxoScan.BlockScanned | spv/batch_spend_reporter.go:115-139 | Reading a block keeps: whatever was answered is its request's first spend, whatever waits is unspent since its birth, and the recorded report is that of the latest birth. |
| UtxoScan.SkipScanned | spv/utxoscanner.go:323-343 | Skipping a block whose filter does not match the watch list keeps the same, if filters have no false negatives and requests name true scripts. |
| UtxoScan.BatchEnds | spv/batch_spend_reporter.go:60-75 | At the end of a batch every answer is the first spend, or else the creation in the block of the latest birth among the unspent requests for the outpoint. |
| UtxoScan.AnswerIs | spv/utxoscanner.go:281-395 | The answer in positions: the first input in order of height, transaction and input that spends the outpoint; else, from the block of the latest birth, the output at the index of the first transaction with the id, or nothing exactly if there is none. |
| UtxoScan.AgreesWithNaive | spv/batch_spend_reporter.go:229-243 | A batched answer equals that of a scan for the request alone if and only if the output is spent, or the request has the latest birth for its outpoint, or neither block makes the output. |
| UtxoScan.EqualBirthsAgree | spv/batch_spend_reporter.go:229-243 | Hence they are equal when requests for one outpoint share their birth height. |
| UtxoScan.LaterBirthHidesOutput | spv/batch_spend_reporter.go:229-243 | A chain and batch on which they differ. |
| UtxoScanner.ProcessConserved | spv/utxoscanner.go:305-373 | A block moves dequeued requests to the waiting ones and waiting ones to the answered, and loses or doubles none. |
| UtxoScanner.EndConserved | spv/batch_spend_reporter.go:60-88 | The end of a batch moves all that wait to the answered. |
| UtxoScanner.JoinAnswers | spv/utxoscanner.go:51-59 | No request answered in a batch had been answered before. |
| UtxoScanner.LoseConserved | spv/utxoscanner.go:345-367 | Dropping dequeued requests loses exactly these: requests are conserved if and only if there were none. ScanHeight says when there are some. |
| UtxoScanner.DueRead | spv/utxoscanner.go:305-373 | A request queued when the batch began is taken in at its own height. |
| UtxoScanner.Scanner.Enqueue | spv/utxoscanner.go:175-206 | A new request, with the outpoint, script and birth of its input, is put on the heap, and nowhere else. |
| UtxoScanner.IssuedHas | spv/utxoscanner.go:175-206 | Input k of those that arrive becomes the request with the k-th number, and with its outpoint, script and birth. |
| UtxoScanner.Scanner.EnqueueAll | spv/utxoscanner.go:175-206 | Every arriving input becomes one request, known and on the heap, and nothing else changes. |
| UtxoScanner.Scanner.Peek | spv/utxoscanner.go:403-427 | An element of least birth. |
| UtxoScanner.Scanner.DequeueAtHeight | spv/utxoscanner.go:258-276 | Takes out exactly the requests born at the height and puts aside exactly those born below it; the rest stays. |
| UtxoScanner.Scanner.Admit | spv/utxoscanner.go:305-330 | What is dequeued at a height is not empty exactly if a queued or arriving request is born there. |
| UtxoScanner.Scanner.ScanHeight | spv/utxoscanner.go:305-373 | One height of a batch keeps every request in exactly one place; a stop fails what waits; and requests are lost if and only if the fault at the height falls between dequeuing and processing and a queued or arriving request is born there. |
| UtxoScanner.Scanner.ScanFromHeight | spv/utxoscanner.go:281-395 | A batch that completes answers as BatchAnswers says, answers every request that was queued at its start with a birth in its range, and loses none, however the best height grows and requests arrive; a stopped one answers true first spends or the error and loses exactly what it dequeued last; without a fault between dequeuing and processing nothing is lost. It is done only above the best height at its start and above the last one it read, and always if there is no fault and no failing snapshot. |
| UtxoScanner.BatchIsTrue | spv/utxoscanner.go:281-395 | Every answer of a batch that is done is the first spend, or the creation of the output in a block from the birth on with no spend below the end of the batch. |
| UtxoScanner.Scanner.Turn | spv/utxoscanner.go:213-254 | A batch without a fault or failing snapshot answers every request of the heap, of the next batch and of the inputs that is born at or below the best height at its start, and every answer is true. |
| UtxoScanner.Scanner.BatchManager | spv/utxoscanner.go:213-254 | Over any run of batches every request ever enqueued is in exactly one of heap, next batch, answered or lost, no answer ever changes, nothing is lost in a run without a fault between dequeuing and processing, and every input of every turn becomes a known request with a number of its own; every request known at first and every input of a turn is answered by each undisturbed batch from that turn on whose best height reaches its birth, unless it was lost before; and every answer is an error, the first spend, or a true creation. |
| CheckpointCache.IntervalBlockHashes | node/blockchain/chain.go:1658-1691 | The top-down walk that switches to the best chain when it meets it gives the ancestors of the block at every interval. |
| CheckpointCache.SharedBelow | node/server.go:1299-1308 | If the cache and the request share the block at one position they share all below, and the cached filter headers are right. |
| CheckpointCache.ReplyIsDirect | node/server.go:1310-1360 | From a good cache a reply is that of looking every checkpoint block up. |
| CheckpointCache.AnsweredKeeps | node/server.go:1336-1364 | An answered request leaves the cache as it was or makes it the entries of its own branch, whether or not the slice was copied. |
| CheckpointCache.UnansweredKeeps | node/server.go:1328-1360 | An unanswered request leaves the cache good if and only if it did not grow the slice in place, find some blocks and stop at a missing one below the old end. |
| CheckpointCache.BrokenMisleads | node/server.go:1336-1360 | After a request that breaks the cache, the next request for the block of the first old entry left gets the filter header of the failed branch in place of its ancestor's. |
| CheckpointCache.BreakingQuery | node/server.go:1276-1360 | Such a request exists. |
| CheckpointCache.RunRight | node/server.go:1219-1367 | Over any run of requests on any tree of blocks, the cache stays right and every answer is that of looking every block up if and only if no request breaks the cache it meets. |
| CheckpointCache.SucceedingRun | node/server.go:1219-1367 | The same for every run in which all lookups succeed. |
| CheckpointCache.Cache.Append | node/server.go:1276-1290 | Growing a slice in place or into a copy: same entries, zero entries after them, and the old slice reads as before. |
| CheckpointCache.Cache.Fill | node/server.go:1336-1360 | Entries are written as they are found, up to the first block the index lacks. |
| CheckpointCache.Cache.OnGetCFCheckpt | node/server.go:1219-1367 | The handler on the slice with its capacity computes the reply and the cache of the specification; from a good cache the reply is the direct one. |
| CompactBlock.BuildCompactBlock | node/cmpctblock.go:327-352 | A compact block is built exactly for a stored block with transactions: coinbase in full, every other transaction as its short id, in order. |
| CompactBlock.ShortIdsSuffice | node/cmpctblock.go:186-205 | With indexes in range, the short ids suffice for the free slots exactly if no prefilled index is repeated, and then none is left over. |
| CompactBlock.ShortIdSlot | node/cmpctblock.go:186-205 | Every short id then belongs to exactly one slot. |
| CompactBlock.MissingIs | node/cmpctblock.go:186-205 | The missing list is strictly increasing and in range, and lists exactly the empty slots. |
| CompactBlock.OnGetBlockTxn | node/cmpctblock.go:62-101 | A request is answered exactly if its indexes strictly increase, are in range and their transactions fit one message, and then with these transactions. |
| CompactBlock.CompletedAt | node/cmpctblock.go:250-259 | Putting the requested transactions in fills the missing slots and leaves the others. |
| CompactBlock.RoundTrip | node/cmpctblock.go:163-260 | Build, rebuild from the mempool, ask for the missing and complete: the indexes asked for are acceptable to the sender, no slot stays empty, and the result is the original list if and only if no short id finds another transaction in the mempool. |
| CompactRelay.PlacePrefilled | node/cmpctblock.go:169-178 | Refuses exactly the messages with an index out of range; else every slot holds the last transaction given for it. |
| CompactRelay.IndexPool | node/cmpctblock.go:180-186 | The index holds for every short id the last mempool transaction with it. |
| CompactRelay.FillSlots | node/cmpctblock.go:188-205 | The loop reaches its end exactly if there are no more free slots than short ids, and then every slot is as specified and the missing ones are listed. |
| CompactRelay.Rebuild | node/cmpctblock.go:163-205 | Reconstruction succeeds if and only if the prefilled indexes are distinct and in range. |
| CompactRelay.Receiver.EvictStale | node/cmpctblock.go:265-272 | Drops exactly the reconstructions older than the limit. |
| CompactRelay.Receiver.AssembleAndProcess | node/cmpctblock.go:291-321 | Hands on exactly a full list as a block, and asks for the full block if it is refused and still missing. |
| CompactRelay.Receiver.OnCmpctBlock | node/cmpctblock.go:108-232 | At most sixteen reconstructions are pending after every message, each with exactly its gaps listed; what is kept and sent is what Reaction says of the message, mempool, time and chain. |
| CompactRelay.Receiver.OnBlockTxn | node/cmpctblock.go:236-260 | The pending reconstruction is taken out; with the right number of transactions no slot stays empty and the block is handed on; else the full block is asked for. |
| CompactRelay.Announced | node/cmpctblock.go:108-260 | The first answer to an announced block that passes the checks is the block or a request for exactly the missing transactions. |
| CompactRelay.ReactionIs | node/cmpctblock.go:108-232 | For every announcement: nothing is sent exactly for a block that is there, one that comes too soon and one without transactions or with too many; a block is handed on exactly if every slot could be filled, with these transactions, and the full one asked for if it is refused; what is missing is asked for and kept exactly if there is room; else the full block is asked for. |
| CompactRelay.Relay | node/cmpctblock.go:62-352 | Between two nodes a block is delivered within two exchanges, and is the block that was sent if and only if no short id collides. |
| PeerState.Disjoint | node/server.go:180-186 | No peer is in two maps and no group counter is negative. |
| PeerState.Joins | node/server.go:1959-1980 | Adding a peer keeps the maps of their kinds, the maximum and the counters. |
| PeerState.Leaves | node/server.go:2054-2060 | Taking a peer that is done out keeps them if and only if its group is discounted or it was neither outbound nor persistent. |
| PeerState.NextIsFit | node/server.go:2461-2481 | In a run where every peer is added at most once and then done at most once, each event finds its peer unfinished and, when it is to be added, unknown. |
| PeerState.State.HandleAddPeer | node/server.go:1905-1980 | A peer is added exactly if the checks pass, it is not banned and there is room, and then to the map of its kind only, with its group counted. |
| PeerState.State.HandleDonePeer | node/server.go:2024-2060 | A finished peer is in no map; the counters stay exact if and only if its version is known or it was not among the outbound and persistent peers. |
| PeerState.State.RemoveNode | node/server.go:2280-2291 | Takes one persistent peer that is meant out, if there is one, and discounts its group. |
| PeerState.State.DisconnectNode | node/server.go:2307-2336 | Takes one inbound peer that is meant out or else all outbound ones, with their groups. |
| PeerState.State.GetOutboundGroup | node/server.go:2292-2298 | The counter is the number of outbound and persistent peers of the group. |
| PeerState.State.PeerHandler | node/server.go:2486-2556 | Over every run of events in which peers live as they do, counters, kinds and maximum hold throughout, no finished peer is in a map, and every event does its work: a peer is added exactly if it passes and there is room, is gone when done, and the queries take out the peers that are meant; bans are lifted exactly when a peer passes. |
| FilterVote.MajorityRemains | spv/blockmanager.go:1709-1780 | If every filter fits the block, a ban list under a strict majority leaves at least that many peers, and if it was decided by vote all peers left serve one filter. |
| FilterVote.OneWinner | spv/blockmanager.go:1731-1757 | Under a strict majority two filters cannot both have enough votes. |
| FilterVote.ByVoteIs | spv/blockmanager.go:1707-1738 | It comes to a vote exactly if too few peers have fewer unexpected matches than some other. |
| FilterVote.MajorityIsStrict | spv/blockmanager.go:1622-1625 | The threshold used is the least strict majority. |
| FilterVote.CountVotes | spv/blockmanager.go:1731-1748 | The tally, read in any order, counts every filter hash and finds the greatest count; it fails exactly if a filter has no hash. |
| FilterVote.ResolveFilterMismatch | spv/blockmanager.go:1645-1780 | With filters that fail the block exactly their peers are banned. With none failing, if enough peers have fewer unexpected matches than some other, a peer is banned if and only if no peer has more than it; else the vote decides, it fails exactly if a filter has no hash or none has enough votes, and a peer is banned if and only if some filter has more votes than its own. |
| Rescan.RescanBlock | node/rpcwebsocket.go:2212-2351 | The unspent set after a block is what its transactions, inputs before outputs, make of the set before. |
| Rescan.AfterIs | node/rpcwebsocket.go:2212-2351 | An output is unspent after a run of transactions exactly if it was there and not spent, or was paid at some point and not spent since. |
| Rescan.FinalSet | node/rpcwebsocket.go:2212-2351 | The final set is the initial set and everything paid less everything spent, if and only if no spent output is paid again after its last spend. |
| Rescan.OrderedTxs | node/rpcwebsocket.go:2212-2351 | Which holds when no output is paid at or after a transaction that spends it. |
| Rescan.HeightRange | node/blockchain/chain.go:1569-1610 | The hashes of the best chain in a range of heights, as far as the chain reaches, each the parent of the next; refused for bad bounds. |
| Rescan.BlockByHash | node/blockchain/chainio.go:1525-1542 | Finds a block exactly if it is on the best chain at that moment and the database has it. |
| Rescan.Client.FetchBlock | node/rpcwebsocket.go:2611-2625 | Reading a block fails with an error of its own exactly if the block is off the best chain at that read or the database is broken; it finds the block exactly if it is on the best chain and the database is fine. |
| Rescan.Client.Visit | node/rpcwebsocket.go:2658-2681 | A block is visited only if it follows the last one visited; the visited blocks stay hash-linked and the unspent set follows them. |
| Rescan.Client.RecoverFromReorg | node/rpcwebsocket.go:2488-2529 | The new range goes on from the next height; an error of reorganization means that a chain that was read has another block in the place of the last one visited. |
| Rescan.Client.Step | node/rpcwebsocket.go:2610-2681 | A block that is off the best chain when it is read ends the scan with a database error and is not visited; one that is there is visited unless the run starts off the last block; the scan goes on without visiting only if the database lost the block and there is no last height. |
| Rescan.Client.ScanRun | node/rpcwebsocket.go:2609-2708 | Working through a chunk, recoveries included, keeps the visited blocks hash-linked. |
| Rescan.SteadyKeeps | node/rpcwebsocket.go:2535-2712 | While the best chain only grows and the database works, a block that was read is found again and no chain forks from it. |
| Rescan.Client.ScanBlockChunks | node/rpcwebsocket.go:2535-2712 | For all chunk boundaries, recoveries and changes of the best chain: the visited blocks are a hash-linked run from the first height and not beyond the last, each on the best chain when it was read; the unspent set is what their transactions make of the initial one; the scan ends only at the last height or where a chain ended; an error of reorganization has its cause; a database error means that the last read was for the next block, which an earlier read had on the best chain, and did not find it, or that the first height is negative; if the first block leaves the best chain after its hash was read the scan ends with that error; there is no error while the best chain only grows and the database works; and the client is registered only at the tip of the best chain, or without having visited a block. A scan through the current block that finishes below the last height registers the client if and only if its last two reads did not miss a block and then find none to go on with; while the best chain only grows and the database works every such scan registers it, and one that ends for want of reads made at most four for each block visited and three more. |
| Rescan.ReorganizedScan | node/rpcwebsocket.go:2610-2625 | A block replaced by another while a rescan through the current block is under way, with no database fault: the scan ends with a database error. |
| Rescan.UnregisteredScan | node/rpcwebsocket.go:2632-2660 | A first block that the database lost and that then left the best chain makes a rescan through the current block finish without registering the client. |
| Notifications.Index.Add | node/rpcwebsocket.go:810-830 | The request is recorded with the client and the client is listed; nothing else changes. |
| Notifications.Index.Remove | node/rpcwebsocket.go:859-879 | The request leaves both sides, and an entry without clients goes. |
| Notifications.Index.RemoveClient | node/rpcwebsocket.go:470-484 | Exactly the requests of the client go. |
| Notifications.Manager.NotifyForTxIns | node/rpcwebsocket.go:1004-1037 | The clients told are exactly those that watch an input; if the transaction is confirmed nobody watches its inputs any more, and all else stays. |
| Notifications.Manager.NotifyForTxOuts | node/rpcwebsocket.go:915-961 | The clients told are exactly those that watch an address that is paid, and exactly these watch the output from then on. |
| Notifications.Manager.NotifyForTx | node/rpcwebsocket.go:989-998 | What is watched after a transaction, confirmed or not, and exactly who is told of it. |
| Notifications.FollowsMore | node/rpcwebsocket.go:430-443 | The watch state of every client after one more transaction. |
| Notifications.SpentIsForgotten | node/rpcwebsocket.go:430-443 | After a block in order of dependency no client watches an outpoint that the block spends. |
| Notifications.Manager.BlockJoins | node/rpcwebsocket.go:430-443 | After a connected block the outpoints that a client watches are exactly what a rescan for its addresses would make of the ones before; and with transactions in order of dependency no outpoint that the block spends is watched; of every transaction exactly the clients are told that watch an input, by what the transactions before it made of the requests, or an address that it pays. |
| Notifications.Manager.RegisterSpentRequests | node/rpcwebsocket.go:810-830 | Exactly the given outpoints are watched for the client as well. |
| Notifications.Manager.RegisterAddrRequests | node/rpcwebsocket.go:1051-1069 | Exactly the given addresses are watched for the client as well. |
| Notifications.Manager.Unregister | node/rpcwebsocket.go:470-484 | A client that leaves is in no index and no list, and nobody else is affected. |
| Notifications.Manager.Handle | node/rpcwebsocket.go:425-516 | Every event keeps the index two-way, makes exactly its change to the subscriptions and no other, and tells of each transaction exactly the clients that watch, by then, one of its inputs or an address that it pays. |
| Notifications.Manager.NotificationHandler | node/rpcwebsocket.go:406-516 | The same over every run of events. |
| Notifications.GoneUntilBack | node/rpcwebsocket.go:406-516 | In every run a client that left, or that asked for nothing, has no subscription until an event of its own. |
| Queues.Queue.Handle | node/rpcwebsocket.go:151-190 | What was handed on followed by what is queued is what was received, in order; sending past the queue is possible exactly while it is empty. |
| Queues.Queue.QueueHandler | node/rpcwebsocket.go:151-190 | The same over every run until it stops; what was received is exactly what arrived before that, and what is still queued is what readers that were ready have not taken. |
| Queues.ArrivalAt | node/rpcwebsocket.go:151-190 | Every value that arrives has its own place in what is received, in order, and nothing else is there. |
| Queues.ReadersDrain | node/rpcwebsocket.go:151-190 | While nothing arrives each ready reader takes one value, until none is left. |
| Queues.NotificationQueue.SendMessage | node/rpcwebsocket.go:1835-1845 | The report of a message to a client that is gone finds room in the done channel. |
| Queues.NotificationQueue.OutHandler | node/rpcwebsocket.go:1791-1808 | The report of a written message finds room in the done channel; a failed write disconnects the client and is not reported. |
| Queues.NotificationQueue.Handle | node/rpcwebsocket.go:1720-1752 | Received messages are handed on in order, and at most one is outstanding, as a message or as a report; after a failed write none is, and none is handed on any more. |
| Queues.NotificationQueue.NotificationQueueHandler | node/rpcwebsocket.go:1720-1752 | The same over every run until the client leaves, and what was received is exactly what was queued before that; after a failed write nothing is handed on; pending count and outstanding message follow the events. |
| Queues.NotificationAt | node/rpcwebsocket.go:1720-1752 | Every notification that is queued has its own place in what is received, in order, and nothing else is there. |
| Queues.RoundsDrain | node/rpcwebsocket.go:1720-1808 | Unless a write failed, each write with its report takes one pending message, until none is outstanding. |

## Left out

- Sockets, wire encodings, JSON, TLS, configuration, logging, the block database and its files: no model; reads and their failures are parameters where they matter.
- Proof of work, certificates, scripts, GCS filters, SipHash: abstract functions; that filters have no false negatives is a stated assumption of the scan.
- Integer widths: heights, counts and sums are unbounded; the sources use 32 and 64 bits.
- The sizes of messages and list: a headers message is taken to fit the list; the sources allow 100 headers (`node/wire/msgheaders.go`) and 10000 nodes.
- Scheduling, locks and condition variables: handlers are atomic steps, and interleavings are orders of steps.
- Choice of a sync peer, stall handling, pipelined getheaders requests and the in-memory header tip values in `spv/blockmanager.go`.
- Filter header sync beyond the last checkpoint and resolving conflicting checkpoints (`getUncheckpointedCFHeaders`, `resolveConflict`): built on the parts that are modelled.
- `container/heap`: the priority queue is a set from which an element of least birth is picked.
- Progress callbacks of scans, several readers of one result, and the draining of the queue in `Stop`.
- The notification texts, the newer client filters (`subscribedClients`) and the immediate report of mempool spends when an outpoint is registered, which changes no index.
- `rescanblocks`, `getblocktemplate` long polling, version comparison, `dnsseeder`, `wallet`, `xmss`, `apps`: easier members.
- HeaderRuns.DisciplinedSafe: assumes that a message that stops short is followed by the leaving of the sync peer. The source does not ensure this: another peer may have sent the message, and headers messages that are queued are handled before the disconnect is. `HeaderRuns.RunSafe` is about every run.
- FilterSyncer.Syncer.GetCheckpointedCFHeaders: assumes that the checkpoints were sampled from a chain of filter headers of which the store is a prefix, as the source does.
- PeerState.State.PeerHandler: assumes that the version of a peer that was added is known when it is done, which the handshake ensures.
- Rescan.Client.ScanBlockChunks: a client that leaves ends the run at a read; a block is never left half scanned.
