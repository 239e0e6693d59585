# Verified model of the Bastet core

Bastet coordinates AI command-line agents: a daemon runs a graph of research, join and
document nodes, launches provider processes for them, talks to those processes over their
standard streams, spends one-time credential grants, and normalizes what the providers report.
This project models the logic of those parts in Dafny and proves what they promise.

The files follow the program's components.

| files | component |
|---|---|
| `WorkflowGraph`, `GraphAcceptance` | the graph, its validation and the depth-first cycle check, against an independent definition of a directed cycle |
| `GraphOperations`, `OperationEffects`, `ExecutionInvariant`, `ExecutionRuns`, `Scheduling` | what each operation of the executor does to an execution, entry by entry, the invariant all of them keep, and what follows for whole runs |
| `ExecutorLoops`, `GraphExecutor` | the executor as an object whose methods update its nodes in place, with the two fixpoint loops, proved against `GraphOperations` |
| `SampleRuns`, `SampleDispatch` | concrete runs: into states where the obvious expectations fail, and to a native lookup |
| `SourceReceipt` | the catalog's check of document source receipts |
| `CommandLine`, `EnvironmentBlock` | native launch encoding, and the parsers it must be undone by |
| `LineDecoder`, `TextEncoding`, `OutputQueue`, `QueueProgress`, `FrameBuffer` | the bounded plumbing between a provider process and its adapter |
| `RpcTransport`, `RequestCompletion`, `RpcMeaning` | request and notification traffic with a provider |
| `CredentialDispatch`, `DispatchEffects`, `DispatchRecovery`, `GrantWindow`, `DaemonStore` | grants and staged launches, as atomic transactions with crashes between any two of them |
| `AdapterContract`, `Conformance`, `AgyStream`, `AgyMeaning`, `CodexStream`, `CodexMeaning` | normalized run events, the rules they are checked by, and the two adapters that emit them |
| `Prelude` | options, results and a few facts about lists |

Code that updates fields or loops is modelled as a class or a method with a loop. Each such
method is proved equal to a function on values, and the properties are proved of that function.
Functions on values carry no contract where a contract could only repeat them. The lemmas about
them are listed instead; those in `OperationEffects`, `GraphAcceptance`, `DispatchEffects`,
`RpcMeaning`, `TextEncoding`, `AgyMeaning` and `CodexMeaning` say in terms of raw fields, texts
and bytes what each of them accepts and what it leaves.

Where the code and its comments differ, the model follows the code:

- The comment on `retry_failed` (graph.rs:605-607) speaks of blocked descendants. The code never
  looks at descent. `RetryConfinedExactlyWhen` says exactly when, judged before the call, only
  dependents of the retried node are reopened, and `UnconfinedRetryIsReachable` is a run from the
  start after which another node is.
- A succeeded node's output is expected to stay the node's output. It does exactly when the node
  has a bound run (`StableExactlyWhenBound`): for a node that was claimed directly and never
  bound, any further output recorded under a new run id takes the first one's place, as in
  `ReplacedOutputIsReachable`.
- A run belongs to one attempt at one node, and `stage_node` refuses a run id that is carried
  already; `bind_run` does not. `RunsDifferExactlyWhen` says exactly which steps make two nodes
  share a run, `SharedRunIsReachable` is such a run from the start, and
  `OutputPossibleExactlyWhen` says what it costs: once one of the two has an output, the other
  can never have one.
- A success with denied actions is meant to be a failure when nothing was said. Text over 256 KiB
  is discarded, so it then counts as nothing said, too (`SuccessFailsExactlyWhen`).
- `prepare_staged_credentials` can report that recovery is unavailable. When nothing comes between
  its claim and the recording of a failed lookup, neither the protocol's own conditions nor the
  catalog's timing check can cause that; only damaged stored data or a failing write can
  (`Database.PrepareStagedCredentials`).

## Model

| member | source | states |
|---|---|---|
| `WorkflowGraph.Validate` | crates/bastet-core/src/graph.rs:130-179 | The answer is the first of these faults in this order, and none otherwise: a repeated id; the first node with a blank title or with itself or an unknown id among its needs; a directed cycle in the needs relation; not exactly two research nodes without needs and one join needing both. Cycle is reported if and only if a cyclic path exists. |
| `GraphAcceptance.VerdictExactlyWhen` | crates/bastet-core/src/graph.rs:130-179 | Each verdict, and acceptance, if and only if a condition on the places of the graph alone: two places with one id; the first faulty place has a blank title, or needs itself or an unknown id; a directed cycle; or there are not exactly two research places without needs and exactly one join place whose needs are exactly their two ids. |
| `GraphAcceptance.DocumentKeepsValid` | crates/bastet-core/src/graph.rs:130-179 | Adding a titled document with a new id and known needs to a valid graph gives a valid graph, so any number of documents may follow. |
| `WorkflowGraph.Visit` | crates/bastet-core/src/graph.rs:725-748 | From any search state, an error means a directed cycle exists; otherwise the path marks are restored, the node is finished, and everything finished can be numbered so that needs come first. Terminates because the ids off the current path get fewer. |
| `WorkflowGraph.AcyclicHasRank` | crates/bastet-core/src/graph.rs:725-748 | A graph without directed cycles has a numbering in which every need is smaller than its node. |
| `WorkflowGraph.RankedIsAcyclic` | crates/bastet-core/src/graph.rs:725-748 | A graph with such a numbering has no directed cycle. |
| `GraphExecutor.GraphExecution.Start` | crates/bastet-core/src/graph.rs:183-205 | Fails exactly with the graph's validation verdict; otherwise a new execution with all nodes pending, for which the whole-run invariant holds. |
| `GraphExecutor.GraphExecution.Validate` | crates/bastet-core/src/graph.rs:207-246 | For any stored state: the graph's fault, or a node list that does not match the graph or holds an invalid entry, or a repeated, invalid or foreign output, in this order. |
| `GraphExecutor.GraphExecution.RestartAs` | crates/bastet-core/src/graph.rs:248-264 | For any stored state: its validation fault if it has one; otherwise it succeeds if and only if all nodes succeeded and some node has no output. The result is a fresh execution of the same graph that names the original, which is unchanged. |
| `GraphExecutor.GraphExecution.RecordOutput` | crates/bastet-core/src/graph.rs:285-306 | Appends the output, or refuses and changes nothing; the invariant is kept. |
| `GraphExecutor.GraphExecution.ReconcileAfterRestart` | crates/bastet-core/src/graph.rs:308-324 | Exactly the running nodes become uncertain, their number is returned, and the execution's revision grows only if there were any. |
| `GraphExecutor.GraphExecution.ClaimReady` | crates/bastet-core/src/graph.rs:326-366 | The single pass over the nodes claims exactly the chosen ready places and returns their ids, with one revision for the whole batch; the invariant is kept. |
| `GraphExecutor.GraphExecution.ClaimNode` | crates/bastet-core/src/graph.rs:368-404 | Claims one ready node or refuses without change; the invariant is kept. |
| `GraphExecutor.GraphExecution.StageNode` | crates/bastet-core/src/graph.rs:409-437 | Stages a ready node under a run id that no node and no output carries, or refuses without change. |
| `GraphExecutor.GraphExecution.ActivateStagedNode` | crates/bastet-core/src/graph.rs:439-456 | A staged node starts running only for exactly its owner and run. |
| `GraphExecutor.GraphExecution.CancelStagedNode` | crates/bastet-core/src/graph.rs:460-479 | A staged node is cancelled for exactly its owner and run, and its pending transitive dependents become blocked. |
| `GraphExecutor.GraphExecution.BindRun` | crates/bastet-core/src/graph.rs:481-500 | Binds a run to a running node of this owner that has none; nothing else changes. |
| `GraphExecutor.GraphExecution.Complete` | crates/bastet-core/src/graph.rs:531-557 | Only the owner completes a running node; a failure also blocks its pending transitive dependents. |
| `GraphExecutor.GraphExecution.FinishTerminal` | crates/bastet-core/src/graph.rs:559-603 | Ends a running node of this owner in a terminal state; failed, cancelled and provider-blocked also block its pending transitive dependents, uncertain does not. |
| `GraphExecutor.GraphExecution.BlockDependents` | crates/bastet-core/src/graph.rs:668-696 | For any order of the nodes, the loop blocks exactly the pending nodes that transitively depend on the given one, each with one more revision, and changes nothing else. |
| `ExecutorLoops.GatheredBlocks` | crates/bastet-core/src/graph.rs:668-696 | A set gathered pass by pass that has become closed under dependents is exactly the node and its transitive dependents. |
| `GraphExecutor.GraphExecution.RetryFailed` | crates/bastet-core/src/graph.rs:608-666 | Reopens one failed node and then exactly the blocked nodes from which no chain of blocked nodes leads to a failed or cancelled one; the invariant is kept. |
| `GraphExecutor.GraphExecution.ReopenPasses` | crates/bastet-core/src/graph.rs:623-663 | The reopening loop terminates, because every pass leaves strictly fewer blocked nodes, and reaches exactly that result. |
| `ExecutorLoops.ReopeningIsExact` | crates/bastet-core/src/graph.rs:623-663 | In an acyclic graph, when no pass selects anything more, a node was reopened if and only if no chain of blocked nodes leads from it to a failed or cancelled one. |
| `ExecutorLoops.PassShrinks` | crates/bastet-core/src/graph.rs:648-662 | A pass that selects something leaves a proper subset of the blocked nodes. |
| `OperationEffects.StartEffect` | crates/bastet-core/src/graph.rs:183-205 | A new execution has one entry for each node of the graph, in order: pending, at revision 0, without owner, run or failure; it has no output and revision 0. |
| `OperationEffects.ClaimReadyEffect` | crates/bastet-core/src/graph.rs:326-366 | Accepted if and only if the owner is not blank and the limit positive; exactly the entries of the returned ids, each pending with all needs succeeded, now run for the owner with one more revision, their run unchanged; all others are as before. |
| `OperationEffects.ClaimNodeEffect` | crates/bastet-core/src/graph.rs:368-404 | Accepted if and only if the owner is not blank and the node is pending with all needs succeeded; only that entry changes, field by field as for a batch. |
| `OperationEffects.StageEffect` | crates/bastet-core/src/graph.rs:409-437 | Accepted if and only if the owner is not blank, no entry and no output carries the run, and the node is pending with all needs succeeded; it then awaits approval for exactly this owner and run, and nothing else changes. |
| `OperationEffects.ActivateEffect` | crates/bastet-core/src/graph.rs:439-456 | Accepted if and only if the entry awaits approval for this owner and run; it then runs with the same owner, run and failure, and nothing else changes. |
| `OperationEffects.BindEffect` | crates/bastet-core/src/graph.rs:481-500 | Accepted if and only if the entry runs for this owner without a run; only its run changes, and no revision. |
| `OperationEffects.CancelStagedEffect` | crates/bastet-core/src/graph.rs:460-479 | Accepted if and only if the entry awaits approval for this owner and run; it is then cancelled with owner and run kept, and of the others exactly the pending transitive dependents become blocked with one more revision. |
| `OperationEffects.FinishEffect` | crates/bastet-core/src/graph.rs:559-603 | Accepted if and only if the state is one of the five final ones and the entry runs for this owner; it then has exactly the given state and failure, its run, one more revision, and its owner only if it succeeded, failed or was cancelled; of the others exactly the pending transitive dependents become blocked if the state is failed, cancelled or blocked, and none otherwise. |
| `OperationEffects.CompleteEffect` | crates/bastet-core/src/graph.rs:531-557 | The same for plain completion, without a failure. |
| `OperationEffects.RetryEffect` | crates/bastet-core/src/graph.rs:608-666 | Accepted if and only if the node failed; it, and every other entry that changes, which was blocked, is pending without owner, run and failure and one revision later. |
| `OperationEffects.ReconcileEffect` | crates/bastet-core/src/graph.rs:308-324 | Exactly the running entries become uncertain without owner, run and failure and one revision later. |
| `OperationEffects.RecordEffect` | crates/bastet-core/src/graph.rs:285-306 | Accepted if and only if the text is not blank, at most 256 KiB and fits its hash, no output has its run, and the node succeeded or failed in that run or without one; the output is then the last, and nothing else changes. |
| `OperationEffects.OutputMeans` | crates/bastet-core/src/graph.rs:266-283 | A node's output is the one recorded for it under its bound run, or, without a run, the last one recorded for it. |
| `OperationEffects.EntryIsValidExactlyWhen` | crates/bastet-core/src/graph.rs:699-719 | An entry is valid if and only if it has an owner exactly in the five states that need one, and while awaiting approval the owner is not blank, a run is bound and no failure is noted. |
| `ExecutionRuns.RunIsSound` | crates/bastet-core/src/graph.rs:308-666 | The invariant survives every sequence of claim, stage, activate, cancel, bind, complete, finish, record, retry and reconcile, accepted or refused. |
| `ExecutionRuns.ReachableIsSafe` | crates/bastet-core/src/graph.rs:207-666 | After any run from a fresh execution of a valid graph, validation accepts; a node that is neither pending nor blocked has only succeeded transitive dependencies; a node with a failed, cancelled or blocked transitive dependency is blocked. |
| `ExecutionRuns.FailureSpreads` | crates/bastet-core/src/graph.rs:460-603 | Whenever a node is cancelled while staged, fails, is cancelled or is reported blocked, every node that transitively depends on it ends blocked. |
| `ExecutionRuns.RetrySettlesBlocking` | crates/bastet-core/src/graph.rs:608-666 | After a successful retry a node is blocked if and only if some transitive dependency is failed or cancelled; apart from the retried node, only blocked nodes change, and only to pending. |
| `ExecutionRuns.RetryReopensExactly` | crates/bastet-core/src/graph.rs:608-666 | A blocked node is reopened by a retry if and only if, before the call, none of its transitive dependencies other than the retried node is failed or cancelled. |
| `ExecutionRuns.RetryConfinedExactlyWhen` | crates/bastet-core/src/graph.rs:605-646 | A retry takes only transitive dependents of its node out of the blocked state if and only if, before the call, every other blocked node has a failed or cancelled transitive dependency. |
| `ExecutionRuns.RetryReopensProviderBlocked` | crates/bastet-core/src/graph.rs:595-646 | So a retry is not confined when a node without needs is blocked: the retry of any other node reopens it, although it does not depend on that node. |
| `SampleRuns.UnconfinedRetryIsReachable` | crates/bastet-core/src/graph.rs:559-666 | A concrete run from the start of a valid graph of two research nodes and their join: both are claimed, one is reported blocked, the other fails; its retry is accepted and reopens the first. |
| `ExecutionRuns.RunsDifferExactlyWhen` | crates/bastet-core/src/graph.rs:409-530 | While no run is bound to two nodes, any step keeps it so if and only if it is not an accepted binding of a run that some node already carries. |
| `ExecutionRuns.RunsDifferThroughout` | crates/bastet-core/src/graph.rs:409-530 | All through any run no two nodes share a run if and only if no step of it binds a run that some node carries at that moment. |
| `SourceReceipt.OutputPossibleExactlyWhen` | crates/bastet-core/src/graph.rs:266-306 | A succeeded node with a bound run has an output, now or after some further operations, if and only if no output of another node is recorded under its run. |
| `SourceReceipt.SpentRunNeverPays` | crates/bastet-core/src/graph.rs:266-306 | A succeeded node bound to a run under which another node has an output is without an output after every further sequence of operations. |
| `SampleRuns.SharedRunIsReachable` | crates/bastet-core/src/graph.rs:481-500 | A concrete run from the start of the same graph: both research nodes are claimed and accepted for run 7, both succeed, the first has its output recorded, and the second never has one, whatever follows. |
| `ExecutionRuns.SucceededIsFinal` | crates/bastet-core/src/graph.rs:308-666 | No operation changes a succeeded node in any field, and outputs are only ever appended. |
| `ExecutionRuns.SettledOutputStays` | crates/bastet-core/src/graph.rs:266-306 | Once a node succeeded in a bound run with a recorded output, every further sequence of operations leaves exactly that output. |
| `ExecutionRuns.EqualRevisionEqualStates` | crates/bastet-core/src/graph.rs:308-666 | Two moments of a run with the same execution revision have the same state for every node. |
| `Scheduling.ClaimsFirstReady` | crates/bastet-core/src/graph.rs:326-366 | A node is claimed if and only if it is ready and fewer than the limit of ready nodes come before it; the ids come back in list order. |
| `Scheduling.BatchClaimIsOneByOne` | crates/bastet-core/src/graph.rs:326-404 | Claiming the returned ids one by one succeeds and gives the same nodes, owners and node revisions; the execution's revision is one more per id instead of one for the batch. |
| `Scheduling.ClaimMakesProgress` | crates/bastet-core/src/graph.rs:326-366 | With only pending and succeeded nodes and at least one pending, a claim with an owner and a positive limit returns at least one node. |
| `Scheduling.SchedulingFinishes` | crates/bastet-core/src/graph.rs:326-557 | From such a state, alternating claims with successful completions has all nodes succeeded after as many rounds as there are pending nodes. |
| `Scheduling.FreshExecutionFinishes` | crates/bastet-core/src/graph.rs:183-557 | A fresh execution of any valid graph of n nodes is finished after n rounds. |
| `SourceReceipt.AcceptedReceiptStays` | crates/bastet-core/src/m3.rs:113-159 | An accepted receipt whose join and source nodes have settled outputs is accepted after any further operations on any of the executions. |
| `SourceReceipt.ReceiptAcceptedExactlyWhen` | crates/bastet-core/src/m3.rs:113-159 | A receipt is accepted if and only if it names nothing, or names an execution and one of its join nodes, exactly the needs of that join, each a research node with an output, and the hash of the output that the join has. |
| `SourceReceipt.UnboundOutputIsReplaced` | crates/bastet-core/src/graph.rs:266-306 | A succeeded node with an output but no bound run has a run of operations after which its output is another one. |
| `SampleRuns.ReplacedOutputIsReachable` | crates/bastet-core/src/graph.rs:266-306 | A concrete run from the start of the same graph: a node is claimed, completed and given an output, and an output recorded later under another run id becomes its output instead. |
| `SourceReceipt.StableExactlyWhenBound` | crates/bastet-core/src/graph.rs:266-306 | The output of a succeeded node is the same after every sequence of operations if and only if its run is bound. |
| `CommandLine.WindowsCommandLine` | crates/bastet-core/src/windows_launch_encoding.rs:20-65 | Succeeds if and only if the executable is non-empty without quote or NUL, no argument has a NUL, and the encoding with its NUL fits in 32,767 units; the result then parses to exactly the executable and every argument in order. |
| `CommandLine.CommandRoundTrip` | crates/bastet-core/src/windows_launch_encoding.rs:20-65 | The Microsoft C runtime's argument rules, applied to the encoding of any well-formed command, give back the executable and every argument in order. |
| `CommandLine.ParseEscaped` | crates/bastet-core/src/windows_launch_encoding.rs:38-62 | Inside quotes, with any number of backslashes held back, an escaped argument followed by the closing quote parses to those backslashes and the argument, and stops right behind the quote. |
| `CommandLine.EncodeArgument` | crates/bastet-core/src/windows_launch_encoding.rs:38-62 | The loop with its backslash counter writes the escaped argument between quotes, or fails exactly when it does not fit. |
| `EnvironmentBlock.WindowsEnvironmentBlock` | crates/bastet-core/src/windows_launch_encoding.rs:70-105 | Succeeds if and only if all entries are well formed, no two keys are equal ignoring case anywhere in the list, and the block fits; decoding the result gives back the entries in key order. |
| `EnvironmentBlock.BlockRoundTrip` | crates/bastet-core/src/windows_launch_encoding.rs:70-105 | Reading NUL-terminated strings up to the empty one and splitting each at its first equals sign undoes the encoding. |
| `EnvironmentBlock.SortIsPermutation` | crates/bastet-core/src/windows_launch_encoding.rs:70-105 | The encoded order is a permutation of the input entries. |
| `EnvironmentBlock.SortIsOrdered` | crates/bastet-core/src/windows_launch_encoding.rs:70-105 | Any two keys of the encoded order are in order when upper-cased. |
| `EnvironmentBlock.SortedNeighboursSuffice` | crates/bastet-core/src/windows_launch_encoding.rs:70-105 | After sorting, no two neighbours have equal upper-cased keys if and only if no two entries of the input have. |
| `EnvironmentBlock.DistinctKeysMean` | crates/bastet-core/src/windows_launch_encoding.rs:70-105 | Keys are distinct if and only if no two entries have keys that differ at most in the case of ASCII letters. |
| `EnvironmentBlock.LexMeans` | crates/bastet-core/src/windows_launch_encoding.rs:70-105 | The order of keys is that of a dictionary: a prefix comes first, otherwise the first different character decides. |
| `LineDecoder.ReadStdout` | crates/bastet-core/src/process_output.rs:86-142 | For any division of the stream into chunks and any sink: at the end of the stream the sink calls are those of the one-shot definition; when stopped, those of a decoder fed all bytes at once; a read error adds one failure unless decoding had already ended. |
| `LineDecoder.FeedKeepsMeaning` | crates/bastet-core/src/process_output.rs:149-190 | Splitting off any chunk changes nothing about the calls for the whole stream, and what is held back is less than a line and at most 8 MiB. |
| `LineDecoder.FeedInTwo` | crates/bastet-core/src/process_output.rs:149-171 | Feeding two chunks in turn makes the same calls as feeding them joined. |
| `LineDecoder.Decoder.Push` | crates/bastet-core/src/process_output.rs:150-171 | The loop over one chunk makes exactly the specified calls and holds exactly the specified rest. |
| `LineDecoder.Decoder.Finish` | crates/bastet-core/src/process_output.rs:173-175 | Makes the calls of the one-shot definition for what is held, holds nothing afterwards, and answers whether reading may go on. |
| `TextEncoding.ValidExactlyWhenEncoded` | crates/bastet-core/src/process_output.rs:177-190 | A line is taken for text if and only if it is the UTF-8 form of some sequence of Unicode scalar values. |
| `TextEncoding.LineIsHandedOn` | crates/bastet-core/src/process_output.rs:150-190 | A complete line of at most 8 MiB is handed on without its LF and without the one CR before it, if there is one; a CR before that one stays. |
| `TextEncoding.BadLineEnds` | crates/bastet-core/src/process_output.rs:150-190 | A complete line over 8 MiB, its CR counted, or one that is no text, is one failure that ends everything. |
| `TextEncoding.TailIsKept` | crates/bastet-core/src/process_output.rs:173-190 | What follows the last LF is handed on with every CR, unless it is empty, too long or no text. |
| `TextEncoding.LengthIsOfEncoding` | crates/bastet-core/src/graph.rs:86-100 | The length by which texts are limited is the number of bytes of their UTF-8 form. |
| `TextEncoding.BlankMeans` | crates/bastet-core/src/graph.rs:139-142 | A text is blank if and only if each of its characters has the Unicode property White_Space. |
| `OutputQueue.EveryInterleavingIsSafe` | crates/bastet-core/src/process_queue.rs:14-97 | In every interleaving of one sender and one receiver: the counter is the total size of live envelopes and at most 16 MiB, at most 128 items are queued, received values are a prefix of the offered ones, and a refused send means the queue has failed. |
| `OutputQueue.NothingIsLost` | crates/bastet-core/src/process_queue.rs:51-97 | While the queue has not failed and the receiver lives, received values, the one in the receiver's hands and the queued ones are together exactly the offered ones, in order. |
| `OutputQueue.FailureIsSticky` | crates/bastet-core/src/process_queue.rs:51-97 | After a failure, no schedule clears it, lets another value in, or returns another value. |
| `QueueProgress.SendAcceptedExactlyWhen` | crates/bastet-core/src/process_queue.rs:51-80 | From any reachable state with no send under way, an uninterrupted send is accepted, its envelope last in the queue, if and only if the queue has not failed, the receiver lives, fewer than 128 items are queued and the live sizes with its own are at most 16 MiB; a refused one fails the queue and leaves its content and byte count. |
| `QueueProgress.ReceiveReturnsOldest` | crates/bastet-core/src/process_queue.rs:82-97 | From any reachable state with something queued and no receive under way, an uninterrupted receive returns the oldest value and frees its bytes, or, if the queue has failed, returns nothing and changes nothing. |
| `QueueProgress.DropReleasesQueue` | crates/bastet-core/src/process_queue.rs:20-24 | When an idle receiver is dropped from any reachable state with no send under way, the byte count returns to zero. |
| `FrameBuffer.BoundedVec.Write` | crates/bastet-core/src/process_input.rs:254-281 | Writes the whole piece or nothing; oversized exactly when the limit would be exceeded, out of memory exactly when the allocator is needed and refuses. |
| `FrameBuffer.EncodeJsonLine` | crates/bastet-core/src/process_input.rs:232-237 | A frame in any pieces, with a willing allocator, is encoded if and only if it fits in 8 MiB with its newline; the result is all pieces and the newline, after at most 14 reallocations. |
| `FrameBuffer.FourteenAreEnough` | crates/bastet-core/src/process_input.rs:232-286 | For any sequence of piece sizes up to the frame limit, at most 14 reallocations, and length at most capacity at most limit. |
| `FrameBuffer.FourteenAreNeeded` | crates/bastet-core/src/process_input.rs:232-286 | There is a division of an 8 MiB frame that needs all 14. |
| `RpcTransport.EveryRunKeepsOrder` | crates/bastet-adapter-codex/src/stdio.rs:216-349 | Over any interleaving of requests, timed-out requests and polls: until routing fails, the notifications the polls returned, followed by the deferred ones, are the well-formed ones read, in wire order, and a prefix of them afterwards; they stand at rising places of the wire, each with the method and params of the message there, and until routing fails no other message read is a notification; each request that succeeded returned the result of a message bearing its own id, and no two of them share an id; the deferral and abandonment limits hold. |
| `RpcTransport.RunReturns` | crates/bastet-adapter-codex/src/stdio.rs:216-325 | Over any run, the notifications recorded as delivered are exactly those the polls returned, in order, and the answers recorded are exactly the ids and values of the requests that succeeded, in order. |
| `RpcTransport.NoteExactlyWhen` | crates/bastet-adapter-codex/src/stdio.rs:443-460 | A message is read as a notification if and only if it has no id, a method that is not blank, and params; the notification has exactly that method and those params. |
| `RpcTransport.RequestKeeps` | crates/bastet-adapter-codex/src/stdio.rs:281-325 | From any consistent state, whatever happens, a request leaves a consistent state and delivers no notification; if it succeeds it took a new id, and its value is the answer recorded for that id. |
| `RpcTransport.RequestAnswers` | crates/bastet-adapter-codex/src/stdio.rs:371-441 | A successful request's value is the result of a message that was read during that request, bears its id and has no error. |
| `RequestCompletion.RequestSucceedsExactlyWhen` | crates/bastet-adapter-codex/src/stdio.rs:281-325 | From any consistent state, a request returns a value if and only if its frame was written, a message arrives that answers its id with that value, and before it come only events without news, replies to remembered abandoned requests, each at most once, and notifications that fit the deferral limits. |
| `RequestCompletion.LateReplyDecides` | crates/bastet-adapter-codex/src/stdio.rs:335-348 | A reply to another request is set aside without a trace if that request is among the remembered ones; otherwise it fails the waiting request with protocol drift and closes the transport. |
| `RequestCompletion.LateReplyHarmsExactlyWhen` | crates/bastet-adapter-codex/src/stdio.rs:327-348 | After giving up on any requests in turn, a late reply to one of them fails the transport during a later request if and only if at least 64 others have been given up on since. |
| `RpcMeaning.RejectionFailsRequest` | crates/bastet-adapter-codex/src/stdio.rs:409-441 | A reply with an error fails the request and closes the transport; the provider's code is returned if it is a whole number of 64 bits with a message that is not empty, retryable exactly for -32001, and drift otherwise. |
| `RpcMeaning.MalformedFailsRequest` | crates/bastet-adapter-codex/src/stdio.rs:409-460 | A reply with neither result nor error, and a message that is neither a reply nor a notification, fail the request with drift and close the transport. |
| `RpcMeaning.OversizedFailsRequest` | crates/bastet-adapter-codex/src/stdio.rs:371-395 | So does any message over 8 MiB that replies to no abandoned request. |
| `RpcMeaning.FloodFailsRequest` | crates/bastet-adapter-codex/src/stdio.rs:371-395 | So does a notification beyond 128 deferred ones or 16 MiB of them. |
| `RpcMeaning.PollReads` | crates/bastet-adapter-codex/src/stdio.rs:216-277 | A poll returns the notification that the next message bears; a message that is neither that nor a late reply is drift, and does not close the transport. |
| `RpcTransport.PollKeeps` | crates/bastet-adapter-codex/src/stdio.rs:216-277 | From any consistent state a poll leaves a consistent state, and the delivered notifications grow by exactly what it returns. |
| `RpcTransport.StdioTransport.RequestInner` | crates/bastet-adapter-codex/src/stdio.rs:281-325 | The method with its receive loop has exactly the specified result and effect for every sequence of observed events, and a value it returns is the result of a message read since the call that bears its id. |
| `RpcTransport.StdioTransport.PollNotification` | crates/bastet-adapter-codex/src/stdio.rs:216-277 | The same for the poll loop, deferred notifications first; the delivered notifications grow by exactly what it returns. |
| `RpcTransport.StdioTransport.RouteMessage` | crates/bastet-adapter-codex/src/stdio.rs:371-395 | A message met while waiting is the reply, a notification deferred within 128 items and 16 MiB, or an error that defers nothing. |
| `CredentialDispatch.AtMostOneLookup` | crates/bastet-daemon/src/credential_dispatch.rs:33-178 | Over any interleaving of claims, lookups, direct consumption, revocation, cancellation, decisions, graph operations, crashes and restarts: no grant is looked up twice, only consumed grants are looked up, no grant is both consumed and revoked, and each staged launch's state fits its grant. |
| `CredentialDispatch.LookupFollowsCommit` | crates/bastet-daemon/src/credential_dispatch.rs:33-53 | Whenever a lookup can start, its consumption is already committed and no earlier lookup was made for it. |
| `GrantWindow.ConsumedBeforeExpiry` | crates/bastet-daemon/src/credential_grants.rs:20-28 | In every reachable state, a grant belongs to a decided request and was issued when that request was made and not expired; a consumed one was consumed after it was issued and before the request expired; a revoked one was not revoked before it was issued. |
| `GrantWindow.ConsumedOnlyInTime` | crates/bastet-daemon/src/credential_grants.rs:243-296 | A step that records a consumption is a claim or a direct use of that grant, at a time when its request is decided, made and not expired, and not before the grant was issued. |
| `DispatchEffects.ClaimEffect` | crates/bastet-daemon/src/credential_dispatch.rs:56-178 | With a valid catalog, a claim commits if and only if the daemon is ready, the unmodelled checks pass, the grant is open at this time, the launch is ready and its run and node wait for the plan's owner and this run; it writes exactly the grant, launch, run and graph of that launch. |
| `DispatchEffects.ConsumeEffect` | crates/bastet-daemon/src/credential_grants.rs:243-296 | A direct use commits if and only if the daemon is ready, the checks pass, the grant is open at this time for this action, no launch belongs to the request, and its run is starting, unfinished and no launch's; only the grant is spent. |
| `DispatchEffects.CancelEffect` | crates/bastet-daemon/src/staged_launches.rs:169-343 | With a valid catalog, what cancelling requires and every row it writes: the run ends at the later of now and its staging, and an open grant is revoked then, or when it was issued if that is later. |
| `DispatchEffects.RevokeEffect` | crates/bastet-daemon/src/credential_grants.rs:298-344 | A revocation needs an open grant at this time and an acceptable actor, marks the grant revoked now, and cancels the launch without touching the grant again. |
| `DispatchEffects.ApproveEffect` | crates/bastet-daemon/src/credential_grants.rs:164-180 | An approval is accepted if and only if the request is undecided, made and not expired, without a grant, and its launch, if any, still waits; it issues the grant now and readies the launch. |
| `DispatchEffects.DenyEffect` | crates/bastet-daemon/src/staged_launches.rs:106-166 | With a valid catalog, a denial is accepted if and only if the unmodelled checks pass, the request is undecided, made and not expired, and its launch, if any, still waits; it decides the request and cancels the launch. |
| `DispatchEffects.RestartEffect` | crates/bastet-daemon/src/credential_dispatch.rs:235-248 | A restart marks exactly the runs that were under way, the dispatching launches and the running nodes uncertain, forgets what was in memory and keeps all else. |
| `SampleDispatch.LookupIsReachable` | crates/bastet-daemon/src/credential_dispatch.rs:33-178 | A concrete run of six steps from the empty store, each accepted, stages, approves, claims and looks up: one lookup is made, with its grant consumed. |
| `DispatchRecovery.SpentForEver` | crates/bastet-daemon/src/credential_grants.rs:243-336 | A consumed or revoked grant is unchanged by every further sequence of steps. |
| `DispatchRecovery.RestartNeverReplays` | crates/bastet-daemon/src/credential_dispatch.rs:235-248 | If the daemon crashes while a launch is dispatching, then after every further sequence of steps the launch is uncertain, the grant is spent as before, and no lookup has been added for it. |
| `DispatchRecovery.ClaimMovesTogether` | crates/bastet-daemon/src/credential_dispatch.rs:56-178 | A claim leaves the grant consumed, the launch dispatching, the run starting with a start time and its node running for the same owner and run, all together. |
| `DispatchRecovery.RunStepsKeepCatalog` | crates/bastet-core/src/catalog.rs:268-290 | In every state reached by any steps, crashes and restarts included, every run has the start and end times that its state needs. |
| `DispatchRecovery.ClaimExactlyWhen` | crates/bastet-daemon/src/credential_dispatch.rs:56-178 | With such a catalog, a claim commits if and only if the daemon is ready, the grant usable, the launch as staged and ready, and the unmodelled checks pass: neither the catalog check on the rows it writes nor the activation of the node refuses. |
| `DispatchRecovery.CancelExactlyWhen` | crates/bastet-daemon/src/staged_launches.rs:169-343 | The same for cancelling: it commits if and only if there is nothing to cancel, or the launch is as staged and the unmodelled checks pass. |
| `DispatchRecovery.RevokeExactlyWhen` | crates/bastet-daemon/src/credential_grants.rs:298-344 | The same for revoking: an acceptable actor, a usable grant, and a launch, if there is one, that is as staged. |
| `DispatchRecovery.StageExactlyWhen` | crates/bastet-daemon/src/staged_launches.rs:31-102 | The same for staging: a ready daemon, a new request and run, and a node that can be staged under this run. |
| `DispatchRecovery.RunningStays` | crates/bastet-core/src/graph.rs:308-666 | A graph operation addressed to another node leaves a running node with its owner and run. |
| `DispatchRecovery.NextKeepsInFlight` | crates/bastet-daemon/src/credential_dispatch.rs:56-232 | A dispatch in flight stays so under every step that is not addressed to its run or node and is not a restart, transactions of other requests included. |
| `DispatchRecovery.FailureCanBeRecorded` | crates/bastet-daemon/src/credential_dispatch.rs:181-232 | While a dispatch is in flight and the stored catalog is valid, recording its lookup failure succeeds if and only if the checks of stored data that are not modelled pass; the catalog is then found valid again, launch, run and node are uncertain, and the grants are unchanged. |
| `DispatchRecovery.FailedLookupIsRecordable` | crates/bastet-daemon/src/credential_dispatch.rs:33-232 | From any reachable state, after a claim and any further steps that leave its run alone, the lookup failure can be recorded unless a check that is not modelled fails; launch, run and node are then uncertain and the grant is still spent. |
| `DaemonStore.Database.ClaimStagedDispatch` | crates/bastet-daemon/src/credential_dispatch.rs:56-178 | The transaction commits exactly the specified change of grant, launch, run and graph, or rejects and changes nothing; safety is kept. |
| `DaemonStore.Database.FailDispatchClaim` | crates/bastet-daemon/src/credential_dispatch.rs:181-232 | Commits exactly the specified change of launch, run and graph, or rejects and changes nothing, also when the resulting catalog is not valid; safety is kept. |
| `DaemonStore.Database.PrepareStagedCredentials` | crates/bastet-daemon/src/credential_dispatch.rs:33-53 | Rejected if and only if the launch cannot be claimed at this time or an unmodelled check fails, without any change; otherwise exactly one lookup is added, the first for its grant. If the credential is not found, launch, run and node end uncertain, unless the failure cannot be recorded because a check that is not modelled fails: only then recovery is reported unavailable, and the dispatch stays in flight with its grant spent. |
| `DaemonStore.Database.ConsumeCredentialGrant` | crates/bastet-daemon/src/credential_grants.rs:243-296 | A grant without a staged launch is consumed, or nothing changes; safety is kept. |
| `DaemonStore.Database.CancelForRequest` | crates/bastet-daemon/src/staged_launches.rs:169-343 | Ends a launch that was never dispatched, with its run and node, and revokes its unspent grant, or changes nothing, also when the resulting catalog is not valid. |
| `DaemonStore.Database.RevokeCredentialGrant` | crates/bastet-daemon/src/credential_grants.rs:298-344 | Revokes an unspent grant and cancels its launch in one transaction; if the launch cannot be cancelled the revocation is undone. |
| `Conformance.ValidateEvents` | crates/bastet-adapter-conformance/src/lib.rs:165-217 | One finding for an empty trace; otherwise one if some event is malformed or numbers do not strictly increase anywhere, and one if the last state is not the final one. |
| `Conformance.LegalExactlyWhen` | crates/bastet-adapter-conformance/src/lib.rs:165-217 | A trace is legal if and only if each event has the contract's version, this run, a type and a time that are not blank, known evidence, a JSON payload and no blank provider id, and each number is greater than the one before. |
| `AgyStream.EventsAreTrace` | crates/bastet-adapter-agy/src/stream.rs:86-379 | From any state and for any lines and local signals, the emitted events are well formed and numbered without a gap from the next number, and only the last can be terminal. |
| `AgyStream.RunPassesConformance` | crates/bastet-adapter-agy/src/stream.rs:38-379 | Every non-empty run of a new or resuming stream is numbered from 1 and has no finding when its last state is taken as final. |
| `AgyStream.EventsInStages` | crates/bastet-adapter-agy/src/stream.rs:86-186 | Recovering comes only before the start, the start happens at most once, and neither comes after cancelling. |
| `AgyStream.FinalOutputIsBounded` | crates/bastet-adapter-agy/src/stream.rs:75-208 | After any run the final output is the whole text of all accepted response steps, or nothing exactly when that text is empty or over 256 KiB; only the latter counts as overflow. |
| `AgyStream.SuccessFailsExactlyWhen` | crates/bastet-adapter-agy/src/stream.rs:194-248 | After any run, a success result is reported as a failure if and only if it lists denied actions and the text of all accepted response steps is empty or over 256 KiB. |
| `AgyMeaning.InitIsReported` | crates/bastet-adapter-agy/src/stream.rs:162-186 | The first line is accepted once, with a conversation that is the expected one if one is expected; the run is then started, and reported as running if the event can be made. |
| `AgyMeaning.UpdateIsTaken` | crates/bastet-adapter-agy/src/stream.rs:188-208 | An update of the own conversation adds exactly the text of an agent's response, and its result is the cost its usage states, or nothing. |
| `AgyMeaning.UsageMeans` | crates/bastet-adapter-agy/src/stream.rs:398-418 | Usage is a cost of these two counts if and only if all five counts are whole numbers of 64 bits and the total is at least input and output together; otherwise it is drift. |
| `AgyMeaning.ResultIsReported` | crates/bastet-adapter-agy/src/stream.rs:210-294 | A final line closes the stream and reports exactly the state, name and failure that its status stands for; a success with denied actions and no output is a permission failure; an unknown status is drift and changes nothing. |
| `AgyMeaning.MentionsMeans` | crates/bastet-adapter-agy/src/stream.rs:420-439 | An error mentions a phrase if and only if its text, capitals lowered, contains it. |
| `AgyMeaning.SignalsAreReported` | crates/bastet-adapter-agy/src/stream.rs:86-113 | Recovery is reported if and only if a conversation is to be resumed that has not started, and cancellation if and only if the run has started, both only while the stream is open. |
| `AgyMeaning.LocalEndsAreReported` | crates/bastet-adapter-agy/src/stream.rs:115-143 | Cancelling, timing out and crashing close an open stream and report their state and failure; only a crash is worth a retry. |
| `AgyStream.AgyRunStream.ConsumeLine` | crates/bastet-adapter-agy/src/stream.rs:145-294 | The method has exactly the specified result and field updates, also where a step fails after changing fields; a closed stream refuses every line and is unchanged. |
| `AgyStream.AgyRunStream.LocalTerminal` | crates/bastet-adapter-agy/src/stream.rs:354-379 | Closed afterwards in every case, even if the event cannot be made; a stream closed before refuses and is unchanged. |
| `CodexStream.EventsAreTrace` | crates/bastet-adapter-codex/src/lifecycle.rs:48-306 | From any state and for any notifications and local signals, the emitted events are well formed and numbered without a gap, only the last can be terminal, and every event attributed to the provider names the stream's own turn. |
| `CodexStream.RunPassesConformance` | crates/bastet-adapter-codex/src/lifecycle.rs:35-306 | Every non-empty run of a new stream is numbered from 1 and has no finding when its last state is taken as final. |
| `CodexStream.NothingElseIsRevealed` | crates/bastet-adapter-codex/src/lifecycle.rs:214-403 | Notifications whose turns agree on id, status and recognised failure code have the same effect and event: error messages, items and unknown codes never reach an event. |
| `CodexMeaning.OthersAreSilent` | crates/bastet-adapter-codex/src/lifecycle.rs:48-75 | Notifications that are not about turns, or about another turn, are ignored; one that names no turn, and any about the own turn after its end, are drift; nothing changes. |
| `CodexMeaning.StartIsReported` | crates/bastet-adapter-codex/src/lifecycle.rs:214-233 | The start of the own turn is reported as running if and only if its status says that it is in progress and an event can be made; the whole event is stated. |
| `CodexMeaning.EndIsReported` | crates/bastet-adapter-codex/src/lifecycle.rs:235-273 | The end of the own turn is reported as succeeded, cancelled or failed by its status, with the failure its code stands for, and ends the stream; any other status is drift; the whole event is stated. |
| `CodexMeaning.KindMeans` | crates/bastet-adapter-codex/src/lifecycle.rs:332-374 | Each of the eleven known codes stands for its kind of failure and whether to retry; any other is unknown, not retried and not kept. |
| `CodexMeaning.SignalsAreReported` | crates/bastet-adapter-codex/src/lifecycle.rs:77-97 | Cancellation and recovery are reported while the run lasts; the whole events are stated. |
| `CodexMeaning.LocalEndsAreReported` | crates/bastet-adapter-codex/src/lifecycle.rs:99-156 | A missed deadline fails the run and a lost transport leaves it uncertain, both retryable and for good; the whole events are stated. |
| `CodexStream.SnakeCase` | crates/bastet-adapter-codex/src/lifecycle.rs:393-402 | The loop computes, for every string, the specified name, for which the next two rows say what it means. |
| `CodexStream.SnakeCaseRoundTrip` | crates/bastet-adapter-codex/src/lifecycle.rs:376-403 | For every name that starts with a capital and has no underscore, reading its snake case back, each underscore making a capital, gives the name again. |
| `CodexStream.SnakeCaseHasNoCapitals` | crates/bastet-adapter-codex/src/lifecycle.rs:393-402 | The snake case of any string has no ASCII capital. |
| `CodexStream.MessageKeysDiffer` | crates/bastet-adapter-codex/src/lifecycle.rs:332-391 | Different provider codes that may be kept are reported under different message keys, and none under the key of an unknown failure. |
| `CodexStream.CodexRunStream.Ingest` | crates/bastet-adapter-codex/src/lifecycle.rs:48-75 | The method has exactly the specified result and state; the stream ends only when a completion was turned into an event, and an ended stream never changes and gives no event. |
| `CodexStream.CodexRunStream.LocalTerminal` | crates/bastet-adapter-codex/src/lifecycle.rs:127-156 | An ended stream refuses and is unchanged; otherwise the stream ends if and only if the event, which has the given state, could be made. |

## Left out

- SHA-256 is a parameter: nothing is assumed of it. Recorded hashes are compared with it, as in the code.
- 64-bit revisions of graphs and nodes are unbounded naturals. Request ids, event numbers and JSON numbers keep their width.
- Byte counts (`usize`) do not overflow: every checked addition in the modelled code is taken as exact.
- Time: deadlines are events that may happen at any moment (`Expired`, `Inactive`), and the daemon's clock is an argument of each transaction. Deadlines that cannot be represented are not modelled.
- `OutputQueue.EveryInterleavingIsSafe`: the atomic actions of the two threads interleave in one total order; weaker memory orderings are not modelled, and there is one sender and one receiver, as in the program.
- `FrameBuffer.FourteenAreEnough`: an exact reservation is taken to grant exactly what is asked; the allocator's refusal is an argument of each write.
- `EnvironmentBlock.SortIsOrdered`: the library's in-place stable sort is modelled as a function, so its algorithm is not captured.
- `RpcTransport.EveryRunKeepsOrder`: JSON text is a datatype, the length of a frame an arbitrary function of it, and closing the process a step that succeeds or fails. The outgoing `notify` is left out, being the write of a request without its wait.
- The writer thread behind `write_frame` with its poisoned and stopped flags is left out; how a write went is an event.
- `CredentialDispatch.AtMostOneLookup`: of the catalog's validation, the timing check of all runs is modelled, in every transaction that writes the catalog. All other checks are one flag per transaction, which may have any value: `authorized` for policy, reader and current authority, `intact` for the integrity of stored plans, requests, catalogs and workspaces. Staging, decisions and finishing a run are assumed steps with the effects the modelled code relies on; rows of runs may even be overwritten at will, as long as the catalog stays valid.
- `DispatchRecovery.RestartNeverReplays`: restart reconciles runs, graphs and launches; the expiry pass that follows is modelled by separate cancellations, and a restart that refuses inconsistent stored data is not modelled.
- `DaemonStore.Database.FailDispatchClaim`: takes the request instead of the run; each launch has its own run, which is an invariant.
- Event journal, catalog revisions and SQL are left out; a transaction commits as a whole or changes nothing.
- `AgyStream.FinalOutputIsBounded`: strings are lists of Unicode characters and sizes are those of their UTF-8 form.
- Event payloads are the fields of a JSON object; rendering them as text is left out.
- Cost evidence carries only its two token counts.
- The conformance checker's scenario, secret and cost rules, and the other validators of the catalog, are lists of membership tests and would add only easy members.
- Desktop application, HTTP and local transports, process and pipe handling, sandboxing, keychain access and command-line discovery.
