# A verified model of the Raft replicated state machine

The system replicates a command log with Raft, stores it in a checksummed file, hands committed
entries through lock-free rings to an apply thread, and executes them on a key-value store or a
matching engine behind a session table. A checker decides whether recorded client histories are
linearizable. This project models those parts in Dafny and proves what they promise. All files are
verified together: `dafny verify dfyconfig.toml`.

Files, bottom up:

- `Common`, `Wire`, `BitString`, `Modular`: options, little-endian numbers, bits, positions modulo a capacity.
- `RaftTypes`, `RaftStep`: one node's state and what each handler computes, effects in program order.
- `RaftCore`: the same handlers as a class updated in place, each proved to compute its step.
- `RaftHistory`, `RaftHistorySteps`, `RaftInvariant`, `RaftHandlers`, `RaftCrash`, `RaftCluster`: the
  inductive invariant, kept by every event and by a crash after any prefix of any event's effects.
- `RaftSafety`, `RaftHints`, `RaftProvenance`: what follows for elections, commits, truncation, the leader a node
  names and the origin of entries.
- `RaftElections`, `RaftPromptness`, `RaftReplication`, `RaftBacktracking`: what every node owes the others and does
  as soon as it can, stated exactly: votes, office, commits, hand-over, the AppendEntries exchange, backtracking.
- `RaftAvailability`, `RaftScripts`: from any state any majority can bring a command through; and concrete runs of
  three nodes.
- `RecordLog`, `LogFormat`, `DurableLog`, `Crc32c`: the log file, its recovery and its checksum.
- `MpscRing`, `SpscRing`, `WakeGate`, `ApplyPipeline`: the concurrent hand-off, one atomic access a step.
- `Sessions`, `KvOps`, `KvStore`, `ClientService`: exactly-once execution, the store, reply matching.
- `EndToEnd`, `ServiceHistory`, `ServiceRuns`, `ServiceAccounts`, `ServiceExamples`: clients over the cluster, then
  over the client service of every node; what they are answered is linearizable, and no request is lost.
- `Linearizability`, `Locality`, `HistoryChecker`: the history checker, exact on all histories.
- `OrderTypes`, `OrderCommands`, `OrderEngine`, `OrderReference`, `OrderRefinement`, `OrderSimulation`,
  `OrderPriority`, `OrderConservation`, `OrderRuns`, `OrderBalance`, `OrderSessions`, `OrderBook`,
  `ReferenceMatcher`: the matching engine against its reference.
- `Codec`, `MessageDecoder`, `Frames`: wire messages, decoding into reused buffers, stream framing.

How Raft is proved. A cluster state is the nodes and the set of all packets ever sent, so a packet may
be lost, delayed, duplicated or reordered. The invariant relates it to a history of ballots, wins,
leader logs, acknowledgements and commits that exists only in the proofs. The history never shrinks,
which is how statements about two different times of a run are reached.

What must happen, beside what must not. Safety alone is kept by a node that never votes, never commits or never
replies. The laws of `RaftElections`, `RaftPromptness`, `RaftReplication`, `RaftBacktracking` and `ServiceAccounts`
are the other half: they say of the messages, logs and replies of any run what has to be in them.
`RaftAvailability.MajoritySuffices` puts the Raft half together into whole runs.

How the service is proved. `EndToEnd` states what clients are shown of a run: an operation is stamped with the
action that issues it, an acknowledgement with the state it is seen in, so that whatever is issued after an answer
was seen is later than it. `ServiceRuns` puts the client service of every node on top of the cluster. There the
answers are those the services send, and the conditions are on clients alone.

Where code and documentation differ. The search's comment (faults/linearizability.cpp:47-49) says it succeeds
exactly when a linearization exists. A completed operation whose response precedes its own invocation is refused
even when one order explains it; `HistoryChecker.SearchExact` gives the exact condition and
`HistoryChecker.IllTimedRefused` an example. An `AppendEntries` that announces a newer commit but
vouches for fewer entries than are committed lowers commitIndex; `RaftSafety.CommitDropsIff` says
exactly when, and `RaftSafety.CommitMonotone` that no leader ever sends one. Replies are matched on a command's
first 16 bytes, whether or not the rest can be read: in the run of `ServiceExamples.BorrowedIdentityBreaks` a client
that sends a proper operation is told it is malformed, because another client's unreadable command with the same
identity took the index it waits for after a change of leader. A damaged length field reads as a torn tail; `LogFormat.LengthDamageReadsTorn` says when.

## Model

| member | source | states |
|---|---|---|
| RaftCluster.StateMachineSafety | src/raft/raft_core.cpp:339-430 | of the entry sequences any two nodes handed to their state machines, at any times and in any incarnations of any run with loss, duplication, reordering and crashes, one is a prefix of the other |
| RaftCluster.LeaderCompleteness | src/raft/raft_core.cpp:306-328 | a leader whose term is at least that of a node with committed entries holds those entries at their indices |
| RaftCluster.LogMatching | src/raft/raft_core.cpp:363-416 | two logs with equal terms at an index, at any nodes and times, are identical up to it |
| RaftCluster.NextInv | src/raft/raft_core.cpp:271-304 | the invariant survives every event at every node and every crash in the middle of one |
| RaftHandlers.StepInv | src/raft/raft_core.cpp:271-304 | after any event the node satisfies the invariant and every message it sends is justified by the history |
| RaftHandlers.AppendEntriesInv | src/raft/raft_core.cpp:339-430 | accepting or rejecting a leader's entries keeps every entry the node has acknowledged or committed |
| RaftHistory.LeaderComplete | src/raft/raft_core.cpp:306-328 | by quorum intersection and the up-to-date check every later winner's log contains what a term committed |
| RaftAvailability.MajoritySuffices | src/raft/raft_core.cpp:116-539 | from every state of every run, any set of more than half of the nodes can go on alone, without crashes, to a state in which all of them have handed over one log that ends with a given command |
| RaftAvailability.Elect | src/raft/raft_core.cpp:116-155 | from every state of every run any majority can on its own come to have a leader whose term none of it is beyond |
| RaftAvailability.CatchUp | src/raft/raft_core.cpp:432-490 | a leader and a follower not beyond its term can go on until the leader counts the follower as holding its whole log |
| RaftAvailability.HeldIsCommitted | src/raft/raft_core.cpp:492-515 | once all of a majority are known to hold a log that ends in the leader's term, all of it is committed |
| RaftElections.VoteExactly | src/raft/raft_core.cpp:27-31 | a vote is granted exactly to a candidate of the voter's term or a later one that no other vote has gone before and whose log the voter's is not ahead of, last term first, then length |
| RaftElections.VoteIsAnswered | src/raft/raft_core.cpp:306-328 | a vote that is not granted is denied with the voter's term |
| RaftElections.OneGetsTheVote | src/raft/raft_core.cpp:27-31 | of any two nodes that may still vote for each other, one gets the other's vote |
| RaftElections.SomeoneIsElectable | src/raft/raft_core.cpp:306-328 | among any nodes in any state there is one that every other that may still vote would vote for |
| RaftElections.MajorityIsMoreThanHalf | src/raft/raft_core.h:153 | a set of nodes is a majority exactly when it is more than half of them |
| RaftElections.WinsExactly | src/raft/raft_core.cpp:330-337 | a candidate leads exactly when more than half of the nodes have voted for it, and then expects every peer to be at the end of its log |
| RaftElections.CampaignAsksAll | src/raft/raft_core.cpp:116-134 | an expired timer opens a new term with the node's own vote and asks every other node with its last index and term |
| RaftElections.LaterTermDeposes | src/raft/raft_core.cpp:271-276 | any message of a later term makes its reader a follower of that term |
| RaftElections.EarlierTermIsRefused | src/raft/raft_core.cpp:306-344 | a request of an earlier term changes nothing and is answered with the reader's term; such a reply is ignored |
| RaftPromptness.LeadersArePrompt | src/raft/raft_core.cpp:492-515 | in every state of every run a leader has committed every entry of its term that it knows more than half of the nodes to hold |
| RaftPromptness.CommitNeedsMoreThanHalf | src/raft/raft_core.cpp:492-515 | and its commit index only ever moves to such an entry |
| RaftPromptness.CommittedIsHandedOver | src/raft/raft_core.cpp:517-539 | every event that raises commitIndex, and every pump, hands over in order all that is committed, or exactly as many entries as there is room for |
| RaftReplication.AppendExactly | src/raft/raft_core.cpp:339-430 | in every run an AppendEntries that is not outdated leaves the log as it was if it holds the entries and otherwise cut at the previous index and continued by them, moves commitIndex to the lesser of what is announced and vouched for, and is answered with success, the end of the log, or the conflicting term and where its run starts |
| RaftReplication.MergeIsTaken | src/raft/raft_core.cpp:388-416 | where logs with a common entry agree below it, the entry-by-entry merge is exactly that |
| RaftReplication.FirstOfRunStarts | src/raft/raft_core.cpp:373-375 | the hint's index is the least from which all terms up to the rejected one are equal |
| RaftReplication.WritesEverything | src/raft/raft_core.cpp:136-203 | a new leader, a leader whose timer fires and one that takes commands write to every peer all of their log from nextIndex on, with their commit index |
| RaftReplication.ReplyWrites | src/raft/raft_core.cpp:432-490 | an acknowledgement moves the peer's window to it and is followed by what the peer still lacks; a rejection is followed by a new attempt |
| RaftHints.HintNamesLeader | src/raft/raft_core.cpp:354 | the leader a node names, in any state of any run, is the one leader its term ever has |
| RaftHistory.QuorumsMeet | src/raft/raft_core.h:153 | two majorities of one cluster share a member |
| RaftCrash.PersistsBeforeSend | src/raft/raft_core.cpp:90-94 | each event writes its durable state completely before its first send |
| RaftCrash.CrashInv | src/raft/raft_core.cpp:388-416 | a restart after any prefix of an event's effects, also between truncation and append or with part of a batch appended, satisfies the invariant |
| RaftSafety.ElectionSafety | src/raft/raft_core.cpp:116-155 | a term is won at most once in a run, across all nodes and all their incarnations |
| RaftSafety.OneLeaderPerTerm | src/raft/raft_core.cpp:330-337 | two leaders of one term, at whatever times, are the same node |
| RaftSafety.CommitBounds | src/raft/raft_core.cpp:517-539 | lastApplied <= commitIndex <= lastIndex, the entries handed over are the log up to lastApplied, log terms never decrease |
| RaftSafety.CommitMonotone | src/raft/raft_core.cpp:418-424 | within an incarnation commitIndex, lastApplied and the handed-over entries never go back and the committed prefix stays in the log |
| RaftSafety.TruncationSparesCommitted | src/raft/raft_core.cpp:388-404 | no truncation, on disk or in memory, reaches a committed index |
| RaftSafety.ViolationBranchesDead | src/raft/raft_core.cpp:345-353 | a leader never gets an AppendEntries of its own term and never an acknowledgement beyond its log |
| RaftSafety.ScanGreatest | src/raft/raft_core.cpp:492-515 | the commit scan's early exit still finds the greatest index of the current term held by a majority |
| RaftSafety.CommitDropsIff | src/raft/raft_core.cpp:418-424 | for an arbitrary message, commitIndex goes down exactly when it is accepted, announces a newer commit and vouches for less than is committed |
| RaftSafety.CommitCanDrop | src/raft/raft_core.cpp:418-424 | a concrete node and message for which commitIndex goes down |
| RaftBacktracking.HintBelowPrev | src/raft/raft_core.cpp:370-379 | by Log Matching the leader's last entry of the conflicting term lies below the rejected point |
| RaftBacktracking.RejectionLowersNext | src/raft/raft_core.cpp:466-489 | a rejection of the entries sent at nextIndex keeps nextIndex above matchIndex and above everything the two logs share, and lowers it exactly when it is not already right above matchIndex |
| RaftBacktracking.StaleRejectionStays | src/raft/raft_core.cpp:466-489 | a run of three nodes with a crash and a re-election, in which a rejection delivered twice is overtaken by an acknowledgement of that very point, and nextIndex stays |
| RaftBacktracking.MatchHeld | src/raft/raft_core.cpp:432-465 | in every reachable state a follower not ahead of the leader's term still holds what the leader counts as matched |
| RaftBacktracking.BacktrackingTerminates | src/raft/raft_core.cpp:432-490 | from any reachable state, in any undisturbed exchange of a leader and a follower, fewer than nextIndex - matchIndex rounds are rejected before one is accepted |
| RaftBacktracking.NeverOvershoots | src/raft/raft_core.cpp:466-489 | nextIndex after a rejection lies above every index up to which the two logs agree |
| RaftBacktracking.LastOfTermExactly | src/raft/raft_core.cpp:474-480 | the leader's search finds its last entry of a term, or that it has none |
| RaftBacktracking.RoundsByTerm | src/raft/raft_core.cpp:370-379 | from any reachable state an exchange has at most one rejected round for each term in the follower's log, and one more |
| RaftProvenance.LoggedWasProposed | src/raft/raft_core.cpp:205-248 | whatever any node logs at any time was proposed by a client before |
| RaftCore.RaftCore.Save | src/raft/raft_core.cpp:90-94 | term and vote change together with one durable write, recorded before anything sent later |
| RaftCore.RaftCore.LogAppend | src/storage/log.h:52-54 | the log grows by exactly the entries, as one durable write |
| RaftCore.RaftCore.LogTruncate | src/storage/log.h:81-85 | the log loses the index and everything above, as one durable write |
| RaftCore.RaftCore.ResetPeerIndices | src/raft/raft_core.cpp:139-144 | the loop sets every peer and no one else to the end of the log and to no match |
| RaftCore.RaftCore.BecomeFollower | src/raft/raft_core.cpp:96-114 | a higher term is saved with no vote and clears the leader; otherwise only the role changes |
| RaftCore.RaftCore.StartElection | src/raft/raft_core.cpp:116-134 | state and effects are those of the election step whose votes Election Safety counts |
| RaftCore.RaftCore.BecomeLeader | src/raft/raft_core.cpp:136-155 | state and effects are those of the step that takes office |
| RaftCore.RaftCore.SendHeartbeats | src/raft/raft_core.cpp:157-163 | one AppendEntries per peer, in peer order |
| RaftCore.RaftCore.SendAppendEntries | src/raft/raft_core.cpp:165-203 | the message carries everything from nextIndex on with the term before it |
| RaftCore.RaftCore.Propose | src/raft/raft_core.cpp:205-222 | a proposal is the one-command batch: appended, counted, sent |
| RaftCore.RaftCore.ProposeBatch | src/raft/raft_core.cpp:224-248 | the batch is appended once, in order, and its first index returned |
| RaftCore.RaftCore.Tick | src/raft/raft_core.cpp:260-269 | an expired deadline campaigns or sends heartbeats |
| RaftCore.RaftCore.Handle | src/raft/raft_core.cpp:271-304 | the term rule, then the handler, equal the message step of the protocol proof |
| RaftCore.RaftCore.OnRequestVote | src/raft/raft_core.cpp:306-328 | grants, saves and replies exactly as the vote step, which `RaftElections.VoteExactly` is about |
| RaftCore.RaftCore.OnRequestVoteReply | src/raft/raft_core.cpp:330-337 | counts a grant of this candidacy's term and takes office when `RaftElections.WinsExactly` says |
| RaftCore.RaftCore.OnAppendEntries | src/raft/raft_core.cpp:339-430 | equals the follower step of the protocol proof on every message |
| RaftCore.RaftCore.AcceptEntries | src/raft/raft_core.cpp:381-430 | merge, commit and acknowledgement equal the accepting step, acknowledgement last |
| RaftCore.RaftCore.FindFirstOfRun | src/raft/raft_core.cpp:373-375 | the loop stops at the first index of the run of equal terms, which `RaftReplication.FirstOfRunStarts` is about |
| RaftCore.RaftCore.MergeEntries | src/raft/raft_core.cpp:388-416 | the log is cut at the first conflict and completed; writes are a truncation only if needed, then one append |
| RaftCore.RaftCore.CountPresent | src/raft/raft_core.cpp:388-404 | skips exactly the entries already held with equal term |
| RaftCore.RaftCore.OnAppendEntriesReply | src/raft/raft_core.cpp:432-490 | equals the leader step: match moves up only, backtracking on rejection |
| RaftCore.RaftCore.FindLastOfTerm | src/raft/raft_core.cpp:474-480 | the loop finds the last index with the conflicting term |
| RaftCore.RaftCore.CountReplicas | src/raft/raft_core.cpp:501-504 | counts the leader and the peers that hold the index |
| RaftCore.RaftCore.AdvanceCommit | src/raft/raft_core.cpp:492-515 | equals the commit scan that `RaftSafety.ScanGreatest` and `RaftPromptness.LeadersArePrompt` are about |
| RaftCore.RaftCore.ApplyCommitted | src/raft/raft_core.cpp:517-539 | hands over the committed entries in index order: all of them, or exactly as many as the sink has room for |
| EndToEnd.AckedWasExecuted | src/client/client_service.cpp:129-162 | an acknowledged result is that of the operation's one execution in the applied log, at or before the answered entry |
| EndToEnd.AppliedIsOp | src/client/client_service.cpp:26-86 | every applied command is an operation issued and proposed before |
| ServiceHistory.ServiceLinearizable | src/client/client_service.cpp:129-162 | for every run of the cluster whose answers are for applied entries with the operation's 16-byte identity, and clients with one request outstanding, the history of acknowledged and pending operations is linearizable in real time, an operation issued after an answer being later than it |
| ServiceHistory.AccountedIsLinearizable | src/statemachine/kv_store.cpp:79-94 | a log that executes every completed operation with the result seen, in real time, linearizes the history |
| ServiceHistory.LaterTakesEffectLater | src/client/client_service.cpp:129-162 | an operation issued after another's answer was seen is nowhere applied without the other having been executed before it |
| ServiceRuns.AnswersLinearizable | src/client/client_service.cpp:26-162 | the answers sent by the client services of all nodes, over any run with batching, retries, crashes and leader changes, are linearizable for clients that own their identities and have one request outstanding |
| ServiceRuns.AnswerIsAck | src/client/client_service.cpp:129-162 | an answer for a pending request is the state machine's result for an applied entry with the request's identity |
| ServiceRuns.AnswerGoesToRequester | src/client/client_service.cpp:63-85 | an answer goes to a client that sent this node the operation's very command before |
| ServiceRuns.DesksFrom | src/client/client_service.cpp:102-127 | whatever a service has buffered or pending, at any time of any run, a client asked this node for |
| ServiceAccounts.NothingLost | src/client/client_service.cpp:26-162 | over any run, between crashes of a node and for every client: requests that came in equal replies sent, plus requests still buffered or pending, plus those displaced from the table |
| ServiceAccounts.RefusedExactly | src/client/client_service.cpp:26-162 | a node that does not lead names its leader to whoever arrives and to everyone it had buffered, a mismatched identity is an error, and an index taken by another's entry is answered with the leader as of the latest request |
| ServiceAccounts.ProposedAtTheirIndices | src/client/client_service.cpp:102-127 | a proposal carries every request at hand in arrival order, and each becomes the log entry at the very index its sender waits for, with its sender's identity |
| ServiceAccounts.OwedAfter | src/client/client_service.h:103-143 | consecutive registrations put everyone in the table and displace exactly those whose cells they take, also when they outnumber the cells |
| ServiceAccounts.RoomForAll | src/client/client_service.h:103-143 | nobody is displaced while the indices waited for and the new ones span no more than the table |
| ServiceExamples.SomeRunAnswers | src/client/client_service.cpp:129-162 | for every session command and every table size there is a run of three nodes and their services in which it is replicated, applied and answered, with disciplined clients |
| ServiceExamples.BorrowedIdentityBreaks | src/client/client_service.cpp:142-159 | for every operation and every unreadable command with its 16-byte prefix there is a run of three nodes with a change of leader in which the client that sent the operation, and nothing else, is answered malformed, which no order explains |
| ClientService.PutAllKeeps | src/client/client_service.h:103-143 | live requests within one table size of consecutive indices never displace each other |
| ClientService.PendingTable.Put | src/client/client_service.h:115-120 | exactly the slot of the index is overwritten |
| ClientService.PendingTable.Take | src/client/client_service.h:122-128 | finds the request of exactly this index and answers it at most once |
| ClientService.ClientService.OnClientRequest | src/client/client_service.cpp:26-86 | redirects, rejects or admits, exactly as the step that the runs of the service are made of; admitted commands leave in arrival order, and exactly the batches proposed while leading reach the core |
| ClientService.ClientService.Join | src/client/client_service.cpp:50-61 | the command joins the back of the batch, which goes out whole once it is full |
| ClientService.ClientService.ProposeNow | src/client/client_service.cpp:63-85 | one proposal, and its index pending for the sender |
| ClientService.ClientService.FlushBatch | src/client/client_service.cpp:102-127 | one proposal in arrival order with consecutive pending indices, or a redirect to every buffered client; order is kept also across batches that were turned away |
| ClientService.ClientService.Register | src/client/client_service.cpp:118-122 | the loop makes every buffered request wait for its own index |
| ClientService.ClientService.OnApplied | src/client/client_service.cpp:129-162 | the result goes out only if the applied entry carries the waiting request's identity, otherwise a redirect to the leader as of the latest request |
| ClientService.PrefixIsIdent | src/client/client_service.cpp:14-22 | the identity replies are matched on is the one the store deduplicates on |
| Sessions.StateIsBareRun | src/statemachine/kv_store.cpp:79-94 | folding any command stream equals executing its fresh commands once each, in order |
| Sessions.ExecutedIncreases | src/statemachine/kv_store.cpp:79-94 | a client's executed sequence numbers strictly increase |
| Sessions.FreshExactly | src/statemachine/kv_store.cpp:79-94 | told from the stream alone: a sound command is executed exactly when it has no session or is newer than every earlier sound command of its client |
| Sessions.RetryGetsReply | src/statemachine/kv_store.cpp:82-87 | a duplicate changes nothing and gets the reply of its client's latest execution |
| Sessions.UnsoundLeavesNoTrace | src/statemachine/order_book.cpp:172-193 | a malformed command changes nothing and is never remembered |
| OrderSessions.EngineExactlyOnce | src/statemachine/order_book.cpp:172-293 | the engine's replies, books, index, counter and sessions on any stream are those of the session law |
| OrderSessions.EngineIsBareRun | src/statemachine/order_book.cpp:184-193 | so its books are those of the executed commands alone, once each, in order |
| KvStore.KvStateMachine.Apply | src/statemachine/kv_store.cpp:61-94 | parse everything, then deduplicate, execute and remember: the session law over the store; what is no command's encoding is answered as malformed and changes nothing |
| KvStore.KvStateMachine.RunOp | src/statemachine/kv_store.cpp:96-126 | the map and the reply change as the operation says |
| KvStore.DecodeEncode | src/statemachine/kv_store.cpp:49-59 | every command a client can build decodes to itself |
| KvStore.DecodeIff | src/statemachine/kv_store.cpp:61-78 | bytes decode to a command exactly when they are its encoding: nothing truncated, nothing trailing, no unknown operation |
| KvStore.MalformedExactly | src/statemachine/kv_store.cpp:61-94 | in any stream a command is answered as malformed exactly when it is no command's encoding, and then map and sessions are as before |
| KvOps.ReadAfter | src/statemachine/kv_store.cpp:96-126 | a read returns what the last put, append or successful compare-and-set wrote, a deleted key reads as absent, a failed compare-and-set changes nothing |
| KvOps.CasExactly | src/statemachine/kv_store.cpp:110-118 | compare-and-set succeeds exactly when a read would return the expected value, an absent key counting as empty |
| KvOps.OutcomesDiffer | src/statemachine/kv_store.h:43-46 | the four status bytes differ, and every operation answers with one of its own three |
| KvOps.ApplyOpProjects | faults/linearizability.cpp:15-41 | an operation on the map acts on its key as on one register, and on no other key |
| HistoryChecker.SearchExact | faults/linearizability.cpp:64-92 | for every history and key the search succeeds exactly when the key's operations are linearizable and none responded before it was invoked |
| HistoryChecker.SearchSound | faults/linearizability.cpp:64-92 | a success yields an order with all completed operations, in real time, with the recorded results |
| HistoryChecker.SearchComplete | faults/linearizability.cpp:64-92 | any such order of the remaining operations is found |
| HistoryChecker.IllTimedRefused | faults/linearizability.cpp:78-81 | a concrete linearizable history the search refuses |
| HistoryChecker.KeySearch.Dfs | faults/linearizability.cpp:64-92 | the search over bit masks, memoised on byte keys, returns what the plain search returns; the memo never prunes a success |
| HistoryChecker.KeySearch.EarliestReturn | faults/linearizability.cpp:65-74 | the loop finds whether anything completed is left and which operations real time allows next |
| HistoryChecker.MemoKeyInjective | faults/linearizability.cpp:94-106 | the byte keys of one search never collide: they determine the mask and the register |
| HistoryChecker.GroupByKey | faults/linearizability.cpp:115-117 | every operation is listed under its key and no other |
| HistoryChecker.CheckKey | faults/linearizability.cpp:55-57 | one key's search accepts exactly its well-timed linearizable histories |
| HistoryChecker.CheckLinearizable | faults/linearizability.cpp:115-137 | accepts exactly the well-timed histories that are linearizable against the whole store |
| Linearizability.StoreReplaysPerKey | faults/linearizability.cpp:15-41 | an order replays on the store exactly when it replays key by key |
| Linearizability.Stamping | faults/linearizability.h:3-18 | an order that respects real time gives every operation a linearization point inside its interval, in order |
| Locality.LinearizablePerKey | faults/linearizability.cpp:115-137 | a well-timed history is linearizable exactly when each key's part is |
| Locality.MergeServes | faults/linearizability.cpp:115-137 | orders of disjoint keys merge by linearization point into one that serves all of them |
| OrderRuns.EngineRefinesReference | test/ob_reference.h:37-99 | on every command stream engine and reference give equal replies and hold the same orders, counters and sessions |
| OrderRuns.RunInvariant | src/statemachine/order_book.cpp:118-170 | after every stream the book is uncrossed, no level or order is empty, and the index lists exactly the resting orders |
| OrderConservation.CommandConserves | test/ob_reference.h:37-99 | the reference's resting volume changes by exactly what a command brings, trades on both sides or takes away |
| OrderBalance.EngineConserves | src/statemachine/order_book.cpp:172-293 | after any stream the next command changes the quantity resting in the engine's books by exactly what it brings, trades on both sides or takes away; a malformed or repeated one leaves the engine alone |
| OrderBalance.TotalIsVolume | src/statemachine/order_book.cpp:147-152 | the levels of both books together hold exactly the quantity of the flat list they agree with |
| OrderConservation.TradeConserves | test/ob_reference.h:160-192 | traded quantity leaves both the incoming order and the resting side; fills and residual make up the order |
| OrderPriority.MatchIsGreedy | src/statemachine/order_book.cpp:118-145 | fills, residual and remaining book are those of the greedy walk along the opposite price-time queue |
| OrderPriority.ConsumeLaws | src/statemachine/order_book.cpp:118-145 | fills follow a prefix of the queue at maker prices, all but the last exhaust their maker, and quantity is left only when nothing in reach remains |
| OrderPriority.QueueSorted | src/statemachine/order_book.cpp:122-131 | prices only get worse along the queue |
| OrderPriority.QueueHolds | src/statemachine/order_book.cpp:132-133 | each level stands in the queue in one piece and in its arrival order |
| OrderPriority.ExecuteUncrossed | src/statemachine/order_book.cpp:205-211 | match-then-rest leaves bids below asks |
| OrderRefinement.SamePick | test/ob_reference.h:161-182 | the front of the engine's best level is the order the reference's scan picks |
| OrderSimulation.PerformSame | src/statemachine/order_book.cpp:196-286 | new, cancel and amend answer alike and keep the books in agreement |
| OrderReference.PickIsChosen | test/ob_reference.h:161-182 | the scan returns the one crossing order preferred to all others |
| OrderBook.BestPrice | src/statemachine/order_book.cpp:123-128 | the price a taker prefers to every other in the book |
| OrderBook.FillOnce | src/statemachine/order_book.cpp:122-143 | one turn of the loop: stop exactly when nothing crosses, else one fill that leaves the same total outcome |
| OrderBook.TakeFront | src/statemachine/order_book.cpp:136-142 | the front order shrinks or goes, and an emptied level with it |
| OrderCommands.DecodeExact | src/statemachine/order_book.cpp:172-243 | whatever is accepted is the encoding of what was read: nothing truncated or trailing, no unknown side or operation, no zero price or quantity |
| OrderCommands.CommandReadsBack | src/statemachine/order_book.cpp:69-92 | every command a client can build is read as what it says |
| OrderBook.OrderBook.Match | src/statemachine/order_book.cpp:118-145 | the loop computes the engine's match |
| OrderBook.OrderBook.Rest | src/statemachine/order_book.cpp:147-152 | the order joins the back of its level and the index |
| OrderBook.OrderBook.Remove | src/statemachine/order_book.cpp:154-170 | exactly the named order leaves; an emptied level goes with it |
| OrderBook.OrderBook.Locate | src/statemachine/order_book.cpp:160-166 | the loop finds the first order with the id, or the end |
| OrderBook.OrderBook.Execute | src/statemachine/order_book.cpp:205-211 | match, then rest exactly the residual |
| OrderBook.OrderBook.NewOrder | src/statemachine/order_book.cpp:197-222 | a fresh id, then match and rest |
| OrderBook.OrderBook.CancelOrder | src/statemachine/order_book.cpp:223-236 | rejects an unknown id, else removes and reports the quantity |
| OrderBook.OrderBook.AmendOrder | src/statemachine/order_book.cpp:237-286 | in place when price stays and quantity does not grow, else cancel and replace under the same id |
| OrderBook.OrderBook.Apply | src/statemachine/order_book.cpp:172-293 | the whole command step that the refinement is about |
| ReferenceMatcher.BestOrder | test/ob_reference.h:161-181 | the linear scan finds the preferred order |
| ReferenceMatcher.FillOnce | test/ob_reference.h:160-192 | one turn of the loop leaves the same total outcome |
| ReferenceMatcher.ReferenceMatcher.Locate | test/ob_reference.h:147-152 | the loop finds the first order with the id, or the end |
| ReferenceMatcher.ReferenceMatcher.CancelOrder | test/ob_reference.h:62-74 | rejects an unknown id, else removes and reports the quantity |
| ReferenceMatcher.ReferenceMatcher.AmendOrder | test/ob_reference.h:75-96 | in place keeping the arrival stamp, or cancel and replace |
| ReferenceMatcher.ReferenceMatcher.Match | test/ob_reference.h:160-192 | the loop computes the reference trade |
| ReferenceMatcher.ReferenceMatcher.Execute | test/ob_reference.h:154-203 | trade, then rest the residual with a new arrival stamp |
| ReferenceMatcher.ReferenceMatcher.Apply | test/ob_reference.h:37-99 | the whole command step of the reference |
| MpscRing.StepInv | src/runtime/mpsc_ring.h:63-94 | every atomic step of any producer or the consumer keeps the cell and ownership invariant |
| MpscRing.Fifo | src/runtime/mpsc_ring.h:143-159 | in every interleaving the consumer gets exactly the values that won positions, in position order, with at most a capacity in flight |
| MpscRing.StepRefinesQueue | src/runtime/mpsc_ring.h:63-94 | every step is an enqueue at the winning exchange, a dequeue at the move-out, or invisible |
| MpscRing.RefusedOnlyWhenFull | src/runtime/mpsc_ring.h:85-88 | a push that gives up had read its cell at an instant when a full capacity of positions was claimed and not recycled |
| MpscRing.FullIsRefused | src/runtime/mpsc_ring.h:85-88 | a push that reads the newest position's cell while the ring is full can only give up |
| MpscRing.EmptyOnlyWhenUnpublished | src/runtime/mpsc_ring.h:143-151 | a pop fails exactly when nothing is in flight or the winner of the next position has not published |
| MpscRing.CellsExclusive | src/runtime/mpsc_ring.h:76-82 | no two producers, and no producer and the consumer, ever work on one cell |
| SpscRing.Fifo | src/runtime/spsc_ring.h:65-80 | published values come out in order, each once, whatever the cached indices hold |
| SpscRing.StepRefinesQueue | src/runtime/spsc_ring.h:111-125 | every step is an enqueue, a dequeue or invisible on a bounded queue |
| SpscRing.RefusalsExact | src/runtime/spsc_ring.h:65-134 | refused only when really full, empty-handed only when really empty; and when they look and find it so, they are |
| SpscRing.SlotsExclusive | src/runtime/spsc_ring.h:65-125 | the slot being written is never the one being read |
| WakeGate.NoLostWakeup | src/runtime/wake_gate.h:45-81 | while the consumer sleeps on work it could take, some producer is between its publish and its notify, and nothing blocks it; also when a publish becomes takeable only with a later one |
| WakeGate.NotifiesExactlyWaiters | src/runtime/wake_gate.h:45-60 | a producer takes the mutex to notify exactly when the consumer has registered and not left |
| WakeGate.ConsumerAlone | src/runtime/wake_gate.h:61-81 | left alone, a consumer with nothing to do falls asleep, and one with work turns back |
| ApplyPipeline.HandOffExact | src/runtime/node_runtime.cpp:81-103 | consumed entries followed by the ring's contents are the log up to lastApplied, each once, with its index |
| ApplyPipeline.RefusalReoffers | src/runtime/node_runtime.cpp:91-100 | a refusal means a full ring, changes nothing, and the same entry is offered next |
| ApplyPipeline.RaftMovesAreCoreMoves | src/raft/raft_core.cpp:517-532 | between hand-offs a Raft node only moves the pipeline in the ways the hand-off proof allows |
| RecordLog.ReplayCut | src/storage/durable_log.cpp:66-128 | any byte prefix of a log file recovers exactly the entries whose records are complete; never corruption |
| RecordLog.CrashDuringAppend | src/storage/durable_log.cpp:135-171 | a crash during an append keeps every earlier entry and a prefix of the new ones |
| RecordLog.ReplaySound | src/storage/durable_log.cpp:66-128 | for every file, what replay returns is exactly what the kept bytes encode |
| RecordLog.ReplayIdempotent | src/storage/durable_log.cpp:119-128 | after truncation the file replays to the same entries with nothing torn |
| RecordLog.TruncateAtRecord | src/storage/durable_log.cpp:198-209 | cutting the file at a record's offset leaves the file of the entries before it |
| LogFormat.FormatLawful | src/storage/durable_log.cpp:66-117 | with any four-byte checksum the record format reads back what it writes, shows cuts as torn, and accepts nothing but its own encodings |
| LogFormat.DiskLawful | src/storage/durable_log.cpp:66-117 | so does the format with CRC32C |
| LogFormat.ParseExact | src/storage/durable_log.cpp:73-114 | an accepted record is the encoding of the entry it yields |
| LogFormat.ParseCut | src/storage/durable_log.cpp:70-83 | a record cut short anywhere reads as torn |
| LogFormat.DamageNoticed | src/storage/durable_log.cpp:85-105 | any change within four consecutive bytes of a record that spares the length field, also across command and checksum, stops recovery at that record, or costs that record when it is the last |
| LogFormat.LengthDamageReadsTorn | src/storage/durable_log.cpp:78-82 | a length field changed to run past the end of the file ends the log there without complaint |
| LogFormat.EncodeRecord | src/storage/durable_log.cpp:147-155 | the written bytes are the record of the format |
| LogFormat.ReadRecord | src/storage/durable_log.cpp:67-117 | the parse with the checksum table is the format's parse |
| DurableLog.DurableLog.Open | src/storage/durable_log.cpp:47-129 | boot, with the table-driven checksum, leaves file, entries and offsets consistent as replay says, or refuses a corrupt file untouched |
| DurableLog.DurableLog.Serialize | src/storage/durable_log.cpp:142-156 | the buffer is exactly what must follow the file to hold the longer log |
| DurableLog.DurableLog.Append | src/storage/durable_log.cpp:135-171 | the file holds exactly the longer log and the offsets are those replay would rebuild |
| DurableLog.DurableLog.TruncateSuffixFrom | src/storage/durable_log.cpp:198-209 | file, entries and offsets are cut at the record boundary |
| Crc32c.Checksum | src/storage/crc32c.cpp:27-34 | the table-driven loop equals the bit-serial checksum |
| Crc32c.MakeTable | src/storage/crc32c.cpp:11-21 | entry i is eight bit steps from i |
| Crc32c.Chaining | src/storage/crc32c.cpp:27-34 | a checksum continued over a second part is the checksum of the whole |
| Crc32c.BurstDetected | src/storage/crc32c.cpp:27-34 | equal checksums of two strings that differ at most in four consecutive bytes mean equal strings |
| Crc32c.Residue | src/storage/crc32c.cpp:27-34 | a string followed by its own checksum, low byte first, always has one and the same checksum |
| Crc32c.PolyValue | src/storage/crc32c.cpp:9 | the bits used are those of the reflected polynomial 0x82F63B78 |
| Codec.DecodeEncode | src/rpc/messages.cpp:252-266 | every encodable message decodes to itself, sender and receiver |
| Codec.EncodeDecode | src/rpc/messages.cpp:268-313 | every accepted frame is the encoding of what it decodes to |
| MessageDecoder.Decoder.DecodeInto | src/rpc/messages.cpp:268-313 | same verdict and message as decoding afresh, whatever the reused message and pool held |
| MessageDecoder.Decoder.BecomeKind | src/rpc/messages.cpp:172-189 | a message of this kind is kept with its pool; otherwise its buffers and list go to the pool and the new one is dressed in the most recently pooled ones |
| MessageDecoder.Decoder.Salvage | src/rpc/messages.cpp:160-170 | the pool grows by exactly the message's buffers, in order, and an emptied list |
| MessageDecoder.Decoder.NextEntry | src/rpc/messages.cpp:145-153 | one turn of the loop: the entry read stands in its place, whatever stood there, and those before it are untouched |
| MessageDecoder.Decoder.PlainInto | src/rpc/messages.cpp:91-110 | every field of a reused vote or reply message is overwritten |
| MessageDecoder.Decoder.ClientInto | src/rpc/messages.cpp:112-126 | every field and the blob of a reused client message are overwritten |
| MessageDecoder.BlobInto | src/rpc/messages.cpp:85-89 | cutting, overwriting and growing a reused buffer yields exactly the blob read |
| MessageDecoder.Decoder.AppendInto | src/rpc/messages.cpp:132-156 | an AppendEntries payload is accepted and built exactly as by fresh decoding |
| MessageDecoder.Decoder.EntriesInto | src/rpc/messages.cpp:132-156 | shrinking, growing and overwriting a reused entry list yields exactly the entries read |
| Frames.FragmentationIrrelevant | src/transport/frame.h:33-63 | however the stream is cut up, the same frames come out and poisoning happens at the same point |
| Frames.SentIsReceived | src/transport/frame.cpp:5-10 | frames written with their prefixes are the frames received |
| Frames.SplitDecomposes | src/transport/frame.h:33-63 | every stream is whole frames of allowed lengths and then an unfinished one, which is kept, or a length of 0 or more than 16 MiB and 12, which alone poisons |
| Frames.SplitExactly | src/transport/frame.h:33-63 | and no stream can be taken apart in another way |
| Frames.FrameAssembler.Feed | src/transport/frame.h:33-63 | one call delivers exactly the frames completed by the data |
| Frames.Next | src/transport/frame.h:45-60 | one turn of the loop: bad length, incomplete, or exactly the next frame |

## Left out

- Sockets, polling, connection routing and the client's networking: the network is the set of packets.
- fsync, rename and directory durability: saving term and vote is atomic, an append is durable on return; only byte-prefix crashes of the log file are modelled.
- Clocks, random timeouts and deadlines: a timer may fire at any time. `RaftAvailability.MajoritySuffices` says that progress stays possible, not that it comes about.
- Weak memory orders and 64-bit wrap-around of positions, terms, ids and sequence numbers: sequential consistency and unbounded naturals; field widths appear where a byte format fixes them.
- Draining the rings on stop: not claimed.
- A duplicate older than its client's latest request gets the latest request's reply, not its own.
- Snapshots (`serialize`, `deserialize`), the text image of the book and the byte form of the engine's results.
- Metrics, logging, benchmarks, fault injection and plotting.
- Reading an absent peer through the source's map inserts a zero; the model reads zero without inserting.
- Engine and reference share one decoder here, while the source's reference parses on its own; that both refuse the same malformed commands holds by construction.
- The operations of a key are sorted before the search; the search is proved for every order.
- RaftCore: timers, the higher-term callback and the client-request dispatch are not part of the class; the client service is a class of its own.
- RaftCluster.LeaderCompleteness: stated for leaders whose term is at least the term of the node that records the commit, as Raft itself promises it for higher terms only; a stale candidate may win a lower term later.
- ServiceHistory.ServiceLinearizable: assumes a client sends a new request only after its previous one is acknowledged and never uses client id 0.
- ServiceRuns.AnswersLinearizable: assumes in addition that clients own their identities, and that a client takes an answer for the request it was sent for; which connection a reply travels on is part of the networking left out.
- LogFormat.DamageNoticed: damage to a record's length field is not covered, since it may read as a torn tail; `LogFormat.LengthDamageReadsTorn` is about that.
- ClientService.ClientService.OnClientRequest: the core is represented by its role, leader hint and next index at the time of the call; `ServiceRuns` reads them off the Raft node.
- ClientService.ClientService.OnApplied: an answer's own leader hint, always the answering node, is not part of the reply.
- RaftBacktracking.BacktrackingTerminates: the two nodes are undisturbed during the exchange; messages of other nodes, losses and restarts in between are not part of it. The same holds for `RaftBacktracking.RoundsByTerm`.
