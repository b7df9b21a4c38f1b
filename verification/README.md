# Verified models of OpenChoreo's agent, gateway and release code

This project models the parts of OpenChoreo whose behaviour is hardest to see from the code alone, and proves what they promise.

- **The agent's resource-tree match engine.** A batch of queries runs over a paged API server under three budgets: response bytes shared by the batch, LIST calls per query and continuation pages per query. `ResourceTree` turns a query into a plan of namespace walks, the plan and the server into a script of actions, and the query into a fold over that script. `ResourceTreeHandler` is the handler as it runs (budgets, accumulator, loops), proved equal to the fold. `ResourceTreeBudgets`, `ResourceTreeExact`, `ResourceTreeLimits` and `ResourceTreeTheorems` prove what the fold guarantees, and `ResourceTreeAnswers` says what a request is answered, from the fields of its queries alone.
- **The gateway's connection registry.** `Registry` gives every operation as a function on values, `RegistryManager` is the mutable manager proved against it, `RegistryEffects` states what each operation does and leaves alone, `RegistryRuns` and `RegistryFairness` reason about serialised runs, `RegistryInterleaving` splits the operations at their locks, `RegistryCounters`, `RegistryDepartures` and `RegistryFairInterleaving` show counters collected, departures announced once and selection fair in every interleaving, and `RegistryAtomicity` shows that an operation whose steps are not interrupted has the effect of the whole operation.
- **The agent's reconnect loop.** `AgentSession` is a step system of the Start loop, cancellation, Stop and any number of session watchers that share one connection field.
- **Six smaller algorithms.** `StdinPipe`, `StdinPipeOrder` and `StdinPipeDrain` (channel plus overflow buffer), `DeepCopy` (copy over a heap of mutable maps and slices), `SchemaWalk` (recursive walk into a shared table), `SseFrames` (framing against section 9.2.6 of the WHATWG HTML Living Standard), `XfccSplit` and `XfccQuotes` (quote-aware splitting), `ReleaseBuilder` (canonical traits and closed profiles).

The API server is an arbitrary deterministic function from a request to a page or an error. Exactness of the matchers assumes a server that serves a fixed set of objects, returns each namespace's objects for that namespace, honours the selector, and gives no two objects the same child key (`ResourceTreeExact.Faithful`). Certificate verification, CA parsing, JSON shaping and escaping, label validation, token substitution, white-space trimming and lower-casing are function parameters. Connection ids are fresh numbers. Plane types and plane ids contain no slash (the pattern of `api/v1alpha1/dataplane_types.go`), and authorised CR keys are not empty.

Where something documented does not hold on every input, the exact condition is proved:

- A decoded event stream equals the payloads sent if and only if no payload holds a CR (`SseFrames.RoundTrip`).
- The bytes in the stdin pipe, told apart by where they were written, stand in the order they were accepted if and only if no write found the channel full (`StdinPipeOrder.OrderExact`). Writes are not empty there, as the exec session sees to before it writes. A run in which an overflowing byte overtakes is given (`StdinPipe.OverflowReorders`). No byte is ever lost (`StdinPipe.BytesConserved`).
- A query that completes under some limits completes under lower ones if and only if these cover the matches, bytes, LIST calls and continue tokens it takes (`ResourceTreeLimits.CompletesIff`).
- Reading on can empty the stdin pipe if and only if it is open, or holds at most the one chunk that a read under way will receive: chunks still queued at Close are not delivered (`StdinPipeDrain.DrainsIff`, `StdinPipeDrain.CloseStrands`).
- A trait of a built release's profile, and a trait its component type requires, is found among the release's traits if and only if it was named with an empty kind, `Trait` or `ClusterTrait`; any other kind is checked against the namespaced traits and then not found (`ReleaseBuilder.ReleaseClosed`, `ReleaseBuilder.EmbeddedClosed`, `ReleaseBuilder.UnknownKindNotFound`).

The table lists the main results first, then the results and methods they rest on, component by component.

## Model

| member | source | states |
|---|---|---|
| ResourceTreeAnswers.RequestAnswer | internal/cluster-agent/resourcetree.go:120-282 | every result of a request, position by position: it carries its query's id, it is refused exactly when the id is empty or repeated, the matcher unknown or a field out of order, and without error it lists each object that the query's own matcher and criteria pick once, nothing else, with exactly the picking parents in request order |
| ResourceTreeTheorems.TruncationIsPrefixSound | internal/cluster-agent/resourcetree.go:249-264 | for any lower match, byte, list or page limit, a result without truncation is the unlimited result, and the i-th match of a truncated one is the same object as the i-th unlimited match with a prefix of its parents |
| ResourceTreeLimits.CompletesIff | internal/cluster-agent/resourcetree.go:417-577 | where a query completes under some limits, it completes under lower ones if and only if they cover its matches, their bytes, its LIST calls and its continue tokens |
| ResourceTreeTheorems.RequestNonInterference | internal/cluster-agent/resourcetree.go:120-169 | in a request with unique ids and no deadline passed, if the charges of the queries run alone fit the budget together, every result is position by position what its query gives alone with a fresh budget |
| ResourceTreeTheorems.OwnerRefExact | internal/cluster-agent/resourcetree.go:297-330 | an ownerRef plan carried out without error lists each object owned by a same-namespace parent once, nothing else, with exactly those parents |
| ResourceTreeTheorems.LabelSelectorExact | internal/cluster-agent/resourcetree.go:339-410 | a labelSelector plan carried out without error lists each selected object once, nothing else, with exactly the parents that select it (order and repeats by SelectorsAmongMeaning; which queries run this plan, with which criteria, by ResourceTreeAnswers.QueryAnswer) |
| ResourceTreeTheorems.BatchLedger | internal/cluster-agent/resourcetree.go:161-168 | over a whole batch, bytes left plus the cost of everything accumulated equals the budget at the start, and no more than that budget is ever spent |
| ResourceTreeTheorems.ResponseWithinBudget | internal/cluster-agent/resourcetree.go:490-577 | for every request and every API server, the matches of all results of a response together, each at its encoded size plus the escaped length of every parent UID and a comma, cost no more than maxResponseBytes |
| ResourceTreeTheorems.WorkIsBounded | internal/cluster-agent/resourcetree.go:62-80 | against every server a query makes at most maxListCalls LIST calls, follows at most 128 continue tokens and keeps at most matchLimit matches |
| ResourceTreeHandler.Handle | internal/cluster-agent/resourcetree.go:120-194 | the handler answers the whole request as specified, with one budget handed from query to query; what that answer is, RequestAnswer and ResponseIff state |
| RegistryEffects.RegisterEffect | internal/cluster-gateway/connection_manager.go:182-231 | the new connection is last in its plane, authorised for exactly the CRs it came with and selectable for each at once; its event carries them, and no other connection, plane or counter changes |
| RegistryCounters.CountersAccounted | internal/cluster-gateway/connection_manager.go:243-804 | in every interleaving each counter belongs to a plane with connections, or to a plane/CR pair with an authorised connection, a re-validation of that pair in flight that has revoked something, or an unregistration still cleaning up that CR |
| RegistryCounters.NoCounterLeaks | internal/cluster-gateway/connection_manager.go:713-804 | with nothing in flight every counter belongs to a plane with connections or to a pair with an authorised connection |
| RegistryDepartures.UnregisteredExactlyOnce | internal/cluster-gateway/connection_manager.go:253-284 | in every interleaving a registered id has had one unregister event if it has left the registry, and none otherwise; the event may lag only while its unregistration holds the lock |
| RegistryFairInterleaving.InterleavedFair | internal/cluster-gateway/connection_manager.go:314-356 | in every interleaving, with operations split at their locks: while the same connections stay authorised for a CR, the completed GetForCR calls pick each equally often, give or take one |
| RegistryEffects.GetFair | internal/cluster-gateway/connection_manager.go:295-308 | while a plane's connections stay the same, the Get calls for it pick each equally often, give or take one, whatever other operations are interleaved |
| RegistryRuns.EventMirror | internal/cluster-gateway/connection_manager.go:141-145 | over every serialised run, replaying the listener's events rebuilds exactly the registry: id to plane and authorised CRs |
| RegistryRuns.RevalidationSettles | internal/cluster-gateway/connection_manager.go:639-740 | after a serialised re-validation each connection of the plane is authorised iff its certificate verifies, all else is unchanged, and the counts are the sizes of the two set differences |
| AgentSession.Reconnects | internal/cluster-agent/agent.go:154-253 | from every state reached without cancellation or Stop the loop can dial once more and start one more session |
| AgentSession.CancelReturns | internal/cluster-agent/agent.go:154-253 | from every state, cancellation lets Start return with every socket closed |
| AgentSession.OneSocket | internal/cluster-agent/agent.go:154-253 | in every interleaving at most one socket is open, and none once Start has returned |
| AgentSession.WatchersCloseTheirOwn | internal/cluster-agent/agent.go:337-355 | in every interleaving a watcher closes its own session's socket only, which no other session ever had |
| StdinPipe.BytesConserved | internal/cluster-agent/exec.go:71-124 | in every interleaving the accepted bytes are, as a multiset, the delivered, in-hand, buffered and queued ones |
| StdinPipeOrder.OrderExact | internal/cluster-agent/exec.go:71-115 | in every interleaving of non-empty writes, the bytes, told apart by where they were written, stand in accepted order if and only if no write found the channel full |
| StdinPipeDrain.NoLostWakeup | internal/cluster-agent/exec.go:71-124 | in every interleaving a reader waiting on an open channel with nothing to receive has been given every byte written before Close |
| StdinPipeDrain.DrainsIff | internal/cluster-agent/exec.go:71-124 | in every interleaving, reading on can empty the pipe exactly when it is open or holds at most the chunk a read under way will receive |
| DeepCopy.Copy | internal/clone/deepcopy.go:18-47 | the copy has the structure of the source, every map and slice in it is newly allocated and nothing existing is written, so later writes to the source's containers leave it as it was |
| SchemaWalk.Extract | internal/controller/annotations.go:47-60 | it fails iff a role is enabled on two different nodes with a non-empty name on the way, otherwise maps exactly the enabled roles, each to its node's property names in order joined by dots |
| SchemaWalk.ExtractsOnce | internal/controller/annotations.go:47-96 | only one result meets that description, so map iteration order never shows |
| SseFrames.RoundTrip | internal/cluster-gateway/wirelogs.go:219-242 | a reader following the standard gets exactly one event per non-empty payload, with the payload minus at most one trailing LF, iff no payload holds a CR |
| XfccSplit.SplitMeaning | internal/cluster-gateway/agent_auth.go:157-180 | the parts are the only ones cut exactly at the separators met outside quotes, and joined by the separator they give the input back |
| XfccSplit.TwoLevels | internal/cluster-gateway/agent_auth.go:128-131 | splitting at commas and every part at semicolons is one pass over the header with both separators |
| XfccSplit.ParseXFCC | internal/cluster-gateway/agent_auth.go:122-152 | of the first hop's pairs, keys trimmed and lower-cased, the last chain pair's value if not empty, else the last cert pair's, and nothing exactly when both are empty or missing |
| XfccQuotes.QuotedTextInert | internal/cluster-gateway/agent_auth.go:123-152 | whatever text stands inside a quoted value of another key, or of a later hop, the certificate or chain taken from the header is the same |
| ReleaseBuilder.BuildSpec | internal/componentrelease/builder.go:27-68 | it succeeds iff component, type name, workload and all required traits are there, reports the first failing check otherwise, and builds the specified release |
| ReleaseBuilder.ReleaseUnique | internal/componentrelease/builder.go:27-68 | an input has one release |
| ReleaseBuilder.ReleaseClosed | internal/componentrelease/builder.go:27-150 | every profile trait is found in the release with the spec of the right input map, iff the component gave it an empty kind, Trait or ClusterTrait |
| ResourceTree.RunFuel | internal/cluster-agent/resourcetree.go:417-450 | a server may hand out continue tokens for ever; cutting the script of a plan anywhere at or beyond the list budget changes no run |
| ResourceTreeBudgets.RunLedger | internal/cluster-agent/resourcetree.go:526-577 | bytes left plus the cost of every accumulated match is constant over every run, including merges that stop part way |
| ResourceTreeBudgets.RunWithin | internal/cluster-agent/resourcetree.go:494-500 | no run spends a byte it does not have, in merges and in new matches alike |
| ResourceTreeBudgets.RunBounded | internal/cluster-agent/resourcetree.go:468-487 | LIST calls, followed tokens and kept matches never exceed their budgets |
| ResourceTreeBudgets.RunTighter | internal/cluster-agent/resourcetree.go:526-577 | a run with lower limits either does exactly what the run with higher limits does, or stops as truncated with a prefix of its matches, each with a prefix of its parents |
| ResourceTreeBudgets.RunPoorer | internal/cluster-agent/resourcetree.go:490-500 | with fewer bytes that still cover what a run spends, the run is the same and leaves exactly that much less |
| ResourceTreeExact.RunGroups | internal/cluster-agent/resourcetree.go:526-577 | a completed run of the accumulator is the group-by of the offered items: one match per child in order of first offer, its parents the deduplicated offered parents |
| ResourceTreeExact.RunExact | internal/cluster-agent/resourcetree.go:417-450 | a completed plan over a faithful server matches exactly the objects the plan attributes to some parent, each once |
| ResourceTreeAnswers.QueryAnswer | internal/cluster-agent/resourcetree.go:196-282 | a query answered without error has matcher ownerRef and lists the owned objects, or labelSelector and lists the objects selected under its own criteria, in its namespaces or the parent's own |
| ResourceTreeAnswers.RefusedIff | internal/cluster-agent/resourcetree.go:196-219 | a query is refused as invalid, or for its matcher, exactly for the listed reasons, and then reports no match |
| ResourceTreeAnswers.ValidateIff | internal/cluster-agent/resourcetree.go:594-758 | a query passes validation exactly when every field is as required, written out field by field |
| ResourceTreeAnswers.OutcomeCodes | internal/cluster-agent/resourcetree.go:224-279 | which end of the walks gives which code: matches are kept on completion, at a limit and at the deadline, and dropped when a LIST is forbidden or fails |
| ResourceTreeAnswers.ResponseIff | internal/cluster-agent/resourcetree.go:120-194 | a request is rejected exactly for more than 64 queries or an id longer than 512; a response never exceeds 10 MiB; under another version every query gets the version error |
| ResourceTreeLimits.SomeLimitsSuffice | internal/cluster-agent/resourcetree.go:417-577 | where the server serves every page and these end, some limits let the query complete |
| ResourceTreeTheorems.QueryLedger | internal/cluster-agent/resourcetree.go:196-282 | a query's charge is exactly the cost of what it accumulated, and its matches are either all of that or none |
| ResourceTreeTheorems.QueryWithin | internal/cluster-agent/resourcetree.go:196-282 | a query's matches cost no more than it takes off the shared budget, and it takes no more than there is |
| ResourceTreeTheorems.QueryUndisturbed | internal/cluster-agent/resourcetree.go:196-282 | a query answers the same with whatever its siblings left, as long as that covers what it charges alone |
| ResourceTreeTheorems.BatchNonInterference | internal/cluster-agent/resourcetree.go:161-168 | if the charges fit together, every query of a batch answers position by position what it answers alone |
| ResourceTreeTheorems.OwnersAmongMeaning | internal/cluster-agent/resourcetree.go:297-330 | the parents reported for a child are exactly the requested parents of its own namespace it names as owners, without repeats, in request order |
| ResourceTreeTheorems.SelectingMeaning | internal/cluster-agent/resourcetree.go:339-410 | the parents attributed to an object are exactly the non-skipped ones whose selector selects it in a searched namespace |
| ResourceTreeTheorems.SelectorsAmongMeaning | internal/cluster-agent/resourcetree.go:339-410 | the parents reported for an object are without repeats, exactly those that select it, in the order in which they first do so in the request |
| ResourceTreeHandler.MatchAccumulator.MergeParents | internal/cluster-agent/resourcetree.go:532-546 | new parents of a known child are charged one by one and the state is the specified merge even where one does not fit |
| ResourceTreeHandler.MatchAccumulator.Add | internal/cluster-agent/resourcetree.go:526-577 | the accumulator's maps, slices and shared budget refine one step of the fold, with its outcome |
| ResourceTreeHandler.OwnersOf | internal/cluster-agent/resourcetree.go:309-322 | the parents of an item in the order of the requested UIDs |
| ResourceTreeHandler.EachItem | internal/cluster-agent/resourcetree.go:417-450 | the paging loop refines the script of one walk against every server, and terminates |
| ResourceTreeHandler.ParentNamespaces | internal/cluster-agent/resourcetree.go:784-794 | the distinct parent namespaces in first-seen order |
| ResourceTreeHandler.MatchOwnerRef | internal/cluster-agent/resourcetree.go:297-330 | the namespace loop refines the run of the ownerRef plan |
| ResourceTreeHandler.MatchLabelSelector | internal/cluster-agent/resourcetree.go:339-410 | the parent and namespace loops refine the run of the labelSelector plan, skipped parents included |
| ResourceTreeHandler.RunOne | internal/cluster-agent/resourcetree.go:196-282 | id, matcher, validation, deadline, truncation and failure paths give exactly the specified result and leave exactly the specified bytes; what that result is, QueryAnswer, RefusedIff and OutcomeCodes state |
| ResourceTreeHandler.DuplicateQueryIDs | internal/cluster-agent/resourcetree.go:768-780 | exactly the ids that occur more than once |
| RegistryKeys.CounterKeyInjective | internal/cluster-gateway/connection_manager.go:339-343 | concatenated plane/CR counter keys collide only when plane and CR are equal |
| RegistryKeys.CounterKeyNotPlane | internal/cluster-gateway/connection_manager.go:295-343 | a per-CR key is never a plane's own key |
| RegistryKeys.PrefixIsPlane | internal/cluster-gateway/connection_manager.go:745-757 | the prefix comparison of the plane clean-up selects exactly that plane's per-CR keys |
| RegistryEffects.RegisteredCertDecides | internal/cluster-gateway/connection_manager.go:182-231 | a later re-validation decides on the certificate the connection registered with |
| RegistryEffects.RevalidateEffect | internal/cluster-gateway/connection_manager.go:639-740 | exactly CR namespace/name is settled, for the members of that plane, by their certificates; nothing else changes hands |
| RegistryEffects.UnregisterEffect | internal/cluster-gateway/connection_manager.go:243-291 | the connection is out of its plane, the others keep their order, an empty plane goes, one event is sent, and an unknown id changes nothing |
| RegistryEffects.UnregisterCounters | internal/cluster-gateway/connection_manager.go:243-291 | only counters of pairs nobody is authorised for any more, or of a plane that is gone, are taken away |
| RegistryEffects.DisconnectEffect | internal/cluster-gateway/connection_manager.go:406-446 | no connection and no counter of the plane is left, each connection is announced once in order, and other planes are untouched |
| RegistryEffects.GetForCREffect | internal/cluster-gateway/connection_manager.go:314-356 | a connection is found iff one of the plane is authorised, and then an authorised one |
| Registry.UpdatedCRsMeaning | internal/cluster-gateway/connection_manager.go:103-135 | after an update the CR is authorised iff the certificate verifies, and no other CR is touched |
| RegistryRuns.ApplyConsistent | internal/cluster-gateway/connection_manager.go:182-446 | every operation keeps planes non-empty, their connections distinct and aware of their plane |
| RegistryRuns.RevalidationIdempotent | internal/cluster-gateway/connection_manager.go:639-740 | repeating a re-validation returns (0,0) and changes nothing |
| Rotation.HitsEven | internal/cluster-gateway/connection_manager.go:344-345 | k successive indices modulo n hit each position k/n times rounded down or up |
| RegistryFairness.RoundRobinFair | internal/cluster-gateway/connection_manager.go:314-356 | over serialised runs: while n connections stay authorised for a CR, any k GetForCR calls for it pick each k/n times rounded down or up, whatever other operations are interleaved |
| RegistryFairInterleaving.NextCounter | internal/cluster-gateway/connection_manager.go:713-804 | while the authorised connections stay the same, no step but a completing GetForCR moves the pair's counter; no clean-up deletes it |
| RegistryInterleaving.UpdateJustify | internal/cluster-gateway/connection_manager.go:675-701 | updating a connection outside the manager lock leaves each counter a holder or a recorded revocation |
| RegistryCounters.NextKeeps | internal/cluster-gateway/connection_manager.go:243-804 | every step of every operation, split at its locks, keeps every counter accounted for |
| RegistryCounters.LockHolderGoesOn | internal/cluster-gateway/connection_manager.go:243-356 | in every reachable state the operation holding the lock has a next step |
| RegistryCounters.FlightGoesOn | internal/cluster-gateway/connection_manager.go:675-740 | in every reachable state a re-validation in flight has a next step once the lock is free |
| RegistryAtomicity.GetForCRWhole | internal/cluster-gateway/connection_manager.go:314-356 | the steps of GetForCR, uninterrupted, have the effect of the whole operation |
| RegistryAtomicity.UnregisterWhole | internal/cluster-gateway/connection_manager.go:243-291 | the steps of Unregister, uninterrupted, have the effect of the whole operation |
| RegistryAtomicity.RevalidateWhole | internal/cluster-gateway/connection_manager.go:639-740 | the steps of RevalidateCR, uninterrupted, have the effect of the whole operation |
| RegistryManager.AgentConnection.RemoveValidCRUnsafe | internal/cluster-gateway/connection_manager.go:89-97 | every occurrence of the CR goes, the rest stays in order |
| RegistryManager.AgentConnection.UpdateCRValidity | internal/cluster-gateway/connection_manager.go:103-135 | granted and revoked report exactly the change of authorisation, which follows the certificate |
| RegistryManager.ConnectionManager.Register | internal/cluster-gateway/connection_manager.go:182-231 | the new connection object joins its plane last and the listener is told, as the operation whose effect RegisterEffect states |
| RegistryManager.ConnectionManager.Get | internal/cluster-gateway/connection_manager.go:295-308 | the object at the plane's counter, which advances modulo the plane's size |
| RegistryManager.ConnectionManager.AuthorisedOf | internal/cluster-gateway/connection_manager.go:323-328 | exactly the authorised connections, in order |
| RegistryManager.ConnectionManager.GetForCR | internal/cluster-gateway/connection_manager.go:314-356 | the authorised object at the pair's counter, or none and no counter touched |
| RegistryManager.ConnectionManager.Unregister | internal/cluster-gateway/connection_manager.go:243-291 | the connection goes with exactly the counters only it accounted for, and the listener is told once |
| RegistryManager.ConnectionManager.DisconnectAllForPlane | internal/cluster-gateway/connection_manager.go:406-446 | the plane goes with all its counters, one event per connection, and the count is the plane's size |
| RegistryManager.ConnectionManager.RevalidateCR | internal/cluster-gateway/connection_manager.go:639-740 | objects, events, counts and counters are those of the specified re-validation, and a CA that does not parse changes nothing |
| RegistryManager.ConnectionManager.HasAuthorised | internal/cluster-gateway/connection_manager.go:782-787 | the early-exit scan finds a holder iff there is one |
| RegistryManager.ConnectionManager.CleanupPerCRRoundRobinKeys | internal/cluster-gateway/connection_manager.go:745-765 | exactly the keys under the plane's prefix are deleted, in whatever order the map is read |
| RegistryManager.ConnectionManager.CleanupOrphanedCRKeys | internal/cluster-gateway/connection_manager.go:770-804 | exactly the keys of removed CRs without a remaining authorised connection are deleted |
| AgentSession.NextKeeps | internal/cluster-agent/agent.go:154-253 | every step of the loop, the context and any watcher keeps one owner per open socket, sessions in order, committed watchers harmless, and the loop going until it is told to stop |
| AgentSession.StopsOnlyWhenTold | internal/cluster-agent/agent.go:154-253 | in every interleaving Start returns, or sets out to, only after cancellation or Stop |
| AgentSession.AnyNumberOfSessions | internal/cluster-agent/agent.go:154-253 | for every n some run without cancellation has n sessions, each on its own socket |
| AgentSession.CancelUnblocks | internal/cluster-agent/agent.go:337-355 | once cancelled, the session's own watcher alone can close the socket being read, which ends the read |
| AgentSession.AlwaysAConnection | internal/cluster-agent/agent.go:313-319 | handleConnection never finds the connection missing |
| AgentSession.NoDialAfterCommit | internal/cluster-agent/agent.go:345-355 | once a watcher has decided to close, the loop dials no further socket |
| StdinPipe.NextKeeps | internal/cluster-agent/exec.go:71-124 | every step of a reader, a writer or Close conserves bytes, and order until a write overflows |
| StdinPipeDrain.AcceptedIsSubmitted | internal/cluster-agent/exec.go:99-124 | in every interleaving the accepted bytes are those of the writes made before Close, in order |
| StdinPipeDrain.CloseStrands | internal/cluster-agent/exec.go:71-124 | a chunk written just before Close never comes out, however much is read |
| StdinPipe.OrderKept | internal/cluster-agent/exec.go:99-115 | in every interleaving without overflow, empty writes included, delivered, in-hand, buffered and queued bytes concatenate to the accepted sequence |
| StdinPipeOrder.OrderKeptIff | internal/cluster-agent/exec.go:71-115 | for pairwise different elements the order is kept if and only if no write finds the channel full |
| StdinPipeOrder.BareAfter | internal/cluster-agent/exec.go:71-124 | carrying along where each byte was written changes nothing about a run |
| StdinPipe.OverflowReorders | internal/cluster-agent/exec.go:106-113 | a run in which a write finds the channel full and its byte overtakes the queued ones |
| StdinPipe.StdinPipeReader.Write | internal/cluster-agent/exec.go:99-115 | data is queued, buffered when the channel is full, dropped when closed |
| StdinPipe.StdinPipeReader.Read | internal/cluster-agent/exec.go:71-97 | an undisturbed read takes as much as fits of the buffer, or of the next chunk when that is empty, keeps the rest and leaves the remaining slice alone; it reports the end of input, or waits without touching anything, exactly when specified |
| DeepCopy.StructureOf | internal/clone/deepcopy.go:18-47 | every value of an acyclic heap has a finite structure |
| DeepCopy.OneStructure | internal/clone/deepcopy.go:18-47 | a value has only one structure |
| DeepCopy.CopyEntries | internal/clone/deepcopy.go:65-71 | the same for a map, in whatever order its keys come |
| DeepCopy.CopyItems | internal/clone/deepcopy.go:75-81 | the same for a slice |
| DeepCopy.CopyMap | internal/clone/deepcopy.go:56-61 | nil stays nil and any other map is copied |
| SchemaWalk.Collect | internal/controller/annotations.go:66-77 | a node's own roles are added, or a clash is reported, in whatever order its fields come |
| SchemaWalk.AddsThen | internal/controller/annotations.go:82-94 | visiting a nested schema after others adds exactly the union of their marks to the shared table |
| SchemaWalk.Walk | internal/controller/annotations.go:65-96 | the walk adds exactly the roles of the whole tree, or stops at a clash that the tree really has |
| SchemaWalk.PathIsJoin | internal/controller/annotations.go:87-90 | for every node the path the walk builds is the property names from the first non-empty one on, in order, joined by dots |
| SchemaWalk.PathTellsNode | internal/controller/annotations.go:87-90 | for non-empty names without dots, splitting the path at dots gives the names back, so different nodes have different paths |
| SchemaWalk.EmptyPath | internal/controller/annotations.go:87-90 | a node has an empty path exactly when no property name on the way to it is non-empty |
| SseFrames.WriteEvent | internal/cluster-gateway/wirelogs.go:221-237 | the loop writes one data line per line of the payload and a blank line |
| XfccSplit.SplitUnquoted | internal/cluster-gateway/agent_auth.go:160-180 | the index loop with its skipped escapes computes the specified split for every separator |
| XfccSplit.SameModes | internal/cluster-gateway/agent_auth.go:160-180 | scanning a part on its own goes through the same quote states as scanning it in context |
| XfccSplit.FirstHopIsPrefix | internal/cluster-gateway/agent_auth.go:123-131 | the pairs looked at are the first pieces of that one pass |
| XfccSplit.LaterHopsIgnored | internal/cluster-gateway/agent_auth.go:119-128 | what later hops append after a header with closed quotes changes nothing |
| XfccQuotes.EscapeContained | internal/cluster-gateway/agent_auth.go:123-127 | escaped text never leaves the quotes it is written in, whatever it is |
| XfccQuotes.SplitAround | internal/cluster-gateway/agent_auth.go:160-180 | a quoted value stays inside the one part it stands in, between the parts of what surrounds it |
| XfccQuotes.OtherPairsUnchanged | internal/cluster-gateway/agent_auth.go:123-131 | whatever text stands in the quotes, the first hop has as many pairs and all the others are the same |
| XfccSplit.SelectsIff | internal/cluster-gateway/agent_auth.go:122-152 | the value the parser computes is the only one that meets that description |
| XfccSplit.SaysIff | internal/cluster-gateway/agent_auth.go:132-143 | a pair says exactly one thing under exactly one name: what stands before and after its first equals sign, trimmed |
| XfccSplit.LastWins | internal/cluster-gateway/agent_auth.go:131-143 | of several pairs with the same key the last one's value is used |
| XfccSplit.NoneNamed | internal/cluster-gateway/agent_auth.go:130-143 | without a pair of that key the value is empty |
| XfccSplit.TrimMeaning | internal/cluster-gateway/agent_auth.go:136-137 | a value loses its surrounding quotes and nothing else |
| ReleaseBuilder.MergeTraits | internal/componentrelease/builder.go:84-114 | exactly the traits of both maps, strictly sorted by kind and name; empty iff both maps are |
| ReleaseBuilder.CanonicalUnique | internal/componentrelease/builder.go:105-112 | there is one such slice, whatever order the maps are iterated in |
| ReleaseBuilder.CanonicalOrder | internal/componentrelease/builder.go:105-112 | in a merged slice every ClusterTrait comes before every Trait, and within a kind names go up: at the first difference the earlier one ends or has the smaller character |
| ReleaseBuilder.FindTraitSpec | internal/componentrelease/builder.go:118-125 | the loop returns the spec of the first entry with the kind and name |
| ReleaseBuilder.FindInCanonical | internal/componentrelease/builder.go:116-125 | in a merged slice a look-up gives what the map of that kind holds, even when both maps share a name |
| ReleaseBuilder.BuildProfile | internal/componentrelease/builder.go:129-150 | every trait of the component in order with its kind defaulted, or nothing without parameters and traits |
| ReleaseBuilder.FindMissing | internal/componentrelease/builder.go:39-48 | the first required trait that is absent from the map of its kind, if any |
| ReleaseBuilder.EmbeddedClosed | internal/componentrelease/builder.go:39-43 | every trait the component type requires is found in the release under its kind, an empty kind defaulted, with the spec of the right input map, iff that kind is empty, Trait or ClusterTrait |
| ReleaseBuilder.UnknownKindNotFound | internal/componentrelease/builder.go:71-78 | an input with unknown kinds that is accepted and whose component and embedded traits are then not found |

## Left out

- JSON decoding and encoding, object shaping, the escaped length of a UID, label and name validation and token substitution of the match engine are parameters; log and error message texts and the LIST page size are not modelled.
- The API server does not change between the pages of one query, and object keys it serves are assumed distinct where exactness is stated.
- WebSocket, TLS, X.509, PEM and HTTP plumbing: sockets and certificate verification are abstract.
- The registry's status queries, last-seen times, message sending, and the SetValidCRs, AddValidCR and RemoveValidCR methods, which neither notify nor clean up counters.
- Exact event mirroring while re-validations overlap: their change events are emitted outside the manager lock, so the mirror is stated for serialised runs only.
- The unlocked write of the agent's connection field is one atomic step; the data race question around it is not modelled.
- Stop is modelled as closing its channel once.
- A read of the stdin pipe that waits on the channel is modelled as not having returned.
- DeepCopy treats a slice as the array of its elements; two slices that share a backing array at different offsets are not modelled. Values of other types are shared by the copy, as the code documents.
- The library sort of merged traits is modelled as an insertion sort on a sequence, not in place; a nil slice is the empty one.
- Percent-decoding and PEM parsing of the selected forwarded certificate, and the AWS header form.
- Controllers, API types, authorisation, configuration, rendering and the remaining packages of the repository.
