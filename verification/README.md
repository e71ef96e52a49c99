# Prose core: models and proofs

Dafny models of the parts of the Prose XMPP client core where correctness depends on
several operations at once, with proofs over all inputs or all runs. `dafny verify
dfyconfig.toml` checks everything.

| component | files | main results |
|---|---|---|
| Request correlator (`prose-xmpp`) | `Requests`, `PendingRequests`, `RequestPurge`, `RequestRuns`, `RequestHistory`, `RequestAnswers`, `RequestClient` | `EveryRunIsSafe`, `RetiredForever`, `NoLostWakeup`, `EveryOutputIsJustified`, `TickGoesByAge`, `TrafficIsConserved`, `PollPanicsExactly`, `ClientPanicsExactly`, `OutputExactlyIfUnrobbed`, `JoinOutputExactly`, `OrderIrrelevantExactly`, `NoRequestOutlivesItsTimeout` |
| Store queries, keys and schema (`prose-store`) | `StoreKeys`, `StoreQueries`, `StoreAgreement`, `StoreReads`, `DateKeys`, `StoreSchema` | `DriversAgreeExactly`, `ReadsAgree`, `CompiledPredicateIsExact`, `LimitPushdownIsExact`, `OrderKeptExactlyTo9999`, `TimestampKeyReadsBack`, `DescriptionStaysInStep`, `SameNameExactly`, `RollBackStaysInStepExactly` |
| Client event coalescer | `EventFolding`, `Coalescer` | `CoalesceIsExact`, `DeliveredInOrder`, `ExactExactlyForDistinctJids`, `CoalescingIsIncremental`, `StableSortIsUnique` |
| Roster and block list caches | `Replication`, `ContactCaches` | `RunConvergesExactly`, `RosterConvergesExactly`, `ConvergesExactlyIfCovered`, `CachedExactly` |
| Messages arriving during connect | `OfflineQueue` | `EveryMessageIsInOnePlace`, `DiscardedIsDropped`, `HandlersActOnWhatTheySaw`, `NobodyStrandedExactly`, `ParkedMessagesReplayInOrder`, `QueueInArrivalOrderExactly`, `EveryEventReachesItsHandler` |
| Markdown to message styling (XEP-0393) | `StylingWriter`, `StyledDocuments`, `StylingMachine` | `FlagsNeverLie`, `WriterRendersDocument`, `StackFollowsOpenTags`, `ItemsAreNumbered`, `ParagraphsAreQuoted` |
| vCard4 codec (XEP-0292) | `VCard4`, `VCardContents` | `RoundTrip`, `ParseByName`, `UnknownChildrenDoNotMatter` |

`Basics` and `Decimals` hold what several of these share.

How the models are built. A lock-protected section or a repository call is one step of a
state machine; a run is any sequence of steps, and results about runs hold for every
sequence. Code that updates fields or loops is a class or a method, proved against
functions on values; the lemmas are about those functions. The pending list and its
operations are generic in the handle of a request state, so the same functions specify
the objects of `RequestClient` and the runs of `RequestRuns`. Clocks, server answers,
refusals of the connection and scheduling are parameters or steps.

What the proofs say about the code that a reader might not expect:

- Two-sided composite ranges select the same rows in SQLite and IndexedDB only if their
  ends differ in the last column alone; one-sided composite ranges only next to the least
  key; `StoreAgreement.Portable` is the exact condition, and `DriversAgreeExactly` proves
  both directions.
- A range with equal ends of which one is excluded should be empty. SQLite turns it into
  an equality (or, with both ends excluded, an inequality) test; IndexedDB refuses it.
- A room that sends its subject before the presence of the joining occupant makes
  the polling of the join panic (`EarlySubjectPanics`); nothing else does (`PollPanicsExactly`).
- An archive query and a message sent to a room can both claim one archived message; who
  gets it depends on the order of the list (`DisjointExactly`, `OrderIrrelevantExactly`), and
  a query can succeed without it (`ContestedMessageIsLost`, `OutputExactlyIfUnrobbed`).
- A wall clock that goes back makes ticks panic, and such a tick loses wake-ups
  (`PanickingTickLosesWakeup`, `ClientPanicsExactly`, `NoLostWakeup`).
- An unblock push that is handled before the block list is loaded leaves an empty list
  behind (`EarlyUnblockLosesTheList`); `BlindPushConvergesExactly` says when that heals.
- An answer to a load that is stored after a later push has been handled forgets that push
  (`LateStoreForgetsPush`, `StoringConvergesExactly`).
- A schema change that is rolled back stays in the in-memory description
  (`RollBackStaysInStepExactly`).
- A message handler that read the connection state before the connection stood, and goes
  on after the drain, strands its message until the next `connect` drops it
  (`InterruptedHandlerStrandsMessage`, `InterruptedReplayStrandsMessage`,
  `NobodyStrandedExactly`).
- A contact and a group chat with one bare JID make the coalescer's comparator
  intransitive (`SharedJidBreaksComparator`); without such a pair coalescing is exact.
- Timestamp keys keep their order up to year 9999 and no further.
- An index on a column `a_b` and one on the columns `a` and `b` of one table have one name, and
  the second cannot be created; so have indexes of a table `t` and of a table `t_a`
  (`UnderscoreMakesOneName`, `SecondIndexExactly`, `IndexBlocksOtherTable`).

## Model

| member | source | states |
|---|---|---|
| `Requests.ReduceRespectsClaims` | crates/prose-xmpp/src/util/request_future.rs:48-70 | Each of the four reducers (IQ, archive query, joining a room, message to a room) hands back, with its state untouched, exactly the elements that are not its own; only an element that decides the request ends it, in its favour exactly if it is the answer, otherwise with the error it stands for |
| `Requests.DisjointExactly` | crates/prose-xmpp/src/mods/muc/send_muc_message_future.rs:26-41 | Two requests can never compete for an element if and only if they are disjoint: different ids and query ids, different rooms or message ids; an archive query and a message to a room always can |
| `Requests.JoinCollects` | crates/prose-xmpp/src/mods/muc/join_room_future.rs:42-114 | After any traffic a join holds the presences of the other occupants and the live messages of its room, in order, and its latest own presence |
| `Requests.TransformedAsExpected` | crates/prose-xmpp/src/mods/muc/join_room_future.rs:115-128 | For every request, traffic and fulfilling element, reducer and transformer yield the answer defined over the traffic, or panic exactly if there is none |
| `PendingRequests.VisitFromFindsFirstClaim` | crates/prose-xmpp/src/client/client.rs:175-204 | The index loop gives the element to the first request that claims it, and to nobody if none does |
| `PendingRequests.VisitOutcome` | crates/prose-xmpp/src/client/client.rs:175-204 | A visit of a sound list never panics, changes at most the claiming request, and leaves the element over, unchanged, exactly if nobody claims it |
| `PendingRequests.VisitKeepsSound` | crates/prose-xmpp/src/client/client.rs:175-204 | After a visit every request still listed is unresolved and holds its value |
| `PendingRequests.VisitOnlyRemoves` | crates/prose-xmpp/src/client/client.rs:175-204 | A visit adds no entry and keeps the table of requests |
| `PendingRequests.ClaimantTakesStanza` | crates/prose-xmpp/src/client/client.rs:175-204 | If only one listed request claims a stanza, it gets it, wherever it stands in the list |
| `PendingRequests.StanzaIsClaimedOnceOrPassedOn` | crates/prose-xmpp/src/client/client.rs:154-204 | If at most one request claims a stanza, it is taken by that one, all others keeping their state, or is passed on unchanged |
| `PendingRequests.VisitIgnoresOrder` | crates/prose-xmpp/src/client/client.rs:175-204 | The outcome of a visit is then the same for every permutation of the pending list |
| `PendingRequests.OrderIrrelevantExactly` | crates/prose-xmpp/src/client/client.rs:175-204 | Who takes a stanza is the same for every order of the list if and only if at most one listed request claims it |
| `PendingRequests.VisitKeepsReadable` | crates/prose-xmpp/src/util/request_future.rs:122-145 | A resolved request has no waker left, and its answer can be read unless it is a join without self-presence |
| `RequestPurge.RetainIsExactly` | crates/prose-xmpp/src/client/module_context.rs:100-106 | Retracting a request removes exactly its entry |
| `RequestPurge.YoungIsExactly` | crates/prose-xmpp/src/client/client.rs:206-228 | The entries kept by a purge are exactly those younger than 15 s |
| `RequestPurge.YoungKeepsOrder` | crates/prose-xmpp/src/client/client.rs:206-228 | Entries that survive a purge keep their relative order |
| `RequestPurge.WakersAreExactly` | crates/prose-xmpp/src/client/client.rs:206-241 | The wakers used are exactly those stored with the requests that fail |
| `RequestPurge.PurgeSplits` | crates/prose-xmpp/src/client/client.rs:206-228 | A purge splits the requests into kept ones and timed out ones |
| `RequestPurge.PurgeLeavesSound` | crates/prose-xmpp/src/client/client.rs:206-228 | After a purge, also one that panicked half-way, every request still listed is unresolved and holds its value |
| `RequestPurge.PurgeDivides` | crates/prose-xmpp/src/client/client.rs:206-228 | Such a purge times out or keeps every request, and none both |
| `RequestPurge.PurgeAmountsTo` | crates/prose-xmpp/src/client/client.rs:213-222 | Working entry by entry until an entry stamped in the future keeps the young ones before it and all from it on, and fails exactly the rest |
| `RequestPurge.PurgeFoldIsPurge` | crates/prose-xmpp/src/client/client.rs:206-228 | Working entry by entry keeps the young part of the list in its order, fails exactly the rest and collects exactly their wakers |
| `RequestRuns.SendIsSafe` | crates/prose-xmpp/src/client/module_context.rs:87-109 | Queueing a request keeps the run invariant |
| `RequestRuns.SendFailedIsSafe` | crates/prose-xmpp/src/client/module_context.rs:100-106 | Taking a refused request back out and returning a failed future keeps it, whatever happened to the list since |
| `RequestRuns.StanzaIsSafe` | crates/prose-xmpp/src/client/client.rs:154-204 | Receiving a stanza keeps it |
| `RequestRuns.TickIsSafe` | crates/prose-xmpp/src/client/client.rs:206-228 | A tick keeps it, also one that panics half-way |
| `RequestRuns.DisconnectIsSafe` | crates/prose-xmpp/src/client/client.rs:230-234 | Taking the whole list keeps it |
| `RequestRuns.CancelIsSafe` | crates/prose-xmpp/src/client/client.rs:236-240 | Failing one of the requests taken keeps it, whatever happens in between |
| `RequestRuns.PollIsSafe` | crates/prose-xmpp/src/util/request_future.rs:159-183 | Polling keeps it |
| `RequestRuns.EveryRunIsSafe` | crates/prose-xmpp/src/util/request_future.rs:121-183 | In every run each request still to be answered is unresolved and holds its value, no "already fulfilled" panic is reached, no element is swallowed by a resolved request, and every request hands out at most one outcome, also after ticks that panicked |
| `RequestRuns.NoLostWakeup` | crates/prose-xmpp/src/util/request_future.rs:162-168 | In every run: if a poll found a request unresolved, nobody polled it since and it is resolved now, then the later step that resolved it woke the polling task, unless that step is a tick that panicked |
| `RequestRuns.WakesExactly` | crates/prose-xmpp/src/client/client.rs:191-241 | A step that does not panic wakes exactly the tasks that sleep on a request it resolves |
| `RequestRuns.PanickingTickLosesWakeup` | crates/prose-xmpp/src/client/client.rs:209-227 | A run with a clock that goes back in which a request is timed out and its task is never woken |
| `RequestRuns.NextLeavesRetiredAlone` | crates/prose-xmpp/src/client/client.rs:175-241 | No step but its own poll changes a request that has left the list |
| `RequestRuns.RetiredForever` | crates/prose-xmpp/src/client/client.rs:175-241 | A request that has left the list never comes back, in any continuation of the run, and gets no second outcome |
| `RequestRuns.EveryOutcomeIsCaused` | crates/prose-xmpp/src/util/request_future.rs:121-157 | Every outcome a request has in any run was given to it by a step that was right to: the element that decides it, a tick that found its stamp 15 s old, a disconnect that took it, a refusal to send it; `RequestHistory` restates this by the steps of the run alone |
| `RequestRuns.EveryOutputIsCaused` | crates/prose-xmpp/src/util/request_future.rs:159-183 | So was every success, error or panic a task has been given; by the steps alone, `RequestHistory.EveryOutputIsJustified` |
| `RequestRuns.TickIsExact` | crates/prose-xmpp/src/client/client.rs:206-228 | A tick in any run times out exactly the requests with a stamp at least 15 s old among those it gets to, and leaves the others as they are; it gets to all if and only if none is stamped in the future; that stamps are the times of the sends is `RequestHistory.ListedIsStamped` |
| `RequestRuns.ClientPanicsExactly` | crates/prose-xmpp/src/client/client.rs:214 | The client gets through a run without a panic if and only if no tick finds the clock behind the stamp of a listed request |
| `RequestRuns.SteadyClockNeverPanics` | crates/prose-xmpp/src/client/client.rs:209-214 | With a clock that never goes back that is every run |
| `RequestRuns.DisconnectIsExact` | crates/prose-xmpp/src/client/client.rs:230-234 | A disconnect in any run empties the list at once and takes over exactly the requests on it |
| `RequestRuns.CancelIsExact` | crates/prose-xmpp/src/client/client.rs:236-240 | Cancelling fails one of these, unresolved until then, as disconnected and touches no other |
| `RequestRuns.NextIsTimely` | crates/prose-xmpp/src/client/client.rs:206-228 | Every step keeps the bound on the age of pending requests |
| `RequestRuns.NoRequestOutlivesItsTimeout` | crates/prose-xmpp/src/connector/xmpp_rs.rs:153-166 | With a clock that never goes back and a tick at least every 2 s no reachable state holds a request that is 17 s old |
| `RequestHistory.RunFollowsSteps` | crates/prose-xmpp/src/client/client.rs:154-228 | In every run the clock, the elements received and the time of the last tick that got through the list are those of the steps |
| `RequestHistory.SentOnce` | crates/prose-xmpp/src/client/module_context.rs:92-98 | No two steps of a run send the same request |
| `RequestHistory.ListedIsStamped` | crates/prose-xmpp/src/client/module_context.rs:94-98 | In every run a listed request was sent by one of the steps, and its stamp is what the clock was set to then |
| `RequestHistory.AwaitedWasSent` | crates/prose-xmpp/src/client/module_context.rs:87-109 | In every run a request still to be answered asks for what was sent under it |
| `RequestHistory.SentIsRecorded` | crates/prose-xmpp/src/client/module_context.rs:87-109 | In every run the record of a request names what was sent and how much traffic had come before |
| `RequestHistory.CancelledWasTakenOff` | crates/prose-xmpp/src/client/client.rs:230-241 | In every run a request about to be cancelled was taken off the list by a disconnect of that run |
| `RequestHistory.CauseIsJustified` | crates/prose-xmpp/src/client/client.rs:154-241 | A step that gives a request an outcome after the steps before it is the element that decides what was sent, a tick at least 15,000 ms after the send by the clock, the end of a disconnect that took it, or the refusal to send it |
| `RequestHistory.EveryOutcomeIsJustified` | crates/prose-xmpp/src/util/request_future.rs:121-157 | Every outcome a request has in any run goes back to such a step |
| `RequestHistory.EveryOutputIsJustified` | crates/prose-xmpp/src/util/request_future.rs:159-183 | Every success, error or panic a task has been given in any run does |
| `RequestHistory.AgeIsByStamp` | crates/prose-xmpp/src/client/module_context.rs:97 | The time since the send, by the clock, is the age the purge measures |
| `RequestHistory.TickGoesByAge` | crates/prose-xmpp/src/client/client.rs:206-228 | In any run a tick that finds no stamp in the future times out exactly the listed requests sent at least 15,000 ms ago, and leaves every other as it is |
| `RequestHistory.NobodyWaitsTooLong` | crates/prose-xmpp/src/connector/xmpp_rs.rs:153-166 | With a steady clock and a tick at least every 2 s no request is listed 17,000 ms after it was sent |
| `RequestHistory.BoundIsSharp` | crates/prose-xmpp/src/connector/xmpp_rs.rs:153-166 | There is such a run in which a request is listed 16,999 ms after it was sent |
| `RequestHistory.PollIsExact` | crates/prose-xmpp/src/util/request_future.rs:159-183 | In any run a poll hands out the outcome the request has and takes it away, or leaves the task sleeping on it |
| `RequestHistory.RefusalIsExact` | crates/prose-xmpp/src/client/module_context.rs:100-106 | In any run a refused send takes that request off the list and no other, changes no state, and returns a future that has failed with the refusal |
| `RequestAnswers.TrafficIsConserved` | crates/prose-xmpp/src/client/client.rs:154-173 | In every run the modules receive, unchanged and in order, exactly the elements no request took; every taken element was waited for by its taker, came after the send, and nothing is taken after the decision |
| `RequestAnswers.EveryOutputIsDue` | crates/prose-xmpp/src/util/request_future.rs:159-183 | In every run a task whose request succeeded is given what the elements its request took amount to |
| `RequestAnswers.PollPanicsExactly` | crates/prose-xmpp/src/mods/muc/join_room_future.rs:115-122 | In every run polling a request panics if and only if it is a join that succeeded without having taken a presence of its own occupant |
| `RequestAnswers.RunPanicsExactly` | crates/prose-xmpp/src/mods/muc/join_room_future.rs:101-122 | A run is free of panics altogether if and only if no step polls such a join |
| `RequestAnswers.EarlySubjectPanics` | crates/prose-xmpp/src/mods/muc/join_room_future.rs:101-122 | The run join, subject, poll panics for every room |
| `RequestAnswers.OutputExactlyIfUnrobbed` | crates/prose-xmpp/src/mods/mam.rs:65-129 | In every run, for every success of an IQ request, archive query or room message: it yields exactly what arrived for it (the payload of the first result bearing its id; the archived messages bearing its query id between its send and its `fin`, in arrival order; the reflection) if and only if no other request took an element it claims |
| `RequestAnswers.JoinOutputExactly` | crates/prose-xmpp/src/mods/muc/join_room_future.rs:42-128 | In every run, for every success of a join: it yields its room's presences and messages up to the subject if and only if nothing that decides it went elsewhere, it took the latest presence of its own occupant or an equal one, and, if there was one, all other presences and messages |
| `RequestAnswers.UnrobbedOutputsAreExact` | crates/prose-xmpp/src/client/client.rs:175-204 | In every run a success whose request was not robbed is the right answer, whatever happened to the other requests |
| `RequestAnswers.ContestedMessageIsLost` | crates/prose-xmpp/src/mods/muc/send_muc_message_future.rs:30-40 | A run in which a room message takes an archived message, and the archive query succeeds without it |
| `RequestAnswers.ClearRunsAnswerRightly` | crates/prose-xmpp/src/client/client.rs:175-204 | If no element that arrives is claimed by two listed requests, every success of the run is the right answer |
| `RequestAnswers.FreshRunIsClear` | crates/prose-xmpp/src/client/module_context.rs:87-109 | That is so in every run whose requests are disjoint from those listed when they are sent |
| `RequestClient.RequestFuture.constructor` | crates/prose-xmpp/src/util/request_future.rs:77-96 | A new request is pending with its initial value |
| `RequestClient.RequestFuture.Failed` | crates/prose-xmpp/src/util/request_future.rs:98-109 | A failed future is resolved from the start |
| `RequestClient.RequestFuture.Handle` | crates/prose-xmpp/src/util/request_future.rs:122-145 | Offering an element updates the shared state and takes the waker as the value-level function says |
| `RequestClient.RequestFuture.Fail` | crates/prose-xmpp/src/util/request_future.rs:147-156 | Failing stores the error and hands out the waker |
| `RequestClient.RequestFuture.Poll` | crates/prose-xmpp/src/util/request_future.rs:162-182 | Polling stores the waker, or takes the outcome and transforms the value, once, with the panics of that |
| `RequestClient.Client.VisitLoop` | crates/prose-xmpp/src/client/client.rs:175-204 | The loop over the shared list changes list, states, element and waker as the visit says |
| `RequestClient.Client.VisitFutures` | crates/prose-xmpp/src/client/client.rs:175-204 | The same from a valid client, without panic, keeping it valid |
| `RequestClient.Client.PurgeLoop` | crates/prose-xmpp/src/client/client.rs:213-222 | The index loop that removes in place does one purge step per entry and panics at the first one stamped in the future |
| `RequestClient.Client.PurgeExpired` | crates/prose-xmpp/src/client/client.rs:206-228 | Afterwards the list is what a purge leaves and the overdue requests have failed; exactly their wakers are used, or none after a panic |
| `RequestClient.Client.CancelPending` | crates/prose-xmpp/src/client/client.rs:230-241 | Afterwards the list is empty, all its requests have failed as disconnected, and their wakers are returned |
| `RequestClient.Client.SendWithFuture` | crates/prose-xmpp/src/client/module_context.rs:87-109 | A sent request is the last entry; a refused one is not in the list, which is what it was before, and its future has failed |
| `RequestClient.Client.RetainOthers` | crates/prose-xmpp/src/client/module_context.rs:101-104 | The retain loop removes the entry with that id, wherever it stands, and keeps all others in order and the client valid |
| `RequestClient.Client.PollRequest` | crates/prose-xmpp/src/util/request_future.rs:162-182 | Polling a request of a valid client keeps it valid and panics exactly on a join that succeeded without self-presence |
| `EventFolding.SortIsStable` | crates/prose-core-client/src/util/coalesce_client_events.rs:12 | Sorting orders by class and leaves each class in arrival order |
| `EventFolding.StableSortIsUnique` | crates/prose-core-client/src/util/coalesce_client_events.rs:12 | Any two stable sorts of a list are equal, so the library's choice of algorithm does not matter |
| `EventFolding.FoldCoalesces` | crates/prose-core-client/src/util/coalesce_client_events.rs:14-54 | Folding neighbours of a sorted list leaves one summary per class |
| `EventFolding.CoalescedIsUnique` | crates/prose-core-client/src/util/coalesce_client_events.rs:11-55 | The specification of the coalesced list has one solution |
| `EventFolding.CoalescingIsIncremental` | crates/prose-core-client/src/util/coalesce_client_events.rs:11-55 | Summarising a prefix first does not change the result |
| `Coalescer.ComparatorFollowsClasses` | crates/prose-core-client/src/util/coalesce_client_events.rs:109-158 | The comparator is the lexicographic order of kind, room and room event kind |
| `Coalescer.MergeFollowsClasses` | crates/prose-core-client/src/util/coalesce_client_events.rs:14-107 | Two events merge exactly if they are of one class; the earlier one keeps its fields and gets the ids of both, in order |
| `Coalescer.CoalesceClientEvents` | crates/prose-core-client/src/util/coalesce_client_events.rs:11-55 | The sort and the walk compute the coalesced list, with one event per class |
| `Coalescer.CoalesceIsExact` | crates/prose-core-client/src/util/coalesce_client_events.rs:11-158 | One event per class present, strictly increasing; its ids are those of the class in arrival order, its other fields those of the earliest event |
| `Coalescer.DeliveredInOrder` | crates/prose-core-client/src/util/coalesce_client_events.rs:109-158 | After coalescing, connection status comes before sidebar, contacts, contact list, subscription requests, block list, avatars, account info and rooms, in this order; rooms by JID; and of one room appended messages before updated, deleted, reload, attributes, participants and composing users; no two events of one kind and room are left |
| `Coalescer.ExactExactlyForDistinctJids` | crates/prose-core-client/src/util/coalesce_client_events.rs:109-132 | Coalescing is exact on all event lists over a set of rooms if and only if no two of them share a bare JID |
| `Coalescer.CoalescingIsIncremental` | crates/prose-core-client/src/util/coalesce_client_events.rs:11-132 | Coalescing a coalesced prefix followed by the rest equals coalescing the whole, for every split |
| `Coalescer.CoalescingIsIdempotent` | crates/prose-core-client/src/util/coalesce_client_events.rs:11-132 | Coalescing twice changes nothing |
| `Coalescer.SharedJidDefeatsCoalescing` | crates/prose-core-client/src/util/coalesce_client_events.rs:109-132 | For any two rooms sharing a bare JID there is a list in which two events of one class survive |
| `Coalescer.SharedJidBreaksComparator` | crates/prose-core-client/src/util/coalesce_client_events.rs:109-132 | ... and make the comparator intransitive |
| `StoreQueries.ClauseAdmits` | crates/prose-store/src/driver/sqlite.rs:1109-1177 | A column clause has one parameter per placeholder and holds exactly of the keys its two bounds admit |
| `StoreQueries.ClauseMeansInterval` | crates/prose-store/src/driver/sqlite.rs:1109-1177 | The clause is the mathematical interval if and only if its ends are not one key with an excluded side |
| `StoreQueries.CompileRange` | crates/prose-store/src/driver/sqlite.rs:1075-1089 | The fold over columns builds predicates and parameters side by side |
| `StoreQueries.RangeClausesAdmit` | crates/prose-store/src/driver/sqlite.rs:993-1089 | Bound left to right, the joined clauses enforce each column's own bounds and nothing else |
| `StoreQueries.OnlyClausesAdmit` | crates/prose-store/src/driver/sqlite.rs:1090-1106 | A single-key query holds exactly of rows with that key |
| `StoreQueries.CompiledPredicateIsExact` | crates/prose-store/src/driver/sqlite.rs:993-1177 | Every query on matching columns compiles, with as many placeholders as parameters, to a predicate that accepts a row exactly if each column meets the query |
| `StoreQueries.OnlyConstrainsPrefix` | crates/prose-store/src/driver/sqlite.rs:1090-1106 | A single key of any length compiles, and constrains exactly the columns it has values for |
| `StoreQueries.RefusedExactly` | crates/prose-store/src/driver/sqlite.rs:1061-1073 | A query is refused exactly if it is a range whose ends do not match the columns, unless it has no ends at all |
| `StoreKeys.TextOrderByFirstDifference` | crates/prose-store/src/lib.rs:289-294 | Text keys compare by their first differing character, a prefix being smaller |
| `StoreAgreement.KeyRangeIsLexInterval` | crates/prose-store/src/driver/indexed_db.rs:528-664 | The key range of a query is the lexicographic interval of its key arrays; it is refused exactly if the ends are in the wrong order or equal with one excluded |
| `StoreAgreement.LastColumnRangesAgree` | crates/prose-store/src/driver/indexed_db.rs:528-664 | Ranges that vary in the last column select the same rows in both drivers |
| `StoreAgreement.EarlyRangesDisagree` | crates/prose-store/src/driver/sqlite.rs:993-1107 | Ranges whose ends part before the last column never do |
| `StoreAgreement.OpenRangesAgreeOnlyWhenEmpty` | crates/prose-store/src/driver/sqlite.rs:1109-1177 | Composite ranges with both ends excluded agree only if nothing lies between the ends |
| `StoreAgreement.TwoSidedExact` | crates/prose-store/src/driver/indexed_db.rs:528-664 | The exact condition for two-sided ranges |
| `StoreAgreement.FromOnwardsExact` | crates/prose-store/src/driver/indexed_db.rs:528-664 | The exact condition for ranges from a key onwards |
| `StoreAgreement.AfterExact` | crates/prose-store/src/driver/indexed_db.rs:528-664 | The exact condition for ranges after a key |
| `StoreAgreement.UpToExact` | crates/prose-store/src/driver/indexed_db.rs:528-664 | The exact condition for ranges up to a key |
| `StoreAgreement.BeforeExact` | crates/prose-store/src/driver/indexed_db.rs:528-664 | The exact condition for ranges before a key |
| `StoreAgreement.DriversAgreeExactly` | crates/prose-store/src/driver/indexed_db.rs:528-704 | Both drivers accept a query and select the same keys if and only if it is portable |
| `StoreAgreement.BackwardsRangeIsEmptyInSql` | crates/prose-store/src/driver/sqlite.rs:1109-1177 | A range IndexedDB refuses for the order of its ends selects nothing in SQLite |
| `StoreReads.FoldRows` | crates/prose-store/src/driver/sqlite.rs:712-741 | The loop that breaks when the closure says stop returns the first `limit` filtered results |
| `StoreReads.FoldIntoVec` | crates/prose-store/src/driver/sqlite.rs:679-710 | With and without the limit in the query, and equal to limiting afterwards if nothing is filtered |
| `StoreReads.FoldCursor` | crates/prose-store/src/driver/indexed_db.rs:306-402 | The cursor loop returns the same first `limit` filtered results |
| `StoreReads.LimitPushdownIsExact` | crates/prose-store/src/driver/sqlite.rs:679-710 | Limiting in the database equals limiting after filtering if and only if the filter keeps all of the first `limit` rows or nothing behind them |
| `StoreReads.DeleteRemovesTheMeant` | crates/prose-store/src/driver/sqlite.rs:821-844 | A DELETE with the compiled predicate and its parameters removes exactly the rows the query means, column by column |
| `StoreReads.GetAllInIndex` | crates/prose-store/src/driver/sqlite.rs:631-645 | An unlimited read with the same query returns every selected row once per result row; its keys are exactly those the DELETE removes |
| `StoreReads.DeletionsAgree` | crates/prose-store/src/driver/indexed_db.rs:469-496 | For portable queries a deletion leaves the same rows in both drivers |
| `StoreReads.ReadsAgree` | crates/prose-store/src/driver/sqlite.rs:977-984 | Over a unique index both drivers go through the rows of a portable query in one and the same sequence, in either direction |
| `StoreReads.DeleteByCursor` | crates/prose-store/src/driver/indexed_db.rs:469-496 | Deleting what the cursor yields leaves exactly the rows outside the key range |
| `DateKeys.FixedWidthIsMonotone` | crates/prose-store/src/lib.rs:391-410 | Fixed-width decimals compare as text like the numbers they stand for |
| `Decimals.DecimalRoundTrip` | crates/prose-markup/src/styling_writer.rs:139-140 | A number is written with digits only, without leading zeros, and can be read back |
| `DateKeys.PaddedIsFixedWidth` | crates/prose-store/src/lib.rs:399-407 | Zero padding yields exactly the fixed-width decimal as long as the number fits |
| `DateKeys.FieldsFollowTime` | crates/prose-store/src/lib.rs:399-407 | Year, month, day, hour, minute and second of valid timestamps compare like seconds since year 0, month lengths and leap years included |
| `DateKeys.TimestampKeysKeepOrder` | crates/prose-store/src/lib.rs:391-410 | For years 0 to 9999 text order of keys is the order of the instants, in nanoseconds since year 0, truncated to seconds; keys are equal exactly within a second |
| `DateKeys.DateKeysKeepOrder` | crates/prose-store/src/lib.rs:412-416 | Date keys sort like day numbers |
| `DateKeys.DateKeyReadsBack` | crates/prose-store/src/lib.rs:412-416 | A date key is a year of four digits or more, a hyphen, two digits, a hyphen, two digits, and reads back to its date; it has ten characters exactly up to year 9999 |
| `DateKeys.TimestampKeyReadsBack` | crates/prose-store/src/lib.rs:399-408 | A timestamp key is a date, `T`, two digits each for hour, minute and second with colons between, and `Z`, and reads back to its fields in every year; it has twenty characters exactly up to year 9999 |
| `DateKeys.YearsInClosedForm` | crates/prose-store/src/lib.rs:399-407 | The calendar behind these orders: the days before a year are 365 per year, plus a leap day every four years, less one every hundred, plus one every four hundred |
| `DateKeys.MonthsInClosedForm` | crates/prose-store/src/lib.rs:399-407 | The days before a month are those of the usual table, plus one after February of a leap year |
| `DateKeys.FiveDigitYearsSortTooLow` | crates/prose-store/src/lib.rs:391-410 | Every instant of the years 10000 to 19999 sorts before all of the years 2000 to 9999 |
| `DateKeys.OrderKeptExactlyTo9999` | crates/prose-store/src/lib.rs:391-410 | Keys of all years up to a last one are in order if and only if that is at most 9999 |
| `StoreSchema.IndexNameRoundTrip` | crates/prose-store/src/driver/sqlite.rs:746-765 | An index name starts with `prose_`, ends with `_idx`, and decoding it with its table gives the index back, underscores or not |
| `StoreSchema.IndexNameIsInjective` | crates/prose-store/src/driver/sqlite.rs:746-765 | Different index strings of a table have different names; which columns share a string is `SameNameExactly` |
| `StoreSchema.JoinAppends` | crates/prose-store/src/driver/sqlite.rs:749 | The name of a column list is that of its front, an underscore and that of its rest, wherever it is cut |
| `StoreSchema.SameNameExactly` | crates/prose-store/src/driver/sqlite.rs:746-760 | Two column lists of a table have one index name if and only if, cut at every underscore, they consist of the same pieces in the same order |
| `StoreSchema.PlainColumnsAreTold` | crates/prose-store/src/driver/sqlite.rs:746-760 | Among columns without underscores only equal lists do |
| `StoreSchema.UnderscoreMakesOneName` | crates/prose-store/src/driver/sqlite.rs:746-760 | An index on `a_b` and one on `a` and `b` do, for all names a and b |
| `StoreSchema.SameNameAcrossTables` | crates/prose-store/src/driver/sqlite.rs:746-760 | Any two indexes, of one table or of two, have one name if and only if table and columns, joined and cut at every underscore, consist of the same pieces |
| `StoreSchema.SecondIndexExactly` | crates/prose-store/src/driver/sqlite.rs:746-765 | Of two indexes that could each be added, the second can still be added after the first if and only if their tables and columns do not consist of the same pieces |
| `StoreSchema.IndexBlocksOtherTable` | crates/prose-store/src/driver/sqlite.rs:746-765 | An index on the columns a and b of a table t makes it impossible to index b in the table `t_a` |
| `StoreSchema.CreateSucceedsExactly` | crates/prose-store/src/driver/sqlite.rs:292-319 | With the description in step, a collection can be created if and only if its name is not described, not that of the settings, no index and not reserved |
| `StoreSchema.AddIndexSucceedsExactly` | crates/prose-store/src/driver/sqlite.rs:746-765 | With the description in step, an index can be added if and only if it has columns, its table is described and its name is not taken |
| `StoreSchema.DatabaseDescription.AddTable` | crates/prose-store/src/driver/sqlite.rs:876-881 | Adds an empty entry, or keeps the one there is |
| `StoreSchema.DatabaseDescription.RemoveTable` | crates/prose-store/src/driver/sqlite.rs:883-885 | Removes the entry and its indexes |
| `StoreSchema.DatabaseDescription.AddIndex` | crates/prose-store/src/driver/sqlite.rs:887-893 | Adds the joined column names, as `SameNameExactly` tells them apart, to the table's entry |
| `StoreSchema.CreateKeepsStep` | crates/prose-store/src/driver/sqlite.rs:292-319 | Creating a collection keeps description and schema in step |
| `StoreSchema.DeleteKeepsStep` | crates/prose-store/src/driver/sqlite.rs:321-327 | Deleting one, with its indexes, does |
| `StoreSchema.AddIndexKeepsStep` | crates/prose-store/src/driver/sqlite.rs:746-765 | Adding an index under the name of its columns does |
| `StoreSchema.DescriptionStaysInStep` | crates/prose-store/src/driver/sqlite.rs:854-952 | After every sequence of operations, failed ones included, the in-memory description is what re-reading the schema gives, and never names `__store_settings` |
| `StoreSchema.RollBackStaysInStepExactly` | crates/prose-store/src/driver/sqlite.rs:418-449 | After the roll-back of a transaction that drops no collection, as no read-write transaction can, the description is in step if and only if none of its operations could be carried out when it began |
| `StoreSchema.RolledBackDropIsForgotten` | crates/prose-store/src/driver/sqlite.rs:321-327 | If a collection that was there is gone at the end of a transaction that is rolled back, it is missing in the description |
| `StoreSchema.RolledBackDropMayCancelOut` | crates/prose-store/src/driver/sqlite.rs:292-327 | Creating a collection and dropping it again leaves the description in step |
| `StoreSchema.ReadDescription` | crates/prose-store/src/driver/sqlite.rs:901-951 | The row loop succeeds exactly if every index of ours is named after its table and long enough, and then describes the rows; otherwise it fails, or panics on a name that is too short |
| `StoreSchema.ReadingAgrees` | crates/prose-store/src/driver/sqlite.rs:901-951 | Rows of a well-named schema, in any order, are described by the map used above |
| `Replication.LastPushWins` | crates/prose-core-client/src/infra/contacts/caching_contacts_repository.rs:37-78 | The same pushes on two copies make every touched key equal and leave the others alone |
| `Replication.ConvergesExactlyIfCovered` | crates/prose-core-client/src/infra/contacts/caching_contacts_repository.rs:90-99 | A copy converges if and only if every key it differs in has a push still to come |
| `Replication.NextSettles` | crates/prose-core-client/src/infra/contacts/caching_contacts_repository.rs:32-99 | Pushes in flight never say more than the server already has |
| `Replication.NextConverges` | crates/prose-core-client/src/infra/contacts/caching_contacts_repository.rs:32-99 | Every step that stores no earlier answer keeps convergence unless a removal meets an unloaded cache that it does not load |
| `Replication.BlindPushConvergesExactly` | crates/prose-core-client/src/infra/contacts/caching_block_list_repository.rs:64-70 | Such a step keeps convergence if and only if everything on the server is pushed again |
| `Replication.StoringConvergesExactly` | crates/prose-core-client/src/infra/contacts/caching_contacts_repository.rs:91-99 | Storing an answer, by a read or by the handler of a push that goes on to apply it, keeps convergence if and only if a push in flight covers every key in which the answer differs from the server |
| `Replication.StepConvergesExactly` | crates/prose-core-client/src/infra/contacts/caching_contacts_repository.rs:90-99 | A step keeps convergence if and only if it neither stores such an answer nor removes from an unloaded list something that is not pushed again |
| `Replication.RunConvergesExactly` | crates/prose-core-client/src/infra/contacts/caching_block_list_repository.rs:34-102 | In every run, with loads that are answered and stored at different times, those of push handlers included: a loaded list with the pushes in flight applied equals the server after every prefix if and only if no step does that |
| `Replication.PromptStoreIsNotStale` | crates/prose-core-client/src/infra/contacts/caching_contacts_repository.rs:96-98 | An answer stored before a further push is handled is not late, whatever the server does meanwhile |
| `Replication.AtomicLoadIsAllowed` | crates/prose-core-client/src/infra/contacts/caching_contacts_repository.rs:91-99 | A load that is stored at once may come at any point of a run, and then holds what the server has |
| `Replication.LateStoreForgetsPush` | crates/prose-core-client/src/infra/contacts/caching_contacts_repository.rs:96-98 | A push handled between an answer and its storing is forgotten |
| `Replication.CachedExactly` | crates/prose-core-client/src/infra/contacts/caching_contacts_repository.rs:80-99 | In every run a list is cached if and only if a load, a loading push or a blind removal put one there and neither a reset nor a reconnect has cleared it since |
| `Replication.ReconnectStartsAfresh` | crates/prose-core-client/src/infra/contacts/caching_contacts_repository.rs:80-87 | After a reconnect, in any continuation, everything goes as for a client that starts with nothing loaded and nothing on its way |
| `ContactCaches.CachingContactsRepository.LoadIfNeeded` | crates/prose-core-client/src/infra/contacts/caching_contacts_repository.rs:91-99 | Loads at most once; a failed load leaves the cache unloaded |
| `ContactCaches.CachingContactsRepository.GetAll` | crates/prose-core-client/src/infra/contacts/caching_contacts_repository.rs:32-35 | Returns the cached list, loading it first if there is none |
| `ContactCaches.CachingContactsRepository.Set` | crates/prose-core-client/src/infra/contacts/caching_contacts_repository.rs:37-63 | An edit replaces the subscription of that contact and keeps its name and every other contact in its place; a new contact is appended under the name given; ids stay distinct; the flag is true exactly if the id-to-subscription map changed |
| `ContactCaches.CachingContactsRepository.Delete` | crates/prose-core-client/src/infra/contacts/caching_contacts_repository.rs:65-78 | The contact is removed and the last one moved into its place, all others staying as they are; the flag is true exactly if it was there |
| `ContactCaches.CachingContactsRepository.ClearCache` | crates/prose-core-client/src/infra/contacts/caching_contacts_repository.rs:84-87 | Unloads the list |
| `ContactCaches.SetIn` | crates/prose-core-client/src/infra/contacts/caching_contacts_repository.rs:44-62 | Exactly one key of the map changes; the list keeps every name and every other contact in its place, or grows by the new contact at its end |
| `ContactCaches.DeleteFrom` | crates/prose-core-client/src/infra/contacts/caching_contacts_repository.rs:67-77 | Swap-removing drops exactly the contact with that id: all others are still there, in their places but for the last |
| `ContactCaches.CachingBlockListRepository.LoadIfNeeded` | crates/prose-core-client/src/infra/contacts/caching_block_list_repository.rs:92-102 | Loads at most once; a failed load leaves the cache unloaded |
| `ContactCaches.CachingBlockListRepository.Contains` | crates/prose-core-client/src/infra/contacts/caching_block_list_repository.rs:34-42 | Answers from the cached set, loading it first |
| `ContactCaches.CachingBlockListRepository.Insert` | crates/prose-core-client/src/infra/contacts/caching_block_list_repository.rs:54-62 | A block push loads, then adds; the flag says whether the user is new |
| `ContactCaches.CachingBlockListRepository.Delete` | crates/prose-core-client/src/infra/contacts/caching_block_list_repository.rs:64-70 | An unblock push does not load: an unloaded list becomes empty |
| `ContactCaches.CachingBlockListRepository.DeleteAll` | crates/prose-core-client/src/infra/contacts/caching_block_list_repository.rs:72-79 | Empties a loaded list and leaves an unloaded one alone |
| `ContactCaches.CachingBlockListRepository.ClearCache` | crates/prose-core-client/src/infra/contacts/caching_block_list_repository.rs:85-88 | Unloads the list |
| `ContactCaches.RosterConverges` | crates/prose-core-client/src/infra/contacts/caching_contacts_repository.rs:32-99 | With atomic loads the roster cache converges in every run of changes, loads, pushes, resets and reconnects |
| `ContactCaches.RosterConvergesExactly` | crates/prose-core-client/src/infra/contacts/caching_contacts_repository.rs:32-99 | With loads of any duration, those of push handlers included, it does so if and only if no answer is stored that no push in flight sets right |
| `ContactCaches.LocalWriteConvergesExactly` | crates/prose-core-client/src/domain/contacts/services/impls/contact_list_domain_service.rs:39-62 | The subscription written locally after adding a contact survives if and only if the server has it or a push for that contact is still to come |
| `ContactCaches.EarlyUnblockLosesTheList` | crates/prose-core-client/src/infra/contacts/caching_block_list_repository.rs:64-70 | An unblock push before the load leaves every other blocked user out, in every continuation of the run, until the list is loaded again or that user is pushed again |
| `OfflineQueue.EveryMessageIsInOnePlace` | crates/prose-core-client/src/app/services/connection_service.rs:60-191 | In every run each message received is, exactly once, processed, parked, in a replay, held by a handler, or dropped by a later connect |
| `OfflineQueue.DiscardedIsDropped` | crates/prose-core-client/src/app/services/connection_service.rs:60-66 | What is parked when a connect throws the queue away is dropped in every continuation of the run: never processed, parked, replayed or handled again |
| `OfflineQueue.DroppedWasDiscarded` | crates/prose-core-client/src/app/services/connection_service.rs:60-66 | Nothing else is ever dropped |
| `OfflineQueue.RunFollowsSteps` | crates/prose-core-client/src/app/event_handlers/messages_event_handler.rs:61-80 | In every run the connection state is the one set last and the messages received are those that arrived |
| `OfflineQueue.ProcessingNeedsConnection` | crates/prose-core-client/src/app/event_handlers/messages_event_handler.rs:61-80 | In every run a message is processed only after a handler working on it has seen the state Connected |
| `OfflineQueue.HandlersActOnWhatTheySaw` | crates/prose-core-client/src/app/event_handlers/messages_event_handler.rs:61-80 | In every run a message is processed, or about to be, only if the last handler to look at the state for it saw Connected, and parked, replayable, dropped or about to be parked only if that handler saw something else |
| `OfflineQueue.NobodyStrandedExactly` | crates/prose-core-client/src/app/services/connection_service.rs:180-191 | A run never leaves a message in the queue of a connected client that has drained it if and only if no handler, of a fresh or a replayed message, parks on what it saw before the connection stood |
| `OfflineQueue.QueueInArrivalOrderExactly` | crates/prose-core-client/src/app/event_handlers/messages_event_handler.rs:61-80 | The queue is in arrival order throughout a run if and only if no interrupted handler, of a fresh or a replayed message, parks behind a later one |
| `OfflineQueue.InterruptedHandlerStrandsMessage` | crates/prose-core-client/src/app/event_handlers/messages_event_handler.rs:61-80 | A concrete run that strands a message |
| `OfflineQueue.InterruptedReplayStrandsMessage` | crates/prose-core-client/src/app/services/connection_service.rs:187-191 | A concrete run in which the handler of a replayed message does, across two connections |
| `OfflineQueue.DrainStartsReplay` | crates/prose-core-client/src/app/services/connection_service.rs:180-191 | Draining in any reachable connected state starts a replay of exactly what was parked, none of it processed yet |
| `OfflineQueue.ParkedMessagesReplayInOrder` | crates/prose-core-client/src/app/services/connection_service.rs:180-191 | As long as the state stays Connected, the parked messages are processed in queue order, whatever arrives, goes on, is drained or discarded in between |
| `OfflineQueue.ReplayIsInArrivalOrder` | crates/prose-core-client/src/app/services/connection_service.rs:60-191 | Unless a message was parked out of turn, that is the order of arrival |
| `OfflineQueue.MessageIntake.HandleEvent` | crates/prose-core-client/src/app/event_handlers/messages_event_handler.rs:61-80 | Parks the message unless connected, processes it otherwise |
| `OfflineQueue.MessageIntake.Drain` | crates/prose-core-client/src/infra/messaging/offline_messages_repository.rs:23-31 | Returns the queue and empties it |
| `OfflineQueue.MessageIntake.FinishConnecting` | crates/prose-core-client/src/app/services/connection_service.rs:180-191 | The replay loop processes the whole queue in order and leaves it empty |
| `OfflineQueue.HandleServerEvent` | crates/prose-core-client/src/app/event_handlers/event_handler_queue.rs:49-70 | The loop shows each handler what the one before returned, and stops at the first that swallows the event or fails |
| `OfflineQueue.UninterestedHandlersAreTransparent` | crates/prose-core-client/src/app/event_handlers/event_handler_queue.rs:49-70 | An event the handlers in front pass on unchanged reaches the handler behind them, and nobody after one that stops it |
| `OfflineQueue.EveryEventReachesItsHandler` | crates/prose-core-client/src/client_builder.rs:295-306 | With the handlers the client installs, in their order, every event but the ping timer gets unchanged to the one handler concerned with it and ends there, whichever handlers fail |
| `OfflineQueue.PingReachesEveryHandler` | crates/prose-core-client/src/app/event_handlers/rooms_event_handler.rs:64-69 | The ping timer reaches all ten handlers, or exactly five if the rooms handler fails |
| `StylingWriter.EscapingKeepsEnd` | crates/prose-markup/src/styling_writer.rs:283-301 | Both escapes keep emptiness and a final newline, so flags set from the unescaped text are right |
| `StylingWriter.EscapingIsReversible` | crates/prose-markup/src/styling_writer.rs:283-301 | Both escapes can be undone by reading the entities back |
| `StylingWriter.EscapingLeavesNoMarkup` | crates/prose-markup/src/styling_writer.rs:283-301 | Escaped text contains no angle brackets |
| `StylingWriter.EscapingSparesTheRest` | crates/prose-markup/src/styling_writer.rs:283-301 | Text without `<`, `>` and `&`, and in HTML without either quote, is written as it is |
| `StylingWriter.HtmlHasNoQuotes` | crates/prose-markup/src/styling_writer.rs:283-291 | Escaped HTML contains no quotes |
| `StylingWriter.QuotePrefixShows` | crates/prose-markup/src/styling_writer.rs:182-190 | A quote prefix is one angle bracket per level and a space, and nothing at level zero |
| `StylingWriter.MarkerShows` | crates/prose-markup/src/styling_writer.rs:139-143 | An item marker is all digits, reading back to the number of the item, a dot and a space; or a star and a space |
| `StylingWriter.ItemStartShows` | crates/prose-markup/src/styling_writer.rs:133-143 | An item starts with three spaces per enclosing list followed by such a marker |
| `StylingWriter.StepIsFaithful` | crates/prose-markup/src/styling_writer.rs:60-271 | Each event does to the writer with flags what it does to one that looks at its output |
| `StylingWriter.FlagsNeverLie` | crates/prose-markup/src/styling_writer.rs:274-312 | For every event stream the at-start flag means an empty output and the newline flag an output ending in a newline |
| `StyledDocuments.NodeIsRendered` | crates/prose-markup/src/styling_writer.rs:102-271 | The events of a node, in any context, append its rendering and give list stack and quote level back as they were |
| `StyledDocuments.ListIsRendered` | crates/prose-markup/src/styling_writer.rs:160-166 | A nested list starts on a new line, a top-level one ends with one, and the stack is restored |
| `StyledDocuments.ItemsAreRendered` | crates/prose-markup/src/styling_writer.rs:119-144 | After k items the counter of a list stands at start + k, whatever the items contain, and the next one starts with the marker of that number, which `ItemsAreNumbered` reads back |
| `StyledDocuments.WriterRendersDocument` | crates/prose-markup/src/styling_writer.rs:60-271 | For every document the writer runs through without underflow, writes the text defined by recursion over the tree, and ends with no open quote or list |
| `StyledDocuments.LinkShowsItsAddress` | crates/prose-markup/src/styling_writer.rs:145-227 | A link around anything but links is followed by its own address; a mention only shows its text |
| `StyledDocuments.StackFollowsOpenTags` | crates/prose-markup/src/styling_writer.rs:102-271 | After every prefix of a well-nested stream there was no underflow, the quote level is the number of open quotes, and the stack holds each open list's next number |
| `StyledDocuments.ItemsAreNumbered` | crates/prose-markup/src/styling_writer.rs:119-144 | In any such stream the next item starts on a fresh line with three spaces per enclosing list and digits that read back to start + items so far, a dot and a space; or with a star |
| `StyledDocuments.ParagraphsAreQuoted` | crates/prose-markup/src/styling_writer.rs:179-191 | In any such stream a paragraph starts on a fresh line with one angle bracket per open block quote and a space |
| `StyledDocuments.DocumentsNest` | crates/prose-markup/src/styling_writer.rs:102-271 | The events of every document are such a stream, with nothing left open |
| `StyledDocuments.NoLeadingNewline` | crates/prose-markup/src/styling_writer.rs:304-312 | Unless a text starts with one, no output starts with a newline |
| `StylingMachine.MarkupWriter.constructor` | crates/prose-markup/src/styling_writer.rs:48-58 | The initial state |
| `StylingMachine.MarkupWriter.WriteText` | crates/prose-markup/src/styling_writer.rs:274-281 | Appends and sets the flags |
| `StylingMachine.MarkupWriter.WriteEscaped` | crates/prose-markup/src/styling_writer.rs:283-301 | Appends the escaped text and sets the flags from the unescaped one |
| `StylingMachine.MarkupWriter.BreakLine` | crates/prose-markup/src/styling_writer.rs:304-312 | A newline unless at the start |
| `StylingMachine.MarkupWriter.StartItem` | crates/prose-markup/src/styling_writer.rs:119-144 | Takes the list's number, counts it up, writes line, indent and the marker `MarkerShows` reads back; fails outside a list |
| `StylingMachine.MarkupWriter.Begin` | crates/prose-markup/src/styling_writer.rs:102-199 | Opening a tag updates the object as specified, or underflows exactly where specified |
| `StylingMachine.MarkupWriter.Finish` | crates/prose-markup/src/styling_writer.rs:201-271 | Closing a tag does |
| `StylingMachine.MarkupWriter.TakeAll` | crates/prose-markup/src/styling_writer.rs:60-94 | The event loop succeeds exactly if no event underflows, and leaves the state of the whole run |
| `StylingMachine.StyleDocument` | crates/prose-markup/src/styling_writer.rs:48-94 | A fresh writer run over a document's events returns the rendering of its tree |
| `VCard4.ParseName` | crates/prose-xmpp/src/stanza/vcard4.rs:191-210 | The loop takes the last text of each part, after checking name and namespace |
| `VCard4.ParseAdr` | crates/prose-xmpp/src/stanza/vcard4.rs:234-255 | The loop collects every line under its part |
| `VCard4.ParseProperty` | crates/prose-xmpp/src/stanza/vcard4.rs:128-166 | One child is read as a property, an error, or nothing, as `VCardContents.PassedOverExactly` and `UnreadableExactly` say by its name |
| `VCard4.ParseVCard` | crates/prose-xmpp/src/stanza/vcard4.rs:120-170 | The loop over the children computes the parse, stopping at the first error |
| `VCard4.ParseIsExact` | crates/prose-xmpp/src/stanza/vcard4.rs:120-170 | Parsing succeeds exactly on a vCard4 root with only readable children; each field then holds the values of its own children, complete and in order; otherwise the error is the root's or the first unreadable child's; `VCardContents.ParseByName` says which children these are |
| `VCard4.NameRoundTrip` | crates/prose-xmpp/src/stanza/vcard4.rs:191-232 | A printed name parses back to itself |
| `VCard4.AdrRoundTrip` | crates/prose-xmpp/src/stanza/vcard4.rs:234-269 | A printed address parses back to itself |
| `VCard4.PropertyRoundTrip` | crates/prose-xmpp/src/stanza/vcard4.rs:289-334 | Every printed property parses back to itself, under its own field |
| `VCard4.TelephoneIsRead` | crates/prose-xmpp/src/stanza/vcard4.rs:153-157 | A number given as a `tel:` address is read like the same number given as text |
| `VCard4.RoundTripInOrder` | crates/prose-xmpp/src/stanza/vcard4.rs:172-189 | In whatever order the fields are printed, the card parses back to itself |
| `VCard4.RoundTrip` | crates/prose-xmpp/src/stanza/vcard4.rs:120-334 | Every card parses back from its printed form |
| `VCard4.ParsePrintParse` | crates/prose-xmpp/src/stanza/vcard4.rs:120-189 | Parsing, printing and parsing again gives what the first parse gave |
| `VCard4.ParseSeesTrimmed` | crates/prose-xmpp/src/stanza/vcard4.rs:120-305 | A parse depends only on the children with known names (twelve in the root, three in a name, seven in an address, text and uri elsewhere) and on the texts below them, errors included |
| `VCard4.UnknownChildrenDoNotMatter` | crates/prose-xmpp/src/stanza/vcard4.rs:120-305 | Inserting a child with none of these names anywhere under the root never changes the result |
| `VCardContents.PassedOverExactly` | crates/prose-xmpp/src/stanza/vcard4.rs:128-166 | A child of the root is passed over if and only if its name is none of fn, n, nickname, email, adr, impp, note, url, title, tel, org and role |
| `VCardContents.ChildValueIsFirst` | crates/prose-xmpp/src/stanza/vcard4.rs:289-305 | The text or uri of an element is the text of its first child of that name in the vCard namespace, and missing exactly if there is none |
| `VCardContents.NameIsSpelled` | crates/prose-xmpp/src/stanza/vcard4.rs:191-210 | Each part of a name is the text of the last child with that name, or absent if there is none |
| `VCardContents.AdrIsLocated` | crates/prose-xmpp/src/stanza/vcard4.rs:234-255 | Each part of an address is the texts of all children with that name, in order |
| `VCardContents.TelIsDialled` | crates/prose-xmpp/src/stanza/vcard4.rs:153-157 | A telephone number is its text if it has one, otherwise its address without the scheme |
| `VCardContents.UnreadableExactly` | crates/prose-xmpp/src/stanza/vcard4.rs:128-166 | A child fails, and with which error, exactly if it is a name in another namespace, or lacks the text or uri its name calls for; a telephone number only if it lacks both |
| `VCardContents.ParseByName` | crates/prose-xmpp/src/stanza/vcard4.rs:120-170 | For every tree, in the names of its elements alone: the error of the root or of the first child that lacks something, or a card whose every field holds, one each and in order, what the children of that name say |
| `VCardContents.PrintedIsTidy` | crates/prose-xmpp/src/stanza/vcard4.rs:172-334 | Everything printed is in the vCard namespace and is looked at by the parser; nothing is printed that it would pass over |
| `VCardContents.TelephoneIsPrintedAsText` | crates/prose-xmpp/src/stanza/vcard4.rs:185 | Every telephone number is printed as a text |

## Left out

- Async scheduling, locks and wakers: a locked section is one step, a waker an opaque number; what the executor does with it is not modelled.
- Connectors and timers: only the 2 s tick and a steady clock are used, as an assumption on runs (`RequestRuns.Punctual`). A panic ends the handling of one event or one polling task; where panics abort the program, runs end there.
- Parsing of stanzas into elements, and which modules exist: XML no reducer looks into is opaque, delivery to the modules is one list.
- Random entry ids are counters, request and query ids are given; what their being distinct comes to is `FreshRunIsClear` with `DisjointExactly`.
- Writing to the connection: a refusal is a parameter of `SendWithFuture`.
- The remaining modules of `prose-xmpp`: they build stanzas and send them with the four kinds of requests modelled here.
- SQL text, quoting and SQLite itself: a compiled query is a list of predicates with placeholders bound from left to right; table names are compared exactly, where SQLite ignores case.
- Floating point keys, NULL columns and missing index columns: keys are integers and texts.
- Text order: characters are compared by code point in both drivers; IndexedDB compares UTF-16 units, which differs outside the basic plane.
- `IDBKeyRange.bound` rejecting ends in the wrong order is the browser's documented behaviour, taken as given.
- `StoreSchema.DescriptionStaysInStep`: assumes that the settings table is neither dropped nor indexed; roll-backs are the subject of `RollBackStaysInStepExactly`.
- Negative years are not encoded by the model of date keys.
- `StoreReads.FoldRows`: starts after the check for a limit of zero, which `FoldIntoVec` makes.
- The sort used by the coalescer is an insertion sort; any stable sort gives the same list (`StableSortIsUnique`). The vector is rebuilt, not edited in place.
- `Coalescer.CoalesceIsExact`: assumes that no two rooms share a bare JID; `ExactExactlyForDistinctJids` shows that this is the exact condition.
- A push handler's load may be answered any time before, but storing the answer and applying the push are one step; pushes are handled in order.
- `CachingBlockListRepository.get_all`, account ids; how a name is made from a user id is a parameter of `Set`.
- Local writes after removing a contact or blocking a user: like `LocalWriteConvergesExactly`.
- Effects of processing a message or any other event; whether a handler fails is an arbitrary function.
- The sequential code of `MessageIntake` and `RequestClient` is proved against the functions the steps of the runs are made of; that its interleavings are the runs is the reading of locks given above, not a theorem.
- The Markdown parser: documents are trees whose events are well nested. List numbers are unbounded, where the code uses 64 bits. Which texts are bare JIDs is part of the event.
- Attributes of XML elements, which the vCard4 codec does not use; the older vCard format (`stanza/vcard.rs`).
- Bindings, command line examples, store migrations, form and bookmark helpers.
