# Message bus: task queue, events, stores, sessions, registry, flows

A Dafny model of the in-memory core of an agent message bus, with proofs. `dafny verify dfyconfig.toml`
checks all of it.

The project follows the program's components. Where the program updates objects in place, there is a class with
the same fields, each of whose methods is tied to a function on values; what the program promises is proved about
those functions, for every run of steps. A step is one section of code that runs without interruption (a locked
section, or a stretch without an await), at one reading of a clock that never goes back.

- `Ports`, `PriorityHeap`, `QueueSpec`, `TaskQueue`: task records, a binary heap, the abstract queue and the queue
  object. The heap is a multiset in the abstract state and a heap-ordered list in the object.
- `QueueInvariants`, `QueueClaims`, `QueueSystem`, `QueueHistory`, `QueueTheorems`, `QueueProgress`: what all
  structures of the queue agree on; what one search claims and leaves; any number of workers, producers,
  cancellations and sweeps as a state machine; and what holds in every reachable state: ownership, finality, claim
  counts, backoff, progress, sizes.
- `QueueEffects`: what each operation of the queue does, said on the fields alone.
- `Worker`: one worker of the pool as a sequence of those steps.
- `EventSpec`, `EventTheorems`, `Events`: publish and subscribe with history replay, where adding to the history,
  delivering, registering and replaying are separate steps.
- `TraceStore`, `SemanticTrace`, `ExecStore`: the evicting trace stores and the idempotent execution store.
- `SessionSpec`, `Sessions`: the session lifecycle with two times to live and a background sweep.
- `RegistrySpec`, `Registry`: agents, connections and schemas through reconnects and clean-up.
- `Flow`: de-duplication of discovered agents and the graph built from their dependencies.
- `ConnectionQueue`: the bounded outbound queue with one writer.

Where code and documentation disagree the code is followed:

- A comment at src/storage/memory.py:193 says indexes are rebuilt on the next query; nothing rebuilds them, so a
  filtered query sees only what came after the last eviction (`TraceStore.LatestIsLast`); `TraceStore.FilteredTailRight`
  says exactly when that makes no difference.
- Cancelled is a final status in the queue's vocabulary, but the expiry test runs before the status test, so a
  cancelled task can become expired (`QueueClaims.CancelledFate`, `QueueTheorems.CancelledCanExpire`).
- Agreeing to an offer ignores the negotiation deadline (`SessionSpec.SweepBeforeAgree`, `SessionSpec.SweepObserved`).
- The retried counter of a worker leaves out every retry that is the last one of its task (`Worker.RetriedCount`,
  `Worker.RetriedOverRun`).
- The execution index of the semantic trace store is not rebuilt after an eviction (`SemanticTrace.ByExecExactly`).

Assumptions about clients, stated in `QueueSystem.Enabled`: task identifiers are fresh, a worker dequeues only when
it holds nothing, only the holder completes or fails a task, and the executor reports success with the status
COMPLETED. Times and delays are reals.

## Model

| member | source | states |
|---|---|---|
| PriorityHeap.RootIsMinimal | src/queue/memory.py:38-48 | In a binary heap ordered by priority, then creation time, no item is smaller than the root. |
| PriorityHeap.HeapPush | src/queue/memory.py:128 | A push keeps the heap order and adds exactly one item, as a multiset. |
| PriorityHeap.HeapPop | src/queue/memory.py:196 | A pop returns an item that no other is smaller than and leaves the rest, as a multiset, in heap order. |
| TaskQueue.InMemoryTaskQueue.Enqueue | src/queue/memory.py:103-147 | Refused when closed, then when as many tasks as `max_size` were ever stored; otherwise heap, status, maps, both indexes and the counter are all updated, visible from now plus a positive delay. |
| TaskQueue.InMemoryTaskQueue.Dequeue | src/queue/memory.py:149-183 | A closed queue gives nothing and stays as it is; otherwise one search, relating the new state to the items popped and the one claimed. |
| TaskQueue.InMemoryTaskQueue.FindNextVisible | src/queue/memory.py:185-233 | The pop loop with its put-back loop does what the abstract search `Found` says: items popped in order, none of them claimable when met, and either a claim or an exhausted heap. |
| TaskQueue.InMemoryTaskQueue.Examine | src/queue/memory.py:199-226 | The verdict on one popped item, in the order of the code's tests: unknown, invisible, expired, wrong tenant, not pending, else claimed. |
| TaskQueue.InMemoryTaskQueue.Restore | src/queue/memory.py:229-231 | Every item set aside is put back. |
| TaskQueue.InMemoryTaskQueue.MarkExpired | src/queue/memory.py:235-251 | The task is expired, has the expiry result, and has left both indexes. |
| TaskQueue.InMemoryTaskQueue.Complete | src/queue/memory.py:253-275 | No check of the status: a known task gets the result and leaves the indexes, an unknown one changes nothing. |
| TaskQueue.InMemoryTaskQueue.Fail | src/queue/memory.py:277-340 | A retry raises the count in the shared payload and pushes a fresh item after the capped doubling delay; without retries left the task fails for good. |
| TaskQueue.InMemoryTaskQueue.Cancel | src/queue/memory.py:352-377 | Only a pending task is cancelled, and its heap item stays behind. |
| TaskQueue.InMemoryTaskQueue.ClearExpired | src/queue/memory.py:400-412 | Exactly the pending tasks past their time to live are marked, each once, and counted. |
| TaskQueue.InMemoryTaskQueue.Size | src/queue/memory.py:379-390 | The number of pending tasks of a tenant, or of all for an absent or empty tenant. |
| TaskQueue.InMemoryTaskQueue.PendingByAgent | src/queue/memory.py:392-398 | The number of pending tasks in the agent's index entry. |
| TaskQueue.InMemoryTaskQueue.Get | src/queue/memory.py:342-345 | A task ever admitted is found, finished or not, with its own identifier and its present retry count. |
| TaskQueue.InMemoryTaskQueue.GetResult | src/queue/memory.py:347-350 | While the structures agree there is a result exactly when the status is final, and it says that status. |
| QueueTheorems.ResultIffFinal | src/queue/memory.py:235-377 | In every reachable state a task has a result exactly when its status is final, and the result carries that status. |
| TaskQueue.InMemoryTaskQueue.Shutdown | src/queue/memory.py:414-427 | Closes the queue and changes nothing else. |
| QueueInvariants.AdmitInv | src/queue/memory.py:127-145 | Admitting a fresh task keeps heap, indexes, results and counters in agreement. |
| QueueInvariants.CompleteInv | src/queue/memory.py:253-275 | Completing a task that is being processed keeps the agreement. |
| QueueInvariants.FailInv | src/queue/memory.py:277-340 | Failing a task that is being processed keeps it, whether it is retried or given up. |
| QueueInvariants.CancelInv | src/queue/memory.py:352-377 | Cancelling keeps it. |
| QueueInvariants.MarkExpiredInv | src/queue/memory.py:235-251 | Expiring a pending or cancelled task keeps it. |
| QueueInvariants.MeetInv | src/queue/memory.py:199-226 | Meeting an item without claiming it keeps it, for every verdict. |
| QueueClaims.ClaimIsLeast | src/queue/memory.py:185-233 | The claimed item is least by priority and age among all visible, unexpired, matching, pending items; nothing is claimed if and only if there is none. |
| QueueClaims.HeapAfterSearch | src/queue/memory.py:192-231 | Exactly which items are left in the heap: all but the claimed one and the met ones that were stale or expired. |
| QueueClaims.StatusAfterSearch | src/queue/memory.py:204-224 | The status of every task after a search: claimed, expired because a visible expired item of it was met, or unchanged. |
| QueueClaims.CancelledFate | src/queue/memory.py:209-221 | From the state before the search: a cancelled task stays cancelled if its left-over item is not both visible and past its time to live; if it is, the task becomes expired when the item precedes every claimable item and stays cancelled when some claimable item precedes it. Exactly: it becomes expired iff the search meets the item. |
| QueueTheorems.CancelledCanExpire | src/queue/memory.py:209-221 | A concrete run in which a cancelled task becomes expired. |
| QueueTheorems.TieLeavesBothOpen | src/queue/memory.py:195-231 | A concrete tie of priority and age after which the cancelled task may be expired or stay cancelled, so the order of the items alone cannot say more. |
| QueueEffects.ItemsInOrder | src/queue/memory.py:38-48 | Critical before high, normal, low and background; within one priority the older task first; nothing else decides. |
| QueueEffects.BackoffDoubles | src/queue/memory.py:297-301 | Each backoff is twice the one before, up to the cap, and never more than the cap. |
| QueueEffects.EnqueueEffect | src/queue/memory.py:103-147 | On the fields: refused exactly when closed or full and then without effect; otherwise one new pending task and one new item, visible after a positive delay or at once. |
| QueueEffects.CompleteEffect | src/queue/memory.py:253-275 | On the fields: status, result and counter of a known task, and out of its tenant's index. |
| QueueEffects.FailEffect | src/queue/memory.py:277-340 | On the fields: with retries left one retry more and an item visible after min(base times 2^k, cap), otherwise failed with the error code and its retries. |
| QueueEffects.CancelEffect | src/queue/memory.py:352-377 | On the fields: exactly a pending task is cancelled, and its item stays. |
| QueueEffects.ExpiryEffect | src/queue/memory.py:235-251 | On the fields: status and result of a task marked as expired. |
| QueueEffects.ClearEffect | src/queue/memory.py:400-412 | The sweep expires exactly the pending tasks older than their time to live. |
| QueueEffects.SizeEffect | src/queue/memory.py:379-390 | While the structures agree, the size counts the pending tasks of the tenant, or all of them for an absent or empty tenant. |
| QueueEffects.AgentSizeEffect | src/queue/memory.py:392-398 | While the structures agree, the count of an agent is that of the pending tasks that name it. |
| QueueEffects.SearchEffect | src/queue/memory.py:192-226 | On the fields: the claimed item is visible, within its time to live, of a pending task and of the tenant asked for; there is a claim iff some item is all that; none of those comes before it. |
| QueueEffects.SearchLeaves | src/queue/memory.py:192-231 | On the fields: which met items stay (not yet visible, or unexpired and of another tenant) and which tasks become expired. |
| QueueEffects.DequeueServesTenant | src/queue/worker.py:178-182 | In every reachable state a worker of a tenant is given only its tenant's tasks, and is given one iff one is visible, unexpired and pending. |
| QueueSystem.StepQInv | src/queue/memory.py:66-412 | Every step of producers, workers, cancellations and sweeps keeps the whole agreement of the queue's structures. |
| QueueTheorems.ReachableInv | src/queue/memory.py:66-412 | The agreement, the claim history and the backoff bounds hold in every state that some run reaches. |
| QueueTheorems.HeldExactly | src/queue/worker.py:176-247 | In every interleaving the tasks held by workers are pairwise distinct and are exactly the processing tasks, none of which has a heap item. |
| QueueTheorems.HeldUntouched | src/queue/worker.py:200-247 | No step of anybody else, no cancel and no expiry changes a task that a worker holds. |
| QueueTheorems.StepStatus | src/queue/memory.py:200-412 | The only moves of a status: pending to processing, cancelled or expired; processing to pending, completed or failed; cancelled to expired. |
| QueueTheorems.FinalStaysFinal | src/queue/memory.py:200-412 | Over any run completed, failed and expired are absorbing, and cancelled can only become expired. |
| QueueTheorems.ItemsByStatus | src/queue/memory.py:127-233 | Exactly one heap item for a pending task, none for a processing, completed or failed one, at most one otherwise. |
| QueueProgress.ClaimsAreTimely | src/queue/memory.py:292-312 | In every run a claim comes no later than creation plus time to live; a claim for retry k comes at least the backoff delay min(base times 2^k, cap) after the failure that scheduled it; and for a task created no later than it was enqueued all its delays together fit in the time to live. |
| QueueProgress.DelaysDouble | src/queue/memory.py:297-301 | Delays below the cap add up to base times (2^(k+1) - 2). |
| QueueProgress.RetriesFitTtl | src/queue/ports.py:80-83 | A task created no later than it was enqueued, without earlier retries, reaches retry k only if base times (2^(k+1) - 2) fits in its time to live. |
| QueueProgress.ClaimsBounded | src/queue/ports.py:90-92 | Claims of a task equal its retries so far, plus one iff it is processing, completed or failed, and stay within its retry limit. |
| QueueProgress.TotalClaimsBounded | src/queue/memory.py:222-340 | All claims of a run together are at most the sum of the retry budgets of the enqueued tasks. |
| QueueProgress.WorkFalls | src/queue/memory.py:222-412 | Without admissions no step adds work, and a step that changes some status takes work away. |
| QueueProgress.WorkRunsOut | src/queue/memory.py:222-412 | Once nothing is enqueued, a run can change statuses only as often as the work left says. |
| QueueProgress.StatusesAddUp | src/queue/memory.py:429-443 | Enqueued tasks are the pending, processing, completed, failed, cancelled and expired ones together; the completed and failed counters count their statuses. |
| QueueProgress.SizesAddUp | src/queue/memory.py:379-390 | Sizes of the named tenants add up to the total exactly when no pending task has the empty tenant, whose size query counts everything. |
| Worker.TaskWorker.ProcessTask | src/queue/worker.py:200-247 | On the queue: a delivered task is completed with its result; a raised error makes the task pending with one retry more if it has one left and failed with EXECUTION_ERROR otherwise. One step of the system; the retried counter goes by the test after the failure. |
| Worker.TaskWorker.Poll | src/queue/worker.py:178-186 | One dequeue step of this worker and tenant, which claims a task exactly when it returns one. |
| Worker.TaskWorker.Loop | src/queue/worker.py:167-198 | Round by round: a dequeue step of this worker and tenant when it polls, then exactly when a task was claimed a completing step if the executor delivered and a failing step if it raised. Succeeded and failed are the numbers of such rounds, retried counts the failures after which the task can be retried once more, and the worker ends up holding nothing. |
| Worker.RetriedCount | src/queue/worker.py:231-247 | The retried counter reads the retry test after the count was raised: at one failure it says retried iff the task can be retried once more, which differs from having been retried exactly at the last retry. |
| Worker.RetriedOverRun | src/queue/worker.py:231-247 | Over any run of any number of workers, the retries counted are exactly the scheduled retries that are not the last one of their task. |
| Worker.RetryNotCounted | src/queue/worker.py:231-247 | A concrete run whose failure retries a task without being counted. |
| EventSpec.SessionFilter | src/events/stream.py:378-380 | The session filter matches exactly the events of its session, whatever their severity. |
| EventSpec.FilterNarrows | src/events/stream.py:80-124 | A filter without criteria matches everything, and each of the seven criteria narrows a filter by itself, severity by the order debug, info, warning, error, critical. |
| EventSpec.OfferAllEffect | src/events/stream.py:174-197 | Events offered one after the other enter an open queue in their order, the matching ones, as many as there is room for; the others are dropped. |
| Events.EventSubscription.Deliver | src/events/stream.py:174-197 | Nothing on a closed subscription or a non-matching event; otherwise queued and counted as received, or counted as dropped when the queue is full. |
| Events.EventSubscription.Get | src/events/stream.py:199-219 | Nothing when closed unless the consumer was already waiting; otherwise the head of the queue, in order. |
| Events.EventSubscription.Close | src/events/stream.py:229-236 | Closes and leaves the end marker if there is room. |
| Events.EventStream.Subscribe | src/events/stream.py:271-305 | Refused for a known identifier or at the subscriber limit; otherwise a fresh open subscription. |
| Events.EventStream.Unsubscribe | src/events/stream.py:307-323 | A known subscription leaves the table and is closed. |
| Events.EventStream.Publish | src/events/stream.py:325-347 | Offers the event to every live subscription and adds the number that took it to the delivered counter. |
| Events.EventManager.AddToHistory | src/events/manager.py:127-139 | Appends to the session's history and trims it to the limit. |
| Events.EventManager.Publish | src/events/manager.py:109-125 | History first, then delivery. |
| Events.EventManager.SubscribeSession | src/events/manager.py:433-470 | The register step and then, on request, the replay step of the hub. The new subscription is open, hears exactly the events of the session, holds at most 1000 of them and starts with the session's history, oldest first, or with nothing. |
| Events.EventManager.Replay | src/events/manager.py:464-468 | Delivers the session's history, oldest first. |
| Events.EventManager.UnsubscribeConnection | src/events/manager.py:542-565 | Unsubscribes all subscriptions of a connection and counts those that were still there. |
| Events.UnsubscribeAllTable | src/events/manager.py:542-565 | Afterwards exactly the listed subscriptions are gone from the table. |
| Events.EventManager.ClearSessionHistory | src/events/manager.py:600-609 | Drops a session's history and returns its length. |
| EventTheorems.TotalOffer | src/events/stream.py:335-347 | A publication raises the receive counters of all subscriptions together by exactly the number that took the event. |
| EventTheorems.StepInv | src/events/stream.py:174-347 | Every step keeps: the table lists exactly the open subscriptions; received equals taken plus queued; received plus dropped equals the matching offers while open; delivered equals total received minus replayed. |
| EventTheorems.CountersAddUp | src/events/stream.py:174-347 | So all of this holds after every run. |
| EventTheorems.HistoryIsTail | src/events/manager.py:127-139 | A session's history is the last `max_history` events added since it was last cleared; a limit of zero never trims. |
| EventTheorems.KeptExactly | src/events/manager.py:127-139 | An event is in the history at a given moment if and only if it was added before and at most `max_history` events of its session were added from then on. |
| EventTheorems.HeardExactly | src/events/manager.py:433-470 | For every interleaving: a subscriber that stays open is offered an event once if it registered before the delivery, and once more if its replay finds the event in the history. |
| EventTheorems.NeverLost | src/events/manager.py:109-139 | Without trimming, clearing or a full queue a subscriber that asked for history accepts every event once or twice, twice iff register precedes delivery and adding precedes the replay. |
| EventTheorems.SessionSubscriberHears | src/events/manager.py:433-470 | The same for the subscriber that registers with the filter of the session and then asks for its history. |
| EventTheorems.PublishedCounts | src/events/stream.py:335-335 | The published counter is the number of publications. |
| EventTheorems.HeardTwice | src/events/manager.py:433-470 | A concrete interleaving in which a subscriber accepts an event twice. |
| TraceStore.InMemoryTraceStore.Append | src/storage/memory.py:170-195 | Appends, indexes by session and non-empty execution, and past the limit drops a tenth of the limit and clears both indexes. |
| TraceStore.InMemoryTraceStore.Tail | src/storage/memory.py:197-216 | The last `limit` records reached through the index that the arguments select, and the truncation flag. |
| TraceStore.InMemoryTraceStore.Query | src/storage/memory.py:218-246 | The oldest matching records up to the limit; a limit below one still lets one through. |
| TraceStore.PositionsIncrease | src/storage/memory.py:177-187 | The listed positions are in range, match and strictly increase. |
| TraceStore.PositionsAll | src/storage/memory.py:177-187 | No matching position is missing. |
| TraceStore.StoreAgrees | src/storage/memory.py:170-195 | After any log the records are a suffix of it, and both indexes list exactly the matching positions since the last eviction. |
| TraceStore.LatestIsLast | src/storage/memory.py:197-216 | A filtered query returns the last `limit` of a plain filter over the records since the last eviction, an unfiltered one over all stored records, and the flag is right. |
| TraceStore.FilteredTailRight | src/storage/memory.py:189-216 | For every limit, exactly when a filtered query agrees with a plain filter over all stored records: no record older than the last eviction matches, or the recent matches fill the limit. Once for the records, once with the flag. |
| TraceStore.FilteredTailWrong | src/storage/memory.py:189-216 | A concrete log: a limit of ten, eleven records of one session, ten stored, and the query of the session finds none. |
| TraceStore.EvictionSchedule | src/storage/memory.py:189-195 | For a limit of at least ten: how many records are kept and how many are recent after any number of appends; first eviction at append max + 1, then every max / 10. |
| TraceStore.SmallLimitKeepsAll | src/storage/memory.py:189-195 | A limit from zero to nine removes nothing, and past it the indexes are always empty. |
| TraceStore.BoundHoldsFromTen | src/storage/memory.py:189-195 | For a limit that is not negative, the store stays within it for every log if and only if the limit is at least ten. |
| ExecStore.InMemoryExecStore.PutIfAbsent | src/storage/memory.py:262-287 | The existing record by key, else by identifier, with created false; otherwise stores the given object. |
| ExecStore.InMemoryExecStore.Get | src/storage/memory.py:289-301 | By identifier if given, else by non-empty key. |
| ExecStore.InMemoryExecStore.SetStatus | src/storage/memory.py:303-326 | Changes the status and the given times and result fields in the stored record, and nothing else. |
| ExecStore.InMemoryExecStore.ListBySession | src/storage/memory.py:328-341 | In order of the session's list; while the structures agree, exactly the stored records of the session with the wanted status, each once. |
| ExecStore.AfterInv | src/storage/memory.py:262-341 | After any calls the key map is the exact inverse of the stored non-empty keys, and the session lists partition the executions without repetition. |
| ExecStore.PutEffect | src/storage/memory.py:262-287 | On the stored records: created iff the identifier is new and no record has the key, an absent or empty key being none; otherwise the record with the key, else the one with the identifier. Nothing else changes. |
| ExecStore.UpdateEffect | src/storage/memory.py:303-326 | Each argument that is given goes to its own field, the status always. |
| ExecStore.FirstWriterWins | src/storage/memory.py:268-272 | From the call that created a key's record on, every put with that key, whatever lies in between, returns that record and changes nothing. |
| ExecStore.NeverReplaced | src/storage/memory.py:262-287 | A stored record is never replaced. |
| ExecStore.KeyRegistered | src/storage/memory.py:266-281 | A put that finds its identifier taken does not register its new key; exactly when a key is known afterwards and where it leads. |
| ExecStore.KeyNotRegistered | src/storage/memory.py:274-276 | A concrete case of a key that leads nowhere after a put. |
| SemanticTrace.SemanticTraceStore.Append | src/trace/store.py:200-233 | Routes to the session's list and the execution index, or to the global list, each trimmed past the limit. |
| SemanticTrace.SemanticTraceStore.GetBySession | src/trace/store.py:235-260 | The last events of the session, filtered by a non-empty execution, and the flag. |
| SemanticTrace.SemanticTraceStore.GetByExec | src/trace/store.py:262-286 | The last of the events that the execution's references lead to now, and the flag. |
| SemanticTrace.SessionIsSuffix | src/trace/store.py:209-229 | A session's list is a suffix of all events appended for it. |
| SemanticTrace.GlobalIsSuffix | src/trace/store.py:230-233 | The global list is a suffix of the events without a session. |
| SemanticTrace.TrimSchedule | src/trace/store.py:223-233 | How many events of a session and of the global list are kept after any log, for every limit that is not negative. |
| SemanticTrace.ByExecExactly | src/trace/store.py:217-228 | The events found for an execution are its session events in append order across sessions, if and only if no session has evicted since an event of the execution was appended to it. |
| SemanticTrace.ByExecWhileSmall | src/trace/store.py:217-228 | So they are right while the sessions involved stay within the limit. |
| SemanticTrace.ByExecWrongAfterEviction | src/trace/store.py:223-228 | A concrete log of eleven events, with a limit of ten, for which they are wrong. |
| Sessions.Session.IsExpired | src/session/session.py:319-333 | Past the negotiation deadline while negotiating, past activation plus session time while active, past creation otherwise; strictly later only. |
| Sessions.Session.GetOffer | src/session/session.py:339-344 | The first offer with the identifier. |
| Sessions.Session.Activate | src/session/session.py:346-368 | Takes identifier, provider and connection from the found offer and the agreed schema and view from the caller, and activates now; an unknown offer changes nothing. |
| Sessions.Session.Close | src/session/session.py:370-373 | Closes unconditionally. |
| Sessions.Session.AddExecution | src/session/session.py:390-400 | Appends and keeps both indexes leading to the last record of each identifier and non-empty key. |
| Sessions.Session.GetExecution | src/session/session.py:402-408 | The record of the identifier after which no other of it was added, or none if there is none. |
| Sessions.Session.GetExecutionByKey | src/session/session.py:410-415 | The record of the key after which no other of it was added, or none; an empty key finds none. |
| Sessions.Session.UpdateExecutionStatus | src/session/session.py:417-444 | Changes the last record of the identifier and no other; times default to now, and completion time and result fields are heeded only when the execution ends. |
| Sessions.Session.HasPendingExecutions | src/session/session.py:446-451 | Whether some record is pending, accepted or in progress. |
| Sessions.LastIndexed | src/session/session.py:390-415 | Looking a name up in an index finds the last record of that name and nothing if there is none. |
| Sessions.SessionManager.CreateSession | src/session/manager.py:121-169 | A fresh negotiating session with the manager's two times to live, entered under its intent. |
| Sessions.SessionManager.GetSessionByIntent | src/session/manager.py:176-182 | The session last created for the intent, if any. |
| Sessions.SessionManager.AddOffer | src/session/manager.py:184-249 | Accepted only while negotiating and not expired. |
| Sessions.SessionManager.Agree | src/session/manager.py:251-295 | Accepted only while negotiating and for a collected offer, with the schema and view given; the deadline is not asked. |
| Sessions.SessionManager.CloseSession | src/session/manager.py:297-321 | Closes any known session. |
| Sessions.SessionManager.ValidateSessionForExec | src/session/manager.py:323-362 | Accepted only for an active, unexpired session and one of its two participants. |
| Sessions.SessionManager.CleanupExpiredSessions | src/session/manager.py:99-119 | The sweep closes exactly the expired sessions that are neither closed nor expired yet. |
| SessionSpec.StepFollows | src/session/manager.py:99-362 | Every step keeps the session invariant and moves each session onward only. |
| SessionSpec.RunFollows | src/session/manager.py:215-362 | Over any run a session never returns to negotiating or active, and its offers, chosen provider and activation time are frozen once it leaves negotiation. |
| SessionSpec.ActivatesOnce | src/session/manager.py:251-295 | After an accepted agreement no agreement on the session is ever accepted again. |
| SessionSpec.ClosedForGood | src/session/manager.py:297-321 | After a close the session is closed in every later state, and no offer, agreement or execution is accepted. |
| SessionSpec.AgreedForGood | src/session/manager.py:251-295 | After an accepted agreement its time, offer, schema and view stay in every later state, and the session is active, closed or expired. |
| SessionSpec.CreateEffect | src/session/manager.py:146-163 | On the fields: a negotiating session of this requester, created now, without offers. |
| SessionSpec.OfferEffect | src/session/manager.py:215-240 | Accepted iff the session is negotiating and the time is at most creation plus negotiation time; adds the offer at the end. |
| SessionSpec.AgreeEffect | src/session/manager.py:270-283 | Accepted iff negotiating and the offer was collected; active from now on with provider and connection of the first such offer and the schema and view given. |
| SessionSpec.CloseEffect | src/session/manager.py:311-317 | Accepted iff the session is known; status and closing time, nothing else. |
| SessionSpec.ValidateEffect | src/session/manager.py:344-362 | For an active session: accepted iff the time is at most activation plus session time and the sender takes part. |
| SessionSpec.SweepEffect | src/session/manager.py:104-115 | A session expires iff it is negotiating past its negotiation time or active past its session time; all others are left alone. |
| SessionSpec.ExecutionWindow | src/session/manager.py:344-362 | In reachable states execution is accepted iff the session is active, the time is between activation and activation plus session time, and the sender is the requester or the provider of the chosen offer. |
| SessionSpec.SweepUnobservable | src/session/manager.py:99-119 | From equal boards every verdict of a run equals that of the run without its sweeps, as long as no agreement is attempted past a negotiation deadline. |
| SessionSpec.SweepsInsertedAnywhere | src/session/manager.py:99-119 | Inserting any sweeps anywhere in such a run from the empty manager changes no verdict. |
| SessionSpec.SweepBeforeAgree | src/session/manager.py:270-283 | Without that proviso: a sweep just before an agreement changes its verdict iff the session is negotiating, past its deadline, and has the offer. |
| SessionSpec.SweepObserved | src/session/manager.py:270-283 | A concrete reachable board and an agreement that is accepted without the sweep and refused after it. |
| Registry.ViewRegistry.RegisterAgentSchemas | src/schema/view_registry.py:42-69 | Replaces the agent's schemas and enters it for each capability. |
| Registry.ViewRegistry.UnregisterAgentSchemas | src/schema/view_registry.py:71-89 | Removes the agent's schemas and its entries, and every capability left without agents. |
| RegistrySpec.WithdrawInv | src/schema/view_registry.py:71-89 | Withdrawing keeps the reverse index the exact inverse of the schema map, without empty sets. |
| RegistrySpec.OfferInv | src/schema/view_registry.py:42-69 | Registering schemas keeps it too. |
| Registry.AgentRegistry.Register | src/registry/registry.py:141-207 | A registered agent loses its old connection first, then enters all maps; empty schemas are not offered. |
| Registry.AgentRegistry.Unregister | src/registry/registry.py:209-224 | Removes the agent of a known connection and returns it; an unknown connection changes nothing. |
| Registry.AgentRegistry.RemoveAgent | src/registry/registry.py:129-139 | Takes a connection out of all maps and its agent's schemas out of the view registry. |
| Registry.AgentRegistry.Heartbeat | src/registry/registry.py:226-243 | Updates the last contact and brings an offline agent back online. |
| Registry.AgentRegistry.CleanupDeadAgents | src/registry/registry.py:102-127 | Removes exactly the agents whose last contact is too old and that are not offline yet. |
| Registry.AgentRegistry.FindCandidates | src/registry/registry.py:288-346 | Of all registered agents those that fit, in ascending order of load and cut to the limit; none that fits and is left out has a smaller load than one returned. |
| RegistrySpec.SortIsStable | src/registry/registry.py:343-346 | The sort is an ascending permutation that keeps the order among equal loads. |
| RegistrySpec.StepInv | src/registry/registry.py:102-243 | Every step keeps agents and connections in bijection, the reverse index exact, and schemas with registered agents only. |
| RegistrySpec.RunInv | src/registry/registry.py:102-243 | So they hold over any run, and a connection is present only if it was registered. |
| RegistrySpec.RegisterEffect | src/registry/registry.py:166-207 | The agent is online and just seen, with what it brought, under this connection only; other agents are untouched. |
| RegistrySpec.UnregisterEffect | src/registry/registry.py:209-224 | The connection, its agent and its schemas are gone; everything else stays. |
| RegistrySpec.HeartbeatEffect | src/registry/registry.py:226-243 | Last contact is now, offline becomes online, nothing else changes. |
| RegistrySpec.HeartbeatSurvives | src/registry/registry.py:102-127 | No clean-up within the timeout after a heartbeat removes the agent. |
| RegistrySpec.WishNarrows | src/registry/registry.py:313-341 | Tenant and online status always count; capability, tags and exclusion each narrow the wish by themselves. |
| RegistrySpec.LateUnregister | src/registry/registry.py:166-224 | Unregistering a superseded connection changes nothing, however late, unless it was registered again. |
| RegistrySpec.CleanupLeavesTheLiving | src/registry/registry.py:102-127 | A clean-up leaves exactly the agents that are alive, unchanged. |
| Flow.Deduplicate | src/orchestration/flow_planner.py:281-301 | Keeps the first occurrence of each identifier. |
| Flow.FirstOnlyKeepsFirsts | src/orchestration/flow_planner.py:288-299 | The kept agents are exactly the first occurrences, in their order. |
| Flow.FirstOnlyIsDistinct | src/orchestration/flow_planner.py:281-301 | No identifier is lost or repeated, and a flow without duplicates is unchanged. |
| Flow.BuildGraph | src/orchestration/flow_planner.py:309-474 | Duplicate identifiers are an error. Otherwise START leads to the entry point and nowhere else, known dependencies are the edges between agents, END follows exactly the agents without successors, and there is a branch for each route with exactly its targets. |
| Flow.DiscoveredFlowBuilds | src/orchestration/flow_planner.py:330-336 | What de-duplication leaves never triggers the duplicate error. |
| Flow.FollowRoute | src/orchestration/flow_planner.py:416-430 | The first mapping with the value, else the default, and always one of the declared targets. |
| Flow.EndsExactly | src/orchestration/flow_planner.py:445-471 | The edges to END leave exactly the agents that nobody depends on and no route starts from; every agent can go on. |
| Flow.NeverStuck | src/orchestration/flow_planner.py:379-471 | Without routes a walk that is still at an agent of the flow can be extended. |
| Flow.EndsIffAcyclic | src/orchestration/flow_planner.py:379-471 | Without regard to routes, every walk from an agent has reached END after at most as many steps as there are agents, if and only if the dependency edges have no cycle. |
| Flow.EntryReachesEnd | src/orchestration/flow_planner.py:374-471 | Without cycles a walk from START through an entry point of the flow reaches END after at most one step more than there are agents, and without routes can go on until then. |
| ConnectionQueue.Connection.PutNowait | src/transport/queue.py:88-101 | Refused when closed, then when full; otherwise appended. |
| ConnectionQueue.Connection.Stop | src/transport/queue.py:71-86 | Closes, leaves the end marker if there is room, and cancels the writer. |
| ConnectionQueue.Connection.WriterLoop | src/transport/queue.py:136-163 | A run of the system after which the writer has ended: a closed queue is left alone; otherwise the socket gets the queued messages in order up to the first failed send, which is lost, or the end marker, and the queue holds what follows. |
| ConnectionQueue.NothingReordered | src/transport/queue.py:71-163 | For every interleaving sent, then in hand or lost, then queued, is what was accepted in order; the queue keeps its bound; the socket has a prefix of what was accepted. |
| ConnectionQueue.PutEffect | src/transport/queue.py:88-125 | A put is refused iff the queue is closed or at its bound, a waiting one iff it is at its bound. |
| ConnectionQueue.WriterEffect | src/transport/queue.py:71-163 | What taking, a finished or failed send, a cancellation and a stop each do. |
| ConnectionQueue.SilentAfterwards | src/transport/queue.py:71-163 | After a failure or cancellation nothing more is sent, and after a stop only puts that were already waiting are accepted. |

## Left out

- TaskQueue.InMemoryTaskQueue.Dequeue: models one search, the form with a timeout of zero; the timed wait for a task to arrive is not modelled, after which the program looks again when notified and returns nothing when the time is over.
- QueueClaims.CancelledFate: when the left-over item ties with the first claimable one in priority and age, the layout of the heap decides; the abstract queue allows both outcomes (`QueueTheorems.TieLeavesBothOpen`).
- Clock readings within one step: each step has one time, while the program reads the clock again in each expiry test.
- Forced cancellation of workers when a pool stops (src/queue/worker.py:153-157): it leaves processing tasks that nobody holds.
- Enqueueing a task identifier twice: identifiers are fresh by the client protocol.
- The payload object inside a heap item: an item carries the fields of the payload that never change, and the queue's map carries the object whose retry count changes.
- Python's `heapq`: the heap is a binary heap of this project with the contracts of push and pop.
- Empty entries that a `defaultdict` creates when it is read: an absent key and an empty set are the same here.
- Error messages, durations, averages, `processed_at`, queue statistics and logging: nothing to prove.
- Worker.TaskWorker.Loop: models one worker alone on its queue, because the interleaving of many is the state machine of `QueueSystem`; the shutdown event and the pause after an error are not modelled.
- Worker.TaskWorker.ProcessTask: the executor's outcome is a parameter; a failure of the queue itself is not modelled.
- Events.EventManager.SubscribeSession: runs its two steps one after the other; the interleavings are in `EventTheorems`.
- The `since` and `event_types` filters of the session history, the other subscription forms, `publish_many` and `close_all`: variations of what is modelled.
- EventTheorems.NeverLost: assumes a history limit that is not negative, because a negative one makes the slice drop from the front.
- Persistent copies of trace events, listings, flow fields of sessions, and the rewriting of sessions by the WebSocket handler (src/transport/handler.py:818): claims are about the session manager.
- Sessions.SessionManager.CreateSession: requires a fresh identifier, which the program draws at random.
- A registry without a view registry, and errors when closing a socket: every registry has a view registry here.
- Registry.AgentRegistry.FindCandidates: takes the order of the dictionary's keys as an argument and returns the records as values.
- Flow.BuildGraph: answers with the edge set that is handed to LangGraph; its compile call at the end may still reject an entry point or a dependency that is no node of the graph, and LangGraph is not part of this model.
- Conditional edges, parallel groups and the execution of a flow graph: a route is a set of targets, and `Flow.EndsIffAcyclic` is about dependency edges.
- ConnectionQueue.Connection.WriterLoop: models the writer alone until the queue is empty or it ends; the interleavings are in `ConnectionQueue.NothingReordered`.
- The map of connection queues, task-queue and storage adapters for external servers, language-model calls, message envelopes, policies and factories.
