# The watch daemon, verified

Models of the long-lived parts of the daemon under `server/internal`, with proofs
about whole runs of them. `dafny verify dfyconfig.toml` checks everything.

Three kinds of modules:

* *Values*: `Events`, `MonitorState`, `Servers`, `Sanitizers`, `Entries`, ... define what each
  section of the code makes of a state, as functions.
* *Objects and loops*: `NotificationStore`, `MonitorObject`, `StoreLoops`, `Prober`,
  `Walk`, `Tail`, ... hold the code in its own form, classes whose methods change
  fields and loops that fill lists, each proved against those functions.
* *Runs*: `NotificationRuns`, `NotificationSafety`, `NotificationOrder`, `MonitorRuns`,
  `MonitorSafety`, `Fence` interleave
  the sections in every order the code allows, with failures, crashes and time, and
  prove what holds in every reachable state.

## What was found

Stated as exact conditions in the model, with the code kept as it is:

* A page that ends in chat id 0 gives a cursor the store then refuses
  (`NextCursorAcceptedIff`), so a receiver never gets past it (`CompletesIff`,
  `StuckAtZero`). This is about the interface of the store itself: the handler in front
  of it takes no recipient with chat id 0
  (`server/internal/watchdapi/notifications_server.go`, lines 125 to 138).
* A drain recognises the text it served by text and time. If that text was dropped from
  a full backlog meanwhile, an equal one that has no ID is dropped in its place
  (`TwinTakenIff`, `LostTwin`). Apart from that only the oldest of a full backlog is lost.
* A text published while the store has no identity or no IDs left is refused to its
  caller with the error, not deferred (`PublishedInCallOrder` accounts for it as refused).
* The guard dates an answer by when the loop takes it, not by when it came: a failure can
  be counted on an answer of any age (`FailuresNeedTheWAN`, `LateAnswerCounts`), though
  on none older than 30 s and the time it waited to be taken (`PromptAnswers`,
  `BoundIsReached`).
* A refresh a user asks for renames the record of a server the fresh list renamed, and
  leaves its counter; the watch then takes the new name for a selection and gives up,
  though nobody selected anything (`FenceIsExact`, `RenameRefuses`).
* A user's selection whose record fails to save leaves no mark in the config, and the
  watch writes over it (`SelectionKeptIff`, `LostSelection`).
* `hasDialerProxy` refuses a name only: an empty or non-text `dialerProxy` stays in the
  stored socket unless it lies under a key that is deleted (`DialerKeyStaysIff`,
  `EmptyDialerStays`, `DialerGoes`). It names no outbound, so `StoredIsSafe` is about names.

## Model

| member | source | states |
|---|---|---|
| NotificationSafety.NoIDTwice | server/internal/notifications/store.go:248-286 | Over every run of publishes, drains, health batches, failed or half-reported saves, crashes, lost or damaged files and reopens, no (epoch, sequence) pair is issued twice. |
| NotificationSafety.ReserveCovers | server/internal/notifications/persist.go:185-229 | In every reachable state the counter is within `reservedThrough`, that is within 64 bits, and a file of the current epoch, in use or being written, reserves at least that far. |
| NotificationSafety.ReachableRestores | server/internal/notifications/persist.go:53-162 | Every state a run reaches snapshots to a file the restore check accepts, and restoring it gives back lists, recipients, queues, progress and health, with the counter at the reserve. |
| NotificationSafety.AckIsFinal | server/internal/notifications/store.go:372-423 | After an `Ack` that returned nil, no later page of that chat holds the event: through publishes, recipients removed and added again, prunings, crashes, reopens and loss of the file. |
| NotificationRuns.StepKeeps | server/internal/notifications/store.go:454-520 | Every step of the run machine keeps the invariant: counters, issued events, file, save in flight and log. |
| NotificationRuns.SnapshotRestores | server/internal/notifications/persist.go:237-268 | Snapshot then restore is the identity on a store whose events were issued, up to the counter and the bookkeeping of saves. |
| NotificationRuns.BatchKeeps | server/internal/notifications/subscription_health.go:23-94 | A health batch, IDs and records together, keeps the invariant and issues only new IDs. |
| NotificationOrder.PublishedInCallOrder | server/internal/notifications/store.go:178-231 | The texts of a process get rising sequence numbers in the order of the calls, however saves fail and wherever drains stop; the backlog is bounded; every text is accounted for. |
| NotificationOrder.OnlyOverflowDrops | server/internal/notifications/store.go:235-243 | With no equal text waiting at a call, a text leaves the backlog only with an ID or as the oldest of a full one. |
| NotificationOrder.TwinTakenIff | server/internal/notifications/store.go:188-202 | In every run a text is taken for an equal one exactly at the end of a drain whose own text a full backlog has dropped meanwhile and whose head, this text, has the same words and time. |
| NotificationOrder.LostIsLost | server/internal/notifications/store.go:178-243 | In every run a text that was refused, dropped as the oldest or taken for an equal one has no ID, waits nowhere, and came to one of these ends only. |
| NotificationOrder.LostTwin | server/internal/notifications/store.go:188-202 | A concrete run in which a waiting text is lost that way. |
| QueueLaws.ReplacedQueueIsTheLast | server/internal/notifications/recipients.go:9-52 | Each queue is exactly the last 20 by sequence of queued plus recent, less acked, not before the FirstSeen and not over age. |
| QueueLaws.PruneAges | server/internal/notifications/store.go:475-520 | From bounded lists without acked events pruning takes exactly the events over age. |
| QueueLaws.AckLeaves | server/internal/notifications/store.go:380-416 | Of the queues of all chats an ack and the save after it take exactly the acked event of that chat and what is over age. |
| QueueLaws.AppendJoins | server/internal/notifications/store.go:273-286 | A new event is in the recent list and in the queue of each recipient there before it; else only events over age and the oldest of a full list have left. |
| QueueLaws.ReplaceGives | server/internal/notifications/recipients.go:9-52 | An event is in a chat's new queue if and only if it was queued or recent, is not acked there, not before the FirstSeen and not over age, with fewer than 20 such events after it. |
| QueueLaws.EarliestIs | server/internal/notifications/recipients.go:13-19 | The earliest FirstSeen listed for a chat counts; exactly the listed chats remain. |
| QueueLaws.ReplaceTwice | server/internal/notifications/recipients.go:9-52 | Repeating the call at one time with one list changes nothing, the revision included. |
| QueueLaws.PruneTwice | server/internal/notifications/store.go:475-520 | Pruning is idempotent at one time. |
| QueueLaws.PruneKeeps | server/internal/notifications/store.go:475-520 | Pruning keeps a well-formed queue state: issued events, in order, bounded, queues only of recipients, progress only of recent events. |
| QueueLaws.PruneStaysGone | server/internal/notifications/store.go:475-520 | An event a chat is done with stays so, even when its progress is pruned. |
| QueueLaws.ReplaceStaysGone | server/internal/notifications/recipients.go:22-48 | The same through removing and adding recipients. |
| Events.BoundedIs | server/internal/notifications/store.go:522-536 | A bounded list is a part of the list, in order, of kept events only; it is the list where nothing is to drop. |
| Paging.BuildPage | server/internal/notifications/store.go:317-366 | The page is the longest run of notes past the cursor that fits; refused exactly when the first does not fit. |
| Paging.PageQueue | server/internal/notifications/store.go:329-363 | One chat of that loop, with its early returns. |
| Paging.SortedChats | server/internal/notifications/store.go:323-327 | The chats with a queue, each once, rising. |
| Paging.PageHolds | server/internal/notifications/store.go:288-366 | A page holds, each once, exactly the notes past its cursor and not past its next cursor. |
| Paging.SeenOnce | server/internal/notifications/store.go:288-366 | With acks, publishes and recipient changes between pages, a note pending throughout appears exactly once. |
| Paging.FixedStore | server/internal/notifications/store.go:288-366 | On a fixed store a completed following of the cursors gives every note past the first cursor exactly once, in (chat, sequence) order, within as many pages as there are notes. |
| Following.CompletesIff | server/internal/notifications/store.go:288-366 | On a fixed store the cursors lead to the last page, each accepted, if and only if each note fits a page alone and no page with a successor ends in chat id 0. |
| Following.AllDelivered | server/internal/notifications/store.go:288-366 | Without chat id 0, and where each note fits a page, a following exists and delivers everything once. |
| Following.StuckAtZero | server/internal/notifications/store.go:301-315 | A run to a store with recipients -4 to 1 and 20 texts of which no receiver gets the second page, whatever the notes are encoded to, if each fits a page and the first 100 fit one; all notes of ordinary size do. |
| Paging.NextCursorAcceptedIff | server/internal/notifications/store.go:301-315 | The store accepts the cursor it gave if and only if the page did not end in chat id 0. |
| StoreLoops.ValidSavedState | server/internal/notifications/persist.go:112-162 | The loops accept exactly the valid files, whatever the file holds. |
| StoreLoops.ValidEvents | server/internal/notifications/persist.go:117-131 | A list is accepted iff it rises within the file's epoch and counter and agrees with the events known from other lists. |
| StoreLoops.BoundedEvents | server/internal/notifications/store.go:522-536 | The sliding loop gives the last `limit` of the kept events. |
| StoreLoops.SameEvents | server/internal/notifications/store.go:538-548 | Equality of two lists. |
| StoreLoops.EarliestOf | server/internal/notifications/recipients.go:13-19 | The loop gives the earliest FirstSeen of each chat. |
| StoreLoops.MergeList | server/internal/notifications/recipients.go:27-36 | One of the loops that collect a queue: the open events of the lists so far, each ID once. |
| StoreLoops.SortedIsMerge | server/internal/notifications/recipients.go:25-39 | Collected and sorted, they are the ordered merge of queued and recent. |
| StoreLaws.PruneProgress | server/internal/notifications/store.go:486-497 | Progress is kept of recent events only; reports a change exactly if there is one. |
| StoreLaws.PruneQueues | server/internal/notifications/store.go:498-516 | Queues are pruned by age, progress and count; reports a change exactly if there is one. |
| StoreLaws.QueueEvent | server/internal/notifications/store.go:276-282 | A new event joins the queue of every recipient that was there before it, bounded. |
| StoreLaws.Settle | server/internal/notifications/store.go:387-416 | The event leaves the queue and, while recent, is remembered as done; reports a change exactly if there is one. |
| StoreLaws.TheLastWait | server/internal/notifications/store.go:235-243 | However many texts are deferred, the last 20 of all of them wait, in their order. |
| StoreLaws.NewQueues | server/internal/notifications/recipients.go:23-44 | The loop over recipients gives the specified queues. |
| StoreLaws.Observe | server/internal/notifications/subscription_health.go:30-41 | The loop takes the first of each id and the set of current ids. |
| StoreLaws.ObservedOnce | server/internal/notifications/subscription_health.go:30-41 | One observation an id; every non-empty id has one. |
| StoreLaws.Updates | server/internal/notifications/subscription_health.go:45-65 | The changes against the records, and how many of them are announced. |
| StoreLaws.RecordsFollow | server/internal/notifications/subscription_health.go:78-90 | After a batch there are records of current subscriptions only: confirmed now, or as they were. |
| StoreLaws.Confirmed | server/internal/notifications/subscription_health.go:96-111 | The loop confirms what the observation says; what that means is in RecordsAre and Hears. |
| StoreLaws.RecordsAre | server/internal/notifications/subscription_health.go:78-111 | Of the first subscription of each id: a record becomes false exactly if the state is OK, there are servers and all are dead or rejected, true exactly if one is alive, and else stays; no other record is left. |
| StoreLaws.Hears | server/internal/notifications/subscription_health.go:45-111 | What is announced, in order and once each: a loss so confirmed that the record did not have, and a recovery from a recorded loss, of the first subscription of each id; nothing else. |
| NotificationStore.Store.PruneLocked | server/internal/notifications/store.go:475-520 | The fields become the pruned state; the revision moves iff a list did. |
| NotificationStore.Store.AppendEventLocked | server/internal/notifications/store.go:273-286 | Appends the event with the next ID, one never issued before. |
| NotificationStore.Store.DeferLocked | server/internal/notifications/store.go:235-243 | The newest 20 of those waiting and this one wait. |
| NotificationStore.Store.EnsureEpoch | server/internal/notifications/store.go:454-473 | Draws an identity once, and fails only where the random bytes are refused; the rest of the state stays. |
| NotificationStore.Store.AckSection | server/internal/notifications/store.go:381-420 | The section of an ack. |
| NotificationStore.Store.ReplaceSection | server/internal/notifications/recipients.go:9-52 | The section of a recipient change. |
| NotificationStore.Store.BatchSection | server/internal/notifications/subscription_health.go:70-92 | The section of a health batch, after its IDs are leased. |
| NotificationStore.Store.SaveLocked | server/internal/notifications/persist.go:185-229 | Which error, with what the system refused; what is saved, that the reserve is leased on success, and that the file is the old one or the snapshot. |
| NotificationStore.Store.WriteState | server/internal/notifications/persist.go:201-228 | Nothing to save, or a write that is done or refused; the reserve moves only when reported saved. |
| NotificationStore.Store.WriteFile | server/internal/notifications/persist.go:208-228 | The write may fail or report failure after replacing the file. |
| NotificationStore.Store.SnapshotLocked | server/internal/notifications/persist.go:237-268 | The file of the current state, with the room for IDs a save is to leave. |
| NotificationStore.Store.Restore | server/internal/notifications/persist.go:53-110 | An accepted file becomes the state, counter at the reserve, unless its reading is refused; any other is left for a backup. |
| NotificationStore.Store.Lease | server/internal/notifications/store.go:248-268 | With an identity and IDs left it needs no save; it fails only without an identity, at 2^64 - 1, or where the reserve is spent and the save that would lease more is refused. |
| NotificationStore.Store.PublishAt | server/internal/notifications/store.go:248-270 | The same of an ID given; with it the event joins the queues of the recipients there before it, and what leaves them is over age or the oldest of a full one; on refusal nothing is issued. |
| NotificationStore.Store.Drain | server/internal/notifications/store.go:178-202 | The first n waiting texts get the next n IDs in their order, and exactly those leave the backlog; with an ID left at least one does, without error all do; each error with its cause. |
| NotificationStore.Store.FlushForEvents | server/internal/notifications/persist.go:172-182 | Opens a store not yet open, saves and drains. |
| NotificationStore.Store.OpenLocked | server/internal/notifications/store.go:145-172 | Open after the path resolves, whatever the saves say. |
| NotificationStore.Store.Publish | server/internal/notifications/store.go:211-231 | A text waits behind those waiting; otherwise it has an ID and is in the queues, and with IDs left it always has; it waits only where the reserve is spent and the save is refused, and is refused only without an identity or at 2^64 - 1. |
| NotificationStore.Store.Ack | server/internal/notifications/store.go:372-423 | Which error; accepted, the event is out of the queue for good, and with no text waiting every queue has lost that event of that chat and what is over age at the ack or the save, and nothing else; without error the file says so. |
| NotificationStore.Store.ReplaceRecipients | server/internal/notifications/recipients.go:9-52 | Closed, nothing changes; open, the recipients are the earliest of the list and, with no text waiting, each queue is the last 20 a chat may be given at the call, less what is over age at the save; without error all is saved. |
| NotificationStore.Store.Pending | server/internal/notifications/store.go:288-366 | Takes from the queues what is over age and answers the page of BuildPage; refuses exactly the cursors it must. |
| NotificationStore.Store.LeasedUpdates | server/internal/notifications/subscription_health.go:43-77 | The loop ends with the IDs of the whole batch leased, or with an error, its cause and the records as they were. |
| NotificationStore.Store.ObserveSubscriptions | server/internal/notifications/subscription_health.go:23-111 | All together or not at all: the records of the first subscription of each id follow its servers, and the losses and recoveries that are news get their IDs in order, between the waiting texts served before and after; each error with its cause; without error all is saved. |
| MonitorSafety.EvidenceHasNoABA | server/internal/monitor/evidence.go:117-227 | If evidence validates for keys, then since it was taken the monitor stayed active in one session, state and endpoint set, and no check of the keys was resolved. |
| MonitorSafety.CheckEvidenceIsFresh | server/internal/monitor/evidence.go:44-114 | When CheckEvidence answers, each key was rejected by this process, or a check of it was dispatched, completed and counted after the call; restored results never count. |
| MonitorSafety.FailuresNeedTheWAN | server/internal/monitor/monitor.go:832-942 | A failure is counted only at a step with an answer of an endpoint or a control address taken note of within the last 30 s; one also came within them if and only if the step asks a control address, or takes a success that came within them, or one was known before the step. |
| MonitorSafety.PromptAnswers | server/internal/monitor/monitor.go:832-942 | Where every answer is taken within a delay, a counted failure has one not older than 30 s and that delay. |
| LateAnswers.BoundIsReached | server/internal/monitor/monitor.go:832-942 | For every delay, a run in which a failure is counted, every answer was taken with that delay, and all are 30 s and that delay old, less the least unit: the bound of PromptAnswers is tight. |
| LateAnswers.LateAnswerCounts | server/internal/monitor/monitor.go:832-874 | For every delay, a run in which a failure is counted on an answer as old and nothing newer. |
| MonitorSafety.PauseHoldsStatuses | server/internal/monitor/monitor.go:264-310 | From the guard finding the WAN down until it is back, through any endpoint lists, exactly those statuses, Fails and pauses change that a list changes; an endpoint every list leaves keeps them throughout. |
| MonitorRuns.ListHoldsIff | server/internal/monitor/monitor.go:371-435 | A list leaves an endpoint if and only if it lists it and does not take a rejection back, or refuses it again. |
| MonitorRuns.SameRevisionsQuiet | server/internal/monitor/evidence.go:174-227 | Equal generation and revisions at two times of a run mean that nothing was resolved and no epoch ended between them. |
| MonitorRuns.StepAdvances | server/internal/monitor/monitor.go:371-435 | Every way of replacing an entry or a session advances a revision or the generation. |
| MonitorRuns.StepKeeps | server/internal/monitor/monitor.go:748-889 | Every step keeps the invariant of workers, results, held failures and proofs. |
| MonitorObject.EntryObject.Succeed | server/internal/monitor/entry.go:53-72 | The transition of a success; reports a change of status. |
| MonitorObject.EntryObject.Fail | server/internal/monitor/entry.go:77-97 | The transition of a counted failure; reports a change of status. |
| MonitorObject.EntryObject.Reject | server/internal/monitor/entry.go:101-120 | The transition of a rejection. |
| MonitorState.MergeTells | server/internal/monitor/monitor.go:371-435 | A listed endpoint keeps its entry, or has the status, pause and stickiness saved of it, or none; one refused before and not sticky starts anew; one refused now is rejected with nothing asked for; the generation moves exactly if the list is another one. |
| MonitorState.QueueTells | server/internal/monitor/monitor.go:228-260 | Which entries a request marks, and how. |
| MonitorState.RegisterTells | server/internal/monitor/evidence.go:60-75 | A request for evidence asks for a check that starts after it. |
| MonitorState.RejectTells | server/internal/monitor/monitor.go:617-635 | A rejection sticks, ends what is asked for or under way, and voids evidence if the endpoint could be checked. |
| MonitorState.ReassessTells | server/internal/monitor/monitor.go:341-360 | Exactly the rejections of earlier processes are taken back. |
| MonitorState.StopTells | server/internal/monitor/monitor.go:650-665 | Nothing is under way or held back without a session, and no evidence stands. |
| MonitorState.SuccessTells | server/internal/monitor/monitor.go:832-910 | A success makes its endpoint alive and due at the next time, answers what was asked for before, and counts every failure held back. |
| MonitorState.FailureTells | server/internal/monitor/monitor.go:832-942 | A failure is counted, with twice the pause up to the limit, exactly if something answered within the window, and is held back otherwise. |
| MonitorState.EvidenceStands | server/internal/monitor/evidence.go:117-217 | Evidence taken of one state validates in another if and only if the monitor answers in both, in one epoch, and each key asked for was taken and is proved in both by the same check or rejection. |
| MonitorObject.PauseDoubles | server/internal/monitor/entry.go:77-97 | After n failures in a row the pause is 2^n intervals, up to the limit. |
| MonitorObject.StatusTells | server/internal/monitor/entry.go:53-97 | After any checks of which the last k failed: Fails is k, the pause that of k failures, dead since the first of them, the latency that of the success before. |
| MonitorObject.PublishLoop | server/internal/monitor/monitor.go:898-910 | Each held failure is counted once, for the entry that still is of its session. |
| MonitorObject.MergeListed | server/internal/monitor/monitor.go:375-398 | The listed endpoints: kept, replaced, restored or new. |
| MonitorObject.MergeRefused | server/internal/monitor/monitor.go:399-414 | The refused endpoints; the identity changes iff one is newly refused. |
| MonitorObject.EvidenceRecords | server/internal/monitor/evidence.go:174-217 | The records evidence holds. |
| MonitorObject.AllProved | server/internal/monitor/evidence.go:126-139 | Says exactly whether every key has the record it had. |
| MonitorObject.AllAnswered | server/internal/monitor/evidence.go:91-101 | Says exactly whether every key is answered since the call. |
| MonitorObject.MarkListed | server/internal/monitor/monitor.go:249-253 | The loop over a list of keys marks each that is there, and counts them, one named twice twice. |
| MonitorObject.CollectDue | server/internal/monitor/monitor.go:748-771 | The due keys, each once, by urgency, due time and position; and how many checks are under way. |
| MonitorObject.Monitor.InvalidateEvidence | server/internal/monitor/evidence.go:221-227 | A new generation; no follow-up survives it. |
| MonitorObject.Monitor.PublishPending | server/internal/monitor/monitor.go:898-910 | The held failures are counted and none is held. |
| MonitorObject.Monitor.DiscardPending | server/internal/monitor/monitor.go:913-918 | The held failures are forgotten. |
| MonitorObject.Monitor.SetState | server/internal/monitor/monitor.go:676-691 | A change of state is a new generation; a new message alone is none. |
| MonitorObject.Monitor.StopSession | server/internal/monitor/monitor.go:650-665 | No session, nothing in flight, held or recent, a new generation. |
| MonitorObject.Monitor.RejectKey | server/internal/monitor/monitor.go:617-635 | The endpoint is rejected by this process. |
| MonitorObject.Monitor.ReassessRejected | server/internal/monitor/monitor.go:341-360 | Rejections of earlier processes are taken back. |
| MonitorObject.Monitor.Merge | server/internal/monitor/monitor.go:371-435 | The new entries, order and generation of an endpoint list. |
| MonitorObject.Monitor.WANEvidence | server/internal/monitor/monitor.go:932-942 | An answer within the window. |
| MonitorObject.Monitor.GuardDue | server/internal/monitor/monitor.go:960-978 | Enough checks in the window, all failed, no control answered in it: exactly then. |
| MonitorObject.Monitor.Apply | server/internal/monitor/monitor.go:832-874 | A result is dropped, counted or held; exactly when the guard is asked. |
| MonitorObject.Monitor.Guard | server/internal/monitor/monitor.go:982-1001 | Up, held failures are counted; down, they are forgotten and the monitor pauses. |
| MonitorObject.Monitor.Dispatch | server/internal/monitor/monitor.go:748-790 | Exactly the checks asked for or due run or wait; those asked for go first, then those due longest, then in Build order, to the free workers; none waits while a worker is free, and the lag is that of the first that waits. |
| MonitorObject.Monitor.Queue | server/internal/monitor/monitor.go:228-260 | Refused where nothing is checked; else marks what is named, or everything, and counts it. |
| MonitorObject.Monitor.EvidenceKeys | server/internal/monitor/evidence.go:155-171 | Each key once; none asks for all. |
| MonitorObject.Monitor.Register | server/internal/monitor/evidence.go:44-75 | Which request is registered or why not, what it marks, and the evidence it has then. |
| MonitorObject.Monitor.TakeEvidence | server/internal/monitor/evidence.go:174-196 | The evidence of this moment. |
| MonitorObject.Monitor.ValidateEvidence | server/internal/monitor/evidence.go:117-140 | Accepts exactly evidence that is still true. |
| EndpointList.BuildList | server/internal/monitor/endpoints.go:25-71 | Every key of every copy is listed or refused, never both and once, by the first copy with it; the active server's endpoints come first. These are the lists merge is given. |
| EndpointList.ActiveKeys | server/internal/monitor/endpoints.go:28-45 | The keys of the active server's copies. |
| Prober.Bisect | server/internal/monitor/monitor.go:562-600 | Whatever Xray answers, a key returned was refused alone; if a set is refused iff it holds a bad endpoint, a refused set yields one; within log2 n + 2 tests. |
| Prober.HalvingsIsLog | server/internal/monitor/monitor.go:562-600 | The bound is the logarithm, rounded up. |
| Prober.CollectCheckable | server/internal/monitor/monitor.go:455-465 | The endpoints not rejected, in order. |
| Prober.RejectedLeaves | server/internal/monitor/monitor.go:607-635 | Rejecting an endpoint takes it, and only it, out of the checkable set. |
| Prober.Sessions.EnsureSession | server/internal/monitor/monitor.go:479-557 | Terminates; rejects at most 20 endpoints; a session it takes holds exactly the checkable set. |
| Prober.Sessions.StartLoop | server/internal/monitor/monitor.go:499-556 | The attempts of it. |
| Fence.FenceIsExact | server/internal/subwatch/watch.go:850-951 | After any run of selections, saved or not, refreshes that rename, and the watch's own writes, the watch is refused if and only if a selection was recorded since it last read or wrote, or the record bears another name than it read or wrote. |
| Fence.RefusedBySelectionOnly | server/internal/subwatch/watch.go:926-951 | Where no refresh renames the record, exactly by a recorded selection. |
| Fence.RenameRefuses | server/internal/vpnconfig/refresh.go:236-273 | A run in which nobody selects anything and a rename gets the watch refused. |
| Fence.SelectionStands | server/internal/subwatch/watch.go:850-951 | A recorded selection is never written over until the watch reads the config again, whatever happens but another selection. |
| Fence.SelectionKeptIff | server/internal/subwatch/watch.go:926-951 | A selection made under the watch survives its next write if and only if its record was saved. |
| Fence.LostSelection | server/internal/service/activeserver.go:79-99 | A concrete run in which a selection whose record did not save is written over. |
| Fence.RecordNamesRunning | server/internal/service/activeserver.go:79-99 | After every transaction whose record saved, config.json and the record name one server, under whatever name a refresh has given it; by one name where none has. |
| Fence.ChoiceIsKept | server/internal/vpnconfig/vpnconfig.go:237-248 | Through any number of the watch's writes the config knows the user's choice. |
| Fence.SelectionChooses | server/internal/vpnconfig/vpnconfig.go:223-227 | A recorded selection makes its own choice, whatever was kept. |
| Fence.Switcher.SwitchTo | server/internal/subwatch/return.go:345-395 | Files and bookkeeping after each outcome are those of a step of the run; live, ended and gone each exactly when. |
| Servers.Files.RecordGenerated | server/internal/service/activeserver.go:79-99 | Both files written, the first only, or none; the counter of the record left behind; a selection clears preferred, another server puts the choice aside there, and a write back to the choice clears it. |
| Servers.ChosenIndex | server/internal/subwatch/watch.go:786-812 | The first of the entries of the record's subscription, name and kind that are nearest to it: at its address rather than elsewhere, and of those with its mark rather than without; none if there is no such entry. |
| WalkOrder.Order | server/internal/subwatch/order.go:21-60 | A permutation of all servers; led by the chosen entry and its subscription's first 3; the rest dealt fairly in every prefix. |
| WalkOrder.DealRounds | server/internal/subwatch/order.go:47-58 | The rounds terminate, deal everything, and are fair in every prefix. |
| WalkOrder.DealtIsAll | server/internal/subwatch/order.go:47-58 | Dealing until nothing is left is a permutation. |
| WalkOrder.MakeQueues | server/internal/subwatch/order.go:25-37 | The queues, and the first subscription of the chosen server. |
| WalkOrder.PickedSame | server/internal/subwatch/watch.go:815-824 | Putting the chosen first is a permutation. |
| WalkOrder.PickedLeads | server/internal/subwatch/watch.go:815-824 | The chosen leads and the others keep their order. |
| Walk.OrderBest | server/internal/subwatch/best.go:52-98 | Exactly the copies not rejected, each once: live before others; of live ones the reference group, then the reference subscription, then the lower latency first; of others the reference group first; all else as it came. |
| Walk.WalkLoop | server/internal/subwatch/watch.go:1141-1260 | Terminates under any evidence; each try is a best one of that round; no non-empty dial key is written twice; exhausted, every copy is done with or rejected; and why it ended. |
| Walk.Filter | server/internal/subwatch/watch.go:1149-1160 | Drops exactly the copies of deleted subscriptions and of written servers. |
| Walk.TakeOut | server/internal/subwatch/watch.go:1170-1175 | Takes out one entry that is the same as the one tried. |
| Walk.CopiesAre | server/internal/endpoint/endpoint.go:30-47 | The copies of a server are it at each of its non-empty addresses. |
| Walk.PerAddress | server/internal/endpoint/endpoint.go:30-47 | The loop gives the copies of all servers in order. |
| Entries.XrayEntry | server/internal/subscription/xrayjson.go:71-173 | The answer to every config, by the first test that fails; an accepted one has exactly one proxy outbound, and what is stored, as Xray reads its keys, speaks one of five protocols, goes to one server through no other outbound, with all its reality stream needs, without a tag or a source address, and is safe. |
| Entries.StoredGoes | server/internal/subscription/xrayjson.go:103-171 | The passes change none of the answers to those questions. |
| Entries.DialsOnIff | server/internal/subscription/text.go:305-328 | The search says whether an object at any depth has a socket that names an outbound. |
| Entries.InsecureIff | server/internal/subscription/text.go:364-391 | The search says whether a TLS stream it still sees takes any certificate. |
| Entries.MisspelledIff | server/internal/subscription/text.go:181-209 | The keys are clean exactly if none outside headers folds to a guarded name it is not. |
| Sanitizers.StoredIsSafe | server/internal/subscription/xrayjson.go:103-171 | At any depth outside headers, under folded keys: no routing key or dialerProxy name in a socket, no key log, no allowInsecure in a tls stream. |
| Sanitizers.StoredHolds | server/internal/subscription/xrayjson.go:103-171 | Each law an earlier pass establishes outlives the later passes. |
| Sanitizers.ExactIsEnough | server/internal/subscription/text.go:181-221 | Where no key is misspelled, what holds under exact lookup holds under folded lookup. |
| Sanitizers.ShrinkKeeps | server/internal/subscription/text.go:275-391 | A pass that only deletes keys breaks no law. |
| Sanitizers.ScrubTwice | server/internal/subscription/text.go:275-299 | scrubSockopt is idempotent. |
| Sanitizers.ScrubUnroutes | server/internal/subscription/text.go:275-299 | It leaves no routing key in a socket. |
| Sanitizers.DropKeyLogDrops | server/internal/subscription/text.go:336-352 | It leaves no masterKeyLog. |
| Sanitizers.SanitizeSecures | server/internal/subscription/text.go:364-391 | It leaves no allowInsecure in a tls stream. |
| Sanitizers.LowerLowers | server/internal/subscription/text.go:231-249 | Every security and network it leaves is lower case. |
| Sanitizers.NoProxyEverywhere | server/internal/subscription/text.go:305-328 | What it reports clean names no dialerProxy at any depth. |
| DialerKeys.DialerKeyStaysIff | server/internal/subscription/text.go:305-328 | An accepted entry is stored with a dialerProxy key in a sockopt or echSockopt, at any depth outside headers and as Xray reads keys, if and only if it came with one that lies under no key the passes delete. |
| DialerKeys.KeptIsThere | server/internal/subscription/text.go:305-328 | Nothing is stored with one that came without. |
| DialerKeys.PassKeeps | server/internal/subscription/text.go:275-391 | Each deleting pass takes what its own keys hold and moves nothing else. |
| DialerKeys.EmptyDialerStays | server/internal/subscription/text.go:305-328 | Two whole configs that are accepted and keep an empty one, in the stream's socket and in that of its ECH query. |
| DialerKeys.DialerGoes | server/internal/subscription/xrayjson.go:164-169 | A whole config that is accepted and loses one, under its tag. |
| Sanitizers.KeyCase | server/internal/subscription/text.go:181-188 | The first in order of the keys, outside headers, that fold to a guarded name they are not, and that name; none if and only if all are spelled right. |
| Sanitizers.Miscased | server/internal/subscription/text.go:192-209 | The loop finds exactly those keys. |
| Sanitizers.FindDialerProxy | server/internal/subscription/text.go:305-328 | The search says exactly whether one is there. |
| Sanitizers.FindInsecure | server/internal/subscription/text.go:364-391 | Reports exactly an insecure tls stream without a pinned certificate, but those under an allowInsecure that is deleted first. |
| Sanitizers.DeletedFirst | server/internal/subscription/text.go:364-391 | A tree with such a stream that is not reported. |
| Sanitizers.LowerStreamNames | server/internal/subscription/text.go:231-249 | The loop lowers what the value function lowers. |
| Sanitizers.RunPass | server/internal/subscription/text.go:275-391 | The three deleting loops do what the value functions do. |
| FoldedNames.FoldsTo | server/internal/subscription/text.go:214-221 | The first guarded name a key folds to, or none. |
| FoldedNames.NamesDiffer | server/internal/subscription/text.go:161-168 | No two guarded names fold alike. |
| FoldedNames.FoldsToName | server/internal/subscription/text.go:214-221 | A key is read as a guarded name iff it folds to it. |
| FoldedNames.ExactIsFolded | server/internal/subscription/text.go:181-221 | Of keys spelled right only the name itself folds to it. |
| Tail.Output.Write | server/internal/monitor/process.go:30-67 | Keeps as many last lines as fit of what was kept and what came; nothing before a cut unfinished line survives. |
| Tail.Output.String | server/internal/monitor/process.go:70-78 | What is kept less one final newline, within 64 KiB. |
| Tail.FitIsSuffix | server/internal/monitor/process.go:30-67 | What fits is a contiguous end of the text. |
| Tail.TextIsSuffix | server/internal/monitor/process.go:30-67 | So the output stays a suffix of everything written. |
| Tail.FitLines | server/internal/monitor/process.go:56-65 | The most last lines that fit beside the unfinished one. |
| TextBlocks.NotificationBlock | server/internal/bot/notification_text.go:28-44 | The first chunk of the runes, found on the bytes, cut at a rune boundary. |
| TextBlocks.Blocks | server/internal/bot/notifications.go:334-356 | Terminates; the blocks join to the text; each is a chunk of at most 4000 runes; on valid UTF-8 they are what SendLongPlain sends. |
| TextBlocks.SendLongPlain | server/internal/telegram/sender.go:68-93 | Sends the encoded chunks of the rune slice, all of them or up to the first that fails. |
| TextBlocks.LastIndexRune | server/internal/telegram/sender.go:95-102 | The last place of a rune, or none. |
| TextBlocks.CutRunes | server/internal/bot/notification_text.go:28-44 | Cut at a rune boundary, bytes decode to the runes before and after. |
| TextBlocks.ChunkEnds | server/internal/telegram/sender.go:72-86 | A chunk is all that is left if it fits; else it ends after the last newline of its second half, or at 4000 runes. |
| TextBlocks.RoundTrip | server/internal/telegram/sender.go:68-93 | Encoding the runes of valid text gives the text back. |
| TextBlocks.DecodesBack | server/internal/telegram/sender.go:68-93 | Encoding any Unicode scalar values and decoding gives them back. |

## Left out

- NotificationStore.Store.Drain: that each text it gives an ID joins the queues is stated of PublishAt, which it calls for each.
- NotificationStore.Store.ReplaceRecipients: where texts wait, the save also drains them into the queues it has made; what is in them then is stated by Drain and ReplaceSection one by one.
- NotificationStore.Store.Ack: where texts wait, the same; that the event is gone and all is saved is stated there too.
- NotificationStore.Store.ObserveSubscriptions: the retries of the lease run alone here, so they see no change in between.
- NotificationStore.Store.constructor: takes a file that a store wrote, or a missing or damaged one; valid files nobody wrote are covered by ValidSavedState only.
- MonitorObject.Monitor.Merge: takes lists with one endpoint to a key and no key both listed and refused, as BuildList gives them; so do MergeListed and MergeRefused.
- MonitorObject.MergeListed: see Merge.
- MonitorObject.MergeRefused: see Merge.
- Fence.FenceIsExact: a refresh may give a record any name; which server of the fresh list that is (RecordedIndex, pairServers) is not modelled, nor is the record of a pending restore.
- Tail.Output.Write: the capacity of its buffers is not modelled.
- Walk.WalkLoop: restarting, probing and announcing after a write are one answer of a parameter; the return to the preferred server and the back-off after the loop are not there.
- Sanitizers.RunPass: works on values, so objects shared between two places of one tree are not captured. What sanitizeTLS leaves of a tree is the same whether it deletes before or after it goes down; what it reports is not, and FindInsecure reports as it does.
- Calls of the class methods follow one another; the interleaving of their sections is in the modules of runs.
- Bytes of the file: encoding is the identity; writing, renaming and syncing are one outcome that is done, failed, or done and reported failed. The file mode, whose correction also bumps the revision, backups, Status and the error texts are not there.
- Fresh epochs are ones no process generated and no caller named before; the random draw may fail.
- Times are integers; of the counters only the 64-bit sequence is bounded.
- How a subscription health record is encoded; what decodes is a Boolean, the rest is kept as it came.
- The monitor's settings, probes, launcher, dialing of control addresses and what Xray answers are parameters; jitter is any next time.
- The search for a crashing endpoint after a session died (isolate, crashesAlone) and saving the monitor's own state.
- How the generator makes an outbound of a server, and labels.
- What a copy dials and its endpoint key are functions given as parameters; so are identity marks.
- The fast path, the keeper, the return to the preferred server beyond its write, the restore protocol and failover staging.
- The address and port of an entry (OutboundTarget, jsonPort) are one test given as a parameter; names, labels and share links.
- Case folding of letters that no guarded name holds.
- The sort functions of the library are insertion sorts here: the result is proved, not their cost.
- Telegram, the Web UI, logging and authentication.
