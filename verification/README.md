# SynapseHub: message log, scheduler, invites and channels, verified

This project models the parts of SynapseHub that share one database and are run by many clients
and several replicas at once, and proves what every interleaving keeps. It has six parts.

* **The message log.** A message's sequence number is the channel's maximum plus one, read first
  and inserted later under a unique key, with up to 6 attempts in the messaging service and 5 in
  the bots service. Modules `MessageLog` and `LogTheorems`; the loops themselves in `Services`.
* **Threads and scheduled messages.** Requests that create threads, reply, schedule and cancel, and
  the dispatcher of every replica, all over one `World`. Modules `Messaging`, `MessagingInvariant`,
  `ThreadTheorems`, `SchedulerTheorems`, `FailedRows`, `DeliveryOrder`; the polling tick in `Dispatcher`.
  `WorldLog` carries the log's theorems over to this world; `Requests` says what single requests do.
* **Reading and showing the log.** Cursor pages while others write (`History`), and the web client's
  fold of events into a sorted list, its timeline and reply counts (`ClientView`).
* **Mentions.** The client's context finder and inserter, the handle builder, and the server's
  parser and notifications (`Mentions`).
* **Invite links.** Stale pre-checks followed by a reserve/member/acceptance transaction that rolls
  back (`Invites`, `InviteTheorems`); the request itself in `InviteService`.
* **Direct channels.** Find-or-create under a unique canonical name (`DirectChannels`); theorems and
  the request itself in `DirectChannelService`.

How it is modelled. One database call (and the accept transaction, with its rollback) is one atomic
step of a total function `Step`; what the code does between two calls is a program counter. An
arbitrary list of actions is an arbitrary interleaving, because an action that is not enabled changes
nothing. Theorems about runs are stated for every reachable state or every list of actions. The
loops and objects that the source updates in place are classes and methods that perform these steps
one by one; before each of them `Others` lets everybody else do any number of steps, and the methods'
postconditions are proved under that interference. Some methods also say what they do when
the database is `quiet`: for the dispatcher, while nobody else schedules, cancels or dispatches and
its own round trips between deliveries do not fail (messages are written and the clock moves on);
for creating and revoking links, while nobody else moves. What goes wrong from outside is counted by the database classes: round trips that fail, generated ids
that are taken, deliveries that are turned away. A method that gives up has to point to such a count
or to what others did meanwhile. A few fields record history only (`began`, `lost`,
`collisions`, `call`, `origin`, `asOf`); no step reads them, except that `lost` and `collisions` are
appended to when an insert fails.

What the code does that its callers might not expect. Each is stated exactly below, and a run or an
input that shows it is given beside the condition:

* a cancel keeps a message from being sent exactly when the row is not being delivered
  (`CancelIsFinalIffNotInDelivery`; `CancelDuringDelivery` is a canceled row that can still be sent);
* a row ends FAILED with its message stored exactly when the delivery failed behind the insert
  (`FailureLeavesMessage`, `FailedIsFinal`; `FailedWithMessage`);
* a link can gain an acceptance after it expired (`GainAfterExpiryIff`; `LateAcceptance`);
* a repeated accept on a used-up link is refused (`RepeatNeedsRoom`; `RefusedRepeat`);
* a built handle longer than 64 characters or ending in `.` or `-` is never parsed back
  (`ReadBackIff`; `UnreadableNames`);
* the client's updated and deleted handlers do not look at the channel (`ViewStaysInChannel`;
  `ForeignEditShows`);
* an ordinary channel can take a direct channel's name for good (`GotUnlessNameTaken`;
  `NameTakenFirst`).

## Model

| member | source | states |
|---|---|---|
| MessageLog.LatestIsMaximum | services/workspace-service/src/bots/bots.service.ts:236-244 | the number read is the channel's maximum, or 0 for an empty channel |
| MessageLog.ConflictIsByTarget | services/messaging-service/src/messaging/messaging.service.ts:943-962 | a sequence conflict is a unique violation whose target names both columns, as a list or inside a text, or is missing; the bots service takes every unique violation |
| MessageLog.Classification | services/messaging-service/src/messaging/messaging.service.ts:931-936 | so a taken sequence is retried by both services, a taken id only by the bots service |
| LogTheorems.SequencesAreDense | packages/shared/prisma/schema.prisma:282 | in every reachable state the sequences of a channel are exactly 1..n, in commit order |
| LogTheorems.ReturnedIffAppended | services/messaging-service/src/messaging/messaging.service.ts:911-940 | a call has returned iff it stored a row, then exactly one, with its own input |
| LogTheorems.ConflictsAreCharged | services/messaging-service/src/messaging/messaging.service.ts:931-936 | the numbers any call lost, however it ends, were stored after it began by as many pairwise distinct other calls, the i-th by the i-th |
| LogTheorems.BudgetSuffices | services/messaging-service/src/messaging/messaging.service.ts:911-940 | with at most 6 calls on the channel (5 for bots) no call runs out of attempts |
| LogTheorems.ExhaustionMeansContention | services/workspace-service/src/bots/bots.service.ts:212-233 | a call that ran out saw at least its budget of rows by others committed since it began |
| LogTheorems.BudgetIsTight | services/workspace-service/src/bots/bots.service.ts:203-233 | one call more than the budget can make a call run out: the bound is exact |
| LogTheorems.StepRefinesAppend | services/messaging-service/src/messaging/messaging.service.ts:919-930 | every step is a stutter or exactly one atomic append, answered with the entry's position |
| LogTheorems.CommitOrderIsSequenceOrder | services/messaging-service/src/messaging/messaging.service.ts:912-930 | within a channel, row i was committed before row j iff its sequence is smaller |
| LogTheorems.RealTimeOrder | services/messaging-service/src/messaging/messaging.service.ts:903-941 | a message stored before another call began on the channel has the smaller sequence and stays |
| WorldLog.LogIsReached | services/messaging-service/src/messaging/messaging.service.ts:903-941 | the log of every reachable world, with clients, bots and deliveries, is one the log machine reaches |
| WorldLog.WorldIsDense | packages/shared/prisma/schema.prisma:282 | so in every reachable world a channel's sequences are exactly 1..n |
| WorldLog.WorldBudget | services/workspace-service/src/bots/bots.service.ts:203-234 | a call of anybody that ran out had at least as many other calls beside it, and saw as many foreign rows, as its budget, less one for each taken id, which only bots retry |
| WorldLog.WorldRows | services/messaging-service/src/messaging/messaging.service.ts:911-940 | in every reachable world a call has returned iff one row is its own |
| WorldLog.WorldRealTime | services/messaging-service/src/messaging/messaging.service.ts:903-941 | in every continuation of a reachable world a message stored before another call began on its channel has the smaller sequence |
| Services.Database.Others | infrastructure/kubernetes/synapsehub.yaml:463 | any number of steps of other clients and replicas, and what survives them |
| Services.CreateMessageWithSequence | services/messaging-service/src/messaging/messaging.service.ts:903-941 | the loop, run among others: its answer is the row at its position in the log, or an error and no row; a foreign error iff a round trip failed, a taken id iff one was generated, and otherwise it gives up only after six foreign rows |
| Services.CreateBotMessageWithRetry | services/workspace-service/src/bots/bots.service.ts:203-234 | the bots loop, run among others: the row or the last error; a foreign error iff a round trip failed, otherwise only after five foreign rows or taken ids; the statement after the loop is never reached |
| Services.TryOnce | services/messaging-service/src/messaging/messaging.service.ts:912-936 | one attempt: the row, or the one error that the database has counted or the taken sequence |
| ThreadTheorems.ForestHasDepthOne | services/messaging-service/src/messaging/messaging.service.ts:58-76 | in every reachable state threadId is set iff parentMessageId is, the parent is the thread's root in the channel, and no root is a reply |
| ThreadTheorems.OpenedThread | services/messaging-service/src/messaging/messaging.service.ts:307-357 | createThread answers with the stored thread of its source's canonical root |
| ThreadTheorems.ThreadsAreCanonical | packages/shared/prisma/schema.prisma:293 | two createThread calls get the same thread iff their sources have the same root |
| ThreadTheorems.AnswersLast | services/messaging-service/src/messaging/messaging.service.ts:340-357 | a thread once answered stays in every continuation |
| ThreadTheorems.NeverRefused | services/messaging-service/src/messaging/messaging.service.ts:307-357 | a request whose source is stored in its channel is never refused, whoever moves in between, and is answered after as many turns as it has round trips left |
| ThreadTheorems.RefusedIffNoSource | services/messaging-service/src/messaging/messaging.service.ts:307-323 | the first look refuses a request iff no message of the channel is its source |
| ThreadTheorems.FourStepsOpen | services/messaging-service/src/messaging/messaging.service.ts:307-357 | left alone it is answered in four steps |
| Requests.RequestBegins | services/messaging-service/src/messaging/messaging.service.ts:58-76 | a send, a reply or a bot's send begins iff it has content and its thread is one of the channel, with author, channel, trimmed content and thread as asked |
| Requests.StoredAsAsked | services/messaging-service/src/messaging/messaging.service.ts:360-389 | whatever others do, the message it stores is the one that was asked for |
| Requests.RequestAlone | services/workspace-service/src/bots/bots.service.ts:108-136 | left alone it stores that message as the next of the channel |
| SchedulerTheorems.ClaimedAtMostOnce | services/messaging-service/src/messaging/messaging.service.ts:804-816 | over any run of any replicas a row is claimed at most once |
| SchedulerTheorems.PendingWasNeverClaimed | services/messaging-service/src/messaging/messaging.service.ts:804-816 | a row PENDING at the end of a run was not claimed in it |
| SchedulerTheorems.AtMostOneMessage | services/messaging-service/src/messaging/messaging.service.ts:843-901 | at most one stored message belongs to a row, dead replicas and racing cancels included |
| SchedulerTheorems.DeliveredAsScheduled | services/messaging-service/src/messaging/messaging.service.ts:791-801 | it has the row's channel, author, content and thread, and is not earlier than sendAt |
| SchedulerTheorems.SentMessageIsOwn | packages/shared/prisma/schema.prisma:407 | sentMessageId names the row's own stored message; no two rows share one |
| SchedulerTheorems.PendingMeansUntouched | services/messaging-service/src/messaging/messaging.service.ts:690-701 | PENDING: not held by a replica, no delivery begun, no message, no sentMessageId |
| Requests.ScheduleAlone | services/messaging-service/src/messaging/messaging.service.ts:666-702 | a schedule stores one PENDING row with author, channel, trimmed content, time and thread as asked iff it has content, five seconds of lead and a thread of the channel; otherwise nothing |
| SchedulerTheorems.SentMeansStored | services/messaging-service/src/messaging/messaging.service.ts:819-827 | SENT: sentMessageId is set and names a stored message of the row |
| Requests.CanceledWasAsked | services/messaging-service/src/messaging/messaging.service.ts:747-773 | in every run a row is CANCELED only if its own author asked for it while it was neither SENT nor CANCELED |
| Requests.CancelAlone | services/messaging-service/src/messaging/messaging.service.ts:747-782 | left alone, a cancel cancels exactly such a row and changes nothing else; anybody else's changes nothing |
| SchedulerTheorems.CancelOfPendingIsFinal | services/messaging-service/src/messaging/messaging.service.ts:747-782 | a cancel that lands on PENDING keeps the row CANCELED and undelivered in every continuation |
| SchedulerTheorems.CancelIsFinalIffNotInDelivery | services/messaging-service/src/messaging/messaging.service.ts:775-781 | the unconditional cancel prevents the message in every continuation iff the row is not in delivery |
| SchedulerTheorems.PendingNotInDelivery | services/messaging-service/src/messaging/messaging.service.ts:747-755 | a PENDING row is not in delivery |
| Scenarios.CancelDuringDelivery | services/messaging-service/src/messaging/messaging.service.ts:747-782 | a reachable state with a cancel under way whose write leaves a message that can still be sent |
| FailedRows.FailureLeavesMessage | services/messaging-service/src/messaging/messaging.service.ts:816-836 | a delivery that fails leaves its message stored iff it fails in the notifications or in the SENT update |
| FailedRows.FailedIsFinal | services/messaging-service/src/messaging/messaging.service.ts:828-836 | a FAILED row has a message iff its call returned, and no continuation changes that |
| Scenarios.FailedWithMessage | services/messaging-service/src/messaging/messaging.service.ts:881-899 | a run that ends with a FAILED row whose message is in the channel |
| Scenarios.NotifiedButNotMarked | services/messaging-service/src/messaging/messaging.service.ts:817-827 | a run to a replica about to write SENT, where that update can throw |
| DeliveryOrder.DeliveriesInSendAtOrder | services/messaging-service/src/messaging/messaging.service.ts:784-841 | with one dispatching replica and timely creates, deliveries of a whole run are in sendAt order |
| DeliveryOrder.SequencesRespectSendAt | services/messaging-service/src/messaging/messaging.service.ts:791-801 | so within a channel sequence order never contradicts sendAt |
| DeliveryOrder.LeadMakesCreateSteady | services/messaging-service/src/messaging/messaging.service.ts:684-701 | the five-second lead makes a create timely if it commits within five seconds of its check |
| Dispatcher.MessagingService.FindDue | services/messaging-service/src/messaging/messaging.service.ts:791-801 | the due PENDING rows, earliest first, at most 20, and all of them if fewer; or the failure of the query |
| Dispatcher.MessagingService.ClaimRow | services/messaging-service/src/messaging/messaging.service.ts:804-816 | the claim succeeds iff the row is still PENDING and touches only that row |
| Dispatcher.MessagingService.DeliverScheduledMessage | services/messaging-service/src/messaging/messaging.service.ts:843-901 | delivery among others comes back with a stored message to mark iff nothing goes wrong and the allocation does not give up; it writes no scheduled row itself |
| Dispatcher.MessagingService.SettleRow | services/messaging-service/src/messaging/messaging.service.ts:816-836 | a claimed row ends SENT and naming its own stored message, or FAILED, and then something went wrong in its delivery or its allocation gave up |
| Dispatcher.MessagingService.CloseRow | services/messaging-service/src/messaging/messaging.service.ts:818-836 | the row becomes SENT with the message's id unless that update fails, which it never does when quiet; otherwise FAILED; whatever its status was |
| Dispatcher.MessagingService.ProcessDueScheduledMessages | services/messaging-service/src/messaging/messaging.service.ts:784-841 | a tick during a tick does nothing; any other leaves the flag clear, also when the query or a later round trip fails, and when the database is quiet closes exactly the batch due when it looked: SENT, unless something went wrong or an allocation gave up |
| Dispatcher.NeverSentTwice | packages/shared/prisma/schema.prisma:407 | the unique sentMessageId never refuses the SENT update |
| Dispatcher.FailedThoughStored | services/messaging-service/src/messaging/messaging.service.ts:816-836 | notifications or a SENT update that throw leave the row FAILED with its message stored, the only one it ever gets |
| Dispatcher.BatchTakes | services/messaging-service/src/messaging/messaging.service.ts:791-801 | a batch takes exactly min(20, n) of the n rows that were due at any earlier time |
| Dispatcher.TickDrains | services/messaging-service/src/messaging/messaging.service.ts:784-841 | a quiet tick closes exactly min(20, n) of the n rows still PENDING of those due at any time before it, while the clock moves, and changes only due rows |
| Dispatcher.TicksDrain | services/messaging-service/src/messaging/messaging.service.ts:784-841 | after n quiet ticks at any times max(0, d - 20n) of the d rows due at the start are left, the others settled |
| Dispatcher.AllSettledAfter | services/messaging-service/src/messaging/messaging.service.ts:784-841 | these d rows are all closed iff at least ceil(d/20) ticks have passed: SENT and naming their own messages, unless something went wrong or an allocation gave up |
| Dispatcher.RunTicks | services/messaging-service/src/messaging/messaging.service.ts:784-841 | the timer's ticks themselves, with time passing inside and between them, leave exactly max(0, d - 20n) of the d rows due at the start |
| History.InSequenceIsLog | services/messaging-service/src/messaging/messaging.service.ts:118 | the order by sequence and creation time is commit order |
| History.NormalizeLimit | services/messaging-service/src/messaging/messaging.service.ts:1155-1160 | a finite limit ends up between 1 and the maximum, unchanged if it was; any other is the fallback |
| History.NextPage | services/messaging-service/src/messaging/messaging.service.ts:110-138 | one page is a stretch of the log; its cursor is null iff the page reaches the end short |
| History.UnknownCursor | services/messaging-service/src/messaging/messaging.service.ts:116 | a cursor that names no row of the channel gets an empty last page |
| History.WalkReadsPrefix | services/messaging-service/src/messaging/messaging.service.ts:110-138 | following cursors over a growing table always yields a prefix of the log; all of it when the cursor is null |
| History.ConcurrentWalk | services/messaging-service/src/messaging/messaging.service.ts:110-138 | the same for a reader among arbitrary other clients |
| History.QuietWalkEnds | services/messaging-service/src/messaging/messaging.service.ts:132-137 | once appends stop the walk ends with the rest of the log |
| History.QuietWalkPages | services/messaging-service/src/messaging/messaging.service.ts:132-137 | it reads one page more than the full ones |
| Ordering.SortIsSorted | apps/web/app/messages/page.tsx:776-785 | the sort returns the same messages in order |
| Ordering.SortIsStable | apps/web/app/messages/page.tsx:776-785 | messages with equal keys stay in their order |
| Ordering.StableSortIsTheOne | apps/web/app/messages/page.tsx:776-785 | the sort is the one sorted, stable rearrangement of its input |
| Ordering.SortOfSorted | apps/web/app/messages/page.tsx:776-785 | a sorted list is left as it is |
| ClientView.MessagesPage.UpsertMessage | apps/web/app/messages/page.tsx:787-796 | replaces the message with the id, or adds it, and sorts |
| ClientView.MessagesPage.OnEvents | apps/web/app/messages/page.tsx:210-232 | the state after a stream of events is the fold of the handlers |
| ClientView.MessagesPage.Load | apps/web/app/messages/page.tsx:164 | the list becomes the loaded messages in order, ties as they came; with distinct ids it shows each of them once |
| ClientView.FoldShowsLastVersions | apps/web/app/messages/page.tsx:210-232 | after any stream, with repetitions and in any order, the list is sorted and holds the last accepted version of each id, once |
| ClientView.Convergence | apps/web/app/messages/page.tsx:776-796 | two streams with the same last versions give the same strictly sequence-sorted list |
| ClientView.ChannelStreamsConverge | apps/web/app/messages/page.tsx:776-796 | every stream of versions of one channel's rows gives a strictly sequence-sorted list that depends only on the last versions |
| ClientView.LoadIsAFold | apps/web/app/messages/page.tsx:164 | loading a page is the fold of one created event per message |
| ClientView.ViewStaysInChannel | apps/web/app/messages/page.tsx:213-224 | the list holds only the selected channel's messages iff no updated or deleted event was of another channel |
| ClientView.ForeignEditShows | apps/web/app/messages/page.tsx:217-224 | an edit or delete of another channel shows up in the list, a created message or reply does not |
| ClientView.ViewEqualsServerLog | apps/web/app/messages/page.tsx:776-796 | once the last version of every id has arrived, the list is the server's log of the channel |
| ClientView.ShuffledDelivery | services/messaging-service/src/messaging/messaging.service.ts:1140-1153 | however the serialized messages of a channel are shuffled and repeated on their way, the list is the channel's log |
| ClientView.ThreadReplyCounts | apps/web/app/messages/page.tsx:475-484 | the accumulated count of each root is the number of its replies in the list |
| ClientView.TimelineSelects | apps/web/app/messages/page.tsx:470-473 | the timeline is the list's messages without parent and thread, each where it stands, in the list's order |
| ClientView.RepliesSelect | apps/web/app/messages/page.tsx:456-484 | so are a thread's replies, by thread, and the messages a root's count is over, by parent |
| ClientView.ShownSorted | apps/web/app/messages/page.tsx:456-468 | timeline and thread of a sorted list need no sorting |
| ClientView.NothingLostNothingTwice | apps/web/app/messages/page.tsx:470-484 | the timeline and the replies to the roots are the list's messages, each as often as it is there |
| ClientView.EveryMessageShownOnce | apps/web/app/messages/page.tsx:470-484 | timeline and reply counts add up to the length of the list |
| ClientView.ShownAsStored | services/messaging-service/src/messaging/messaging.service.ts:1140-1153 | what is shown of a stored message is what was stored |
| ClientView.CountMatchesThread | apps/web/app/messages/page.tsx:456-468 | the count shown on a root is the number of messages its thread lists |
| ClientView.StoredPostsAreWellFormed | services/messaging-service/src/messaging/messaging.service.ts:382-389 | lists of stored messages meet the conditions of the two rows above, in every reachable state |
| Mentions.MatchIsLongest | services/messaging-service/src/messaging/messaging.service.ts:1281 | the parser matches at a position iff a handle starts there and can end: it takes the longest one of 2 to 64 handle characters up to a word boundary |
| Mentions.HandlesAreAllMatches | services/messaging-service/src/messaging/messaging.service.ts:1279-1288 | a handle is parsed iff some match in the text captures it: none is lost to another |
| Mentions.PunctuationIsLeftOut | services/messaging-service/src/messaging/messaging.service.ts:1281 | full stops and hyphens behind a readable handle do not hide it |
| Mentions.ExtractMentionHandles | services/messaging-service/src/messaging/messaging.service.ts:1279-1288 | the exec loop collects exactly the handles of the leftmost non-overlapping matches |
| Mentions.HandlesFollowMatches | services/messaging-service/src/messaging/messaging.service.ts:1281-1286 | jumping from match to match and scanning every position find the same handles |
| Mentions.HandlesSplit | services/messaging-service/src/messaging/messaging.service.ts:1281 | the parser splits at every whitespace character: the handles are those of the two parts |
| Mentions.TrimKeepsHandles | services/messaging-service/src/messaging/messaging.service.ts:64-96 | the raw and the trimmed content have the same handles |
| Mentions.ContextIsTheMatch | apps/web/src/lib/mentions.ts:7-24 | a context is found iff the text up to the caret ends in a match, and it is that match |
| Mentions.ReadBackIff | services/messaging-service/src/messaging/messaging.service.ts:1281 | '@' and a handle is parsed back iff the handle has at most 64 characters and ends in a letter, digit or underscore |
| Mentions.UnreadableNames | services/messaging-service/src/messaging/messaging.service.ts:1290-1312 | two display names whose handles are never parsed back |
| Mentions.HandlesAreStable | apps/web/src/lib/mentions.ts:26-49 | a built handle, taken as a display name, builds itself |
| Mentions.WordsBecomeHandle | apps/web/src/lib/mentions.ts:26-35 | a display name is words with any white space between them, and its handle the plain characters of each, lower-cased, joined by hyphens, if these are two or more |
| Mentions.EveryNameHasWords | apps/web/src/lib/mentions.ts:26-31 | every trimmed name is such words |
| Mentions.AddressBecomesHandle | services/messaging-service/src/messaging/messaging.service.ts:1297-1312 | otherwise it is the plain characters of the address before its first '@', lower-cased, or "user" if they are fewer than two |
| Mentions.InsertedHandles | apps/web/src/lib/mentions.ts:51-64 | the text after an insertion has the handles of both sides and of the inserted one, no others |
| Mentions.MentionRoundTrip | services/messaging-service/src/messaging/messaging.service.ts:1279-1312 | an inserted built handle is parsed, trimmed or not, iff it is readable or stood on one of the two sides; the handles before it are kept |
| Mentions.CaretLeavesContext | apps/web/src/lib/mentions.ts:51-64 | the new caret is right behind the inserted space and no context is open there |
| Mentions.EmitMentionNotifications | services/messaging-service/src/messaging/messaging.service.ts:1170-1217 | exactly the audience members other than the actor whose handle is in the content are notified |
| Mentions.AudienceIsTheChannel | services/messaging-service/src/messaging/messaging.service.ts:1175-1190 | in a private channel only its members are notified, and what others are called makes no difference |
| Mentions.PickedMemberIsNotified | services/messaging-service/src/messaging/messaging.service.ts:1162-1232 | a member picked from the suggestions is notified by the sent text |
| Invites.CommitIff | services/workspace-service/src/workspaces/workspaces.service.ts:349-412 | the transaction commits iff the link is unrevoked, unexpired at the time taken, has room, and the user has no acceptance; else nothing remains of it |
| InviteTheorems.LinksAreAccounted | services/workspace-service/src/workspaces/workspaces.service.ts:351-396 | useCount is the number of acceptances and within maxUses; acceptors pass the locks and are members |
| InviteTheorems.AcceptancesAreUnique | packages/shared/prisma/schema.prisma:531 | one acceptance for each link and user |
| InviteTheorems.CallsAreAccounted | services/workspace-service/src/workspaces/workspaces.service.ts:414-419 | a call inserted a row iff it answered `alreadyAccepted: false` |
| InviteTheorems.NoneAfterRevoke | services/workspace-service/src/workspaces/workspaces.service.ts:248-251 | after a revoke no continuation adds an acceptance |
| InviteTheorems.GainAfterExpiryIff | services/workspace-service/src/workspaces/workspaces.service.ts:349-366 | an expired link can gain an acceptance iff a call with an earlier time may still commit |
| InviteScenarios.LateAcceptance | services/workspace-service/src/workspaces/workspaces.service.ts:349-366 | a run to an expired link that gains an acceptance |
| InviteTheorems.AcceptsKeepRoles | services/workspace-service/src/workspaces/workspaces.service.ts:370-388 | no accept changes the role of a member |
| InviteTheorems.AcceptReturnsRole | services/workspace-service/src/workspaces/workspaces.service.ts:321-347 | the returned role is the member's; a newcomer has the link's |
| InviteTheorems.AcceptAlone | services/workspace-service/src/workspaces/workspaces.service.ts:269-420 | one accept on its own, by anybody and with any code: which error, or success and whether `alreadyAccepted` |
| InviteTheorems.RepeatNeedsRoom | services/workspace-service/src/workspaces/workspaces.service.ts:307-320 | a repeated accept answers `alreadyAccepted` iff the link still has room |
| InviteScenarios.RefusedRepeat | services/workspace-service/src/workspaces/workspaces.service.ts:307-320 | a run to an acceptor whose repeated accept is refused |
| InviteTheorems.ExactCapacity | services/workspace-service/src/workspaces/workspaces.service.ts:269-420 | of n accepts by distinct eligible users exactly min(room, n) succeed, however they interleave |
| InviteTheorems.DomainLockAdmits | services/workspace-service/src/workspaces/workspaces.service.ts:549-568 | a domain lock admits local@host iff host, lower-cased, is the normalized lock |
| InviteTheorems.AtIsDropped | services/workspace-service/src/workspaces/workspaces.service.ts:665-672 | a domain may be written with an '@' in front: the same lock, the domain in lower case |
| InviteTheorems.BlankIsNoLock | services/workspace-service/src/workspaces/workspaces.service.ts:665-672 | nothing but white space, or white space and one '@', is no lock; anything else is one |
| InviteTheorems.BothLocksHold | services/workspace-service/src/workspaces/workspaces.service.ts:549-568 | two locks admit whom each admits alone, the e-mail lock first |
| InviteTheorems.NewLinkIsOpen | services/workspace-service/src/workspaces/workspaces.service.ts:443-490 | a new link is found by its code, unused, open until its hours are over, and its e-mail lock admits the same address up to case and white space |
| InviteService.AcceptInviteLink | services/workspace-service/src/workspaces/workspaces.service.ts:269-420 | the request, run among others: what each answer says about rows, membership and the link; every refusal has a reason that still stands, and a broken request a round trip that failed |
| InviteService.Reserved | services/workspace-service/src/workspaces/workspaces.service.ts:349-420 | the part with the transaction: a new acceptance, or one of three errors with its reason |
| InviteService.Rejoined | services/workspace-service/src/workspaces/workspaces.service.ts:320-347 | the part for a known acceptor: membership ensured, no row added |
| InviteService.RevokeInviteLink | services/workspace-service/src/workspaces/workspaces.service.ts:227-267 | the request, run among others: success means revoked; with nobody else it succeeds iff the actor may revoke, else nothing changes |
| InviteService.WhoManages | services/workspace-service/src/workspaces/workspaces.service.ts:570-613 | links are managed by owners of the workspace, and by admins unless the role at hand is OWNER |
| InviteService.WhoRevokes | services/workspace-service/src/workspaces/workspaces.service.ts:227-246 | a link is revoked by an owner of its own workspace, or by an admin if it does not invite owners |
| InviteService.GenerateUniqueInviteCode | services/workspace-service/src/workspaces/workspaces.service.ts:646-659 | the first of at most five random codes that is unused when looked up; giving up means five that were taken |
| InviteService.CreateInviteLinkEntity | services/workspace-service/src/workspaces/workspaces.service.ts:443-490 | the new link is on the normalized terms, unused, and found by its code; it fails only after five taken codes, or when the code is taken meanwhile |
| DirectChannels.NameIdentifiesPair | services/channel-service/src/channels/channels.service.ts:378-381 | the canonical name is the same iff the unordered pairs are |
| DirectChannels.IndexesAgree | services/channel-service/src/channels/channels.service.ts:320-376 | looking up by member set and by name find the same direct channel, at most one |
| DirectChannels.StepKeepsInv | services/channel-service/src/channels/channels.service.ts:213-318 | joins, leaves, archives, ordinary and direct creates keep the pairing |
| DirectChannels.ClosedChannels | services/channel-service/src/channels/channels.service.ts:213-278 | over any run nobody gets into a private or direct channel, and a direct channel never changes |
| DirectChannels.JoinAndLeave | services/channel-service/src/channels/channels.service.ts:213-278 | a user joins exactly public channels of a workspace of theirs, leaves any but direct ones, and leaving undoes a join |
| DirectChannels.ArchiveAndOthers | services/channel-service/src/channels/channels.service.ts:280-318 | archiving marks an ordinary channel and nothing else; none of the three touches another channel |
| DirectChannels.NamedMembersMakePrivate | services/channel-service/src/channels/channels.service.ts:14-59 | a created channel is public iff nobody else was named and it was not asked to be private; all named users are members and of the workspace |
| DirectChannelService.DirectChannelsArePairs | services/channel-service/src/channels/channels.service.ts:78-89 | a direct channel belongs to exactly one pair of workspace members |
| DirectChannelService.SamePairSameChannel | services/channel-service/src/channels/channels.service.ts:61-120 | two requests got the same channel iff they asked for the same pair, in either order |
| DirectChannelService.GotUnlessNameTaken | services/channel-service/src/channels/channels.service.ts:112-119 | a request gets its channel iff no ordinary channel holds the name |
| DirectChannelService.NameTakenFirst | services/channel-service/src/channels/channels.service.ts:14-59 | a run in which an ordinary channel has the name and the request fails |
| DirectChannelService.DirectChannelsStay | services/channel-service/src/channels/channels.service.ts:256-291 | a direct channel is found, and it alone, in every continuation |
| DirectChannelService.CreateDirectChannel | services/channel-service/src/channels/channels.service.ts:61-120 | the request, run among others: the pair's channel, the conflict with an ordinary holder of the name, or an error about the target or the users that was true when it was asked |

## Left out

- HTTP controllers, DTO validation, authentication, Socket.IO and Redis, metrics, the user interface: the client fold takes an arbitrary stream of events instead of a transport.
- Channel and workspace access checks of the messaging service: a delivery's check is a free yes or no, a client request that is refused is an action that does not happen.
- Soft deletes and edits of stored messages change content and deletedAt only; they appear as versions of a post in the client view, not as steps of the log. The deletion of a file, reaction, pin, bookmark or draft, and their creation, are not modelled.
- Search, slash commands, integrations, notification read flags, invite e-mails and audit entries (an audit entry that fails the accept transaction is modelled as its rollback).
- `invite` and `setRole`: their permission checks; a role change is an action that may happen at any time. In runs, so are the writes of creating and revoking a link, whose requests are modelled with their checks in `InviteService`.
- Inside of the database: each query, conditional update and upsert is atomic, and the accept transaction is atomic with rollback. A commit whose answer is lost on the way is not modelled.
- Identifiers are natural numbers, except user ids of direct channels, which are non-empty strings without a colon; `localeCompare` is taken to be the order by character codes, of which only totality is used.
- `toLowerCase` maps A-Z only; other letters that lower-case into a-z are not modelled. White space is the set of JavaScript's `\s` and trim.
- Clocks are one monotone integer clock in milliseconds. The sequence is an unbounded number, so the conversion of BigInt to Number in the serializer is exact. Non-finite limits are `None`; fractional limits are not modelled.
- DeliveriesInSendAtOrder: needs a single dispatching replica that does not die with an insert under way and creates that commit no later than sendAt; nothing is claimed of the order among several dispatching replicas.
- BudgetSuffices: assumes fresh message ids; an id that is taken is an error of the messaging service and costs the bots service an attempt.
- ViewEqualsServerLog: says nothing of messages whose events never arrive.
