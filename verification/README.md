# Verified model of the transaction gateway

The gateway polls a bank account, stores each transaction once in SQLite, and tells browsers and
webhooks about new credits. This project models the protocols that make that reliable and proves what
they guarantee in every interleaving, and it proves the algorithms beside them correct.
To verify it: `dafny verify dfyconfig.toml`.

| file | what it models |
|---|---|
| `EventStream`, `StreamHandler`, `Journal`, `EventHub` | the journal of events, the hub of hints, and one server-sent-events stream over them |
| `Connections` | the bank connection: generations, sign-in attempts, sessions, polls |
| `Outbox` | deliveries: claims with leases, attempts, retries, dead letters, replay, the dispatcher |
| `Channels` | endpoints with immutable versions and rotating secrets, and the deliveries pinned to them |
| `Ingest` | batches of bank transactions: dedupe, events, fan-out, journal, under the generation fence |
| `Pipeline` | connection, ingest, stream and outbox together: from a stored credit to the browser and the endpoints |
| `Backfill` | filling in the day of rows stored before that column existed |
| `MoneyVi` | reading an amount in Vietnamese, twice |
| `Schedule` | the weekly schedule |
| `Pagination` | filtered listing with cursors |
| `HistoryFetch`, `CatchUp` | paged history, coverage, the checkpointed catch-up |
| `HistoryParser` | the tables of a history page |
| `VoiceQueue` | the announcement queue of the browser |
| `Flights`, `SingleFlight`, `TtsCache` | single flight in Go and in Python, the speech cache |
| `Prelude`, `Runs` | optional values; folding a step function over a run |

## How it is built

A store is a class whose fields are the tables. Each `withTx` closure and each lone statement is one
atomic step; a function that makes several store calls takes, as parameters, what other actors do
between them. For each protocol there is a state machine on values (a step function over operations), an
invariant proved for every reachable state, and theorems over all runs; each method of the class is
proved to take exactly the step of its name, so the theorems hold of the code. Since an operation's
arguments are arbitrary, stale reads, crashes (a run may stop anywhere) and wrong clocks are included.

## Assumptions

- Row ids and claim tokens are fresh. Event ids are an injective function of the transaction number.
- Callbacks, and the function passed to single flight, return normally. Callbacks of the voice queue may
  call the queue again.
- Statements whose errors the code discards succeed, except in the catch-up, where recording coverage
  and saving the checkpoint may fail.
- Time stamps are integers in order. The code compares RFC 3339 texts with a variable number of
  fractional digits; that comparison is idealised.
- One journal epoch, one bank connection; sequence numbers of the journal are assigned without gaps.
- Local days have 24 hours (a zone with a fixed offset). The zero time never occurs as a start time.
- The clock does not go back during one catch-up run.

## Where the code does less than its documentation suggests

- The TypeScript money reader goes wrong from 10^12 on, where the Go reader is right, and it drops every
  minus sign. The Go text has a doubled space for some amounts from 10^12 on (`MoneyVi`: `SignedAmount`,
  `DoubledSpaceIff`).
- With an empty journal every stream cursor is accepted, even one below rows that retention has deleted.
  With time stamps out of sequence some retention pass defeats the check, and only then (`EventStream`:
  `ExactAfterRetentionIffStampedInOrder`).
- In the first two hours of a day the catch-up passes over yesterday on the strength of a sync made
  yesterday evening, and moves the checkpoint past it (`CatchUp`). A day covered by a filter sync is
  passed over too, although that sync notifies nobody.
- A day with 490 or more rows, shown ten to a page, is never fetched completely by the catch-up, which
  then stops at that day (`HistoryFetch`).
- The announced next mode can be wrong: with a window in force it is always the default mode, with none it
  may belong to a window that does not run on that weekday (`Schedule`: `AnnouncementIsRightIff`,
  `AnnouncementOfNextWindowIsRightIff`). "7:00" to "07:00" is accepted as a window and lasts the whole day.
- In the speech gateway, cancelling the request that computes leaves the requests that joined it waiting
  for ever, and cancelling one that joined makes the computing one fail (`Flights`:
  `StrandedIffOwnerCancelled`, `OwnerFailsIffJoinerCancelled`). `max_items` below 1 does not keep the cache
  empty (`TtsCache`).
- A footer row right after a transaction without a description becomes its description, and the English
  names of the date columns are never recognised (`HistoryParser`: `FooterBecomesDescription`,
  `DateColumnsAreVietnamese`).
- A row whose day is unknown passes every upper date bound, also when it was first seen later
  (`Pagination`: `RangeIsExactIff`).

## Model

| member | source | states |
|---|---|---|
| `EventStream.StepKeepsInv` | internal/httpapi/sse.go:83-150 | every step of the stream and of the other actors, in any order, keeps: what was sent is in order and genuine, nothing between the cursor and the watermark is missing except rows retention took, everything published above the watermark is still to come |
| `EventStream.Reachable` | internal/httpapi/sse.go:20-150 | that invariant holds after every interleaving |
| `EventStream.ExactlyOnceInOrder` | internal/httpapi/sse.go:83-127 | in every interleaving the entries sent rise strictly, are journal rows above the cursor, and include every row up to the watermark that retention did not delete unread |
| `EventStream.NothingLostMeansExact` | internal/httpapi/sse.go:83-98 | if retention took nothing unread, the entries sent are the rows cursor+1 to watermark, one each |
| `EventStream.DirectSendOnlyAfterLoss` | internal/httpapi/sse.go:120-127 | the branch that sends the hint itself is reached only when retention deleted that row unread |
| `EventStream.ShortBatchReachesHint` | internal/httpapi/sse.go:146-148 | when a drain ends with a short batch, every row between the watermark and the hint has been deleted |
| `EventStream.DirectSend` | internal/httpapi/sse.go:120-126 | sending the hint itself keeps order and loses nothing but deleted rows |
| `EventStream.IdleStreamIsCaughtUp` | internal/httpapi/sse.go:102-128 | a stream at rest with an empty channel has sent every published row above its start that was not lost |
| `EventStream.CursorAcceptedIffNothingLost` | internal/httpapi/sse.go:71-80 | with rows stamped in sequence order and a non-empty journal, a well-formed cursor is accepted if and only if no row above it has been deleted, and then nothing is lost |
| `EventStream.CheckIsExactIffPrefixDeleted` | internal/httpapi/sse.go:71-80 | for any journal that is not empty and any history of deletions: the retention check is exact for every cursor if and only if what was deleted is a prefix of the journal |
| `EventStream.ExactAfterRetentionIffStampedInOrder` | internal/storage/journal.go:93-117 | the check stays exact after every retention pass if and only if the rows are stamped in sequence order; if they are not, some cutoff and cursor defeat it: the cursor is accepted although rows above it are gone |
| `EventStream.EmptyJournalAcceptsAnyCursor` | internal/httpapi/sse.go:76-79 | with an empty journal every cursor is accepted, and nothing is lost exactly when no row was ever above it |
| `EventStream.InOrderMeansPrefix` | internal/storage/journal.go:93-99 | retention by time stamp removes a prefix of the journal when stamps rise with the sequence |
| `EventStream.OutOfOrderStampsDefeatTheCheck` | internal/storage/journal.go:26-29 | an instance: two rows stamped in the wrong order, the first deleted, and the cursor before it accepted |
| `EventStream.MisorderedIsReachable` | internal/storage/journal.go:93-99 | the run that leads to that state |
| `EventStream.OpenDecides` | internal/httpapi/sse.go:49-81 | opening: a cursor of another epoch or without a number is refused as invalid, one below the smallest number less one as expired; otherwise the stream starts at the number of the cursor, or without a cursor at the largest number in the journal |
| `EventStream.StartIsTheCursor` | internal/httpapi/sse.go:50-81 | over any run: without a cursor nothing stored at that moment is ever sent, every entry sent has a larger number than every row of that moment, and the start is the largest of those or 0; an accepted cursor is the start |
| `EventStream.OpenedOnce` | internal/httpapi/sse.go:49-130 | a stream opens once, keeps its start, and sends nothing after it has closed |
| `EventStream.NeverRefused` | internal/httpapi/sse.go:50-56 | a stream without a cursor is never refused |
| `EventStream.EnvironmentDoes` | internal/storage/journal.go:21-99 | what the other actors do to the stream: a row appended with the next number, a hint put into the channel while it has room for 128, rows stamped before a cutoff deleted |
| `EventStream.LostMeansDeletedUnread` | internal/httpapi/sse.go:84-98 | whatever counts as lost was deleted by a retention pass while it was above the watermark |
| `StreamHandler.Server.OpenCursor` | internal/httpapi/sse.go:49-81 | the stream opened at that watermark, or closed with that reason |
| `StreamHandler.Server.Begin` | internal/httpapi/sse.go:33-81 | subscribing and opening with other actors in between; where the stream starts or why it is refused is decided by the rows at one moment of the run |
| `StreamHandler.Server.ChooseWatermark` | internal/httpapi/sse.go:49-81 | without a cursor the largest number in the journal, or 0 if it is empty; with one, its number, or the refusal: invalid for another epoch or no number, expired when the smallest number is more than one above it |
| `StreamHandler.Server.ReadBatch` | internal/httpapi/sse.go:84-88 | one read of at most 250 rows above the watermark |
| `StreamHandler.Server.WriteEntry` | internal/httpapi/sse.go:89-94 | one row written, the watermark moved to it |
| `StreamHandler.Server.SendBatch` | internal/httpapi/sse.go:138-145 | a batch written row by row with other actors in between |
| `StreamHandler.Server.DrainJournal` | internal/httpapi/sse.go:132-150 | reads and sends batches until one is short; every step is one of the state machine |
| `StreamHandler.Server.FinishReplay` | internal/httpapi/sse.go:95-97 | the end of the replay |
| `StreamHandler.Server.FinishDrain` | internal/httpapi/sse.go:117-127 | the end of a drain, the direct send included |
| `StreamHandler.Server.ReceiveHint` | internal/httpapi/sse.go:113-116 | one hint taken from the channel |
| `StreamHandler.Server.SubscribeToHub` | internal/httpapi/sse.go:33-34 | the stream subscribes before it reads anything |
| `StreamHandler.Server.CloseStream` | internal/httpapi/sse.go:34 | the deferred cancel |
| `StreamHandler.Server.Serve` | internal/httpapi/sse.go:43-130 | replay and live loop with other actors between any two steps, cut off anywhere |
| `StreamHandler.Server.EventsStream` | internal/httpapi/sse.go:20-130 | the whole handler, for a client that may leave at any point: wherever it is cut off, what it sent is in order, genuine and complete up to the watermark; waiting with no hint pending, complete up to everything published; without a cursor nothing stored at the moment of opening is sent, with one the start is its number; what is excused as lost was deleted unread; it ends early only for a client that leaves or a cursor that is refused |
| `Journal.ReadIsOrdered` | internal/storage/journal.go:48-54 | a read returns existing rows above the cursor in rising order, at most the limit |
| `Journal.ReadSkipsNothing` | internal/storage/journal.go:48-54 | and skips none below the last one it returns; a short read returns all of them |
| `Journal.ReadIsFirstRows` | internal/storage/journal.go:48-54 | what a read returns is the first rows above the cursor: nothing between them is passed over, and fewer than the limit only if no more are there |
| `Journal.EventJournal.Append` | internal/storage/journal.go:21-38 | a new row gets the next sequence number, never used before |
| `Journal.EventJournal.Read` | internal/storage/journal.go:41-71 | the rows read are those of the specification; a limit of 0 or less, or above 1000, becomes 100 |
| `Journal.EventJournal.MinSeq` | internal/storage/journal.go:101-117 | the smallest sequence number, 0 for an empty journal |
| `Journal.EventJournal.MaxSeq` | internal/storage/journal.go:74-90 | the largest sequence number, 0 for an empty journal |
| `Journal.EventJournal.DeleteBefore` | internal/storage/journal.go:93-99 | exactly the rows stamped before the cutoff go; numbers are not reused |
| `EventHub.Hub.Subscribe` | internal/eventhub/hub.go:30-37 | a fresh id with an empty channel |
| `EventHub.Hub.Cancel` | internal/eventhub/hub.go:39-46 | that channel goes, the others stay; a second cancel does nothing |
| `EventHub.Hub.Publish` | internal/eventhub/hub.go:52-63 | the event is appended to every channel that holds fewer than 128, the others stay as they are and count one drop each |
| `EventHub.Hub.SendTo` | internal/eventhub/hub.go:57-61 | the select with default for one channel |
| `EventHub.Hub.Receive` | internal/httpapi/sse.go:113 | the oldest event of the channel is taken |
| `Connections.ApplyKeepsInv` | internal/storage/auth_attempts.go:25-189 | every transaction on connections, attempts, sessions and polls keeps the invariant, whatever stale values its caller passes |
| `Connections.Reachable` | internal/storage/storage.go:81-94 | the invariant holds after every sequence of transactions |
| `Connections.AttemptsAndSessionsAgreeWithConnection` | internal/storage/storage.go:106 | at most one active attempt; an active attempt carries the current generation exactly when the state is AUTH_STARTING; MONITORING at g means the stored session is for g |
| `Connections.ApplyAdvances` | internal/storage/repository.go:71-96 | one transaction never lowers the generation and within a generation only AUTH_STARTING becomes MONITORING |
| `Connections.RunAdvances` | internal/storage/polls.go:60-70 | the same over any run |
| `Connections.AdvancesBetween` | internal/storage/repository.go:71-96 | the same between any two moments of a run |
| `Connections.FenceHeldThroughout` | internal/storage/transactions.go:127-136 | an ingest accepted for the generation its caller read implies MONITORING at it, with its session, at every moment between |
| `Connections.FenceAcceptsIffNeverLeft` | internal/storage/transactions.go:127-136 | the fence accepts if and only if the connection never left that state since the read |
| `Connections.FinishNeverStopsMonitoring` | internal/storage/auth_attempts.go:166-189 | finishing any attempt never takes a monitoring connection down |
| `Connections.ApplyKeepsEndedAttempts` | internal/storage/auth_attempts.go:147-189 | attempt rows stay, keep their generation, and ended ones do not change |
| `Connections.EndedAttemptsStayEnded` | internal/storage/auth_attempts.go:147-189 | an ended attempt never revives in any run |
| `Connections.ExpireSomeIsExpireStale` | internal/storage/auth_attempts.go:25-70 | expiring the stale attempts one by one, in any order, is the transaction as a whole |
| `Connections.WhatACompletionLeaves` | internal/storage/queries.go:435-463 | in every run, a completion that commits leaves MONITORING at the generation of the attempt, the attempt VERIFIED, and the session with that generation and the envelope handed in |
| `Connections.SessionIsTheLastStored` | internal/storage/queries.go:446 | over every run the stored session is the envelope, and the generation, of the last completion or refresh that committed |
| `Connections.NoSessionIffNoneStored` | internal/storage/queries.go:446 | and there is none if and only if none has committed |
| `Connections.KeyIsTheLastRefreshed` | internal/storage/sessions.go:27-40 | the key id of the session is that of the last refresh that committed, k1 before any |
| `Connections.MonitoringComesFromASignIn` | internal/storage/queries.go:450-456 | a connection that comes to monitor at a generation does so by a completed sign-in |
| `Connections.PauseStopsIngest` | internal/storage/repository.go:71-96 | after a pause or a resume no batch is accepted, for any generation, until a sign-in completes |
| `Connections.TransitionLeaves` | internal/storage/repository.go:71-96 | pause leaves PAUSED, resume AUTH_REQUIRED, at the next generation |
| `Connections.ExpireStaleRunsOut` | internal/storage/auth_attempts.go:25-70 | exactly the active attempts whose time is up end as EXPIRED, and their sign-in is called off |
| `Connections.ConnectionStore.ConfigureConnection` | internal/storage/repository.go:49-70 | creates the connection once |
| `Connections.ConnectionStore.TransitionConnection` | internal/storage/repository.go:71-96 | pause to PAUSED, resume to AUTH_REQUIRED, with the next generation; nothing else changes |
| `Connections.ConnectionStore.ExpireStaleAuthAttempts` | internal/storage/auth_attempts.go:25-70 | the loop over stale attempts, with the number expired |
| `Connections.ConnectionStore.BeginAttempt` | internal/storage/auth_attempts.go:126-145 | the guarded insert and update of one transaction |
| `Connections.ConnectionStore.HasActiveAuthAttempt` | internal/storage/auth_attempts.go:191-198 | whether an attempt is active |
| `Connections.ConnectionStore.StartAuthAttempt` | internal/storage/auth_attempts.go:98-145 | its several store calls, each with its own reading of the clock and other actors between them: the resulting tables are those of the run; on success the attempt is the active one |
| `Connections.ConnectionStore.MarkAuthAttemptInProgress` | internal/storage/auth_attempts.go:147-164 | guarded by status, state and generation |
| `Connections.ConnectionStore.FinishAuthAttempt` | internal/storage/auth_attempts.go:166-189 | ends an active attempt and calls off its sign-in |
| `Connections.ConnectionStore.CompleteAuthSession` | internal/storage/queries.go:435-463 | accepted exactly for an active attempt while the connection waits for its generation; then the envelope handed in is stored for that generation under the key id that was there, the attempt is VERIFIED and the connection MONITORING, in one transaction; else nothing changes |
| `Connections.ConnectionStore.StartPoll` | internal/storage/polls.go:23-34 | refused without effect unless the connection was monitoring when read; otherwise the poll row carries the generation read, whatever happens in between |
| `Connections.ConnectionStore.InsertPollRun` | internal/storage/polls.go:32-33 | the poll row |
| `Connections.ConnectionStore.FinishPollRun` | internal/storage/polls.go:36-74 | success only while monitoring at the generation; demotion guarded by the generation |
| `Connections.ConnectionStore.RefreshStoredSession` | internal/storage/sessions.go:27-40 | update guarded by generation and state |
| `Outbox.ApplyKeepsInv` | internal/storage/deliveries.go:34-97 | every claim, record, settlement, replay and queueing keeps the invariant |
| `Outbox.Reachable` | internal/storage/deliveries.go:34-97 | it holds in every run from any state that has it |
| `Outbox.AtMostOneLiveLease` | internal/storage/deliveries.go:47-52 | two in-flight deliveries of one endpoint have disjoint claim-to-lease windows, whatever the clocks of the claimers |
| `Outbox.AttemptsCountClaims` | internal/storage/storage.go:118 | attempts equals the number of claims, and the attempt number a dispatcher records is still free |
| `Outbox.RetryBudget` | internal/notification/dispatcher.go:144-192 | a PENDING delivery has 0 <= attempts - cycleStart < maxRetries, the lower clamp never acts, the backoff index is in bounds, the upper clamp acts only if the limit exceeds the table by two or more |
| `Outbox.RecordedOutcomeIsSettlement` | internal/notification/dispatcher.go:150-193 | the outcome recorded is the one the delivery is settled with |
| `Outbox.LostClaimsAreInert` | internal/storage/events.go:203-216 | a superseded or settled claim changes no delivery, however late it is settled |
| `Outbox.SettledAtMostOnce` | internal/storage/deliveries.go:78-97 | each claim is settled at most once |
| `Outbox.ReclaimLosesOldClaim` | internal/storage/deliveries.go:61-63 | claiming an expired delivery again supersedes the earlier claim |
| `Outbox.FinalStates` | internal/storage/notifications.go:481-519 | DELIVERED never changes; DEAD_LETTER is left only by replay on an active endpoint, with a new retry cycle |
| `Outbox.DeliveredForever` | internal/storage/deliveries.go:78-97 | the same over any run |
| `Outbox.DeadLetterUntilReplay` | internal/storage/notifications.go:481-519 | over any run, a dead letter stays as it is up to the first replay while its endpoint is active, and if none comes, to the end |
| `Outbox.FirstIsUnique` | internal/storage/deliveries.go:53 | the order by next attempt and id has one first row |
| `Outbox.PickIsFirst` | internal/storage/deliveries.go:41-54 | the claimed delivery is that first eligible row |
| `Outbox.ClaimTakesFirst` | internal/storage/deliveries.go:34-76 | a claim takes the first delivery that is due on an active endpoint with no live lease on another delivery of it, with a fresh token, the lease and one more attempt; it changes nothing exactly when there is none |
| `Outbox.WhatASettlementLeaves` | internal/notification/dispatcher.go:170-194 | in every run, a held claim leaves DELIVERED after a success; after a failure worth retrying with attempts left PENDING, due at the claim time plus the backoff with the number of attempts in the cycle (the last one beyond the table); a dead letter otherwise |
| `Outbox.PendingUntilDue` | internal/storage/deliveries.go:41-54 | over any run a pending delivery stays as it is until a claim that comes when it is due |
| `Outbox.NoClaimBeforeTheBackoff` | internal/notification/dispatcher.go:185-192 | after such a retry no later claim of the delivery, in any run without a replay of it, has a clock before the claim time plus that backoff |
| `Outbox.QuietSpends` | internal/storage/deliveries.go:34-97 | no run without new queueing and replay raises the sum of the remaining retry budgets, whatever dispatchers claim, record and settle |
| `Outbox.DispatchUsesBudget` | internal/notification/dispatcher.go:99-195 | a dispatch whose settlement still holds its claim lowers that sum strictly, whatever other dispatchers, crashes and toggles do before and after its record |
| `Outbox.Store.ScanForFirst` | internal/storage/deliveries.go:53 | the scan for the first row |
| `Outbox.Store.ClaimDelivery` | internal/storage/deliveries.go:34-76 | the first delivery that is due and free is taken with a fresh token and one more attempt; none is taken exactly when there is none |
| `Outbox.Store.CompleteDelivery` | internal/storage/deliveries.go:78-97 | settles only under the current token |
| `Outbox.Store.FailDelivery` | internal/storage/events.go:203-216 | dead-letters only under the current token |
| `Outbox.Store.RecordAttempt` | internal/storage/events.go:218-228 | one row per delivery and number |
| `Outbox.Store.ReplayDelivery` | internal/storage/notifications.go:481-519 | a dead letter of an active endpoint becomes due with a fresh cycle |
| `Outbox.Store.RecordClaim` | internal/notification/dispatcher.go:144-168 | the recorded outcome, retries exhausted included |
| `Outbox.Store.SettleClaim` | internal/notification/dispatcher.go:170-194 | DELIVERED, dead letter, or PENDING at the claim time plus the backoff with the number of attempts in the cycle, under the current token only |
| `Outbox.Store.DispatchOne` | internal/notification/dispatcher.go:99-195 | claim, record and settlement with other actors in both gaps; nothing is claimed exactly when nothing is due and free |
| `Outbox.Store.Drain` | internal/notification/dispatcher.go:84-95 | terminates for any clocks and outcomes and with any other dispatchers, crashed workers and toggles at work in every gap, as long as nothing is queued or replayed; the rounds are bounded by the sum of the retry budgets; when it ends without error nothing is due |
| `Channels.ApplyKeepsInv` | internal/storage/notifications.go:236-401 | create, edit, rotate, toggle and fan-out keep the invariant and only add |
| `Channels.Reachable` | internal/storage/notifications.go:236-401 | it holds in every run |
| `Channels.VersionsDenseOneSecret` | internal/storage/notifications.go:282-293 | the versions of an endpoint are exactly 1 to current_revision and exactly one secret is active |
| `Channels.VersionsAreImmutable` | internal/storage/notifications.go:282-287 | a version on file never changes |
| `Channels.FanOutResolves` | internal/storage/transactions.go:138-161 | the revision and key a fan-out pins exist and are the current ones |
| `Channels.PinsResolveForever` | internal/storage/notifications.go:403-479 | whatever edits, rotations and toggles follow, a queued delivery resolves to the version and secret current when it was queued |
| `Channels.QueueIsImmutable` | internal/storage/transactions.go:252-264 | a queued delivery keeps its pin |
| `Channels.EditTakesEffect` | internal/storage/notifications.go:282-293 | over any run, an accepted edit leaves its version on file for good: the URL given for a webhook, the settings given otherwise; it is the current one until the next edit |
| `Channels.EditLeaves` | internal/storage/notifications.go:282-293 | the same of one edit |
| `Channels.RotationTakesEffect` | internal/storage/notifications.go:354-366 | over any run, after a rotation the one active secret is the secret handed in, until the next rotation |
| `Channels.RotationLeaves` | internal/storage/notifications.go:354-366 | the same of one rotation |
| `Channels.ChannelStore.CreateEndpointWithSecret` | internal/storage/events.go:22-79 | revision 1, key k1, disabled |
| `Channels.ChannelStore.CreateBarkChannel` | internal/storage/notifications.go:99-176 | the same for a Bark channel, with the device key checks |
| `Channels.ChannelStore.UpdateChannel` | internal/storage/notifications.go:236-315 | compare-and-set on the revision, then one more version, made of the URL for a webhook and of the settings otherwise, becomes the current one |
| `Channels.ChannelStore.RotateSecret` | internal/storage/notifications.go:317-401 | every active key is retired and one more key, with the secret handed in, is active |
| `Channels.ChannelStore.RetireActive` | internal/storage/notifications.go:354 | the update that retires |
| `Channels.ChannelStore.SetEndpointStatus` | internal/storage/repository.go:129-142 | the toggle |
| `Channels.ChannelStore.DeliveryTarget` | internal/storage/notifications.go:403-424 | the join on pinned revision and key; it never fails for a queued delivery |
| `Ingest.ItemStepKeepsInv` | internal/storage/transactions.go:164-288 | one item keeps rows, events, journal and queue in step |
| `Ingest.ApplyKeepsInv` | internal/storage/transactions.go:117-294 | so does every batch and every channel operation |
| `Ingest.Reachable` | internal/storage/transactions.go:117-294 | in every run |
| `Ingest.FirstObservationWins` | internal/storage/transactions.go:171-180 | a number keeps one row with its first hash for good; events, journal and deliveries are only added |
| `Ingest.NotifiedIffFirstObservationEmits` | internal/storage/transactions.go:212-288 | a number has its event, and exactly one journal entry, if and only if its first observation called for them |
| `Ingest.NewNumberHasNoEvent` | internal/storage/transactions.go:243-250 | a number not on file has no event and no delivery, so no unique constraint can reject the inserts |
| `Ingest.BatchOutcome` | internal/storage/transactions.go:164-289 | the same over the item loop, from any point of it: the first usable item of a number not on file is stored, and its event, journal entry and deliveries follow from that row |
| `Ingest.FirstObservationDecides` | internal/storage/transactions.go:164-289 | of an accepted batch and a number not on file, said of the columns of its first usable item: it is stored; it has an event and one journal entry if and only if the batch is no baseline, its credit is above zero and the source is neither FILTER_SYNC nor BOOTSTRAP; it has one delivery per endpoint active at that moment, with the revision and the active key of that moment, if and only if besides the source is REALTIME (or none is given) or CATCH_UP |
| `Ingest.OnlyConflictsAreQuarantined` | internal/storage/transactions.go:172-180 | an item whose number is on file goes into the quarantine exactly if credit, debit or time differ from the first observation, and changes nothing else |
| `Ingest.EventQueueIsClosed` | internal/storage/transactions.go:252-264 | later items of a batch leave the deliveries of an event alone |
| `Ingest.EventStaysClosed` | internal/storage/transactions.go:252-264 | no later batch and no channel operation queues a delivery for an event that exists |
| `Ingest.KnownBatchOnlyQuarantines` | internal/storage/transactions.go:172-180 | a batch of known numbers changes nothing outside the quarantine |
| `Ingest.BatchMakesKnown` | internal/storage/transactions.go:200-206 | every usable item is on file after the batch |
| `Ingest.ReingestOnlyQuarantines` | internal/storage/transactions.go:164-180 | ingesting a batch again from any source changes nothing outside the quarantine |
| `Ingest.Ledger.PinRow` | internal/storage/transactions.go:146-151 | one row of the endpoint query |
| `Ingest.Ledger.ActiveEndpoints` | internal/storage/transactions.go:138-161 | the active endpoints with current revision and active key |
| `Ingest.Ledger.QueueDeliveries` | internal/storage/transactions.go:252-264 | one delivery per endpoint, existing ones untouched |
| `Ingest.Ledger.IngestItem` | internal/storage/transactions.go:164-289 | one item, said of its columns: blank, nothing; on file, quarantined exactly if it differs; else stored, announced exactly for a credit that is no baseline and neither from a filter sync nor a bootstrap, delivered exactly in real time and while catching up |
| `Ingest.Ledger.IngestItems` | internal/storage/transactions.go:164-289 | the item loop |
| `Ingest.Ledger.IngestTransactionsBatch` | internal/storage/transactions.go:117-294 | accepted exactly when the fence accepts; every number not on file is decided by its first usable item as said above; inserted + skipped + blank items is the batch size, the other counters and the notifications match the tables |
| `MoneyVi.GroupRoundTrip` | internal/voicecopy/money_vi.go:10-52 | the words of a group of three digits name that group |
| `MoneyVi.GroupIdioms` | internal/voicecopy/money_vi.go:10-52 | exactly when a group says trăm, mươi, mười, mốt, tư, lăm and linh |
| `MoneyVi.GroupOrder` | internal/voicecopy/money_vi.go:10-52 | the hundreds come first, the tens before the units, and the units last |
| `MoneyVi.GoScaleWords` | internal/voicecopy/money_vi.go:85-97 | from 10^9 on, "nghìn" or "triệu" comes before one "tỷ" per power of 10^9 |
| `MoneyVi.TsScaleWords` | web/src/features/voice-announcements/money-to-vietnamese.ts:97-109 | the TypeScript scale words repeat every four groups |
| `MoneyVi.SaysMotTuLam` | internal/voicecopy/money_vi_test.go:19-21 | the texts for 21, 24 and 25, letter by letter |
| `MoneyVi.SaysKhongTramLinh` | internal/voicecopy/money_vi_test.go:36 | the text for 1 005 000, letter by letter |
| `MoneyVi.GoScaleMeans` | internal/voicecopy/money_vi.go:85-97 | the scale words of group i stand for 1000^i |
| `MoneyVi.PartsRoundTrip` | internal/voicecopy/money_vi.go:73-104 | the words of the groups from i on name their value times 1000^i |
| `MoneyVi.GoRoundTrip` | internal/voicecopy/money_vi.go:57-111 | the meaning of the words SpeakVND says is the amount, and 0 for what is not positive |
| `MoneyVi.GoInjective` | internal/voicecopy/money_vi.go:57-111 | different positive amounts are read differently |
| `MoneyVi.ReadersAgreeBelow1000Billion` | web/src/features/voice-announcements/money-to-vietnamese.ts:97-109 | the two readers say the same words if and only if the amount is below 10^12 (for all amounts below 10^36) |
| `MoneyVi.TsMisreads` | web/src/features/voice-announcements/money-to-vietnamese.ts:99-108 | 10^12 is read as the words for 10^18 |
| `MoneyVi.SignIsLost` | web/src/features/voice-announcements/money-to-vietnamese.ts:58-60 | for every text, a leading minus sign is dropped |
| `MoneyVi.NumeralIsRead` | web/src/features/voice-announcements/money-to-vietnamese.ts:57-75 | the TypeScript reader reads the numeral of every amount as that amount |
| `MoneyVi.OnlyDigitsAppend` | web/src/features/voice-announcements/money-to-vietnamese.ts:58-60 | it reads a text piece by piece, so what stands between the digits does not matter |
| `MoneyVi.OneCharacter` | web/src/features/voice-announcements/money-to-vietnamese.ts:58-60 | of one character it keeps exactly the ten digits |
| `MoneyVi.SignedAmount` | web/src/features/voice-announcements/money-to-vietnamese.ts:57-114 | so the TypeScript reader says the negated amount only for zero, and agrees with the Go reader on the unsigned amount exactly below 10^12 |
| `MoneyVi.DoubledSpaceIff` | internal/voicecopy/money_vi.go:84-97 | the text of the Go reader has two spaces in a row if and only if the amount has a group of three digits that is not 000 at a place i >= 4 that is no multiple of 3 (from 10^12, 10^15, 10^21, 10^24, ...) |
| `MoneyVi.SpeakVND` | internal/voicecopy/money_vi.go:57-111 | the Go code: groups, words, scales |
| `MoneyVi.BreakIntoGroups` | internal/voicecopy/money_vi.go:62-68 | the loop that divides by 1000 |
| `MoneyVi.JoinGroups` | internal/voicecopy/money_vi.go:72-104 | the loop over the groups, highest first |
| `MoneyVi.SpeakVnd` | web/src/features/voice-announcements/money-to-vietnamese.ts:57-114 | the TypeScript code on any text |
| `MoneyVi.SplitGroups` | web/src/features/voice-announcements/money-to-vietnamese.ts:70-75 | the loop that slices three digits off the right |
| `MoneyVi.GroupsToWords` | web/src/features/voice-announcements/money-to-vietnamese.ts:77-110 | the loop that pushes words |
| `Schedule.MatchesIffSomeOccurrence` | internal/storage/schedule.go:180-212 | the test of the code holds exactly when an occurrence that began on a listed day is going on, midnight and week ends included |
| `Schedule.TransitionIsWithinADay` | internal/storage/schedule.go:228-257 | now < NextTransition <= now + 24h, for any settings |
| `Schedule.SelectedKeepsMatching` | internal/storage/schedule.go:231-239 | the window in force stays in force until the transition, which is the end of its occurrence |
| `Schedule.SelectedIndexNeverRises` | internal/storage/schedule.go:173-219 | so the selected index does not rise before the transition |
| `Schedule.NothingBeforeTransition` | internal/storage/schedule.go:240-257 | with no window in force, none comes into force before the transition |
| `Schedule.AnnouncedWindowIsNext` | internal/storage/schedule.go:240-253 | with none in force, the window whose mode is announced comes into force at the transition if and only if it runs on that weekday |
| `Schedule.AnnouncementIsRightIff` | internal/storage/schedule.go:231-239 | with a window in force the announced mode is the mode in force at the transition if and only if no window matches there or the first that matches has the default mode |
| `Schedule.AnnouncementOfNextWindowIsRightIff` | internal/storage/schedule.go:240-257 | with none in force the announced mode is right if and only if the soonest window runs on that weekday, or its mode is by chance that of the first window starting there, or of the default when none does |
| `Schedule.AnnouncementIgnoresTheNextWindow` | internal/storage/schedule.go:239 | an instance: two shifts, where the next one is not announced |
| `Schedule.ValidIntervals` | internal/storage/schedule.go:259-266 | validated settings poll at the configured rate, between 5 seconds and 30 minutes, or pause |
| `Schedule.AlwaysInForceIff` | internal/storage/schedule.go:180-212 | a window for every day is in force at all times if and only if its start and end are the same time |
| `Schedule.SpellingsOfOneTime` | internal/storage/schedule.go:98-100 | a validated window has that exactly when its two texts differ by a leading zero only |
| `Schedule.ClockTexts` | internal/storage/schedule.go:92-97 | which texts are times of day: one or two digits below 24, a colon, two digits below 60 |
| `Schedule.NextAtIsFirst` | internal/storage/schedule.go:232-248 | the next start or end is the first instant after now at that time of day |
| `Schedule.ValidateProfile` | internal/storage/schedule.go:114-133 | the exact limits: 5 to 300 seconds in real time, 60 to 1800 to keep alive, none to pause |
| `Schedule.SoonestComesFirst` | internal/storage/schedule.go:241-253 | the soonest window starts at the first instant at which any starts, and is the first in the list of those |
| `Schedule.Validate` | internal/storage/schedule.go:76-112 | no problem exactly when the time zone is known and every profile and window is valid; the problem reported is real and nothing checked before it has one; the default time zone is filled in |
| `Schedule.ResolveSchedule` | internal/storage/schedule.go:144-276 | the code, nil and disabled settings included; in force is the first window with a current occurrence and its profile, until the first instant at its end; else the default profile, until the first instant at which a window starts |
| `Schedule.MatchWindow` | internal/storage/schedule.go:173-219 | the first-match loop |
| `Schedule.DayMatch` | internal/storage/schedule.go:183-189 | the loop over the days |
| `Schedule.SoonestStart` | internal/storage/schedule.go:241-253 | the loop for the soonest start |
| `Pagination.CursorRoundTrip` | internal/storage/queries.go:96-116 | decoding inverts encoding if and only if both parts are empty, or both non-empty and free of NUL |
| `Pagination.DecodedCursorEncodes` | internal/storage/queries.go:103-116 | a cursor that decodes is the encoding of its parts |
| `Pagination.SearchIsContainment` | internal/storage/queries.go:135-139 | with the escapes, LIKE matches exactly what contains the query, wildcards taken literally |
| `Pagination.SearchFindsText` | internal/storage/queries.go:135-139 | the search condition on description and key |
| `Pagination.SameLetter` | internal/storage/queries.go:135-139 | the search tells letters apart except a capital A to Z from its small letter |
| `Pagination.AcceptsWhatIsListed` | internal/storage/queries.go:118-139 | a row passes the filter exactly when day, direction and text are as asked for |
| `Pagination.DateBounds` | internal/storage/queries.go:122-129 | a row is listed by the day of its transaction, or of its first sight if that is unknown; a row of unknown day passes every upper bound |
| `Pagination.RangeIsExactIff` | internal/storage/queries.go:122-129 | a date range lists a row exactly as it should if and only if the row is not one of unknown day first seen after the range |
| `Pagination.BeforeIsStrictOrder` | internal/storage/queries.go:198 | newest first, then id, is a strict total order of rows with different ids |
| `Pagination.LessIsLexicographic` | internal/storage/queries.go:198 | texts are compared at the first character that differs; a proper prefix is smaller |
| `Pagination.ListedInOrder` | internal/storage/queries.go:182-198 | the listing holds each row that is asked for as often as the table does and no other, newest first, then by id |
| `Pagination.TotalsOfOne` | internal/storage/queries.go:146-158 | one row counts once, with its credit as incoming and its debit as outgoing |
| `Pagination.TotalsAdd` | internal/storage/queries.go:146-158 | and the totals of two lists are the sums |
| `Pagination.DirectionsLoseNothing` | internal/storage/queries.go:130-134 | narrowing a listing to credits or debits keeps the incoming or outgoing total |
| `Pagination.WhereSort` | internal/storage/queries.go:182-198 | filtering a sorted listing and sorting what the filter keeps are the same |
| `Pagination.RowsPast` | internal/storage/queries.go:171-174 | the rows past the n-th row of the listing are the rest of the listing |
| `Pagination.PageOf` | internal/storage/queries.go:199-239 | one page is the next rows of the listing, and there is a next cursor exactly when rows are left |
| `Pagination.NextCursorWorks` | internal/storage/queries.go:235-239 | the next cursor decodes to the last row of the page |
| `Pagination.ListingFacts` | internal/storage/queries.go:146-158 | the summary is the totals of the listing |
| `Pagination.ListTransactionsFiltered` | internal/storage/queries.go:118-241 | one page, or the cursor error |
| `Pagination.FollowCursors` | internal/storage/queries.go:118-241 | following nextCursor terminates and lists every matching row exactly once, newest first, for any limit; the summary is the totals over all pages |
| `HistoryFetch.BudgetBounds` | internal/monitor/monitor.go:224-230 | the page budget stays between its initial value and max(initial, 50) |
| `HistoryFetch.LargestTotalIs` | internal/monitor/monitor.go:224-226 | the total is the largest any page has stated |
| `HistoryFetch.BudgetIs` | internal/monitor/monitor.go:224-230 | the budget is the initial one or a tenth of the largest total plus two, whichever is more, the last as long as it came to no more than fifty pages |
| `HistoryFetch.FirstOccurrencesAreThat` | internal/monitor/monitor.go:209-222 | the kept rows have distinct numbers, the same set of numbers |
| `HistoryFetch.FirstIsKept` | internal/monitor/monitor.go:209-222 | and each is the first with its number |
| `HistoryFetch.KeptInOrder` | internal/monitor/monitor.go:209-222 | the kept rows stand in the order of the pages |
| `HistoryFetch.KeptAreThePages` | internal/monitor/monitor.go:209-222 | every number of every page read is kept once, and nothing else |
| `HistoryFetch.FetchHistoryRange` | internal/monitor/monitor.go:158-275 | terminates within max(initial, 50) pages for any bank; the rows are those of the pages read, each number once, in order; Complete if and only if the last page has no next and the rows reach the largest total; every failure hands over what came before |
| `HistoryFetch.KeepNew` | internal/monitor/monitor.go:209-222 | the dedupe loop |
| `HistoryFetch.HonestFetch` | internal/monitor/monitor.go:224-240 | against a bank that answers ten rows a page with the true total, Complete if and only if the rows number less than 490 or fit the initial budget, and then all rows are returned |
| `CatchUp.FreshMeansSettledIff` | internal/storage/coverage.go:62-76 | every sync that still counts for a past day was made after the day ended, if and only if the day is not yesterday or yesterday ended two hours ago |
| `CatchUp.HandledIsSettled` | internal/monitor/monitor.go:798-808 | what a run passes over or fetches is settled, except yesterday in those two hours |
| `CatchUp.RunSettlesDays` | internal/monitor/monitor.go:795-856 | after a run that got through, each past day has been fetched completely after its end, with that exception |
| `CatchUp.StartDayIs` | internal/monitor/monitor.go:751-766 | a run starts at the day the checkpoint reaches, yesterday without one, a week back at most and never after today |
| `CatchUp.Monitor.MarkDone` | internal/monitor/monitor.go:841-842 | a completed day is recorded |
| `CatchUp.RecordedCovers` | internal/storage/coverage.go:86-112 | recording coverage covers exactly the given days |
| `CatchUp.Monitor.CheckRangeCoverage` | internal/storage/coverage.go:20-83 | covered exactly when every day of the range has a sync no older than thirty seconds for today, two hours for yesterday, a day for any other |
| `CatchUp.Monitor.RecordCoveragePerDay` | internal/storage/coverage.go:86-112 | the upsert loop |
| `CatchUp.Monitor.SaveCheckpoint` | internal/storage/checkpoints.go:32-44 | the upsert of the checkpoint |
| `CatchUp.Monitor.Fetch` | internal/monitor/monitor.go:201-204 | the fetch, with the back-off a maintenance page starts |
| `CatchUp.Monitor.HandleDay` | internal/monitor/monitor.go:795-853 | one day: passed over when a past day is covered, else done only if fetched to the end and ingested; on any failure neither checkpoint nor coverage moves |
| `CatchUp.Monitor.CatchUp` | internal/monitor/monitor.go:733-862 | wherever the run ends, the checkpoint vouches only for days from the clamped start that were covered or fetched complete and ingested, and joins on to the previous one unless the 7-day clamp fired |
| `CatchUp.Monitor.KeepUp` | internal/monitor/monitor.go:754-766 | over any chain of catch-ups without a clamp, with any range syncs between them, the checkpoint vouches for every day from the same first day on |
| `CatchUp.Monitor.SyncRange` | internal/monitor/monitor.go:300-385 | the sync of a range under the upstream lock, coverage checked again first: on success every day of the range is covered, on failure coverage is unchanged |
| `CatchUp.Monitor.EnsureHistory` | internal/monitor/monitor.go:279-385 | the range request with its checks: on success the range is valid, the connection monitors and every day is covered; on failure coverage is unchanged |
| `VoiceQueue.StepKeepsInv` | web/src/features/voice-announcements/voice-queue.ts:28-89 | every enqueue, cancel, clear, settling and pause keeps the invariant, in any order |
| `VoiceQueue.Reachable` | web/src/features/voice-announcements/voice-queue.ts:5-90 | in every interleaving |
| `VoiceQueue.OneCallbackEach` | web/src/features/voice-announcements/voice-queue.ts:46-55 | a message gets exactly one callback once it is neither waiting nor spoken nor next in line to fail, and none before |
| `VoiceQueue.CallbacksAreRight` | web/src/features/voice-announcements/voice-queue.ts:46-81 | over every run: a message has its success if and only if its utterance was settled with success while its activation carried the current operation id; it has its error if and only if its utterance failed, or succeeded under an older id, or it was next in line to fail after a cancel or clear |
| `VoiceQueue.OperationIdCountsCancels` | web/src/features/voice-announcements/voice-queue.ts:72-77 | the operation id is the number of cancels so far |
| `VoiceQueue.CurrentIffNoCancelSince` | web/src/features/voice-announcements/voice-queue.ts:35-69 | an activation carries the current id if and only if nothing was cancelled since it began |
| `VoiceQueue.SpeakingMeansOneSpeaker` | web/src/features/voice-announcements/voice-queue.ts:35-43 | the state is speaking if and only if one activation, and only one, carries the current operation id |
| `VoiceQueue.QuietMeansAllCalledBack` | web/src/features/voice-announcements/voice-queue.ts:35-41 | with no activation left and no cancelled message still to fail, nothing is waiting and every message has had its callback |
| `VoiceQueue.SuccessesInOrder` | web/src/features/voice-announcements/voice-queue.ts:46-52 | successes occur in the order of enqueueing |
| `VoiceQueue.CancelIsFinal` | web/src/features/voice-announcements/voice-queue.ts:72-81 | after a cancel no message enqueued before it succeeds any more |
| `VoiceQueue.Queue.Enqueue` | web/src/features/voice-announcements/voice-queue.ts:28-33 | the method, with its start of an activation when idle |
| `VoiceQueue.Queue.ProcessNext` | web/src/features/voice-announcements/voice-queue.ts:35-47 | up to its first await |
| `VoiceQueue.Queue.SpeechSettled` | web/src/features/voice-announcements/voice-queue.ts:46-55 | success exactly if the speech succeeded under the current operation id, else an error; the activation ends exactly after a success under an older id |
| `VoiceQueue.Queue.CheckCancelled` | web/src/features/voice-announcements/voice-queue.ts:57-63 | the check after the callback |
| `VoiceQueue.Queue.PauseEnded` | web/src/features/voice-announcements/voice-queue.ts:65-69 | the check after the pause and the next message |
| `VoiceQueue.Queue.FailAll` | web/src/features/voice-announcements/voice-queue.ts:78-80 | one error callback after the other, each of which may enqueue, cancel or clear again, to any depth |
| `VoiceQueue.Queue.Cancel` | web/src/features/voice-announcements/voice-queue.ts:72-81 | the flush is one step, each error callback one more; every message that waited gets its error whatever the callbacks do |
| `VoiceQueue.Queue.Clear` | web/src/features/voice-announcements/voice-queue.ts:83-89 | the same without cancelling the engine |
| `Flights.StepKeepsInv` | internal/monitor/singleflight.go:17-40 | every step of any caller keeps table, flights and callers in step |
| `Flights.Reachable` | internal/monitor/singleflight.go:17-40 | in every interleaving |
| `Flights.OneComputationPerKey` | internal/monitor/singleflight.go:18-29 | at most one computation per key at a time |
| `Flights.EntriesBelongToCallers` | internal/monitor/singleflight.go:35-37 | no entry outlives the call that made it |
| `Flights.ResultIsShared` | tts-gateway/app/cache.py:75-102 | callers that get a result from one flight get the same one |
| `Flights.JoinersGetTheResult` | internal/monitor/singleflight.go:22-26 | without cancellation every caller returns the result of the owner, and while a joiner waits the owner is computing |
| `Flights.StrandedIffOwnerCancelled` | tts-gateway/app/cache.py:88-99 | a flight is left pending for good exactly when its owner was cancelled (and no joiner was) |
| `Flights.StrandedForGood` | tts-gateway/app/cache.py:101-102 | its joiners then wait for ever unless one of them is cancelled |
| `Flights.CancelledOwnerStrandsJoiner` | tts-gateway/app/cache.py:88-102 | a run in which that happens |
| `Flights.DroppedIffJoinerCancelled` | tts-gateway/app/cache.py:101-102 | over any run, a flight is cancelled exactly when a joiner waiting for it was cancelled while it was pending |
| `Flights.OwnerFailsIffJoinerCancelled` | tts-gateway/app/cache.py:90-94 | over any run, an owner that finishes its computation ends with an invalid-state error if and only if a joiner of its flight was cancelled before, and otherwise with its own result |
| `Flights.CancelledJoinerFailsOwner` | tts-gateway/app/cache.py:101-102 | an instance: two callers, the joiner cancelled |
| `SingleFlight.Group.Begin` | internal/monitor/singleflight.go:18-29 | the first locked section: the flight on file for the key is joined, else one is started |
| `SingleFlight.Group.Complete` | internal/monitor/singleflight.go:31-32 | the result set, the waiters released |
| `SingleFlight.Group.Remove` | internal/monitor/singleflight.go:34-39 | the second locked section |
| `SingleFlight.Group.Await` | internal/monitor/singleflight.go:24-26 | a joiner at the wait group |
| `SingleFlight.Group.Do` | internal/monitor/singleflight.go:17-40 | the first caller gets what its function returned, a joiner the result of its flight, with other goroutines in between |
| `TtsCache.TotalWithout` | tts-gateway/app/cache.py:61-62 | removing an entry lowers the sum of sizes by its size |
| `TtsCache.Cache.Get` | tts-gateway/app/cache.py:36-46 | an entry within its time to live, else it is dropped; the byte counter stays right and both limits hold |
| `TtsCache.Cache.Set` | tts-gateway/app/cache.py:48-73 | the counter equals the sum of sizes, the byte limit holds, the count limit holds if and only if max_items >= 1; nothing else goes while there is room; evicted entries are the oldest and the last eviction was needed |
| `TtsCache.Cache.Trim` | tts-gateway/app/cache.py:61-70 | the eviction loop: terminates, oldest first, no more than needed |
| `TtsCache.Cache.Oldest` | tts-gateway/app/cache.py:66 | a key of an oldest entry |
| `TtsCache.Cache.Drop` | tts-gateway/app/cache.py:56-59 | an entry taken out with its bytes |
| `TtsCache.Cache.Join` | tts-gateway/app/cache.py:75-86 | the second locked section of get_or_compute |
| `TtsCache.Cache.Computed` | tts-gateway/app/cache.py:88-94 | the result stored and the future settled with it; a cancelled future refuses it, and the entry is stored all the same |
| `TtsCache.Cache.OwnerCancelled` | tts-gateway/app/cache.py:95-99 | a cancellation passes the exception handler by |
| `TtsCache.Cache.Finally` | tts-gateway/app/cache.py:98-99 | the key is taken out whatever happened |
| `TtsCache.Cache.AwaitFuture` | tts-gateway/app/cache.py:101-102 | a joiner at its await |
| `TtsCache.Cache.JoinerCancelled` | tts-gateway/app/cache.py:101-102 | a cancelled joiner |
| `HistoryParser.MoneyRoundTrip` | internal/acb/parser.go:213-239 | an amount decorated with separators, spaces and currency letters is read as that amount, in parentheses as its negative, exactly as long as it fits into 64 bits |
| `HistoryParser.MoneyIsReadIff` | internal/acb/parser.go:213-239 | exactly which texts are amounts and of what sign and value: spaces aside, nothing or a dash is 0; otherwise, without parentheses at the ends, only digits, separators and currency letters with at least one digit and at most 64 bits; negative if and only if it begins with an opening and ends with a closing parenthesis |
| `HistoryParser.RowRoundTrip` | internal/acb/parser.go:184-211 | a row that shows a transaction, each value in its column and the amounts in any decoration, is read back as that transaction |
| `HistoryParser.RowIsReadIff` | internal/acb/parser.go:184-211 | exactly which rows are transactions: number and date present, debit and credit amounts, the balance an amount or empty |
| `HistoryParser.RowTextJoins` | internal/acb/parser.go:62-72 | the text of a row is its cells that are not blank, in order, one space between two |
| `HistoryParser.MarkerAndFooterIff` | internal/acb/parser.go:75-82 | a marker and a footer row contain one of the listed texts anywhere |
| `HistoryParser.ColumnIndexes` | internal/acb/parser.go:161-182 | each of the seven columns is the last cell with one of its names, -1 without one |
| `HistoryParser.DateColumnsAreVietnamese` | internal/acb/parser.go:161-182 | each date column is found if and only if some cell normalises to its Vietnamese name, so the English names, which hold spaces, are never recognised |
| `HistoryParser.HistoryHeader` | internal/acb/parser.go:138-146 | the first row with a cell for the number, the transaction date, the debit and the credit, and its columns |
| `HistoryParser.ParseTable` | internal/acb/parser.go:54-104 | the row loop with its look-ahead does what reading row by row without it does |
| `HistoryParser.LookedAhead` | internal/acb/parser.go:85-102 | the look-ahead takes the row the next round would take |
| `HistoryParser.ReadingIsExpectedFrom` | internal/acb/parser.go:55-104 | from any state the loop yields the expected transactions |
| `HistoryParser.TableIsAccountedFor` | internal/acb/parser.go:55-104 | a table is read if and only if every row is blank, a transaction, the description of the transaction before it, a marker or a footer; the transactions are then the expected ones in order, each with its own description or that of the following row |
| `HistoryParser.AcceptedTable` | internal/acb/parser.go:55-104 | the same of a table of a page, with the rows that count as a marker |
| `HistoryParser.FooterBecomesDescription` | internal/acb/parser.go:61-102 | in any table, a footer with only blank rows between it and a transaction without description becomes the description of that transaction |
| `HistoryParser.OtherFootersLeaveNoTrace` | internal/acb/parser.go:61-82 | any other footer leaves no trace: the table yields the same without it |
| `HistoryParser.ParseHistoryPage` | internal/acb/parser.go:32-129 | the first table that fails or has transactions decides: its rows are all of the five kinds and its transactions the expected ones, or it is refused for a row of no kind; an empty result only if a recognised table held a marker |
| `Backfill.EveryRowHasADay` | internal/storage/transactions.go:297-350 | after the backfill every row has a day, the empty one only if its date cannot be parsed |
| `Backfill.NothingLeftToFill` | internal/storage/transactions.go:307-313 | backfilling again finds nothing to do |
| `Backfill.AllFilled` | internal/storage/transactions.go:307-350 | each row that lacked a day gets the one its date is parsed to, or the empty one and the unknown marker; every other row stays as it is |
| `Backfill.Store.NextBatch` | internal/storage/transactions.go:307-323 | the next batch of at most 200 rows, empty only when none is left |
| `Backfill.Store.FillBatch` | internal/storage/transactions.go:331-350 | one batch: parsed day or the unknown marker, row by row, with the count |
| `Backfill.Store.BackfillCanonicalDates` | internal/storage/transactions.go:297-350 | terminates, fills exactly the rows that lacked a day, each from its own date, and returns how many could be parsed |
| `Pipeline.StepKeepsInv` | internal/storage/transactions.go:117-294 | every step of any part keeps the tables in agreement: one journal row per event in sequence, one delivery row per queued event and endpoint, the same active endpoints and the same connection |
| `Pipeline.Reachable` | internal/storage/transactions.go:117-294 | they agree in every interleaving of connection, administration, batches, stream and dispatchers |
| `Pipeline.TicketsExist` | internal/storage/transactions.go:252-264 | fresh delivery rows for a batch exist in every state |
| `Pipeline.RunProjects` | internal/storage/storage.go:81-94 | every run is a run of each part, so the theorems of the parts hold in it |
| `Pipeline.BatchLandsOnlyWhileMonitoring` | internal/storage/transactions.go:127-136 | a batch changes the ledger only while the connection monitors at its generation, with that session stored |
| `Pipeline.OneEntryEach` | internal/storage/transactions.go:266-288 | a number has an entry in the journal of the stream exactly when its first observation called for one, and then just one |
| `Pipeline.SentAreCredits` | internal/httpapi/sse.go:83-127 | whatever the stream sends is the event of a stored row that is no baseline, has a credit above zero and a source that is neither FILTER_SYNC nor BOOTSTRAP; no credit is sent twice |
| `Pipeline.CreditsReachTheStream` | internal/httpapi/sse.go:83-130 | a stream at rest with no hint waiting has sent every credit that was published, lies above its start and was not deleted unread |
| `Pipeline.RunKeepsDeliveries` | internal/storage/transactions.go:171-180 | in every later state a number on file keeps its row and exactly its deliveries |
| `Pipeline.CreditsReachTheEndpoints` | internal/storage/transactions.go:138-264 | from the batch that stores a number on, in every later state, said of the columns of its first usable item: one journal entry if and only if it is a credit, no baseline and neither from a filter sync nor a bootstrap; one delivery row, pending and due at once when queued, for each endpoint that was active at that moment if besides it was seen in real time or while catching up, and none for any other endpoint |
| `Pipeline.StoredIsDue` | internal/storage/transactions.go:252-264 | the delivery row of a credit just stored is pending with no attempt, due at once |

## Left out

- `EventStream.CursorAcceptedIffNothingLost`: stated for rows stamped in sequence order; `CheckIsExactIffPrefixDeleted` and `ExactAfterRetentionIffStampedInOrder` are the general condition.
- `StreamHandler.Server.WriteEntry`: the payload is sent as it is; the redaction of its fields is not modelled.
- `MoneyVi.ReadersAgreeBelow1000Billion`: stated for amounts below 10^36; beyond, where no int64 goes, the two scale rules can coincide by accident.
- `Pagination.FollowCursors`: requires what every stored row has, a non-empty time stamp and id without NUL; `CursorRoundTrip` says what fails otherwise. Sums are unbounded.
- `Pagination.CursorRoundTrip`: the base64 layer of the cursor is left out as an invertible encoding.
- `CatchUp.Monitor.EnsureHistory`: days are integers, so the parsing of the two dates is not modelled; the coalescing of equal requests is `SingleFlight` and `Flights`.
- `CatchUp.Monitor.CatchUp`: the form extraction, the session restore and the bootstrap are the one parameter `bankReady`; dates are integers.
- `HistoryFetch.FetchHistoryRange`: a bank answers by request number only; the fields it is sent are not modelled.
- `HistoryParser.ParseHistoryPage`: takes tables of trimmed cells; the extraction of cells from the markup and the detection of pagination are not part of this model, nor are lower-casing and normalising (parameters).
- `Ingest.Ledger.IngestTransactionsBatch`: payload texts, date normalisation and the masked account are not modelled.
- `Channels.ChannelStore.CreateBarkChannel`: a missing keyring and the normalisation of the Bark settings are not modelled; the settings are one text.
- `Channels.ChannelStore.UpdateChannel`: the validation of the URL beyond being non-empty and the normalisation of the Bark settings are not modelled.
- `Channels.ChannelStore.RotateSecret`: encryption and a missing keyring are not modelled; secrets are plain values.
- `Channels.ChannelStore.DeliveryTarget`: decryption failures, and the fallback to current revision and key for rows without a pin, are not modelled; every delivery the model queues has a pin.
- `Outbox.NoClaimBeforeTheBackoff`: stated for backoff tables without negative entries, like the default one; with any table, the first claim after the retry waits for its due time (`PendingUntilDue`, `WhatASettlementLeaves`).
- `Outbox.Store.DispatchOne`: the send, the payload and the target look-up are one nondeterministic outcome.
- `Schedule.ResolveSchedule`: which time zone names exist is a parameter of `Validate`; daylight saving is not modelled.
- `VoiceQueue.Queue.Cancel`: the engine's own cancel is not modelled beyond the utterance being settled later, or never; state-change notifications are left out.
- `TtsCache.Cache.Finally`: a second cancellation that arrives while the first is being cleaned up is not modelled; it would leave the key in the table.
- `TtsCache.Cache.Get`: keys are plain texts, so the hash of the request is left out, and cached voices are carried but not interpreted.
- Heartbeats and the wire format of the stream.
- Expiry of poll runs, `EmitTransactionEvent`, `IngestTransaction`, `CreateEndpoint`, `DeleteSession`: older or unused paths.
- The unsynchronised increment of the hub's drop counter: the model counts every drop.
- The poll loop, circuit breaker, HTTP handlers, configuration, the interactive browser, the React pages, telemetry and audit logs: plumbing around these protocols.
- Encryption, HMAC and hashing as such.
