# A verified model of the mmmbbb message bus

mmmbbb is a Pub/Sub-compatible message bus that keeps its state in a SQL database. This project models, in
Dafny, the part of it that decides who gets which message when, and proves what that part guarantees.

## What is modelled

**The delivery state machine.** The tables `topics`, `subscriptions`, `messages`, `deliveries` and `snapshots`
are maps in a value of type `Types.DB`. Module `Actions` gives every action of `actions/` as one function of
the tables, and puts the actions together as steps (`Step`, `Enabled`, `Apply`). Module `Runs` defines a run: any
sequence of committed steps at times that do not go backwards. Module `Effects` says what a step may do to a row, and
`StepEffects` proves it for each action; the guarantees over whole runs (`Ordering`, `Leases`, `DeadLetters`,
`Snapshots`, `Retention`, `Wakeups`) are inductions over those effects.

**What each action does to the rows.** Module `Laws` says of every kind of step, in terms of the fields of the rows alone and without
the functions that define the step, what it does to each row and what it leaves alone. With its laws, every notion
that the other theorems speak of (what is due, what has used up its attempts, what an ack completes, what a seek reopens) is tied
to the columns the code reads and writes. `Replies` does the same for what the actions report back: counts, and the
entries a client receives.

**The actions as code.** Class `Bus.MessageBus` holds the tables as fields. Its methods follow the actions'
own control flow (the loops, branches, early returns and error results) and update the fields in place. Each is
proved to do one of two things: fail and leave everything as it was, or make exactly one step of a run, with
commit hooks that make exactly the calls to the registry of waiters that the step must make, grouped as the
code groups them (`Commits.CallsFor`). So what is proved of runs holds of any sequence of calls, and what is proved of
`PullWait`, whose transactions make those same calls, holds of these methods' hooks. A query that does not fix its order or that has a limit may
return any rows it is allowed to (`Queries`).

**The waiters.** `Notify` models the in-memory registry twice: as operations on a value, about which
the theorems are, and as class `Notify.Waiters`, whose loops close channels one by one and are proved equal to
those operations. A precondition of `Close` is that the channel is open, so no method can close one twice.

**Two concurrent protocols**, as machines that interleave the atomic actions of their parties. `PullWait` has waiting
pulls, which register before they query, and transactions, which commit before they wake; it runs on the registry of `Notify`
and the steps of `Actions`. `Streamer` has the reader, sender, refresher, automatic delayer and closer of a
message stream, around the shared flow control, the map of pending messages and the one-slot wake channel.
`PushConn` is the HTTP push connection whose window drives a stream.

## Assumptions

- Transactions are serialized, the clock does not go backwards, and one transaction reads it once.
- Ids are natural numbers in order of creation. No action depends on more than their being distinct; the proofs use the
  order to show that links cannot form a cycle.
- Filter evaluation, the CRC-32 behind the fuzz and the order of unordered query results are arbitrary functions
  (`Types.Oracle`), constrained only as the code constrains them.
- `float64` backoff arithmetic is done over reals.
- The foreign keys act as `ent/migrate/schema.go` declares: deleting a delivery clears the links to it (lines 43-48), deleting
  a topic clears dead-letter references to it (lines 179-184), and the others refuse the deletion.
- Where a theorem over runs needs more, its hypothesis is a named predicate: `Ordering.Disciplined`, `Leases.Patient`,
  `Snapshots.Direct`, `Retention.NothingDeleted`, `PullWait.Calm`.

## Where the code and its words differ

The model follows the code.

- The first retry waits min·1.1, not min as the comment on `NextDelayFor` says. `Backoff.FirstLease` gives the exact
  settings for which it does wait min.
- The snapshot's "left join" filters on the joined subscription, so messages without a delivery are not listed
  (`actions/create-snapshot.go:147-158`). The compression is still exact, except for rows published at the very instant of a
  snapshot that finds nothing open: `Snapshots.SnapshotIsExact` gives the exact condition, and `Failures.CanLoseAck` a run
  in which a seek undoes an ack that the snapshot saw.
- `nextAttempt` promises the earlier of the next attempt and the next expiry, but both of its queries order by attempt time
  (`actions/get-subscription-messages.go:353-364`), so it reads the expiry of the row that is attempted first, not the first
  expiry. A pull never sleeps past a row that is eligible when it goes to sleep (`Wakeups.NeverOversleeps`). But on an ordered
  subscription it can sleep past one that is blocked then and gets free when its predecessor expires: `Failures.CanOversleep`
  is a run in which such a delivery expires before the pull looks again (unless the background job prunes the expired
  predecessor in time, which wakes the pull). `Wakeups.SleepsWell` gives the exact condition, and
  `Wakeups.DisciplineSleepsWell` shows that it always holds under the discipline that ordered delivery asks for.
- `WakePublishListeners` returns, rather than continues, at the first subscription without a wait set. `Notify.WakesMany`
  says exactly whom a call for several subscriptions reaches, and `Notify.EarlyReturnLosesWake` shows a lost wake. Only
  the release of deliveries of several subscriptions at once makes such calls (`Commits.CallsShape`), and `PullWait.NoLostWakeup`
  shows that a pull can miss a wake in no other way.
- A nack that reschedules a delivery wakes nobody, though it can bring the next attempt forward
  (`Wakeups.RescheduleIsSilent` says exactly when, and `Failures.CanHastenSilently` is a run that does it).
- The comparator of the sort in `applyResults` reads another slice, so the order of the updates is arbitrary
  (`Queries.AnyOrder`).
- The lookup of an ordered delivery's predecessor ignores the order key: order is kept per subscription, not per key.

## Model

| member | source | states |
|---|---|---|
| Laws.DueLaw | actions/get-subscription-messages.go:281-342 | A pull's query returns a row only if it is open, unexpired, at its attempt time, and its predecessor in an ordered subscription is completed or expired; and if there is room, every such row |
| Laws.QueryLaw | actions/get-subscription-messages.go:281-300 | The subscription is live, and the rows come by attempt time, without repetition, no more than asked for |
| Laws.FateLaw | actions/get-subscription-messages.go:402-473 | Row by row of the result: left alone if it does not fit beside the rows handed out before it, completed if it has used up its attempts, else one more attempt and a lease by its new count |
| Laws.DeliveryLaw | actions/get-subscription-messages.go:281-473 | At least once: a pull with room for another row hands out every due row that nothing holds back, or completes it at its limit, unless its payload does not fit beside what is handed out |
| Laws.PullLeavesRest | actions/get-subscription-messages.go:379-394 | A pull leaves all other rows and tables alone but for dead-letter copies and the subscription's expiry, a lifetime from now |
| Laws.EligibleLaw | actions/get-subscription-messages.go:309-342 | What is eligible and what is due, in fields, for the theorems that speak of them |
| Laws.NothingDueLaw | actions/get-subscription-messages.go:309-342 | There is nothing to deliver exactly when each open, unexpired row at its attempt time is held back by an open unexpired, or vanished, predecessor |
| Laws.WakeLaw | actions/get-subscription-messages.go:345-377 | The wake time is no later than any eligible row's attempt, and is the attempt or expiry of one |
| Laws.AckLaw | actions/ack-deliveries.go:77-100 | An ack completes, now, every open row it names, handed out or not, and nothing else changes |
| Laws.NackLaw | actions/nack-deliveries.go:77-136 | A nacked pending row is completed if both halves of the dead-letter configuration are there and its attempts have reached a positive limit; otherwise it stays open, its attempt a lease from now; other rows stay as they are |
| Laws.DelayLaw | actions/delay-deliveries.go:77-106 | A delay sets the attempt time of every open row it names, a positive one only if that is later |
| Laws.BackgroundLaw | actions/dead-letter-deliveries.go:75-131 | The background job completes only open, unexpired rows of live subscriptions at their limit whose lease is over, and all of them unless there are more than it may take |
| Laws.OwedLaw | actions/delivery-utils.go:144-172 | A dead letter owes one copy to each live subscription of its live dead-letter topic that wants the message, and none to others |
| Laws.PublishLaw | actions/publish-message.go:81-110 | A publish to a live topic stores payload, attributes and order key as given, and adds only new deliveries |
| Laws.TargetLaw | actions/publish-message.go:112-125 | New deliveries go to exactly the live subscriptions of the topic without a filter, with an empty one, or with one that matches, one each |
| Laws.NewRowLaw | actions/delivery-utils.go:47-108 | Every field of a new delivery: due after the delivery delay, expiring after the message lifetime, and linked exactly when ordered, keyed and not the first, to the newest unexpired one |
| Laws.SeekToTimeLaw | actions/seek-subscription-to-time.go:95-117 | The row after the seek, field by field: completed now, left alone, or reopened with a whole message lifetime and due at once |
| Laws.SeekToSnapshotLaw | actions/seek-subscription-to-snapshot.go:109-156 | The same for a snapshot seek, which reopens expired rows too |
| Laws.ReopenedIsDue | actions/seek-subscription-to-snapshot.go:140-156 | A row that either seek reopens is due at once and expires a message lifetime later |
| Laws.SnapshotLaw | actions/create-snapshot.go:104-166 | A new snapshot lasts a week, and its threshold is the earliest publish time of an open unexpired row, or now |
| Laws.ListedLaw | actions/create-snapshot.go:137-166 | It lists exactly the topic's messages from the threshold on with a completed delivery on the subscription |
| Laws.TouchLaw | actions/get-subscription-messages.go:388-394 | Using a subscription moves its expiry to a lifetime from now, and nothing else |
| Laws.CreateTopicLaw | actions/create-topic.go:62-80 | A topic is created only if no live one has its name |
| Laws.CreateSubscriptionLaw | actions/create-subscription.go:62-149 | A subscription is created only on live topics, with both or neither half of a dead-letter configuration, and only if no live one has its name |
| Laws.DeleteSubscriptionLaw | actions/delete-subscription.go:60-102 | Deleting marks the live subscriptions of that name and nothing else |
| Laws.DeleteExpiredLaw | actions/delete-expired-subscriptions.go:49-99 | The expiry job marks only live subscriptions whose expiry has passed, and all of them unless there are more than it may take |
| Laws.DeleteTopicLaw | actions/delete-topic.go:57-103 | Deleting marks the live topics of that name and drops exactly their snapshots |
| Laws.PruneDeliveriesLaw | actions/prune-completed-deliveries.go:46-70 | The three prunes of deliveries remove only rows completed long enough ago, expired, or of subscriptions deleted long enough ago, and all of them unless there are more; links to them are cut |
| Laws.PruneMessagesLaw | actions/prune-completed-messages.go:46-78 | So for old messages without deliveries |
| Laws.PruneSubscriptionsLaw | actions/prune-deleted-subscriptions.go:49-90 | So for old deleted subscriptions without deliveries |
| Laws.PruneTopicsLaw | actions/prune-deleted-topics.go:47-90 | So for old deleted topics without subscriptions, messages and snapshots, which stop being dead-letter topics |
| Replies.PullReply | actions/get-subscription-messages.go:429-451 | A client is told of exactly the rows attempted once more, each once, with the message as published, the new attempt count and the new attempt time |
| Replies.NackReply | actions/nack-deliveries.go:77-140 | The counts of a nack: the pending rows it names, and the rows that became completed |
| Replies.BackgroundReply | actions/dead-letter-deliveries.go:115-131 | The count is the number of rows that became completed |
| Replies.SeekToTimeReply | actions/seek-subscription-to-time.go:95-132 | The counts are the rows that became completed and the rows that became open |
| Replies.SeekToSnapshotReply | actions/seek-subscription-to-snapshot.go:109-165 | The same for a snapshot seek, though it acks in two passes |
| Replies.ModifiedAreCalled | actions/notify.go:166-192 | What waits for changes of a topic or subscription is called, with its id and name, when one is created or deleted, and so are the internal waits for publishes to that subscription |
| Ordering.OrderedDelivery | actions/get-subscription-messages.go:318-342 | In every disciplined run, a delivery of an ordered subscription is handed out only when every earlier-published delivery still in the table is completed or expired |
| Ordering.RunKeepsOrder | actions/delivery-utils.go:81-104 | The chain invariant behind it: at every state of the run, each earlier delivery is done or reached from the later one through `notBefore` links |
| Ordering.StepKeepsOrder | actions/prune-completed-deliveries.go:52-59 | Every kind of step, prunes that cut links included, keeps that invariant |
| Ordering.OrderingNeverStuck | actions/get-subscription-messages.go:318-342 | A subscription with pending unexpired deliveries always has one that its ordering does not block |
| Ordering.RunNeverStuck | actions/delivery-utils.go:81-104 | The same in every state of every run, seeks included, at any time |
| Leases.StepKeepsLeases | actions/nack-deliveries.go:115-136 | Without seeks and non-positive delays, every attempted row keeps attemptAt at least a lease after its latest attempt |
| Leases.RunSpaced | actions/get-subscription-messages.go:404-473 | The hand-outs of a delivery over a whole run are a lease apart, the lease of the attempt count each left behind |
| Leases.BackoffOverRun | actions/get-subscription-messages.go:429-473 | n + 1 hand-outs of one delivery take at least the sum of the first n backoff delays |
| DeadLetters.RunWithinLimit | actions/get-subscription-messages.go:415-427 | In every run no delivery of a subscription with a dead-letter configuration is attempted more often than the limit |
| DeadLetters.StepWithinLimit | actions/nack-deliveries.go:115-128 | Each step, whichever of the three paths it takes, keeps attempts within the limit |
| DeadLetters.BatchConserves | actions/delivery-utils.go:129-181 | The rows a batch adds are, with multiplicity, one per dead letter and live matching subscription of its live dead-letter topic; none if the topic is gone |
| DeadLetters.BackgroundConserves | actions/dead-letter-deliveries.go:75-131 | The background job completes every selected row and sends exactly what they owe |
| DeadLetters.NackConserves | actions/nack-deliveries.go:115-136 | A nack dead-letters exactly the rows that have used up their attempts (in fields: `Laws.NackLaw`) and sends exactly what they owe |
| DeadLetters.PullConserves | actions/get-subscription-messages.go:413-427 | A pull completes the rows it looked at that have used up their attempts (in fields: `Laws.FateLaw`) and sends exactly what they owe |
| Snapshots.SnapshotIsExact | actions/create-snapshot.go:120-166 | Threshold and list tell an unexpired completed row from an open one if and only if something was open or the row was published before the snapshot |
| Snapshots.SnapshotIsPast | actions/create-snapshot.go:137-166 | A snapshot lists no message that does not exist yet and has no threshold in the future |
| Snapshots.SeekFollowsSnapshot | actions/seek-subscription-to-snapshot.go:109-156 | After a snapshot seek, whether a row is completed follows from the snapshot alone, unless it had expired unacked (its other fields: `Laws.SeekToSnapshotLaw`) |
| Snapshots.SnapshotRoundTrip | actions/seek-subscription-to-snapshot.go:109-156 | Snapshot, any run, seek back: surviving unexpired rows are completed as they were, if and only if the exact condition above holds; rows published since are un-acked |
| Failures.CanLoseAck | actions/create-snapshot.go:131-135 | A run in which a seek to a snapshot undoes an ack that preceded the snapshot |
| Snapshots.StepKeepsDirect | actions/publish-message.go:112-125 | One delivery per subscription and message, published with it, is kept by every step when nothing is dead-lettered to the topic |
| Snapshots.SeekToTimeSpec | actions/seek-subscription-to-time.go:95-117 | After a seek an unexpired row is completed exactly when it was published by that time (its other fields: `Laws.SeekToTimeLaw`); other rows and tables do not change |
| Snapshots.SeekToTimeCounts | actions/seek-subscription-to-time.go:129-132 | The two counts add up to the number of rows changed |
| Snapshots.SeekToTimeAgain | actions/seek-subscription-to-time.go:95-132 | Repeating the seek at the same instant changes nothing and counts zero |
| Snapshots.SeekToSnapshotCounts | actions/seek-subscription-to-snapshot.go:109-165 | Acked and reopened rows are disjoint, are exactly the rows changed, and are counted once each |
| Snapshots.SeekToSnapshotAgain | actions/seek-subscription-to-snapshot.go:109-165 | Repeating the seek at the same instant changes nothing and counts zero |
| Retention.PublishReachesAll | actions/publish-message.go:112-125 | A publish makes exactly one open row for each live matching subscription of the topic and none for any other |
| Retention.NoSilentLoss | actions/prune-expired-deliveries.go:56-78 | In every run a delivery is still there with its message and subscription, or was at some moment completed, expired or orphaned |
| Retention.StepKeepsUnsettled | actions/prune-completed-messages.go:52-67 | No step removes a pending unexpired delivery of a live subscription |
| Retention.DeletedGainsNothing | actions/publish-message.go:81-85 | A deleted subscription stays deleted and gains no delivery |
| Retention.RunGainsNothing | actions/delivery-utils.go:148-150 | The same over whole runs |
| Retention.RowsDrain | actions/prune-deleted-subscription-deliveries.go:55-67 | In any run that deletes no further subscription, each delivery prune brings the deleted one closer to having no deliveries, whatever else happens |
| Retention.SubDrains | actions/prune-deleted-subscriptions.go:53-76 | And once it has none, each subscription prune brings its own removal closer, whatever else happens |
| Retention.DeletedSubscriptionDrains | actions/prune-deleted-subscriptions.go:53-76 | So in any such run a deleted subscription is gone after as many prunes of the two kinds as there were rows to prune, with any other steps between them |
| Runs.StepKeepsValid | ent/migrate/schema.go:27-49 | Every step keeps references intact, links within their subscription and to earlier rows, and ids fresh |
| Runs.RunValid | ent/migrate/schema.go:165-186 | So does every run: each delivery has its message and subscription, each subscription and message its topic |
| Effects.BatchDoes | actions/delivery-utils.go:129-181 | A loop of dead letters and retries over distinct rows changes each as its act says, leaves the rest, and adds only fresh rows it owes |
| Effects.DeadLetterEffect | actions/delivery-utils.go:144-172 | One dead letter completes its row and adds one row per target of the live topic, none otherwise |
| StepEffects.PullEffect | actions/get-subscription-messages.go:379-478 | A pull hands out exactly the rows its packing takes, completes exactly the rows it calls dead, and leaves every other row as it is |
| StepEffects.PullChoice | actions/get-subscription-messages.go:404-427 | Taken and dead rows are due rows of the subscription on either side of the limit, none of them twice |
| StepEffects.NackEffect | actions/nack-deliveries.go:77-137 | A nack touches only pending rows it names: exhausted ones are dead-lettered, only others are rescheduled |
| StepEffects.PublishEffect | actions/publish-message.go:100-125 | Every new row is linked, if at all, to an earlier row of the same subscription, and comes from this message |
| StepEffects.SeekToSnapshotSets | actions/seek-subscription-to-snapshot.go:109-156 | The three bulk updates amount to one ack and one reopening that do not interfere |
| StepEffects.RemoveDeliveriesEffect | ent/migrate/schema.go:43-48 | Removing rows cuts exactly the links that point to them |
| StepEffects.RemoveTopicsEffect | ent/migrate/schema.go:165-186 | Pruning topics removes only deleted, unreferenced ones and clears dead-letter references to them |
| DeliveryUtils.PredecessorIsNewest | actions/delivery-utils.go:83-104 | The link goes to an unexpired row of the subscription published no earlier than any other, and is missing only if there is none |
| DeliveryUtils.FanOutEffect | actions/publish-message.go:112-125 | A fan-out keeps old rows and adds exactly one new row for each target |
| Packing.PackFits | actions/get-subscription-messages.go:404-411 | The bytes handed out fit, except that a non-strict pull may return exactly one delivery that is too big |
| Packing.PackMaximal | actions/get-subscription-messages.go:404-411 | No row that was passed over would fit beside the final result |
| Packing.PackChooses | actions/get-subscription-messages.go:404-451 | Taken and dead rows are distinct candidates, told apart by the limit test |
| Packing.PackCounts | actions/get-subscription-messages.go:443-444 | The byte count is the size of what is taken |
| Backoff.LeaseLaw | actions/get-subscription-messages.go:490-520 | The delay from the settings: 1.1^n times the minimum, cut to the maximum and to whole nanoseconds, plus the fuzz when over half a second; missing or non-positive settings count as 10 seconds and 10 minutes |
| Backoff.GrowthCompounds | actions/get-subscription-messages.go:501-504 | Growth over m + n attempts is the product of the growths over m and n, and over one attempt it is 1.1 |
| Backoff.DelayMonotone | actions/get-subscription-messages.go:490-520 | More attempts never shorten the nominal delay |
| Backoff.DelayBounds | actions/get-subscription-messages.go:490-520 | The delay lies between min(min, max) and max; the fuzz is under a second, and zero for delays up to half a second |
| Backoff.Bernoulli | actions/get-subscription-messages.go:501-504 | 1.1^n is at least 1 + n/10 |
| Backoff.DelaySaturates | actions/get-subscription-messages.go:501-504 | From 10·(max/min − 1) attempts on the nominal delay is max |
| Backoff.FirstLease | actions/get-subscription-messages.go:479-504 | The delay after the first attempt is the minimum exactly when the ceiling is, or a tenth of the minimum rounds to nothing; by default it is 11 seconds, not 10 |
| Wakeups.NeverOversleeps | actions/get-subscription-messages.go:345-377 | The wake time is no later than the due time of any eligible delivery, and absent only if there is none |
| Wakeups.SleepsWell | actions/get-subscription-messages.go:318-377 | For every subscription and state: an undisturbed pull sleeps past no due delivery if and only if no blocked row becomes free, due and unexpired before its wake time (what is due, in fields: `Laws.EligibleLaw`) |
| Wakeups.DisciplineSleepsWell | actions/get-subscription-messages.go:318-377 | In a state of a disciplined run that is always so |
| Failures.CanOversleep | actions/get-subscription-messages.go:345-377 | A run from the empty bus after which a pull sleeps past a delivery's whole due time |
| Wakeups.SilentStep | actions/notify.go:153-192 | A step that does not wake a subscription gives it no row, completes and reopens none, and only postpones attempts, a nack that hastens a row excepted |
| Wakeups.SilentStaysLive | actions/delete-subscription.go:91-93 | A live subscription that is not woken is not deleted |
| Wakeups.RescheduleIsSilent | actions/nack-deliveries.go:129-136 | A nack of a row within its limit wakes nobody, and brings the attempt forward exactly when the new lease ends before the old attempt time |
| Failures.CanHastenSilently | actions/nack-deliveries.go:129-136 | A run in which a nack brings a delivery forward by almost an hour and wakes nobody |
| Wakeups.ParkedPullMissesNothing | actions/get-subscription-messages.go:196-235 | Until its wake time, a parked pull that is not woken has nothing to deliver, provided no row blocked at the query becomes free, due and unexpired by then; unordered subscriptions have none |
| Wakeups.ParkedOrderedPullMissesNothing | actions/get-subscription-messages.go:196-235 | Parked in a state of a disciplined run, it has nothing to deliver either, whatever follows in silence |
| Commits.Commit | ent/client-addons.go:36-76 | A committed transaction is a step of a run that keeps all references, and its hooks are the calls of that step |
| Commits.PublishCommits | actions/publish-message.go:100-125 | The rows made by the publish loop are what the step inserts, and its hooks call exactly their subscriptions, one by one |
| Commits.CallsCover | actions/notify.go:153-192 | The hooks of every step call for each subscription that must be woken, by itself unless deliveries are released together, and through external hooks too unless it was created or deleted |
| Commits.CallsShape | actions/notify.go:153-192 | No call lists a subscription twice, and only a release lists more than one |
| Commits.Round | actions/nack-deliveries.go:107-137 | In each round of a loop over distinct rows the row is as the query found it, and state and hooks advance together |
| Commits.DeadRound | actions/get-subscription-messages.go:413-427 | The same for the rounds of the packing loop that dead-letter |
| Commits.TakenUntouched | actions/get-subscription-messages.go:404-473 | Dead letters in a pull leave the rows it hands out alone |
| Commits.HandOutWakes | actions/get-subscription-messages.go:465-473 | Handing out wakes nobody |
| Queries.SelectFirst | actions/get-subscription-messages.go:296-300 | A query by attempt time with a limit returns distinct matching rows, in order, none of the others due before them |
| Queries.SelectSome | actions/prune-completed-deliveries.go:52-55 | A query with a limit returns matching rows, and all of them unless the limit is reached |
| Queries.SortIds | actions/nack-deliveries.go:89-94 | The sort before the updates orders the rows by id and loses none |
| Queries.AnyOrder | actions/get-subscription-messages.go:453-463 | The copy whose order the misdirected comparator leaves open has the same rows, each once |
| Bus.MessageBus.DeliverToSubscription | actions/delivery-utils.go:39-108 | A row is made and the subscription announced exactly when the filter is absent or matches, broken filters matching nothing |
| Bus.MessageBus.DeadLetterDelivery | actions/delivery-utils.go:129-195 | The in-place dead letter is the step's, and announces its own and the new rows' subscriptions |
| Bus.MessageBus.Publish | actions/publish-message.go:64-137 | Fails exactly when the topic is not live, changing nothing; else makes a publish step, stores what was given, and counts the live subscriptions that want it |
| Bus.MessageBus.GetMessages | actions/get-subscription-messages.go:169-204 | Fails exactly when the subscription is not live; else makes a pull step and tells the client of exactly the rows attempted, or waits, and then every row at its attempt time, open and unexpired, is held back by its predecessor |
| Bus.MessageBus.NextAttempt | actions/get-subscription-messages.go:345-377 | Returns a wake time in the sense of the two queries |
| Bus.MessageBus.Choose | actions/get-subscription-messages.go:402-451 | The packing loop takes, skips and dead-letters exactly as the greedy choice says |
| Bus.MessageBus.MarkHandedOut | actions/get-subscription-messages.go:453-473 | The update loop touches exactly the listed rows, each once, raising attempts by one, in whatever order |
| Bus.MessageBus.ApplyResults | actions/get-subscription-messages.go:379-478 | The whole transaction is the pull step, and its hooks are those of its dead letters |
| Bus.MessageBus.Touch | actions/get-subscription-messages.go:140-153 | Fails exactly when the subscription is not live; else postpones its expiry and nothing else |
| Bus.MessageBus.GiveUp | actions/get-subscription-messages.go:222-227 | A pull whose time is up postpones the expiry of its subscription, deleted or not, and fails exactly when the row is gone |
| Bus.MessageBus.Ack | actions/ack-deliveries.go:66-127 | Makes an ack step, counts the rows it names that were open, and wakes their subscriptions |
| Bus.MessageBus.Nack | actions/nack-deliveries.go:68-145 | Makes a nack step, counts the pending rows it names, and counts as dead-lettered the rows that became completed |
| Bus.MessageBus.NackAll | actions/nack-deliveries.go:97-137 | Looking subscriptions up once, before the loop, gives the same result as looking them up each time |
| Bus.MessageBus.Delay | actions/delay-deliveries.go:66-123 | Makes a delay step: positive delays only move later and call nobody, others release, with one call for all the subscriptions |
| Bus.MessageBus.DeadLetterDeliveries | actions/dead-letter-deliveries.go:66-140 | Makes a background dead-letter step over at most the allowed number of rows, and counts the rows that became completed |
| Bus.MessageBus.CreateSnapshot | actions/create-snapshot.go:77-184 | Fails exactly on a taken name, or else a subscription that is not live; otherwise stores the snapshot of the step |
| Bus.MessageBus.SeekToSnapshot | actions/seek-subscription-to-snapshot.go:69-168 | Fails exactly when subscription or snapshot is missing; else makes the step, counts the rows that became completed and those that became open, and wakes if there are any |
| Bus.MessageBus.SeekToTime | actions/seek-subscription-to-time.go:70-135 | Fails exactly when the subscription is missing; else makes the step, counts the rows that became completed and those that became open, and wakes if there are any |
| Bus.MessageBus.DeleteSubscription | actions/delete-subscription.go:60-102 | Fails exactly when no live subscription has the name; else deletes them and calls the modify listeners and the internal publish listeners of each |
| Bus.MessageBus.DeleteExpiredSubscriptions | actions/delete-expired-subscriptions.go:49-99 | Deletes at most the allowed number of expired live subscriptions, with the same calls |
| Bus.MessageBus.DeleteTopic | actions/delete-topic.go:57-103 | Fails exactly when no live topic has the name; else marks them, removes their snapshots, and calls the modify listeners of each |
| Bus.MessageBus.PruneCompletedDeliveries | actions/prune-completed-deliveries.go:46-70 | Removes at most the allowed number of rows completed long enough ago, cutting links to them |
| Bus.MessageBus.PruneExpiredDeliveries | actions/prune-expired-deliveries.go:47-105 | Removes expired rows and wakes exactly their ordered subscriptions |
| Bus.MessageBus.PruneDeletedSubscriptionDeliveries | actions/prune-deleted-subscription-deliveries.go:49-78 | Removes rows of subscriptions deleted long enough ago |
| Bus.MessageBus.PruneCompletedMessages | actions/prune-completed-messages.go:46-78 | Removes old messages that have no delivery left |
| Bus.MessageBus.PruneDeletedSubscriptions | actions/prune-deleted-subscriptions.go:49-90 | Removes subscriptions deleted long enough ago that have no delivery left |
| Bus.MessageBus.PruneDeletedTopics | actions/prune-deleted-topics.go:47-90 | Removes old deleted topics without subscriptions, unless messages or snapshots still name one, which rolls everything back |
| Notify.AlwaysSafe | actions/notify.go:194-454 | In every sequence of awaits, cancels and wakes, each registered channel is open and in exactly one wait set |
| Notify.RegisterLaw | actions/notify.go:330-355 | An await adds one new open channel to one wait set, a cancel takes one channel out and leaves the set, and the two together leave everybody waiting as before |
| Notify.HookLaw | actions/notify.go:197-210 | With hooks, a wake that is not internal calls every hook for every id and touches no waiter |
| Notify.WakesOne | actions/notify.go:194-225 | Waking one subscription without hooks closes all of its waiters and nobody else's |
| Notify.WakesMany | actions/notify.go:211-224 | With several subscriptions a waiter is woken exactly when each one listed up to its own has a wait set and none is repeated |
| Notify.WakesManyCloses | actions/notify.go:211-224 | What such a call takes out of the registry it closes, and it closes nothing else |
| Notify.EarlyReturnLosesWake | actions/notify.go:212-216 | Two subscriptions, the first without waiters: the second's waiter sleeps on |
| Notify.WakesModified | actions/notify.go:253-296 | A modification wakes those waiting for id and name, id, name or anything, all of them and nobody else, also when keys coincide |
| Notify.WakesAll | actions/notify.go:298-327 | Waking everyone closes every registered channel, none of them a second time |
| Notify.AwaiterSurvives | actions/notify.go:330-355 | A waiter stays registered until it is woken, whatever else happens, unless it is cancelled itself |
| Notify.Waiters.Close | actions/notify.go:217-220 | Closing needs an open channel; every caller proves it |
| Notify.Waiters.CloseWaitSet | actions/notify.go:217-223 | The loop closes each channel of a wait set once and drops the set |
| Notify.Waiters.Awaiter | actions/notify.go:330-341 | The new channel is open and registered, in a set made if need be |
| Notify.Waiters.CancelAwaiter | actions/notify.go:344-354 | Removes that channel only, leaving even an empty set behind; a nil channel is ignored |
| Notify.Waiters.WakePublishListeners | actions/notify.go:194-225 | The loops with their early return do what the value-level wake says, hooks first |
| Notify.Waiters.WakeModifyListeners | actions/notify.go:253-296 | The loop over three possibly equal keys and the any-set does what the value-level wake says |
| Notify.Waiters.WakeAllInternal | actions/notify.go:298-327 | The loops over all tables close everything once |
| PullWait.MoveKeeps | actions/get-subscription-messages.go:160-235 | Every move keeps: a pull on an open awaiter is registered, and a transaction after its query that wakes its subscription still owes the call, or has made one that stopped short |
| PullWait.TraceInv | ent/client-addons.go:45-75 | So in every interleaving |
| PullWait.NoLostWakeup | actions/notify.go:153-225 | A transaction since the query of a parked pull that wakes its subscription still owes the call, or was a release whose call met, at some move of the trace, an earlier-listed subscription without a wait set |
| PullWait.StoppedHappened | actions/notify.go:211-216 | Each call recorded as stopped short did so at a move of the trace |
| PullWait.ParkedPullIsRight | actions/get-subscription-messages.go:123-236 | End to end: a pull parked on an open awaiter, owed nothing and passed over by no call, has nothing to deliver before its timer, under the exact condition for ordered subscriptions |
| PullWait.ParkedOrderedPullIsRight | actions/get-subscription-messages.go:160-235 | In a disciplined run the condition always holds |
| Streamer.PendingIsSent | actions/message-streamer.go:157-176 | In every interleaving the flow control is the one the client sent last, and what is pending is what was sent and not acked, nacked or found gone, with its sizes, as the moves alone tell |
| Streamer.FlowControlHolds | actions/message-streamer.go:190-259 | In every interleaving, any bound on all flow controls sent bounds what was sent to the client and not given back: messages always, bytes unless exactly one message is outstanding |
| Streamer.MeasureLaw | actions/message-streamer.go:190-245 | The sender fetches exactly when both limits exceed what is outstanding, at most 100 messages, and strictly if anything was outstanding when it measured since it last added messages |
| Streamer.MoveFlow | actions/message-streamer.go:190-259 | The room computed before a fetch is still there after it, whatever the other goroutines do |
| Streamer.NoLostWakeup | actions/message-streamer.go:192-223 | Parked sender, empty wake channel, refresher owing nothing: flow control and pending are as measured, so it really is full, and shutdown has not finished |
| Streamer.MoveWake | actions/message-streamer.go:125-176 | Every move of every goroutine keeps the wake invariant |
| Streamer.OnlySenderAdds | actions/message-streamer.go:303-399 | Only the sender adds messages; refreshes and automatic delays move the known attempts later, to the time found or set |
| Streamer.PullFits | actions/get-subscription-messages.go:404-451 | What a pull's packing takes fits the limits in the sense the streamer relies on |
| PushConn.FinishLaw | actions/http-push-streamer.go:279-360 | One of five success codes within a second is a fast ack, later a slow ack, and any other status or no answer a nack |
| PushConn.ReceiveLaw | actions/http-push-streamer.go:158-223 | Per id, a fast ack widens the window by one, a slow ack narrows it by one and a nack by ten, within 1..1000, and the streamer is told unless the window was at that end already |
| PushConn.WindowUndone | actions/http-push-streamer.go:170-220 | Slow acks undo as many fast ones, and ten fast acks a nack, exactly when no end of the range cuts in between |
| PushConn.PushWindowHolds | actions/http-push-streamer.go:158-223 | Over any history the window stays in 1..1000 and is what the streamer last heard, and each id is reported exactly as often as its push finished, as the right kind |
| PushConn.AllReported | actions/http-push-streamer.go:158-223 | With empty queues, successes equal acks and failures equal nacks |
| PushConn.BatchingIsIrrelevant | actions/http-push-streamer.go:170-220 | How reports of one kind are cut into batches makes no difference to the window |
| PushConn.DrainIds | actions/http-push-streamer.go:147-156 | Draining appends all that is queued, in order, and leaves nothing |
| PushConn.HttpPushConn.Report | actions/http-push-streamer.go:279-360 | Each finished push goes to the one queue its outcome calls for |
| PushConn.HttpPushConn.Receive | actions/http-push-streamer.go:158-223 | A batch reports all that is queued of one kind, resizes the window and announces it, as the step of the history does |

## Left out

- The generated `ent` builders, SQL dialects, row locks and `SKIP LOCKED`, retries on deadlock, and connection set-up: transactions are serialized steps.
- Commit and rollback failures reported by the driver: a transaction either commits as a whole or leaves the state as it was.
- HTTP and JSON in `Send`, `controllers/`, metrics, logging and configuration.
- Filter parsing: the sources of the parser are not part of this model; a filter has one of four outcomes.
- Updates of existing subscriptions and the deletion and expiry of snapshots apart from topic deletion: no action of `actions/` in this model changes a subscription's settings.
- Name lookups: actions that accept an id or a name take the id of the row found; labels and push endpoints are not kept.
- Checks of names and parameters when topics and subscriptions are created: creation is a step (`Actions.NewSub` says when it is enabled), not a method.
- Order-key isolation, ordering across seeks, and ordering with keyed and unkeyed messages mixed: the code does not provide them.
- Deadlock freedom through sorted updates: the comparator in `applyResults` does not sort.
- Bus.MessageBus.GetMessages: one attempt of a pull (what it does to each row is in `Laws.DueLaw`, `Laws.FateLaw` and `Laws.DeliveryLaw`); the wait loop around it, with its time-out, is the machine of module `PullWait`.
- PullWait.NoLostWakeup: external hooks are not set; with hooks, waking goes through another process, which is not part of this model.
- Streamer.FlowControlHolds: the database side of acks, nacks, delays and fetches is not part of the streamer's machine; a fetch returns anything that fits its limits, and `Streamer.PullFits` shows that pulls do.
- Streamer.NoLostWakeup: goroutines that end with an error are represented only by the cancellation that follows.
- PushConn.HttpPushConn.Receive: receives a whole queue; the history machine also allows shorter batches, which covers pushes that finish while a batch is drained. Pushes whose context ends before they can report are not reported, and not modelled.
- Notify.Waiters.Awaiter: the five kinds of awaiter, and their cancels, differ only in the table they use, so they are one method with the table as an argument.
