# Verified model of the mobpilot cores

A model, in Dafny, of the parts of mobpilot whose behaviour depends on state kept over many calls,
and proofs of what they keep. Each class follows one object of the program and its methods change
its fields as the program does; every method is proved equal to a function on values, and the
properties are proved of that function over all inputs, all runs or all interleavings.

`dafny verify dfyconfig.toml` checks the whole project. Every induction is written out: the lemmas carry
`{:induction false}`.

| file | what it models |
|---|---|
| `Constants.dfy`, `Wrappers.dfy` | shared values, optional values and fallible results |
| `Calendar.dfy`, `Keys.dfy` | dates and their day numbers; the printed keys of the habit artifacts and their parser |
| `StreakDays.dfy`, `Habits.dfy`, `HabitRuns.dfy` | the streak cache against the completion log: one habit on day numbers, the provider's string-keyed maps refining it, and the results read back on the provider |
| `FanOut.dfy` | the ten-permit fan-out as a step machine |
| `Notifications.dfy`, `Delivery.dfy`, `DeliveryOutcomes.dfy` | one send to a user; the durable consumer with Ack, Nak and redelivery; what it comes to for a message |
| `Outbox.dfy`, `OutboxProgress.dfy` | the outbox worker: conservation and order; progress and starvation |
| `Groups.dfy`, `GroupCalls.dfy`, `GroupDrift.dfy` | groups over Postgres and Keto, one operation at a time, with failing calls: what each call leaves, and where runs of them lead |
| `GroupInterleaving.dfy`, `GroupSerial.dfy` | the same operations interleaved call by call, and the proof that the serial ones are runs of it |
| `GroupAgreement.dfy` | where a (group, user) pair stands after any interleaving, and what keeps the two stores together |
| `Invitations.dfy`, `InvitationLife.dfy`, `InvitationOverlap.dfy` | invitation acceptance, serial and interleaved; how long and for whom an invitation is good; when overlapping accepts keep the serial bound |
| `FcmToken.dfy`, `IntrospectCache.dfy` | the FCM token cache and the token-introspection cache |
| `Preferences.dfy` | the preference lookup that picks a row by sorting |

Two kinds of value stand for what lies outside. The outcome of every outside call, and every clock
reading, comes in as a parameter and is unconstrained, so each result holds whichever calls fail. What
a call does to the outside is recorded in a log: a send, a broadcast or a published event in a log is
an attempt.

## Assumptions

- The months touched by a toggle are loaded, and `Duration(days: 1)` names the previous calendar day.
- The `yyyy` format prints the magnitude of a year, so the day key alone does not tell a year from
  its negative.
- Time is an integer count of nanoseconds. Fresh UUIDs are new; nil and unparsable ids are modelled.
- Strings sort by character code.
- There is one outbox worker and one expiry sweeper. Any number of other operations overlap.
- Acks arrive, a handler ends within the ack wait, a failed save stores nothing, and the member list of
  a group holds each user once.
- A member listing, an expired-groups listing and an outbox batch may be any answer the query allows,
  in any order the query leaves open.

## What the proofs bring out

- Removing the last completion and then recording an earlier day leaves a logged day with a streak of 0
  (`Habits.BackdatedRunLosesStreak`). The exact domain is `HabitRuns.HarmlessTap`, and toggling today on a forward clock always stays inside it.
- A member whose save fails inside an acknowledged fan-out is never notified: the delivery is
  acknowledged all the same (`Delivery.AtMostOneRecordPerUser`).
- No group event ever leads to an email (`Delivery.ConsumedNeverEmails`).
- A hundred rows that cannot be published block every younger row for good
  (`OutboxProgress.StarvedForever`).
- The comment on the group repository's `Delete` (services/org/domain/ports/repositories.go:55) says it
  removes the members too; the SQL deletes the group row only. The model follows the SQL
  (`Groups.MembershipsOutliveTheGroup`).
- The creator of a permanent group is not admitted to its channel: the creation writes an `admin` tuple
  and the proxy asks for `member` (`GroupDrift.ProxyFollowsLastCalls`).
- Overlapping operations can make the two stores disagree with no call failing
  (`GroupInterleaving.InterleavingDriftsWithoutFailures`). A successful Keto call leaves them apart
  exactly when the row as it stands does not bear it out (`GroupAgreement.TupleCallAgreesExactly`), and
  turns on each pair would prevent that (`GroupAgreement.TurnsKeepAgreement`).
- Overlapping accepts can let any number of users join through one invitation
  (`InvitationOverlap.ManyJoinWithoutFailure`). They do not exactly when every insert finds its token
  unmarked and no other accept between its two writes (`InvitationOverlap.BoundHoldsExactly`).
- The query's comment says the exact match wins over the wildcard. It loses for event types that are
  empty or start with a character below the asterisk (`Preferences.ExactWinsExactly`).
- Cached claims live thirty seconds from their store, which may come any time after the endpoint's answer
  (`IntrospectCache.HitOutlivesItsAnswer`).
- A printed month key of a year outside 0 to 9999 is not parsed back (`Keys.MonthKeyRoundTrip`).

## Model

| member | source | states |
|---|---|---|
| Calendar.PrevIsOneDayEarlier | examples/flutter/streaks/lib/models/streak.dart:18 | the day before a date, across month and year ends and leap days, is a real date with the next lower day number |
| Calendar.OrdinalInjective | examples/flutter/streaks/lib/models/streak.dart:63-64 | no two calendar dates share a day number |
| Calendar.GregorianCycle | examples/flutter/streaks/lib/models/streak.dart:18 | day numbers and leap days are the Gregorian calendar's: 146097 days in any four hundred years, and one leap day in four at the ends of centuries |
| Keys.MonthKeyInjective | examples/flutter/streaks/lib/models/habit_log.dart:16 | the artifact key names one month, for years of any size or sign |
| Keys.DateStrInjective | examples/flutter/streaks/lib/models/streak.dart:63-64 | the cache's date string names one date |
| Keys.DateKeyConfusesExactly | examples/flutter/streaks/lib/models/habit_log.dart:68-69 | two dates share a day key if and only if month and day are the same and the years are equal or opposite |
| Keys.LogKeysInjective | examples/flutter/streaks/lib/models/habit_log.dart:68-69 | month key and day key together name one date |
| Keys.ParseKeyInvertsMonthKey | examples/flutter/streaks/lib/models/habit_log.dart:62-66 | a string parses to a year and month if and only if it is the key printed for them and they have at most four and two digits |
| Keys.MonthKeyRoundTrip | examples/flutter/streaks/lib/models/habit_log.dart:16 | a printed month key parses back if and only if the year is 0 to 9999; otherwise it does not parse at all |
| Keys.KeysAreAsDocumented | examples/flutter/streaks/lib/models/habit_log.dart:5-6 | for years of four digits the keys have the documented shapes, digit by digit |
| Habits.CompletionsAfterToggle | examples/flutter/streaks/lib/models/habit_log.dart:19-39 | what a month's log reports for a date after a toggle: the one id flipped on the toggled date, and on every other date of the month what it reported before |
| Habits.HabitLog.Toggle | examples/flutter/streaks/lib/models/habit_log.dart:29-39 | flips the one id on the one day and returns whether it is now completed |
| Habits.StreakData.RecordCompletion | examples/flutter/streaks/lib/models/streak.dart:15-35 | the new entry of the habit; no other entry changes |
| Habits.StreakData.RemoveCompletion | examples/flutter/streaks/lib/models/streak.dart:39-49 | the decremented entry when the date is the last one and the streak is positive, else no change |
| Habits.HabitsProvider.GetLogForDate | examples/flutter/streaks/lib/providers/habits_provider.dart:76-80 | the very log stored for the date's month, or a fresh empty one that is not stored |
| Habits.HabitsProvider.IsCompleted | examples/flutter/streaks/lib/providers/habits_provider.dart:83-84 | whether the pair is in the log of the date's month |
| Habits.HabitsProvider.ToggleCompletion | examples/flutter/streaks/lib/providers/habits_provider.dart:121-136 | the month log with one pair flipped and the streak recorded or removed according to the pair before the flip; every aliasing of logs is ruled out |
| Habits.HabitsProvider.ToggleToday | examples/flutter/streaks/lib/providers/habits_provider.dart:114-118 | toggles the pair of the habit and the clock's date |
| Habits.ToggleFlipsOnePair | examples/flutter/streaks/lib/providers/habits_provider.dart:121-129 | the month-partitioned logs act as one flat set: a toggle changes membership of exactly the pair it names |
| Habits.ToggleTwiceRestores | examples/flutter/streaks/lib/models/habit_log.dart:29-39 | toggling twice restores every pair and leaves every other month's log as it is |
| Habits.ToggleRefines | examples/flutter/streaks/lib/providers/habits_provider.dart:121-136 | the string-keyed toggle refines the toggle of a day number in a set |
| Habits.ToggleLeavesOtherHabits | examples/flutter/streaks/lib/providers/habits_provider.dart:121-136 | no other habit's log or streak changes, on any day |
| Habits.ReplayRefinesEachHabit | examples/flutter/streaks/lib/providers/habits_provider.dart:121-136 | over every run of toggles each habit evolves as the day-number model does on its own toggles alone |
| Habits.ForwardRunCacheMatchesLog | examples/flutter/streaks/lib/providers/habits_provider.dart:114-118 | on a clock that never goes back, after every run of toggles over any habits: the last date is no earlier than any logged date and the current streak is exactly the number of logged dates in a row ending there |
| Habits.BackdatedRunLosesStreak | examples/flutter/streaks/lib/models/streak.dart:39-49 | for every date: toggling it twice and then the day before leaves that day logged with a streak of 0 |
| HabitRuns.MatchIsAgreement | examples/flutter/streaks/lib/models/streak.dart:15-49 | the provider's cache matches its log if and only if the day-number state it represents agrees |
| HabitRuns.ToggleKeepsMatchExactly | examples/flutter/streaks/lib/providers/habits_provider.dart:121-136 | after every run that leaves a habit's cache matching its log, on any clock, toggling any date keeps the match if and only if a condition on the provider's state before the call holds |
| HabitRuns.BestNeverDrops | examples/flutter/streaks/lib/models/streak.dart:29-34 | in every run of any toggles over any habits, in any order, the provider's best is at least the current streak and never decreases |
| HabitRuns.BestIsLongestRowEver | examples/flutter/streaks/lib/models/streak.dart:29-34 | on a forward clock the provider's best is the maximum, over all states of the run, of the number of logged dates in a row |
| HabitRuns.BestIsLongestRowNow | examples/flutter/streaks/lib/models/streak.dart:29-34 | on a forward clock with no date of the habit toggled twice it is the longest row of logged dates in the log as it stands |
| StreakDays.ToggleKeepsAgreementExactly | examples/flutter/streaks/lib/models/streak.dart:15-49 | from an agreeing state a toggle of any day keeps cache and log in agreement if and only if a condition on the state before it holds |
| StreakDays.StreakEndingUnique | examples/flutter/streaks/lib/models/streak.dart:15-49 | the log and the last date determine the current streak that agrees with them |
| StreakDays.TodayRunAgrees | examples/flutter/streaks/lib/models/streak.dart:15-49 | every run of toggles in non-decreasing day order keeps cache and log in agreement |
| StreakDays.BackdatingBreaksAgreement | examples/flutter/streaks/lib/models/streak.dart:37-49 | record a day, remove it, record the day before: the cache no longer agrees |
| StreakDays.BestNeverDrops | examples/flutter/streaks/lib/models/streak.dart:29-34 | in every run of any toggles in any order, best is at least current and never decreases |
| StreakDays.BestIsHistoricMaximum | examples/flutter/streaks/lib/models/streak.dart:29-34 | on a forward clock best is the maximum, over all states of the run, of the longest row of logged days |
| StreakDays.BestIsLongestWithoutRemovals | examples/flutter/streaks/lib/models/streak.dart:29-34 | on a forward clock with no day toggled twice best is the longest row of logged days now |
| StreakDays.FillingAGapHidesBest | examples/flutter/streaks/lib/models/streak.dart:20-29 | out of order it need not be: a day, the second after it, then the one between make a row of three with best 1 |
| FanOut.StepKeepsInv | services/notification/application/notification_service.go:97-122 | every step of the spawn loop, of a worker or of the wait keeps: permits account for the workers in flight, and each worker has done exactly a prefix of its work |
| FanOut.AtMostTenInFlight | services/notification/application/notification_service.go:97-104 | in every interleaving at most ten workers are in flight |
| FanOut.TenCanBeInFlight | services/notification/application/notification_service.go:97-104 | ten are allowed: with as many members some interleaving has ten in flight, each holding a permit |
| FanOut.CompletionIsExact | services/notification/application/notification_service.go:100-122 | when the wait returns every member has been processed exactly once, its effects in order, and nothing else has happened |
| FanOut.NeverStuck | services/notification/application/notification_service.go:97-122 | every reachable state short of the return has an enabled step |
| FanOut.StepUsesOne | services/notification/application/notification_service.go:97-122 | every step, whichever is chosen, uses up exactly one unit of the remaining work |
| FanOut.SchedulesAreBounded | services/notification/application/notification_service.go:97-122 | no interleaving is longer than the total work |
| FanOut.EveryScheduleFinishes | services/notification/application/notification_service.go:97-122 | every partial interleaving can be carried on to the return |
| FanOut.CompleteExactlyAtFullLength | services/notification/application/notification_service.go:97-122 | an interleaving has returned if and only if it has taken all the steps there are |
| Notifications.NotificationService.SendToUser | services/notification/application/notification_service.go:56-70 | the effects of one call in order, and its result; a failed save ends it |
| Notifications.NotificationService.TryPush | services/notification/application/notification_service.go:149-182 | one push per device token when enabled and found, none otherwise |
| Notifications.NotificationService.BuildPushData | services/notification/application/notification_service.go:161-167 | the string-valued data, with the notification id written last |
| Notifications.NotificationService.TryEmail | services/notification/application/notification_service.go:184-202 | one email when enabled and addressed, none otherwise |
| Notifications.ScriptIsOneRecordThenSends | services/notification/application/notification_service.go:56-70 | a failed save leaves no trace; otherwise one record comes first, then only sends, all for the one user |
| Notifications.EmailExactlyWhenAddressed | services/notification/application/notification_service.go:184-202 | an email is attempted if and only if the save works, email is on, and the data holds a non-empty string under email |
| Notifications.SavedIsTheCommand | services/notification/application/notification_service.go:57-66 | the stored record carries every field of the command and the fresh id |
| Notifications.PushesExactly | services/notification/application/notification_service.go:149-182 | with push on and the devices found, right after the record one push per device in order, each with the command's title, body and string-valued data and the record's id; no push otherwise |
| Notifications.EmailCarriesTheCommand | services/notification/application/notification_service.go:190-199 | an email goes to the address in the data with the command's title and body, and comes last |
| Delivery.Subscriber.Handle | services/notification/infrastructure/nats/subscriber.go:93-110 | the effects of one delivery and whether it is acknowledged; malformed and unknown messages are acknowledged without effect |
| Delivery.Subscriber.HandleMemberAdded | services/notification/infrastructure/nats/subscriber.go:112-144 | one send for the added member; unparsable ids are acknowledged without effect |
| Delivery.Subscriber.HandleGroupDeleted | services/notification/infrastructure/nats/subscriber.go:146-173 | one group send; unparsable ids are acknowledged without effect |
| Delivery.Subscriber.SendToGroup | services/notification/application/notification_service.go:75-123 | one broadcast, then a fan-out under any interleaving to its end; a failed member listing stops after the broadcast |
| Delivery.Subscriber.RunFanOut | services/notification/application/notification_service.go:97-122 | the effects of the interleaving of the spawn loop and the workers that the schedule picks |
| Delivery.Consume | services/notification/infrastructure/nats/subscriber.go:54-62 | deliveries go on while they end in a Nak and fewer than five have been made |
| Delivery.NakStoresAndSendsNothing | services/notification/infrastructure/nats/subscriber.go:55-59 | a delivery that ends in a Nak has made at most one broadcast and nothing else |
| Delivery.OnlyTheAckedDeliveryActs | services/notification/infrastructure/nats/subscriber.go:41-62 | over all deliveries of a message everything but broadcasts comes from the one acknowledged delivery |
| Delivery.AtMostOneRecordPerUser | services/notification/infrastructure/nats/subscriber.go:54-62 | over all deliveries a user gets at most one record, and gets it if and only if the acknowledged delivery stored it |
| Delivery.AckedMemberIsRecorded | services/notification/infrastructure/nats/subscriber.go:112-144 | an added member is recorded exactly once if the message ends acknowledged, and never otherwise |
| Delivery.FanOutEffectsAreForMembers | services/notification/application/notification_service.go:105-115 | every effect of a finished fan-out is for the member whose worker caused it, and in that member's script |
| Delivery.ConsumedNeverEmails | services/notification/infrastructure/nats/subscriber.go:129-170 | no message leads to an email, whatever the preferences: the handlers put no address into the data |
| DeliveryOutcomes.AckedExactlyWhenSettled | services/notification/infrastructure/nats/subscriber.go:54-62 | over all attempts a message ends acknowledged if and only if in some attempt the save of its new member's record, or the listing of its ended group's members, works; deliveries stop at the first such attempt |
| DeliveryOutcomes.UnsettledIsDeliveredFiveTimes | services/notification/infrastructure/nats/subscriber.go:41 | a message that no attempt settles is delivered five times and no message more often |
| DeliveryOutcomes.RecordsCarryTheMessage | services/notification/infrastructure/nats/subscriber.go:112-172 | every record stored over all deliveries is a welcome with the message's ids or a farewell to a listed member with the group's, with their texts and data; any other message stores nothing |
| DeliveryOutcomes.BroadcastOncePerDelivery | services/notification/application/notification_service.go:76-90 | the end of a group is broadcast exactly once per delivery, to its channel with its id, title and body; nothing else is broadcast |
| Outbox.OutboxWorker.InsertOutboxEvent | services/org/infrastructure/postgres/outbox_worker.go:96-106 | adds one unpublished row |
| Outbox.OutboxWorker.Poll | services/org/infrastructure/postgres/outbox_worker.go:50-72 | the table and the stream after a poll of any batch the query may return, with every publish and mark failing independently |
| Outbox.OutboxWorker.Relay | services/org/infrastructure/postgres/outbox_worker.go:57-70 | a failed publish leaves the row unmarked and is skipped; a failed mark leaves it published and unmarked |
| Outbox.OutboxWorker.PublishRow | services/org/infrastructure/postgres/outbox_worker.go:74-91 | the envelope and subject put on the stream for a row |
| Outbox.PollMarks | services/org/infrastructure/postgres/outbox_worker.go:56-71 | a poll changes only marks, and sets one if and only if the row was in the batch and both its calls succeeded |
| Outbox.RunConserves | services/org/infrastructure/postgres/outbox_worker.go:56-71 | in every run of inserts and polls a row's successful publishes are its failed marks plus one if it is marked; so a marked row was published |
| Outbox.RowsAndMarksStay | services/org/infrastructure/postgres/sqlc/query.sql.go:566-574 | no row is lost or rewritten and no mark is undone |
| Outbox.StreamCarriesItsRows | services/org/infrastructure/postgres/outbox_worker.go:74-91 | in every run each message on the stream carries its row: its id, type, stamp and payload, under the subject of its type |
| Outbox.OlderRowIsPublishedFirst | services/org/infrastructure/postgres/outbox_worker.go:51-63 | if the older of two rows never fails to publish, no publish of the younger precedes one of the older, in any run with other rows failing, overtaken or arriving |
| Outbox.FirstPublicationsInOrder | services/org/infrastructure/postgres/sqlc/query.sql.go:331-337 | rows that never fail to publish are first published in created_at order |
| OutboxProgress.WaitShrinks | services/org/infrastructure/postgres/outbox_worker.go:50-72 | while a healthy row waits, each poll shortens the queue ahead of it by all the places its blockers leave, and arrivals stamped after it do not lengthen it |
| OutboxProgress.PublishedWithinBound | services/org/infrastructure/postgres/outbox_worker.go:50-72 | a healthy row with k unpublishable rows and m healthy ones in its queue, k below 100, is marked after at most ceil(m / (100 - k)) polls, however many younger rows of either kind arrive between them |
| OutboxProgress.OutboxDrains | services/org/infrastructure/postgres/outbox_worker.go:50-72 | with k unpublishable rows below 100 and m others pending in all at the start, every healthy one is marked after at most ceil(m / (100 - k)) polls, younger rows arriving or not |
| OutboxProgress.BatchExists | services/org/infrastructure/postgres/sqlc/query.sql.go:331-337 | the query has an answer on every table |
| OutboxProgress.StarvedForever | services/org/infrastructure/postgres/sqlc/query.sql.go:331-337 | behind 100 older rows that cannot be published a row is never tried: it gains no publish, no failed publish and no mark, in any run of any length |
| OutboxProgress.ServedExactlyWithFewerThan100Older | services/org/infrastructure/postgres/sqlc/query.sql.go:331-337 | with distinct stamps a healthy row is served if and only if fewer than 100 unpublishable rows are older |
| Groups.GroupService.CreateGroup | services/org/application/group_service.go:46-77 | the new store and result: no row without validation, an admin tuple for permanent groups only, a failed Keto call ignored |
| Groups.GroupService.AddGroupMember | services/org/application/group_service.go:79-109 | the new store and result: idempotent insert, a member tuple for permanent groups only, a failed Keto call ignored |
| Groups.GroupService.RemoveGroupMember | services/org/application/group_service.go:111-140 | the new store and result of a removal, a failed Keto call ignored |
| Groups.GroupService.IssueSubscriptionToken | services/org/application/group_service.go:166-202 | the claims of the token, or the refusal, in the order the checks are made |
| Groups.GroupService.Sweep | services/org/application/group_expiry_sweeper.go:52-61 | the store after deleting each listed group in turn; a failed listing changes nothing |
| Groups.GroupService.DeleteGroup | services/org/application/group_expiry_sweeper.go:63-88 | the store after one deletion, each Keto call and the row deletion failing on its own |
| Groups.TupleDeletionsExactly | services/org/application/group_expiry_sweeper.go:66-72 | exactly the tuples of the listed members whose deletion succeeds are gone |
| Groups.SweepDeletesExactlyExpired | services/org/application/group_expiry_sweeper.go:52-88 | a sweep at t deletes a group if and only if it is ephemeral, expired before t, and its deletion succeeds; every other group and every membership row stays |
| Groups.SweepAnnouncesExactlyItsDeletions | services/org/application/group_expiry_sweeper.go:75-85 | among the events of a sweep each group it deletes has exactly one deletion, with its organisation and app, and every other id has none |
| Groups.FailedDeletionIsRetried | services/org/infrastructure/postgres/sqlc/query.sql.go:391-395 | with nothing between two sweeps, a group listed by the first is listed by the second if and only if its deletion failed; a permanent group is on no list |
| Groups.MembershipsOutliveTheGroup | services/org/infrastructure/postgres/sqlc/query.sql.go:181-183 | membership rows survive their group: none is left after a deletion if and only if there was none before |
| Groups.SweepableOrIssuable | services/org/application/group_service.go:174-179 | at every instant an ephemeral group with an expiry is either sweepable or token-issuable to its members, never both |
| Groups.SweepableGetsNoToken | services/org/application/group_service.go:177-179 | a group sweepable at t is refused a token at every later time, deleted or not |
| Groups.TokenNeverOutlivesGroup | services/org/infrastructure/http/centrifugo_token.go:40-56 | a token is issued only to a member of a live ephemeral group, for its channel, and expires no later than the group and less than a second earlier |
| Groups.ProxyDecides | services/org/infrastructure/http/centrifugo_proxy.go:65-83 | the proxy admits to a group channel if and only if Keto holds the member tuple, and to no ephemeral-group channel |
| Groups.ProxyAdmitsExactly | services/org/infrastructure/http/centrifugo_proxy.go:65-83 | over all channels, the proxy admits a user if and only if the channel is their own personal one or a group channel for which Keto holds their member tuple |
| GroupCalls.CreateExactly | services/org/domain/group.go:26-53 | a create stores a group if and only if organisation, app and creator are not nil, the name is not empty, an ephemeral group has an expiry, and the insert works; and exactly what row, tuple and event it then leaves |
| GroupCalls.AddExactly | services/org/application/group_service.go:79-109 | exactly when an add succeeds, and the row, tuple and event it then leaves, whatever Keto does; a row already there keeps its app |
| GroupCalls.RemoveExactly | services/org/application/group_service.go:111-140 | the same of a remove |
| GroupCalls.MembershipKeepsFirstApp | services/org/infrastructure/postgres/sqlc/query.sql.go:17-21 | in every serial run a membership is of the app of the first add since its last removal |
| GroupCalls.DeletionExactly | services/org/application/group_expiry_sweeper.go:63-88 | deleting a group takes from Keto exactly the listed members' and the creator's tuples whose deletions work, and the row with its event exactly when that works |
| GroupCalls.TokenExactly | services/org/application/group_service.go:166-202 | exactly when a token is issued, its claims in full, and when the refusal is that the group is not found |
| GroupDrift.StoresFollowLastCalls | services/org/application/group_service.go:79-140 | in every serial run with failing calls a pair of a permanent group is in the database if and only if its last successful row call was an add, and in Keto if and only if its last successful Keto call was a write |
| GroupDrift.RetryRestoresAgreement | services/org/application/group_service.go:93-98 | one complete retry of the pair's last operation restores agreement, whatever came before and whatever happens to other pairs after |
| GroupDrift.DriftExactly | services/org/application/group_service.go:89-98 | the stores disagree on a pair if and only if its last row call and its last Keto call went opposite ways |
| GroupDrift.ProxyFollowsLastCalls | services/org/infrastructure/http/centrifugo_proxy.go:69-72 | from the creation of a permanent group on, the proxy admits a user if and only if their last successful Keto call was an add's; the creator has none to begin with |
| GroupInterleaving.RunKeepsInv | services/org/application/group_service.go:46-140 | every interleaving of creates, adds, removes, issues and sweeps, call by call, keeps: tuples only for permanent groups, rows as they were created, tokens and sweep lists true of their groups |
| GroupInterleaving.EphemeralGroupsStayOutOfKeto | services/org/application/group_service.go:58-64 | in every reachable state Keto holds no tuple for an ephemeral group and the proxy admits nobody to its group channel |
| GroupInterleaving.EphemeralGroupsExpire | services/org/domain/group.go:39-41 | in every interleaving each ephemeral group ever created has an expiry |
| GroupInterleaving.ReachableSweepableOrIssuable | services/org/application/group_service.go:174-179 | so in every reachable state each ephemeral group is at every instant either sweepable or token-issuable to its members, never both and never neither |
| GroupInterleaving.TokensAreForMembers | services/org/application/group_service.go:181-195 | in every interleaving a token is only for a user who at some moment is a member of its group |
| GroupInterleaving.ProxyAndTokensAreDisjoint | services/org/infrastructure/http/centrifugo_proxy.go:69-82 | in every reachable state no group is open both through the proxy and through a token |
| GroupInterleaving.TokensPrecedeSweeps | services/org/application/group_service.go:177-199 | in every interleaving a token's expiry check is strictly before the time of any sweep that lists its group, and the token expires no later than the group |
| GroupInterleaving.PermanentRowsStay | services/org/infrastructure/postgres/sqlc/query.sql.go:391-395 | no interleaving deletes or changes a permanent group's row, even one that carries an expiry |
| GroupInterleaving.InterleavingDriftsWithoutFailures | services/org/application/group_service.go:89-98 | the schedule that shows the interleaved stores can disagree although every call succeeds |
| GroupAgreement.PairFollowsLastCalls | services/org/application/group_service.go:79-140 | in every interleaving with failing calls a pair of a permanent group has a row if and only if its last successful row call was an add's, and a tuple if and only if its last successful Keto call was an add's |
| GroupAgreement.InterleavedDriftExactly | services/org/application/group_service.go:89-98 | an interleaving ends with the stores apart on a pair if and only if those two calls went opposite ways |
| GroupAgreement.TupleCallAgreesExactly | services/org/application/group_service.go:94-98 | a successful Keto call leaves the stores together on its pair if and only if it is a write and the row is there, or a deletion and the row is gone: a check the code does not make |
| GroupAgreement.GuardIsExact | services/org/application/group_service.go:89-129 | over every run, from the stores together on a pair to a state with no Keto call on it outstanding, with none of them failing, the stores end together if and only if the last of those calls passed that check, or there was none |
| GroupAgreement.TurnsKeepAgreement | services/org/application/group_service.go:89-129 | if operations on a pair take turns from row call to Keto call and the Keto calls succeed, the stores are together on it whenever no Keto call is outstanding, whatever else overlaps |
| GroupSerial.CreateIsItsSteps | services/org/application/group_service.go:46-77 | a create with nothing beside it, refused ones included, is a run of the interleaved system with the serial result |
| GroupSerial.AddIsItsSteps | services/org/application/group_service.go:79-109 | the same for an add, found or not |
| GroupSerial.RemoveIsItsSteps | services/org/application/group_service.go:111-140 | the same for a remove, found or not |
| GroupSerial.IssueIsItsSteps | services/org/application/group_service.go:166-202 | the same for issuing a token, refusals included |
| GroupSerial.SweepIsItsSteps | services/org/application/group_expiry_sweeper.go:52-88 | the same for a whole sweep over any number of groups and members |
| Invitations.MemberService.InviteMember | services/org/application/member_service.go:37-84 | the stored invitation, seven days from now, or the error; no invalid role and no empty email is stored |
| Invitations.MemberService.AcceptInvitation | services/org/application/member_service.go:86-128 | the store and result of an accept, the insert and the mark failing independently |
| Invitations.ErrorsCanHideJoins | services/org/application/member_service.go:109-114 | exactly when an accept joins its user, and that it reports success if and only if the mark succeeds too |
| Invitations.SerialJoins | services/org/application/member_service.go:86-128 | in every serial run the joins through a token are its failed marks plus one exactly when it ends accepted, so at most one plus the failed marks, whatever else changes the member table |
| Invitations.AcceptIsThreeSteps | services/org/application/member_service.go:90-114 | an accept with nothing beside it, failed and refused ones included, is a run of its lookup, insert and mark in the interleaved system |
| Invitations.InterleavedJoins | services/org/application/member_service.go:101-114 | in every interleaving the joins through a token are its marks, its failed marks and the accepts between the two writes, and each has the invitation's organisation and role |
| Invitations.LateLookupIsRefused | services/org/application/member_service.go:94-96 | in every continuation of a successful mark, a lookup of its token by any other accept, at any time, is refused and leaves no trace |
| Invitations.OnlyEarlierLookupsJoin | services/org/infrastructure/postgres/sqlc/query.sql.go:556-559 | after a successful mark only the accepts already past their lookup can join, each at most once, in every continuation |
| InvitationOverlap.RunKeepsConsistent | services/org/infrastructure/postgres/sqlc/query.sql.go:556-559 | in every reachable state a token is stored as accepted if and only if some mark of it has succeeded |
| InvitationOverlap.InsertKeepsBoundExactly | services/org/application/member_service.go:109-114 | after a successful insert the joins through its token are at most one plus the failed marks if and only if, before it, the token was unmarked and no other accept of it stood between its two writes |
| InvitationOverlap.BoundHoldsExactly | services/org/application/member_service.go:90-114 | an interleaving keeps within that bound all along if and only if every insert through the token meets that condition |
| InvitationOverlap.ManyJoinWithoutFailure | services/org/application/member_service.go:90-114 | without it any number of users can join through one token with no call failing, if all look it up before the first mark |
| InvitationLife.AcceptsExactly | services/org/application/member_service.go:86-128 | an accept succeeds if and only if its token is stored, not accepted and not past its expiry, its user is not a member and its three calls work; and exactly what it then leaves |
| InvitationLife.ExpiredAdmitsNobody | services/org/domain/member.go:49-51 | past its expiry an invitation admits nobody and the store stays as it is |
| InvitationLife.RefusalsExactly | services/org/application/member_service.go:90-99 | exactly when an accept answers that the invitation is not found or has expired |
| InvitationLife.LookupAdmitsExactly | services/org/application/member_service.go:90-99 | in the interleaved system a lookup gets through if and only if its token is stored, not accepted and not past its expiry |
| InvitationLife.LookupsAreInTime | services/org/domain/member.go:49-51 | in every interleaving no lookup gets through after its token's expiry |
| InvitationLife.InvitesExactly | services/org/application/member_service.go:45-70 | exactly which invites succeed and what they store |
| InvitationLife.InviteAdmitsForSevenDays | services/org/application/member_service.go:64 | a new invitation admits a user who is no member, with its role, at every time up to seven days after it was made and at none after |
| FcmToken.TokenSource.Token | services/notification/infrastructure/push/fcm_token_source.go:99-113 | the answer and the new cache of one call |
| FcmToken.TokenSource.FetchToken | services/notification/infrastructure/push/fcm_token_source.go:116-173 | the token and its expiry counted from the start of the fetch, in 64-bit arithmetic; an empty token is an error |
| FcmToken.CallExactly | services/notification/infrastructure/push/fcm_token_source.go:99-113 | what a call returns and caches: the cached token with more than five minutes left, else a fetched one that is not empty, else nothing |
| FcmToken.ReturnedTokensAreFresh | services/notification/infrastructure/push/fcm_token_source.go:103-112 | every token returned was fetched by this call, or by the latest fetch with over five minutes left now |
| FcmToken.FailedFetchIsRetried | services/notification/infrastructure/push/fcm_token_source.go:107-110 | a failed fetch leaves the cache unchanged and the next call fetches |
| FcmToken.LifetimeExactly | services/notification/infrastructure/push/fcm_token_source.go:171 | the expiry is the granted seconds if and only if they fit a 64-bit count of nanoseconds |
| FcmToken.RefreshBound | services/notification/infrastructure/push/fcm_token_source.go:99-113 | if every token fetched lives at least L seconds once its grant is multiplied out, L above 300, at most T / (L - 300) + 1 successful fetches start in any T seconds |
| FcmToken.BoundIsReached | services/notification/infrastructure/push/fcm_token_source.go:103-112 | the bound is attained for every L: calls L - 300 seconds apart start n + 1 fetches in n (L - 300) seconds |
| FcmToken.ShortGrantsAreNeverReused | services/notification/infrastructure/push/fcm_token_source.go:103-112 | a grant of at most five minutes, or one that wraps to that, is never reused |
| IntrospectCache.Cache.Get | internal/platform/httpmw/auth.go:63-72 | the live claims of a token; an expired or missing entry is deleted |
| IntrospectCache.Cache.Set | internal/platform/httpmw/auth.go:74-78 | stores the claims with the expiry counted from now |
| IntrospectCache.Cache.BearerAuth | internal/platform/httpmw/auth.go:88-107 | the claims a request goes on with or the refusal, and the cache after it |
| IntrospectCache.HoldsLatestSet | internal/platform/httpmw/auth.go:63-78 | for every history and clock: the cache holds exactly the latest set of a token, until a lookup past its expiry |
| IntrospectCache.AnswersLikeALog | internal/platform/httpmw/auth.go:63-78 | on a clock that never goes back a lookup hits if and only if the latest set of the token is at most its time to live ago, and then returns that set's claims |
| IntrospectCache.DeletionShowsExactly | internal/platform/httpmw/auth.go:67-70 | on any clock, lazy deletion changes an answer if and only if an earlier lookup ran past an expiry that now lies ahead |
| IntrospectCache.ClockGoingBackLosesAHit | internal/platform/httpmw/auth.go:67-70 | a concrete history in which it does |
| IntrospectCache.AdmittedOnlyWhenVouched | internal/platform/httpmw/auth.go:95-106 | over all overlapping requests, call by call, whatever the clocks do: a request is let through only with claims that an active introspection of the same token gave and that were stored, after that answer, at most thirty seconds before |
| IntrospectCache.HitOutlivesItsAnswer | internal/platform/httpmw/auth.go:97-103 | the thirty seconds do not run from the answer: for any delay before the store, a request is let through thirty seconds after the store on the old answer |
| IntrospectCache.FailureStoresNothing | internal/platform/httpmw/auth.go:97-102 | a failed or inactive answer never makes a later hit, lets nobody through, and leaves no entry for its token |
| IntrospectCache.AdmitsExactly | internal/platform/httpmw/auth.go:88-107 | a bearer token is let through if and only if it is not empty and has a live entry or an active answer, with the claims of that; an active answer is stored for thirty seconds |
| IntrospectCache.OtherHeadersAreRefused | internal/platform/httpmw/auth.go:111-117 | any other header is refused without touching the cache |
| IntrospectCache.RequestIsItsSteps | internal/platform/httpmw/auth.go:88-107 | a request with nothing beside it is its lookup and, on a miss, its introspection and its store in the overlapping system |
| Preferences.PreferenceRepo.Upsert | services/notification/infrastructure/postgres/preference_repo.go:29-40 | replaces the value of the one key, or nothing on a failure |
| Preferences.PreferenceRepo.GetPreferenceEnabled | services/notification/infrastructure/postgres/sqlc/query.sql.go:80-86 | the value of the selected row that sorts last, or no row |
| Preferences.PreferenceRepo.IsEnabled | services/notification/infrastructure/postgres/preference_repo.go:66-81 | the meaning of the table under the sort, with push on and the rest off by default; a database error is an error |
| Preferences.SelectionDecides | services/notification/infrastructure/postgres/sqlc/query.sql.go:80-86 | whatever row the sort-and-limit query may return decides that meaning |
| Preferences.ExactWinsExactly | services/notification/infrastructure/postgres/preference_repo.go:63-66 | exact row, else wildcard, else default holds if and only if not: a type that is empty or starts below the asterisk, with both rows present and different |
| Preferences.UpsertReadsBackExactly | services/notification/infrastructure/postgres/preference_repo.go:29-40 | reading back an upsert gives the value written if and only if not: such a type under a wildcard row set the other way |
| Preferences.UpsertReaches | services/notification/infrastructure/postgres/sqlc/query.sql.go:218-224 | an upsert changes no other user, app or channel, no other type unless it is the wildcard's, and then none that has a row of its own and sorts after it |
| Preferences.HistoryDecides | services/notification/infrastructure/postgres/sqlc/query.sql.go:218-224 | after every history of upserts the answer is the last value written for the type, else for the wildcard, else the default, the first two changed about for types sorting first |

## Left out

- HTTP handlers, routers, wiring, telemetry, logging, and the SMTP, APNs, FCM, Centrifugo, Keto and Hydra clients: each is a call with an arbitrary outcome.
- JSON, JWT, RSA, HMAC, UUID and regular-expression libraries: decoded records, parsed ids and claims come in as values. The subscriber's snake_case keys against the publisher's untagged structs are therefore not compared, and nothing is claimed from producer to consumer.
- Local time and clock changes in `date.subtract`: days are calendar days.
- Loading of months that are not in memory, persisting artifacts, and listeners in the habit provider.
- `toJson`, `fromJson`, `totalCompletions`, `activeDays`, today's completion rate and the habit list: easy members.
- Postgres collations other than character-code order, and transactions around single statements.
- Several replicas of the outbox worker or the sweeper; tickers and intervals.
- JetStream beyond redelivery on a Nak up to five deliveries: no ack timeouts, no lost Acks, no redelivery order between messages.
- Cancellation of contexts, errgroup error propagation (no worker returns an error) and panics.
- `SendToGroup` called with no data map, as other callers may: the consumer always passes one.
- Reading, marking and listing notifications, the read status, and listing preferences.
- Organisations, roles, profiles, `AppConfig`, listing groups and members, and connection tokens: easy members.
- `RemoveMember` of the member service as an operation of its own: any other change to the member table is one step of the invitation model.
- The JWT assertion built for the FCM exchange and the text of errors.
- Delivery.Subscriber.SendToGroup: the interleaving is chosen by a schedule given as a parameter, because Dafny has no threads; the results quantify over all schedules.
- Delivery.AtMostOneRecordPerUser: does not bound broadcasts, which may repeat once per delivery.
- FanOut.EveryScheduleFinishes: says that a finish is always within reach and every schedule is bounded; no fairness is needed and none is assumed.
- Outbox.OlderRowIsPublishedFirst: for rows with different stamps, because the query leaves equal stamps in any order.
- FcmToken.LifetimeExactly: wraps the multiplication of the granted seconds but not the addition to the clock.
- IntrospectCache.Cache.BearerAuth: takes the whole introspection as one reply, with the scopes already split.
- Invitations.MemberService.AcceptInvitation: the ghost `trail` records the order of the two writes; the program keeps no such record.
