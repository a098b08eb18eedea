# Miorail workers: a Dafny model

This project models the stateful workers of Miorail and proves what they keep:

- **Discovery** (`DiscoverStore`, `DiscoverProtocol`, `LaunchReader`, `DiscoverPass`). One bounded pass
  takes a lease, checks the chain against a stored block hash, reads a range of launch logs and commits
  launches and cursor in one statement. `DiscoverStore` is the repository, statement by statement;
  `DiscoverProtocol` is any number of workers interleaved at every await, with crashes, expiring leases,
  clocks that need not agree and endpoint failures; `LaunchReader` is the range read; `DiscoverPass` is
  the pass itself, call by call, every call allowed to fail before or after it took effect. The pass
  hands back the machine events it amounts to, so what holds of every run of the machine holds of passes.
- **Notifications** (`Notices`, `PushGroups`, `NotifyPlan`, `ClockPlans`, `NotifyLedger`, `NotifyPass`,
  `TelegramFanout`). From rows to notices, from notices to one push a wallet, from pushes to batches
  within a request budget; four clock-driven phases and the cursor-driven one; the fan-out from wallets to chats.
- **Service alerts** (`OpsAlerts`): failure episodes carried from pass to pass by a file.
- **The worker loop** (`WorkerLoop`): its cadence, its end, and the wait a stop signal interrupts.
- **Measurement** (`QuoteContext`, `MeasureVerdict`, `MeasurePass`, `BuyerCache`): quotes pinned to a
  block, silence that never becomes a verdict, budgets and counters, a measure-once cache.
- **Two small loops** (`BackwardScan`, `Concurrency`).

`Common.dfy` holds the optional value and the stable sort. `dafny verify dfyconfig.toml` checks everything.

Endpoints, the clock, chat and push providers and failing calls are parameters: functions from a request
(or its number) to an answer, or a `Fault` saying whether a call took effect and whether its answer came
back. Where a contract needs such a function to be honest (a range answers with logs of that range, a
push is taken only by wallets it was sent to) the assumption is a predicate named `Honest...`.

## Where the code keeps less than its comments say

Each is a proved counterexample or exact condition; the model follows the code.

- *The cursor never passes a range that was not read* (`scripts/b20DiscoverRun.ts:26-31`). The pass reads
  its starting block before it takes the lease, and `commitRange`
  (`lib/route-storage/src/b20DiscoverDatabase.ts:217-310`) asks only that the lease is held and the block
  moves forward, not that the cursor is still the one the pass started from. The rule holds throughout a
  run exactly when no applied commit started past the block its lease came back with
  (`NoGapExactlyWhenNeverStale`), which the hash comparison guarantees as long as every rewind lands on a
  block whose hash it can read (`NoGapWhenRewindsLandWithAHash`). A rewind that lands without a hash lets
  a gap through (`AGapIsReachable`).
- *A rewind means a reorganisation.* The compared hash comes from the leased row and the compared block
  from the earlier read. On a chain that never changes a worker that has two hashes to compare turns back
  exactly when the row its lease came back with is at another block than the one it started from (`ComparisonRewindsExactlyWhen`, over
  runs `RewindsWithoutAReorgExactlyWhen`), which it could test as soon as it holds the lease.
- *A launch of an unchanged chain stays listed.* It stays listed exactly when no applied rewind landed
  below it (`StaysListedExactlyWhen`), and reading its range again does not restore it
  (`RecommitNeverRestores`, `TakenBackForever`), so one can be lost (`ALaunchIsLostWithoutAReorg`); none is
  while every worker compares the hashes of one block (`RewindsWithoutAReorgExactlyWhen`).
- *Every pass records exactly one run.* A pass that returned after holding the lease records none exactly
  when it found the chain disagreeing and its lease had run out, or there was nowhere lower to go
  (`RecordsNoRunExactlyWhen`). A pass that throws records none or one, never another's (`AtMostOneRun` in
  `DiscoverPass.RunPass`).
- *The lease is always released.* Not when the answer granting it, or the release itself, was lost
  (`LeaseLeft` in `DiscoverPass.RunPass` states exactly when it is kept).
- *`notices` counts rows.* It counts deliveries: a row told to holders and to everybody else counts twice
  (`OneRowTwoNotices`). It is the rows that reached somebody exactly when every signal told in two
  versions is about a token all opted-in wallets hold (`NoticesCountRowsExactlyWhen`).
- *A retry of a delivered push is deduplicated* (`scripts/baseAppNotify.ts:1833-1835`). That is the Base
  App's doing; a chat has nothing like it. After a pass stopped among its rows the next one reads the same
  rows first (`StoppedRowsAreReadAgain`), and a wallet already told is addressed again, in the same words,
  exactly when it is still below its cap (`ToldAgainExactlyWhen`).
- The buyer cache keeps one row a token, so two launches of one token evict each other
  (`TwoWindowsOfOneTokenNeverRest`, `HeldThroughoutExactlyWhen`).
- The bounded mapper returns an incomplete list when its limit is 0 and there are items (`MapsExactlyWhenSomebodyRuns`).

## What the planners ask of their input

- The reward planner looks the daily count up once a row. It keeps the cap exactly when no wallet has more
  rows due than pushes left (`RewardsKeepTheCapExactlyWhen`, and `RewardsCanPassTheCap` for the need of
  it). The store's primary key (`lib/db/drizzle/0086_aerodrome_reward_alerts.sql:19`) allows a wallet one
  row, so the shipped pass keeps it.
- The alert planner tells only recoveries of announced failures exactly when no newly failed unit is
  described by two blocks that disagree (`RecoveriesCloseAnnouncedExactlyWhen`, and `AFlickerIsTold` for
  the need of it). The driver asks about each unit once, so with it that always holds
  (`DriverAsksOnceAboutEach`, `TheDriversRecoveriesWereAnnounced`).

## Model

| member | source | states |
|---|---|---|
| DiscoverStore.InsertLaunchesMeaning | lib/route-storage/src/b20DiscoverDatabase.ts:252-272 | the commit's insert keeps every stored row as it was and adds exactly the launches not stored yet, canonical and at their own block |
| DiscoverStore.RecommitNeverRestores | lib/route-storage/src/b20DiscoverDatabase.ts:270-271 | a launch a commit carries is canonical afterwards exactly when it was not already stored as taken back |
| DiscoverStore.DiscoverRepository.InitialiseCursor | lib/route-storage/src/b20DiscoverDatabase.ts:174-191 | a lane is opened once; a cursor already there wins |
| DiscoverStore.DiscoverRepository.AcquireWorkerLease | lib/route-storage/src/b20DiscoverDatabase.ts:193-208 | the live lease of somebody else is refused and nothing changes; a free, expired or own one comes back as the asker's until `ttl` from now |
| DiscoverStore.DiscoverRepository.ReleaseWorkerLease | lib/route-storage/src/b20DiscoverDatabase.ts:210-215 | only the caller's own lease is given back, run out or not, and nothing else changes |
| DiscoverStore.DiscoverRepository.CommitRange | lib/route-storage/src/b20DiscoverDatabase.ts:217-310 | the loop over launches and the cursor move amount to one atomic transition, which applies iff the lease is held, unexpired and the block moves forward; a launch outside the range moved over is refused before anything is written |
| DiscoverStore.CommittedExactlyWhen | lib/route-storage/src/b20DiscoverDatabase.ts:236-310 | that transition, field by field: forwards under the caller's own live lease, the launches stored, one run row a run id whose counts add up, the operator state cleared; or nothing at all |
| DiscoverStore.DiscoverRepository.RecordFailedRun | lib/route-storage/src/b20DiscoverDatabase.ts:370-395 | two statements, each of which may fail: one run row a run id, then the operator state stamped on an open lane, the block and the rows untouched |
| DiscoverStore.DiscoverRepository.RewindForReorg | lib/route-storage/src/b20DiscoverDatabase.ts:397-454 | cursor, marks above the landing block and run row move together or not at all |
| DiscoverStore.RewoundExactlyWhen | lib/route-storage/src/b20DiscoverDatabase.ts:397-454 | backwards under the caller's own live lease, the listed rows being those listed before at or below the landing block, none gone or moved; or nothing at all |
| DiscoverProtocol.EveryReachableStateIsSound | scripts/b20DiscoverRun.ts:134-350 | under every interleaving of any number of workers: no canonical row and no block counted as read above the cursor, every launch of a read block stored, the hash belongs to the block named, a lease still owned means the cursor has not moved |
| DiscoverProtocol.LiveLeaseTurnsAway | lib/route-storage/src/b20DiscoverDatabase.ts:193-208 | a worker that asks before another's lease has run out gets nothing and changes nothing |
| DiscoverProtocol.ExpiredLeaseIsTaken | lib/route-storage/src/b20DiscoverDatabase.ts:193-208 | a worker that asks once it has run out holds it |
| DiscoverProtocol.LiveLeaseExcludes | lib/route-storage/src/b20DiscoverDatabase.ts:193-208 | over any run in which the others' clocks stay short of a lease's end: none of them comes to hold it, cursor and rows stay, and the owner's commit applies iff it is in time and goes forward |
| DiscoverProtocol.CommitLeavesAGapExactlyWhenStale | scripts/b20DiscoverRun.ts:294-331 | one applied commit keeps every block behind the cursor read iff its worker did not start past its leased block |
| DiscoverProtocol.NoGapExactlyWhenNeverStale | scripts/b20DiscoverRun.ts:26-31 | over a whole run: every block from the bootstrap to the cursor has been read and stored since the last rewind below it, in every state, iff no commit was stale |
| DiscoverProtocol.NoGapWhenRewindsLandWithAHash | scripts/b20DiscoverRun.ts:174-196 | if no rewind lands without a hash no stale commit can get through, whatever the interleaving |
| DiscoverProtocol.FreshLane | scripts/b20DiscoverRun.ts:133-152 | the three results for everything a lane without a cursor can reach |
| DiscoverProtocol.TakenBackForever | lib/route-storage/src/b20DiscoverDatabase.ts:416-425 | a launch taken back stays taken back in every run |
| DiscoverProtocol.StaysListedExactlyWhen | lib/route-storage/src/b20DiscoverDatabase.ts:416-425 | a listed launch is listed at the end of any run iff no rewind that applied landed below it |
| DiscoverProtocol.ComparisonRewindsExactlyWhen | scripts/b20DiscoverRun.ts:174-190 | on an unchanging chain the comparison sends a worker back iff its lease came back at another block than it started from |
| DiscoverProtocol.RewindsWithoutAReorgExactlyWhen | scripts/b20DiscoverRun.ts:134-190 | over a whole run on an unchanging chain some worker turns back iff one compared two blocks' hashes; if none did every stored launch is listed |
| DiscoverProtocol.FreshSteadyLane | scripts/b20DiscoverRun.ts:133-190 | the same for everything a lane without a cursor can reach |
| DiscoverProtocol.AGapIsReachable | scripts/b20DiscoverRun.ts:363-369 | a run from an empty lane to a cursor with unread blocks behind it |
| DiscoverProtocol.ALaunchIsLostWithoutAReorg | scripts/b20DiscoverRun.ts:134-190 | a run on a chain that never changes in which a launch ends up marked as taken back |
| LaunchReader.LogWindows | lib/b20-control/src/launchReader.ts:187-198 | the request windows tile the range: consecutive, none empty, none wider than the limit |
| LaunchReader.TilesCoverOnce | lib/b20-control/src/launchReader.ts:180-198 | every block of the range lies in exactly one window |
| LaunchReader.Gather | lib/b20-control/src/launchReader.ts:265-287 | logs are kept iff every window answered with a list, and then all of them, in the order asked |
| LaunchReader.Decode | lib/b20-control/src/launchReader.ts:300-335 | a mismatch is reported iff some log cannot be decoded; otherwise the batches are the fold by block |
| LaunchReader.DecodeAllMeaning | lib/b20-control/src/launchReader.ts:305-339 | the batches hold exactly the created logs, each launch once, one ascending batch a block |
| LaunchReader.DecodedInLogOrder | lib/b20-control/src/launchReader.ts:289-335 | of two launches the earlier has a log at a lower block, or at the same block and a place no later |
| LaunchReader.TakeWhole | lib/b20-control/src/launchReader.ts:337-361 | whole blocks are taken while they fit, at least the first; one is left only where it would pass the budget |
| LaunchReader.TakenIsAsFar | lib/b20-control/src/launchReader.ts:337-361 | so the read stops at the end of its range, or where it has launches and every longer range holds more than the budget or the budget is spent |
| LaunchReader.ReadLaunches | lib/b20-control/src/launchReader.ts:212-403 | which refusal each silence is and that any keeps nothing; the range is as wide as allowed, asked for whole, and kept up to where the budget goes: exactly what the windows said, in log order, with that block's hash |
| LaunchReader.ReadsMeaning | lib/b20-control/src/launchReader.ts:200-211 | a refusal leaves the cursor where it was and keeps nothing; progress means every window from the cursor on answered |
| DiscoverPass.StopInert | scripts/b20DiscoverRun.ts:107-131 | an inert run has equal start and end, moves nothing, and is the row it reports; the operator state is the one given or as it was |
| DiscoverPass.RewindPass | scripts/b20DiscoverRun.ts:354-401 | back to max(0, cursor - depth) with rows above marked and the state stamped, or nothing at all; which of the two, from the lease and the floor |
| DiscoverPass.CommitPass | scripts/b20DiscoverRun.ts:290-344 | forward with the launches or not at all; lost lease reported as another worker active; report equals the recorded row |
| DiscoverPass.ReadAndCommit | scripts/b20DiscoverRun.ts:198-344 | the read part of a pass, branch by branch: what it reads is what the reader gives for the block after its start, and only progress moves the cursor |
| DiscoverPass.LeasedPass | scripts/b20DiscoverRun.ts:174-350 | forward, back, or as found; which result each branch reports and which operator state it leaves; for any starting block, also one the lease disagrees with; it returns when every call is answered and the cursor is where it started |
| DiscoverPass.UseReading | scripts/b20DiscoverRun.ts:226-344 | a complete read is committed, any other recorded as a run that moved nothing |
| DiscoverPass.FromLease | scripts/b20DiscoverRun.ts:154-350 | the pass from the moment it asks for the lease, whatever other workers did since it read its cursor: a run of the machine; turned away iff somebody else's lease is live; else trichotomy, when it moves, exactly, and when a lease is left behind, exactly |
| DiscoverPass.RecordsNoRunExactlyWhen | scripts/b20DiscoverRun.ts:354-401 | a returned pass that held the lease records its run, except iff it had to rewind and could not |
| DiscoverPass.RunPass | scripts/b20DiscoverRun.ts:84-350 | the same from the cursor read on: where a lane is opened, report equals the one run row, no other run row however the pass ends, also by an exception; it returns when every call is answered |
| Notices.ClipMeaning | scripts/baseAppNotify.ts:310-313 | clipping respects its bound, leaves exactly the texts within it whole, marks a cut one at its end, and is idempotent |
| Notices.FlatKeepsTheWords | scripts/baseAppNotify.ts:310-313 | flattening leaves single spaces between words and the words as they were |
| Notices.ShownMeaning | scripts/baseAppNotify.ts:664-670 | the labels shown are the longest prefix every part of which leaves room |
| Notices.NoLabelIsWasted | scripts/baseAppNotify.ts:664-670 | one label more than shown and the message would pass 200 |
| Notices.Summarise | scripts/baseAppNotify.ts:661-679 | one notice is told as it is; several are counted, told by the labels shown and the number of the others, and lead where all lead or to the board |
| Notices.JoinMeaning | scripts/baseAppNotify.ts:666-676 | two lists of labels joined are the joined lists with one separator between |
| Notices.DecimalReadsBack | scripts/baseAppNotify.ts:667-676 | the counts shown read back as the counts |
| Notices.SummaryMessageFits | scripts/baseAppNotify.ts:668-677 | the message is within 200 before clipping iff a label was accepted or the count has at most 161 digits: the reserved 30 is exactly the closing sentence |
| Notices.SummaryIsNeverCut | scripts/baseAppNotify.ts:661-679 | for as many notices as an array can hold the clip cuts nothing |
| PushGroups.GroupByMessage | scripts/baseAppNotify.ts:1117-1129 | one group a distinct push, carrying exactly the wallets it was given |
| PushGroups.Slice | scripts/baseAppNotify.ts:1131-1136 | batches of 1 to 1000 wallets, carrying the same wallets in the same order, as few as possible |
| PushGroups.KeepBiggest | scripts/baseAppNotify.ts:1137-1140 | what is kept reaches as many wallets as any choice of that many batches could, biggest first and ties by message |
| PushGroups.FirstReachMost | scripts/baseAppNotify.ts:1137-1140 | in a list ordered by size no choice of k groups reaches more than the first k |
| PushGroups.OnePushMakesDisjoint | scripts/baseAppNotify.ts:1117-1136 | one push a wallet means no wallet in two batches or twice in one |
| PushGroups.PlanRequests | scripts/baseAppNotify.ts:1117-1149 | conservation, batch sizes, as few batches as the pushes need, disjointness, order and optimality together |
| NotifyPlan.SplitPartitionsTheOptedIn | scripts/baseAppNotify.ts:1078-1100 | when holder and contract versions are both delivered each opted-in wallet is in exactly one audience |
| NotifyPlan.SignalFate | scripts/baseAppNotify.ts:1057-1075 | a signal is stale iff older than the cut-off, and goes out iff its change is not told by another row, its kind has an audience and it can be said |
| NotifyPlan.SignalAudience | scripts/baseAppNotify.ts:1076-1101 | in two versions iff there is one for holders and an opted-in wallet holds the token, each to exactly its half; else to all opted-in wallets or the token's watchers |
| NotifyPlan.EventFate | scripts/baseAppNotify.ts:1103-1115 | a radar event goes to its one wallet iff recent, named and sayable |
| NotifyPlan.HeardMeaning | scripts/baseAppNotify.ts:1030-1043 | a wallet has heard one notice for each key some delivery to it had: the last such delivery's, standing where the key first came |
| NotifyPlan.RowsAreConserved | scripts/baseAppNotify.ts:1057-1115 | stale, unsent and handed out are all the rows read |
| NotifyPlan.Outbox.Deliver | scripts/baseAppNotify.ts:1030-1043 | after any deliveries each told, opted-in wallet holds, for each key it was told under, the last notice, in the order the keys first came; the other wallets are counted as not opted in |
| NotifyPlan.IndexWatchers | scripts/baseAppNotify.ts:1022-1028 | under each token stand the wallets watching it, each once |
| NotifyPlan.PlaceSignal | scripts/baseAppNotify.ts:1057-1101 | one signal goes stale, unsent or out, to the audience its kind and holdings say |
| NotifyPlan.ToPushes | scripts/baseAppNotify.ts:1117-1129 | exactly the told, opted-in, uncapped wallets get a push, the summary of exactly what they were told; the rest of the told are counted as capped |
| NotifyPlan.NoticesCountRowsExactlyWhen | scripts/baseAppNotify.ts:1030-1100 | the notices of a plan are the rows that reached somebody and the rows both of whose versions did; so the rows iff no signal is told in two versions to a holder and to an opted-in non-holder |
| NotifyPlan.OneRowTwoNotices | scripts/baseAppNotify.ts:1078-1100 | one signal, a holder and a non-holder: two notices |
| NotifyPlan.PlanEvents | scripts/baseAppNotify.ts:999-1149 | each eligible wallet in exactly one batch, kept or dropped, with the summary of exactly what it was told; kept + dropped + capped are all told wallets; optimal dropping; row and notice counts |
| ClockPlans.Address | scripts/baseAppNotify.ts:938-954 | one push each to the wallets below the cap with something to say, and the number at the cap |
| ClockPlans.WeeklyTells | scripts/baseAppNotify.ts:946-951 | a holder of one of the week's stocks hears of its own, anybody else of the market |
| ClockPlans.PlanWeekly | scripts/baseAppNotify.ts:931-964 | as the event planner: partition, sizes, optimal dropping |
| ClockPlans.ReopenDueExactlyWhen | scripts/baseAppNotify.ts:1174-1186 | which notice of a round is due, by the distance to its opening, lock and settling |
| ClockPlans.ReopenNoticesAreOrdered | scripts/baseAppNotify.ts:1174-1186 | however often a round is looked at, also once it has settled, its notices fall due in one order |
| ClockPlans.PlanReopen | scripts/baseAppNotify.ts:1249-1276 | every addressed wallet in exactly one batch, none dropped |
| ClockPlans.PlanRewards | scripts/baseAppNotify.ts:1296-1324 | a push for every row of an opted-in wallet below the cap, none else, in wallet order, and the rows add up |
| ClockPlans.PlanLoans | scripts/baseAppNotify.ts:1347-1369 | a push for every row of an opted-in wallet, whatever the cap, in the order of wallet and market |
| ClockPlans.RewardsCanPassTheCap | scripts/baseAppNotify.ts:1305-1313 | two rows of a wallet one below its cap are both planned |
| ClockPlans.RewardsKeepTheCapExactlyWhen | scripts/baseAppNotify.ts:1305-1313 | the reward plan keeps the cap iff no wallet has more rows than pushes left |
| NotifyLedger.RecordedStayWithinTheCap | scripts/baseAppNotify.ts:1543-1570 | recorded pushes outside the loan phase never exceed the cap for a wallet and day |
| NotifyLedger.SentOnceEntries | scripts/baseAppNotify.ts:1543-1570 | a batch addressed only to wallets not marked keeps every weekly and reopen push from following a marked one of its kind |
| NotifyLedger.TiedAfter | lib/route-storage/src/baseAppNotificationsDatabase.ts:154-230 | the counts and marks in the tables are those of the history after any batch, recorded whole or in part |
| NotifyLedger.CappedAreCounted | lib/route-storage/src/baseAppNotificationsDatabase.ts:168-177 | what the cap counts includes every recorded push |
| NotifyLedger.CountsAreWrittenFirst | lib/route-storage/src/baseAppNotificationsDatabase.ts:168-229 | a recording that fails has written just the rows before the failure, the counts before the marks |
| NotifyLedger.NotifyRepository.Record | lib/route-storage/src/baseAppNotificationsDatabase.ts:168-229 | wallets counted one by one, then marked one by one, until a write fails; the tables keep saying what the history says |
| NotifyPass.SendPhase | scripts/baseAppNotify.ts:1563-1577 | every group up to the first failure that is not a refused payload is tried, and the history grows by exactly what the answers and the recording say; the cap holds and no marked once-only push is repeated |
| NotifyPass.StopsExactlyWhen | scripts/baseAppNotify.ts:1563-1577 | a phase stops iff a group was refused for anything but its payload, or was taken and could not be recorded |
| NotifyPass.LoanPhase | scripts/baseAppNotify.ts:1491-1529 | every loan row of an opted-in wallet is sent, bypassing the cap; nothing in a dry pass; stops when the provider does not answer |
| NotifyPass.WeeklyPhase | scripts/baseAppNotify.ts:1531-1582 | what was sent is the weekly plan over the opted-in wallets not marked for the week, with the counts of the history; an unread balance sends nothing |
| NotifyPass.ReopenPhase | scripts/baseAppNotify.ts:1584-1632 | the same for the due notice of the round and its audience (the scored, those not playing, or those of them who came before), once each round and kind |
| NotifyPass.RewardPhase | scripts/baseAppNotify.ts:1634-1673 | the reward plan is what was sent; within the cap when each wallet has one reward due |
| NotifyPass.RowPhase | scripts/baseAppNotify.ts:1675-1850 | which rows were read, with what the planner was asked, what was sent of the plan, which way the pass ends, exactly, and how each cursor moved for it |
| NotifyPass.CursorsWaitForEveryGroup | scripts/baseAppNotify.ts:1825-1845 | before a cursor moves every kept group was tried without a failure other than a refused payload, and all of it is in the history |
| NotifyPass.NothingSendableNothingHanded | scripts/baseAppNotify.ts:1727-1749 | a batch with nothing sendable is all stale or unsent |
| NotifyPass.RunPasses | scripts/baseAppNotify.ts:1435-1850 | any sequence of passes: pushes outside the loan phase never exceed the cap for a wallet and day, no weekly or reopen push follows a marked one, and each pass is one from the books the last one left |
| NotifyPass.EverySignalIsHandledOnce | scripts/baseAppNotify.ts:1699-1845 | over any sequence of passes every signal between where the cursor was opened and where it stands was moved over by exactly one pass, which had tried every kept group of a plan made from it |
| NotifyPass.EveryEventIsHandledOnce | scripts/baseAppNotify.ts:1699-1845 | the same of radar events |
| NotifyPass.MovesAreChained | scripts/baseAppNotify.ts:1677-1717 | the cursor moves of a run chain: each pass starts where the one before it stopped and moves as its outcome allows |
| NotifyPass.StoppedRowsAreReadAgain | scripts/baseAppNotify.ts:1833-1836 | after a pass stopped among its rows the next reads the same rows first |
| NotifyPass.ToldAgainExactlyWhen | scripts/baseAppNotify.ts:1833-1836 | planning them again addresses a wallet already told, in the same words, iff it is still below its cap |
| NotifyPass.RunPass | scripts/baseAppNotify.ts:1435-1850 | one pass is the four clock-driven phases in order and then the rows, each from the history the one before left; books tied to the history, the cap kept, cursors only over rows dealt with, no count younger than a week pruned |
| NotifyPass.NoRowIsSkipped | scripts/baseAppNotify.ts:1699-1717 | over any chain of passes a cursor only moves forward, and every row behind it was read by exactly one pass that moved it |
| TelegramFanout.IndexChats | scripts/telegramNotify.ts:55-62 | under each chat the wallets of the notice connected to it; wallets without one counted |
| TelegramFanout.UnconnectedAre | scripts/telegramNotify.ts:55-62 | the wallets counted as unconnected are those of the notice without a chat |
| TelegramFanout.BotClient.Deliver | scripts/telegramNotify.ts:38-47 | one retry after a transient refusal, none otherwise |
| TelegramFanout.TriesMeaning | scripts/telegramNotify.ts:38-47 | a second try iff the first was refused for now, and its answer counts |
| TelegramFanout.FateMeaning | scripts/telegramNotify.ts:66-87 | reached, disconnected, refused or stopping, each iff the answer that counts says so |
| TelegramFanout.TelegramClient.Send | scripts/telegramNotify.ts:52-90 | returns iff no chat has to stop the pass; sent iff some chat took it, in order; reached, disconnected and refused chats add up; disconnects exactly the chats found gone; what was written |
| TelegramFanout.NothingStops | scripts/telegramNotify.ts:66-87 | when no chat stops the pass, reached, disconnected and refused are all of them |
| TelegramFanout.ChatsAreConserved | scripts/telegramNotify.ts:66-87 | reached, disconnected, refused and stopping chats are all of them |
| TelegramFanout.OneMessageAChat | scripts/telegramNotify.ts:38-47 | at most two tries and one message a chat |
| TelegramFanout.HearingIsASelection | scripts/telegramNotify.ts:88-89 | the wallets reported as sent are told wallets of the notice, none twice |
| OpsAlerts.PlanOps | scripts/opsUnitAlerts.ts:82-120 | the loops compute the plan of the pass |
| OpsAlerts.ObservedMeaning | scripts/opsUnitAlerts.ts:88-101 | a unit seen failed has an episode seen now that keeps when it began and was last told; any other is as it was |
| OpsAlerts.ByUnitIsTheLast | scripts/opsUnitAlerts.ts:88 | a unit's reading is its last block |
| OpsAlerts.SaidInOrder | scripts/opsUnitAlerts.ts:102-119 | announcements, reminders and recoveries each come in the order of the episodes |
| OpsAlerts.EachEpisodeOneWay | scripts/opsUnitAlerts.ts:102-119 | at most one episode a unit, and announced, reminded of, closed (as healthy or as cleared) or left alone, each iff its last reading and its own times say so |
| OpsAlerts.AlertFile.RunPass | scripts/ops_unit_alerts.ts:95-153 | in terms of the log of all passes and the last reading: announces iff failed and never heard, reminds iff failed and last heard a day ago, recovers iff gone or unloaded, or neither failed nor settling for ten minutes; how it recovered; and the file saying exactly what all passes saw and told |
| OpsAlerts.UnheardStaysDue | scripts/ops_unit_alerts.ts:150-152 | an announcement that reached nobody is made again while the unit stays failed |
| OpsAlerts.RecoveriesCloseAnnouncedExactlyWhen | scripts/opsUnitAlerts.ts:123-131 | if every message arrives, recoveries close announced episodes iff no newly failed unit flickers |
| OpsAlerts.EveryRecoveryWasAnnounced | scripts/opsUnitAlerts.ts:123-131 | over a whole run from an empty file |
| OpsAlerts.DriverAsksOnceAboutEach | scripts/ops_unit_alerts.ts:74-82 | the driver's input describes no unit twice and every open episode's unit |
| OpsAlerts.OneBlockEachRunsAreAnnounced | scripts/opsUnitAlerts.ts:82-120 | with one block a unit, over a whole run, every recovery told closes an announced episode, whatever the units do |
| OpsAlerts.TheDriversRecoveriesWereAnnounced | scripts/ops_unit_alerts.ts:74-82 | so with the input the driver builds |
| OpsAlerts.AFlickerIsTold | scripts/opsUnitAlerts.ts:88-111 | the planner needs the condition: two disagreeing blocks tell a recovery of an unannounced failure |
| WorkerLoop.BackoffDoublesUpToItsCeiling | scripts/b20WorkerLoop.ts:110-115 | refusals wait longer, doubling up to the ceiling and staying there |
| WorkerLoop.RestsExactlyWhenNothingIsLeft | scripts/b20WorkerLoop.ts:117-132 | a pass without a refusal is followed by the short wait, four times it beside another worker, or the long one iff nothing is left |
| WorkerLoop.MoreLeftNeverRestsLonger | scripts/b20WorkerLoop.ts:117-132 | of two passes without a refusal the one that left more to do is not followed by the longer rest |
| WorkerLoop.RunWorkerLoop | scripts/b20WorkerLoop.ts:156-192 | every pass logged with its refusals in a row; why and after how many passes and waits the loop ends |
| WorkerLoop.TrailingMeaning | scripts/b20WorkerLoop.ts:165-180 | the count in the log is of the longest unbroken run of refusals ending with the pass |
| WorkerLoop.MovesExactlyWhenAwaited | scripts/b20WorkerLoop.ts:156-228 | the loop moves on exactly at the event it awaits, or at a stop while it waits |
| WorkerLoop.InterruptibleWait.Wait | scripts/b20WorkerLoop.ts:217-224 | a new wait, outstanding as long as its timer is armed, and the one the handle wakes |
| WorkerLoop.InterruptibleWait.Fire | scripts/b20WorkerLoop.ts:218-223 | after a timer's turn its wait has been resolved exactly once |
| WorkerLoop.InterruptibleWait.Wake | scripts/b20WorkerLoop.ts:218-226 | the handle is spent, and no wait is left outstanding iff only the latest was |
| WorkerLoop.NoWakeUpIsLost | scripts/b20WorkerLoop.ts:214-228 | whichever await a stop arrives at: no further pass, no wait left outstanding, every wait resolved once, its timer cleared |
| WorkerLoop.StoppedLoopEnds | scripts/b20WorkerLoop.ts:186-192 | a stopped loop ends within two of its own turns, one of them the pass in flight |
| QuoteContext.Quotes.Quote | scripts/b20MeasureDeps.ts:168-190 | anchored means everything so far was read at the anchor; the change is one way and only for the catch-all failure; nothing comes back only for the pool's own refusal; one call a quote plus one |
| QuoteContext.AnchoredMeansAnchored | scripts/b20MeasureDeps.ts:120-191 | the same however quotes overlap |
| QuoteContext.AnsweredAtLatestExactlyWhen | scripts/b20MeasureDeps.ts:113-190 | a quote's first read is at the latest block iff an earlier retry's answer was back before it started, and its answer iff that or its own failure at the anchor |
| MeasureVerdict.RoundTrip | lib/swap-adapters/src/uniswap-v4-b20.ts:61-126 | degraded iff an answer was no answer; no sale asked for without a price for the buy |
| MeasureVerdict.ProbeSizes | lib/opportunity-rail/src/exitQuotes.ts:26-44 | the exit sizes are the position's halves, ascending, none repeated, as many as asked for or down to 1 |
| MeasureVerdict.Ladder | lib/swap-adapters/src/uniswap-v4-b20.ts:162-194 | every rung asked before the first silence is priced as the pool prices it, a known size without asking again; degraded iff it met a silence, which ends it |
| MeasureVerdict.AnalyseRoutes | scripts/b20MeasureDeps.ts:324-498 | degraded iff a read it made went unanswered; the other venue asked iff this one has no price for the buy; a measurable pool always asked; the ladder climbed unless the sale went unanswered; an anchored search read everything at the anchor |
| MeasureVerdict.MeasureOne | scripts/b20MeasureRun.ts:530-744 | nothing stored without an anchor or for an observed block; each verdict iff the reads say so, a candidate iff both factory reads said yes, nothing was silent, and buy and sale have amounts; degraded iff a consulted read was silent; controls read for a candidate only |
| MeasureVerdict.FilterIsFromReads | scripts/b20MeasureRun.ts:326-346 | each verdict of the filter, iff the factory reads and the routes are as it says |
| MeasurePass.RunPass | scripts/b20MeasureRun.ts:347-488 | the counters add up over the launches attempted, none twice; the reserved pairs come before anything of the primary queue, each queue in its own order; a chunk is begun iff every budget has room, so they overshoot by at most the chunk under way |
| MeasurePass.EligibleInOrder | scripts/b20MeasureRun.ts:393-413 | any front of the work is the reserved pairs first and then the primary queue without them, in order |
| MeasurePass.EligibleAreBoth | scripts/b20MeasureRun.ts:393-413 | the work is everything in either queue, once |
| MeasurePass.ReservationIsSpent | scripts/b20MeasureRun.ts:404-430 | when only the number of candidates bound the pass every reserved pair was attempted |
| MeasurePass.WorkThrough | scripts/b20MeasureRun.ts:417-473 | the chunk loop: attempted from the front in chunks, the next begun iff no budget is spent |
| MeasurePass.TallySums | scripts/b20MeasureRun.ts:468-471 | a tally that counts each state right sums to the number of candidates |
| BuyerCache.BuyerMeasurement.EnsureMeasured | scripts/b20BuyerStore.ts:55-113 | the stored row of the window, or else nothing or what a direct measurement tells; a row is stored iff its window was closed and its reads answered; when it asks for logs |
| BuyerCache.HeldThroughoutExactlyWhen | scripts/b20BuyerStore.ts:62-70 | a stored window stays stored through any run iff no other window of its token is written |
| BuyerCache.NoFurtherLogCall | scripts/b20BuyerStore.ts:62-70 | while it is, no request whose read succeeds asks for logs |
| BackwardScan.Scan | scripts/b20_investigate_token.ts:127-151 | the answered windows tile down from the top, each a tenth as wide for every refusal so far; each narrowing answers a refusal there; it gives up iff one of at most ten blocks is refused, with the rest unread; an end without a log has read the whole range |
| BackwardScan.CoveredOnce | scripts/b20_investigate_token.ts:130-150 | every block behind the scan lies in exactly one answered window |
| Concurrency.EveryInterleavingKeeps | scripts/bench_stocks_narrator.ts:198-215 | each index claimed once, in order; results at their own index; none lost |
| Concurrency.InFlightWithinLimit | scripts/rwa_read_representation_ratio.ts:78-94 | the items being worked on are never more than the limit, or than there are |
| Concurrency.MapsExactlyWhenSomebodyRuns | scripts/bench_stocks_narrator.ts:203-214 | the sequential map, in place, iff there was a runner or nothing to do |
| Concurrency.NeverStuck | scripts/bench_stocks_narrator.ts:205-212 | until every runner has stopped some runner can move |
| Concurrency.EachTurnCounts | scripts/bench_stocks_narrator.ts:205-212 | every effective turn brings the end one nearer |

## Left out

- SQL, RPC, HTTP, Telegram, systemd and file access beyond their answers; JSON, regular expressions and hashing.
- Notice wording, tickers and dates: titles, messages and labels are opaque strings, except that clipping and the summary are modelled on them. Text is a sequence of characters; a pair of surrogates counts as one.
- Address and message collation: wallets order as the numbers their hexadecimal digits spell; messages by any total preorder.
- When the weekly summary falls due, and which wallets hold which tokens: both are read elsewhere and are inputs.
- Rows that commit behind a cursor already past them: a row log here only grows at its end.
- Launch fields other than id and block, scan counters and timestamps of runs, `insertHistoricalLaunches`, and reads of launches and runs.
- DiscoverPass.RunPass: nobody else acts between its calls. `FromLease` is the same pass with anything done by others between its cursor read and its lease (`RunsCompose` joins the two parts into one run), and `DiscoverProtocol` covers every interleaving.
- The Base App client's paging and pacing: the opted-in list is an input.
- NotifyPass.RunPass: assumes a clock that does not fall back by more than the week of counts that is kept; the cap also assumes one untold reward a wallet, as the store's primary key has it.
- NotifyPass.RunPasses: the same, for passes of one channel that do not overlap.
- WorkerLoop.RunWorkerLoop: a run nothing ever ends has no summary and is not described.
- A unit `systemctl` describes under another name than it was asked by.
- Repository calls of a notification pass that throw outside sending and advancing, and the failure counts of its report.
- A state file of the alerts that cannot be read (it starts over empty) or written after a message was sent (the message is sent again); the copy of the subscribed chats; message text.
- The measurement lease's own statements, failure reasons' text, the round-trip and verdict arithmetic, and the Aerodrome reader, whose `degraded` flag is an input.
- The order in which the calls of one measurement chunk interleave: its results are counted in queue order, as the code does, and a launch's result is a function of the launch.
- Counting the buyers in a window's logs: the distribution of a closed window is a function of token and block.
- Runners whose work throws; pacing delays.
- CLI parsing, usage text, exit codes, environment loading, market-tail and asset-binding scripts: single branches or packages outside the scripts modelled.
