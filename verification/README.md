# Etibé: a verified model of its savings circles

Etibé runs rotating savings circles (tontines). A fixed group contributes the same amount every round, and each
round one member receives the whole pot. This project models the parts of Etibé that decide who is paid, how often,
when, and how much, and proves what they guarantee over every run:

- **The on-chain circle** (`EtibeCircle*.dfy`): the Solidity contract as a state machine over its storage, with a
  public record of everything it did. Plain transfers and owner withdrawals are ordinary steps. A class with the
  contract's storage fields is proved to take exactly these steps.
- **The backend circle** (`Circle*.dfy`): the store record, the cache, the payout queue and the transaction
  records, from creation to the last payout, on NEAR and on Base. A payout attempt may stop after any of its writes,
  throw, or die with its process; jobs may run in any order, be retried, be reconciled and be removed. The round that
  `startCircle` writes is a parameter, so that the run the rest of the code is written for (round 0) and the run as
  written (round 1) are both covered. `CircleOnBase.dfy` ties a Base circle to its contract.
- **Dates** (`Calendar.dfy`, `PayoutDates.dfy`): ECMAScript day numbers with month overflow (MakeDay, section 21.4.1.12
  of ECMA-262, 2021 edition), and the three date computations built on them.
- **Sessions** (`Session*.dfy`): three families of Redis keys with expiry. Every Redis read, every write and every clock
  reading of an operation has a moment of its own; a deletion, whose effect does not depend on the time, needs none.
- **Withdrawals** (`Withdrawal*.dfy`): idempotency key, job, retries and transaction status.
- **Amounts** (`DecimalStrings.dfy`, `AtomicUnits.dfy`, `TokenBalance.dfy`): decimal strings to atomic units and
  back, and the truncated balance the withdrawal check relies on.

`Counting.dfy` holds the counting arguments: distinct lists, permutations, and the two ways to count a grid.

Each stateful component has the same shape. A module of plain functions says what every operation does to the whole
state; an invariant and theorems are proved over all runs of those functions; and a class whose methods update
fields step by step, with the branches and the order of writes of Etibé's code, is proved equal to the functions. In
the contract and the backend every method also keeps the invariant.

For each component a further module (`*Calls.dfy`, `CircleAttempts.dfy`, `CircleReconciliation.dfy`) says of every
reachable state exactly when each call goes through, what it then writes and answers, and that it otherwise changes
nothing; and, for stored circles, sessions and withdrawals, which earlier calls they come from. These are stated on the
public record, the stored documents and numbers, not on the functions that compute the step.

Inputs the model cannot decide (does the queue accept a job, does a transfer go through, does the process survive,
what time is it) are parameters of the steps, and every theorem holds for all of them.

## What the code does not do

Some properties its comments or layout suggest are false of the code. They are stated here with the exact condition
under which they hold, and with a run that meets the fault.

- **The first round is never paid.** `startCircle` writes round 1 and the processor refuses a job when the current
  round has reached the job's round, so round 1 is never eligible: the creator is never marked paid and no circle ever
  completes (`CircleTheorems.AsWrittenTheFirstRoundIsNeverPaid`). A launched circle whose rounds are run in order
  completes, at the n-th round, exactly when the start writes round 0 (`CircleTheorems.LaunchedCirclesRunInOrder`).
- **On Base a job does not decide who is paid.** A NEAR payout sends the job's amount to the job's recipient. A Base
  payout calls `releasePayout` on the circle's contract, which pays the next member of its own order. So the m-th
  release pays position m, and reaches the member its job names exactly if the job was for round m
  (`CircleOnBase.ReleasesPayByPosition`); as written the first release pays the creator, whom the backend never marks
  (`CircleOnBase.AsWrittenTheContractPaysTheCreator`, with a run in `CircleOnBase.SomeReleasePaysTheCreator`).
  Results on who is sent what are therefore stated for NEAR.
  Base attempts get as far as that only if the balance check lets them: it asks NEAR about the Base address, and
  normally finds nothing and refuses. The model leaves the outcome of the check open.
- **A round can be paid twice.** After an eligible attempt the job is eligible again exactly if the attempt did not get
  to the mark, although it may have got to the payout (`CircleTheorems.PayableAgainIffUnmarked`). From any state a
  further payout of a round, and so a second one after a first, is possible exactly if the circle is ACTIVE, the round
  lies ahead, its member is unmarked and its job is not used up (`CircleTheorems.PayoutIsPossibleIff`,
  `CircleExamples.SomeRunPaysTwice`). The payouts of a round are exactly the attempts that stopped in between, plus one
  if its member is marked (`CircleTheorems.RoundPayoutsAreMarksAndLosses`).
- **A paid-up circle may stay ACTIVE.** It is and stays COMPLETED exactly if the last attempt that paid got to the
  completion check (`CircleTheorems.PaidUpCirclesAreDecided`, `CircleExamples.SomeCompletionIsMissed`). Only circles
  started at round 0 get that far; with the written round 1 someone is always unpaid. In general completion is still
  possible exactly under the condition of `CircleTheorems.CompletionIsPossibleIff`.
- **Reconciliation does not revive a used-up job.** It sees the round as missing, but scheduling keeps the dead job, so
  the round is never paid (`CircleTheorems.ReconciliationSees`, `CircleTheorems.UsedUpRoundsAreFinal`,
  `CircleExamples.SomeRoundDies`).
- **Two dates can disagree.** The contribution deadline is a single jump and the payout schedule an iteration. For
  monthly circles they agree in a round exactly if no month up to then is too short for the start day, or the month
  aimed at is as long as the first that was (`PayoutDates.MonthlyDeadlineAgreesIff`); so they agree in every round
  exactly when the circle is not monthly or starts on day 28 or earlier (`PayoutDates.DeadlinesAgreeIff`).
- **A touched session can become permanent.** Some session key is stored without an expiry exactly if some touch found
  a session and then read the clock at or after its expiry (`SessionTheorems.PermanentIff`); two moments around the
  expiry are enough (`SessionTheorems.StraddlingTouchIsPermanent`).
- **A device key may not point to the current session.** Cleaning up a session stored forever deletes the device key of
  its successor (`SessionTheorems.UnhookedSession`). All through a run every current session, that is one whose own
  expiry has not been reached, is the one its device key points to exactly if no step invalidates a session whose
  device key points to another, current one (`SessionTheorems.CurrentSessionsAreHookedIff`). The user's list survives
  every delay (`SessionTheorems.CurrentSessionsAreListed`).
- **createSession may leave the previous session of the device.** The new session is the only current one of its user and
  device exactly if the look-up of the device returned every such session that is still current at the end
  (`SessionTheorems.CreateReplacesDeviceSession`); there is one session per device all through a run exactly if every
  createSession that ends before its session expires is of that kind (`SessionTheorems.OneSessionPerDeviceIff`,
  `SessionTheorems.StrandedSession`). Runs that never unhook are safe (`SessionTheorems.OneSessionPerDevice`).
- **A payout order is not checked for duplicates.** A duplicate does not make the contract pay twice; it blocks it for
  good. From any active state completion is possible exactly when the rest of the order is distinct and unpaid and a
  payout is representable (`EtibeCircleTheorems.CompletionIsPossibleIff`, `EtibeCircleTheorems.DuplicateOrderBlocks`).
- **A withdrawal can be executed twice.** Some future executes it, for the first time or again, exactly if its job is not
  in the queue, or has finished there, or is waiting while its transaction is PENDING
  (`WithdrawalTheorems.ExecutionIsPossibleIff`, `WithdrawalTheorems.EvictionRepeats`,
  `WithdrawalTheorems.LostAttemptRepeats`).
- **A repeated withdrawal request may be told of another withdrawal.** The answer names the first withdrawal of the user
  and key, which is that of the queued job exactly if none came before it (`WithdrawalCalls.DuplicateNamesTheJobIff`).
  When the queue refused a first request, the confirmed second one is reported as still pending
  (`WithdrawalCalls.ConfirmedIsReportedPending`).
- **FAILED does not mean that no transfer was made.** There are two ways there, both only while the job is waiting. A
  PENDING withdrawal can still be transferred and end FAILED, because the write that confirms it fails
  (`WithdrawalTheorems.ExecutedCanEndFailedIff`); and a CONFIRMED one is overwritten by the retry
  (`WithdrawalTheorems.ConfirmedCanTurnFailedIff`). `WithdrawalTheorems.FailedTellsNeither` has a run for each.

## Model

| member | source | states |
|---|---|---|
| EtibeCircleTheorems.LedgerConserved | contracts/EtibeCircle.sol:140-218 | In every reachable state balance + payouts + emergency withdrawals = contributionAmount times contributions + plain transfers; assets of the other kind are never paid out |
| EtibeCircleTheorems.ContributionsCountedTwice | contracts/EtibeCircle.sol:140-168 | In every reachable state, also across restarts, a round's counter is the number of members flagged in it, a member's counter is the number of rounds it is flagged in, and both sums equal the number of contributions ever accepted |
| EtibeCircleTheorems.LifetimeBounds | contracts/EtibeCircle.sol:98-218 | Over any history recipients are pairwise distinct members, so payouts never exceed maxMembers (at most 50); the contract completes at most once and is started at most twice |
| EtibeCircleTheorems.ReleasesFollowTheOrder | contracts/EtibeCircle.sol:172-201 | In a first activation the payouts so far went to the first members of the order, and the next release, whoever triggers it, pays the next one |
| EtibeCircleTheorems.CompletionMeansPermutation | contracts/EtibeCircle.sol:115-136 | Although duplicates are never checked, a release that completes proves the order was a permutation of memberList, and that it is the first completion, of the first activation |
| EtibeCircleTheorems.MissingContributionsAreDonated | contracts/EtibeCircle.sol:172-201 | In a first activation, when round r is released, the value of the contributions missing from rounds 1..r plus everything withdrawn is at most the plain transfers |
| EtibeCircleTheorems.ReleaseMeansEveryoneContributed | contracts/EtibeCircle.sol:179-189 | In a first activation without plain transfers, a successful release in round r means every member contributed in every round 1..r, and nothing was withdrawn |
| EtibeCircleTheorems.CompletionSettlesEveryone | contracts/EtibeCircle.sol:191-200 | Without plain transfers, completion leaves a balance of exactly zero, and every member contributed in all n rounds and received exactly the n contributions it gave |
| EtibeCircleTheorems.CompletionIsPossibleIff | contracts/EtibeCircle.sol:172-201 | From any reachable active state some future completes the circle if and only if the rest of the order is distinct and unpaid and a payout fits in a uint256 |
| EtibeCircleTheorems.DuplicateOrderBlocks | contracts/EtibeCircle.sol:115-124 | A concrete run that starts with the same member twice in the order; no continuation of it ever completes |
| EtibeCircleCalls.ReleasesExactlyWhen | contracts/EtibeCircle.sol:172-201 | From every reachable state a release pays the pot once to the next member of the order, and moves one round on or completes, if and only if the owner asks an active circle, that member is on record with no payout, the pot fits in a uint256 and is covered, and it can be sent; otherwise the world is unchanged |
| EtibeCircleCalls.WithdrawsExactlyWhen | contracts/EtibeCircle.sol:205-218 | From every reachable state a withdrawal goes through if and only if the owner asks and there is nothing to take or the transfer works; the named receiver then gets all that was contributed or donated and not yet paid or withdrawn |
| EtibeCircleCalls.ContributesExactlyWhen | contracts/EtibeCircle.sol:140-168 | From every reachable state a contribution is accepted and counted once if and only if the circle is active, it is the exact amount in the right currency and arrives, the sender is on record as added, and no contribution of this member to this round is on record, in any activation |
| EtibeCircleCalls.AddsExactlyWhen | contracts/EtibeCircle.sol:98-113 | From every reachable state a member is added if and only if the owner asks, the circle is inactive, the address is not on record and fewer than maxMembers are |
| EtibeCircleCalls.OrdersExactlyWhen | contracts/EtibeCircle.sol:115-124 | From every reachable state an order is stored if and only if the owner asks, the circle is inactive, it has one entry per member on record, and every entry is on record |
| EtibeCircleCalls.StartsExactlyWhen | contracts/EtibeCircle.sol:126-136 | From every reachable state the circle starts at round 1, with one round per member on record, if and only if the owner asks, it is inactive, two members are on record and an order of their number is set |
| EtibeCircleCalls.NothingWithoutTheOwner | contracts/EtibeCircle.sol:98-218 | Over any run without a call by the owner the record shows plain transfers only and the storage is as deployed but for the balances |
| EtibeCircleCalls.RevertsTellTheTruth | contracts/EtibeCircle.sol:98-251 | In every reachable state the message of a revert names something that is the case; the round and index guards of a release never fire |
| EtibeCircleInvariant.InvStep | contracts/EtibeCircle.sol:98-254 | Every external call and every plain transfer keeps the contract's whole invariant |
| EtibeCircleContract.Contract.constructor | contracts/EtibeCircle.sol:72-94 | A fresh contract is the start state of every run |
| EtibeCircleContract.Deploy | contracts/EtibeCircle.sol:72-94 | Deployment succeeds exactly for 2 to 50 members and a positive contribution |
| EtibeCircleContract.Contract.AddMember | contracts/EtibeCircle.sol:98-113 | Owner only, inactive only, no repeats, never above maxMembers; a revert leaves no trace and the invariant holds |
| EtibeCircleContract.Contract.SetPayoutOrder | contracts/EtibeCircle.sol:115-124 | The loop accepts exactly an order of the right length all of whose entries are members |
| EtibeCircleContract.Contract.StartCircle | contracts/EtibeCircle.sol:126-136 | Starts at round 1 with one round per member, given two members and an order |
| EtibeCircleContract.Contract.ContributeETH | contracts/EtibeCircle.sol:140-152 | One exact contribution per member and round while active, with its bookkeeping |
| EtibeCircleContract.Contract.ContributeToken | contracts/EtibeCircle.sol:154-168 | The same for a token circle, when the token can be pulled |
| EtibeCircleContract.Contract.ReleasePayout | contracts/EtibeCircle.sol:172-201 | Pays the round's recipient once from a sufficient balance, then advances or completes |
| EtibeCircleContract.Contract.EmergencyWithdraw | contracts/EtibeCircle.sol:205-218 | Sends the whole balance of the circle's currency and changes nothing else |
| EtibeCircleContract.Contract.Receive | contracts/EtibeCircle.sol:253-254 | A plain transfer only adds to the balance |
| CircleTheorems.RoundPayoutsAreMarksAndLosses | src/modules/circles/processors/payout.processor.ts:57-111 | Over any interleaving of scheduled, retried and re-added jobs, on either chain: payouts made for a round = attempts that stopped between payout and mark + one if its member is marked; so at most one when none stopped there |
| CircleTheorems.TransfersAreMarksAndLosses | src/modules/circles/processors/payout.processor.ts:275-288 | On NEAR, where the job names the recipient, the same count is of transfers to the member itself |
| CircleTheorems.PayoutsGoByChain | src/modules/circles/processors/payout.processor.ts:272-288 | Every payout is for a round after the first; on NEAR it goes to the member at the round's position and is one contribution per member, on Base it names neither recipient nor amount |
| CircleTheorems.RoundCountsPaidMembers | src/modules/circles/processors/payout.processor.ts:356-384 | The number of paid members is currentRound minus the starting round, plus the attempts that stopped between mark and advance |
| CircleTheorems.CompletionPaysEveryone | src/modules/circles/processors/payout.processor.ts:369-384 | COMPLETED implies the circle started at round 0, every member is marked, and every round was paid once apart from lost attempts; on NEAR that is one transfer to each member |
| CircleTheorems.EveryonePaidIffInOrder | src/modules/circles/processors/payout.processor.ts:142-147 | Starting at round 0 and without stalled attempts, everyone is paid if and only if the payouts came in the order 1..n |
| CircleTheorems.EarlyPositionsAreNeverPaid | src/modules/circles/processors/payout.processor.ts:142-147 | Rounds up to the starting round are never paid and their members never marked, their circle never completes, and on NEAR those members are never sent anything |
| CircleTheorems.PaidMembersBound | src/modules/circles/processors/payout.processor.ts:142-165 | At most n minus the starting round members are ever paid |
| CircleTheorems.AsWrittenTheFirstRoundIsNeverPaid | src/modules/circles/services/circle.service.ts:1210-1215 | With the round 1 that startCircle writes: round 1 is never paid, the creator never marked, at most n - 1 members are, no circle completes, and on NEAR the creator is never sent a payout |
| CircleOnBase.ReleasesPayByPosition | src/modules/circles/processors/payout.processor.ts:302-311 | On Base, while a first activation lasts, the m-th release pays the member at position m whatever round its job was for, so it reaches the member the job names if and only if that round is m |
| CircleOnBase.AsWrittenTheContractPaysTheCreator | src/modules/circles/services/circle.service.ts:1183-1215 | As written on Base, from its first release on the contract has paid the creator, whom the backend never marks and for whom no job ever runs |
| CircleOnBase.SomeReleasePaysTheCreator | src/modules/circles/processors/payout.processor.ts:302-311 | A concrete Base run and contract run that meet all of these hypotheses: the release made for round 2 paid the creator, who stays unmarked |
| CircleTheorems.RostersAreOrderly | src/modules/circles/services/circle.service.ts:495-517 | Circles made by create and join have distinct members at positions 1..n, n at most maxMembers at most 50, and sorting hands round r to position r |
| CircleTheorems.LifecycleHappensOnce | src/modules/circles/services/circle.service.ts:165-269 | activateCircle and startCircle each succeed at most once per circle, exactly when the status says so |
| CircleTheorems.CacheAgreesWithStore | src/modules/circles/services/circle.service.ts:271-288 | A cached circle has the stored chain, amount, frequency, grace period, member limit, start date, contract address, member ids and positions; its status differs only as cached ACTIVE against stored COMPLETED |
| CircleCalls.RecordsComeFromCalls | src/modules/circles/services/circle.service.ts:109-521 | Over any run a stored circle has the terms of a valid request to create it, its members joined it, and its contract address and start date are those with which its creator activated and started it; until it starts its dates and rounds are those of the request |
| CircleCalls.CreatesExactlyWhen | src/modules/circles/services/circle.service.ts:109-147 | A circle is created if and only if the id is new, 2 to 50 members are allowed and the request is valid; it stores every term of the request, and as next payout date the start plus one period |
| CircleCalls.ActivatesExactlyWhen | src/modules/circles/services/circle.service.ts:165-269 | From every reachable state activation goes through if and only if the creator asks, the stored circle is PENDING, the account is there and the contract was deployed, although the check may read a cached circle |
| CircleCalls.JoinsExactlyWhen | src/modules/circles/services/circle.service.ts:448-521 | From every reachable state a user takes the next position if and only if the stored circle is RECRUITING and not full, the user is allowed and not yet a member |
| CircleCalls.StartsExactlyWhen | src/modules/circles/services/circle.service.ts:1149-1261 | From every reachable state the start goes through if and only if the creator asks, the stored circle is RECRUITING with two members and the on-chain start works; the check for a contract address never refuses |
| CircleCalls.AnnouncesExactlyWhen | src/modules/circles/listeners/circle-activated.listener.ts:19-74 | From every reachable state an announcement schedules the circle if and only if it is stored as ACTIVE, and does nothing else |
| CircleCalls.ViewsAreRepeatable | src/modules/circles/services/circle.service.ts:271-288 | Two views show the same circle, whatever was paid or completed in between, unless it was activated, joined or started or the entry expired |
| CircleInvariant.InvStep | src/modules/circles/processors/payout.processor.ts:57-111 | Every step of the backend keeps the invariant of every circle: roster, lifecycle, payments, jobs and cache |
| CircleInvariant.InvReconcile | src/modules/circles/services/payout-scheduler.service.ts:287-321 | Reconciling any list of circles, in any surroundings, keeps the invariant |
| CircleProgress.StartedCircleStep | src/modules/circles/processors/payout.processor.ts:356-384 | A started circle changes, apart from its next payout date, only by an eligible attempt of one of its own waiting jobs |
| CircleTheorems.StatusMovesOneStage | src/modules/circles/services/circle.service.ts:1149-1261 | From every reachable state a step moves a status at most one stage on: PENDING, RECRUITING, ACTIVE, COMPLETED |
| CircleTheorems.ProgressIsKept | src/modules/circles/repositories/circle.repository.ts:124-160 | Over any continuation the status never goes back and members keep their positions and paid marks |
| CircleTheorems.MarkedMembersAreSafe | src/modules/circles/processors/payout.processor.ts:160-165 | Once a member is marked paid, no job for that member is eligible after any continuation |
| CircleTheorems.PaidUpCirclesAreDecided | src/modules/circles/processors/payout.processor.ts:369-384 | Once everyone is paid the circle started at round 0, and it is and stays COMPLETED if and only if the last attempt that paid got to the completion check |
| CircleTheorems.PayoutIsPossibleIff | src/modules/circles/processors/payout.processor.ts:127-165 | From every reachable state of a started circle, some future pays a round (again) if and only if the circle is ACTIVE, the round lies ahead, its member is unmarked and its job is not used up |
| CircleTheorems.CompletionIsPossibleIff | src/modules/circles/processors/payout.processor.ts:356-384 | Some future completes a started circle if and only if it is complete, or someone is unmarked and every unmarked member's round can still be paid; attempts and calls without faults then suffice |
| CircleTheorems.UsedUpRoundsAreFinal | src/modules/circles/services/payout-scheduler.service.ts:127-139 | A round whose job used up its attempts unpaid is never paid and its circle never completes, whatever is rescheduled or reconciled |
| CircleTheorems.PayableAgainIffUnmarked | src/modules/circles/processors/payout.processor.ts:236-384 | From every reachable state, an eligible attempt makes one payout if and only if it gets that far, and its job passes the same check again if and only if it does not get to the mark |
| CircleAttempts.AttemptsExactly | src/modules/circles/processors/payout.processor.ts:57-111 | From every reachable state an attempt of a waiting job pays, records, marks, advances and completes, as far as it gets, if and only if the circle is ACTIVE, the round lies ahead, its member is unmarked, the account is there and the balance covers it; otherwise store, records and log are unchanged and one of three attempts is used up |
| CircleAttempts.RefusalsTellTheTruth | src/modules/circles/processors/payout.processor.ts:113-205 | In every reachable state the reason a queued job is refused for is the case; a missing circle, contract address or member is never the reason |
| CircleTheorems.RecordsTellTransfers | src/modules/circles/processors/payout.processor.ts:250-295 | The confirmed records of a round are exactly its transfers that got confirmed, and no transfer is without a record |
| CircleSchedules.SortHandsRoundsToPositions | src/modules/circles/services/payout-scheduler.service.ts:60-64 | For members in any order whose positions are 1..n without repeats, the sort puts position r at round r |
| CircleTheorems.SchedulingQueuesExactly | src/modules/circles/services/payout-scheduler.service.ts:77-163 | After scheduling, a round has a job if and only if it had one, or no account lookup up to it threw, its member has an account and the queue was up; old jobs are untouched and new ones carry the round's member, pot and date |
| CircleTheorems.SchedulingIsIdempotent | src/modules/circles/services/payout-scheduler.service.ts:127-170 | With all accounts present, scheduling twice is scheduling once, whatever the second scheduling meets |
| CircleTheorems.ReconciliationSees | src/modules/circles/services/payout-scheduler.service.ts:296-310 | Reconciliation sees a missing round if and only if an unpaid member's job is gone or used up |
| CircleTheorems.ReconciliationSettles | src/modules/circles/services/payout-scheduler.service.ts:296-314 | Right after scheduling with all accounts present, reconciliation changes nothing, and finds something missing if and only if an unpaid member's job is used up |
| CircleReconciliation.ReconciliationQueuesExactly | src/modules/circles/services/payout-scheduler.service.ts:287-321 | From every reachable state, for any list and surroundings: reconciliation finishes if and only if no circle of the list that misses a round throws; every such circle up to the first that throws gets a fresh job for each round that can be queued, and everything else stays |
| CircleReconciliation.ReconciliationReachesEveryCircle | src/modules/circles/services/payout-scheduler.service.ts:287-321 | With nothing in the way it finishes, and every ACTIVE circle of the list that missed a round ends with a job for every round and its first payout date |
| CircleSchedules.StartAndAnnounceLaunches | src/modules/circles/listeners/circle-activated.listener.ts:19-74 | A successful start, announced while all members have accounts, leaves nobody paid and every round waiting at its payout date |
| CircleTheorems.LaunchedCirclesRunInOrder | src/modules/circles/processors/payout.processor.ts:356-384 | A circle started in any reachable state, announced with all accounts present, whose rounds 1..k are run in order without faults: exactly the rounds after the starting one, up to the k-th, are paid once each, in order, to the payee the chain has the backend name, and it is COMPLETED if and only if it started at round 0 and all n rounds were run |
| CircleExamples.SomeRunPaysTwice | src/modules/circles/processors/payout.processor.ts:290-293 | A concrete run, with round 1 as written, in which a stopped attempt and its retry pay a round twice, on NEAR to the same member |
| CircleExamples.SomeRoundDies | src/modules/circles/constants/payout.constants.ts:13-31 | A concrete run that leaves a round dead, for either starting round and chain |
| CircleExamples.SomeCompletionIsMissed | src/modules/circles/processors/payout.processor.ts:367-384 | A concrete run from round 0 that pays everyone and leaves the circle ACTIVE |
| CircleBackend.Backend.CreateCircle | src/modules/circles/services/circle.service.ts:109-147 | A new circle is PENDING at round 0 with its creator at position 1; refusals leave no trace |
| CircleBackend.Backend.ActivateCircle | src/modules/circles/services/circle.service.ts:165-269 | Creator only, PENDING only; stores the contract address with RECRUITING and drops the cached circle |
| CircleBackend.Backend.GetCircleById | src/modules/circles/services/circle.service.ts:271-288 | Read-through cache; what it returns agrees with the store |
| CircleBackend.Backend.AddMember | src/modules/circles/repositories/circle.repository.ts:43-68 | Appends one member to one circle |
| CircleBackend.Backend.JoinCircle | src/modules/circles/services/circle.service.ts:448-521 | RECRUITING only, never above maxMembers, no repeats; the new member takes the next position |
| CircleBackend.Backend.StartCircle | src/modules/circles/services/circle.service.ts:1149-1255 | Creator only, RECRUITING only, two members and a contract; writes the starting round and drops the cached circle |
| CircleBackend.Backend.ScheduleRound | src/modules/circles/services/payout-scheduler.service.ts:79-163 | One turn of the loop: it may throw in the account lookup, is skipped without account, queue or when the job exists, and else adds one new job |
| CircleBackend.Backend.ScheduleCirclePayouts | src/modules/circles/services/payout-scheduler.service.ts:44-180 | The loop over all rounds, ended by a lookup that throws, then the next payout date |
| CircleBackend.Backend.HandleCircleActivated | src/modules/circles/listeners/circle-activated.listener.ts:19-74 | Schedules only a stored ACTIVE circle with a contract address |
| CircleBackend.Backend.ReconcilePendingPayouts | src/modules/circles/services/payout-scheduler.service.ts:287-321 | The loop over active circles reschedules exactly those with missing rounds, and ends at the first scheduling that throws |
| CircleBackend.Backend.VerifyPayoutEligibility | src/modules/circles/processors/payout.processor.ts:113-205 | The chain of refusals in the processor's order |
| CircleBackend.Backend.ExecutePayout | src/modules/circles/processors/payout.processor.ts:236-300 | Pending record, payout by the branch of the chain, and confirmation, as far as the attempt gets |
| CircleBackend.Backend.HandlePayoutSuccess | src/modules/circles/processors/payout.processor.ts:356-384 | Mark, advance and completion check, as far as the attempt gets |
| CircleBackend.Backend.MarkPayoutReceived | src/modules/circles/repositories/circle.repository.ts:138-160 | Marks every member entry with this id in one circle |
| CircleBackend.Backend.AdvanceRound | src/modules/circles/repositories/circle.repository.ts:124-136 | Adds one to one circle's round |
| CircleBackend.Backend.UpdateStatus | src/modules/circles/repositories/circle.repository.ts:91-96 | Sets one circle's status |
| CircleBackend.Backend.Process | src/modules/circles/processors/payout.processor.ts:57-111 | One attempt, with its failure exits, is one step of the model and keeps the invariant |
| CircleBackend.Backend.RemoveFinished | src/modules/circles/constants/payout.constants.ts:20-25 | Only finished jobs leave the queue |
| Calendar.CivilRoundTrip | src/modules/circles/services/payout-scheduler.service.ts:198-215 | Every calendar date is read back from its day number |
| Calendar.AddDaysIsPlus | src/modules/circles/services/payout-scheduler.service.ts:202-207 | setDate(getDate() + n) moves exactly n days across any month and year ends |
| Calendar.AddMonthIsMonthLength | src/modules/circles/services/payout-scheduler.service.ts:208-211 | setMonth(getMonth() + 1) moves 31, 28, 31, 30, ... days by the current month, one more in a leap February, even when the day overflows |
| Calendar.MakeDayIsGregorian | src/modules/circles/services/payout-scheduler.service.ts:198-215 | MakeDay in numbers: day 0 is 1 January 1970, years have 365 days and a leap day by the Gregorian rule, months start after 0, 31, 59, ..., 334 days, dates count on and months carry over |
| PayoutDates.CalculateAllPayoutDates | src/modules/circles/services/payout-scheduler.service.ts:182-196 | The scheduler's loop lists the date r periods after the start for each round r |
| PayoutDates.CalculatePayoutDateForRound | src/modules/circles/services/circle.service.ts:1319-1342 | The service's loop gives element r - 1 of every schedule of at least r rounds |
| PayoutDates.StepLength | src/modules/circles/services/payout-scheduler.service.ts:198-215 | Each payout date is 7, 14 or the length of the month it starts in after the one before |
| PayoutDates.DatesIncrease | src/modules/circles/services/payout-scheduler.service.ts:182-196 | Dates strictly increase, by 7 to 31 days a round |
| PayoutDates.DeadlineOfFixedPeriods | src/modules/circles/services/circle.service.ts:1106-1130 | For weekly and bi-weekly circles the deadline of round k is payout date k + 1 minus the grace period |
| PayoutDates.MonthsJump | src/modules/circles/services/circle.service.ts:1121-1123 | Until a month overflows, k single months equal one jump of k months |
| PayoutDates.IterationMinusJump | src/modules/circles/services/circle.service.ts:1121-1123 | From the first month that overflows on, the iterated date is later than the jump by exactly how much longer the month aimed at is than that first one |
| PayoutDates.MonthlyDeadlineAgreesIff | src/modules/circles/services/circle.service.ts:1106-1130 | Per round: the monthly deadline of round k is payout date k + 1 minus the grace period if and only if no month up to then overflows or the month aimed at is as long as the first that did |
| PayoutDates.DeadlinesAgreeIff | src/modules/circles/services/circle.service.ts:1106-1130 | Deadline and schedule agree for every round if and only if the circle is not monthly or starts on day 28 or earlier |
| SessionTheorems.CurrentSessionsAreListed | src/modules/auth/services/session.service.ts:36-94 | In every run, whatever time passes inside the operations, a session whose own expiry is not reached is readable and listed for its user, by a key that goes no earlier |
| SessionTheorems.CurrentSessionsAreHookedIff | src/modules/auth/services/session.service.ts:206-222 | Over any run: after every step each unexpired session is the one its device key points to, by a key that goes no earlier, if and only if no step invalidates a session whose device key points to another that is unexpired to the end of it |
| SessionTheorems.CurrentSessionsAreHooked | src/modules/auth/services/session.service.ts:296-306 | In those runs the device key of an unexpired session can be read and returns it |
| SessionTheorems.UnhookedSession | src/modules/auth/services/session.service.ts:206-222 | A concrete run in which cleaning up a session stored forever deletes the device key of its successor |
| SessionTheorems.PromptRunsKeepTime | src/modules/auth/services/session.service.ts:36-94 | In runs whose operations take no time, keys go exactly when sessions expire, nothing unhooks, and every readable session is in both indexes, which go no earlier |
| SessionTheorems.PermanentIff | src/modules/auth/services/session.service.ts:191-204 | Over any run some session key is stored without an expiry if and only if some touch found a session and then read the clock at or after that session's expiry; index keys always expire |
| SessionTheorems.OneSessionPerDeviceIff | src/modules/auth/services/session.service.ts:36-94 | Over any run: after every step a user and device have at most one unexpired session if and only if no createSession that ends before its session expires overlooks one (its look-up of the device does not return it, and it is unexpired to the end) |
| SessionTheorems.OneSessionPerDevice | src/modules/auth/services/session.service.ts:296-306 | Runs that never unhook never overlook a session, so they have one session per device throughout |
| SessionTheorems.StrandedSession | src/modules/auth/services/session.service.ts:36-94 | A concrete run that leaves a device with two unexpired sessions |
| SessionTheorems.CreateReplacesDeviceSession | src/modules/auth/services/session.service.ts:36-94 | After createSession in any run the new session is the only unexpired one of its user and device if and only if it overlooked none; the new session lives out its time and nothing of other users changed |
| SessionTheorems.InvalidateAllClearsUser | src/modules/auth/services/session.service.ts:224-240 | After invalidateAllUserSessions the user has no unexpired session, though the loop shrinks the list it runs over and time passes between its commands; other users' sessions and keys are unchanged |
| SessionTheorems.UserSessionsAreListed | src/modules/auth/services/session.service.ts:242-260 | getUserSessions lists every session of the user that is unexpired when it ends, only sessions of that user that were readable when it came to them, and each once |
| SessionTheorems.ValidationAcceptsUnexpired | src/modules/auth/services/session.service.ts:143-171 | In every run validation accepts exactly the readable sessions of the device whose expiry the clock has not passed, and cleans up only those it has |
| SessionCalls.ValidatesExactly | src/modules/auth/services/session.service.ts:143-171 | In every run validation returns the stored session if it is readable, for this device and not past its expiry; past it, exactly this session, its list entry and its device key go; else nothing happens |
| SessionCalls.CreatesExactly | src/modules/auth/services/session.service.ts:36-94 | In every run createSession invalidates the session the look-up of the device returns, if any, and then writes the session, the end of its user list and the device key, each for 604800000 ms from its own moment |
| SessionCalls.InvalidatesExactly | src/modules/auth/services/session.service.ts:206-222 | An invalidation of a readable session removes the session, its one place in the list and the device key, and nothing else; of another, nothing |
| SessionCalls.ListedInOrder | src/modules/auth/services/session.service.ts:242-260 | getUserSessions keeps the order of the list |
| SessionCalls.SessionsComeFromCreate | src/modules/auth/services/session.service.ts:36-204 | Over any run a stored session was created for its user and device exactly seven days before its expiry, and its last activity is a clock reading of that or of a touch of it |
| SessionTheorems.StraddlingTouchIsPermanent | src/modules/auth/services/session.service.ts:191-204 | A concrete run: even if createSession takes no time, a touch whose read and clock reading lie on both sides of the expiry stores the session forever |
| SessionService.Service.CreateSession | src/modules/auth/services/session.service.ts:36-94 | Looks up and clears the device, then writes the three keys, each command at its own moment |
| SessionService.Service.ValidateSession | src/modules/auth/services/session.service.ts:143-171 | The chain of refusals, with the clean-up of an outdated session; read, clock and clean-up at their own moments |
| SessionService.Service.TouchSession | src/modules/auth/services/session.service.ts:191-204 | Reads the session, then the clock, then rewrites the session for what is left of its life |
| SessionService.Service.InvalidateSession | src/modules/auth/services/session.service.ts:206-222 | Deletes the session and both index entries; the list is read and written at moments of their own |
| SessionService.Service.InvalidateAllUserSessions | src/modules/auth/services/session.service.ts:224-240 | The loop over a snapshot of the list, with its own moments for every session, then the list itself |
| SessionService.Service.GetUserSessions | src/modules/auth/services/session.service.ts:242-260 | The loop collects the valid sessions of the list, each read at its own moment |
| SessionService.Service.TrackUserSession | src/modules/auth/services/session.service.ts:262-278 | Reads the list, and writes it with a new id and a renewed expiry |
| SessionService.Service.RemoveUserSession | src/modules/auth/services/session.service.ts:280-294 | Reads the list, and writes it without the id and with a renewed expiry |
| SessionService.Service.InvalidateDeviceSession | src/modules/auth/services/session.service.ts:296-306 | Looks the device up, and then invalidates the session it points to, if any |
| WithdrawalTheorems.RepeatIsDuplicate | src/modules/wallet/services/wallet.service.ts:148-171 | While the job is retained, repeating the request changes nothing and names a transaction of this request |
| WithdrawalTheorems.ExecutedAtMostOnce | src/modules/wallet/processors/withdrawal.processor.ts:104-154 | Over any requests, attempts and faults: executions are at most one, plus one per attempt whose status write was lost, plus one per eviction |
| WithdrawalTheorems.ExecutionIsPossibleIff | src/modules/wallet/processors/withdrawal.processor.ts:104-154 | From every reachable state some future executes a withdrawal (again) if and only if its job is not in the queue, or has finished there, or is waiting while its transaction is still PENDING |
| WithdrawalTheorems.StatusTellsExecutions | src/modules/wallet/processors/withdrawal.processor.ts:110-120 | Without such faults nothing was executed while PENDING, exactly one execution stands behind CONFIRMED, and at most one behind FAILED |
| WithdrawalTheorems.ConfirmedCanTurnFailedIff | src/modules/wallet/processors/withdrawal.processor.ts:142-154 | A confirmed withdrawal can still be overwritten as FAILED if and only if its job is still waiting |
| WithdrawalTheorems.ExecutedCanEndFailedIff | src/modules/wallet/processors/withdrawal.processor.ts:110-152 | From every reachable state with the job in the queue, some future executes it and leaves its transaction FAILED if and only if the job is waiting and the transaction is PENDING |
| WithdrawalTheorems.FailedTellsNeither | src/modules/wallet/processors/withdrawal.processor.ts:110-152 | Three concrete runs that end FAILED: without an execution, with one whose confirmation write failed, and with one that had been confirmed |
| WithdrawalTheorems.NeverPendingAgain | src/modules/wallet/processors/withdrawal.processor.ts:116-152 | A transaction that has left PENDING never returns to it, over any run |
| WithdrawalCalls.AttemptsExactly | src/modules/wallet/processors/withdrawal.processor.ts:78-156 | From every reachable state an attempt turns a PENDING withdrawal CONFIRMED if and only if the wallet is there, the transfer goes through, that write works and the process dies neither before nor after the transfer; FAILED if and only if it was thrown and that write works; a settled one is not executed again and ends FAILED |
| WithdrawalCalls.ConfirmedMeansTransferred | src/modules/wallet/processors/withdrawal.processor.ts:110-120 | Over any run a CONFIRMED withdrawal was confirmed by an attempt of its own job that found it PENDING and whose transfer went through |
| WithdrawalCalls.ThreeAttempts | src/modules/wallet/constants/withdrawal.constants.ts:13-24 | Over any run a job is used up if and only if three of its attempts were thrown |
| WithdrawalCalls.RequestsExactly | src/modules/wallet/services/wallet.service.ts:138-305 | From every reachable state: a request whose job is retained changes nothing and is told of the first withdrawal of the user and key and whether that is PENDING; any other is refused unless valid, leaves one PENDING transaction, and a job and an answer that name it if the queue accepts |
| WithdrawalCalls.DuplicateNamesTheJobIff | src/modules/wallet/services/wallet.service.ts:148-171 | The answer to a duplicate names the transaction of the retained job if and only if no earlier withdrawal has this user and key |
| WithdrawalCalls.ConfirmedIsReportedPending | src/modules/wallet/services/wallet.service.ts:148-171 | A concrete run after which a confirmed withdrawal is reported as pending |
| WithdrawalTheorems.SettledForGood | src/modules/wallet/processors/withdrawal.processor.ts:104-154 | After an attempt that settled the transaction, nothing that follows executes the withdrawal again unless the job is evicted |
| WithdrawalTheorems.EvictionRepeats | src/modules/wallet/constants/withdrawal.constants.ts:20-24 | A concrete run in which eviction lets the same request execute twice |
| WithdrawalTheorems.LostAttemptRepeats | src/modules/wallet/processors/withdrawal.processor.ts:114-120 | A concrete run in which an attempt dies between transfer and status write and the retry executes again |
| WithdrawalService.Service.ProcessWithdrawal | src/modules/wallet/services/wallet.service.ts:138-305 | Duplicate check, validation, PENDING record, queue entry, in this order |
| WithdrawalService.Service.Process | src/modules/wallet/processors/withdrawal.processor.ts:78-156 | One attempt with its status guard, execution and status overwrite |
| WithdrawalService.Service.Fail | src/modules/wallet/processors/withdrawal.processor.ts:142-155 | FAILED if that write works, then the rethrown error costs the job an attempt, unless the process dies first |
| WithdrawalService.Service.RemoveFinished | src/modules/wallet/constants/withdrawal.constants.ts:20-24 | Only finished jobs leave the queue |
| AtomicUnits.ToAtomicUnitsIsFloor | src/modules/blockchain/services/token.service.ts:72-80 | For every decimal string the result is floor(value * 10^decimals) |
| AtomicUnits.UnitsOfTheAssets | src/modules/blockchain/services/token.service.ts:72-80 | The scale in numbers: 10^24 for NEAR and 10^6 for USDT and USDC |
| AtomicUnits.ToAtomicUnitsIsMonotone | src/modules/blockchain/services/token.service.ts:72-80 | A larger amount never converts to fewer units |
| AtomicUnits.FromAtomicUnitsIsExact | src/modules/blockchain/services/token.service.ts:82-93 | The printed amount denotes exactly units / 10^decimals |
| AtomicUnits.UnitsRoundTrip | src/modules/blockchain/services/token.service.ts:72-93 | Printing and converting back gives the same digit string if and only if it has no leading zeros |
| AtomicUnits.ConversionLosesLessThanOneUnit | src/modules/blockchain/services/token.service.ts:72-93 | Converting and printing an amount truncates it to the asset's precision: less than one unit is lost |
| TokenBalance.DisplayIsCents | src/modules/blockchain/services/near-account.service.ts:1059-1079 | The displayed balance is the raw balance truncated to hundredths |
| TokenBalance.DisplayBounds | src/modules/blockchain/services/near-account.service.ts:1059-1079 | It is at most the true balance and less than 0.01 below it |
| TokenBalance.AcceptedIsCovered | src/modules/wallet/services/wallet.service.ts:421-434 | When the check accepts an amount, the raw balance covers the units to be transferred |
| TokenBalance.CheckCountsHundredths | src/modules/wallet/services/wallet.service.ts:421-445 | The check accepts if and only if the amount is at most the whole hundredths of the balance and at least 0.01 NEAR is there, and names the balance first when both are missing |
| TokenBalance.RefusedOnlyNearTheBalance | src/modules/wallet/services/wallet.service.ts:421-445 | It refuses only for missing fees or when less than 0.01 would remain |

## Left out

- The refinement between contract and backend: the backend sends ETH contributions as plain transfers and the contract chooses its own recipient, so the two machines are modelled separately and tied only by `CircleOnBase`, which takes the successful releases and the addresses in position order as given.
- Reentrancy and interleavings of two calls: every contract call and every backend method is one step, except that a payout or withdrawal attempt may stop after any of its writes and that time passes inside a session operation.
- Contract: Ownable transfer and renunciation, view functions, name, creator and grace period metadata, a withdrawal to the contract itself, and tokens that take a fee on transfer.
- The processor only writes a log line for USDT and USDC payouts on NEAR and funds NEAR payouts from the master account; the model counts both as the transfer they stand for.
- `AtomicUnits` and `TokenBalance` cover the three NEAR assets and the six-decimal display; the 24-decimal branch of getTokenBalance divides by a number that is not exact in floating point.
- checkAvailableBalance for NEAR itself, which is one comparison.
- Floating point: amounts are exact rationals, so parseFloat and the product in the payout amount do not round.
- Time of day and local time zones: dates are UTC day numbers. Job delays and priorities: a waiting job may run at any time, which allows more runs than the queue does.
- BullMQ's limit on stalled attempts: an attempt whose process dies leaves its job waiting any number of times.
- Access tokens, JWT, one-time codes, encryption, e-mails, notifications and log output.
- Looking circles up by invite code or contract address, and user records: who has an account, whether a whitelist admits a user and whether on-chain calls succeed are inputs.
- `CircleBackend.Backend.VerifyPayoutEligibility`: the refusal of a deleted circle is left out, because the store lookup before it already hides deleted circles and nothing in the repository deletes one.
- `CircleBackend.Backend.ReconcilePendingPayouts`: a failing queue listing ends the loop as well; that is a shorter list of ids here.
- Backend operations no circle flow calls or that only touch other fields: removeMember, soft deletion, totalContributed, cancelCirclePayouts, queue statistics, pagination.
- `CircleTheorems.RoundPayoutsAreMarksAndLosses`: a transfer the chain executed although the call threw counts as an attempt that stopped after the payout.
- Base withdrawals' own balance check and the on-chain execution of transfers and deployments.
