# Fantasy contest platform: verification model

A Dafny model of the money, ranking, scoring and identity rules of a fantasy-contest
platform, with proofs about it. `dafny verify dfyconfig.toml` checks everything.

## What is modelled

| files | part of the system |
|---|---|
| `Prizes`, `SlabValidation`, `PrizeTotals`, `WinningAllocation`, `TieFairness` | prize ladders, ranking, splitting the prizes of tied ranks |
| `ContestSettlement`, `FirstSettlement`, `SettlementProtocol`, `SettlementRuns`, `SettlementAnswers`, `SettlementRetry`, `RetryMoney` | settling a contest: one call, one attempt, any number of workers, and retries |
| `ContestStatuses`, `JoinSaga`, `JoinSpots`, `JoinMoney`, `JoinOutcomes`, `JoinCall`, `JoinService` | contest status, joining with a wallet lock and a compensating refund, cancellation |
| `DepositProtocol`, `DepositService` | crediting deposits from webhooks, client callbacks and queue workers |
| `RankHistory`, `LeaderboardZset`, `LeaderboardAgreement` | the change-only rank log, the Redis sorted set and the fallback that sorts stored entries |
| `Rounding`, `FantasyScoring`, `MatchScoring` | the scoring engine and the recompute of a match |
| `TeamValidator`, `TeamProjection` | team validation and the flat projection of rosters |
| `RefreshTokens`, `OneTimeCodes` | refresh-token rotation and one-time codes |
| `Options`, `Sums`, `Sorting` | shared vocabulary: optional values, sums and tallies, the stable sort |

Code that changes stored rows is a class whose methods are proved against a specification
function; what the system promises is then proved about that function. Concurrent parts are
state machines over single store writes (`Enabled`, `Apply`, `Runs`, `After`): the theorems hold
after every run, and the service methods are shown to be such runs.

Modelling decisions:

- The wallet is a ledger keyed by idempotency key: the first use of a key applies, a later one
  returns the first transaction (`src/modules/wallet/wallet.service.ts:712-744`). A later use with another
  amount is refused there; the path for two racing first uses (`src/modules/wallet/wallet.service.ts:807-819`)
  returns the first transaction without comparing, which is the `raced` flag of the settlement protocol.
- A store call that throws is a `budget` of writes that succeed. Audit logging through `auditLogger`
  does not throw; the transaction audit records of deposits do.
- A join without a client key is one with a key of its own: its wallet key contains the time, and its row is not indexed.
- Each state machine defines its own `Runs` and `After`: over function values they would carry the precondition of
  `Apply` through every proof.
- Two join transactions on one contest serialise on the contest row; wallet steps interleave freely.
- Points are exact reals, `Math.round(x)` is floor(x + 1/2), statistics are finite numbers.
- Hashes are injective and ids fresh. Each token or code call is one atomic step with one clock reading.
- Practice contests are assumed free, as the join skips the lock for them and the cancellation refunds
  the stored fee (`src/modules/contest/contest-join.service.ts:200`, `src/modules/contest/contest.service.ts:367-372`).

## Where the code differs from what it says

The model follows the code. Each point is a proved statement unless it says otherwise.

- `claimForSettlement` is documented to return null when another worker is settling. Its upsert then hits
  the unique index on the contest and throws; the model reports both as busy (`src/modules/leaderboard/contest-result.repository.ts:43-48`, not a theorem).
- The pool bound holds per claim. A retry re-reads ACTIVE entries and ranks them from 1 again, so k claims can
  credit k pools: `SettlementProtocol.CreditsWithinClaims`, met by `SettlementRetry.RetryCanExceedThePool`. Exactly when
  an attempt stays within the pool: `RetryMoney.RetryWithinPoolIff`, `RetryMoney.NoRetryExceedsThePoolIff`,
  `RetryMoney.SecondAttemptWithinPoolIff`.
- `resetForRetry` reads and saves later. A late save is the one step that changes a finished settlement:
  `SettlementProtocol.OnlyResetsLeaveTerminal`, `SettlementRetry.StaleResetReopens`.
- A join with a reused idempotency key commits on an old lock: `JoinOutcomes.BalanceNeedsFreshKey`,
  `JoinOutcomes.ReusedKeyEntersForFree`.
- The comment of the sorted set says the older entry wins ties; a descending read puts the newer one first and the
  fallback the older one: `LeaderboardZset.NewerEntryWinsTies`, `LeaderboardAgreement.EntriesAgreeIff`.
- With Redis the top score of a page is that of the page, without it that of the contest:
  `LeaderboardZset.SecondPageHasItsOwnTop`, and exactly when they agree `LeaderboardAgreement.TopScoresAgreeIff`.
- A threshold at or below zero is not paid for a statistic of zero: `FantasyScoring.ThresholdPaysIff`.
- An admin adjustment is overwritten by the recompute it triggers: `MatchScoring.AdjustmentVanishesIff`.
- The check that captain and vice-captain differ skips an empty id: `TeamValidator.AcceptedIff`. Only a direct call of the
  validator can meet it: the request schema demands object ids and refuses one player as both leaders
  (`src/modules/fantasy/fantasy.validators.ts:29-37`).
- Reuse detection revokes the session but not the tip of its chain, and refresh does not look at the session:
  `RefreshTokens.RevokedSessionIsRefreshed`, and exactly when `RefreshTokens.RefreshableIff`. The last use of a session is never recorded:
  `RefreshTokens.LastUseIsNotRecorded`.
- Issuing a one-time code withdraws only the codes of its channel: `OneTimeCodes.OlderCodeOfOtherChannelSurvives`.
- Client callbacks are documented never to lead to a credit. One with a valid signature creates the settlement row like a
  webhook, and without a queue it credits at once: `DepositService.DepositStore.VerifyClientPayment` says exactly when.
- A join that fails on the key index is reported as a team that already joined, and a deposit job whose first audit record
  fails stays PROCESSING: `JoinService.JoinStore.Join`, `DepositService.DepositStore.RunJob`.
- A deposit that was credited and completed is marked FAILED when its audit record fails:
  `DepositService.DepositStore.CreditAndLink`.

## Model

| member | source | states |
|---|---|---|
| SlabValidation.ValidateSlabs | src/modules/contest/contest.validators.ts:333-376 | Accepts a ladder exactly when its slabs, in any order, put every rank from 1 to the top in one slab and no other rank in any, and the weights add up to 10 000 basis points or to the pool; a rejection names a defect that is there |
| SlabValidation.CheckRanges | src/modules/contest/contest.validators.ts:345-353 | Finds an issue exactly when the sorted slabs are not contiguous, and the issue is there |
| SlabValidation.SumWeights | src/modules/contest/contest.validators.ts:355-369 | The reduction is the weight per rank times the ranks of each slab |
| SlabValidation.ContiguousIffTiles | src/modules/contest/contest.validators.ts:339-353 | The sort-and-compare check is the declarative tiling of the ranks |
| SlabValidation.TotalWeightSort | src/modules/contest/contest.validators.ts:339-369 | Sorting a copy does not change the total the check compares |
| Prizes.PrizePoolForRange | src/modules/settlement/prize-calculator.ts:60-71 | The loop computes the sum of the rank prizes and 0 for an empty range |
| Prizes.PrizePoolSplit | src/modules/settlement/prize-calculator.ts:60-71 | Adjacent ranges add up to the whole range |
| Prizes.RankIsPaidByFirstSlab | src/modules/settlement/prize-calculator.ts:28-51 | Of several slabs with a rank the first stored one pays: its amount, or its basis points of the pool over 10 000, rounded down |
| Prizes.OtherRanksArePaidNothing | src/modules/settlement/prize-calculator.ts:32-35 | A rank below 1 or outside the ladder is paid nothing |
| PrizeTotals.TiledWeights | src/modules/settlement/prize-calculator.ts:28-51 | Reading the slabs as stored, rank by rank, gives the total weight the validator computed on its sorted copy |
| PrizeTotals.WholeLadder | src/modules/settlement/prize-calculator.ts:28-71 | All ranks of an accepted ladder cost the pool exactly for amounts, and for percentages fall short by fewer minor units than there are ranks |
| PrizeTotals.PercentagesAreWeights | src/modules/settlement/prize-calculator.ts:39-51 | Rounding each percentage prize down loses less than one minor unit per rank |
| PrizeTotals.PoolCoversRanks | src/modules/settlement/prize-calculator.ts:60-71 | The first n ranks never cost more than the pool; from the last winning rank on the cost is the pool, or short of it by fewer units than winning ranks |
| PrizeTotals.GateIsSomePrize | src/modules/settlement/prize-calculator.ts:151-158 | With an accepted ladder `snapshotHasPayouts` holds exactly when some rank is paid |
| WinningAllocation.AllocateWinnings | src/modules/settlement/prize-calculator.ts:105-148 | The cluster walk terminates and returns, rank by rank, the allocation of the specification, for all entries and snapshots |
| WinningAllocation.PayCluster | src/modules/settlement/prize-calculator.ts:125-144 | Every member of a tie cluster is paid its share, the head also the remainder |
| WinningAllocation.SplitPool | src/modules/settlement/prize-calculator.ts:131-132 | Share and remainder are quotient and remainder of the cluster pool |
| WinningAllocation.AllocationRanks | src/modules/settlement/prize-calculator.ts:109-147 | The result is a permutation of the entries in (points descending, joined ascending) order with ranks 1 to n |
| WinningAllocation.RankedByPointsThenJoin | src/modules/settlement/prize-calculator.ts:111-114 | Fewer points never rank above more, and of equal points the later joiner never above the earlier |
| WinningAllocation.EqualsKeepStoredOrder | src/modules/settlement/prize-calculator.ts:111-114 | Entries equal in points and join time keep their stored order |
| WinningAllocation.AllocationIgnoresInputOrder | src/modules/settlement/prize-calculator.ts:111-114 | Where equal points come with different join times the whole result is independent of the input order |
| WinningAllocation.ClusterIsTheTie | src/modules/settlement/prize-calculator.ts:120-127 | The cluster of a position holds exactly the entries with its points |
| WinningAllocation.TiedMeansShared | src/modules/settlement/prize-calculator.ts:129-143 | `isTied` holds exactly when another entry has the same points |
| WinningAllocation.ClusterIsPaidItsRanks | src/modules/settlement/prize-calculator.ts:130-144 | The winnings of a cluster add up to the prizes of the ranks it occupies |
| WinningAllocation.MemberWinning | src/modules/settlement/prize-calculator.ts:134-144 | All members but the head of a cluster get the same floor share |
| WinningAllocation.RemainderGoesToEarliest | src/modules/settlement/prize-calculator.ts:121-144 | Of a tie one member is paid the remainder, who joined no later than any other; the others are paid the quotient of the prizes of their ranks by their number |
| WinningAllocation.WinningsAreThePrizes | src/modules/settlement/prize-calculator.ts:105-148 | All winnings add up to exactly the prizes of ranks 1 to n |
| WinningAllocation.PayoutWithinPool | src/modules/settlement/prize-calculator.ts:102-104 | With an accepted ladder the total payout never exceeds the pool, and meets it as the ladder does once every winning rank is filled |
| WinningAllocation.GateLetsWinningsThrough | src/modules/settlement/prize-calculator.ts:155-158 | With an accepted ladder `snapshotHasPayouts` never suppresses a positive winning |
| TieFairness.ShareBetweenPrizes | src/modules/settlement/prize-calculator.ts:130-131 | A share lies between the prize of the last and of the first rank of its cluster when prizes do not increase |
| TieFairness.SharesOrdered | src/modules/settlement/prize-calculator.ts:130-131 | With non-increasing prizes the share of a higher scorer is no less than that of a lower one |
| TieFairness.HigherScoreIsNotPaidLess | src/modules/settlement/prize-calculator.ts:121-146 | A strictly higher scorer gets at least any lower share; only the head of a lower cluster can exceed it, by less than the cluster size |
| TieFairness.AloneWinsItsRank | src/modules/settlement/prize-calculator.ts:121-146 | An entry that ties with nobody wins the prize of its rank |
| TieFairness.ProjectionIsPaid | src/modules/leaderboard/leaderboard.service.ts:143 | With distinct scores every payout is the projected prize of the rank shown |
| ContestSettlement.ContestStore.constructor | src/modules/settlement/contest-settlement.service.ts:60-73 | A contest without a result row and without credits |
| ContestSettlement.ContestStore.ClaimForSettlement | src/modules/leaderboard/contest-result.repository.ts:49-76 | Claims exactly when there is no row or it is NOT_STARTED or FAILED, and writes the token; otherwise nothing changes |
| ContestSettlement.ContestStore.Finalise | src/modules/leaderboard/contest-result.repository.ts:78-101 | Changes the row only for the holder of the lock token |
| ContestSettlement.ContestStore.CreditWinning | src/modules/wallet/wallet.service.ts:712-744 | The first use of a key credits; later uses change nothing and are refused when the amount differs |
| ContestSettlement.ContestStore.PayEntries | src/modules/settlement/contest-settlement.service.ts:183-230 | The loop over the allocations is the left fold of credit and mark, ended by the first write that throws |
| ContestSettlement.ContestStore.SettleContest | src/modules/settlement/contest-settlement.service.ts:60-323 | One call, with any number of successful writes between the claim and the outcome, does to the store and returns what the specification `Settle` says |
| ContestSettlement.ContestStore.ResetForRetry | src/modules/settlement/contest-settlement.service.ts:334-352 | Only a FAILED row is reset; then it is claimable and nobody holds its lock |
| SettlementAnswers.RankedAreTheActive | src/modules/settlement/contest-settlement.service.ts:157-175 | The ACTIVE entries and no others are ranked, with the points of their teams or 0 |
| SettlementAnswers.AnswerIs | src/modules/settlement/contest-settlement.service.ts:76-178 | Every answer of a settlement call has its exact condition |
| SettlementAnswers.CompletedIff | src/modules/settlement/contest-settlement.service.ts:239-262 | The contest becomes COMPLETED exactly when the call claims it, pays every entry and saves it, and always on success; otherwise its status stays |
| SettlementAnswers.RowIs | src/modules/settlement/contest-settlement.service.ts:245-262 | The result row after each answer: winners, winnings and the rest of the pool on success, zeros on failure |
| SettlementAnswers.PaidAndWinners | src/modules/settlement/contest-settlement.service.ts:184-200 | `totalWinners` is the number of positive winnings and `totalPaidOut` their sum |
| SettlementAnswers.NoPoolNoCredits | src/modules/settlement/prize-calculator.ts:155-158 | A contest without a pool credits nobody, whatever its ladder |
| FirstSettlement.CreditsMatchEntries | src/modules/settlement/contest-settlement.service.ts:183-203 | After every iteration of a first attempt the credits equal the winnings on SETTLED entries; a failure leaves the first entries marked, and the credits equal to theirs or ahead by the one payment in hand |
| FirstSettlement.GateIsInvisible | src/modules/settlement/contest-settlement.service.ts:179-203 | With an accepted ladder everything allocated is paid |
| FirstSettlement.FirstLoopBalances | src/modules/settlement/contest-settlement.service.ts:178-203 | A first pay loop stays within the pool and, if it ends, pays the prizes of the ranks played |
| FirstSettlement.FirstSettlementBalances | src/modules/settlement/contest-settlement.service.ts:178-262 | After a successful first attempt credits, SETTLED winnings, `totalPaidOut` and the prizes of ranks 1 to n agree, and with the commission give the pool |
| FirstSettlement.PayAllSettles | src/modules/contest/contest-entry.repository.ts:139-156 | Success leaves every allocated entry SETTLED with its rank and the amount paid |
| SettlementRuns.SettleIsARun | src/modules/settlement/contest-settlement.service.ts:60-323 | Every call of the service, whatever fails, does to the store what some run of the protocol with at most one new claim does |
| SettlementRuns.PayAllRuns | src/modules/settlement/contest-settlement.service.ts:187-230 | The pay loop, cut off anywhere, is a run of credit and mark steps |
| SettlementProtocol.StepKeepsInv | src/modules/settlement/contest-settlement.service.ts:183-203 | Every step of every worker keeps: the wallet holds what the runs created, each run at most its own allocation |
| SettlementProtocol.CreditsWithinClaims | src/modules/settlement/contest-settlement.service.ts:99-118 | After any interleaving of workers, crashes, failures and resets with k successful claims at most k pools were credited, and one pool for one claim |
| SettlementProtocol.CreditedOnce | src/modules/settlement/contest-settlement.service.ts:190-196 | A credit, once made, is never repeated or changed |
| SettlementProtocol.OneFinaliser | src/modules/leaderboard/contest-result.repository.ts:78-101 | At any time at most one worker can finalise the contest |
| SettlementProtocol.OnlyResetsLeaveTerminal | src/modules/leaderboard/contest-result.repository.ts:49-76 | A SETTLED or SKIPPED row is changed by a step if and only if that step is the save of a reset |
| SettlementProtocol.TerminalIsFinal | src/modules/settlement/contest-settlement.service.ts:334-352 | As long as no reset saves over a row that is no longer FAILED, SETTLED and SKIPPED are never left |
| SettlementProtocol.SettlementIsFinal | src/modules/settlement/contest-settlement.service.ts:334-352 | The same, between any two moments of a run from the start |
| SettlementRetry.PayAllSucceedsIff | src/modules/settlement/contest-settlement.service.ts:187-203 | The pay loop ends exactly when there are writes enough and no entry was credited another amount before |
| SettlementRetry.RetrySucceedsIff | src/modules/settlement/contest-settlement.service.ts:187-262 | A claimed attempt settles exactly under the same condition and two more writes |
| SettlementRetry.RetryCanExceedThePool | src/modules/settlement/contest-settlement.service.ts:157-178 | The bound of one pool per claim is met: a retry ranks the rest again from 1 and pays 200 from a pool of 100 |
| RetryMoney.PayAllAdds | src/modules/settlement/contest-settlement.service.ts:187-203 | A pay loop that ends raises the credits by exactly what is due to entries not credited before; one that is cut off raises them by no more |
| RetryMoney.RetryWithinPoolIff | src/modules/settlement/contest-settlement.service.ts:157-203 | An attempt that settles stays within the pool if and only if earlier credits and what is due to entries not credited before fit into it |
| RetryMoney.NoRetryExceedsThePoolIff | src/modules/settlement/contest-settlement.service.ts:157-203 | However many of its writes succeed, a claimed attempt stays within the pool if and only if earlier credits and what is due before the first refused entry fit into it |
| RetryMoney.SecondAttemptWithinPoolIff | src/modules/settlement/contest-settlement.service.ts:157-203 | After a first attempt that paid j of n entries, no tie across the cut, a retry that settles has credited the prizes of ranks 1 to j and of ranks 1 to n - j, and stays within the pool if and only if both fit into it |
| SettlementRetry.StaleResetReopens | src/modules/settlement/contest-settlement.service.ts:334-352 | A reset that read FAILED before a retry and saves after it reopens a finished settlement |
| JoinService.JoinStore.constructor | src/modules/contest/contest.repository.ts:58-74 | Contests without entries and nothing in flight |
| JoinService.JoinStore.IncrementFilledSpot | src/modules/contest/contest.repository.ts:58-74 | Claims a spot exactly in an OPEN or SCHEDULED contest below capacity |
| JoinService.JoinStore.LockForContest | src/modules/contest/contest-join.service.ts:200-216 | Locks the fee exactly unless the wallet is down or the key was used for something else |
| JoinService.JoinStore.InsertEntry | src/modules/contest/contest-join.service.ts:218-231 | Inserts exactly when neither unique index stands in the way: no ACTIVE entry of the team in the contest, and none of the user under the key, stored or in another open transaction |
| JoinService.JoinStore.CommitJoin | src/modules/contest/contest-join.service.ts:233-241 | Entry, spot and the flip to FULL become visible together; only an OPEN contest flips, and only with its last spot |
| JoinService.JoinStore.AbortTransaction | src/modules/contest/contest-join.service.ts:279-295 | A dropped transaction leaves no entry and no spot behind |
| JoinService.JoinStore.RefundContest | src/modules/contest/contest-join.service.ts:558-567 | Refunds the lock of a rolled-back join under its own key |
| JoinService.JoinStore.HandleJoinRollback | src/modules/contest/contest-join.service.ts:527-590 | Drops the transaction and refunds a lock that was taken; a refund that throws leaves it as it is |
| JoinService.JoinStore.LockInsertCommit | src/modules/contest/contest-join.service.ts:198-242 | The transaction after the spot: refused by the wallet or by an index exactly as stated, else committed; the whole state after each |
| JoinService.JoinStore.Join | src/modules/contest/contest-join.service.ts:178-301 | A join is a run of the protocol. It answers full, refused by the wallet, already joined or joined exactly under the stated conditions, and its whole effect on contests, entries, ledger and requests is given for each |
| JoinCall.JoinIsARun | src/modules/contest/contest-join.service.ts:178-301 | What a join call does is a run of the protocol, whatever its outcome |
| JoinCall.AnswerIs | src/modules/contest/contest-join.service.ts:183-231 | Every answer of a join has its exact condition in terms of status, spots, wallet keys and stored entries |
| JoinCall.JoinedContest | src/modules/contest/contest.service.ts:625-642 | A join adds its entry and one spot and turns the contest FULL exactly when it was OPEN and that was the last spot; no other answer changes contests or entries |
| JoinCall.FeeStaysLockedIff | src/modules/contest/contest-join.service.ts:554-589 | A call leaves a fee locked without an entry if and only if the insert was refused and the refund failed |
| JoinCall.JoinMovesMoney | src/modules/contest/contest-join.service.ts:198-216 | With a fresh key a call changes the locked money by the fee exactly when it leaves an entry or an unrefunded lock, for any selection of contests and users |
| JoinService.JoinStore.SetStatus | src/modules/contest/contest.repository.ts:112-134 | Compare-and-set of the status |
| JoinService.JoinStore.TransitionStatus | src/modules/contest/contest.service.ts:402-419 | Changes the status exactly along the transition table, and then upwards |
| JoinService.JoinStore.RefundFee | src/modules/contest/contest-join.service.ts:336-345 | The wallet refund of one entry, once under its key |
| JoinService.JoinStore.MarkEntryRefunded | src/modules/contest/contest-entry.repository.ts:102-121 | The entry is no longer ACTIVE and leaves the sweep |
| JoinService.JoinStore.RefundOne | src/modules/contest/contest-join.service.ts:310-375 | Wallet refund, then the status: one entry is refunded its fee and leaves the sweep |
| JoinService.JoinStore.RefundAllEntries | src/modules/contest/contest-join.service.ts:378-392 | The sweep is a run of the protocol and finishes exactly when no refund throws |
| JoinService.JoinStore.FlipToCancelled | src/modules/contest/contest.service.ts:340-357 | Cancels exactly a contest that is neither COMPLETED nor CANCELLED |
| JoinService.JoinStore.FindActiveForContest | src/modules/contest/contest-entry.repository.ts:93-100 | The ACTIVE entries of the contest |
| JoinService.JoinStore.CancelContest | src/modules/contest/contest.service.ts:324-381 | Cancels exactly a contest that is neither COMPLETED nor CANCELLED; the sweep it starts is a run of the protocol and finishes exactly when the refunds of all ACTIVE entries succeed |
| JoinSpots.StepKeepsSpots | src/modules/contest/contest.repository.ts:58-74 | Every step of every join, status change, cancellation and refund keeps the spot invariant |
| JoinSpots.SpotsAreEntries | src/modules/contest/contest.repository.ts:58-74 | Over every interleaving `filledSpots` is the number of entry rows and within `totalSpots`, no team is ACTIVE twice in a contest, and no user has two entries under one key |
| JoinSpots.EntriesOnlyWhileJoinable | src/modules/contest/contest.repository.ts:65-66 | An entry appears only in a contest that is OPEN or SCHEDULED and has a spot left at that moment |
| JoinSpots.ContestAfterStep | src/modules/contest/contest.service.ts:625-642 | What any step does to a contest: spots change only with a commit, by one; the status only with the last spot of an OPEN contest, a cancellation or a transition |
| JoinSpots.StatusEnteredFrom | src/modules/contest/contest.service.ts:55-69 | Whatever the step, a status is entered only from the statuses listed for it |
| ContestStatuses.StatusesEnteredFrom | src/modules/contest/contest.service.ts:55-69 | The transition table, read by the status that is entered |
| JoinSpots.StatusNeverFalls | src/modules/contest/contest.service.ts:55-69 | Over every run the status keeps or raises its rank |
| JoinSpots.StatusesNeverCycle | src/modules/contest/contest.service.ts:55-69 | A status that was left never comes back |
| JoinMoney.StepKeepsMoneyInv | src/modules/contest/contest-join.service.ts:198-242 | Every step with a fresh key keeps the ledger invariant: each lock, rollback and refund belongs to one join or entry and has its amount |
| JoinMoney.StepKeepsBalance | src/modules/contest/contest-join.service.ts:198-242 | Every step keeps locked money equal to the fees of entries not yet refunded plus locks in flight, for any selection of contests and users |
| JoinOutcomes.LockedMoneyIsAccountedFor | src/modules/contest/contest-join.service.ts:178-301 | Over any interleaving with fresh keys locked money is the fees of ACTIVE paid entries plus the locks of joins in flight, per contest, per user or in all |
| JoinOutcomes.CancelledContestHoldsNothing | src/modules/contest/contest.service.ts:360-381 | After a finished cancellation sweep no entry is ACTIVE, each paid entry was refunded exactly its fee, and the contest holds no locked money but rollbacks still to come |
| JoinOutcomes.LedgerIsAppendOnly | src/modules/wallet/wallet.service.ts:712-744 | A wallet transaction never changes, so one refund key is one refund |
| JoinOutcomes.BalanceNeedsFreshKey | src/modules/contest/contest-join.service.ts:204-213 | Locking keeps the balance if and only if the idempotency key is fresh |
| JoinOutcomes.ReusedKeyEntersForFree | src/modules/contest/contest-join.service.ts:204-216 | A key reused after a rollback lets a join commit while no money is locked |
| DepositService.DepositStore.constructor | src/modules/payments/payment.service.ts:225-243 | Payments without settlement rows or credits |
| DepositService.DepositStore.SettleDepositFromWebhook | src/modules/payments/payment.service.ts:225-243 | A webhook is a run of the protocol: captured with a settlement row exactly when it was unsettled; the row is created exactly when there was none, and processed at once exactly when there is no queue |
| DepositService.DepositStore.MarkCaptured | src/modules/payments/payment.repository.ts:29-51 | Status CAPTURED, as the two steps of an arriving trigger |
| DepositService.DepositStore.CreateSettlement | src/modules/financial-settlement/settlement.service.ts:25-38 | The settlement row of a payment is created exactly when there was none |
| DepositService.DepositStore.EnqueueDepositSettlement | src/modules/financial-settlement/settlement.service.ts:24-53 | A run of the protocol after which the payment has a settlement row; a new row without a queue is processed at once, with the whole effect on payments, rows and credits |
| DepositService.DepositStore.VerifyClientPayment | src/modules/payments/payment.service.ts:118-162 | Every answer of a client callback exactly characterised; it leads to a credit by itself exactly when the payment was unsettled, the signature valid and not pending, the row new, no queue there, and the credit of the job succeeded |
| DepositService.DepositStore.MarkProcessing | src/modules/financial-settlement/settlement.repository.ts:18-26 | Status PROCESSING and one more attempt |
| DepositService.DepositStore.Deposit | src/modules/financial-settlement/settlement.service.ts:72-85 | Credits the payment amount under the payment key, once |
| DepositService.DepositStore.MarkSettled | src/modules/payments/payment.repository.ts:53-64 | Links the wallet transaction to the payment |
| DepositService.DepositStore.MarkCompleted | src/modules/financial-settlement/settlement.repository.ts:28-36 | Status COMPLETED |
| DepositService.DepositStore.MarkFailed | src/modules/financial-settlement/settlement.repository.ts:38-46 | Status FAILED |
| DepositService.DepositStore.CreditLinkComplete | src/modules/financial-settlement/settlement.service.ts:71-89 | Credit, link and completion in this order, and exactly what is stored when a later one throws |
| DepositService.DepositStore.CreditAndLink | src/modules/financial-settlement/settlement.service.ts:71-136 | The guarded part is a run of the protocol: COMPLETED when nothing throws, else FAILED, even after the credit |
| DepositService.DepositStore.ProcessDepositSettlement | src/modules/financial-settlement/settlement.service.ts:56-138 | The job is a run of the protocol; not found and already settled change nothing, and for any number of successful writes the outcome and all stored rows are given, PROCESSING included |
| DepositService.DepositStore.RunJob | src/modules/financial-settlement/settlement.service.ts:62-136 | The writes of a job that found the payment unsettled: a throw before the guarded part leaves the row as it is, one inside marks it FAILED |
| DepositProtocol.DepositsAreSound | src/modules/financial-settlement/settlement.service.ts:24-138 | Over any interleaving of webhooks, callbacks, workers, crashes and retries: a credit has the amount of its payment, a link is to that credit, COMPLETED implies linked, and no payment has two settlement rows |
| DepositProtocol.StepKeepsInv | src/modules/financial-settlement/settlement.service.ts:24-138 | Every single store write keeps the deposit invariant |
| DepositProtocol.CreditedOnce | src/modules/financial-settlement/settlement.service.ts:72-85 | A credit is never repeated or changed, and a link once set is set for good |
| DepositProtocol.LinkNeverChanges | src/modules/payments/payment.repository.ts:53-64 | The same, between any two moments of a run from the start |
| RankHistory.RankHistoryLog.constructor | src/modules/leaderboard/leaderboard.service.ts:261-268 | An empty log |
| RankHistory.RankHistoryLog.PriorByEntry | src/modules/leaderboard/leaderboard.service.ts:316-333 | The loop finds, for each asked entry, the row with the greatest capture time |
| RankHistory.RankHistoryLog.RecordSnapshot | src/modules/leaderboard/leaderboard.service.ts:261-376 | Appends one linked row for every entry whose rank or points changed and no other |
| RankHistory.OneRowPerSnapshot | src/modules/leaderboard/leaderboard.service.ts:341-374 | A snapshot adds at most one row to an entry, and none when nothing changed |
| RankHistory.RowsNameTheOwner | src/modules/leaderboard/leaderboard.service.ts:342-371 | Every row names the owner the store knows and the time of its snapshot |
| RankHistory.LogIsTheChanges | src/modules/leaderboard/leaderboard.service.ts:341-376 | Over any snapshots with increasing capture times the rows of an entry are exactly the changes of its rank and points, each later than and linked to the one before |
| RankHistory.LatestRowIsCurrent | src/modules/leaderboard/leaderboard.service.ts:316-333 | The latest row of an entry is its rank and points in the last snapshot that ranked it |
| RankHistory.PastLogIsKept | src/modules/leaderboard/leaderboard.service.ts:341-376 | The rows captured up to a snapshot are the log as it was then |
| RankHistory.Replay | src/modules/leaderboard/leaderboard.service.ts:261-376 | Replaying the log up to any snapshot gives every standing of that moment |
| RankHistory.DeltasTelescope | src/modules/leaderboard/leaderboard.service.ts:369-370 | All rank and point deltas of an entry add up to the way from its first standing to its current one |
| RankHistory.MovementsAreTrue | src/modules/leaderboard/leaderboard.service.ts:344-350 | NEW exactly on the first row; UP and DOWN exactly when the rank fell or rose against the preceding row, whose values are the previous ones |
| LeaderboardZset.ScoreRoundTrip | src/modules/leaderboard/leaderboard-redis.ts:34-38 | A score reads back as its points exactly when these have two decimals, and is never off by more than 0.005 |
| LeaderboardZset.LeaderboardRedis.constructor | src/modules/leaderboard/leaderboard-redis.ts:51-58 | An empty sorted set |
| LeaderboardZset.LeaderboardRedis.Rebuild | src/modules/leaderboard/leaderboard-redis.ts:58-81 | The sorted set represents exactly the scores of the given entries |
| LeaderboardZset.LeaderboardRedis.Upsert | src/modules/leaderboard/leaderboard-redis.ts:88-101 | Sets one score in the represented map |
| LeaderboardZset.LeaderboardRedis.Remove | src/modules/leaderboard/leaderboard-redis.ts:104-111 | Removes one entry from the represented map |
| LeaderboardZset.LeaderboardRedis.Size | src/modules/leaderboard/leaderboard-redis.ts:114-122 | The number of entries in the map |
| LeaderboardZset.LeaderboardRedis.Range | src/modules/leaderboard/leaderboard-redis.ts:128-153 | The rows between two positions, ranked from `from + 1` |
| LeaderboardZset.LeaderboardRedis.GetRank | src/modules/leaderboard/leaderboard-redis.ts:156-177 | Finds exactly the stored entries; the rank is one more than the number of members above and the row is the one `range` returns |
| LeaderboardZset.LeaderboardRedis.GetRanks | src/modules/leaderboard/leaderboard-redis.ts:180-214 | The rows of exactly the asked entries that are stored |
| LeaderboardZset.LeaderboardRedis.GetUserRank | src/modules/leaderboard/leaderboard.service.ts:97-144 | The best-ranked of the entries that are stored, with the prize projected for its rank |
| LeaderboardZset.BestOf | src/modules/leaderboard/leaderboard.service.ts:115-122 | The loop finds a row with the least rank |
| LeaderboardAgreement.LoadContestPage | src/modules/leaderboard/leaderboard.service.ts:449-521 | The page of the sorted set, or of the stored entries when Redis is off; a sorted set found empty is rebuilt first, which also records a snapshot |
| LeaderboardZset.PageTopIsBoardTopIff | src/modules/leaderboard/leaderboard.service.ts:482-521 | The top score of a page that has rows is that of the contest if and only if the page begins with a score tied for the best; of an empty page it is 0 |
| LeaderboardZset.SecondPageHasItsOwnTop | src/modules/leaderboard/leaderboard.service.ts:482-521 | Two entries and pages of one: the second page shows its own top score |
| LeaderboardAgreement.TopScoresAgreeIff | src/modules/leaderboard/leaderboard.service.ts:482-571 | Redis and the fallback report the same top score for a page if and only if the page begins with a score tied for the best, or is empty and the best is 0 |
| LeaderboardZset.LoadContestPageFromMongo | src/modules/leaderboard/leaderboard.service.ts:524-571 | The page and the top score of the sorted stored entries |
| LeaderboardZset.AddRepresents | src/modules/leaderboard/leaderboard-redis.ts:88-101 | Adding or moving a member keeps the order and represents the updated map |
| LeaderboardZset.RemoveRepresents | src/modules/leaderboard/leaderboard-redis.ts:104-111 | Removing a member represents the map without it |
| LeaderboardZset.RankCountsAbove | src/modules/leaderboard/leaderboard-redis.ts:156-177 | The position of a member is the number of members with a higher score or an equal one and a larger id |
| LeaderboardZset.PagesListEveryMember | src/modules/leaderboard/leaderboard-redis.ts:128-153 | Enough pages, one after another, list every member once with ranks 1, 2, 3 and so on and points that never rise |
| LeaderboardZset.RowsAreDetermined | src/modules/leaderboard/leaderboard-redis.ts:128-153 | Every read depends only on the scores, not on the operations that put them there |
| LeaderboardZset.NewerEntryWinsTies | src/modules/leaderboard/leaderboard-redis.ts:24-27 | On equal scores the larger id is ranked better, the opposite of the comment in the file |
| LeaderboardAgreement.RebuildForContest | src/modules/leaderboard/leaderboard.service.ts:195-258 | Sorts the entries, rebuilds the sorted set and records the snapshot; the top score is the greatest points |
| LeaderboardAgreement.ColumnsAgree | src/modules/leaderboard/leaderboard.service.ts:543-556 | At every rank the sorted set shows the rounded points of any arrangement of the entries by points, ties included |
| LeaderboardAgreement.PointsAgreeIff | src/modules/leaderboard/leaderboard.service.ts:543-556 | Redis and the fallback show the same points at every rank if and only if all points have two decimals |
| LeaderboardAgreement.PagesAgree | src/modules/leaderboard/leaderboard.service.ts:482-489 | Page by page the two sides agree on ranks and points |
| LeaderboardAgreement.EntriesAgreeIff | src/modules/leaderboard/leaderboard.service.ts:543-548 | Whole rows agree if and only if no two entries tie |
| LeaderboardAgreement.AgreeAfterUpdates | src/modules/leaderboard/leaderboard-redis.ts:58-111 | A rebuild and any upserts and removes later the points at every rank are still those of the fallback |
| LeaderboardAgreement.LogMatchesBoard | src/modules/leaderboard/leaderboard.service.ts:230-242 | After a rebuild the log and the sorted set give an entry the same points at the rank the log records |
| FantasyScoring.ThresholdPaysIff | src/modules/fantasy/fantasy.scoring.ts:114-128 | A one-shot bonus is paid if and only if the statistic reaches the threshold and is not zero |
| FantasyScoring.ContributionIs | src/modules/fantasy/fantasy.scoring.ts:114-129 | An event contributes exactly what its mode pays: nothing for a statistic of zero, all or nothing at a threshold, its points per whole unit reached, or per point of the statistic |
| FantasyScoring.AppliedAreTheScoring | src/modules/fantasy/fantasy.scoring.ts:131-160 | The applied events are, in rule order, exactly the events for the role that pay something, with their statistic |
| FantasyScoring.ApplyEvents | src/modules/fantasy/fantasy.scoring.ts:146-162 | The loop keeps base and categories as totals rounded at every step over the events that contribute |
| FantasyScoring.ComputePlayerPoints | src/modules/fantasy/fantasy.scoring.ts:141-177 | The output of a player, with the base not rounded a second time |
| FantasyScoring.AddEffective | src/modules/fantasy/fantasy.scoring.ts:222-226 | Each category of the team grows by the multiplied category of the player, rounded |
| FantasyScoring.ComputeTeamPoints | src/modules/fantasy/fantasy.scoring.ts:206-230 | The team total is exactly the sum of the player totals; categories are rounded step by step |
| FantasyScoring.PlayerRoundOff | src/modules/fantasy/fantasy.scoring.ts:146-162 | The base is within 0.005 per applied event of the exact sum, a category within 0.005 per event in it |
| FantasyScoring.TeamRoundOff | src/modules/fantasy/fantasy.scoring.ts:206-230 | Team total and every category stay within 0.005 per player and 0.005 times the largest multiplier per applied event of the exact values |
| FantasyScoring.RoundOffBoundIsLinear | src/modules/fantasy/fantasy.scoring.ts:206-230 | The bound in closed form |
| FantasyScoring.PlayerBaseIsCategorySum | src/modules/fantasy/fantasy.scoring.ts:146-162 | With contributions of two decimals the base is exact and the sum of its five categories |
| FantasyScoring.TeamTotalIsCategorySum | src/modules/fantasy/fantasy.scoring.ts:206-230 | With multiplied category values of two decimals too, the team total is the sum of the team categories |
| FantasyScoring.TotalFromPlainBase | src/modules/fantasy/fantasy.scoring.ts:164-174 | A player total in a team is the base without multiplier, times the multiplier, rounded |
| FantasyScoring.TotalIs | src/modules/fantasy/fantasy.scoring.ts:162-174 | A captain has the captain multiplier, else a vice-captain the other; anybody else keeps the base |
| Rounding.StepSumNear | src/modules/fantasy/fantasy.scoring.ts:135 | A total rounded after every addition is off by at most 0.005 per addition |
| Rounding.StepSumExact | src/modules/fantasy/fantasy.scoring.ts:135 | Terms of two decimals are added without any rounding |
| MatchScoring.ScoringService.constructor | src/modules/scoring/scoring.service.ts:90-100 | The stored points as they are |
| MatchScoring.ScoringService.ScoreTeam | src/modules/scoring/scoring.service.ts:151-193 | One team scored and the roles of its players remembered |
| MatchScoring.ScoringService.ScoreTeams | src/modules/scoring/scoring.service.ts:151-194 | All teams scored, the last roster deciding the role of a player |
| MatchScoring.ScoringService.BuildPlayerPointsPayload | src/modules/scoring/scoring.service.ts:381-445 | Points without multiplier for exactly the players with statistics or on a roster |
| MatchScoring.ScoringService.PersistTeam | src/modules/scoring/scoring.service.ts:472-501 | Total, breakdown and the existing projection rows of one team |
| MatchScoring.ScoringService.PersistTeams | src/modules/scoring/scoring.service.ts:472-501 | All team updates in order |
| MatchScoring.ScoringService.MirrorPoints | src/modules/scoring/scoring.service.ts:507-513 | The mirror of every scored player, 0 for a negative score |
| MatchScoring.ScoringService.PersistRecompute | src/modules/scoring/scoring.service.ts:447-519 | The whole new state of teams, projection rows, player points and their mirror, 0 where a score is negative |
| MatchScoring.ScoringService.RecomputeForMatch | src/modules/scoring/scoring.service.ts:90-212 | One recompute is the specification `Recomputed` applied to the store |
| MatchScoring.ScoringService.Adjust | src/modules/scoring/scoring.service.ts:314-321 | The upsert of an adjustment |
| MatchScoring.ScoringService.AdjustPlayerPoints | src/modules/scoring/scoring.service.ts:295-362 | A zero delta is refused; otherwise the adjustment is followed by a recompute |
| MatchScoring.ApplyUpdatesIs | src/modules/scoring/scoring.service.ts:472-501 | What an update leaves depends on the inputs and on which rows exist, and on nothing else that was stored |
| MatchScoring.TeamTotalIsSumOfEarned | src/modules/scoring/scoring.service.ts:180-193 | The stored total of a team is the sum of the stored `pointsEarned` of its players |
| MatchScoring.EarnedIsBaseTimesMultiplier | src/modules/scoring/scoring.service.ts:381-430 | For a player with one role across teams each `pointsEarned` is the stored base points times the multiplier, rounded |
| MatchScoring.RecomputeIsIdempotent | src/modules/scoring/scoring.service.ts:90-212 | Recomputing with the same inputs changes no stored value |
| MatchScoring.PlayersAfterRecompute | src/modules/scoring/scoring.service.ts:381-519 | Exactly players with statistics or on a roster are scored, without a multiplier; the mirror holds their points, or 0 when these are negative |
| MatchScoring.RoleIsOfLastRoster | src/modules/scoring/scoring.service.ts:151-194 | A player is scored with the role of the last roster that lists the player |
| MatchScoring.AdjustmentVanishesIff | src/modules/scoring/scoring.service.ts:289-362 | An adjustment leaves no trace in the stored points if and only if the player has statistics or is on a roster |
| TeamValidator.ValidateFantasyTeam | src/modules/fantasy/fantasy.validator.ts:112-321 | Reports an error code exactly for every broken rule, is valid exactly when none is broken, and returns the counts of the first selections; a warning exactly when the cap is near and not reached |
| TeamValidator.TallyPlayers | src/modules/fantasy/fantasy.validator.ts:126-152 | The loop tallies the first selection of every player and reports a duplicate exactly when there is one |
| TeamValidator.CheckRoles | src/modules/fantasy/fantasy.validator.ts:220-241 | Reports a role minimum or maximum exactly when some constraint is missed |
| TeamValidator.CheckTeamMax | src/modules/fantasy/fantasy.validator.ts:247-257 | Reports an exceeded real-team limit exactly when some team exceeds it |
| TeamValidator.CheckTeamMin | src/modules/fantasy/fantasy.validator.ts:258-270 | Reports a missed real-team minimum exactly when some team misses it |
| TeamValidator.CheckAccess | src/modules/fantasy/fantasy.validator.ts:158-194 | Lock and team cap are errors exactly when they apply; the warning comes exactly when the cap is near and not reached |
| TeamValidator.CheckTotals | src/modules/fantasy/fantasy.validator.ts:196-218 | Size and budget are reported exactly when they are missed |
| TeamValidator.CheckLeaders | src/modules/fantasy/fantasy.validator.ts:272-306 | Captain and vice-captain are reported exactly when missing, repeated or the same player with an id |
| TeamValidator.AcceptedIff | src/modules/fantasy/fantasy.validator.ts:112-321 | Accepts exactly the valid teams, and those valid but for one player with an empty id who is captain and vice-captain |
| TeamValidator.AcceptsExactlyValidTeams | src/modules/fantasy/fantasy.validator.ts:112-321 | Without such a player the validator is the declarative specification, in both directions |
| TeamValidator.CodesAre | src/modules/fantasy/fantasy.validator.ts:112-306 | Each error code is reported exactly when what it names is wrong, counted over the positions of the first selections |
| TeamValidator.FirstsAre | src/modules/fantasy/fantasy.validator.ts:126-134 | A selection counts exactly when its id was not selected before |
| TeamValidator.ValidTeamIsPlain | src/modules/fantasy/fantasy.validator.ts:112-321 | The specification read off the positions of the selection: distinct ids, size, sum of credits, role and real-team ranges, one captain and another vice-captain, unlocked, below the cap |
| TeamValidator.NamelessLeaderIsAccepted | src/modules/fantasy/fantasy.validator.ts:296-306 | A concrete team that is accepted although its captain is its vice-captain |
| TeamValidator.BreakdownsAddUp | src/modules/fantasy/fantasy.validator.ts:104-106 | Role and team tallies both add up to `playersSelected`, the number of different players |
| TeamValidator.SummaryIs | src/modules/fantasy/fantasy.validator.ts:308-320 | The summary counts different players by role and team, with credits used and left to two decimals |
| TeamValidator.RealTeamsSpanned | src/modules/fantasy/fantasy.validator.ts:247-270 | A valid team comes from between ceil(size / max) and floor(size / min) real teams |
| TeamProjection.AssembleRoster | src/modules/fantasy/fantasy-team.service.ts:416-495 | Fails exactly when a player is unknown or a leader is missing; otherwise the roster lists the choices in order as the catalogue has them, with the last captain and vice-captain chosen |
| TeamProjection.FantasyTeamStore.constructor | src/modules/fantasy/fantasy-team.service.ts:75-76 | No teams and no rows |
| TeamProjection.FantasyTeamStore.ReplaceRoster | src/modules/fantasy/fantasy-team-player.repository.ts:34-45 | Retires the live rows of the team and appends the new ones |
| TeamProjection.FantasyTeamStore.SoftDeleteByTeamId | src/modules/fantasy/fantasy-team-player.repository.ts:48-58 | Retires the live rows of the team and counts them |
| TeamProjection.FantasyTeamStore.CountSelectionsForPlayer | src/modules/fantasy/fantasy-team-player.repository.ts:64-69 | The count of rows is the number of live teams of the match that hold the player |
| TeamProjection.ValidatedRoster | src/modules/fantasy/fantasy-team.service.ts:130-146 | A roster is accepted exactly when its players are known and the validator finds no rule broken |
| TeamProjection.FantasyTeamStore.Create | src/modules/fantasy/fantasy-team.service.ts:123-182 | Creates the team with its rows exactly when the match is unlocked, the players are known and no rule is broken; a refusal changes nothing |
| TeamProjection.FantasyTeamStore.Update | src/modules/fantasy/fantasy-team.service.ts:184-247 | Changes name and, if given, roster and rows together, exactly for an editable live team of the user in an unlocked match and a valid roster; a refusal changes nothing |
| TeamProjection.FantasyTeamStore.Clone | src/modules/fantasy/fantasy-team.service.ts:249-304 | Copies a team with its rows exactly when it is live, of the user, its match unlocked and the cap not reached; a refusal changes nothing |
| TeamProjection.FantasyTeamStore.WriteTeam | src/modules/fantasy/fantasy-team.service.ts:216-243 | The transaction of an update: name and roster where given, rows with the roster, all else as it was |
| TeamProjection.TeamCountMoves | src/modules/fantasy/fantasy-team.service.ts:132-135 | The count behind the cap goes up by one with a new team, down by one with a deleted one, and is else the same |
| TeamProjection.LockedTeamsAre | src/modules/fantasy/fantasy-team.repository.ts:60-75 | A match that starts ends editing of its live teams and of no others |
| TeamProjection.FantasyTeamStore.Delete | src/modules/fantasy/fantasy-team.service.ts:306-319 | Soft-deletes a team together with its rows exactly when it is live, of the user and editable |
| TeamProjection.ChangeKeepsAgreement | src/modules/fantasy/fantasy-team.service.ts:497-532 | Every change keeps the live rows of every team equal to its roster |
| TeamProjection.ProjectionAgrees | src/modules/fantasy/fantasy-team.service.ts:497-532 | After any history the live rows of every live team are exactly its roster, in order, and a deleted team has none |
| TeamProjection.SelectionsAreHolders | src/modules/fantasy/fantasy-team-player.repository.ts:64-69 | After any history the selection count of (match, player) is the number of live teams of the match that hold the player |
| TeamProjection.AcceptedRosterIsDistinct | src/modules/fantasy/fantasy.validator.ts:126-134 | What the validator lets through has no player twice, so the unique index of the projection holds |
| RefreshTokens.AuthStore.constructor | src/modules/auth/auth.service.ts:613-645 | No sessions and no tokens |
| RefreshTokens.AuthStore.IssuePair | src/modules/auth/token.service.ts:54-99 | A new unrevoked row of the session |
| RefreshTokens.AuthStore.MarkRotated | src/modules/auth/refresh-token.repository.ts:20-27 | Revokes a row and points it to its successor |
| RefreshTokens.AuthStore.MarkReuse | src/modules/auth/refresh-token.repository.ts:29-33 | Revokes a row and marks the reuse |
| RefreshTokens.AuthStore.RevokeForSession | src/modules/auth/refresh-token.repository.ts:35-42 | Revokes exactly the rows of the session |
| RefreshTokens.AuthStore.RotateToken | src/modules/auth/token.service.ts:106-133 | Invalid, reuse or rotated exactly as the stored row says, with the matching change of rows |
| RefreshTokens.AuthStore.RefreshSession | src/modules/auth/auth.service.ts:274-314 | A refresh keeps the chains; reuse, rotation and refusal each under their exact condition and with all rows and sessions they change |
| RefreshTokens.AuthStore.OpenNewSession | src/modules/auth/auth.service.ts:613-645 | A new session starts a chain of one row |
| RefreshTokens.AuthStore.LogoutSession | src/modules/auth/auth.service.ts:317-326 | Revokes the session and no token row |
| RefreshTokens.AuthStore.RevokeMySession | src/modules/session/session.service.ts:23-44 | Only the owner revokes a session and all of its rows |
| RefreshTokens.AuthStore.LogoutEverywhere | src/modules/session/session.repository.ts:35-52 | Deactivates exactly the sessions of the user but the kept one, touches no token, and counts those that were active |
| RefreshTokens.StepKeepsChains | src/modules/auth/token.service.ts:106-133 | Every call keeps one rotation chain per session |
| RefreshTokens.TokensFormOneChain | src/modules/auth/token.service.ts:106-133 | In every run the rows of a session form one acyclic chain that covers them all, and only its tip can be unrevoked |
| RefreshTokens.OnlyTheTipIsLive | src/modules/auth/refresh-token.repository.ts:20-27 | The tip is the one row without successor |
| RefreshTokens.ReuseIsDetected | src/modules/auth/token.service.ts:118-122 | A row once revoked or rotated is reuse whenever it is presented later, and its session is revoked for good |
| RefreshTokens.RunAdvances | src/modules/session/session.repository.ts:25-33 | A revoked session never becomes ACTIVE again, a revoked row never unrevoked, and a rotation never changes |
| RefreshTokens.RotatedOnce | src/modules/auth/token.service.ts:106-133 | A token is exchanged at most once |
| RefreshTokens.RefreshableIff | src/modules/auth/token.service.ts:114-133 | A session can be refreshed if and only if the tip of its chain is unrevoked and unexpired, whatever the status of the session |
| RefreshTokens.TipAfterRevocation | src/modules/auth/auth.service.ts:285-304 | Reuse of an earlier row and logout leave the tip as it was; revoking the device revokes every row |
| RefreshTokens.RevokedSessionIsRefreshed | src/modules/auth/auth.service.ts:285-314 | A replay is detected and revokes the session, and the newest token of the session is exchanged all the same |
| RefreshTokens.LastUseIsNotRecorded | src/modules/auth/auth.service.ts:307 | The touch goes to the id of the token row, so the time of last use of a session stays the time it was opened |
| OneTimeCodes.OtpStore.constructor | src/modules/auth/otp.service.ts:20-25 | No codes |
| OneTimeCodes.OtpStore.RecentRequestCount | src/modules/auth/auth-otp.repository.ts:30-42 | The codes created in the last minute |
| OneTimeCodes.OtpStore.InvalidateActive | src/modules/auth/auth-otp.repository.ts:52-68 | Consumes the open codes of one channel |
| OneTimeCodes.OtpStore.FindActiveRow | src/modules/auth/auth-otp.repository.ts:14-29 | The newest unconsumed and unexpired code |
| OneTimeCodes.OtpStore.IssueCode | src/modules/auth/otp.service.ts:50-101 | Issues exactly when none was created in the last minute |
| OneTimeCodes.OtpStore.VerifyCode | src/modules/auth/otp.service.ts:107-139 | Outcome and new state of a verification, with the comparison it made |
| OneTimeCodes.IssuesAreSpaced | src/modules/auth/otp.service.ts:59-67 | With a clock that never runs back, codes are issued at least 60 seconds apart |
| OneTimeCodes.IssuedIff | src/modules/auth/otp.service.ts:58-88 | A code is created exactly when none was in the last 60 seconds, good for 5 attempts and 300 seconds |
| OneTimeCodes.EachCodeIsBounded | src/modules/auth/otp.service.ts:107-139 | Each code is compared at most five times and succeeds at most once |
| OneTimeCodes.AnswerIs | src/modules/auth/otp.service.ts:112-138 | After any run the answer is determined by the newest active row and the number of comparisons with it: four wrong codes are refused as wrong, from the fifth on every code as one too many |
| OneTimeCodes.NoActiveIff | src/modules/auth/otp.service.ts:112-115 | No code is active exactly when all are used, withdrawn or 300 seconds old |
| OneTimeCodes.VerifyChanges | src/modules/auth/auth-otp.repository.ts:44-50 | A comparison changes the newest active row only: the right code uses it up, a wrong one costs one attempt and leaves it active |
| OneTimeCodes.ComparisonsInWindow | src/modules/auth/otp.service.ts:107-139 | In any window of w milliseconds at most 5 * (floor((w + 299999) / 60000) + 1) codes are compared |
| OneTimeCodes.AcceptedIff | src/modules/auth/auth-otp.repository.ts:14-29 | A code is accepted if and only if it is that of the newest active row and attempts are left |
| OneTimeCodes.IssueWithdrawsItsChannel | src/modules/auth/auth-otp.repository.ts:52-68 | Issuing withdraws the earlier codes of its channel and of no other |
| OneTimeCodes.OlderCodeOfOtherChannelSurvives | src/modules/auth/auth-otp.repository.ts:52-68 | After the newer code was used, an older code of another channel is accepted too |

## Left out

- JoinOutcomes.LockedMoneyIsAccountedFor: requires a fresh idempotency key for every lock and free practice contests; without the first it is false (`JoinOutcomes.BalanceNeedsFreshKey`), the second is not enforced by the code
- JoinOutcomes.CancelledContestHoldsNothing: a rolled-back join whose refund failed or is still to come counts as money in flight
- JoinService.JoinStore.Join: the service method runs without interference on its contest; interleavings are covered by the protocol
- ContestSettlement.ContestStore.SettleContest: a claim that throws changes nothing and is no path of the method, and the last write of a failed attempt succeeds; a worker that dies before it is the crash step of `SettlementProtocol`
- DepositService.DepositStore.CreditAndLink: the write that marks a failed job FAILED succeeds; a job that dies before it is the crash step of `DepositProtocol`
- TeamProjection.FantasyTeamStore.Create: `pointsEarned` of a projection row, 0 at creation, is kept in `MatchScoring` only
- OneTimeCodes.OtpStore.VerifyCode: with one clock reading the check for an expired row after the search for an unexpired one cannot fire
- Lost acknowledgements of store writes: a write either happens and returns or throws without effect
- The per-user entry limit, which is counted outside the join transaction
- Entry statuses other than ACTIVE, REFUNDED and SETTLED, and the release of locked fees at settlement, which the code does not do
- Forced settlement while a contest is open, the unconditional save of the contest status, and admin edits of `totalSpots` racing with joins
- A status change to CANCELLED through the transition table, which starts no refund sweep, other than as a status change
- `payment.settlementId`, which a later capture clears, and the dead-letter status
- Top entries, winner rows, unique scores and durations of results and snapshots
- Movement columns of leaderboard pages, read from whichever history row the store returns first
- Redis errors, which turn reads into empty results and are swallowed on incremental writes
- Infinite statistics and floating-point drift
- Match status and lineup lock, which enter team changes as one flag
- Caches, queues, sockets, notifications, audit rows, risk checks, provider signatures, code generation and hashing
- Wallet balances by bucket, withdrawals, users, matches and players beyond what is named above
