# Verification of the betting backend

This project models the money-moving and table-cleaning logic of the betting backend in Dafny and
proves what that logic promises. Code that updates records in place is a class whose methods change
its fields; each such method is proved equal to a specification function of the state before it, and
the promises are proved about those functions, over all books, all batches and all histories.

`dafny verify dfyconfig.toml` checks the whole project.

## What is modelled

**Betting book.** Bets, odds rows, user balances and the transaction ledger form a `Book`
(`Records`). `Settlement` says what every settlement endpoint, the admin revert, the balance repair
and the manual adjustment do to it; `BettingDesk.Desk` is the imperative form. One method is one
request: it ends in the state its commit, or its rollback, leaves. Queries inside a loop see what the
loop has already closed, because the session flushes before it queries. Money and odds are exact
reals, instants are integers, `now` is a parameter.

- `Plans` and `Sweeps` bring the sweeps into closed form: a run realises a plan (bet by bet: open,
  won or lost), and two runs end alike exactly when their plans agree. From this follow order
  independence and the agreement of the match-driven and the user-driven sweep.
- `Agreement` says when the joined and the single-match settlement end like the sweep.
- `Once`, `Balances`, `Guard` and `Reverts` prove single settlement, conservation, ledger chaining
  and sync, the redundancy of the transaction guard, and when a revert undoes a settlement.
- `Runs` lifts them to histories, in any order: the settling endpoints, reverts, repairs,
  adjustments, deposits, withdrawals, new bets and their stakes, entries a client posts, match dates
  filled in, users registered and deleted, changing odds rows, and balance writes that leave no
  ledger entry. New bets are open and bring a new id, and a stake is a bet whose deduction is
  accepted. Beyond that two of these actions carry a condition, each the exact one: the joined
  settlement (`Once.JoinedKeepsOnceIff`) and the posted entry (`Runs.PostKeepsOnceIff`).
- `Statements` says what one user's ledger shows after such a history, `Summary` is the summary of
  that ledger, and `NetBalances` says how far summary and balance drift apart over every history,
  reverts included.
- `Pitfalls` holds concrete books on which the unguarded claims fail.

**Odds table.** `Ingest` is the scraper's insert with its exact-key update and near-duplicate skip,
`RowMerge` its per-page merge, `Cleanup` the pairwise removal of duplicate fixtures, `DateGaps` the
search for missing dates, `Scores` the two readers of a match result.

**Withdrawals.** `Withdrawals` has the request lifecycle over a wallet with available and reserved
funds, and the bets that lock their stakes in the same wallet; `WithdrawalRuns` has the histories of
both, `WithdrawalDesk.Desk` the withdrawal endpoints over mutable tables.

**Odds arithmetic and selection.** `OddsMath` (odds conversion, true probabilities, value bets),
`SureBets` (arbitrage), `Featured` (the capped featured list), `Luhn` (the card checksum).

## Where the code differs from what one would expect

Each of these is proved, with the exact condition under which the expected property holds.

- The joined settlement (`settle_finished_matches`) pays once per joined odds row, not once per bet.
  It keeps one entry per settled bet exactly when no open bet joins two rows with a readable result
  (`Once.JoinedKeepsOnceIff`; `Pitfalls.JoinedPaysTwice` is a book on which it pays twice).
- The match-driven sweep depends on the order of the odds rows exactly when two rows disagree about
  an open bet (`Sweeps.SweepOrderIndependentIff`, `Pitfalls.SweepOrderMatters`).
- The guarded per-user settlement credits the winner before it looks at the ledger. It agrees with
  the unguarded one exactly when no bet it would close has an entry already
  (`Guard.GuardedAgreesIff`), and books all it pays exactly when no open winner has one
  (`Balances.GuardedSweepBooksIff`). Both hold after every history that meets the two
  conditions of `Runs` (`Runs.GuardIsRedundantForever`).
- `POST /transactions` stores whatever entry a client sends. It keeps one entry per settled bet
  exactly when the entry is not itself a settlement entry of a betting record
  (`Runs.PostKeepsOnceIff`). `Pitfalls.PostedEntryHidesPayout` is an open winner with such an entry:
  the guarded settlement pays 20 and records nothing.
- The summary and the balance drift apart on a revert: it forgives the part of the winnings the
  balance no longer covers, and its correction entry is not counted
  (`NetBalances.SummaryForever`, `NetBalances.KeptByIsDebtsForgiven`).
- `update_match_result_and_settle` is modelled as its router has it, although main.py does not mount
  that router.
- The revert clamps a balance at zero but writes the unclamped amount into its correction entry
  (`Reverts.CorrectionExactIff`). Settling and reverting restores one user's balance exactly when it
  was not negative or nothing was won (`Reverts.BalanceReturnsIff`), and the whole book exactly when
  moreover every future bet was fresh, with a known user, and not settled before
  (`Reverts.SweepThenRevertRestoresIff`). `Pitfalls.RevertForgivesDebt` is a user who owes 5 before
  and nothing after.
- Recording a bet and deducting its stake are two requests. Recording first keeps ledger and balance
  together exactly when the deduction is accepted (`Statements.StakeInSyncIff`); deducting first
  leaves the ledger one stake below the balance (`Statements.EarlyDeductionInSyncIff`).
- A positive American quote is not undone by the converter, which takes every number from 1.01 up
  for decimal odds (`OddsMath.AmericanRoundTripIff`).
- `has_significant_gaps` speaks of gaps longer than 30 days; a range leaves out both neighbouring
  match days, so the neighbours must be more than 32 days apart (`DateGaps.HasSignificantGaps`).
- The clean-up window is not transitive: a row may be deleted although the survivor lies any number
  of days away (`Cleanup.DeletionCanLeaveTheWindow`). A group still keeps its best row, and a fixture
  with a result keeps one; but of two rows with different results the later result is lost
  (`Cleanup.LaterResultIsLost`).
- In `update_match_result_and_settle` and `settle_specific_match` the 404 and 400 errors are raised
  inside the try block and come out as 500; the model follows the code.

## Model

| member | source | states |
|---|---|---|
| Scores.ValidResultParses | app/routers/bulletproof_settlement.py:91-97 | after the validator, splitting and parsing the untrimmed text always succeeds, with both scores in range: the ValueError branch cannot be taken |
| Scores.NormalizedResultRoundTrips | dataanalytics/get_real_odds_oddsportal.py:1289-1303 | whatever the scraper's normaliser emits passes the settlement validator, parses back to the same score, and is a fixed point of the normaliser |
| Scores.ValidResultNormalizes | app/routers/bulletproof_settlement.py:18-29 | conversely, every result the validator accepts is one the normaliser turns into the rendering of the same score |
| Sweeps.PredictionDecides | app/routers/bulletproof_settlement.py:92-114 | from the stored text to the verdict: a score N-M in range closes a matching open bet as won exactly when the bet predicted the side that scored more, or the draw |
| BettingDesk.Desk.SettleOne | app/routers/match_result_update.py:183-297 | one settlement credits the winner, appends one entry with before and after balance, and closes the record; without a user only the record is closed |
| BettingDesk.Desk.SettleMatchBetsAutomatically | app/routers/match_result_update.py:126-309 | every unsettled bet of the match, by match id or exact team string, is settled once; the totals count them; an unparsable result settles nothing |
| BettingDesk.Desk.RunSettleAllFinished | app/routers/bulletproof_settlement.py:32-199 | the nested sweep over finished rows leaves the book and totals that SettleAllFinished prescribes |
| BettingDesk.Desk.UpdateMatchResultAndSettle | app/routers/match_result_update.py:44-123 | stores a valid result, settles only a match that has been played, and leaves everything alone on an error |
| BettingDesk.Desk.AutoSettleUserBets | app/routers/transactions.py:49-190 | the unguarded per-user sweep over the bets found open, with the two-step match look-up |
| BettingDesk.Desk.SettleOneGuarded | app/routers/betting_records.py:129-239 | credits first, then consults the ledger: no entry, one entry or several lead to a new entry, none, or a raise |
| BettingDesk.Desk.AutoSettleUserBetsGuarded | app/routers/betting_records.py:53-247 | the guarded per-user sweep; a raise leaves the committed state untouched |
| BettingDesk.Desk.SettleFinishedMatches | app/routers/betting_settlement.py:19-157 | settles every line of the join read up front, without looking at is_settled again |
| BettingDesk.Desk.SettleSpecificMatch | app/routers/betting_settlement.py:160-294 | settles one match by id or by both team names inside the bet's team string; error replies leave the book alone |
| BettingDesk.Desk.RevertOne | app/routers/admin.py:447-486 | deletes the bet's settlement entries, reclaims a payout down to zero with a correction entry, reopens the record; skips a bet without a user |
| BettingDesk.Desk.RevertFutureSettledBets | app/routers/admin.py:430-498 | reverts exactly the settled bets whose match date lies ahead and reports how many were selected |
| BettingDesk.Desk.FixUserBalanceSync | app/routers/admin.py:501-546 | 404 without the user; otherwise inserts one correction entry when the last entry is off by a cent or more |
| BettingDesk.Desk.AdjustUserFunds | app/routers/admin.py:698-743 | 404 without the user; otherwise moves the balance by the amount and records it |
| Plans.PicksRealise | app/routers/match_result_update.py:183-297 | settling any list of distinct open bets gives the records, balances and totals of the plan with those decisions laid over it |
| Plans.PlansDecide | app/routers/bulletproof_settlement.py:112-180 | two runs from the same records and balances end in the same records, balances and totals if and only if they decide every bet alike |
| Sweeps.SweepClosedForm | app/routers/bulletproof_settlement.py:52-182 | the sweep closes a bet exactly when some finished valid row matches it, as the first such row says; each balance grows by what is due to its user, and the two totals are the number of closed bets and the money paid |
| Sweeps.SweepOrderIndependentIff | app/routers/bulletproof_settlement.py:67-182 | every permutation of the finished matches gives the same outcome if and only if no two matching rows disagree about an open bet |
| Sweeps.AutoSettleAllRealises | app/routers/transactions.py:74-182 | settling any list of users in turn closes exactly the bets of those users that have a verdict, each once |
| Sweeps.SweepsAgreeIff | app/routers/bulletproof_settlement.py:67-180 | the match-driven sweep and the user-driven sweep over all users end alike if and only if their verdicts agree bet by bet |
| Sweeps.LinkedBetsSettleAlike | app/routers/transactions.py:74-182 | they do end alike when row ids are unique, each open bet names an existing row, its team string names no other, and every row with a valid result has been played |
| Once.SettlingKeepsOnce | app/routers/bulletproof_settlement.py:112-180 | settling an open bet keeps exactly one entry per settled bet and none per open bet, for the stake plus the recorded profit |
| Once.PicksKeepOnce | app/routers/match_result_update.py:183-297 | so does settling any list of distinct open bets |
| Once.SweepIsPicks | app/routers/bulletproof_settlement.py:67-180 | the nested sweep is one list of distinct open bets, even when several rows match a bet |
| Once.RevertsKeepOnce | app/routers/admin.py:443-486 | reverting any bets, settled or not, keeps one entry per settled bet and none per open bet |
| Once.JoinedEntries | app/routers/betting_settlement.py:29-138 | the joined settlement appends, for every bet, one entry for each joined row whose result parses |
| Once.JoinedKeepsOnceIff | app/routers/betting_settlement.py:29-138 | it keeps one entry per settled bet if and only if no open bet joins two rows with a readable result |
| Pitfalls.JoinedPaysTwice | app/routers/betting_settlement.py:29-138 | a bet without match id and two odds rows of its fixture: 20 are due, 40 are paid, with two entries |
| Agreement.JoinedClosedForm | app/routers/betting_settlement.py:29-138 | where no open bet joins two readable rows, the joined settlement closes exactly the bets the join decides, pays what is due and reports both totals |
| Agreement.JoinedLikeSweepIff | app/routers/betting_settlement.py:29-138 | there, without negative winnings, it ends like the match-driven sweep if and only if both decide every bet alike |
| Agreement.SpecificLikeMatchIff | app/routers/betting_settlement.py:182-275 | the single-match settlement ends like the sweep's settlement of that match if and only if both queries find the same open bets |
| Pitfalls.SweepOrderMatters | app/routers/bulletproof_settlement.py:67-182 | two rows of one fixture with opposite results: the first one met decides whether 20 or nothing is paid |
| Guard.GuardedAgreesIff | app/routers/betting_records.py:140-230 | the guarded and the unguarded per-user settlement leave the same records, balances and ledger if and only if no bet about to be closed has a settlement entry |
| Guard.GuardNeverFires | app/routers/betting_records.py:140-230 | wherever settled bets have one entry and open bets none, both agree: the guard never takes its other branches |
| Pitfalls.PostedEntryHidesPayout | app/routers/betting_records.py:140-230 | an open winner for whom a client has posted a settlement entry: the guarded settlement closes the bet and pays 20, and the ledger stays as it was |
| Balances.GuardedConserves | app/routers/betting_records.py:129-230 | on any keyed book the guarded run raises all balances by the bet_won amounts it appends and, on top, by the winnings of winners whose entry it found |
| Balances.GuardedSweepBooksIff | app/routers/betting_records.py:53-247 | a guarded run that did not raise books all the money it pays if and only if no open winner had an entry beforehand |
| Balances.PicksConserve | app/routers/bulletproof_settlement.py:127-150 | any settlement run raises all balances together, and the bet_won amounts of the ledger, by exactly the winnings total it returns, and only appends to the ledger |
| Balances.PicksKeepChain | app/routers/bulletproof_settlement.py:127-173 | settlement keeps a user's ledger chained: each entry starts where the previous one ended and moves by its amount |
| Balances.ChainedIsInSync | app/routers/admin.py:464-465 | on a chained ledger whose losses move nothing, the last entry shows the balance, and goes on doing so when losses are taken away |
| Balances.RevertingKeepsSync | app/routers/admin.py:447-486 | deleting a settlement from the middle of the ledger leaves every user's last entry in sync with the balance |
| Balances.RevertsKeepSync | app/routers/admin.py:443-486 | so does reverting any number of bets |
| Balances.RepairSyncs | app/routers/admin.py:507-546 | whatever was written before, the repair leaves the last entry within a cent of the balance, exactly on it when it inserts one, and never touches the balance |
| Balances.RepairIsQuiet | app/routers/admin.py:530-531 | a ledger in sync is left as it is |
| Reverts.CorrectionExactIff | app/routers/admin.py:462-482 | the correction entry accounts for the balance change if and only if the balance covered the winnings |
| Reverts.ReopenRestoresIff | app/routers/admin.py:483-487 | reopening a closed bet gives the record from before if and only if that was fresh and upcoming |
| Reverts.RevertsRealiseIff | app/routers/admin.py:447-486 | whichever settling endpoint closed them, reverting any settled bets takes exactly their decisions out of the realised plan, records and balances, if and only if each was closed by this run from a fresh record of a known user (or is passed over), and every payout taken back had been paid out in full and is covered by the balance at that moment |
| Reverts.RevertUndoesFutureIff | app/routers/admin.py:443-486 | settling through any endpoint and then reverting the future bets leaves records and balances as if only the other bets had been settled, for any number of bets per user, if and only if that holds of the bets the revert finds |
| Reverts.UserCoveredIff | app/routers/admin.py:465-466 | without negative winnings no payout of a user is clamped if and only if none is reclaimed or the balance without them is not negative |
| Reverts.BalanceReturnsIff | app/routers/admin.py:443-486 | whatever other users owe: a sweep that closed only future bets, then reverted, gives a user back the earlier balance if and only if it was not negative or no bet of the user won |
| Reverts.SweepThenRevertRestoresIff | app/routers/admin.py:443-486 | it gives back every record and every balance if and only if every future bet it touches was fresh, its user known, none was settled before, and no winner was in debt |
| Pitfalls.RevertForgivesDebt | app/routers/admin.py:465-466 | a winner who owed 5 owes nothing after settlement and revert |
| Runs.SettledOnceForever | app/routers/bulletproof_settlement.py:112-180 | over every history of settlements, reverts, repairs, adjustments, deposits, withdrawals, new bets, stakes, posted entries, filled match dates, users coming and going and table changes, a settled bet has exactly one settlement entry and an open one none, as long as no client posts a settlement entry and the joined settlement meets only bets that join at most one readable row |
| Runs.PostKeepsOnceIff | app/routers/transactions.py:192-211 | an entry posted by a client keeps one entry per settled bet if and only if it is not a bet_won or bet_lost entry that refers to a betting record |
| Runs.RemovalKeepsOnce | app/routers/admin.py:288-360 | deleting a user with all bets and entries leaves the others with one entry per settled bet and none per open one, and no settlement entry without its bet |
| Runs.GuardIsRedundantForever | app/routers/betting_records.py:140-230 | after every such history the guarded settlement does what the unguarded one does |
| Runs.SettlingIsPicks | app/routers/match_result_update.py:134-305 | every settling endpoint settles some list of picks: distinct open bets, for the joined settlement under its condition; for the guarded one in every book with one entry per settled bet |
| Runs.SettlingActionsConserve | app/routers/bulletproof_settlement.py:127-150 | for every settling endpoint, the guarded one where settled bets have one entry: rise of all balances, rise of the bet_won total and winnings counted are one number |
| Statements.InSyncForever | app/routers/admin.py:464-482 | after every history of stakes, deposits, withdrawals, settlements, reverts, repairs and adjustments the last ledger entry of a user shows the balance |
| Statements.StakeInSyncIff | app/services/transaction_service.py:119-140 | recording a bet and then deducting its stake leaves ledger and balance together if and only if the deduction is accepted or the stake is zero |
| Statements.EarlyDeductionInSyncIff | app/routers/auth.py:585-608 | deducting first and recording the bet afterwards leaves them together if and only if the stake is zero |
| Statements.SettlingActionKeepsChain | app/routers/bulletproof_settlement.py:127-173 | every settling endpoint, the guarded one where settled bets have one entry, keeps each user's ledger chained from its opening to its current balance |
| Statements.RevertOfChainedIsInSync | app/routers/admin.py:443-486 | from a chained ledger with zero-amount losses, the revert leaves each user's last entry in sync although it deletes entries in the middle |
| Statements.AccountsForever | app/services/transaction_service.py:41-61 | through every history without a revert, stakes, deposits and withdrawals included, a user's ledger stays chained from the opening balance to the balance held, and what the summary does not count grows by the manual adjustments only |
| Statements.EmptyAccounts | app/services/transaction_service.py:41-61 | a user without entries meets its premise: opening balance the balance held, nothing uncounted |
| Statements.AccountsSum | app/routers/transactions.py:281-286 | on such a ledger the net balance shown is the balance held less the opening balance and the uncounted amounts |
| Summary.SummaryTelescopes | app/routers/transactions.py:281-286 | on a chained ledger of completed entries the summary's net balance is the closing balance less the opening balance and less the entries it does not count |
| Summary.NetBalanceIsBalanceIff | app/routers/transactions.py:281-286 | it is the real balance if and only if opening balance and uncounted entries cancel |
| Summary.SummaryFromZero | app/routers/transactions.py:281-286 | chained from zero with deposits, withdrawals, stakes and settlements only, it is the last balance_after |
| NetBalances.SummaryForever | app/routers/transactions.py:281-286 | over every history, reverts and posted entries included, the balance of a user who stays less the net balance shown moves by exactly the manual adjustments, the debts reverts forgave, and what bet records, deductions, direct writes and posted entries leave one-sided; settling, deposits, withdrawals, stakes and repairs do not move it |
| NetBalances.KeptByIsDebtsForgiven | app/routers/admin.py:447-486 | where settled bets have one entry and no negative winnings, what a revert adds to that difference is, winner by winner, the part of the winnings the balance at that moment does not cover |
| Cleanup.OddsTable.CleanupDuplicates | scripts/cleanup_duplicate_matches.py:21-100 | deletes the loser of every duplicate pair, unless it is a dry run or some betting record points at a loser; reports how many rows went |
| Cleanup.SurvivesIff | scripts/cleanup_duplicate_matches.py:25-76 | a row survives if and only if no duplicate of it is better: has a result where it has none, or else is earlier |
| Cleanup.NoDuplicatesSurvive | scripts/cleanup_duplicate_matches.py:35-41 | no two surviving rows of a fixture have different dates at most two days apart |
| Cleanup.CleanupIsIdempotent | scripts/cleanup_duplicate_matches.py:95-98 | a second clean-up deletes nothing |
| Cleanup.ClimbToSurvivor | scripts/cleanup_duplicate_matches.py:53-76 | from every row a finite chain of ever better duplicates reaches a survivor |
| Cleanup.GroupKeepsBest | scripts/cleanup_duplicate_matches.py:53-76 | the best row of every connected group survives |
| Cleanup.GroupHasSurvivingBest | scripts/cleanup_duplicate_matches.py:53-76 | every row is connected to a survivor that no row of its group beats |
| Cleanup.ResultsSurvive | scripts/cleanup_duplicate_matches.py:57-70 | a row with a result survives, or an earlier row of its fixture with a result, perhaps another one, survives in its place |
| Cleanup.LaterResultIsLost | scripts/cleanup_duplicate_matches.py:63-70 | of two duplicates with results only the earlier row survives, whatever the later one says |
| Cleanup.DeletionCanLeaveTheWindow | scripts/cleanup_duplicate_matches.py:35-41 | of n undecided rows two days apart each, only the first survives, any distance from the last |
| Ingest.OddsTable.Ingest | dataanalytics/get_real_odds_oddsportal.py:1333-1484 | checks every row against the table as updated so far, fills in columns of exact matches, and inserts what is new and not held back |
| Ingest.CheckAbsorbs | dataanalytics/get_real_odds_oddsportal.py:1418-1453 | each stored row takes over the non-null columns of the batch row with its key and nothing else changes |
| Ingest.IngestKeepsKeysUnique | dataanalytics/get_real_odds_oddsportal.py:1351-1378 | a batch with distinct keys keeps match keys unique |
| Ingest.IngestNeverForgets | dataanalytics/get_real_odds_oddsportal.py:1420-1427 | whatever the batch, stored rows keep their key and no stored result, odd or bookmaker count turns back to null |
| Ingest.StillHeldBack | dataanalytics/get_real_odds_oddsportal.py:1380-1416 | a row skipped as a near duplicate is skipped by the final table as well |
| Ingest.IngestIsIdempotent | dataanalytics/get_real_odds_oddsportal.py:1333-1484 | ingesting the same batch with distinct keys a second time leaves the table unchanged |
| RowMerge.KeptAreFirstBest | dataanalytics/get_real_odds_oddsportal.py:1111-1114 | replacing only by strictly better rows keeps, for each named match, the first among its most complete rows |
| RowMerge.MergeRows | dataanalytics/get_real_odds_oddsportal.py:1093-1116 | the merged rows of a page are exactly those |
| DateGaps.GetMissingDateRanges | dataanalytics/get_real_odds_oddsportal.py:1221-1251 | the loop over neighbouring dates collects the inside of every gap of more than ten days |
| DateGaps.RangesCoverWideGaps | dataanalytics/get_real_odds_oddsportal.py:1238-1249 | a day lies in some range if and only if it lies strictly between neighbouring dates more than ten days apart |
| DateGaps.RangesAvoidDates | dataanalytics/get_real_odds_oddsportal.py:1238-1249 | no existing date lies in a range |
| DateGaps.RangesAreOrdered | dataanalytics/get_real_odds_oddsportal.py:1238-1249 | the ranges are non-empty, sorted and disjoint |
| DateGaps.HasSignificantGaps | dataanalytics/get_real_odds_oddsportal.py:1253-1266 | true if and only if two neighbouring dates are more than 32 days apart |
| WithdrawalDesk.Desk.LockFunds | app/services/wallet_service.py:185-240 | moves a positive covered amount from available to reserved with one entry, and refuses anything else without a trace |
| WithdrawalDesk.Desk.UnlockFunds | app/services/wallet_service.py:243-298 | the way back, under the same conditions on the reserved side |
| WithdrawalDesk.Desk.InitiateWithdrawal | app/routers/withdrawals.py:68-263 | all checks in the code's order; an accepted request stores a pending intent and locks its amount, any refusal leaves no trace; the bank stays sound and no total moves |
| WithdrawalDesk.Desk.CancelWithdrawal | app/routers/withdrawals.py:550-608 | 404, 409, a repeated cancel, or unlock and status change; the bank stays sound, no total moves, and success means cancelled |
| WithdrawalDesk.Desk.AdminApproveWithdrawal | app/routers/withdrawals.py:666-720 | only a pending intent becomes approved; funds do not move and the bank stays sound |
| WithdrawalDesk.Desk.AdminRejectWithdrawal | app/routers/withdrawals.py:723-785 | only a pending intent becomes rejected, its amount unlocked; the bank stays sound and no total moves |
| WithdrawalRuns.UnlockNeverFails | app/routers/withdrawals.py:585-597 | in a sound bank the unlock of an open intent succeeds: the swallowed ValueError is unreachable |
| WithdrawalRuns.SoundForever | app/routers/withdrawals.py:194-235 | over every history of withdrawal requests, bets, credits and debits no available balance turns negative, reserved funds cover all pending and approved intents and all open bets, each intent is locked once, and unlocked once exactly when cancelled or rejected |
| WithdrawalRuns.RunConserves | app/routers/withdrawals.py:194-235 | over every history available plus reserved changes by credits, debits and the results of bets only, and the reserved side moves exactly with the open intents and the open bets |
| WithdrawalRuns.StakeIsReserved | app/services/bet_service.py:220-295 | in a sound bank the reserve covers the stake of each open bet, so settling or cancelling it cannot fail for want of reserved funds |
| WithdrawalRuns.SettleStakeConserves | app/services/bet_service.py:207-305 | settling an open bet of a sound bank always succeeds: a win adds the profit to the user's total, a loss takes the stake off it, a void bet moves nothing, and what is reserved beyond open intents and bets stays |
| WithdrawalRuns.IntentsOnlyAdvance | app/routers/withdrawals.py:574-583 | intents keep everything but their status, and leave pending at most once |
| WithdrawalRuns.RetryLocksNothing | app/routers/withdrawals.py:90-122 | repeating a non-empty client request id at any later time returns the first intent and changes nothing |
| Luhn.ValidateCardLuhn | app/routers/payments.py:555-578 | the index loop accepts exactly the 13 to 19 digit numbers whose weighted digit sum is divisible by ten |
| Luhn.SingleErrorDetected | app/routers/payments.py:564-578 | no change of a single digit of a valid number is accepted |
| Luhn.AdjacentSwapPassesIff | app/routers/payments.py:564-578 | swapping two different neighbours of a valid number is accepted if and only if they are 0 and 9 |
| Luhn.CheckDigitUnique | app/routers/payments.py:564-578 | every payload of 12 to 18 digits has exactly one check digit |
| OddsMath.DecimalOddsExceedOne | app/routers/odds.py:29-56 | the converter returns more than 1 for every input |
| OddsMath.AmericanRoundTripIff | dataanalytics/predict.py:122-129 | for odds above 1, rounding to American odds and converting back is within 1/200 if and only if the odds are below 2 |
| OddsMath.EstimateTrueProbabilities | app/routers/odds.py:344-423 | from team, league and country names the sequence of adjustments computes the tilts of the first league pattern that fits and of a big team against a small one, normalised |
| OddsMath.AdjustedIsDistribution | app/routers/odds.py:344-423 | the adjusted probabilities are positive, sum to 1, and none exceeds its fair probability by more than 1.22364/0.833 |
| OddsMath.FairIsDistribution | app/routers/odds.py:265-278 | dividing out the margin of any positive odds gives positive probabilities that sum to 1 |
| OddsMath.BestValueBound | app/routers/odds.py:290-304 | for any three odds the best expected value is at least 1/total_implied - 1 |
| OddsMath.ValueBetsHold | app/routers/odds.py:290-305 | a bet is listed if and only if it is the best bet of some offer and reaches the threshold |
| OddsMath.LowMarginIsListed | app/routers/odds.py:257-328 | an offer whose margin alone leaves the threshold is always listed |
| OddsMath.FindValueBets | app/routers/odds.py:257-328 | the loop lists those bets, each offer once, in the order of the offers |
| SureBets.BestPaysIff | app/routers/odds.py:563-572 | the best odds per outcome give an arbitrage with the asked profit if and only if some choice of one row per outcome does |
| SureBets.StakesAreEven | app/routers/odds.py:577-581 | the stakes sum to 100 and every outcome pays the same return |
| SureBets.ReturnExceedsStake | app/routers/odds.py:566-581 | below an implied sum of 1 that return exceeds 100 |
| SureBets.FindSureBets | app/routers/odds.py:552-602 | a fixture is listed if and only if its rows hold such an arbitrage, once; every item quotes the highest odds per outcome, has even stakes, a return above 100 that exceeds the stake by its profit, and at least the asked profit |
| Featured.GetFeaturedMatches | app/routers/odds.py:814-873 | the loops build the list Select describes: capped featured, capped others, fill-up, date order, cut |
| Featured.SelectionFillsTheLimit | app/routers/odds.py:861-873 | exactly min(limit, fetched) rows come back, all fetched, no id twice |
| Featured.CombinedIsCapped | app/routers/odds.py:828-862 | for each country and kind the capped list holds exactly the first two rows fetched of it, or all there are, and counts them right |
| Featured.CappedAreEarliest | app/routers/odds.py:832-835 | from rows fetched in date order, the rows of each country and kind in the capped list start no later than any row of that kind it leaves out |
| Featured.SelectionIsVaried | app/routers/odds.py:828-862 | when the capped rows reach the limit, no country shows more than two featured and two other rows |
| Featured.SelectionKeepsCapped | app/routers/odds.py:865-873 | otherwise the answer is all capped rows and the first remaining fetched rows that fit, in date order |
| Featured.FillIsEarliest | app/routers/odds.py:865-872 | from rows fetched in date order the rows that fill up are the earliest of those that remain |

## Left out

- Floating point, NUMERIC(15,2) rounding and display rounding: money, odds and probabilities are exact reals.
- Column widths: a result longer than its VARCHAR(10) column would be refused by the database.
- Time zones, and ties in created_at: the ledger is in insertion order, instants are integers.
- Text beyond ASCII: strip and lower follow ASCII; int() takes blanks, one sign and digits, not underscores or other scripts' digits; LIKE has its wildcards but not the backslash escape.
- The order in which the database returns rows without ORDER BY is table order; for the sweep it is proved not to matter exactly when the rows agree.
- The guarded settlement swallows its exception without a rollback; the model ends the request there, with nothing committed.
- Concurrent requests: every endpoint is one atomic step.
- Affiliate commissions, e-mails, description texts, settlement_details and printed counters.
- Scripts that edit bets, balances or entries directly in the tables are not actions of Runs.
- Statements.InSyncForever: excludes bet records without their deduction, deductions without a record, and direct balance writes of that user, because the code itself moves ledger and balance apart there; Statements.StakeInSyncIff and Statements.EarlyDeductionInSyncIff say what each order of the two requests leaves.
- Statements.AccountsForever: excludes reverts, which delete entries from the middle of the chain; Statements.RevertOfChainedIsInSync says what remains.
- NetBalances.SummaryForever: follows a user who stays; the account of a deleted user is gone.
- Reverts.BalanceReturnsIff: asks for non-negative winnings of the planned winners, as does Reverts.SweepThenRevertRestoresIff; Reverts.RevertUndoesFutureIff does not.
- Of the deposits and withdrawals that book an entry and move the balance in one request, one of each stands for all (app/routers/auth.py:535-556 without its rate limit, app/routers/payments.py:478-527 for the crypto method).
- Ingest.IngestIsIdempotent: takes batches whose results come out of the normaliser, which never emits an empty text.
- OddsMath.FindValueBets: before sorting, rounding and the limit; a missing country, on which the code raises, is not modelled.
- SureBets.FindSureBets: before sorting, rounding and paging, over the at most 2000 rows the query returns.
- Featured.GetFeaturedMatches: rows carry their sort key; a mix of rows with and without a time, on which the sort raises, is not modelled, nor are the league sets behind the featured flag.
- OddsMath.AmericanRoundTripIff: odds of exactly 1 divide by zero in the code and are excluded.
- Withdrawal execution and retry on the chain, daily limits bookkeeping, idempotency keys, fees, addresses (their verdict is a parameter), notes and timestamps.
- Bets of the internal wallet: what match and odds checks say is a parameter; selections, payout columns and the relabelled entry types (BET_LOCK and the like) are left out.
- Creating an empty wallet row on first look: a missing wallet counts as an empty one.
- Reading pages with the browser driver, parsing cells into columns, and NULL key columns in ingest.
- remove_all_duplicates, scripts/revert_future_settled_bets.py (the same steps as the admin revert), commission approval, payments, authentication, model training: not part of this model.
