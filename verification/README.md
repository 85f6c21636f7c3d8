# OpenTraFi: deriving holdings, balances and history

OpenTraFi keeps a transaction log and a cash ledger and derives everything else from them. This project models
that derivation and proves what it keeps.

- **Lots and projection** (`Lots`, `Projection`, `HoldingState`): the FIFO fold of one security's log, its sort
  key, its cost basis, and how far the lot total can drift from the log.
- **Books and requests** (`Tables`, `Bookkeeping`, `CashLedger`, `CashAccounts`, `TradeDesk`): one user's accounts,
  ledger entries, transfers, settlements, transactions and holdings, and the fifteen requests that change them (runs
  add the backfill of a rebuild). Each request is a method on a `Session`, written step by step as the service does it (only the touched balances are
  recomputed), and is proved to meet a specification in which every balance simply is the sum of its entries. A
  refused request leaves the committed books as they were.
- **What a request leaves behind** (`LedgerResults`, `TradeResults`, `LogResults`): when each request is accepted, and
  the rows, entries and balances afterwards, in terms of the fields it was given, rates, prices and queues of units.
- **Invariants over runs** (`LedgerInvariant`, `TradeInvariant`, `Runs`, `HoldingView`, `LogReplay`, `Equivalences`,
  `Exceptions`): the ledger invariant, the materialised holdings, dates, logs that replay, which requests undo or
  replace each other, and concrete histories on which they do not.
- **History** (`HourGrid`, `SetSums`, `CashHistory`, `PortfolioHistory`, `PortfolioCurve`, `ReturnHistory`,
  `LiveState`, `Rebuild`): the one-pass sweeps over hours against a direct definition of every hour, their end point,
  and the rebuild from a session's rows, which first gives every holding without a log its opening BUY.
  `CurveResults` and `ReturnResults` say what a point of the direct definition is worth.
- **Idempotency** (`Idempotency`): load, act, store and commit as interleaved steps of concurrent requests.
- **Runtime state** (`RuntimeCodec`, `RedisDict`): the tagged JSON codec and the dictionaries kept in Redis.
- **Dashboard** (`Timeline`, `Corrections`): collapsing snapshots into buckets, and correcting single points.

Conventions. A stored decimal is an integer number of 1e-8 units, so the epsilon of every comparison is one unit;
products and quotients are exact until the source quantizes them (half away from zero), and Python's 28-digit
context is not modelled. Days and hours are integers in a fixed UTC+8 zone: day d begins at hour 24*d - 8. Exchange
rates and quotes are constant within one request and come with its environment. Payloads arrive as the request
schemas leave them: quantized, with choices in canonical form. The books are those of one user; rows of other users
are rows that are not there.

## What does not hold, and exactly when it does

- **A SELL does not conserve the lot total.** Comparisons allow one unit, so selling 3 units from a lot of 4 empties
  it. Exact conservation holds if and only if no lot ends one unit before or after the quantity sold
  (`SellConservesIff`, `ConservationFails`). Over a run the error is at most one unit per SELL (`DriftIsBounded`).
- **An idempotency key can take effect twice.** Storing a key overwrites a row that another request committed after
  this one had loaded (`OverlapRepeats`). A key of a scope with one commit has at most one effect if and only if the
  schedule has no such overlap: a load that finds nothing, then another request's commit of the key, then the first
  request's store and commit (`AtMostOnceIff`). Under every schedule each success and each replay has the payload
  hash and the response of a committed effect; without an overlap they are all the same (`AllSuccessesAgree`).
- **Creating a holding transaction commits its effect before its key**, so a crash in between lets the retry take
  effect again (`CrashRepeats`). With one request at a time on a key its effects are exactly those of the requests
  that died between their commits, and one more if there is a row or one is on its way (`EffectsWhenExclusive`); it
  takes effect at most once if and only if none died there, or one did and nothing has been committed since
  (`AtMostOnceWhenExclusive`). Under every schedule it does if and only if no request that found nothing commits its
  effect after another one has (`AtMostOnceOfTwoCommits`).
- **A holding row can disagree with its log.** `update_holding` puts a row back when the log with the correction in it
  projects to nothing (`CorrectionCanLeaveStaleRow`), and `create_holding` writes a row without looking at older ones
  (`EnteringTwiceLeavesTwoRows`). The view is kept if and only if the request is neither of these, which can be told
  beforehand (`HandleKeepsView`). The logs themselves replay in every reachable state (`EveryLogReplays`).
- **Deleting a trade just created does not always restore everything.** It always succeeds, and always restores
  accounts, balances, entries, transfers, settlements and the rows of other securities (`DeleteUndoesCreate`). The log
  comes back if and only if the holding did not first need an opening BUY (`UndoingATradeCanLeaveABaseline`), and what
  the holding shows if and only if it agreed with its log, that BUY included (`UndoingATradeCanMergeRows`).
- **Updating a transfer is not always deleting it and creating it again.** An update that names no field checks nothing
  (`EmptyUpdateAcceptsWhatCreationRefuses`). The two decide alike if and only if some field is named or the stored
  transfer would still be accepted: not dated ahead, the source account not below zero, its target amount within one
  unit of today's conversion (`UpdateIsDeleteThenCreate`).
- **The cash curve does not always end at the stored balance.** The start day of an account is not compared with
  today, so its opening entry can lie ahead (`FutureOpeningIsNotShown`). The two agree if and only if the opening
  entry has come into effect or is zero (`CashEndsLive`).
- **Deleting a holding does not undo its purchases' cash side**: exactly the settled trades that are no SELL leave
  their entry in the ledger (`DeleteHoldingLeavesFunding`, `FundingCanOutliveItsHolding`).
- **A value that contains a dictionary with a `__type__` marker does not survive the runtime codec**
  (`MarkedDictIsLost`); every other value does, so the round trip holds if and only if there is none (`RoundTrip`).
- **A Redis dictionary's length counts rows it cannot read** (`LengthIsSizeExactlyWhen`,
  `UnreadableRowIsCounted`).
- **The price before the first known one need not be the earliest known price**: without a fallback it is the smallest
  (`DefaultCanBeALaterPrice`). It is the earliest if and only if a positive fallback equals it, or there is none and no
  known price is smaller (`DefaultIsEarliestExactlyWhen`).

## Model

| member | source | states |
|---|---|---|
| Fixed.NearestIsUnique | backend/app/fixed_precision.py:40-41 | quantizing has one admissible result, the nearest multiple with ties away from zero, and `RoundDiv` is it |
| Lots.ApplyIsQueueStep | backend/app/services/holding_projection_parts/state.py:93-160 | lots encode a queue of dated, priced units: BUY appends q units, ADJUST replaces the queue, SELL drops the first k units with k within one of q, and is refused exactly beyond the total plus one unit |
| Lots.SellFromQueue | backend/app/services/holding_projection_parts/state.py:132-160 | the FIFO loop takes an exact number of units from the head of the queue, one fewer or one more than asked exactly when a lot ends there |
| Lots.SellConservesIff | backend/app/services/holding_projection_parts/state.py:132-160 | a SELL takes exactly its quantity if and only if no lot ends one unit away from it |
| Lots.ConservationFails | backend/app/services/holding_projection_parts/state.py:132-160 | selling 3 of a lot of 4 units leaves nothing |
| HoldingState.ProjectedState.ApplyTransaction | backend/app/services/holding_projection_parts/state.py:93-160 | the in-place step, with its loop over the lots, computes the lots of the pure step and refuses when it does |
| HoldingState.ProjectState | backend/app/services/holding_projection_parts/state.py:162-187 | the projection loop returns the projection of the log: rejected, empty, or held with its lots |
| Projection.ProjectIgnoresRowOrder | backend/app/services/holding_projection_parts/state.py:29-47 | for rows with distinct ids the order of the input does not matter: same lots or same rejection |
| Projection.SortedIsUnique | backend/app/services/holding_projection_parts/state.py:39-47 | the four-part key orders distinct rows in exactly one way |
| Projection.DriftIsBounded | backend/app/services/holding_projection_parts/state.py:93-160 | after any accepted log the lot total is within one unit per SELL of last ADJUST plus BUYs minus SELLs, and every lot is above epsilon |
| Projection.RejectedExactlyWhen | backend/app/services/holding_projection_parts/state.py:150-158 | a log is refused if and only if some SELL exceeds what the transactions before it leave by more than one unit |
| Projection.SortedReplay | backend/app/services/holding_projection_parts/state.py:134 | in sorted replay lots stay in date order, so the sort inside SELL is the identity, and every lot stems from a BUY or ADJUST since the last ADJUST |
| Projection.StartIsHead | backend/app/services/holding_projection_parts/state.py:55-58 | the start day of date-ordered lots is that of the head lot |
| Projection.CostBasisWithin | backend/app/services/holding_projection_parts/state.py:60-73 | the quantized cost basis of priced lots lies within any bounds on their prices |
| Projection.CostBasisOfRun | backend/app/services/holding_projection_parts/state.py:60-73 | over a sorted run the basis exists exactly when all live lots are priced, and lies within the prices since the last ADJUST |
| Projection.CostBasisIsMean | backend/app/services/holding_projection_parts/state.py:60-73 | the basis exists exactly when every unit of the queue has a price and they cost something, and is the unit nearest to the mean of those prices |
| Projection.SameDayOrder | backend/app/services/holding_projection_parts/state.py:29-47 | in replay order purchases of a day come before its sales and those before its adjustments, and within a side the earlier recorded one first |
| CashLedger.SumLedger | backend/app/services/holding_projection_parts/cash_ledger.py:93-110 | the loop returns the sum of the account's entries, leaving out the excluded one |
| CashLedger.SyncBalance | backend/app/services/holding_projection_parts/cash_ledger.py:112-125 | sets one balance to the sum of its entries and changes nothing else |
| CashLedger.CreateEntry | backend/app/services/holding_projection_parts/cash_ledger.py:127-153 | appends one entry under the next key |
| CashLedger.DeleteSelected | backend/app/services/holding_projection_parts/cash_ledger.py:195-227 | removes exactly the entries that match, keeping the order of the others |
| CashLedger.ReconcileOpening | backend/app/services/holding_projection_parts/cash_ledger.py:155-193 | creates or rewrites the opening entry so that the account comes to the target, and moves no other balance |
| CashAccounts.CreateAccountRequest | backend/app/services/cash_account_service.py:227-262 | commits the account with its opening entry |
| CashAccounts.UpdateAccountRequest | backend/app/services/cash_account_service.py:264-320 | commits the edited account reconciled to its target, or refuses a currency change once there are other entries |
| CashAccounts.DeleteAccountRequest | backend/app/services/cash_account_service.py:322-402 | removes the account, both legs of its transfers, its settlements with their entries and its own entries, and rebalances the other accounts |
| CashAccounts.CascadeMeets | backend/app/services/cash_account_service.py:76-138 | collecting and resyncing only the counterpart accounts gives the balances of the whole cascade |
| CashAccounts.CreateAdjustmentRequest | backend/app/services/cash_account_service.py:429-501 | commits one manual entry and the new balance, or fails without effect |
| CashAccounts.UpdateAdjustmentRequest | backend/app/services/cash_account_service.py:503-568 | commits the rewritten manual entry and balance, or fails without effect |
| CashAccounts.DeleteAdjustmentRequest | backend/app/services/cash_account_service.py:570-611 | commits the removal of one manual entry, or fails without effect |
| CashAccounts.CreateTransferRequest | backend/app/services/cash_account_service.py:632-765 | commits the transfer, its two signed legs and both balances, or refuses for date, accounts, currency, funds or conversion |
| CashAccounts.UpdateTransferRequest | backend/app/services/cash_account_service.py:767-940 | lifts the old legs, checks and writes the merged transfer, and resyncs up to four accounts, or fails without effect |
| CashAccounts.DeleteTransferRequest | backend/app/services/cash_account_service.py:942-999 | commits the removal of the transfer and its legs, with both balances |
| Bookkeeping.ConvertedIsWorth | backend/app/services/holding_projection_parts/cash_ledger.py:34-56 | converting yields the amount itself within a currency and otherwise the one unit nearest to amount times rate; without a rate there is none |
| CashAccounts.ResolveTargetAmount | backend/app/services/cash_account_service.py:200-225 | accepts exactly what is within one unit of the nearest amount at the rate, keeps what the user gave, and is never farther than 1.5 units from amount times rate |
| LedgerResults.CreatedAccount | backend/app/services/cash_account_service.py:227-262 | a created account has the fields of the form and the requested balance, one opening entry for all of it on its start day, and no other account changes |
| LedgerResults.UpdatedAccount | backend/app/services/cash_account_service.py:264-320 | an updated account has the given fields and the requested balance; its opening entry takes up the difference and no other entry or account changes |
| LedgerResults.DeletedAccount | backend/app/services/cash_account_service.py:322-402 | exactly the transfers that touch the account, the settlements on it, and their entries and its own go; everything else survives |
| LedgerResults.CreatedAdjustment | backend/app/services/cash_account_service.py:429-501 | accepted exactly for a known account and no day ahead; one manual entry is added and one balance moves by it |
| LedgerResults.UpdatedAdjustment | backend/app/services/cash_account_service.py:503-568 | one manual entry takes the amount and day that are given and its account moves by the difference |
| LedgerResults.DeletedAdjustment | backend/app/services/cash_account_service.py:570-611 | an entry can be deleted exactly when it is an unlinked adjustment; it alone goes and its account loses its amount |
| LedgerResults.CreatedTransfer | backend/app/services/cash_account_service.py:632-765 | accepted exactly when not dated ahead, between two accounts and into CNY, covered up to a unit, and with a target amount within a unit of the worth; the stored row has those fields and the two balances move by its amounts |
| LedgerResults.UpdatedTransfer | backend/app/services/cash_account_service.py:767-940 | every field given as non-null is taken and every other kept; the target amount is the one given, or the stored one if neither account nor source amount is named, or the worth; each balance gets back what the old transfer moved and moves what the new one does |
| LedgerResults.DeletedTransfer | backend/app/services/cash_account_service.py:942-999 | the row and its two legs go, and each balance gets back what they moved |
| TradeDesk.SyncHolding | backend/app/services/holding_projection_parts/repository.py:285-342 | keeps one row of the security, drops duplicates, and writes the projection into it, removes it or adds it |
| HoldingView.WrittenRowShowsQueue | backend/app/services/holding_projection_parts/repository.py:285-342 | whatever rows the security had, the row written shows the queue its log leaves: its units, the day of the first, their mean price, and the currency of the last effective transaction |
| TradeDesk.SettleTrade | backend/app/services/holding_projection_parts/settlements.py:447-593 | the cash side of a trade: nothing, a new account, an inflow or a funded outflow, or a refusal |
| TradeResults.SettlementMovesWorth | backend/app/services/holding_projection_parts/settlements.py:101-593 | settling succeeds exactly when the account exists, the worth is known and a purchase is covered up to a unit; the gross is the unit nearest to quantity times price, its worth in the account's currency is credited or debited there in one entry, and no other balance moves |
| TradeDesk.ReverseSettlement | backend/app/services/holding_projection_parts/settlements.py:356-445 | removes the settlement and its entry, rebalances, and removes an account opened by the sale once nothing else is on it |
| TradeResults.ReversalTakesBack | backend/app/services/holding_projection_parts/settlements.py:356-445 | exactly the settlement and its entry go, the account loses or gets back the amount, and it closes exactly when a sale opened it, at most a unit is left and nothing else was booked on it |
| TradeDesk.CreateTransactionRequest | backend/app/services/holding_transaction_service.py:456-651 | commits the log row, the baseline if one is missing, the projection and the cash side together, or fails without effect |
| TradeDesk.UpdateTransactionRequest | backend/app/services/holding_transaction_service.py:653-854 | commits the merged trade with its cash side reversed and settled anew, or fails without effect |
| TradeDesk.DeleteTransactionRequest | backend/app/services/holding_transaction_service.py:856-903 | commits the removal of the trade, its cash side and the new projection, or fails without effect |
| TradeDesk.CreateHoldingRequest | backend/app/services/holding_transaction_service.py:117-159 | commits a row entered by hand with a log of one opening BUY |
| TradeDesk.UpdateHoldingRequest | backend/app/services/holding_transaction_service.py:161-325 | commits the correcting ADJUST and the projection, putting a removed row back |
| TradeDesk.DeleteHoldingRequest | backend/app/services/holding_transaction_service.py:327-372 | commits the removal of the row and its log, with the cash side of its sales reversed |
| LogResults.BaselineIsOpeningBuy | backend/app/services/holding_projection_parts/repository.py:174-206 | a security with a row and no log gets one opening BUY of its oldest row, with that row's units, positive cost or no price, currency and start day; otherwise nothing happens |
| LogResults.CreatedTrade | backend/app/services/holding_transaction_service.py:456-651 | accepted exactly when the trade is not dated ahead, whole, offered with its plan, covered by the queue up to a unit, priced as given or quoted, replayable and can be settled; it then is the one new row of the log, with those fields |
| LogResults.UpdatedTrade | backend/app/services/holding_transaction_service.py:653-854 | accepted exactly when the patch asks for nothing of the other side, no day ahead and whole shares, the edited log replays and the cash can be settled anew; the edited trade takes exactly the given fields, and its cash goes the way that was named or as before |
| LogResults.DeletedTrade | backend/app/services/holding_transaction_service.py:856-903 | accepted exactly when the log replays without the trade; its cash is taken back, its row alone leaves the log, and the holding shows what is left |
| LogResults.EnteredHolding | backend/app/services/holding_transaction_service.py:117-159 | refused exactly for a day ahead or partial shares; the row has the fields of the form, one opening BUY replaces the log, its settlements go, and the ledger stays |
| LogResults.CorrectedHolding | backend/app/services/holding_transaction_service.py:161-325 | accepted exactly when the ADJUST with the named or shown quantity and cost, in place of the earliest trade if that is not before the start day and added otherwise, leaves a log that replays and a row to show it or to put back |
| LogResults.DeletedHolding | backend/app/services/holding_transaction_service.py:327-372 | the row, the log and its settlements go, only entries of its sales and accounts they opened with them, and every other row, log and settlement survives |
| LedgerInvariant.AccountHasRequestedBalance | backend/app/services/cash_account_service.py:227-320 | creating or updating an account leaves it with the balance that was asked for |
| LedgerInvariant.OpeningMovesOneBalance | backend/app/services/holding_projection_parts/cash_ledger.py:155-193 | reconciling reaches the target and moves no other balance |
| LedgerInvariant.TransferAccountsExist | backend/app/services/cash_account_service.py:767-800 | in books that keep the invariant both accounts of a transfer exist and the target is in CNY |
| LedgerInvariant.SettlementAccountExists | backend/app/services/holding_projection_parts/settlements.py:356-445 | the account of a settlement exists and has its currency |
| LedgerInvariant.PlaceTransferKeeps | backend/app/services/cash_account_service.py:632-765 | writing the two legs keeps the ledger invariant |
| LedgerInvariant.UpdateTransferKeeps | backend/app/services/cash_account_service.py:767-940 | updating a transfer keeps the ledger invariant |
| LedgerInvariant.DeleteAccountKeeps | backend/app/services/cash_account_service.py:322-402 | the cascading delete keeps the ledger invariant |
| LedgerInvariant.UpdateAccountKeeps | backend/app/services/cash_account_service.py:264-320 | a changed currency reaches the opening entry too, so every entry stays in its account's currency |
| TradeInvariant.SettleKeeps | backend/app/services/holding_projection_parts/settlements.py:101-354 | every way of settling keeps the ledger invariant, including a new account |
| TradeInvariant.UnsettleKeeps | backend/app/services/holding_projection_parts/settlements.py:356-445 | reversing a settlement keeps the ledger invariant, including the removal of an account |
| TradeInvariant.DeleteHoldingKeeps | backend/app/services/holding_projection_parts/repository.py:85-128 | reversing the sales and deleting the log keeps the ledger invariant |
| Runs.HandleKeepsInv | backend/app/services/holding_projection_parts/settlements.py:101-593 | each of the fifteen requests, settlements and their reversals included, and the backfill keep the ledger invariant |
| Runs.EveryRunKeepsInv | backend/app/services/cash_account_service.py:227-999 | in every reachable state balances are exact sums, each account has one opening entry, entries are in their account's currency, every transfer has its two legs, every settlement its one entry |
| Runs.EveryRunIsDated | backend/app/services/common_service.py:313-322 | in every reachable state no transaction, holding or entry lies ahead of the clock, opening entries apart |
| HoldingView.MaterialiseAgrees | backend/app/services/holding_projection_parts/repository.py:285-342 | syncing one security brings it into agreement with its log whatever rows it had, and leaves every other alone |
| HoldingView.CreateTransactionAgrees | backend/app/services/holding_transaction_service.py:562-567 | creating a trade leaves its security in agreement and every other as it was |
| HoldingView.UpdateTransactionAgrees | backend/app/services/holding_transaction_service.py:709-714 | updating a trade leaves its security in agreement and every other as it was |
| HoldingView.DeleteTransactionAgrees | backend/app/services/holding_transaction_service.py:889-894 | deleting a trade leaves its security in agreement and every other as it was |
| HoldingView.DeleteHoldingAgrees | backend/app/services/holding_transaction_service.py:327-372 | deleting a holding leaves its security in agreement exactly when it had no duplicate row |
| HoldingView.CreateHoldingAgrees | backend/app/services/holding_transaction_service.py:117-159 | a row entered by hand agrees with its opening BUY if and only if there was no row before and it names a start day, a quantity above epsilon and no worthless cost |
| HoldingView.UpdateHoldingAgrees | backend/app/services/holding_transaction_service.py:161-325 | a correction leaves its security in agreement if and only if the log with the correction in it projects to something, as known before the request |
| HoldingView.HandleKeepsView | backend/app/services/holding_transaction_service.py:117-903 | a request keeps every holding in agreement if and only if it is not one of the two exceptions, told from the books before it |
| HoldingView.EveryRunAgrees | backend/app/services/holding_projection_parts/repository.py:285-342 | in every run without the exceptions each security has at most one row, it exists exactly when the log projects to lots, and shows their quantity, cost basis and start |
| LogReplay.EveryLogReplays | backend/app/services/holding_projection_parts/repository.py:261-342 | in every reachable state, exceptions included, the log of every security replays without rejection |
| LogReplay.HandleKeepsReplays | backend/app/services/holding_transaction_service.py:117-903 | no request leaves a log that is rejected |
| Exceptions.CorrectionCanLeaveStaleRow | backend/app/services/holding_transaction_service.py:284-291 | after buying ten and selling five, correcting the start to five leaves a row although the log projects to nothing |
| Exceptions.EnteringTwiceLeavesTwoRows | backend/app/services/holding_transaction_service.py:117-159 | entering the same holding twice leaves two rows for one security |
| Equivalences.UpdateIsDeleteThenCreate | backend/app/services/cash_account_service.py:767-940 | for any patch, updating a transfer and deleting it and creating the merged one decide alike if and only if some field is named or the stored transfer would still be accepted; when both succeed they give the same accounts and the same transfer up to its id |
| Equivalences.EditIsDeleteThenCreate | backend/app/services/cash_account_service.py:801-940 | with some field named, the whole books are the same up to the transfer id |
| Equivalences.EmptyUpdateAgainstDeleteThenCreate | backend/app/services/cash_account_service.py:778-788 | an update that names no field changes and checks nothing; recreating the transfer succeeds exactly when it would still be accepted, with the same balances |
| Exceptions.EmptyUpdateAcceptsWhatCreationRefuses | backend/app/services/cash_account_service.py:778-788 | with the source account adjusted below zero, the empty update is accepted and recreating the transfer refused |
| Equivalences.UnsettleUndoesSettle | backend/app/services/holding_projection_parts/settlements.py:356-445 | reversing restores accounts, balances, entries and settlements, also after a new account was opened |
| Equivalences.DeleteUndoesCreate | backend/app/services/holding_transaction_service.py:856-903 | from every reachable state, creating any trade and deleting it succeeds and restores the ledger and all other holdings; the log exactly when no opening BUY was needed, the holding exactly when it agreed with its log |
| Exceptions.UndoingATradeCanMergeRows | backend/app/services/holding_projection_parts/repository.py:285-342 | with two rows for a security, creating a purchase and deleting it does not give both rows back |
| Exceptions.UndoingATradeCanLeaveABaseline | backend/app/services/holding_projection_parts/repository.py:174-206 | for a reachable holding without a log, the opening BUY a purchase adds stays when the purchase is deleted |
| Equivalences.DeleteHoldingLeavesFunding | backend/app/services/holding_projection_parts/repository.py:108-128 | a trade's entry outlives its holding if and only if the trade was settled and is not a SELL |
| Exceptions.FundingCanOutliveItsHolding | backend/app/services/holding_projection_parts/repository.py:108-128 | ten units bought out of a bank account leave their payment in the ledger when the holding is deleted |
| HourGrid.BuildHourBuckets | backend/app/services/history_sync_service.py:70-81 | the moving cursor yields every hour from start to end once |
| HourGrid.FillHourlyPrices | backend/app/services/history_sync_service.py:83-116 | every hour gets the carried price, or the default: the fallback if positive, else the smallest known price, else zero |
| HourGrid.FillIsLatestKnown | backend/app/services/history_sync_service.py:102-116 | the carried price is that of the latest known hour since the first one, the last duplicate winning |
| HourGrid.KnownPriceIsLast | backend/app/services/history_sync_service.py:83-94 | the known price of an hour is that of the last positive point stamped within it, to the nearest unit |
| HourGrid.DefaultIsEarliestExactlyWhen | backend/app/services/history_sync_service.py:92-98 | the default is the earliest known price if and only if a positive fallback equals it, or there is none and no known price is smaller |
| HourGrid.DefaultCanBeALaterPrice | backend/app/services/history_sync_service.py:94 | with prices 9 and then 5 and no fallback the default is 5 |
| CashHistory.SweepCash | backend/app/services/history_service.py:401-429 | the pointer and running balances give, at every hour, the once-rounded weighted sum of all entries dated so far |
| CashHistory.RunningIsDirect | backend/app/services/history_service.py:409-429 | the running balances of the days passed weigh up to the direct definition |
| PortfolioHistory.PrefixIsState | backend/app/services/history_service.py:476-504 | the state after the transactions begun by an hour is the from-scratch projection of exactly those |
| PortfolioHistory.AdvanceState | backend/app/services/history_service.py:487-496 | the event loop applies every transaction begun by the hour and stops at the first refusal |
| PortfolioHistory.SweepHolding | backend/app/services/history_service.py:431-504 | one security's value is added to every hour; refused exactly when its log does not replay so far |
| PortfolioCurve.SweepStatics | backend/app/services/history_service.py:506-543 | the delta map and running total add every static value to exactly the hours from its start on |
| PortfolioCurve.RebuildCurve | backend/app/services/history_service.py:344-551 | from the rows read, the rebuilt curve equals its direct definition at every hour and is refused exactly when some log oversells |
| CurveResults.CurveShowsWorth | backend/app/services/history_service.py:344-551 | the curve has a point for every hour from the start of the earliest day on which anything begins; each shows, to the nearest cent, cash plus holdings plus the assets begun by then less the liabilities begun by then, each at its rate |
| CurveResults.CashIsCash | backend/app/services/history_service.py:401-429 | the cash of an hour is the unit nearest to the sum, over accounts holding more than a unit, of the entries dated so far times the rate of the account's currency |
| CurveResults.HoldingIs | backend/app/services/history_service.py:431-504 | a holding is worth the unit nearest to the units its log has left by the hour, times the latest known or starting price, times the rate of the feed's, the quote's or the last transaction's currency |
| CurveResults.StaticsAreNet | backend/app/services/history_service.py:506-543 | the static total of an hour is the values of assets begun by then less the worths of the liabilities begun by then |
| Rebuild.BackfillLogs | backend/app/services/history_service.py:60-98 | every holding of a security without a log gets its opening BUY, the first row of the security deciding, and afterwards every holding has a log |
| Rebuild.RebuildPortfolio | backend/app/services/history_service.py:287-551 | the curve rebuilt from a session is that of its backfilled rows |
| ReturnHistory.SweepReturns | backend/app/services/history_service.py:166-242 | one holding's returns and bases, hour by hour from its first trade, equal their direct definition |
| ReturnResults.PartIsContribution | backend/app/services/history_service.py:166-242 | a holding contributes the percentage by which the price of the hour differs from the mean cost of the units left, to the nearest hundredth, weighted by their cost in CNY, and nothing without units, mean cost or rate |
| ReturnHistory.RebuildTotals | backend/app/services/history_service.py:228-263 | the total series has a point exactly at the hours some holding contributes to, each near the exact mean |
| ReturnHistory.TotalIsNearMean | backend/app/services/history_service.py:248-263 | the stored total is within 0.005 plus n times 0.5e-8 over the basis of the exact basis-weighted mean |
| LiveState.CashEndsLive | backend/app/services/history_service.py:409-429 | an account's last running balance is the stored one if and only if its opening entry has come into effect or is zero |
| LiveState.HoldingEndsLive | backend/app/services/history_service.py:487-504 | the last replayed quantity of a security in agreement is that of its row, or zero without one |
| LiveState.CashOfEveryRunEndsLive | backend/app/services/history_service.py:409-429 | in every reachable state the last running balance of an account is the stored one if and only if its opening entry has come into effect or is zero |
| LiveState.CurveEndsLive | backend/app/services/history_service.py:383-543 | from the rows of every reachable state, a backfill counting as a step, the curve can be rebuilt, each log ends at its projection, and every row that agrees with its log has the last replayed quantity |
| Rebuild.RebuildEndsLive | backend/app/services/history_service.py:287-551 | from every reachable state the backfilled logs replay, so the rebuild is not refused, and end at their projections |
| LiveState.FutureOpeningIsNotShown | backend/app/services/cash_account_service.py:227-262 | an account opened for tomorrow with 500 has a balance that today's curve does not show |
| Idempotency.AtMostOnceIff | backend/app/services/common_service.py:96-167 | after any interleaving with crashes a key has at most one effect if and only if the schedule has no overlap of load, other commit, store and commit; every success and replay has the hash and response of a committed effect, and the row those of the last |
| Idempotency.AllSuccessesAgree | backend/app/services/cash_account_service.py:632-765 | without an overlap all requests on a key that succeed have the hash and response of its only effect |
| Idempotency.OverlapRepeats | backend/app/services/common_service.py:158-166 | two overlapping requests with one key, even with different payloads, can both take effect |
| Idempotency.CrashRepeats | backend/app/services/holding_transaction_service.py:621-648 | a request that crashes between its commits, and after it a retry with the same key and payload, both take effect |
| Idempotency.AtMostOnceOfTwoCommits | backend/app/services/holding_transaction_service.py:456-651 | under any interleaving a key takes effect at most once if and only if no request that found nothing commits after another one has; every success and replay has the hash and response of a committed effect |
| Idempotency.EffectsWhenExclusive | backend/app/services/holding_transaction_service.py:456-651 | with one request at a time on a key, in either kind of scope, its effects are those of requests that died between their commits and one more if there is a row or one is on its way, and all successes and replays agree |
| Idempotency.AtMostOnceWhenExclusive | backend/app/services/holding_transaction_service.py:621-648 | with one request at a time a key takes effect at most once if and only if no request died between its commits, or one did and nothing followed; in the one-commit scopes none can |
| Idempotency.LoadDecides | backend/app/services/common_service.py:96-119 | after any schedule a request that loads gets the stored response exactly when the stored hash is its own, is refused exactly when it differs, and acts exactly when there is no row |
| Idempotency.LaterLoadsAreAnswered | backend/app/services/common_service.py:96-119 | after a success, with one request at a time or without the key taking effect twice, every later load with the same hash gets that response and every one with another hash is refused, for good |
| Idempotency.StoreDecides | backend/app/services/common_service.py:121-167 | storing a key notes whether there is a row to overwrite, and commits nothing |
| Idempotency.CommitDecides | backend/app/services/common_service.py:142-167 | committing a stored key fails exactly when there was no row and there is one now; otherwise the row and the effect are the request's |
| RuntimeCodec.RoundTrip | backend/app/runtime_state.py:88-285 | a nested value is decoded back from its encoding if and only if no dictionary in it carries a type marker that is not null |
| RuntimeCodec.EncodingIsInjective | backend/app/runtime_state.py:88-147 | distinct such values have distinct encodings |
| RuntimeCodec.MarkedDictIsLost | backend/app/typed_json.py:45-55 | a dictionary that looks like an encoded timestamp is encoded as one |
| RuntimeCodec.StoredValueIsLoaded | backend/app/typed_json.py:29-77 | through the versioned envelope a value is read back if and only if it is such a value and not null |
| RedisDict.RowsAreSeparate | backend/app/redis_store.py:74-84 | two rows are the same exactly when dictionary and key are |
| RedisDict.CommandRefinesMap | backend/app/redis_store.py:86-137 | set, delete and clear act on the dictionary as on a finite map; an unreadable value removes its key |
| RedisDict.CommandSparesOthers | backend/app/redis_store.py:52-56 | commands on one dictionary leave another unchanged, clear included when its prefix does not open the other's |
| RedisDict.ClearSparesExactlyWhen | backend/app/redis_store.py:52-55 | clearing one dictionary spares another in every store if and only if its prefix does not open the other's |
| RedisDict.EachDictionaryIsItsOwnMap | backend/app/redis_store.py:58-137 | under any interleaving of commands each dictionary is the finite map its own commands make |
| RedisDict.RuntimeDictionariesAreIndependent | backend/app/runtime_state.py:323-357 | none of the four runtime dictionaries can clear another |
| RedisDict.LengthIsSizeExactlyWhen | backend/app/redis_store.py:107-108 | the length is the map's size if and only if every row under the prefix is readable and the dictionary's own |
| RedisDict.RunIsListed | backend/app/redis_store.py:58-137 | after any run of the dictionary's own commands and of others that keep apart, its rows can be listed, are its finite map, and are as many as the map when only usable values were stored |
| RedisDict.RuntimeDictionariesListTheirMaps | backend/app/runtime_state.py:323-357 | this holds for each of the four runtime dictionaries however their commands interleave |
| RedisDict.UnreadableRowIsCounted | backend/app/redis_store.py:107-108 | storing null gives length one for an empty map |
| RedisDict.RedisBackedDict.Get | backend/app/redis_store.py:113-117 | the mapped value, or the default |
| RedisDict.RedisBackedDict.SetItem | backend/app/redis_store.py:92-97 | maps the key to the value and touches one row |
| RedisDict.RedisBackedDict.DelItem | backend/app/redis_store.py:99-101 | removes the key, failing exactly when there is no row |
| RedisDict.RedisBackedDict.Pop | backend/app/redis_store.py:132-137 | returns the mapped value and removes its key, or the default |
| RedisDict.RedisBackedDict.Clear | backend/app/redis_store.py:110-111 | empties the map and leaves rows outside the prefix |
| RedisDict.RedisBackedDict.Length | backend/app/redis_store.py:107-108 | the number of rows under the prefix, which is the size of the map when all rows are the dictionary's own and readable |
| RedisDict.RedisBackedDict.Items | backend/app/redis_store.py:119-130 | lists the pairs of the map its commands made, each key once, after every run of commands that keep apart |
| Timeline.WinnerIsLatest | backend/app/analytics.py:81-91 | the scan keeps the latest snapshot of each bucket, the last of equally late ones |
| Timeline.BucketBegins | backend/app/analytics.py:41-71 | a bucket begins where every part of the local time below its granularity has its first value |
| Timeline.EarlierIsFirstDifference | backend/app/analytics.py:81-105 | of two times the earlier one is smaller in the first part in which they differ |
| Timeline.TimelineIsUnique | backend/app/analytics.py:74-105 | strictly increasing points, one per bucket with a snapshot, showing the latest, are determined by the snapshots |
| Timeline.BuildTimeline | backend/app/analytics.py:74-105 | the loop and sort yield that timeline |
| Timeline.TimelinesCompose | backend/app/analytics.py:41-105 | a coarse timeline is the coarse timeline of any finer one |
| Corrections.CreatedForItsBucket | backend/app/services/dashboard_correction_service.py:147-181 | a correction made at any moment of a bucket, in any letter case, is keyed to the bucket's point |
| Corrections.SymbolsMatchByLetters | backend/app/services/dashboard_correction_service.py:76-87 | two symbols are keyed alike exactly when they have the same letters in either case; no symbol is the empty one |
| Corrections.LastUpdateWins | backend/app/services/dashboard_correction_service.py:89-106 | the row found for a key is one updated last |
| Corrections.LoadLookup | backend/app/services/dashboard_correction_service.py:89-106 | the loop keeps the last row of every key |
| Corrections.ApplyCorrections | backend/app/services/dashboard_correction_service.py:108-145 | every point is kept, overridden or removed by the correction of its own key, and nothing is added |
| Corrections.CorrectionHitsOnePoint | backend/app/services/dashboard_correction_service.py:76-145 | a new correction overrides or removes the one point of its bucket and leaves every other point of every timeline as it was |

## Left out

- HTTP routing, request schemas, authentication, SQL text: their guards appear as the shape of the request values.
- Market data, exchange-rate fetching, retries and refresh tasks: quotes and rates are given; a missing rate counts as zero in both rebuilds, and the failures that the return rebuild raises for missing market data are not modelled.
- Notes, names, audit rows, dashboard cache invalidation and `updated_at` of ledger rows: nothing proved here reads them.
- Job queue, history-sync draining, real-time sampling and upserts, feedback, inbox, release notes and the frontend.
- Database isolation: in the idempotency model a read sees what is committed when it runs; in the other modules a request runs alone, as one atomic session.
- `create_holding_transaction` commits twice; the books model joins both commits and `Idempotency` separates them.
- Rows are values in the session's sequences and maps, so object identity and aliasing of rows are not captured.
- Rebuild.BackfillLogs: the order in which the holdings query lists securities is that of the database's collation and is given; rows of one security come in id order.
- RuntimeCodec.RoundTrip: timestamp and decimal texts stand for their values, so the ISO and decimal parsers are assumed to invert their printers; keys of dictionaries are strings already; a dashboard is its JSON dump.
- RedisDict.CommandRefinesMap: JSON text and base64 are a pair of functions assumed inverse and free of the separator; a scan lists each key once; expiry is removal by the environment.
- Corrections.CreatedForItsBucket: upper case is that of ASCII letters, and rows with equal update times keep the order they are loaded in.
- Timeline.TimelinesCompose: local time is its calendar fields; with a fixed offset their order is that of UTC.
- RedisBackedSet, RedisBackedQueue and RedisBackedScalar: thin wrappers over single Redis commands.
