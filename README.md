# cryptopnl FIFO cost-basis core, in Dafny

This project models the accounting core of cryptopnl, a profit-and-loss calculator
for Kraken trade histories. It covers the following parts.

- **The wallet** (`Wallets`, wallet.dfy). Per asset it keeps an ordered list of
  acquisition lots (cost, volume, unit price), a running amount held, and one wallet
  cost. `add` appends a lot. `take` consumes lots oldest-first: it empties every lot
  that fits in what is still to take, reduces the first lot that does not fit in
  proportion to its cost, and returns the fiat basis withdrawn. The class `Wallet`
  holds the three fields and updates them in place. Its methods are proved against
  the pure functions `AddLot`, `TakeFifo` and `CostUpdated`. The loop of `take` is
  the method `WalkChunks`, proved equal to the recursive walk `FifoTake`.
- **The shared strategy layer** (`Strategy`, strategy.dfy). It holds the books (a
  wallet and the realised gains per year), the three-way classification of a trade
  by its pair and type, `process_all_trades` as an in-order fold that stops at the
  first exception, and `pnl_summary`.
- **The three strategies**, each a class over a `Trades` object, a `Wallet` and its
  gains. Each handler is proved against a pure `*Step` function of the books:
  - `ProfitsCalculation` (profits_calculator.dfy): fiat trades at the trade's own
    price with no fee in the lot;
  - `TradesStrategy` (fifo_with_trades.dfy): fees capitalised in the lots, and swap
    fees converted into units of the bought asset;
  - `LedgerStrategy` (fifo_with_ledger.dfy): every trade is settled from its two
    ledger rows, found by the ids in the trade's `ledgers` column.
- **The trade history** (`TradeHistory`, trades.dfy): iteration over the trades in
  file order, and `balance_check`. As written, `balance_check` pools every valid
  ledger row under the one literal key `"asset"`.
- **The per-asset reconciliation** (`BalanceCheck`, balance_check.dfy):
  `checkBalanceWithFees` sums `amount - fee` per known asset, and keeps the last
  reported balance of each asset.

Decimal values, and the float numbers read from the trades and ledger files, are
modelled as exact `real`s. Every exception the core raises on exact inputs (unknown
asset, insufficient amount, division by zero, missing ledger row or column, failed
assert) becomes an `Err` of the `Error` datatype (outcomes.dfy). The errors that come
only from mixing floats with Decimals are left out (see "## Left out"). Whatever the
operation had already changed before it raised stays changed in the model.

The proved properties include:
- the FIFO shape of `take`, its cost conservation and its volume accounting;
- preservation of `amounts[a] == sum of lot volumes` and of non-negative lots,
  over a whole run of each strategy;
- how much basis each kind of swap moves or adds;
- the per-year sums of `pnl_summary`;
- that the per-asset and pooled ledger totals agree.

Two behaviours of the code are kept as written:
- `add` keeps the whole volume and adds the fee to the lot's cost. It does not
  subtract the fee from the volume.
- `take` lowers the amount held by the whole request before it checks that enough
  is held. `Wallets.TakeFailureLeavesAmountBehind` states the resulting mismatch.

## Model

| member | source | states |
|---|---|---|
| Wallets.Reduced | cryptopnl/wallet/wallet.py:103-106 | a partly taken lot loses exactly the volume taken and keeps its unit price |
| Wallets.ReducedKeepsUnitCost | cryptopnl/wallet/wallet.py:103-106 | what is left of a partly taken lot keeps the lot's cost per unit |
| Wallets.FifoTake | cryptopnl/wallet/wallet.py:94-109 | the walk of `take` returns one lot for every lot it was given |
| Wallets.FifoCostConserved | cryptopnl/wallet/wallet.py:96-107 | the lots' cost before the walk equals their cost after it plus the basis withdrawn |
| Wallets.FifoVolumeTaken | cryptopnl/wallet/wallet.py:96-108 | the lots lose exactly the volume the walk took (the request less what is still to take) |
| Wallets.FifoSplitsAtWholeLots | cryptopnl/wallet/wallet.py:94-100 | the walk empties the leading lots that fit, withdraws their full cost, and goes on with the rest of the request |
| Wallets.ExampleTake | cryptopnl/wallet/wallet.py:94-107 | taking 3 units from a lot of 2 (cost 100) followed by a lot of 3 (cost 90) empties the first, leaves 2 units worth 60 in the second, and withdraws 130 |
| Wallets.FifoShape | cryptopnl/wallet/wallet.py:94-109 | FIFO order: the lots before k are emptied; lot k is larger than what is left and is reduced by it, with its cost split in proportion (a zero-volume lot k stops the walk on a division by zero); every later lot is unchanged |
| Wallets.WholeLotsStop | cryptopnl/wallet/wallet.py:96-102 | the first lot not taken whole is larger than the volume still to take |
| Wallets.FifoNonNegative | cryptopnl/wallet/wallet.py:94-112 | with non-negative lots and request: no division by zero and no over-take, the lots stay non-negative, and volume is left over only once every lot is emptied |
| Wallets.NewLot | cryptopnl/wallet/wallet.py:55-59 | the lot `add` builds has volume `amount` and price `price` |
| Wallets.CarriedLotCost | cryptopnl/wallet/wallet.py:55-56 | a lot priced at basis / amount with no fee costs exactly the basis |
| Wallets.AddLot | cryptopnl/wallet/wallet.py:55-61 | one lot is appended at the end of the asset's list and the asset's amount grows by `amount`; other assets and the wallet cost are unchanged |
| Wallets.TakeFifo | cryptopnl/wallet/wallet.py:88-113 | it fails as "not found" exactly when the asset is unknown, and then changes nothing; otherwise the amount drops by the whole request, the lots become the FIFO walk, other assets are unchanged, a success returns the cost the lots lost, and a failure is an insufficient amount or a division by zero |
| Wallets.TakeSucceedsIff | cryptopnl/wallet/wallet.py:88-112 | on a wallet whose amounts match its non-negative lots, a take of a non-negative volume succeeds exactly when the asset is held and its amount covers the request, and it never divides by zero |
| Wallets.CostUpdated | cryptopnl/wallet/wallet.py:135-144 | the wallet cost grows by cost + fee; lots and amounts are unchanged |
| Wallets.AddKeepsBalance | cryptopnl/wallet/wallet.py:60-61 | `add` keeps every amount equal to the sum of its lots' volumes, and adding a non-negative amount keeps the lots non-negative |
| Wallets.TakeKeepsBalance | cryptopnl/wallet/wallet.py:93-113 | a successful take of a non-negative volume keeps the amounts equal to the lot volumes and the lots non-negative |
| Wallets.TakeThenAddKeepsBalance | cryptopnl/main/fifo_with_ledger.py:158-160 | a successful take followed by the add of a non-negative amount keeps both invariants |
| Wallets.TakeFailureLeavesAmountBehind | cryptopnl/wallet/wallet.py:93-112 | a take that runs out of lots has emptied every lot and lowered the amount by the whole request, so the amount is negative and no longer matches the lots |
| Wallets.Wallet.constructor | cryptopnl/wallet/wallet.py:28-41 | a new wallet has no lots, no amounts and cost 0 |
| Wallets.Wallet.Add | cryptopnl/wallet/wallet.py:43-62 | the new state is AddLot of the old one |
| Wallets.Wallet.Take | cryptopnl/wallet/wallet.py:64-113 | the new state and the result are TakeFifo of the old state |
| Wallets.Wallet.GetWalletCost | cryptopnl/wallet/wallet.py:115-123 | returns the wallet cost and changes nothing |
| Wallets.Wallet.SetWalletCost | cryptopnl/wallet/wallet.py:125-133 | overwrites the wallet cost and nothing else |
| Wallets.Wallet.UpdateCost | cryptopnl/wallet/wallet.py:135-144 | the new state is CostUpdated of the old one |
| Wallets.WalkChunks | cryptopnl/wallet/wallet.py:91-109 | the `for`/`break` loop over the chunks computes exactly the FIFO walk |
| PyStrings.Prefix | cryptopnl/main/profits_calculator.py:133 | `s[:n]` is a prefix of s with n characters, or all of s when s is shorter |
| PyStrings.Suffix | cryptopnl/main/profits_calculator.py:134 | `s[:n] + s[n:] == s` |
| PyStrings.DropLast | cryptopnl/main/profits_calculator.py:91 | `s[:-n]` is a prefix of s, n characters shorter (empty when s is not longer) |
| PyStrings.DropLastOfPair | cryptopnl/main/profits_calculator.py:91 | `pair[:-4]` of an asset code followed by a four-letter quote is the asset code |
| PyStrings.Split | cryptopnl/main/fifo_with_ledger.py:69 | `split` gives at least one piece, no piece holds the separator, and there are two or more pieces exactly when the separator occurs |
| PyStrings.JoinSplit | cryptopnl/main/fifo_with_ledger.py:69 | joining the pieces of a split with the separator gives back the string |
| TradeHistory.AnyTxidExists | cryptopnl/main/trades.py:65-66 | AnyTxid holds exactly when some row has a non-empty string txid |
| TradeHistory.PooledTotal | cryptopnl/main/trades.py:65-67 | with no valid row the pooled total is 0 |
| TradeHistory.InvalidRowSkipped | cryptopnl/main/trades.py:66 | a row without a valid txid, wherever it stands, changes neither the pooled total, nor the last balance, nor whether any row is valid |
| TradeHistory.Trades.constructor | cryptopnl/main/trades.py:37-45 | the object holds the trades and, when given, the ledger |
| TradeHistory.Trades.Rows | cryptopnl/main/trades.py:47-51 | iteration yields (i, trades[i]) for every trade, in file order |
| TradeHistory.Trades.BalanceCheck | cryptopnl/main/trades.py:53-73 | without a ledger it raises; otherwise it answers whether, with any valid row, the last valid balance equals the pooled sum of `amount - fee` |
| TradeHistory.BalanceCheckExamples | cryptopnl/main/trades.py:61-73 | 0.9 + 0.6 against a reported 1.5 agrees, against 1.0 it does not, and a row with an empty txid is skipped |
| Strategy.Ignore | cryptopnl/main/profits_calculator.py:73-79 | `process_trade` drops a handler's return value but keeps its books and its exception |
| Strategy.Record | cryptopnl/main/profits_calculator.py:116 | the gain is appended to its year's list; every other year is unchanged |
| Strategy.PnlSummary | cryptopnl/main/abstract_strategy.py:128-129 | the summary has exactly the years of the gains as keys |
| Strategy.PnlSummaryRecord | cryptopnl/main/abstract_strategy.py:128-129 | recording a gain adds its profit to its year's sum (from 0 for a new year) and leaves the other sums alone |
| Strategy.PnlSummaryExample | cryptopnl/main/abstract_strategy.py:128-129 | the gains 1, 2 in 2020 and 10, 20 in 2021 sum to 3 and 30 |
| Strategy.Classify | cryptopnl/main/profits_calculator.py:73-78 | fiat to crypto iff the pair ends with "EUR" and the type is "buy", crypto to fiat iff it ends with "EUR" and the type is "sell", crypto to crypto otherwise |
| Strategy.ProcessAll | cryptopnl/main/abstract_strategy.py:57-61 | processing no trades changes nothing |
| Strategy.ProcessAllAppend | cryptopnl/main/abstract_strategy.py:57-61 | processing two runs one after the other is processing their concatenation: each trade once, in order, stopping at the first exception |
| Strategy.ProcessAllSnoc | cryptopnl/main/abstract_strategy.py:57-61 | the last trade is processed once, on the books the earlier ones left, unless one of them raised |
| Strategy.RunKeepsSound | cryptopnl/main/abstract_strategy.py:57-61 | a run of trades that each keep the wallet invariants keeps them over the whole run |
| ProfitsCalculation.ProcessTradeStep | cryptopnl/main/profits_calculator.py:73-79 | an EUR buy is Fiat2CryptoStep and cannot fail; an EUR sell keeps the books and the success or error of Crypto2FiatStep; every other trade is Crypto2CryptoStep |
| ProfitsCalculation.Fiat2CryptoStep | cryptopnl/main/profits_calculator.py:91-93 | a lot of `vol` at `price` with no fee is appended for `pair[:-4]`, its amount grows by `vol`, the held assets become the old ones plus `pair[:-4]`, other assets' lots and amounts and the gains are unchanged, and the wallet cost grows by cost + fee |
| ProfitsCalculation.Crypto2FiatStep | cryptopnl/main/profits_calculator.py:112-117 | `vol` of `pair[:-4]` is taken; it succeeds exactly when the take does, and fails with the take's error; on success price * vol - fee - basis is appended to the year's gains and the result says whether it is positive; a failed take records nothing |
| ProfitsCalculation.SwapLegs | cryptopnl/main/profits_calculator.py:132-141 | a buy buys `pair[:4]` with `pair[4:]`, spending cost for vol; otherwise `pair[:4]` is sold for `pair[4:]`, spending vol for cost |
| ProfitsCalculation.Crypto2CryptoStep | cryptopnl/main/profits_calculator.py:143-145 | the sold amount is taken and the bought amount added as one lot at basis / bought with no fee; it succeeds exactly when the take does and the bought amount is not zero; on success every other asset keeps the lots and amount the take left, the held assets are those after the take plus the bought one, and gains and wallet cost are unchanged |
| ProfitsCalculation.Crypto2CryptoKeepsCost | cryptopnl/main/profits_calculator.py:143-145 | a successful swap moves the basis between the two assets: their lots carry the same total cost before and after |
| ProfitsCalculation.ProcessTradeKeepsBalance | cryptopnl/main/profits_calculator.py:73-79 | every trade with non-negative volume and cost that goes through keeps the amounts equal to the lot volumes and the lots non-negative |
| ProfitsCalculation.RunKeepsBalance | cryptopnl/main/profits_calculator.py:52-60 | a whole run of such trades that raises nothing keeps both invariants |
| ProfitsCalculation.ProfitsCalculator.constructor | cryptopnl/main/profits_calculator.py:47-49 | a new calculator has a fresh wallet and no gains |
| ProfitsCalculation.ProfitsCalculator.ProcessAllTrades | cryptopnl/main/profits_calculator.py:52-60 | the loop leaves the books and result of the in-order fold over the trades |
| ProfitsCalculation.ProfitsCalculator.ProcessTrade | cryptopnl/main/profits_calculator.py:73-79 | the dispatch leaves the books and result of ProcessTradeStep |
| ProfitsCalculation.ProfitsCalculator.Fiat2Crypto | cryptopnl/main/profits_calculator.py:91-93 | the new books are Fiat2CryptoStep of the old |
| ProfitsCalculation.ProfitsCalculator.Crypto2Fiat | cryptopnl/main/profits_calculator.py:112-117 | the new books and result are Crypto2FiatStep of the old |
| ProfitsCalculation.ProfitsCalculator.Crypto2Crypto | cryptopnl/main/profits_calculator.py:132-145 | the new books and result are Crypto2CryptoStep of the old |
| ProfitsCalculation.ProfitsCalculator.PnlSummary | cryptopnl/main/profits_calculator.py:153-156 | returns the per-year sums and changes nothing |
| ProfitsCalculation.ProfitsCalculator.Go | cryptopnl/main/profits_calculator.py:158-161 | processes every trade, then returns 0 unless a trade raised |
| TradesStrategy.ProcessTradeStep | cryptopnl/main/fifo_with_trades.py:60-66 | an EUR buy is Fiat2CryptoStep and cannot fail; an EUR sell keeps the books and the success or error of Crypto2FiatStep; every other trade is Crypto2CryptoStep |
| TradesStrategy.Fiat2CryptoStep | cryptopnl/main/fifo_with_trades.py:78-80 | a lot of `vol` at `price` with the trade's fee is appended for `pair[:-4]`, its amount grows by `vol`, the held assets become the old ones plus `pair[:-4]`, other assets' lots and amounts and the gains are unchanged, and the wallet cost grows by cost + fee |
| TradesStrategy.FiatFeeCountedTwice | cryptopnl/main/fifo_with_trades.py:79-80 | the purchase fee is counted in the new lot's cost and again in the wallet cost |
| TradesStrategy.Crypto2FiatStep | cryptopnl/main/fifo_with_trades.py:99-105 | `vol` of `pair[:-4]` is taken; it succeeds exactly when the take does, and fails with the take's error; on success cost - fee - basis is appended to the year's gains and the result says whether it is positive |
| TradesStrategy.SwapOf | cryptopnl/main/fifo_with_trades.py:119-130 | a buy spends cost + fee of `pair[4:]` for vol of `pair[:4]`, its fee units times the price being the fee, and a zero price fails; otherwise vol of `pair[:4]` buys cost - fee of `pair[4:]`, with the fee as fee units |
| TradesStrategy.SwapLot | cryptopnl/main/fifo_with_trades.py:133-135 | the swap's lot has the bought amount as volume and costs the basis plus the fee units valued at the basis per bought unit |
| TradesStrategy.SwapLotScaled | cryptopnl/main/fifo_with_trades.py:133-135 | the swap lot's cost is basis * (bought + fee units) / bought |
| TradesStrategy.Crypto2CryptoStep | cryptopnl/main/fifo_with_trades.py:119-135 | a zero price on a buy fails with nothing changed; otherwise the sold amount is taken and the swap lot appended to the bought asset, and it succeeds exactly when the take does and the bought amount is not zero; on success every other asset keeps the lots and amount the take left and the held assets are those after the take plus the bought one; gains and wallet cost are unchanged |
| TradesStrategy.Crypto2CryptoAddsFee | cryptopnl/main/fifo_with_trades.py:132-135 | a successful swap moves the basis between the two assets and adds the fee valued at basis per bought unit on top |
| TradesStrategy.ProcessTradeKeepsBalance | cryptopnl/main/fifo_with_trades.py:60-65 | every trade with non-negative volume and 0 <= fee <= cost that goes through keeps the amounts equal to the lot volumes and the lots non-negative |
| TradesStrategy.RunKeepsBalance | cryptopnl/main/abstract_strategy.py:57-61 | a whole run of such trades that raises nothing keeps both invariants |
| TradesStrategy.FifoWithTrades.constructor | cryptopnl/main/fifo_with_trades.py:46-48 | a new strategy has a fresh wallet and no gains |
| TradesStrategy.FifoWithTrades.ProcessAllTrades | cryptopnl/main/abstract_strategy.py:57-61 | the loop leaves the books and result of the in-order fold over the trades |
| TradesStrategy.FifoWithTrades.ProcessTrade | cryptopnl/main/fifo_with_trades.py:60-66 | the dispatch leaves the books and result of ProcessTradeStep |
| TradesStrategy.FifoWithTrades.Fiat2Crypto | cryptopnl/main/fifo_with_trades.py:78-81 | the new books are Fiat2CryptoStep of the old |
| TradesStrategy.FifoWithTrades.Crypto2Fiat | cryptopnl/main/fifo_with_trades.py:99-105 | the new books and result are Crypto2FiatStep of the old |
| TradesStrategy.FifoWithTrades.Crypto2Crypto | cryptopnl/main/fifo_with_trades.py:119-135 | the new books and result are Crypto2CryptoStep of the old |
| TradesStrategy.FifoWithTrades.PnlSummary | cryptopnl/main/abstract_strategy.py:128-131 | returns the per-year sums and changes nothing |
| TradesStrategy.FifoWithTrades.Go | cryptopnl/main/abstract_strategy.py:133-136 | processes every trade, then returns 0 unless a trade raised |
| LedgerStrategy.FirstWithTxid | cryptopnl/main/fifo_with_ledger.py:71-72 | the index of the first row with the txid, or none exactly when no row has it |
| LedgerStrategy.RowWithTxid | cryptopnl/main/fifo_with_ledger.py:71-72 | `.iloc[0]` of the selection fails exactly when no row has the txid, and otherwise returns a ledger row with that txid |
| LedgerStrategy.GetLedgersAsWritten | cryptopnl/main/fifo_with_ledger.py:69 | as written, the lookup always raises the missing-attribute error |
| LedgerStrategy.GetLedgersFromTrade | cryptopnl/main/fifo_with_ledger.py:69-75 | succeeds exactly when the `ledgers` field has two ids that both name a row; the first id's row comes first when its amount is positive, the other row otherwise |
| LedgerStrategy.GetLedgersOrdersRows | cryptopnl/main/fifo_with_ledger.py:69-75 | for "out,in" ids whose first row spends, the receiving row is returned first |
| LedgerStrategy.SplitPair | cryptopnl/main/fifo_with_ledger.py:69 | two comma-free ids joined by a comma split back into exactly those ids |
| LedgerStrategy.Fiat2CryptoStep | cryptopnl/main/fifo_with_ledger.py:113-115 | fails on a zero received amount with nothing changed; otherwise a lot of the received amount at -fiat.amount / crypto.amount with the fiat fee is appended, its amount grows by the received amount, the held assets become the old ones plus the received asset, other assets' lots and amounts and the gains are unchanged, and the wallet cost grows by -fiat.amount + fiat.fee |
| LedgerStrategy.Fiat2CryptoLotCost | cryptopnl/main/fifo_with_ledger.py:113-115 | that lot costs -fiat.amount + fiat.fee, the same sum the wallet cost grows by |
| LedgerStrategy.Crypto2FiatStep | cryptopnl/main/fifo_with_ledger.py:135-140 | `-crypto.amount` of the asset is taken; it succeeds exactly when the take does, and fails with the take's error; on success fiat.amount - fiat.fee - basis is appended to the crypto row's year and the result says whether it is positive |
| LedgerStrategy.Crypto2CryptoStep | cryptopnl/main/fifo_with_ledger.py:153-160 | `-out.amount + out.fee` of the outgoing asset is taken and `in.amount - in.fee` of the incoming one added at basis per unit; it succeeds exactly when the take does and that net amount is not zero; on success every other asset keeps the lots and amount the take left and the held assets are those after the take plus the incoming one; gains and wallet cost are unchanged |
| LedgerStrategy.Crypto2CryptoKeepsCost | cryptopnl/main/fifo_with_ledger.py:158-160 | a successful swap moves the basis unchanged: the two assets' lots carry the same total cost before and after |
| LedgerStrategy.CheckFiatTrade | cryptopnl/main/fifo_with_ledger.py:89-96 | the checks pass exactly when the trade's volume is the crypto row's amount (sign turned for a sale) and its price times that amount is minus the fiat amount; otherwise an assertion or division error |
| LedgerStrategy.Dispatch | cryptopnl/main/fifo_with_ledger.py:88-99 | an EUR buy runs the purchase checks on (received, spent) and, if they pass, is Fiat2CryptoStep of those rows; an EUR sell runs the sale checks on (spent, received) and, if they pass, keeps the books and the success or error of Crypto2FiatStep; a failed check raises with the books unchanged; any other trade is the given crypto to crypto outcome |
| LedgerStrategy.ProcessTradeAsWritten | cryptopnl/main/fifo_with_ledger.py:87-100 | the one-argument call of line 99, with the rows found by the corrected lookup (as written, line 69 raises first): every crypto to crypto trade raises with the books unchanged |
| LedgerStrategy.ProcessTradeStep | cryptopnl/main/fifo_with_ledger.py:87-100 | a failed lookup raises; fiat trades go exactly as written; a crypto to crypto trade is Crypto2CryptoStep of its incoming and outgoing rows |
| LedgerStrategy.SwapCallMismatch | cryptopnl/main/fifo_with_ledger.py:99 | a swap whose rows are found, whose sold asset can be taken and whose net received amount is not zero goes through when the rows are passed, and raises as written |
| LedgerStrategy.ExampleLegs | cryptopnl/main/fifo_with_ledger.py:69-75 | in the example ledger the ids "L1,L2" find the XETH row first and the XXBT row second |
| LedgerStrategy.SwapCallMismatchExample | cryptopnl/main/fifo_with_ledger.py:99 | on books from which 2 XXBT can be taken, the example swap goes through when corrected and raises as written |
| LedgerStrategy.LedgerColumnExample | cryptopnl/main/fifo_with_ledger.py:69 | on the example swap the lookup as written raises on the undefined column name, while reading the `ledgers` column finds the XETH row first |
| LedgerStrategy.ProcessTradeKeepsBalance | cryptopnl/main/fifo_with_ledger.py:87-100 | every trade whose incoming row receives at least its non-negative fee, and whose outgoing row spends with a non-negative fee, keeps the amounts equal to the lot volumes and the lots non-negative when it goes through |
| LedgerStrategy.DispatchKeepsBalance | cryptopnl/main/fifo_with_ledger.py:88-99 | the same, for each of the three branches once the rows are found |
| LedgerStrategy.Fiat2CryptoKeepsBalance | cryptopnl/main/fifo_with_ledger.py:113-115 | a purchase of a non-negative amount keeps both invariants |
| LedgerStrategy.Crypto2FiatKeepsBalance | cryptopnl/main/fifo_with_ledger.py:135-140 | a sale of a non-negative amount that goes through keeps both invariants |
| LedgerStrategy.Crypto2CryptoKeepsBalance | cryptopnl/main/fifo_with_ledger.py:153-160 | a swap of admitted rows that goes through keeps both invariants |
| LedgerStrategy.RunKeepsBalance | cryptopnl/main/abstract_strategy.py:57-61 | a whole run of admitted trades that raises nothing keeps both invariants |
| LedgerStrategy.FifoWithLedger.constructor | cryptopnl/main/fifo_with_ledger.py:40-55 | built from trades with a ledger: a fresh wallet and no gains |
| LedgerStrategy.FifoWithLedger.ProcessAllTrades | cryptopnl/main/abstract_strategy.py:57-61 | the loop leaves the books and result of the in-order fold over the trades, with the ledger's rows |
| LedgerStrategy.FifoWithLedger.ProcessTrade | cryptopnl/main/fifo_with_ledger.py:87-100 | the lookup, the checks and the dispatch leave the books and result of the corrected ProcessTradeStep |
| LedgerStrategy.FifoWithLedger.Fiat2Crypto | cryptopnl/main/fifo_with_ledger.py:113-116 | the new books and result are Fiat2CryptoStep of the old |
| LedgerStrategy.FifoWithLedger.Crypto2Fiat | cryptopnl/main/fifo_with_ledger.py:135-140 | the new books and result are Crypto2FiatStep of the old |
| LedgerStrategy.FifoWithLedger.Crypto2Crypto | cryptopnl/main/fifo_with_ledger.py:153-160 | the new books and result are Crypto2CryptoStep of the old |
| LedgerStrategy.FifoWithLedger.PnlSummary | cryptopnl/main/abstract_strategy.py:128-131 | returns the per-year sums and changes nothing |
| LedgerStrategy.FifoWithLedger.Go | cryptopnl/main/abstract_strategy.py:133-136 | processes every trade, then returns 0 unless a trade raised |
| BalanceCheck.CheckBalanceWithFees | cryptopnl/calc/balanceCheck.py:3-11 | raises exactly when a valid row names an asset outside ZEUR, XXBT, XETH and XLTC; otherwise both dictionaries have exactly those keys, `bal` holding each asset's sum of `amount - fee` over its valid rows and `ledgerBal` the balance of its last valid row (0 if none) |
| BalanceCheck.InvalidRowIgnored | cryptopnl/calc/balanceCheck.py:7 | a row without a non-empty string txid, wherever it stands, changes neither dictionary |
| BalanceCheck.PooledTotalByAsset | cryptopnl/calc/balanceCheck.py:6-8 | when every valid row is of a known asset, the four totals add up to the pooled total of `balance_check` |
| BalanceCheck.SingleAssetIsPooled | cryptopnl/calc/balanceCheck.py:6-9 | on a single-asset ledger, the asset's total and last balance are the pooled total and last balance of `balance_check` |

## Left out

- Decimal rounding: Decimal divides to 28 significant digits, and the model's `real`s are exact. `D(str(x))` conversions of pandas floats are taken as exact.
- Floating point: `readKrakenCSV` reads the files with plain `pandas.read_csv`, so prices, volumes, costs, fees and ledger amounts are binary floats. The model takes all of them as exact decimals. It therefore leaves out float rounding in the arithmetic of fifo_with_trades.py and fifo_with_ledger.py. It also leaves out the TypeError Python raises when a float meets one of the wallet's Decimal defaults, for instance a float amount added to a fresh `defaultdict(Decimal)` entry in `add`, or `price * amount` added to the default `Decimal()` fee.
- CSV loading (`Trades.readKrakenCSV`) and pandas: trades and ledger rows are in-memory sequences of records. A trade's `time.year` is a separate `year` field, and a missing txid cell is `None`.
- The file-existence checks of the constructors: the classes are built from an already loaded `Trades`. The ledger strategy's constructor requires a loaded ledger, because the code demands the ledger file.
- Printing in `pnl_summary` and `crypto2crypto`, the logger and the entry point.
- `wallet.getCurrentWalletValue`: it needs a price oracle.
- cryptopnl/calc/cump.py and cryptopnl/calc/plCalculator.py: they target an older wallet interface and network prices.
- The API modules, which do HTTP and JSON work, and cryptopnl/main/pnl_calculator.py, which holds only stubs.
- `abstract_strategy.use_ledger_4_calc`: the code sets it and never reads it.
- Python's `-O` flag, which drops the `assert`s of `process_trade`: the model always checks them.
- The Python exception classes: ValueError, KeyError, IndexError, TypeError and AttributeError become the tags of the `Error` datatype. Each operation's contract says which tags it can return.
- The three strategy classes repeat `ProcessAllTrades`, `PnlSummary` and `Go`. In the code, two of the classes inherit these from `abstract_strategy`. Here they are written once per class and share the pure `Strategy.ProcessAll` and `Strategy.PnlSummary`.
- ProfitsCalculation.ProcessTradeKeepsBalance: proved for trades with non-negative volume and cost. The code accepts any trade, and a negative volume can create a negative lot.
- TradesStrategy.ProcessTradeKeepsBalance: proved for trades with non-negative volume and 0 <= fee <= cost, for the same reason.
- LedgerStrategy.ProcessTradeKeepsBalance: proved for trades whose rows receive at least their fee and spend with a non-negative fee, for the same reason.

## Findings

| source | as written | input that shows it | evidently intended | confidence | as-written member | corrected member |
|---|---|---|---|---|---|---|
| cryptopnl/main/fifo_with_ledger.py:99 | the crypto to crypto branch calls `self.crypto2crypto(trade)`, but the method takes the two rows `(crypto_in, crypto_out)` (line 142), so every swap raises TypeError | ledger rows L1 (XXBT, -2) and L2 (XETH, 30); trade XETHXXBT, type buy, ledgers "L1,L2"; a wallet holding 2 XXBT | `self.crypto2crypto(id_ining, id_outing)`, as test/main/test_fifo_with_ledger.py:158 expects | high, not executed | LedgerStrategy.SwapCallMismatchExample | LedgerStrategy.ProcessTradeStep |
| cryptopnl/main/fifo_with_ledger.py:69 | `trade[Trades.LEDGER_COL]` reads a class attribute that trades.py never defines (its column names, lines 25-35, have no LEDGER_COL), so every lookup raises AttributeError | any trade, for instance the XETHXXBT trade above | the trades file's `ledgers` column | high, not executed | LedgerStrategy.LedgerColumnExample | LedgerStrategy.GetLedgersFromTrade |
