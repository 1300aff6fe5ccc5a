/** The strategy of cryptopnl/main/fifo_with_ledger.py: every trade is settled from
    its two ledger rows (the one that brings an asset in and the one that takes an
    asset out) instead of from the trade's own price, cost and fee. */
module LedgerStrategy {
  import opened Outcomes
  import opened Wallets
  import opened PyStrings
  import opened TradeHistory
  import opened Strategy

  /** The index of the first ledger row whose txid is `id`, if any (the first row of
      the pandas selection `l[l.txid == id]`). */
  function FirstWithTxid(ledger: seq<LedgerRow>, id: string): (r: Option<nat>)
    ensures r.None? <==> forall i :: 0 <= i < |ledger| ==> ledger[i].txid != Some(id)
    ensures r.Some? ==> r.value < |ledger| && ledger[r.value].txid == Some(id)
                        && forall j :: 0 <= j < r.value ==> ledger[j].txid != Some(id)
    decreases |ledger|
  {
    if ledger == [] then None
    else if ledger[0].txid == Some(id) then Some(0)
    else
      match FirstWithTxid(ledger[1..], id)
      case None => None
      case Some(i) => Some(i + 1)
  }

  /** `l[l.txid == id].iloc[0]`: the first row with that txid; IndexError when there is none. */
  function RowWithTxid(ledger: seq<LedgerRow>, id: string): (r: Result<LedgerRow>)
    ensures r.Err? <==> forall i :: 0 <= i < |ledger| ==> ledger[i].txid != Some(id)
    ensures r.Err? ==> r.error == TxidNotFound
    ensures r.Ok? ==> r.value.txid == Some(id) && r.value in ledger
  {
    match FirstWithTxid(ledger, id)
    case None => Err(TxidNotFound)
    case Some(i) => Ok(ledger[i])
  }

  /** The two ledger rows of a trade, the incoming one (the asset received) first. */
  datatype Legs = Legs(ining: LedgerRow, outing: LedgerRow)

  /** `get_ledgers_from_trade`: the trade's `ledgers` field split on commas; the rows of
      the first two ids are looked up in that order, and the one whose amount is
      positive comes first. */
  function GetLedgersFromTrade(ledger: seq<LedgerRow>, t: Trade): (r: Result<Legs>)
    ensures var ids := Split(t.ledgers, ',');
            && (r.Ok? <==> |ids| >= 2 && RowWithTxid(ledger, ids[0]).Ok? && RowWithTxid(ledger, ids[1]).Ok?)
            && (r.Ok? ==>
                  var first := RowWithTxid(ledger, ids[0]).value;
                  var second := RowWithTxid(ledger, ids[1]).value;
                  r.value == if first.amount > 0.0 then Legs(first, second) else Legs(second, first))
    ensures r.Err? ==> r.error == TxidNotFound || r.error == LedgerIdMissing
  {
    var ids := Split(t.ledgers, ',');
    var first :- RowWithTxid(ledger, ids[0]);
    if |ids| < 2 then Err(LedgerIdMissing)
    else
      var second :- RowWithTxid(ledger, ids[1]);
      if first.amount > 0.0 then Ok(Legs(first, second)) else Ok(Legs(second, first))
  }

  /** `get_ledgers_from_trade` as written: its first step reads the class attribute
      `Trades.LEDGER_COL`, which trades.py never defines (its column names end with the
      balance column), so every call raises AttributeError before any row is looked up. */
  function GetLedgersAsWritten(ledger: seq<LedgerRow>, t: Trade): (r: Result<Legs>)
    ensures r.Err? && r.error == MissingAttribute
  {
    Err(MissingAttribute)
  }

  /** The lookup of the trades the ledger holds: a trade whose two ids each name one
      row, the first row spending and the second receiving, is settled with the
      receiving row first. */
  lemma GetLedgersOrdersRows(ledger: seq<LedgerRow>, t: Trade, outId: string, inId: string)
    requires t.ledgers == outId + "," + inId && ',' !in outId && ',' !in inId
    requires RowWithTxid(ledger, outId).Ok? && RowWithTxid(ledger, inId).Ok?
    requires RowWithTxid(ledger, outId).value.amount <= 0.0
    ensures GetLedgersFromTrade(ledger, t)
            == Ok(Legs(RowWithTxid(ledger, inId).value, RowWithTxid(ledger, outId).value))
  {
    SplitPair(outId, inId);
  }

  /** Two comma-free ids joined by a comma split back into exactly those two ids. */
  lemma {:induction false} SplitPair(a: string, b: string)
    requires ',' !in a && ',' !in b
    ensures Split(a + "," + b, ',') == [a, b]
    decreases |a|
  {
    if a == [] {
      assert a + "," + b == [','] + b;
      assert ([','] + b)[1..] == b;
      SplitWhole(b);
    } else {
      assert (a + "," + b)[1..] == a[1..] + "," + b;
      SplitPair(a[1..], b);
      assert a == [a[0]] + a[1..];
    }
  }

  /** A comma-free string splits into itself. */
  lemma {:induction false} SplitWhole(s: string)
    requires ',' !in s
    ensures Split(s, ',') == [s]
    decreases |s|
  {
    if s != [] {
      SplitWhole(s[1..]);
      assert s == [s[0]] + s[1..];
    }
  }

  /** `-fiat.amount / crypto.amount`: the fiat paid per unit received. */
  function LedgerPrice(crypto: LedgerRow, fiat: LedgerRow): real
    requires crypto.amount != 0.0
  {
    -fiat.amount / crypto.amount
  }

  /** `fiat2crypto(crypto, fiat)`: a lot of the received amount at the fiat paid per
      unit, with the fiat fee, and the wallet cost raised by the fiat paid and its fee.
      A zero received amount fails on the price before anything changes. */
  function Fiat2CryptoStep(b: Books, crypto: LedgerRow, fiat: LedgerRow): (r: Outcome<()>)
    ensures r.result.Err? <==> crypto.amount == 0.0
    ensures r.result.Err? ==> r == Outcome(b, Err(DivisionByZero))
    ensures r.result.Ok? ==>
              && LotsOf(r.books.wallet, crypto.asset)
                 == LotsOf(b.wallet, crypto.asset) + [NewLot(crypto.amount, LedgerPrice(crypto, fiat), fiat.fee)]
              && AmountOf(r.books.wallet, crypto.asset) == AmountOf(b.wallet, crypto.asset) + crypto.amount
              && (forall a :: a != crypto.asset ==>
                    LotsOf(r.books.wallet, a) == LotsOf(b.wallet, a) && AmountOf(r.books.wallet, a) == AmountOf(b.wallet, a))
              && r.books.wallet.lots.Keys == b.wallet.lots.Keys + {crypto.asset}
              && r.books.wallet.amounts.Keys == b.wallet.amounts.Keys + {crypto.asset}
              && r.books.wallet.cost == b.wallet.cost - fiat.amount + fiat.fee
              && r.books.gains == b.gains
  {
    if crypto.amount == 0.0 then Outcome(b, Err(DivisionByZero))
    else
      var price := LedgerPrice(crypto, fiat);
      var w := AddLot(b.wallet, crypto.asset, crypto.amount, price, fiat.fee);
      Outcome(b.(wallet := CostUpdated(w, -fiat.amount, fiat.fee)), Ok(()))
  }

  /** The lot a purchase adds costs what left the fiat account, fee included: the
      same sum the wallet cost grows by. */
  lemma Fiat2CryptoLotCost(crypto: LedgerRow, fiat: LedgerRow)
    requires crypto.amount != 0.0
    ensures NewLot(crypto.amount, LedgerPrice(crypto, fiat), fiat.fee).cost == -fiat.amount + fiat.fee
  {
    assert LedgerPrice(crypto, fiat) * crypto.amount == -fiat.amount;
  }

  /** What a sale brings in: the fiat received less its fee. */
  function CashIn(fiat: LedgerRow): real {
    fiat.amount - fiat.fee
  }

  /** `crypto2fiat(crypto, fiat)`: the spent amount `-crypto.amount` of the asset is
      taken; the fiat received less its fee, less the basis taken, is recorded as a
      gain of the crypto row's year, and the result says whether that is a profit. */
  function Crypto2FiatStep(b: Books, crypto: LedgerRow, fiat: LedgerRow): (r: Outcome<bool>)
    ensures var taken := TakeFifo(b.wallet, crypto.asset, -crypto.amount);
            && r.books.wallet == taken.0
            && (r.result.Ok? <==> taken.1.Ok?)
            && (r.result.Err? ==> r.books.gains == b.gains && r.result.error == taken.1.error)
            && (r.result.Ok? ==>
                  var basis := SumCost(LotsOf(b.wallet, crypto.asset)) - SumCost(LotsOf(taken.0, crypto.asset));
                  var profit := CashIn(fiat) - basis;
                  && r.books.gains == Record(b.gains, crypto.year, Gain(crypto.time, profit))
                  && (r.result.value <==> profit > 0.0))
  {
    var taken := TakeFifo(b.wallet, crypto.asset, -crypto.amount);
    if taken.1.Err? then Outcome(b.(wallet := taken.0), Err(taken.1.error))
    else
      var profit := CashIn(fiat) - taken.1.value;
      Outcome(Books(taken.0, Record(b.gains, crypto.year, Gain(crypto.time, profit))), Ok(profit > 0.0))
  }

  /** What a row takes out of an asset, its fee included. */
  function SpentAmount(row: LedgerRow): real {
    -row.amount + row.fee
  }

  /** What a row brings in net of its fee. */
  function NetAmount(row: LedgerRow): real {
    row.amount - row.fee
  }

  /** `crypto2crypto(crypto_in, crypto_out)`: the amount spent with its fee,
      `-out.amount + out.fee`, is taken from the outgoing asset; the amount received
      less its fee is added to the incoming asset as one lot carrying exactly the
      basis taken. No gain is recorded and the wallet cost does not move. A net
      received amount of zero fails on the division after the take. */
  function Crypto2CryptoStep(b: Books, cryptoIn: LedgerRow, cryptoOut: LedgerRow): (r: Outcome<()>)
    ensures var bought := NetAmount(cryptoIn);
            var taken := TakeFifo(b.wallet, cryptoOut.asset, SpentAmount(cryptoOut));
            && r.books.gains == b.gains
            && r.books.wallet.cost == b.wallet.cost
            && (r.result.Ok? <==> taken.1.Ok? && bought != 0.0)
            && (r.result.Err? ==> r.books.wallet == taken.0)
            && (r.result.Ok? ==>
                  && LotsOf(r.books.wallet, cryptoIn.asset)
                     == LotsOf(taken.0, cryptoIn.asset) + [NewLot(bought, UnitBasis(taken.1.value, bought), 0.0)]
                  && AmountOf(r.books.wallet, cryptoIn.asset) == AmountOf(taken.0, cryptoIn.asset) + bought
                  && (forall a :: a != cryptoIn.asset ==>
                        LotsOf(r.books.wallet, a) == LotsOf(taken.0, a) && AmountOf(r.books.wallet, a) == AmountOf(taken.0, a))
                  && r.books.wallet.lots.Keys == taken.0.lots.Keys + {cryptoIn.asset}
                  && r.books.wallet.amounts.Keys == taken.0.amounts.Keys + {cryptoIn.asset})
  {
    var bought := NetAmount(cryptoIn);
    var taken := TakeFifo(b.wallet, cryptoOut.asset, SpentAmount(cryptoOut));
    if taken.1.Err? then Outcome(b.(wallet := taken.0), Err(taken.1.error))
    else if bought == 0.0 then Outcome(b.(wallet := taken.0), Err(DivisionByZero))
    else Outcome(b.(wallet := AddLot(taken.0, cryptoIn.asset, bought, UnitBasis(taken.1.value, bought), 0.0)), Ok(()))
  }

  /** A successful swap moves the basis from one asset to the other unchanged: the
      lots of the two assets carry, together, the cost they carried before. */
  lemma Crypto2CryptoKeepsCost(b: Books, cryptoIn: LedgerRow, cryptoOut: LedgerRow)
    requires Crypto2CryptoStep(b, cryptoIn, cryptoOut).result.Ok?
    ensures var sold := cryptoOut.asset;
            var bought := cryptoIn.asset;
            var w := Crypto2CryptoStep(b, cryptoIn, cryptoOut).books.wallet;
            (if sold == bought then SumCost(LotsOf(w, sold)) else SumCost(LotsOf(w, sold)) + SumCost(LotsOf(w, bought)))
            == (if sold == bought then SumCost(LotsOf(b.wallet, sold))
                else SumCost(LotsOf(b.wallet, sold)) + SumCost(LotsOf(b.wallet, bought)))
  {
    var amount := NetAmount(cryptoIn);
    var (w, taken) := TakeFifo(b.wallet, cryptoOut.asset, SpentAmount(cryptoOut));
    var lot := NewLot(amount, UnitBasis(taken.value, amount), 0.0);
    CarriedLotCost(taken.value, amount);
    SumCostAppend(LotsOf(w, cryptoIn.asset), [lot]);
    assert SumCost([lot]) == taken.value;
  }

  /** The checks `process_trade` makes before a fiat trade, as `assert`s: the trade's
      volume must be the crypto row's amount (with the sign of a sale turned), and its
      price the fiat moved per crypto unit. The price is a division, which fails first
      when the crypto row's amount is zero. */
  function CheckFiatTrade(t: Trade, crypto: LedgerRow, fiat: LedgerRow, sale: bool): (r: Result<()>)
    ensures r.Ok? <==> crypto.amount != 0.0 && t.vol == (if sale then -crypto.amount else crypto.amount)
                       && t.price * crypto.amount == -fiat.amount
    ensures r.Err? ==> r.error == AssertionFailed || r.error == DivisionByZero
  {
    if t.vol != (if sale then -crypto.amount else crypto.amount) then Err(AssertionFailed)
    else if crypto.amount == 0.0 then Err(DivisionByZero)
    else if t.price != -fiat.amount / crypto.amount then Err(AssertionFailed)
    else Ok(())
  }

  /** `process_trade` once the rows are found: the checks and the handler of the
      trade's kind; `swap` stands for what the crypto to crypto branch does. */
  function Dispatch(b: Books, t: Trade, legs: Legs, swap: Outcome<()>): (r: Outcome<()>)
    ensures Classify(t.pair, t.kind) == Fiat2Crypto ==>
              var checked := CheckFiatTrade(t, legs.ining, legs.outing, false);
              && (checked.Err? ==> r == Outcome(b, Err(checked.error)))
              && (checked.Ok? ==> r == Fiat2CryptoStep(b, legs.ining, legs.outing))
    ensures Classify(t.pair, t.kind) == Crypto2Fiat ==>
              var checked := CheckFiatTrade(t, legs.outing, legs.ining, true);
              var sale := Crypto2FiatStep(b, legs.outing, legs.ining);
              && (checked.Err? ==> r == Outcome(b, Err(checked.error)))
              && (checked.Ok? ==> r.books == sale.books && (r.result.Ok? <==> sale.result.Ok?))
              && (checked.Ok? && r.result.Err? ==> r.result.error == sale.result.error)
    ensures Classify(t.pair, t.kind) == Crypto2Crypto ==> r == swap
  {
    match Classify(t.pair, t.kind)
    case Fiat2Crypto =>
      var checked := CheckFiatTrade(t, legs.ining, legs.outing, false);
      if checked.Err? then Outcome(b, Err(checked.error))
      else Fiat2CryptoStep(b, legs.ining, legs.outing)
    case Crypto2Fiat =>
      var checked := CheckFiatTrade(t, legs.outing, legs.ining, true);
      if checked.Err? then Outcome(b, Err(checked.error))
      else Ignore(Crypto2FiatStep(b, legs.outing, legs.ining))
    case Crypto2Crypto => swap
  }

  /** The one-argument call of `process_trade`, isolated: the rows are found with
      the corrected lookup (as written, the lookup raises before this point), and
      the crypto to crypto branch calls `crypto2crypto(trade)`, one argument short
      of the two ledger rows the method takes, so it raises TypeError before any
      change. */
  function ProcessTradeAsWritten(ledger: seq<LedgerRow>, b: Books, t: Trade): (r: Outcome<()>)
    ensures Classify(t.pair, t.kind) == Crypto2Crypto ==> r.books == b && r.result.Err?
  {
    match GetLedgersFromTrade(ledger, t)
    case Err(e) => Outcome(b, Err(e))
    case Ok(legs) => Dispatch(b, t, legs, Outcome(b, Err(MissingArgument)))
  }

  /** `process_trade` with the crypto to crypto branch passing the two rows it found,
      `crypto2crypto(id_ining, id_outing)`, as the method and its tests expect. */
  function ProcessTradeStep(ledger: seq<LedgerRow>, b: Books, t: Trade): (r: Outcome<()>)
    ensures GetLedgersFromTrade(ledger, t).Err? ==> r == Outcome(b, Err(GetLedgersFromTrade(ledger, t).error))
    ensures Classify(t.pair, t.kind) != Crypto2Crypto ==> r == ProcessTradeAsWritten(ledger, b, t)
    ensures GetLedgersFromTrade(ledger, t).Ok? && Classify(t.pair, t.kind) == Crypto2Crypto ==>
              var legs := GetLedgersFromTrade(ledger, t).value;
              r == Crypto2CryptoStep(b, legs.ining, legs.outing)
  {
    match GetLedgersFromTrade(ledger, t)
    case Err(e) => Outcome(b, Err(e))
    case Ok(legs) => Dispatch(b, t, legs, Crypto2CryptoStep(b, legs.ining, legs.outing))
  }

  /** `process_trade` over a fixed ledger, as `process_all_trades` applies it. */
  function Stepper(ledger: seq<LedgerRow>): (Books, Trade) -> Outcome<()> {
    (b, t) => ProcessTradeStep(ledger, b, t)
  }

  /** The call mismatch: a crypto to crypto trade whose rows are found, whose sold
      asset is held in sufficient quantity and whose net received amount is not zero,
      goes through once the rows are passed, and raises as written. */
  lemma SwapCallMismatch(ledger: seq<LedgerRow>, b: Books, t: Trade, legs: Legs)
    requires Classify(t.pair, t.kind) == Crypto2Crypto && GetLedgersFromTrade(ledger, t) == Ok(legs)
    requires TakeFifo(b.wallet, legs.outing.asset, SpentAmount(legs.outing)).1.Ok?
    requires NetAmount(legs.ining) != 0.0
    ensures ProcessTradeStep(ledger, b, t).result.Ok?
    ensures ProcessTradeAsWritten(ledger, b, t) == Outcome(b, Err(MissingArgument))
  {
  }

  /** The rows of a concrete swap: 2 XXBT spent for 30 XETH, fees nil. */
  const ExampleSpent := LedgerRow(Some("L1"), 0, 2021, "XXBT", -2.0, 0.0, 0.0)
  const ExampleReceived := LedgerRow(Some("L2"), 0, 2021, "XETH", 30.0, 0.0, 30.0)
  const ExampleLedger := [ExampleSpent, ExampleReceived]
  const ExampleSwap := Trade(0, 2021, "XETHXXBT", "buy", 0.0, 2.0, 0.0, 30.0, "L1,L2")

  /** The example's rows are found by their ids, the XETH row received first. */
  lemma ExampleLegs()
    ensures GetLedgersFromTrade(ExampleLedger, ExampleSwap) == Ok(Legs(ExampleReceived, ExampleSpent))
  {
    var ledger := ExampleLedger;
    assert "L1,L2" == "L1" + "," + "L2";
    assert RowWithTxid(ledger, "L1") == Ok(ledger[0]);
    assert RowWithTxid(ledger, "L2") == Ok(ledger[1]) by {
      assert ledger[0].txid != Some("L2");
      assert ledger[1..][0] == ledger[1];
    }
    GetLedgersOrdersRows(ledger, ExampleSwap, "L1", "L2");
  }

  /** The concrete swap of the example, on any books from which 2 XXBT can be taken:
      the corrected step goes through, where the code as written raises. */
  lemma SwapCallMismatchExample(b: Books)
    requires TakeFifo(b.wallet, "XXBT", 2.0).1.Ok?
    ensures ProcessTradeStep(ExampleLedger, b, ExampleSwap).result.Ok?
    ensures ProcessTradeAsWritten(ExampleLedger, b, ExampleSwap) == Outcome(b, Err(MissingArgument))
  {
    assert ExampleSwap.pair[|ExampleSwap.pair| - 3..] == "XBT";
    ExampleLegs();
    assert ExampleSpent.asset == "XXBT" && SpentAmount(ExampleSpent) == 2.0;
    assert NetAmount(ExampleReceived) == 30.0;
    SwapCallMismatch(ExampleLedger, b, ExampleSwap, Legs(ExampleReceived, ExampleSpent));
  }

  /** The missing column name on the example swap: the lookup as written raises, where
      reading the trade's `ledgers` column finds the received row and the spent row. */
  lemma LedgerColumnExample()
    ensures GetLedgersAsWritten(ExampleLedger, ExampleSwap) == Err(MissingAttribute)
    ensures GetLedgersFromTrade(ExampleLedger, ExampleSwap).Ok?
    ensures GetLedgersFromTrade(ExampleLedger, ExampleSwap).value.ining.asset == "XETH"
  {
    ExampleLegs();
  }

  /** The rows the balance lemmas admit for a trade: both are found, the incoming one
      receives at least its non-negative fee, and the outgoing one spends a
      non-negative amount and pays a non-negative fee. */
  predicate LegsAdmitted(ledger: seq<LedgerRow>, t: Trade) {
    && GetLedgersFromTrade(ledger, t).Ok?
    && var legs := GetLedgersFromTrade(ledger, t).value;
       && legs.ining.amount >= legs.ining.fee >= 0.0
       && legs.outing.amount <= 0.0 <= legs.outing.fee
  }

  /** Every trade with admitted rows that goes through keeps the amounts equal to the
      lot volumes and the lots non-negative. */
  lemma ProcessTradeKeepsBalance(ledger: seq<LedgerRow>, b: Books, t: Trade)
    requires Sound(b) && LegsAdmitted(ledger, t)
    requires ProcessTradeStep(ledger, b, t).result.Ok?
    ensures Sound(ProcessTradeStep(ledger, b, t).books)
  {
    var legs := GetLedgersFromTrade(ledger, t).value;
    DispatchKeepsBalance(b, t, legs.ining, legs.outing);
  }

  /** The same, once the two rows are found. */
  lemma DispatchKeepsBalance(b: Books, t: Trade, i: LedgerRow, o: LedgerRow)
    requires Sound(b)
    requires i.amount >= i.fee >= 0.0 && o.amount <= 0.0 <= o.fee
    requires Dispatch(b, t, Legs(i, o), Crypto2CryptoStep(b, i, o)).result.Ok?
    ensures Sound(Dispatch(b, t, Legs(i, o), Crypto2CryptoStep(b, i, o)).books)
  {
    var r := Dispatch(b, t, Legs(i, o), Crypto2CryptoStep(b, i, o));
    match Classify(t.pair, t.kind)
    case Fiat2Crypto =>
      assert r == Fiat2CryptoStep(b, i, o);
      Fiat2CryptoKeepsBalance(b, i, o);
    case Crypto2Fiat =>
      assert r == Ignore(Crypto2FiatStep(b, o, i));
      Crypto2FiatKeepsBalance(b, o, i);
    case Crypto2Crypto =>
      Crypto2CryptoKeepsBalance(b, i, o);
  }

  lemma Fiat2CryptoKeepsBalance(b: Books, crypto: LedgerRow, fiat: LedgerRow)
    requires Sound(b) && crypto.amount >= 0.0
    requires Fiat2CryptoStep(b, crypto, fiat).result.Ok?
    ensures Sound(Fiat2CryptoStep(b, crypto, fiat).books)
  {
    AddKeepsBalance(b.wallet, crypto.asset, crypto.amount, LedgerPrice(crypto, fiat), fiat.fee);
  }

  lemma Crypto2FiatKeepsBalance(b: Books, crypto: LedgerRow, fiat: LedgerRow)
    requires Sound(b) && crypto.amount <= 0.0
    requires Crypto2FiatStep(b, crypto, fiat).result.Ok?
    ensures Sound(Crypto2FiatStep(b, crypto, fiat).books)
  {
    TakeKeepsBalance(b.wallet, crypto.asset, -crypto.amount);
  }

  lemma Crypto2CryptoKeepsBalance(b: Books, cryptoIn: LedgerRow, cryptoOut: LedgerRow)
    requires Sound(b) && cryptoIn.amount >= cryptoIn.fee && cryptoOut.amount <= cryptoOut.fee
    requires Crypto2CryptoStep(b, cryptoIn, cryptoOut).result.Ok?
    ensures Sound(Crypto2CryptoStep(b, cryptoIn, cryptoOut).books)
  {
    var bought := NetAmount(cryptoIn);
    var taken := TakeFifo(b.wallet, cryptoOut.asset, SpentAmount(cryptoOut));
    assert taken.1.Ok? && bought != 0.0;
    var w := AddLot(taken.0, cryptoIn.asset, bought, UnitBasis(taken.1.value, bought), 0.0);
    var r := Crypto2CryptoStep(b, cryptoIn, cryptoOut).books;
    assert r == Books(w, b.gains);
    TakeThenAddKeepsBalance(b.wallet, cryptoOut.asset, SpentAmount(cryptoOut),
                            cryptoIn.asset, bought, UnitBasis(taken.1.value, bought), 0.0);
  }

  /** A run over trades with admitted rows that raises nothing ends with the amounts
      equal to the lot volumes and no negative lot. */
  lemma RunKeepsBalance(ledger: seq<LedgerRow>, b: Books, ts: seq<Trade>)
    requires Sound(b)
    requires forall i :: 0 <= i < |ts| ==> LegsAdmitted(ledger, ts[i])
    requires ProcessAll(b, ts, Stepper(ledger)).result.Ok?
    ensures Sound(ProcessAll(b, ts, Stepper(ledger)).books)
  {
    var admitted := t => LegsAdmitted(ledger, t);
    forall b': Books, t: Trade | Sound(b') && admitted(t) && Stepper(ledger)(b', t).result.Ok?
      ensures Sound(Stepper(ledger)(b', t).books)
    {
      ProcessTradeKeepsBalance(ledger, b', t);
    }
    RunKeepsSound(b, ts, Stepper(ledger), admitted);
  }

  /** The fifo_with_ledger object: its trades with their ledger, its wallet, and its
      gains per year. */
  class FifoWithLedger {
    const trades: Trades
    const wallet: Wallet
    var fifoGains: Gains

    function State(): Books
      reads this, wallet
    {
      Books(wallet.State(), fifoGains)
    }

    /** The object is built from a trades file and a ledger file, both loaded. */
    constructor (trades: Trades)
      requires trades.ledger.Some?
      ensures this.trades == trades && fresh(wallet)
      ensures State() == Fresh
    {
      this.trades := trades;
      wallet := new Wallet();
      fifoGains := map[];
    }

    method ProcessAllTrades() returns (r: Result<()>)
      requires trades.ledger.Some?
      modifies this, wallet
      ensures Outcome(State(), r) == ProcessAll(old(State()), trades.trades, Stepper(trades.ledger.value))
    {
      var step := Stepper(trades.ledger.value);
      var rows := trades.Rows();
      var i := 0;
      while i < |rows|
        invariant 0 <= i <= |rows|
        invariant ProcessAll(old(State()), trades.trades, step) == ProcessAll(State(), trades.trades[i..], step)
      {
        var (_, trade) := rows[i];
        assert trades.trades[i..][0] == trade && trades.trades[i..][1..] == trades.trades[i + 1..];
        var processed := ProcessTrade(trade);
        if processed.Err? {
          return processed;
        }
        i := i + 1;
      }
      return Ok(());
    }

    method ProcessTrade(t: Trade) returns (r: Result<()>)
      requires trades.ledger.Some?
      modifies this, wallet
      ensures Outcome(State(), r) == ProcessTradeStep(trades.ledger.value, old(State()), t)
    {
      var legs :- GetLedgersFromTrade(trades.ledger.value, t);
      var idIning, idOuting := legs.ining, legs.outing;
      if EndsWith(t.pair, "EUR") && t.kind == "buy" {
        var _ :- CheckFiatTrade(t, idIning, idOuting, false);
        r := Fiat2Crypto(idIning, idOuting);
      } else if EndsWith(t.pair, "EUR") && t.kind == "sell" {
        var _ :- CheckFiatTrade(t, idOuting, idIning, true);
        var isProfit := Crypto2Fiat(idOuting, idIning);
        r := if isProfit.Err? then Err(isProfit.error) else Ok(());
      } else {
        r := Crypto2Crypto(idIning, idOuting);
      }
    }

    method Fiat2Crypto(crypto: LedgerRow, fiat: LedgerRow) returns (r: Result<()>)
      modifies wallet
      ensures Outcome(State(), r) == Fiat2CryptoStep(old(State()), crypto, fiat)
    {
      if crypto.amount == 0.0 {
        return Err(DivisionByZero);
      }
      var price := -fiat.amount / crypto.amount;
      assert price == LedgerPrice(crypto, fiat);
      wallet.Add(crypto.asset, crypto.amount, price, fiat.fee);
      wallet.UpdateCost(-fiat.amount, fiat.fee);
      return Ok(());
    }

    method Crypto2Fiat(crypto: LedgerRow, fiat: LedgerRow) returns (r: Result<bool>)
      modifies this, wallet
      ensures Outcome(State(), r) == Crypto2FiatStep(old(State()), crypto, fiat)
    {
      var cryptoName := crypto.asset;
      var initialCost :- wallet.Take(cryptoName, -crypto.amount);
      var cashIn := fiat.amount - fiat.fee;
      var profit := cashIn - initialCost;
      fifoGains := fifoGains[crypto.year := GainsOf(fifoGains, crypto.year) + [Gain(crypto.time, profit)]];
      return Ok(profit > 0.0);
    }

    method Crypto2Crypto(cryptoIn: LedgerRow, cryptoOut: LedgerRow) returns (r: Result<()>)
      modifies wallet
      ensures Outcome(State(), r) == Crypto2CryptoStep(old(State()), cryptoIn, cryptoOut)
    {
      var cryptoBought := cryptoIn.asset;
      var cryptoSold := cryptoOut.asset;
      var boughtAmount := NetAmount(cryptoIn);
      var soldAmount := -cryptoOut.amount + cryptoOut.fee;
      assert soldAmount == SpentAmount(cryptoOut);
      var initialCostInFiat :- wallet.Take(cryptoSold, soldAmount);
      if boughtAmount == 0.0 {
        return Err(DivisionByZero);
      }
      var equivalentPrice := initialCostInFiat / boughtAmount;
      assert equivalentPrice == UnitBasis(initialCostInFiat, boughtAmount);
      wallet.Add(cryptoBought, boughtAmount, equivalentPrice, 0.0);
      return Ok(());
    }

    /** `pnl_summary` reads the gains and changes nothing. */
    method PnlSummary() returns (summary: map<int, real>)
      ensures summary == Strategy.PnlSummary(fifoGains)
    {
      summary := map year | year in fifoGains :: SumProfits(fifoGains[year]);
    }

    /** `go`: every trade, then the summary; 0 when no trade raised. */
    method Go() returns (r: Result<int>)
      requires trades.ledger.Some?
      modifies this, wallet
      ensures var o := ProcessAll(old(State()), trades.trades, Stepper(trades.ledger.value));
              State() == o.books && r == if o.result.Err? then Err(o.result.error) else Ok(0)
    {
      var processed := ProcessAllTrades();
      if processed.Err? {
        return Err(processed.error);
      }
      var _ := PnlSummary();
      return Ok(0);
    }
  }
}
