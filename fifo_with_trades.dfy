/** The strategy of cryptopnl/main/fifo_with_trades.py: like the first strategy, but
    fees are capitalised in the lots, a sale's proceeds are the trade's cost less its
    fee, and a swap converts its fee into units of the bought asset. */
module TradesStrategy {
  import opened Outcomes
  import opened Wallets
  import opened PyStrings
  import opened TradeHistory
  import opened Strategy

  /** `fiat2crypto`: a lot of `vol` units at `price` with the trade's fee for
      `pair[:-4]`, and the wallet cost raised by the trade's cost and fee. */
  function Fiat2CryptoStep(b: Books, t: Trade): (r: Books)
    ensures LotsOf(r.wallet, FiatAsset(t)) == LotsOf(b.wallet, FiatAsset(t)) + [NewLot(t.vol, t.price, t.fee)]
    ensures AmountOf(r.wallet, FiatAsset(t)) == AmountOf(b.wallet, FiatAsset(t)) + t.vol
    ensures forall a :: a != FiatAsset(t) ==>
              LotsOf(r.wallet, a) == LotsOf(b.wallet, a) && AmountOf(r.wallet, a) == AmountOf(b.wallet, a)
    ensures r.wallet.lots.Keys == b.wallet.lots.Keys + {FiatAsset(t)}
    ensures r.wallet.amounts.Keys == b.wallet.amounts.Keys + {FiatAsset(t)}
    ensures r.wallet.cost == b.wallet.cost + t.cost + t.fee
    ensures r.gains == b.gains
  {
    b.(wallet := CostUpdated(AddLot(b.wallet, FiatAsset(t), t.vol, t.price, t.fee), t.cost, t.fee))
  }

  /** The fee of a purchase is counted twice: once in the cost of the lot it creates
      and once more in the wallet cost, on top of the trade's cost. */
  lemma FiatFeeCountedTwice(b: Books, t: Trade)
    ensures var r := Fiat2CryptoStep(b, t);
            var a := FiatAsset(t);
            && SumCost(LotsOf(r.wallet, a)) == SumCost(LotsOf(b.wallet, a)) + t.price * t.vol + t.fee
            && r.wallet.cost == b.wallet.cost + t.cost + t.fee
  {
    var a := FiatAsset(t);
    var lot := NewLot(t.vol, t.price, t.fee);
    SumCostAppend(LotsOf(b.wallet, a), [lot]);
    assert SumCost([lot]) == lot.cost;
  }

  /** What a sale brings in: the trade's cost less its fee. */
  function CashIn(t: Trade): real {
    t.cost - t.fee
  }

  /** `crypto2fiat`: `vol` units of `pair[:-4]` are taken; the trade's cost less its
      fee, less the basis taken, is recorded as the year's next gain, and the result
      says whether that is a profit. A failed take records nothing. */
  function Crypto2FiatStep(b: Books, t: Trade): (r: Outcome<bool>)
    ensures var c := FiatAsset(t);
            var w := TakeFifo(b.wallet, c, t.vol).0;
            && r.books.wallet == w
            && (r.result.Ok? <==> TakeFifo(b.wallet, c, t.vol).1.Ok?)
            && (r.result.Err? ==> r.books.gains == b.gains && r.result.error == TakeFifo(b.wallet, c, t.vol).1.error)
            && (r.result.Ok? ==>
                  var profit := CashIn(t) - (SumCost(LotsOf(b.wallet, c)) - SumCost(LotsOf(w, c)));
                  && r.books.gains == Record(b.gains, t.year, Gain(t.time, profit))
                  && (r.result.value <==> profit > 0.0))
  {
    var taken := TakeFifo(b.wallet, FiatAsset(t), t.vol);
    if taken.1.Err? then Outcome(b.(wallet := taken.0), Err(taken.1.error))
    else
      var profit := CashIn(t) - taken.1.value;
      Outcome(Books(taken.0, Record(b.gains, t.year, Gain(t.time, profit))), Ok(profit > 0.0))
  }

  /** The sides of a swap: the asset bought and the one sold, the amounts of each, and
      the fee in units of the bought asset. */
  datatype Swap = Swap(bought: string, sold: string, boughtAmount: real, soldAmount: real, feeUnits: real)

  /** A buy of a pair buys its first four letters with the rest: it spends the cost plus
      the fee and receives `vol`, the fee converted at the trade's price (a zero price
      fails there, before the wallet is touched). Any other type sells the first four
      letters: it spends `vol` and receives the cost less the fee, the fee already in
      units of the bought asset. */
  function SwapOf(t: Trade): (r: Result<Swap>)
    ensures r.Err? <==> t.kind == "buy" && t.price == 0.0
    ensures r.Err? ==> r.error == DivisionByZero
    ensures r.Ok? && t.kind == "buy" ==>
              && r.value.bought == Prefix(t.pair, 4) && r.value.bought + r.value.sold == t.pair
              && r.value.boughtAmount == t.vol && r.value.soldAmount == t.cost + t.fee
              && r.value.feeUnits * t.price == t.fee
    ensures r.Ok? && t.kind != "buy" ==>
              && r.value.sold == Prefix(t.pair, 4) && r.value.sold + r.value.bought == t.pair
              && r.value.boughtAmount == t.cost - t.fee && r.value.soldAmount == t.vol
              && r.value.feeUnits == t.fee
  {
    if t.kind == "buy" then
      if t.price == 0.0 then Err(DivisionByZero)
      else Ok(Swap(Prefix(t.pair, 4), Suffix(t.pair, 4), t.vol, t.cost + t.fee, t.fee / t.price))
    else Ok(Swap(Suffix(t.pair, 4), Prefix(t.pair, 4), t.cost - t.fee, t.vol, t.fee))
  }

  /** The price of the lot a swap adds: the basis per bought unit. */
  function SwapPrice(s: Swap, basis: real): real
    requires s.boughtAmount != 0.0
  {
    basis / s.boughtAmount
  }

  /** The fee of the lot a swap adds: the fee units valued at the swap price. */
  function SwapFee(s: Swap, basis: real): real
    requires s.boughtAmount != 0.0
  {
    SwapPrice(s, basis) * s.feeUnits
  }

  /** The lot a swap adds: the bought amount at the swap price, with the swap fee. */
  function SwapLot(s: Swap, basis: real): (l: Lot)
    requires s.boughtAmount != 0.0
    ensures l.vol == s.boughtAmount && l.cost == basis + SwapFee(s, basis)
  {
    NewLot(s.boughtAmount, SwapPrice(s, basis), SwapFee(s, basis))
  }

  /** The cost of that lot is the basis scaled by the bought units plus the fee units
      over the bought units. */
  lemma SwapLotScaled(s: Swap, basis: real)
    requires s.boughtAmount != 0.0
    ensures SwapLot(s, basis).cost * s.boughtAmount == basis * (s.boughtAmount + s.feeUnits)
  {
    assert SwapFee(s, basis) * s.boughtAmount == basis * s.feeUnits;
  }

  /** `crypto2crypto`: the sold amount is taken and the bought amount is added as one
      lot (SwapLot). No gain is recorded and the wallet cost does not move. A zero
      price on a buy fails before the take; a bought amount of zero fails after it. */
  function Crypto2CryptoStep(b: Books, t: Trade): (r: Outcome<()>)
    ensures r.books.gains == b.gains && r.books.wallet.cost == b.wallet.cost
    ensures SwapOf(t).Err? ==> r == Outcome(b, Err(DivisionByZero))
    ensures SwapOf(t).Ok? ==>
              var s := SwapOf(t).value;
              var taken := TakeFifo(b.wallet, s.sold, s.soldAmount);
              && (r.result.Ok? <==> taken.1.Ok? && s.boughtAmount != 0.0)
              && (r.result.Err? ==> r.books.wallet == taken.0)
              && (r.result.Ok? ==>
                    && LotsOf(r.books.wallet, s.bought)
                       == LotsOf(taken.0, s.bought) + [SwapLot(s, taken.1.value)]
                    && AmountOf(r.books.wallet, s.bought) == AmountOf(taken.0, s.bought) + s.boughtAmount
                    && (forall a :: a != s.bought ==>
                          LotsOf(r.books.wallet, a) == LotsOf(taken.0, a) && AmountOf(r.books.wallet, a) == AmountOf(taken.0, a))
                    && r.books.wallet.lots.Keys == taken.0.lots.Keys + {s.bought}
                    && r.books.wallet.amounts.Keys == taken.0.amounts.Keys + {s.bought})
  {
    match SwapOf(t)
    case Err(e) => Outcome(b, Err(e))
    case Ok(s) =>
      var taken := TakeFifo(b.wallet, s.sold, s.soldAmount);
      if taken.1.Err? then Outcome(b.(wallet := taken.0), Err(taken.1.error))
      else if s.boughtAmount == 0.0 then Outcome(b.(wallet := taken.0), Err(DivisionByZero))
      else
        var basis := taken.1.value;
        Outcome(b.(wallet := AddLot(taken.0, s.bought, s.boughtAmount, SwapPrice(s, basis), SwapFee(s, basis))), Ok(()))
  }

  /** `process_trade`: exactly one handler, chosen by Classify. A purchase cannot
      fail; a sale keeps the books and the error of `crypto2fiat` and drops its
      profit flag; a swap is `crypto2crypto` itself. */
  function ProcessTradeStep(b: Books, t: Trade): (r: Outcome<()>)
    ensures Classify(t.pair, t.kind) == Fiat2Crypto ==> r == Outcome(Fiat2CryptoStep(b, t), Ok(()))
    ensures Classify(t.pair, t.kind) == Crypto2Fiat ==>
              && r.books == Crypto2FiatStep(b, t).books
              && (r.result.Ok? <==> Crypto2FiatStep(b, t).result.Ok?)
              && (r.result.Err? ==> r.result.error == Crypto2FiatStep(b, t).result.error)
    ensures Classify(t.pair, t.kind) == Crypto2Crypto ==> r == Crypto2CryptoStep(b, t)
  {
    match Classify(t.pair, t.kind)
    case Fiat2Crypto => Outcome(Fiat2CryptoStep(b, t), Ok(()))
    case Crypto2Fiat => Ignore(Crypto2FiatStep(b, t))
    case Crypto2Crypto => Crypto2CryptoStep(b, t)
  }

  /** The total lot cost of the two assets of a swap (of the one asset, when both
      sides name the same code). */
  function PairCost(w: WalletState, sold: string, bought: string): real {
    if sold == bought then SumCost(LotsOf(w, sold))
    else SumCost(LotsOf(w, sold)) + SumCost(LotsOf(w, bought))
  }

  /** A successful swap moves the basis taken from the sold asset to the bought one and
      adds the fee on top of it, valued at the basis per bought unit. */
  lemma Crypto2CryptoAddsFee(b: Books, t: Trade)
    requires Crypto2CryptoStep(b, t).result.Ok?
    ensures var s := SwapOf(t).value;
            var basis := TakeFifo(b.wallet, s.sold, s.soldAmount).1.value;
            PairCost(Crypto2CryptoStep(b, t).books.wallet, s.sold, s.bought)
              == PairCost(b.wallet, s.sold, s.bought) + SwapFee(s, basis)
  {
    var s := SwapOf(t).value;
    var (w, taken) := TakeFifo(b.wallet, s.sold, s.soldAmount);
    var lot := SwapLot(s, taken.value);
    SumCostAppend(LotsOf(w, s.bought), [lot]);
    assert SumCost([lot]) == lot.cost == taken.value + SwapFee(s, taken.value);
  }

  /** The trades the balance lemmas admit: no negative volume, cost or fee, and a fee
      no larger than the cost. */
  predicate Admitted(t: Trade) {
    t.vol >= 0.0 && 0.0 <= t.fee <= t.cost
  }

  /** Every admitted trade that goes through keeps the amounts equal to the lot
      volumes and the lots non-negative. */
  lemma ProcessTradeKeepsBalance(b: Books, t: Trade)
    requires Sound(b) && Admitted(t)
    requires ProcessTradeStep(b, t).result.Ok?
    ensures Sound(ProcessTradeStep(b, t).books)
  {
    match Classify(t.pair, t.kind)
    case Fiat2Crypto =>
      AddKeepsBalance(b.wallet, FiatAsset(t), t.vol, t.price, t.fee);
    case Crypto2Fiat =>
      TakeKeepsBalance(b.wallet, FiatAsset(t), t.vol);
    case Crypto2Crypto =>
      var s := SwapOf(t).value;
      var taken := TakeFifo(b.wallet, s.sold, s.soldAmount);
      var basis := taken.1.value;
      TakeKeepsBalance(b.wallet, s.sold, s.soldAmount);
      AddKeepsBalance(taken.0, s.bought, s.boughtAmount, SwapPrice(s, basis), SwapFee(s, basis));
  }

  /** A run over admitted trades that raises nothing ends with the amounts equal to
      the lot volumes and no negative lot. */
  lemma RunKeepsBalance(b: Books, ts: seq<Trade>)
    requires Sound(b)
    requires forall i :: 0 <= i < |ts| ==> Admitted(ts[i])
    requires ProcessAll(b, ts, ProcessTradeStep).result.Ok?
    ensures Sound(ProcessAll(b, ts, ProcessTradeStep).books)
  {
    forall b': Books, t: Trade | Sound(b') && Admitted(t) && ProcessTradeStep(b', t).result.Ok?
      ensures Sound(ProcessTradeStep(b', t).books)
    {
      ProcessTradeKeepsBalance(b', t);
    }
    RunKeepsSound(b, ts, ProcessTradeStep, Admitted);
  }

  /** The fifo_with_trades object: its trades, its wallet, and its gains per year. */
  class FifoWithTrades {
    const trades: Trades
    const wallet: Wallet
    var fifoGains: Gains

    function State(): Books
      reads this, wallet
    {
      Books(wallet.State(), fifoGains)
    }

    constructor (trades: Trades)
      ensures this.trades == trades && fresh(wallet)
      ensures State() == Fresh
    {
      this.trades := trades;
      wallet := new Wallet();
      fifoGains := map[];
    }

    method ProcessAllTrades() returns (r: Result<()>)
      modifies this, wallet
      ensures Outcome(State(), r) == ProcessAll(old(State()), trades.trades, ProcessTradeStep)
    {
      var rows := trades.Rows();
      var i := 0;
      while i < |rows|
        invariant 0 <= i <= |rows|
        invariant ProcessAll(old(State()), trades.trades, ProcessTradeStep)
                  == ProcessAll(State(), trades.trades[i..], ProcessTradeStep)
      {
        var (_, trade) := rows[i];
        assert trades.trades[i..][0] == trade && trades.trades[i..][1..] == trades.trades[i + 1..];
        var step := ProcessTrade(trade);
        if step.Err? {
          return step;
        }
        i := i + 1;
      }
      return Ok(());
    }

    method ProcessTrade(t: Trade) returns (r: Result<()>)
      modifies this, wallet
      ensures Outcome(State(), r) == ProcessTradeStep(old(State()), t)
    {
      if EndsWith(t.pair, "EUR") && t.kind == "buy" {
        Fiat2Crypto(t);
        r := Ok(());
      } else if EndsWith(t.pair, "EUR") && t.kind == "sell" {
        var isProfit := Crypto2Fiat(t);
        r := if isProfit.Err? then Err(isProfit.error) else Ok(());
      } else {
        r := Crypto2Crypto(t);
      }
    }

    method Fiat2Crypto(t: Trade)
      modifies wallet
      ensures State() == Fiat2CryptoStep(old(State()), t)
    {
      var cryptoName := DropLast(t.pair, 4);
      wallet.Add(cryptoName, t.vol, t.price, t.fee);
      wallet.UpdateCost(t.cost, t.fee);
    }

    method Crypto2Fiat(t: Trade) returns (r: Result<bool>)
      modifies this, wallet
      ensures Outcome(State(), r) == Crypto2FiatStep(old(State()), t)
    {
      var crypto := DropLast(t.pair, 4);
      var initialCost :- wallet.Take(crypto, t.vol);
      var cashIn := t.cost - t.fee;
      var profit := cashIn - initialCost;
      fifoGains := fifoGains[t.year := GainsOf(fifoGains, t.year) + [Gain(t.time, profit)]];
      return Ok(profit > 0.0);
    }

    method Crypto2Crypto(t: Trade) returns (r: Result<()>)
      modifies wallet
      ensures Outcome(State(), r) == Crypto2CryptoStep(old(State()), t)
    {
      var s :- SwapOf(t);
      var initialCostInFiat :- wallet.Take(s.sold, s.soldAmount);
      if s.boughtAmount == 0.0 {
        return Err(DivisionByZero);
      }
      var equivalentPrice := initialCostInFiat / s.boughtAmount;
      var feeInFiat := equivalentPrice * s.feeUnits;
      assert equivalentPrice == SwapPrice(s, initialCostInFiat) && feeInFiat == SwapFee(s, initialCostInFiat);
      wallet.Add(s.bought, s.boughtAmount, equivalentPrice, feeInFiat);
      return Ok(());
    }

    /** `pnl_summary` reads the gains and changes nothing. */
    method PnlSummary() returns (summary: map<int, real>)
      ensures summary == Strategy.PnlSummary(fifoGains)
    {
      summary := map year | year in fifoGains :: SumProfits(fifoGains[year]);
    }

    /** `go`: every trade, then the summary; 0 when no trade raised. */
    method Go() returns (r: Result<int>)
      modifies this, wallet
      ensures var o := ProcessAll(old(State()), trades.trades, ProcessTradeStep);
              State() == o.books && r == if o.result.Err? then Err(o.result.error) else Ok(0)
    {
      var processed := ProcessAllTrades();
      if processed.Err? {
        return Err(processed.error);
      }
      var _ := PnlSummary();
      return Ok(0);
    }
  }
}
