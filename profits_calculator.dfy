/** The first strategy, cryptopnl/main/profits_calculator.py: fiat trades at the
    trade's own price and volume with no fee capitalised in the lots, and crypto to
    crypto swaps that carry the sold asset's basis over to the bought one. */
module ProfitsCalculation {
  import opened Outcomes
  import opened Wallets
  import opened PyStrings
  import opened TradeHistory
  import opened Strategy

  /** `fiat2crypto`: a lot of `vol` units at `price` (no fee) for `pair[:-4]`, and the
      wallet cost raised by the trade's cost and fee. */
  function Fiat2CryptoStep(b: Books, t: Trade): (r: Books)
    ensures LotsOf(r.wallet, FiatAsset(t)) == LotsOf(b.wallet, FiatAsset(t)) + [NewLot(t.vol, t.price, 0.0)]
    ensures AmountOf(r.wallet, FiatAsset(t)) == AmountOf(b.wallet, FiatAsset(t)) + t.vol
    ensures forall a :: a != FiatAsset(t) ==>
              LotsOf(r.wallet, a) == LotsOf(b.wallet, a) && AmountOf(r.wallet, a) == AmountOf(b.wallet, a)
    ensures r.wallet.lots.Keys == b.wallet.lots.Keys + {FiatAsset(t)}
    ensures r.wallet.amounts.Keys == b.wallet.amounts.Keys + {FiatAsset(t)}
    ensures r.wallet.cost == b.wallet.cost + t.cost + t.fee
    ensures r.gains == b.gains
  {
    b.(wallet := CostUpdated(AddLot(b.wallet, FiatAsset(t), t.vol, t.price, 0.0), t.cost, t.fee))
  }

  /** What a sale brings in: `price * vol` less the fee. */
  function CashIn(t: Trade): real {
    t.price * t.vol - t.fee
  }

  /** `crypto2fiat`: `vol` units of `pair[:-4]` are taken; the proceeds `price * vol`
      less the fee, less the basis taken, are recorded as the year's next gain, and the
      result says whether that is a profit. A failed take records nothing. */
  function Crypto2FiatStep(b: Books, t: Trade): (r: Outcome<bool>)
    ensures var c := FiatAsset(t);
            var w := TakeFifo(b.wallet, c, t.vol).0;
            && r.books.wallet == w
            && (r.result.Ok? <==> TakeFifo(b.wallet, c, t.vol).1.Ok?)
            && (r.result.Err? ==> r.books.gains == b.gains && r.result.error == TakeFifo(b.wallet, c, t.vol).1.error)
            && (r.result.Ok? ==>
                  var profit := CashIn(t) - (SumCost(LotsOf(b.wallet, c)) - SumCost(LotsOf(w, c)));
                  && r.books.gains == Record(b.gains, t.year, Gain(t.time, profit))
                  && (r.result.value <==> profit > 0.0))
  {
    var taken := TakeFifo(b.wallet, FiatAsset(t), t.vol);
    if taken.1.Err? then Outcome(b.(wallet := taken.0), Err(taken.1.error))
    else
      var profit := CashIn(t) - taken.1.value;
      Outcome(Books(taken.0, Record(b.gains, t.year, Gain(t.time, profit))), Ok(profit > 0.0))
  }

  /** The two sides of a crypto to crypto trade: which asset is bought and which sold,
      and how much of each. */
  datatype Legs = Legs(bought: string, sold: string, boughtAmount: real, soldAmount: real)

  /** A buy of a pair buys its first four letters with the rest, spending `cost` to
      receive `vol`; any other type sells the first four letters for the rest. */
  function SwapLegs(t: Trade): (l: Legs)
    ensures t.kind == "buy" ==> l.bought + l.sold == t.pair && l.soldAmount == t.cost && l.boughtAmount == t.vol
    ensures t.kind != "buy" ==> l.sold + l.bought == t.pair && l.soldAmount == t.vol && l.boughtAmount == t.cost
    ensures (if t.kind == "buy" then l.bought else l.sold) == Prefix(t.pair, 4)
  {
    if t.kind == "buy" then Legs(Prefix(t.pair, 4), Suffix(t.pair, 4), t.vol, t.cost)
    else Legs(Suffix(t.pair, 4), Prefix(t.pair, 4), t.cost, t.vol)
  }

  /** `crypto2crypto`: the sold amount is taken, and the bought amount is added as one
      lot priced at the basis per bought unit, so that its cost is exactly the basis.
      No gain is recorded and the wallet cost does not move. A bought amount of zero
      fails on the division after the take. */
  function Crypto2CryptoStep(b: Books, t: Trade): (r: Outcome<()>)
    ensures var l := SwapLegs(t);
            var taken := TakeFifo(b.wallet, l.sold, l.soldAmount);
            && r.books.gains == b.gains
            && r.books.wallet.cost == b.wallet.cost
            && (r.result.Ok? <==> taken.1.Ok? && l.boughtAmount != 0.0)
            && (r.result.Err? ==> r.books.wallet == taken.0)
            && (r.result.Ok? ==>
                  && LotsOf(r.books.wallet, l.bought)
                     == LotsOf(taken.0, l.bought) + [NewLot(l.boughtAmount, UnitBasis(taken.1.value, l.boughtAmount), 0.0)]
                  && AmountOf(r.books.wallet, l.bought) == AmountOf(taken.0, l.bought) + l.boughtAmount
                  && (forall a :: a != l.bought ==>
                        LotsOf(r.books.wallet, a) == LotsOf(taken.0, a) && AmountOf(r.books.wallet, a) == AmountOf(taken.0, a))
                  && r.books.wallet.lots.Keys == taken.0.lots.Keys + {l.bought}
                  && r.books.wallet.amounts.Keys == taken.0.amounts.Keys + {l.bought})
  {
    var l := SwapLegs(t);
    var taken := TakeFifo(b.wallet, l.sold, l.soldAmount);
    if taken.1.Err? then Outcome(b.(wallet := taken.0), Err(taken.1.error))
    else if l.boughtAmount == 0.0 then Outcome(b.(wallet := taken.0), Err(DivisionByZero))
    else
      var price := UnitBasis(taken.1.value, l.boughtAmount);
      Outcome(b.(wallet := AddLot(taken.0, l.bought, l.boughtAmount, price, 0.0)), Ok(()))
  }

  /** `process_trade`: exactly one handler, chosen by Classify. A purchase cannot
      fail; a sale keeps the books and the error of `crypto2fiat` and drops its
      profit flag; a swap is `crypto2crypto` itself. */
  function ProcessTradeStep(b: Books, t: Trade): (r: Outcome<()>)
    ensures Classify(t.pair, t.kind) == Fiat2Crypto ==> r == Outcome(Fiat2CryptoStep(b, t), Ok(()))
    ensures Classify(t.pair, t.kind) == Crypto2Fiat ==>
              && r.books == Crypto2FiatStep(b, t).books
              && (r.result.Ok? <==> Crypto2FiatStep(b, t).result.Ok?)
              && (r.result.Err? ==> r.result.error == Crypto2FiatStep(b, t).result.error)
    ensures Classify(t.pair, t.kind) == Crypto2Crypto ==> r == Crypto2CryptoStep(b, t)
  {
    match Classify(t.pair, t.kind)
    case Fiat2Crypto => Outcome(Fiat2CryptoStep(b, t), Ok(()))
    case Crypto2Fiat => Ignore(Crypto2FiatStep(b, t))
    case Crypto2Crypto => Crypto2CryptoStep(b, t)
  }

  /** The total lot cost of the two assets of a swap (of the one asset, when both
      sides name the same code). */
  function PairCost(w: WalletState, sold: string, bought: string): real {
    if sold == bought then SumCost(LotsOf(w, sold))
    else SumCost(LotsOf(w, sold)) + SumCost(LotsOf(w, bought))
  }

  /** A swap only moves basis between the two assets: the lots of all the assets it
      touches carry, together, the same cost after a successful swap as before. */
  lemma Crypto2CryptoKeepsCost(b: Books, t: Trade)
    requires Crypto2CryptoStep(b, t).result.Ok?
    ensures var l := SwapLegs(t);
            PairCost(Crypto2CryptoStep(b, t).books.wallet, l.sold, l.bought) == PairCost(b.wallet, l.sold, l.bought)
  {
    var l := SwapLegs(t);
    var (w, taken) := TakeFifo(b.wallet, l.sold, l.soldAmount);
    var lot := NewLot(l.boughtAmount, UnitBasis(taken.value, l.boughtAmount), 0.0);
    CarriedLotCost(taken.value, l.boughtAmount);
    SumCostAppend(LotsOf(w, l.bought), [lot]);
    assert SumCost([lot]) == taken.value;
  }

  /** The trades the balance lemmas admit: no negative volume or cost. */
  predicate Admitted(t: Trade) {
    t.vol >= 0.0 && t.cost >= 0.0
  }

  /** Every admitted trade that goes through keeps the amounts equal to the lot
      volumes and the lots non-negative. */
  lemma ProcessTradeKeepsBalance(b: Books, t: Trade)
    requires Sound(b) && Admitted(t)
    requires ProcessTradeStep(b, t).result.Ok?
    ensures Sound(ProcessTradeStep(b, t).books)
  {
    match Classify(t.pair, t.kind)
    case Fiat2Crypto =>
      AddKeepsBalance(b.wallet, FiatAsset(t), t.vol, t.price, 0.0);
    case Crypto2Fiat =>
      TakeKeepsBalance(b.wallet, FiatAsset(t), t.vol);
    case Crypto2Crypto =>
      var l := SwapLegs(t);
      var taken := TakeFifo(b.wallet, l.sold, l.soldAmount);
      TakeKeepsBalance(b.wallet, l.sold, l.soldAmount);
      AddKeepsBalance(taken.0, l.bought, l.boughtAmount, UnitBasis(taken.1.value, l.boughtAmount), 0.0);
  }

  /** A run over admitted trades that raises nothing ends with the amounts equal to
      the lot volumes and no negative lot. */
  lemma RunKeepsBalance(b: Books, ts: seq<Trade>)
    requires Sound(b)
    requires forall i :: 0 <= i < |ts| ==> Admitted(ts[i])
    requires ProcessAll(b, ts, ProcessTradeStep).result.Ok?
    ensures Sound(ProcessAll(b, ts, ProcessTradeStep).books)
  {
    forall b': Books, t: Trade | Sound(b') && Admitted(t) && ProcessTradeStep(b', t).result.Ok?
      ensures Sound(ProcessTradeStep(b', t).books)
    {
      ProcessTradeKeepsBalance(b', t);
    }
    RunKeepsSound(b, ts, ProcessTradeStep, Admitted);
  }

  /** The profitsCalculator object: its trades, its wallet, and its gains per year. */
  class ProfitsCalculator {
    const trades: Trades
    const wallet: Wallet
    var fifoGains: Gains

    function State(): Books
      reads this, wallet
    {
      Books(wallet.State(), fifoGains)
    }

    constructor (trades: Trades)
      ensures this.trades == trades && fresh(wallet)
      ensures State() == Fresh
    {
      this.trades := trades;
      wallet := new Wallet();
      fifoGains := map[];
    }

    method ProcessAllTrades() returns (r: Result<()>)
      modifies this, wallet
      ensures Outcome(State(), r) == ProcessAll(old(State()), trades.trades, ProcessTradeStep)
    {
      var rows := trades.Rows();
      var i := 0;
      while i < |rows|
        invariant 0 <= i <= |rows|
        invariant ProcessAll(old(State()), trades.trades, ProcessTradeStep)
                  == ProcessAll(State(), trades.trades[i..], ProcessTradeStep)
      {
        var (_, trade) := rows[i];
        assert trades.trades[i..][0] == trade && trades.trades[i..][1..] == trades.trades[i + 1..];
        var step := ProcessTrade(trade);
        if step.Err? {
          return step;
        }
        i := i + 1;
      }
      return Ok(());
    }

    method ProcessTrade(t: Trade) returns (r: Result<()>)
      modifies this, wallet
      ensures Outcome(State(), r) == ProcessTradeStep(old(State()), t)
    {
      if EndsWith(t.pair, "EUR") && t.kind == "buy" {
        Fiat2Crypto(t);
        r := Ok(());
      } else if EndsWith(t.pair, "EUR") && t.kind == "sell" {
        var isProfit := Crypto2Fiat(t);
        r := if isProfit.Err? then Err(isProfit.error) else Ok(());
      } else {
        r := Crypto2Crypto(t);
      }
    }

    method Fiat2Crypto(t: Trade)
      modifies wallet
      ensures State() == Fiat2CryptoStep(old(State()), t)
    {
      var crypto := DropLast(t.pair, 4);
      wallet.Add(crypto, t.vol, t.price, 0.0);
      wallet.UpdateCost(t.cost, t.fee);
    }

    method Crypto2Fiat(t: Trade) returns (r: Result<bool>)
      modifies this, wallet
      ensures Outcome(State(), r) == Crypto2FiatStep(old(State()), t)
    {
      var crypto := DropLast(t.pair, 4);
      var initialCost :- wallet.Take(crypto, t.vol);
      var cashIn := t.price * t.vol - t.fee;
      assert cashIn == CashIn(t);
      var profit := cashIn - initialCost;
      fifoGains := fifoGains[t.year := GainsOf(fifoGains, t.year) + [Gain(t.time, profit)]];
      return Ok(profit > 0.0);
    }

    method Crypto2Crypto(t: Trade) returns (r: Result<()>)
      modifies wallet
      ensures Outcome(State(), r) == Crypto2CryptoStep(old(State()), t)
    {
      var cryptoBought, cryptoSold, soldAmount, boughtAmount;
      if t.kind == "buy" {
        cryptoBought := Prefix(t.pair, 4);
        cryptoSold := Suffix(t.pair, 4);
        soldAmount := t.cost;
        boughtAmount := t.vol;
      } else {
        cryptoBought := Suffix(t.pair, 4);
        cryptoSold := Prefix(t.pair, 4);
        soldAmount := t.vol;
        boughtAmount := t.cost;
      }
      var initialCostInFiat :- wallet.Take(cryptoSold, soldAmount);
      if boughtAmount == 0.0 {
        return Err(DivisionByZero);
      }
      var equivalentPrice := initialCostInFiat / boughtAmount;
      assert equivalentPrice == UnitBasis(initialCostInFiat, boughtAmount);
      wallet.Add(cryptoBought, boughtAmount, equivalentPrice, 0.0);
      return Ok(());
    }

    /** `pnl_summary` reads the gains and changes nothing. */
    method PnlSummary() returns (summary: map<int, real>)
      ensures summary == Strategy.PnlSummary(fifoGains)
    {
      summary := map year | year in fifoGains :: SumProfits(fifoGains[year]);
    }

    /** `go`: every trade, then the summary; 0 when no trade raised. */
    method Go() returns (r: Result<int>)
      modifies this, wallet
      ensures var o := ProcessAll(old(State()), trades.trades, ProcessTradeStep);
              State() == o.books && r == if o.result.Err? then Err(o.result.error) else Ok(0)
    {
      var processed := ProcessAllTrades();
      if processed.Err? {
        return Err(processed.error);
      }
      var _ := PnlSummary();
      return Ok(0);
    }
  }
}
