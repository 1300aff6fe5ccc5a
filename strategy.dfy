/** What cryptopnl/main/abstract_strategy.py shares between the strategies: the
    bookkeeping state (a wallet and the realised gains per year), the three-way
    classification of a trade, the in-order processing of all trades, and the
    per-year profit summary. */
module Strategy {
  import opened Outcomes
  import opened Wallets
  import opened PyStrings
  import opened TradeHistory

  /** One realised gain (or loss): the trade's timestamp and its profit in fiat. */
  datatype Gain = Gain(time: int, profit: real)

  /** `fifo_gains`: per calendar year, the gains in the order they were realised. */
  type Gains = map<int, seq<Gain>>

  /** Everything a strategy changes while it processes trades. */
  datatype Books = Books(wallet: WalletState, gains: Gains)

  /** A fresh strategy: an empty wallet of cost 0 and no gains. */
  const Fresh := Books(Empty, map[])

  /** The books after an operation, with its result or the error it raised. */
  datatype Outcome<T> = Outcome(books: Books, result: Result<T>)

  /** A handler's outcome with its return value dropped, as `process_trade` does. */
  function Ignore<T>(o: Outcome<T>): (r: Outcome<()>)
    ensures r.books == o.books && r.result.Ok? == o.result.Ok?
    ensures o.result.Err? ==> r.result.error == o.result.error
  {
    Outcome(o.books, if o.result.Err? then Err(o.result.error) else Ok(()))
  }

  /** `fifo_gains[year]` of the defaultdict(list): empty for a year not seen yet. */
  function GainsOf(g: Gains, year: int): seq<Gain> {
    if year in g then g[year] else []
  }

  /** `fifo_gains[year].append(gain)`. */
  function Record(g: Gains, year: int, gain: Gain): (r: Gains)
    ensures r.Keys == g.Keys + {year}
    ensures GainsOf(r, year) == GainsOf(g, year) + [gain]
    ensures forall y :: y != year ==> GainsOf(r, y) == GainsOf(g, y)
  {
    g[year := GainsOf(g, year) + [gain]]
  }

  /** `sum(p for (_, p) in profits)` */
  function SumProfits(gains: seq<Gain>): real {
    if gains == [] then 0.0 else SumProfits(gains[..|gains| - 1]) + gains[|gains| - 1].profit
  }

  /** `pnl_summary`: one entry per year of `fifo_gains`, the sum of that year's profits. */
  function PnlSummary(g: Gains): (summary: map<int, real>)
    ensures summary.Keys == g.Keys
  {
    map y | y in g :: SumProfits(g[y])
  }

  /** The summary follows the gains one record at a time: recording a gain adds its
      profit to its year's sum (starting from 0 for a new year) and leaves the other
      years alone. */
  lemma PnlSummaryRecord(g: Gains, year: int, gain: Gain)
    ensures PnlSummary(Record(g, year, gain))
            == PnlSummary(g)[year := (if year in g then PnlSummary(g)[year] else 0.0) + gain.profit]
  {
    var gs := GainsOf(g, year);
    assert (gs + [gain])[..|gs + [gain]| - 1] == gs;
    assert SumProfits(gs) == if year in g then PnlSummary(g)[year] else 0.0;
  }

  /** The summary of the gains of the pnl_summary tests: 2020 realises 1 and 2,
      2021 realises 10 and 20. */
  lemma PnlSummaryExample(time: int)
    ensures PnlSummary(map[2020 := [Gain(time, 1.0), Gain(time, 2.0)],
                           2021 := [Gain(time, 10.0), Gain(time, 20.0)]])
            == map[2020 := 3.0, 2021 := 30.0]
  {
    var y20 := [Gain(time, 1.0), Gain(time, 2.0)];
    var y21 := [Gain(time, 10.0), Gain(time, 20.0)];
    assert y20[..1] == [Gain(time, 1.0)] && y21[..1] == [Gain(time, 10.0)];
    assert [Gain(time, 1.0)][..0] == [] && [Gain(time, 10.0)][..0] == [];
    assert SumProfits([Gain(time, 1.0)]) == 1.0 && SumProfits([Gain(time, 10.0)]) == 10.0;
    assert SumProfits(y20) == 3.0;
    assert SumProfits(y21) == 30.0;
  }

  /** The three handlers a trade can go to. */
  datatype Kind = Fiat2Crypto | Crypto2Fiat | Crypto2Crypto

  /** `process_trade`'s dispatch: a pair ending in "EUR" is bought or sold against fiat
      according to its type; every other trade, including an EUR pair whose type is
      neither "buy" nor "sell", is crypto to crypto. */
  function Classify(pair: string, kind: string): (k: Kind)
    ensures k == Fiat2Crypto <==> EndsWith(pair, "EUR") && kind == "buy"
    ensures k == Crypto2Fiat <==> EndsWith(pair, "EUR") && kind == "sell"
    ensures k == Crypto2Crypto <==> !EndsWith(pair, "EUR") || (kind != "buy" && kind != "sell")
  {
    if EndsWith(pair, "EUR") && kind == "buy" then Fiat2Crypto
    else if EndsWith(pair, "EUR") && kind == "sell" then Crypto2Fiat
    else Crypto2Crypto
  }

  /** The asset a fiat trade buys or sells: the pair without its four-letter quote. */
  function FiatAsset(t: Trade): string {
    DropLast(t.pair, 4)
  }

  /** What `process_all_trades` does with the rest of the trades once the ones before
      have been processed: nothing more after an error, since the exception ends the loop. */
  function Continue(o: Outcome<()>, ts: seq<Trade>, step: (Books, Trade) -> Outcome<()>): Outcome<()>
    decreases |ts|, 1
  {
    if o.result.Err? then o else ProcessAll(o.books, ts, step)
  }

  /** `process_all_trades`: `process_trade` on every trade, in file order, stopping at
      the first trade that raises. */
  function ProcessAll(b: Books, ts: seq<Trade>, step: (Books, Trade) -> Outcome<()>): (o: Outcome<()>)
    ensures ts == [] ==> o == Outcome(b, Ok(()))
    decreases |ts|, 0
  {
    if ts == [] then Outcome(b, Ok(()))
    else Continue(step(b, ts[0]), ts[1..], step)
  }

  /** Processing two runs of trades one after the other is processing their
      concatenation: each trade is processed once, in order. */
  lemma {:induction false} ProcessAllAppend(b: Books, xs: seq<Trade>, ys: seq<Trade>,
                                            step: (Books, Trade) -> Outcome<()>)
    ensures ProcessAll(b, xs + ys, step) == Continue(ProcessAll(b, xs, step), ys, step)
    decreases |xs|
  {
    if xs == [] {
      assert xs + ys == ys;
    } else {
      assert (xs + ys)[0] == xs[0] && (xs + ys)[1..] == xs[1..] + ys;
      var o := step(b, xs[0]);
      if o.result.Ok? {
        ProcessAllAppend(o.books, xs[1..], ys, step);
      }
    }
  }

  /** The last trade is processed by one call of `process_trade` on the books the
      earlier trades left, and only if none of them raised. */
  lemma ProcessAllSnoc(b: Books, xs: seq<Trade>, t: Trade, step: (Books, Trade) -> Outcome<()>)
    ensures var o := ProcessAll(b, xs, step);
            ProcessAll(b, xs + [t], step) == if o.result.Err? then o else step(o.books, t)
  {
    ProcessAllAppend(b, xs, [t], step);
    var o := ProcessAll(b, xs, step);
    if o.result.Ok? {
      var o' := step(o.books, t);
      assert ProcessAll(o.books, [t], step) == Continue(o', [], step);
      if o'.result.Ok? {
        var u: () := o'.result.value;
        assert o'.result == Ok(u) && u == ();
      }
    }
  }

  /** The wallet invariant every strategy keeps on its successful trades: the amounts
      equal the lot volumes, and no lot holds a negative volume. */
  ghost predicate Sound(b: Books) {
    Balanced(b.wallet) && LotsNonNegative(b.wallet)
  }

  /** A handler keeps the books sound on every trade that `ok` admits and that goes through. */
  ghost predicate KeepsSound(step: (Books, Trade) -> Outcome<()>, ok: Trade -> bool) {
    forall b: Books, t: Trade :: Sound(b) && ok(t) && step(b, t).result.Ok? ==> Sound(step(b, t).books)
  }

  /** A run of admitted trades that raises nothing, with a handler that keeps the books
      sound one trade at a time, ends with sound books. */
  lemma {:induction false} RunKeepsSound(b: Books, ts: seq<Trade>, step: (Books, Trade) -> Outcome<()>,
                                          ok: Trade -> bool)
    requires Sound(b) && KeepsSound(step, ok)
    requires forall i :: 0 <= i < |ts| ==> ok(ts[i])
    requires ProcessAll(b, ts, step).result.Ok?
    ensures Sound(ProcessAll(b, ts, step).books)
    decreases |ts|
  {
    if ts != [] {
      var o := step(b, ts[0]);
      RunKeepsSound(o.books, ts[1..], step, ok);
    }
  }
}
