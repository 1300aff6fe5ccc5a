/** The lot ledger of cryptopnl/wallet/wallet.py: per asset, an ordered list of
    acquisition lots consumed oldest-first, a running amount per asset and a
    scalar wallet cost. Decimal values are modelled as exact reals. */
module Wallets {
  import opened Outcomes

  /** One acquisition chunk: its remaining fiat cost, its remaining volume and its unit price. */
  datatype Lot = Lot(cost: real, vol: real, price: real)

  /** A lot taken whole: volume and cost drop to zero, the price stays. */
  function Emptied(l: Lot): Lot {
    l.(vol := 0.0, cost := 0.0)
  }

  /** The share of a lot's cost that `v` of its units carry: `cost * (v / vol)`. */
  function ExtraCost(l: Lot, v: real): real
    requires l.vol != 0.0
  {
    l.cost * (v / l.vol)
  }

  /** A lot of which `v` units are taken: the cost drops by their share. */
  function Reduced(l: Lot, v: real): (r: Lot)
    requires l.vol != 0.0
    ensures r.vol == l.vol - v && r.price == l.price
  {
    l.(vol := l.vol - v, cost := l.cost - ExtraCost(l, v))
  }

  /** What is left of a reduced lot keeps the lot's cost per unit. */
  lemma ReducedKeepsUnitCost(l: Lot, v: real)
    requires l.vol != 0.0
    ensures Reduced(l, v).cost * l.vol == l.cost * Reduced(l, v).vol
  {
    assert ExtraCost(l, v) * l.vol == l.cost * v;
  }

  function SumVol(lots: seq<Lot>): real {
    if lots == [] then 0.0 else lots[0].vol + SumVol(lots[1..])
  }

  function SumCost(lots: seq<Lot>): real {
    if lots == [] then 0.0 else lots[0].cost + SumCost(lots[1..])
  }

  lemma {:induction false} SumVolAppend(a: seq<Lot>, b: seq<Lot>)
    ensures SumVol(a + b) == SumVol(a) + SumVol(b)
  {
    if a != [] {
      assert (a + b)[1..] == a[1..] + b;
      SumVolAppend(a[1..], b);
    } else {
      assert a + b == b;
    }
  }

  lemma {:induction false} SumCostAppend(a: seq<Lot>, b: seq<Lot>)
    ensures SumCost(a + b) == SumCost(a) + SumCost(b)
  {
    if a != [] {
      assert (a + b)[1..] == a[1..] + b;
      SumCostAppend(a[1..], b);
    } else {
      assert a + b == b;
    }
  }

  predicate NonNegative(lots: seq<Lot>) {
    forall i :: 0 <= i < |lots| ==> lots[i].vol >= 0.0
  }

  /** What the loop of `take` leaves: the lots after it, the basis withdrawn, the volume
      still to take, and whether it stopped on a division by a zero volume. */
  datatype Taken = Taken(lots: seq<Lot>, basis: real, remaining: real, divByZero: bool)

  /** The FIFO walk of `take` over one asset's lots: a lot whose volume fits in what is
      still to take is emptied and its whole cost withdrawn; the first lot that does not
      fit is reduced proportionally and the walk stops there. */
  function FifoTake(lots: seq<Lot>, vol: real): (t: Taken)
    ensures |t.lots| == |lots|
    decreases |lots|
  {
    if lots == [] then Taken([], 0.0, vol, false)
    else if lots[0].vol <= vol then
      var rest := FifoTake(lots[1..], vol - lots[0].vol);
      Taken([Emptied(lots[0])] + rest.lots, lots[0].cost + rest.basis, rest.remaining, rest.divByZero)
    else if lots[0].vol == 0.0 then Taken(lots, 0.0, vol, true)
    else
      Taken([Reduced(lots[0], vol)] + lots[1..], ExtraCost(lots[0], vol), 0.0, false)
  }

  /** Cost conservation: whatever the walk withdraws as basis leaves the lots' total cost. */
  lemma {:induction false} FifoCostConserved(lots: seq<Lot>, vol: real)
    ensures SumCost(lots) == SumCost(FifoTake(lots, vol).lots) + FifoTake(lots, vol).basis
    decreases |lots|
  {
    if lots != [] && lots[0].vol <= vol {
      var rest := FifoTake(lots[1..], vol - lots[0].vol);
      FifoCostConserved(lots[1..], vol - lots[0].vol);
      assert ([Emptied(lots[0])] + rest.lots)[1..] == rest.lots;
    } else if lots != [] && lots[0].vol != 0.0 {
      assert ([Reduced(lots[0], vol)] + lots[1..])[1..] == lots[1..];
    }
  }

  /** Volume accounting: the lots lose exactly the volume that was taken from them. */
  lemma {:induction false} FifoVolumeTaken(lots: seq<Lot>, vol: real)
    ensures SumVol(lots) == SumVol(FifoTake(lots, vol).lots) + (vol - FifoTake(lots, vol).remaining)
    decreases |lots|
  {
    if lots != [] && lots[0].vol <= vol {
      var rest := FifoTake(lots[1..], vol - lots[0].vol);
      FifoVolumeTaken(lots[1..], vol - lots[0].vol);
      assert ([Emptied(lots[0])] + rest.lots)[1..] == rest.lots;
    } else if lots != [] && lots[0].vol != 0.0 {
      assert ([Reduced(lots[0], vol)] + lots[1..])[1..] == lots[1..];
    }
  }

  /** How many leading lots a take of `vol` consumes whole. */
  function WholeLots(lots: seq<Lot>, vol: real): (k: nat)
    ensures k <= |lots|
    decreases |lots|
  {
    if lots == [] || lots[0].vol > vol then 0
    else 1 + WholeLots(lots[1..], vol - lots[0].vol)
  }

  /** Every lot of the list emptied. */
  function EmptiedAll(lots: seq<Lot>): (r: seq<Lot>)
    ensures |r| == |lots|
    ensures forall j :: 0 <= j < |lots| ==> r[j] == Emptied(lots[j])
  {
    seq(|lots|, j requires 0 <= j < |lots| => Emptied(lots[j]))
  }

  /** The walk first empties the k = WholeLots(lots, vol) leading lots, withdrawing their
      whole cost, and then continues on the rest with what is still to take. */
  lemma {:induction false} FifoSplitsAtWholeLots(lots: seq<Lot>, vol: real)
    ensures var k := WholeLots(lots, vol);
            FifoTake(lots, vol)
              == Resume(EmptiedAll(lots[..k]), SumCost(lots[..k]),
                        FifoTake(lots[k..], vol - SumVol(lots[..k])))
    decreases |lots|
  {
    var k := WholeLots(lots, vol);
    if lots == [] || lots[0].vol > vol {
      assert lots[..k] == [] && lots[k..] == lots;
    } else {
      var tail := lots[1..];
      var v := vol - lots[0].vol;
      var k' := WholeLots(tail, v);
      assert k == k' + 1;
      var u := FifoTake(tail[k'..], v - SumVol(tail[..k']));
      FifoSplitsAtWholeLots(tail, v);
      FifoTakeWhole(lots, vol);
      ResumeResume([Emptied(lots[0])], lots[0].cost, EmptiedAll(tail[..k']), SumCost(tail[..k']), u);
      ConsPrefix(lots, k);
      var left := vol - SumVol(lots[..k]);
      assert lots[k..] == tail[k'..] && left == v - SumVol(tail[..k']);
    }
  }

  /** A lot that fits in what is left to take is emptied, and the walk goes on. */
  lemma FifoTakeWhole(lots: seq<Lot>, vol: real)
    requires lots != [] && lots[0].vol <= vol
    ensures FifoTake(lots, vol) == Resume([Emptied(lots[0])], lots[0].cost, FifoTake(lots[1..], vol - lots[0].vol))
  {
  }

  /** Walking in two stretches is walking once. */
  lemma ResumeResume(d1: seq<Lot>, c1: real, d2: seq<Lot>, c2: real, t: Taken)
    ensures Resume(d1, c1, Resume(d2, c2, t)) == Resume(d1 + d2, c1 + c2, t)
  {
    assert d1 + (d2 + t.lots) == (d1 + d2) + t.lots;
  }

  /** The first k lots are the head lot followed by the first k - 1 lots of the tail. */
  lemma ConsPrefix(lots: seq<Lot>, k: nat)
    requires 1 <= k <= |lots|
    ensures SumVol(lots[..k]) == lots[0].vol + SumVol(lots[1..][..k - 1])
    ensures SumCost(lots[..k]) == lots[0].cost + SumCost(lots[1..][..k - 1])
    ensures lots[k..] == lots[1..][k - 1..]
    ensures EmptiedAll(lots[..k]) == [Emptied(lots[0])] + EmptiedAll(lots[1..][..k - 1])
  {
    var prefix := lots[..k];
    assert prefix[0] == lots[0] && prefix[1..] == lots[1..][..k - 1];
  }

  /** The FIFO order of `take`: with k = WholeLots(lots, vol) and `left` the volume still
      to take when lot k is reached, lots 0..k-1 are emptied and their costs withdrawn;
      lot k (if any) is larger than `left`, is reduced by `left` with its cost split in
      proportion, and every later lot is untouched. */
  lemma FifoShape(lots: seq<Lot>, vol: real)
    ensures var k := WholeLots(lots, vol);
            var t := FifoTake(lots, vol);
            var left := vol - SumVol(lots[..k]);
            && (forall j :: 0 <= j < k ==> t.lots[j] == Emptied(lots[j]))
            && (k == |lots| ==> !t.divByZero && t.remaining == left && t.basis == SumCost(lots))
            && (k < |lots| ==> lots[k].vol > left && t.lots[k + 1..] == lots[k + 1..])
            && (k < |lots| && lots[k].vol == 0.0 ==>
                  t.divByZero && t.lots[k] == lots[k] && t.remaining == left
                  && t.basis == SumCost(lots[..k]))
            && (k < |lots| && lots[k].vol != 0.0 ==>
                  !t.divByZero && t.lots[k] == Reduced(lots[k], left) && t.remaining == 0.0
                  && t.basis == SumCost(lots[..k]) + ExtraCost(lots[k], left))
  {
    var k := WholeLots(lots, vol);
    FifoStops(lots, vol);
    if k == |lots| {
      assert lots[..k] == lots;
    }
    ShapeAfterSplit(lots, k, vol - SumVol(lots[..k]), SumCost(lots[..k]), FifoTake(lots, vol));
  }

  /** Where the walk that has emptied the first k lots ends: with nothing more to walk
      if k is the number of lots, otherwise at lot k, which it either cannot divide by
      (a zero volume) or reduces by what is left to take. */
  ghost function StopAt(lots: seq<Lot>, k: nat, left: real): Taken
    requires k <= |lots|
  {
    if k == |lots| then Taken([], 0.0, left, false)
    else if lots[k].vol == 0.0 then Taken(lots[k..], 0.0, left, true)
    else Taken([Reduced(lots[k], left)] + lots[k + 1..], ExtraCost(lots[k], left), 0.0, false)
  }

  /** The walk empties the k = WholeLots(lots, vol) leading lots and stops right after. */
  lemma FifoStops(lots: seq<Lot>, vol: real)
    ensures var k := WholeLots(lots, vol);
            var left := vol - SumVol(lots[..k]);
            && (k < |lots| ==> lots[k].vol > left)
            && FifoTake(lots, vol) == Resume(EmptiedAll(lots[..k]), SumCost(lots[..k]), StopAt(lots, k, left))
  {
    var k := WholeLots(lots, vol);
    var left := vol - SumVol(lots[..k]);
    FifoSplitsAtWholeLots(lots, vol);
    WholeLotsStop(lots, vol);
    StopAtIsWalk(lots, k, left);
  }

  /** From a lot larger than what is left to take (or from the end), the walk is StopAt. */
  lemma StopAtIsWalk(lots: seq<Lot>, k: nat, left: real)
    requires k <= |lots|
    requires k < |lots| ==> lots[k].vol > left
    ensures FifoTake(lots[k..], left) == StopAt(lots, k, left)
  {
    if k == |lots| {
      assert lots[k..] == [];
    } else {
      assert lots[k..][0] == lots[k] && lots[k..][1..] == lots[k + 1..];
      FifoTakeStops(lots[k..], left);
    }
  }

  /** The shape of a walk that has emptied the first k lots, withdrawing `c`, and then
      stopped as StopAt says. */
  lemma ShapeAfterSplit(lots: seq<Lot>, k: nat, left: real, c: real, t: Taken)
    requires k <= |lots|
    requires k < |lots| ==> lots[k].vol > left
    requires t == Resume(EmptiedAll(lots[..k]), c, StopAt(lots, k, left))
    ensures forall j :: 0 <= j < k ==> t.lots[j] == Emptied(lots[j])
    ensures k == |lots| ==> !t.divByZero && t.remaining == left && t.basis == c
    ensures k < |lots| ==> lots[k].vol > left && t.lots[k + 1..] == lots[k + 1..]
    ensures k < |lots| && lots[k].vol == 0.0 ==>
              t.divByZero && t.lots[k] == lots[k] && t.remaining == left && t.basis == c
    ensures k < |lots| && lots[k].vol != 0.0 ==>
              !t.divByZero && t.lots[k] == Reduced(lots[k], left) && t.remaining == 0.0
              && t.basis == c + ExtraCost(lots[k], left)
  {
    var head := EmptiedAll(lots[..k]);
    var u := StopAt(lots, k, left);
    assert t.lots == head + u.lots;
    forall j | 0 <= j < k
      ensures t.lots[j] == Emptied(lots[j])
    {
      assert t.lots[j] == head[j];
    }
    if k < |lots| {
      assert lots[k..][0] == lots[k] && lots[k..][1..] == lots[k + 1..];
      assert t.lots[k] == u.lots[0];
      assert t.lots[k + 1..] == u.lots[1..];
    }
  }

  /** The walk stops at a lot larger than what is left to take. */
  lemma FifoTakeStops(lots: seq<Lot>, vol: real)
    requires lots != [] && lots[0].vol > vol
    ensures lots[0].vol == 0.0 ==> FifoTake(lots, vol) == Taken(lots, 0.0, vol, true)
    ensures lots[0].vol != 0.0 ==>
              FifoTake(lots, vol) == Taken([Reduced(lots[0], vol)] + lots[1..], ExtraCost(lots[0], vol), 0.0, false)
  {
  }

  /** Two lots, 2 units for 100 and then 3 units for 90: taking 3 units empties the
      first lot and takes 1 unit of the second at its cost of 30 per unit, so the
      basis is 130 and the second lot keeps 2 units worth 60. */
  lemma ExampleTake()
    ensures FifoTake([Lot(100.0, 2.0, 50.0), Lot(90.0, 3.0, 30.0)], 3.0)
            == Taken([Lot(0.0, 0.0, 50.0), Lot(60.0, 2.0, 30.0)], 130.0, 0.0, false)
  {
    var lots := [Lot(100.0, 2.0, 50.0), Lot(90.0, 3.0, 30.0)];
    assert lots[1..] == [Lot(90.0, 3.0, 30.0)];
    assert lots[1..][1..] == [];
    assert ExtraCost(lots[1], 1.0) == 30.0;
  }

  /** Where the whole lots end, the next lot (if any) is larger than what is left to take. */
  lemma {:induction false} WholeLotsStop(lots: seq<Lot>, vol: real)
    ensures var k := WholeLots(lots, vol);
            k < |lots| ==> lots[k].vol > vol - SumVol(lots[..k])
    decreases |lots|
  {
    var k := WholeLots(lots, vol);
    if lots != [] && lots[0].vol <= vol {
      var tail := lots[1..];
      WholeLotsStop(tail, vol - lots[0].vol);
      assert lots[..k][1..] == tail[..k - 1];
      if k < |lots| {
        assert lots[k] == tail[k - 1];
      }
    } else {
      assert lots[..k] == [];
    }
  }

  /** With non-negative lots and a non-negative request, the walk never divides by zero,
      never over-takes, keeps the lots non-negative, and leaves volume to take only after
      emptying every lot. */
  lemma {:induction false} FifoNonNegative(lots: seq<Lot>, vol: real)
    requires NonNegative(lots) && vol >= 0.0
    ensures var t := FifoTake(lots, vol);
            && !t.divByZero && t.remaining >= 0.0 && NonNegative(t.lots)
            && (t.remaining > 0.0 ==> forall i :: 0 <= i < |lots| ==> t.lots[i] == Emptied(lots[i]))
    decreases |lots|
  {
    if lots != [] && lots[0].vol <= vol {
      var rest := FifoTake(lots[1..], vol - lots[0].vol);
      assert NonNegative(lots[1..]) by {
        forall i | 0 <= i < |lots[1..]| ensures lots[1..][i].vol >= 0.0 {
          assert lots[1..][i] == lots[i + 1];
        }
      }
      FifoNonNegative(lots[1..], vol - lots[0].vol);
      var t := FifoTake(lots, vol);
      assert t.lots == [Emptied(lots[0])] + rest.lots;
      forall i | 0 <= i < |t.lots| ensures t.lots[i].vol >= 0.0 {
        if i > 0 { assert t.lots[i] == rest.lots[i - 1]; }
      }
      if t.remaining > 0.0 {
        forall i | 0 <= i < |lots| ensures t.lots[i] == Emptied(lots[i]) {
          if i > 0 { assert t.lots[i] == rest.lots[i - 1] && lots[i] == lots[1..][i - 1]; }
        }
      }
    } else if lots != [] {
      var t := FifoTake(lots, vol);
      assert lots[0].vol > vol >= 0.0;
      forall i | 0 <= i < |t.lots| ensures t.lots[i].vol >= 0.0 {
        if i > 0 { assert t.lots[i] == lots[i]; }
      }
    }
  }

  /** The wallet's whole state: lots per asset, running amounts, and the wallet cost. */
  datatype WalletState = WalletState(lots: map<string, seq<Lot>>, amounts: map<string, real>, cost: real)

  /** A fresh wallet: no lots, no amounts, cost 0. */
  const Empty := WalletState(map[], map[], 0.0)

  /** `self.wallet[crypto]` of the defaultdict(list): no lots for an unseen asset. */
  function LotsOf(w: WalletState, crypto: string): seq<Lot> {
    if crypto in w.lots then w.lots[crypto] else []
  }

  /** `self.amounts[crypto]` of the defaultdict(Decimal): zero for an unseen asset. */
  function AmountOf(w: WalletState, crypto: string): real {
    if crypto in w.amounts then w.amounts[crypto] else 0.0
  }

  /** The lot `add` builds: `amount` units at `price`, costing `price * amount + fee`. */
  function NewLot(amount: real, price: real, fee: real): (l: Lot)
    ensures l.vol == amount && l.price == price
  {
    Lot(price * amount + fee, amount, price)
  }

  /** A lot priced at a basis per unit with no fee costs exactly that basis. */
  lemma CarriedLotCost(basis: real, amount: real)
    requires amount != 0.0
    ensures NewLot(amount, UnitBasis(basis, amount), 0.0).cost == basis
  {
  }

  /** A basis spread over `amount` units: the price of each. */
  function UnitBasis(basis: real, amount: real): real
    requires amount != 0.0
  {
    basis / amount
  }

  /** `add`: one lot appended at the end of the asset's list, the amount raised by its volume. */
  function AddLot(w: WalletState, crypto: string, amount: real, price: real, fee: real): (r: WalletState)
    ensures LotsOf(r, crypto) == LotsOf(w, crypto) + [NewLot(amount, price, fee)]
    ensures AmountOf(r, crypto) == AmountOf(w, crypto) + amount
    ensures r.lots.Keys == w.lots.Keys + {crypto} && r.amounts.Keys == w.amounts.Keys + {crypto}
    ensures forall c :: c != crypto ==> LotsOf(r, c) == LotsOf(w, c) && AmountOf(r, c) == AmountOf(w, c)
    ensures r.cost == w.cost
  {
    w.(lots := w.lots[crypto := LotsOf(w, crypto) + [NewLot(amount, price, fee)]],
       amounts := w.amounts[crypto := AmountOf(w, crypto) + amount])
  }

  /** `take`: the FIFO walk over the asset's lots. The amount is lowered by the whole
      request before the walk, and the walk's mutations stay when it then fails. */
  function TakeFifo(w: WalletState, crypto: string, vol: real): (r: (WalletState, Result<real>))
    ensures crypto !in w.lots ==> r == (w, Err(CryptoNotFound))
    ensures crypto in w.lots ==>
              && r.0.lots.Keys == w.lots.Keys
              && r.0.amounts.Keys == w.amounts.Keys + {crypto}
              && AmountOf(r.0, crypto) == AmountOf(w, crypto) - vol
              && LotsOf(r.0, crypto) == FifoTake(LotsOf(w, crypto), vol).lots
    ensures r.0.cost == w.cost
    ensures forall c :: c != crypto ==> LotsOf(r.0, c) == LotsOf(w, c) && AmountOf(r.0, c) == AmountOf(w, c)
    ensures r.1.Ok? ==> r.1.value == SumCost(LotsOf(w, crypto)) - SumCost(LotsOf(r.0, crypto))
    ensures r.1.Err? ==> r.1.error == CryptoNotFound || r.1.error == InsufficientAmount
                         || r.1.error == DivisionByZero
    ensures r.1 == Err(CryptoNotFound) <==> crypto !in w.lots
  {
    if crypto !in w.lots then (w, Err(CryptoNotFound))
    else
      var t := FifoTake(w.lots[crypto], vol);
      FifoCostConserved(w.lots[crypto], vol);
      var w' := w.(lots := w.lots[crypto := t.lots],
                   amounts := w.amounts[crypto := AmountOf(w, crypto) - vol]);
      (w', if t.divByZero then Err(DivisionByZero)
           else if t.remaining > 0.0 then Err(InsufficientAmount)
           else Ok(t.basis))
  }

  /** `updateCost(cost, fee)`: the wallet cost grows by `cost + fee`; nothing else changes. */
  function CostUpdated(w: WalletState, cost: real, fee: real): (r: WalletState)
    ensures r.cost - w.cost == cost + fee
    ensures r.lots == w.lots && r.amounts == w.amounts
  {
    w.(cost := w.cost + cost + fee)
  }

  /** The invariant `amounts[a] == sum of vol over a's lots`, for exactly the assets with lots. */
  ghost predicate Balanced(w: WalletState) {
    && w.amounts.Keys == w.lots.Keys
    && forall c :: c in w.lots ==> w.amounts[c] == SumVol(w.lots[c])
  }

  ghost predicate LotsNonNegative(w: WalletState) {
    forall c :: c in w.lots ==> NonNegative(w.lots[c])
  }

  /** Adding a lot keeps the amounts equal to the lot volumes, and adding a
      non-negative amount keeps every lot non-negative. */
  lemma AddKeepsBalance(w: WalletState, crypto: string, amount: real, price: real, fee: real)
    requires Balanced(w)
    ensures Balanced(AddLot(w, crypto, amount, price, fee))
    ensures LotsNonNegative(w) && amount >= 0.0 ==> LotsNonNegative(AddLot(w, crypto, amount, price, fee))
  {
    var r := AddLot(w, crypto, amount, price, fee);
    var lot := NewLot(amount, price, fee);
    SumVolAppend(LotsOf(w, crypto), [lot]);
    forall c | c in r.lots ensures r.amounts[c] == SumVol(r.lots[c]) {
      if c != crypto {
        assert LotsOf(r, c) == LotsOf(w, c) && AmountOf(r, c) == AmountOf(w, c);
      }
    }
    if LotsNonNegative(w) && amount >= 0.0 {
      forall c | c in r.lots ensures NonNegative(r.lots[c]) {
        if c != crypto {
          assert LotsOf(r, c) == LotsOf(w, c);
        } else {
          assert r.lots[c] == LotsOf(w, c) + [lot];
        }
      }
    }
  }

  /** A successful take of a non-negative volume keeps the amounts equal to the lot volumes. */
  lemma TakeKeepsBalance(w: WalletState, crypto: string, vol: real)
    requires Balanced(w) && LotsNonNegative(w) && vol >= 0.0
    requires TakeFifo(w, crypto, vol).1.Ok?
    ensures Balanced(TakeFifo(w, crypto, vol).0)
    ensures LotsNonNegative(TakeFifo(w, crypto, vol).0)
  {
    var r := TakeFifo(w, crypto, vol).0;
    FifoNonNegative(w.lots[crypto], vol);
    FifoVolumeTaken(w.lots[crypto], vol);
    forall c | c in r.lots ensures r.amounts[c] == SumVol(r.lots[c]) && NonNegative(r.lots[c]) {
      if c != crypto {
        assert LotsOf(r, c) == LotsOf(w, c) && AmountOf(r, c) == AmountOf(w, c);
      }
    }
  }

  /** A swap's two wallet operations in a row, a successful take and an add of a
      non-negative amount, keep the amounts equal to the lot volumes and every lot
      non-negative. */
  lemma TakeThenAddKeepsBalance(w: WalletState, sold: string, vol: real,
                                bought: string, amount: real, price: real, fee: real)
    requires Balanced(w) && LotsNonNegative(w) && vol >= 0.0 && amount >= 0.0
    requires TakeFifo(w, sold, vol).1.Ok?
    ensures Balanced(AddLot(TakeFifo(w, sold, vol).0, bought, amount, price, fee))
    ensures LotsNonNegative(AddLot(TakeFifo(w, sold, vol).0, bought, amount, price, fee))
  {
    TakeKeepsBalance(w, sold, vol);
    AddKeepsBalance(TakeFifo(w, sold, vol).0, bought, amount, price, fee);
  }

  /** The recorded quirk: a take that runs out of lots has already emptied every lot of
      the asset and lowered its amount by the whole request, so the amount no longer
      matches the (now zero) lot volume. */
  lemma TakeFailureLeavesAmountBehind(w: WalletState, crypto: string, vol: real)
    requires Balanced(w) && LotsNonNegative(w) && vol >= 0.0
    requires TakeFifo(w, crypto, vol).1 == Err(InsufficientAmount)
    ensures var r := TakeFifo(w, crypto, vol).0;
            && (forall i :: 0 <= i < |LotsOf(r, crypto)| ==> LotsOf(r, crypto)[i] == Emptied(LotsOf(w, crypto)[i]))
            && AmountOf(r, crypto) == SumVol(LotsOf(w, crypto)) - vol < 0.0
            && SumVol(LotsOf(r, crypto)) == 0.0
            && !Balanced(r)
  {
    var lots := w.lots[crypto];
    var t := FifoTake(lots, vol);
    FifoNonNegative(lots, vol);
    FifoVolumeTaken(lots, vol);
    ZeroVolumes(t.lots);
  }

  /** `take` succeeds exactly when the asset is in the wallet and the amount held covers
      the request; otherwise it raises (not found, or insufficient amount). */
  lemma TakeSucceedsIff(w: WalletState, crypto: string, vol: real)
    requires Balanced(w) && LotsNonNegative(w) && vol >= 0.0
    ensures TakeFifo(w, crypto, vol).1.Ok? <==> crypto in w.lots && vol <= AmountOf(w, crypto)
    ensures TakeFifo(w, crypto, vol).1.Err? ==> TakeFifo(w, crypto, vol).1.error != DivisionByZero
  {
    if crypto in w.lots {
      var lots := w.lots[crypto];
      var t := FifoTake(lots, vol);
      FifoNonNegative(lots, vol);
      FifoVolumeTaken(lots, vol);
      SumVolNonNegative(t.lots);
      if t.remaining > 0.0 {
        ZeroVolumes(t.lots);
      }
    }
  }

  lemma {:induction false} SumVolNonNegative(lots: seq<Lot>)
    requires NonNegative(lots)
    ensures SumVol(lots) >= 0.0
  {
    if lots != [] {
      assert NonNegative(lots[1..]) by {
        forall i | 0 <= i < |lots[1..]| ensures lots[1..][i].vol >= 0.0 {
          assert lots[1..][i] == lots[i + 1];
        }
      }
      SumVolNonNegative(lots[1..]);
    }
  }

  lemma {:induction false} ZeroVolumes(lots: seq<Lot>)
    requires forall i :: 0 <= i < |lots| ==> lots[i].vol == 0.0
    ensures SumVol(lots) == 0.0
  {
    if lots != [] {
      ZeroVolumes(lots[1..]);
    }
  }

  /** The wallet of the source, with its three fields updated in place. */
  class Wallet {
    /** Per asset, its lots in arrival order (the `wallet` dict of the source). */
    var lots: map<string, seq<Lot>>
    /** Per asset, the running amount held. */
    var amounts: map<string, real>
    var walletCost: real

    function State(): WalletState
      reads this
    {
      WalletState(lots, amounts, walletCost)
    }

    constructor ()
      ensures State() == Empty
    {
      lots := map[];
      amounts := map[];
      walletCost := 0.0;
    }

    method Add(crypto: string, amount: real, price: real, fee: real)
      modifies this
      ensures State() == AddLot(old(State()), crypto, amount, price, fee)
    {
      var chunk := Lot(price * amount + fee, amount, price);
      lots := lots[crypto := LotsOf(State(), crypto) + [chunk]];
      amounts := amounts[crypto := AmountOf(State(), crypto) + amount];
    }

    method Take(crypto: string, vol: real) returns (r: Result<real>)
      modifies this
      ensures (State(), r) == TakeFifo(old(State()), crypto, vol)
    {
      if crypto !in lots {
        return Err(CryptoNotFound);
      }
      amounts := amounts[crypto := AmountOf(State(), crypto) - vol];
      var t := WalkChunks(lots[crypto], vol);
      lots := lots[crypto := t.lots];
      if t.divByZero {
        r := Err(DivisionByZero);
      } else if t.remaining > 0.0 {
        r := Err(InsufficientAmount);
      } else {
        r := Ok(t.basis);
      }
    }

    method GetWalletCost() returns (cost: real)
      ensures cost == walletCost
    {
      cost := walletCost;
    }

    method SetWalletCost(cost: real)
      modifies this
      ensures State() == old(State()).(cost := cost)
    {
      walletCost := cost;
    }

    method UpdateCost(cost: real, fee: real)
      modifies this
      ensures State() == CostUpdated(old(State()), cost, fee)
    {
      walletCost := walletCost + cost + fee;
    }
  }

  /** The lots already walked, followed by the walk of the rest. */
  ghost function Resume(done: seq<Lot>, cost: real, t: Taken): Taken {
    Taken(done + t.lots, cost + t.basis, t.remaining, t.divByZero)
  }

  /** The loop of `take`, walking one asset's chunks in order and updating them in a
      local copy that the caller stores back. */
  method WalkChunks(lots: seq<Lot>, vol: real) returns (t: Taken)
    ensures t == FifoTake(lots, vol)
  {
    var chunks := lots;
    var initialCost := 0.0;
    var remaining := vol;
    var divByZero := false;
    var i := 0;
    while i < |chunks|
      invariant 0 <= i <= |chunks| == |lots|
      invariant chunks[i..] == lots[i..]
      invariant FifoTake(lots, vol) == Resume(chunks[..i], initialCost, FifoTake(lots[i..], remaining))
    {
      var chunk := chunks[i];
      ResumeStep(chunks[..i], initialCost, lots, i, remaining);
      UpdateAt(chunks, lots, i, Emptied(chunk));
      if chunk.vol <= remaining {
        initialCost := initialCost + chunk.cost;
        remaining := remaining - chunk.vol;
        chunks := chunks[i := Emptied(chunk)];
        i := i + 1;
      } else if chunk.vol == 0.0 {
        divByZero := true;
        assert FifoTake(lots, vol) == Taken(chunks, initialCost, remaining, true);
        return Taken(chunks, initialCost, remaining, divByZero);
      } else {
        var extraCost := ExtraCost(chunk, remaining);
        UpdateAt(chunks, lots, i, Reduced(chunk, remaining));
        chunks := chunks[i := chunk.(vol := chunk.vol - remaining, cost := chunk.cost - extraCost)];
        initialCost := initialCost + extraCost;
        remaining := 0.0;
        assert FifoTake(lots, vol) == Taken(chunks, initialCost, 0.0, false);
        return Taken(chunks, initialCost, remaining, divByZero);
      }
    }
    assert chunks[..i] == chunks && lots[i..] == [];
    assert chunks[..i] + [] == chunks;
    return Taken(chunks, initialCost, remaining, divByZero);
  }

  /** The loop's list: lots before the cursor already walked, the rest as they were. */
  lemma UpdateAt(chunks: seq<Lot>, lots: seq<Lot>, i: nat, x: Lot)
    requires i < |lots| == |chunks| && chunks[i..] == lots[i..]
    ensures chunks[i] == lots[i]
    ensures chunks == chunks[..i] + lots[i..]
    ensures chunks[i := x][..i + 1] == chunks[..i] + [x]
    ensures chunks[i := x][i + 1..] == lots[i + 1..]
    ensures chunks[i := x] == chunks[..i] + [x] + lots[i + 1..]
  {
    assert chunks[i] == chunks[i..][0] == lots[i..][0];
    assert chunks == chunks[..i] + chunks[i..];
    assert lots[i..] == [lots[i]] + lots[i + 1..];
  }

  /** One iteration of the loop of `take`, on the walk that is still to come. */
  lemma ResumeStep(done: seq<Lot>, cost: real, lots: seq<Lot>, i: nat, left: real)
    requires i < |lots|
    ensures var l := lots[i];
            Resume(done, cost, FifoTake(lots[i..], left))
              == if l.vol <= left then
                   Resume(done + [Emptied(l)], cost + l.cost, FifoTake(lots[i + 1..], left - l.vol))
                 else if l.vol == 0.0 then Taken(done + lots[i..], cost, left, true)
                 else Taken(done + [Reduced(l, left)] + lots[i + 1..], cost + ExtraCost(l, left), 0.0, false)
  {
    assert lots[i..][0] == lots[i] && lots[i..][1..] == lots[i + 1..];
    var l := lots[i];
    if l.vol <= left {
      var t := FifoTake(lots[i + 1..], left - l.vol);
      assert done + ([Emptied(l)] + t.lots) == (done + [Emptied(l)]) + t.lots;
    } else if l.vol != 0.0 {
      assert done + ([Reduced(l, left)] + lots[i + 1..]) == done + [Reduced(l, left)] + lots[i + 1..];
    }
  }
}
