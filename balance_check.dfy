/** `checkBalanceWithFees` of cryptopnl/calc/balanceCheck.py: the per-asset totals of a
    ledger's valid rows, net of fees, beside the balance the ledger last reported for
    each of the four assets it knows. */
module BalanceCheck {
  import opened Outcomes
  import opened TradeHistory

  /** The four keys both result dictionaries start with, each at 0. */
  const Assets: set<string> := {"ZEUR", "XXBT", "XETH", "XLTC"}

  /** The two dictionaries, each with the four keys, each at 0. */
  const Zeros: map<string, real> := map["ZEUR" := 0.0, "XXBT" := 0.0, "XETH" := 0.0, "XLTC" := 0.0]

  /** What one row adds to its asset's total: its amount net of its fee. */
  function RowNet(row: LedgerRow): real {
    row.amount - row.fee
  }

  /** Whether a row counts towards asset `a`: it passes the txid filter and is of `a`. */
  predicate CountsFor(row: LedgerRow, a: string) {
    HasTxid(row) && row.asset == a
  }

  /** `bal[a]`: the sum of `amount - fee` over the valid rows of asset `a`. */
  function AssetTotal(rows: seq<LedgerRow>, a: string): real {
    if rows == [] then 0.0
    else
      var last := rows[|rows| - 1];
      AssetTotal(rows[..|rows| - 1], a) + (if CountsFor(last, a) then RowNet(last) else 0.0)
  }

  /** `ledgerBal[a]`: the balance of the last valid row of asset `a`, 0 if there is none. */
  function AssetBalance(rows: seq<LedgerRow>, a: string): real {
    if rows == [] then 0.0
    else if CountsFor(rows[|rows| - 1], a) then rows[|rows| - 1].balance
    else AssetBalance(rows[..|rows| - 1], a)
  }

  /** Every valid row is of one of the four known assets. */
  predicate AllKnown(rows: seq<LedgerRow>) {
    forall i :: 0 <= i < |rows| && HasTxid(rows[i]) ==> rows[i].asset in Assets
  }

  /** A ledger is all known exactly when its rows before the last are and the last,
      if valid, is of a known asset. */
  lemma AllKnownSnoc(rows: seq<LedgerRow>, row: LedgerRow)
    ensures AllKnown(rows + [row]) <==> AllKnown(rows) && (HasTxid(row) ==> row.asset in Assets)
  {
    var all := rows + [row];
    assert all[|rows|] == row;
    assert forall j :: 0 <= j < |rows| ==> all[j] == rows[j];
  }

  /** A valid row of an unknown asset anywhere in a prefix is one in the whole ledger. */
  lemma AllKnownPrefix(rows: seq<LedgerRow>, n: nat)
    requires n <= |rows|
    ensures AllKnown(rows) ==> AllKnown(rows[..n])
  {
    assert forall j :: 0 <= j < n ==> rows[..n][j] == rows[j];
  }

  /** `checkBalanceWithFees`: a valid row of an asset outside the four keys raises a
      KeyError; otherwise both dictionaries keep exactly the four keys, `bal` holding
      each asset's net total and `ledgerBal` its last reported balance. */
  method CheckBalanceWithFees(ledger: seq<LedgerRow>) returns (r: Result<(map<string, real>, map<string, real>)>)
    ensures r.Err? <==> !AllKnown(ledger)
    ensures r.Err? ==> r.error == UnknownAsset
    ensures r.Ok? ==> r.value.0.Keys == Assets && r.value.1.Keys == Assets
    ensures r.Ok? ==> forall a :: a in Assets ==>
              r.value.0[a] == AssetTotal(ledger, a) && r.value.1[a] == AssetBalance(ledger, a)
  {
    var bal := Zeros;
    var ledgerBal := Zeros;
    for i := 0 to |ledger|
      invariant bal.Keys == Assets && ledgerBal.Keys == Assets
      invariant forall a :: a in Assets ==> bal[a] == AssetTotal(ledger[..i], a)
      invariant forall a :: a in Assets ==> ledgerBal[a] == AssetBalance(ledger[..i], a)
      invariant AllKnown(ledger[..i])
    {
      var row := ledger[i];
      assert ledger[..i + 1] == ledger[..i] + [row];
      AllKnownSnoc(ledger[..i], row);
      if row.txid.Some? && row.txid.value != "" {
        if row.asset !in bal {
          AllKnownPrefix(ledger, i + 1);
          return Err(UnknownAsset);
        }
        bal := bal[row.asset := bal[row.asset] + RowNet(row)];
        ledgerBal := ledgerBal[row.asset := row.balance];
      }
    }
    assert ledger[..|ledger|] == ledger;
    return Ok((bal, ledgerBal));
  }

  /** A row without a valid txid, wherever it stands, changes neither dictionary. */
  lemma {:induction false} InvalidRowIgnored(xs: seq<LedgerRow>, row: LedgerRow, ys: seq<LedgerRow>, a: string)
    requires !HasTxid(row)
    ensures AssetTotal(xs + [row] + ys, a) == AssetTotal(xs + ys, a)
    ensures AssetBalance(xs + [row] + ys, a) == AssetBalance(xs + ys, a)
    decreases |ys|
  {
    if ys == [] {
      assert (xs + [row] + ys)[..|xs|] == xs + ys;
    } else {
      var init := ys[..|ys| - 1];
      var last := ys[|ys| - 1];
      assert (xs + [row] + ys)[..|xs + [row] + ys| - 1] == xs + [row] + init;
      assert (xs + ys)[..|xs + ys| - 1] == xs + init;
      assert (xs + [row] + ys)[|xs + [row] + ys| - 1] == last == (xs + ys)[|xs + ys| - 1];
      InvalidRowIgnored(xs, row, init, a);
    }
  }

  /** The four totals add up to the pooled total that `balance_check` compares, as long
      as every valid row is of a known asset. */
  lemma {:induction false} PooledTotalByAsset(rows: seq<LedgerRow>)
    requires AllKnown(rows)
    ensures PooledTotal(rows)
            == AssetTotal(rows, "ZEUR") + AssetTotal(rows, "XXBT") + AssetTotal(rows, "XETH") + AssetTotal(rows, "XLTC")
    decreases |rows|
  {
    if rows != [] {
      var init := rows[..|rows| - 1];
      assert AllKnown(init) by {
        forall j | 0 <= j < |init| && HasTxid(init[j])
          ensures init[j].asset in Assets
        {
          assert init[j] == rows[j];
        }
      }
      PooledTotalByAsset(init);
    }
  }

  /** On a ledger of a single asset, the per-asset check and the pooled one see the
      same numbers: the asset's total is the pooled total and its reported balance
      the last valid balance. */
  lemma {:induction false} SingleAssetIsPooled(rows: seq<LedgerRow>, a: string)
    requires forall i :: 0 <= i < |rows| ==> rows[i].asset == a
    ensures AssetTotal(rows, a) == PooledTotal(rows)
    ensures AssetBalance(rows, a) == LastBalance(rows)
    decreases |rows|
  {
    if rows != [] {
      var init := rows[..|rows| - 1];
      assert forall i :: 0 <= i < |init| ==> init[i] == rows[i];
      SingleAssetIsPooled(init, a);
    }
  }
}
