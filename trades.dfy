/** The trade history and the optional ledger of cryptopnl/main/trades.py, held in
    memory: iteration over the trades in file order, and the pooled ledger check. */
module TradeHistory {
  import opened Outcomes

  /** One row of the trades file. `time` is an opaque timestamp and `year` its calendar
      year; `kind` is the `type` column ("buy" or "sell"); `ledgers` holds the ids of
      the two ledger rows of the trade, separated by a comma. */
  datatype Trade = Trade(time: int, year: int, pair: string, kind: string, price: real,
                         cost: real, fee: real, vol: real, ledgers: string)

  /** One row of the ledger file. A missing `txid` cell is `None`. */
  datatype LedgerRow = LedgerRow(txid: Option<string>, time: int, year: int, asset: string,
                                 amount: real, fee: real, balance: real)

  /** The filter both ledger checks apply: the txid is a string and not empty. */
  predicate HasTxid(row: LedgerRow) {
    row.txid.Some? && row.txid.value != ""
  }

  /** The single key under which balance_check accumulates every row. */
  const PooledKey := "asset"

  /** Whether any row passes the txid filter. */
  predicate AnyTxid(rows: seq<LedgerRow>) {
    rows != [] && (AnyTxid(rows[..|rows| - 1]) || HasTxid(rows[|rows| - 1]))
  }

  lemma {:induction false} AnyTxidExists(rows: seq<LedgerRow>)
    ensures AnyTxid(rows) <==> exists i :: 0 <= i < |rows| && HasTxid(rows[i])
    decreases |rows|
  {
    if rows != [] {
      var init := rows[..|rows| - 1];
      AnyTxidExists(init);
      if AnyTxid(init) {
        var i :| 0 <= i < |init| && HasTxid(init[i]);
        assert rows[i] == init[i];
      }
      if exists i :: 0 <= i < |rows| && HasTxid(rows[i]) {
        var i :| 0 <= i < |rows| && HasTxid(rows[i]);
        if i < |init| {
          assert init[i] == rows[i];
        }
      }
    }
  }

  /** The sum of `amount - fee` over the rows that pass the txid filter. */
  function PooledTotal(rows: seq<LedgerRow>): (r: real)
    ensures !AnyTxid(rows) ==> r == 0.0
  {
    if rows == [] then 0.0
    else
      var last := rows[|rows| - 1];
      PooledTotal(rows[..|rows| - 1]) + (if HasTxid(last) then last.amount - last.fee else 0.0)
  }

  /** The `balance` of the last row that passes the txid filter, 0 if there is none. */
  function LastBalance(rows: seq<LedgerRow>): real {
    if rows == [] then 0.0
    else if HasTxid(rows[|rows| - 1]) then rows[|rows| - 1].balance
    else LastBalance(rows[..|rows| - 1])
  }

  /** The verdict of balance_check: with no valid row there is nothing to compare;
      otherwise the last reported balance must equal the pooled total. */
  predicate PooledBalanced(rows: seq<LedgerRow>) {
    !AnyTxid(rows) || LastBalance(rows) == PooledTotal(rows)
  }

  /** A row without a valid txid, wherever it stands, changes neither the pooled total,
      nor the last reported balance, nor whether any row is valid. */
  lemma {:induction false} InvalidRowSkipped(xs: seq<LedgerRow>, row: LedgerRow, ys: seq<LedgerRow>)
    requires !HasTxid(row)
    ensures PooledTotal(xs + [row] + ys) == PooledTotal(xs + ys)
    ensures LastBalance(xs + [row] + ys) == LastBalance(xs + ys)
    ensures AnyTxid(xs + [row] + ys) == AnyTxid(xs + ys)
    decreases |ys|
  {
    if ys == [] {
      assert (xs + [row] + ys)[..|xs|] == xs + ys;
    } else {
      var init := ys[..|ys| - 1];
      assert (xs + [row] + ys)[..|xs + [row] + ys| - 1] == xs + [row] + init;
      assert (xs + ys)[..|xs + ys| - 1] == xs + init;
      assert (xs + [row] + ys)[|xs + [row] + ys| - 1] == ys[|ys| - 1] == (xs + ys)[|xs + ys| - 1];
      InvalidRowSkipped(xs, row, init);
    }
  }

  /** `collections.defaultdict(lambda: D("0"))` read at `key`. */
  function Get(m: map<string, real>, key: string): real {
    if key in m then m[key] else 0.0
  }

  /** The trades and, optionally, the ledger of an account, as loaded once. */
  class Trades {
    const trades: seq<Trade>
    const ledger: Option<seq<LedgerRow>>

    constructor (trades: seq<Trade>, ledger: Option<seq<LedgerRow>>)
      ensures this.trades == trades && this.ledger == ledger
    {
      this.trades := trades;
      this.ledger := ledger;
    }

    /** `__iter__`: (index, trade) pairs, one per trade, in file order. */
    function Rows(): (r: seq<(int, Trade)>)
      ensures |r| == |trades|
      ensures forall i :: 0 <= i < |r| ==> r[i] == (i, trades[i])
    {
      seq(|trades|, i requires 0 <= i < |trades| => (i, trades[i]))
    }

    /** `balance_check`: fails without a ledger; otherwise pools every valid row under
        the one key "asset" and compares the last reported balance with the total. */
    method BalanceCheck() returns (r: Result<bool>)
      ensures ledger.None? ==> r == Err(NoLedger)
      ensures ledger.Some? ==> r == Ok(PooledBalanced(ledger.value))
    {
      if ledger.None? {
        return Err(NoLedger);
      }
      var rows := ledger.value;
      var status: map<string, real> := map[];
      var calculus: map<string, real> := map[];
      for i := 0 to |rows|
        invariant status == if AnyTxid(rows[..i]) then map[PooledKey := LastBalance(rows[..i])] else map[]
        invariant calculus == if AnyTxid(rows[..i]) then map[PooledKey := PooledTotal(rows[..i])] else map[]
      {
        var row := rows[i];
        assert rows[..i + 1][..i] == rows[..i] && rows[..i + 1][i] == row;
        if HasTxid(row) {
          calculus := calculus[PooledKey := Get(calculus, PooledKey) + (row.amount - row.fee)];
          status := status[PooledKey := row.balance];
        }
      }
      assert rows[..|rows|] == rows;
      var keys := status.Keys;
      while keys != {}
        invariant keys <= status.Keys
        invariant forall k :: k in status.Keys - keys ==> status[k] == Get(calculus, k)
        decreases keys
      {
        var k :| k in keys;
        if status[k] != Get(calculus, k) {
          return Ok(false);
        }
        keys := keys - {k};
      }
      return Ok(true);
    }
  }

  /** The two ledgers of the balance_check tests: 0.9 + 0.6 against a reported 1.5
      agrees, against 1.0 it does not; the first row has an empty txid and is skipped. */
  lemma BalanceCheckExamples()
    ensures var skipped := LedgerRow(Some(""), 0, 0, "NAME", 1.0, 0.1, 0.0);
            var first := LedgerRow(Some("TXID_0"), 0, 0, "NAME", 1.0, 0.1, 0.9);
            && PooledBalanced([skipped, first, LedgerRow(Some("TXID_1"), 0, 0, "NAME", 1.0, 0.4, 1.5)])
            && !PooledBalanced([skipped, first, LedgerRow(Some("TXID_1"), 0, 0, "NAME", 1.0, 0.4, 1.0)])
  {
    var skipped := LedgerRow(Some(""), 0, 0, "NAME", 1.0, 0.1, 0.0);
    var first := LedgerRow(Some("TXID_0"), 0, 0, "NAME", 1.0, 0.1, 0.9);
    var good := [skipped, first, LedgerRow(Some("TXID_1"), 0, 0, "NAME", 1.0, 0.4, 1.5)];
    var bad := [skipped, first, LedgerRow(Some("TXID_1"), 0, 0, "NAME", 1.0, 0.4, 1.0)];
    assert good[..2][..1] == [skipped] && bad[..2][..1] == [skipped];
    assert good[..2] == bad[..2] == [skipped, first];
    assert [skipped, first][..1] == [skipped] && [skipped][..0] == [];
    assert PooledTotal([skipped]) == 0.0;
    assert PooledTotal([skipped, first]) == 0.9;
  }
}
