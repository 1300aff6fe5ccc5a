/** Failure-compatible results for the operations of the ledger and its strategies.
    Each constructor of Error stands for one exception the Python code raises. */
module Outcomes {

  datatype Option<+T> = None | Some(value: T)

  datatype Error =
    | CryptoNotFound      // wallet.take: ValueError, the asset was never added
    | InsufficientAmount  // wallet.take: ValueError, the lots ran out before the volume did
    | DivisionByZero      // a division by zero (Decimal's DivisionByZero or InvalidOperation, or ZeroDivisionError)
    | NoLedger            // no ledger loaded: ValueError in balance_check, TypeError on lookup
    | LedgerIdMissing     // IndexError: the trade's `ledgers` field names fewer than two ids
    | TxidNotFound        // IndexError: no ledger row carries the requested txid
    | AssertionFailed     // an `assert` of fifo_with_ledger.process_trade does not hold
    | UnknownAsset        // KeyError: checkBalanceWithFees meets an asset outside its table
    | MissingArgument     // TypeError: a method called with too few positional arguments
    | MissingAttribute    // AttributeError: a class attribute read by the code is not defined

  datatype Result<+T> = Ok(value: T) | Err(error: Error) {
    predicate IsFailure() { Err? }

    function PropagateFailure<U>(): Result<U>
      requires Err?
    {
      Err(error)
    }

    function Extract(): T
      requires Ok?
    {
      value
    }
  }
}
