/** Values held by one ledger instance: accounts, transaction records and the
    typed outcomes of ledger operations. */
module Entities {

  /** The two Bitcoin networks; each gets its own, independent ledger. */
  datatype Network = TestNet3 | MainNet

  /** An account: its id and its balance (unbounded here, int64 in the service). */
  datatype Account = Account(id: int, balance: int)

  /** The `ty` string of a transaction record: "credit", "transfer" or "debit". */
  datatype TxKind = Credit | Transfer | Debit

  /** A committed transaction record. Fields the service leaves unset hold
      their zero value: `toAccountID` is 0 for a credit and a debit, and
      `toAddress` is "" for a transfer. `created` is the clock reading taken
      when the record was made. */
  datatype Transaction = Transaction(
    id: int,
    kind: TxKind,
    fromAccountID: int,
    toAccountID: int,
    toAddress: string,
    value: int,
    created: int)

  /** The label under which the fee account is registered at start-up. */
  const FeeLabel: string := "_fee"

  /** The largest number of hooks one ledger holds. */
  const MaxHooks: nat := 3

  /** The errors the ledger returns, one per distinct message in the service. */
  datatype Error =
    | AccountNotFound      // "account not found"
    | InvalidTxID          // "invalid txID"
    | NoFromAccount        // "no from account"
    | NoToAccount          // "no to account"
    | NoToAddress          // "no to address"
    | InvalidBalance       // "invalid balance" (value <= 0)
    | InsufficientFunds    // "insufficient funds"
    | HookExists           // errHookExists
    | MaxHooksReached      // errMaxHooks

  /** The result of an operation that returns only an error (nil on success). */
  datatype Outcome = Pass | Fail(error: Error)

  datatype Option<T> = None | Some(value: T)

  datatype Result<T> = Ok(value: T) | Err(error: Error)

  /** True when `t` names `accID` as its source or its destination; this is the
      filter of an account's transaction listing. */
  predicate Involves(t: Transaction, accID: int)
  {
    t.fromAccountID == accID || t.toAccountID == accID
  }

  /** No element occurs twice in `s`. */
  predicate NoDup<T(==)>(s: seq<T>)
  {
    forall i, j :: 0 <= i < j < |s| ==> s[i] != s[j]
  }

  /** Appending an element not yet present keeps a list duplicate-free. */
  lemma NoDupAppend<T>(s: seq<T>, x: T)
    requires NoDup(s) && x !in s
    ensures NoDup(s + [x])
  {
  }
}
