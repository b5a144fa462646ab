/** The in-memory ledger of one Bitcoin network: accounts, address bindings,
    committed transactions, reserved transaction ids and webhook URLs, all
    updated in place by the operations below. Every method runs as one atomic
    step (the service holds the chain's lock for its whole duration). */
module Ledger {
  import opened Entities
  import opened Paging
  import opened Balances

  /** Some positive integer above every element of `s`: the ledger's id space
      is never exhausted. */
  lemma {:induction false} Above(s: set<nat>) returns (b: nat)
    ensures b > 0
    ensures forall x :: x in s ==> x < b
    decreases |s|
  {
    if s == {} {
      b := 1;
    } else {
      var x :| x in s;
      var b' := Above(s - {x});
      b := if b' > x + 1 then b' else x + 1;
      forall y | y in s ensures y < b {
        if y != x {
          assert y in s - {x};
        }
      }
    }
  }

  /** `ordered` lists every key of `m` exactly once. */
  ghost predicate Indexes<T>(ordered: seq<int>, m: map<int, T>)
  {
    && NoDup(ordered)
    && (forall k :: 0 <= k < |ordered| ==> ordered[k] in m)
    && (forall id :: id in m ==> id in ordered)
    && |ordered| == |m|
  }

  /** Appending a new key to the map and to the end of its list keeps the list an index. */
  lemma IndexesAppend<T>(ordered: seq<int>, m: map<int, T>, id: int, v: T)
    requires Indexes(ordered, m) && id !in m
    ensures Indexes(ordered + [id], m[id := v])
  {
    NoDupAppend(ordered, id);
  }

  /** Rewriting the records of existing keys keeps the list an index. */
  lemma IndexesSameKeys<T>(ordered: seq<int>, m: map<int, T>, m': map<int, T>)
    requires Indexes(ordered, m) && m'.Keys == m.Keys
    ensures Indexes(ordered, m')
  {
    assert |m'| == |m'.Keys| == |m.Keys| == |m|;
  }

  /** Issued ids are positive, and no id names two entities: accounts,
      committed transactions and outstanding reservations draw from `ids`
      and never share an id. */
  ghost predicate IdsDisjoint(ids: set<int>, accountIDs: set<int>, txIDs: set<int>, unused: set<int>)
  {
    && (forall x :: x in ids ==> x > 0)
    && accountIDs <= ids && txIDs <= ids && unused <= ids
    && accountIDs !! txIDs && accountIDs !! unused && txIDs !! unused
  }

  /** Each account is stored under its own id. */
  ghost predicate AccountsKeyed(accounts: map<int, Account>)
  {
    forall id :: id in accounts ==> accounts[id].id == id
  }

  /** Each transaction is stored under its own id and names an existing account as source. */
  ghost predicate TransactionsKeyed(transactions: map<int, Transaction>, accountIDs: set<int>)
  {
    forall id :: id in transactions ==>
      transactions[id].id == id && transactions[id].fromAccountID in accountIDs
  }

  /** Every address or label is bound to an existing account. */
  ghost predicate BindsAccounts(bindings: map<string, int>, accountIDs: set<int>)
  {
    forall a :: a in bindings ==> bindings[a] in accountIDs
  }

  /** The ledger's invariant, over the values of its fields. Ids are
      positive, issued once and shared by one entity at most; each ordered
      list holds the keys of its map once each, in creation order; addresses
      and labels name existing accounts; there are at most `MaxHooks` hooks. */
  ghost predicate Consistent(ids: set<int>, accounts: map<int, Account>, orderedAccountIDs: seq<int>,
                             accountLabels: map<string, int>, addresses: map<string, int>,
                             transactions: map<int, Transaction>, unusedTxIDs: set<int>,
                             orderedTransactionIDs: seq<int>, hooks: set<string>)
  {
    && IdsDisjoint(ids, accounts.Keys, transactions.Keys, unusedTxIDs)
    && Indexes(orderedAccountIDs, accounts) && AccountsKeyed(accounts)
    && Indexes(orderedTransactionIDs, transactions) && TransactionsKeyed(transactions, accounts.Keys)
    && BindsAccounts(addresses, accounts.Keys) && BindsAccounts(accountLabels, accounts.Keys)
    && |hooks| <= MaxHooks
  }

  /** Opening an account under a fresh positive id keeps the invariant. */
  lemma OpenAccountKeepsConsistent(ids: set<int>, accounts: map<int, Account>, orderedAccountIDs: seq<int>,
                                   accountLabels: map<string, int>, addresses: map<string, int>,
                                   transactions: map<int, Transaction>, unusedTxIDs: set<int>,
                                   orderedTransactionIDs: seq<int>, hooks: set<string>, id: int)
    requires Consistent(ids, accounts, orderedAccountIDs, accountLabels, addresses,
                        transactions, unusedTxIDs, orderedTransactionIDs, hooks)
    requires id > 0 && id !in ids
    ensures Consistent(ids + {id}, accounts[id := Account(id, 0)], orderedAccountIDs + [id],
                       accountLabels, addresses, transactions, unusedTxIDs, orderedTransactionIDs, hooks)
  {
    IndexesAppend(orderedAccountIDs, accounts, id, Account(id, 0));
  }

  /** Reserving a fresh positive id keeps the invariant. */
  lemma ReserveKeepsConsistent(ids: set<int>, accounts: map<int, Account>, orderedAccountIDs: seq<int>,
                               accountLabels: map<string, int>, addresses: map<string, int>,
                               transactions: map<int, Transaction>, unusedTxIDs: set<int>,
                               orderedTransactionIDs: seq<int>, hooks: set<string>, id: int)
    requires Consistent(ids, accounts, orderedAccountIDs, accountLabels, addresses,
                        transactions, unusedTxIDs, orderedTransactionIDs, hooks)
    requires id > 0 && id !in ids
    ensures Consistent(ids + {id}, accounts, orderedAccountIDs, accountLabels, addresses,
                       transactions, unusedTxIDs + {id}, orderedTransactionIDs, hooks)
  {
  }

  /** Rewriting balances and recording a credit under a fresh positive id keeps the invariant. */
  lemma CreditKeepsConsistent(ids: set<int>, accounts: map<int, Account>, orderedAccountIDs: seq<int>,
                              accountLabels: map<string, int>, addresses: map<string, int>,
                              transactions: map<int, Transaction>, unusedTxIDs: set<int>,
                              orderedTransactionIDs: seq<int>, hooks: set<string>,
                              accounts': map<int, Account>, tx: Transaction)
    requires Consistent(ids, accounts, orderedAccountIDs, accountLabels, addresses,
                        transactions, unusedTxIDs, orderedTransactionIDs, hooks)
    requires accounts'.Keys == accounts.Keys
    requires forall id :: id in accounts' ==> accounts'[id].id == accounts[id].id
    requires tx.fromAccountID in accounts && tx.id > 0 && tx.id !in ids
    ensures Consistent(ids + {tx.id}, accounts', orderedAccountIDs, accountLabels, addresses,
                       transactions[tx.id := tx], unusedTxIDs, orderedTransactionIDs + [tx.id], hooks)
  {
    IndexesSameKeys(orderedAccountIDs, accounts, accounts');
    IndexesAppend(orderedTransactionIDs, transactions, tx.id, tx);
  }

  /** Rewriting balances and committing a reserved id as a transaction keeps the invariant. */
  lemma CommitKeepsConsistent(ids: set<int>, accounts: map<int, Account>, orderedAccountIDs: seq<int>,
                              accountLabels: map<string, int>, addresses: map<string, int>,
                              transactions: map<int, Transaction>, unusedTxIDs: set<int>,
                              orderedTransactionIDs: seq<int>, hooks: set<string>,
                              accounts': map<int, Account>, tx: Transaction)
    requires Consistent(ids, accounts, orderedAccountIDs, accountLabels, addresses,
                        transactions, unusedTxIDs, orderedTransactionIDs, hooks)
    requires accounts'.Keys == accounts.Keys
    requires forall id :: id in accounts' ==> accounts'[id].id == accounts[id].id
    requires tx.fromAccountID in accounts && tx.id in unusedTxIDs
    ensures Consistent(ids, accounts', orderedAccountIDs, accountLabels, addresses,
                       transactions[tx.id := tx], unusedTxIDs - {tx.id}, orderedTransactionIDs + [tx.id], hooks)
  {
    IndexesSameKeys(orderedAccountIDs, accounts, accounts');
    IndexesAppend(orderedTransactionIDs, transactions, tx.id, tx);
  }

  class Chain {
    const network: Network

    var accounts: map<int, Account>
    var orderedAccountIDs: seq<int>
    var accountLabels: map<string, int>

    var addresses: map<string, int>

    var transactions: map<int, Transaction>
    var unusedTxIDs: set<int>
    var orderedTransactionIDs: seq<int>

    var hooks: set<string>

    /** Every id ever issued, to accounts, credits and reservations alike. */
    var ids: set<int>

    /** The invariant of `Consistent`, over this ledger's fields. */
    ghost predicate Valid()
      reads this
    {
      Consistent(ids, accounts, orderedAccountIDs, accountLabels, addresses,
                 transactions, unusedTxIDs, orderedTransactionIDs, hooks)
    }

    /** The sum of all account balances. */
    ghost function Total(): int
      reads this
    {
      SumBalances(orderedAccountIDs, accounts)
    }

    /** The state `New` gives each ledger: only the fee account, with
        balance 0, registered under the label "_fee" and first in creation
        order, its id the only one issued; no addresses, transactions,
        reservations or hooks. */
    ghost predicate Initial()
      reads this
    {
      && accountLabels.Keys == {FeeLabel}
      && accounts == map[accountLabels[FeeLabel] := Entities.Account(accountLabels[FeeLabel], 0)]
      && orderedAccountIDs == [accountLabels[FeeLabel]]
      && ids == {accountLabels[FeeLabel]}
      && addresses == map[] && hooks == {}
      && transactions == map[] && orderedTransactionIDs == [] && unusedTxIDs == {}
    }

    /** A ledger for `network` in its initial state; all balances sum to 0. */
    constructor (network: Network)
      ensures Valid() && Initial()
      ensures this.network == network
      ensures Total() == 0
    {
      this.network := network;
      accounts := map[];
      orderedAccountIDs := [];
      accountLabels := map[];
      addresses := map[];
      transactions := map[];
      unusedTxIDs := {};
      orderedTransactionIDs := [];
      hooks := {};
      ids := {};
      new;
      var feeAcc := CreateAccount();
      accountLabels := accountLabels[FeeLabel := feeAcc.id];
    }

    /** Issues an id never issued before. The service draws random positive
        ids until one is unused; the model chooses any unused positive id. */
    method NextID() returns (id: int)
      modifies this`ids
      ensures id > 0 && id !in old(ids)
      ensures ids == old(ids) + {id}
    {
      // `bound`, above every issued id, witnesses that the choice below is possible.
      var issued: set<nat> := set x: nat | x in ids;
      var bound := Above(issued);
      assert bound in ids ==> bound in issued;
      id :| id > 0 && id !in ids;
      ids := ids + {id};
    }

    /** Opens an account with balance 0 under a new id, last in creation order. */
    method CreateAccount() returns (acc: Account)
      requires Valid()
      modifies this
      ensures Valid()
      ensures acc.id > 0 && acc.id !in old(ids) && acc.balance == 0
      ensures ids == old(ids) + {acc.id}
      ensures accounts == old(accounts)[acc.id := acc]
      ensures orderedAccountIDs == old(orderedAccountIDs) + [acc.id]
      ensures Total() == old(Total())
      ensures unchanged(this`accountLabels, this`addresses, this`transactions,
                        this`unusedTxIDs, this`orderedTransactionIDs, this`hooks)
    {
      ghost var oldIds := ids;
      var id := NextID();
      acc := Entities.Account(id, 0);
      OpenAccountKeepsSum(orderedAccountIDs, accounts, id);
      OpenAccountKeepsConsistent(oldIds, accounts, orderedAccountIDs, accountLabels, addresses,
                                 transactions, unusedTxIDs, orderedTransactionIDs, hooks, id);
      accounts := accounts[acc.id := acc];
      orderedAccountIDs := orderedAccountIDs + [acc.id];
    }

    /** The page of accounts at offset `next` of at most `limit` entries, in
        creation order. */
    method Accounts(limit: int, next: int) returns (accs: seq<Account>)
      requires Valid()
      requires 0 <= next <= |accounts| && 0 <= limit
      ensures accs == AccountsPage(orderedAccountIDs, accounts, limit, next)
    {
      var n := limit;
      if next + n > |accounts| {
        n := |accounts| - next;
      }
      var window := orderedAccountIDs[next..next + n];
      assert window == Window(orderedAccountIDs, limit, next);
      ghost var page := Lookup(window, accounts);
      var buf := new Account[n];
      for i := 0 to n
        invariant buf[..i] == page[..i]
      {
        buf[i] := accounts[window[i]];
        assert buf[..i + 1] == buf[..i] + [buf[i]];
      }
      assert buf[..n] == buf[..];
      accs := buf[..];
    }

    /** The transactions naming `accID` as source or destination among the
        page at offset `next` of at most `limit` committed transactions. */
    method AccountTransactions(accID: int, limit: int, next: int) returns (txns: seq<Transaction>)
      requires Valid()
      requires 0 <= next <= |transactions| && 0 <= limit
      ensures txns == TransactionsPage(orderedTransactionIDs, transactions, accID, limit, next)
    {
      var n := limit;
      if next + n > |transactions| {
        n := |transactions| - next;
      }
      var window := orderedTransactionIDs[next..next + n];
      assert window == Window(orderedTransactionIDs, limit, next);
      ghost var records := Lookup(window, transactions);
      txns := [];
      for i := 0 to n
        invariant txns == Involving(records[..i], accID)
      {
        var tx := transactions[window[i]];
        assert tx == records[i];
        InvolvingStep(records, i, accID);
        if tx.fromAccountID == accID || tx.toAccountID == accID {
          txns := txns + [tx];
        }
      }
      assert records[..n] == records;
    }

    /** Binds the address the address generator produced for account
        `accountID`, or fails when there is no such account. */
    method CreateAddress(accountID: int, addr: string) returns (r: Result<string>)
      requires Valid()
      modifies this
      ensures Valid()
      ensures accountID !in accounts ==> r == Err(AccountNotFound) && addresses == old(addresses)
      ensures accountID in accounts ==> r == Ok(addr) && addresses == old(addresses)[addr := accountID]
      ensures unchanged(this`accounts, this`orderedAccountIDs, this`accountLabels, this`transactions,
                        this`unusedTxIDs, this`orderedTransactionIDs, this`hooks, this`ids)
    {
      if accountID !in accounts {
        return Err(AccountNotFound);
      }
      addresses := addresses[addr := accountID];
      r := Ok(addr);
    }

    /** The account with id `id`, if there is one. */
    method Account(id: int) returns (r: Option<Account>)
      requires Valid()
      ensures r.Some? <==> id in accounts
      ensures r.Some? ==> r.value == accounts[id] && r.value.id == id
    {
      r := if id in accounts then Some(accounts[id]) else None;
    }

    /** The account registered under label `name`. An unknown label reads as id 0,
        which is never issued, so it finds no account. */
    method AccountByLabel(name: string) returns (r: Option<Account>)
      requires Valid()
      ensures r.Some? <==> name in accountLabels
      ensures r.Some? ==> r.value == accounts[accountLabels[name]]
    {
      var accID := if name in accountLabels then accountLabels[name] else 0;
      r := if accID in accounts then Some(accounts[accID]) else None;
    }

    /** Credits `value` (not validated) to the account bound to `address` and
        records a "credit" transaction under a new id, taken at clock reading
        `now`. The record names the credited account as its source. An
        unbound address yields (0, false) and changes nothing. */
    method CreditAddress(address: string, value: int, now: int) returns (txID: int, found: bool)
      requires Valid()
      modifies this
      ensures Valid()
      ensures found <==> address in old(addresses)
      ensures !found ==> txID == 0 && unchanged(this)
      ensures found ==>
        var accID := old(addresses)[address];
        && txID > 0 && txID !in old(ids) && ids == old(ids) + {txID}
        && accounts == Adjusted(old(accounts), accID, value)
        && transactions == old(transactions)[txID := Entities.Transaction(txID, Credit, accID, 0, address, value, now)]
        && orderedTransactionIDs == old(orderedTransactionIDs) + [txID]
        && Total() == old(Total()) + value
      ensures unchanged(this`orderedAccountIDs, this`accountLabels, this`addresses,
                        this`unusedTxIDs, this`hooks)
    {
      if address !in addresses {
        return 0, false;
      }
      var accID := addresses[address];
      AdjustedSum(orderedAccountIDs, accounts, accID, value);
      var acc := accounts[accID];
      acc := acc.(balance := acc.balance + value);
      WriteBackIsAdjusted(accounts, accID, value, acc);

      ghost var oldIds := ids;
      txID := NextID();
      var tx := Entities.Transaction(txID, Credit, accID, 0, address, value, now);
      CreditKeepsConsistent(oldIds, accounts, orderedAccountIDs, accountLabels, addresses, transactions,
                            unusedTxIDs, orderedTransactionIDs, hooks, accounts[accID := acc], tx);
      accounts := accounts[accID := acc];
      transactions := transactions[txID := tx];
      orderedTransactionIDs := orderedTransactionIDs + [txID];
      found := true;
    }

    /** Reserves a new transaction id for a later transfer or debit. */
    method CreateTransactionID() returns (id: int)
      requires Valid()
      modifies this
      ensures Valid()
      ensures id > 0 && id !in old(ids) && ids == old(ids) + {id}
      ensures unusedTxIDs == old(unusedTxIDs) + {id}
      ensures unchanged(this`accounts, this`orderedAccountIDs, this`accountLabels, this`addresses,
                        this`transactions, this`orderedTransactionIDs, this`hooks)
    {
      ghost var oldIds := ids;
      id := NextID();
      ReserveKeepsConsistent(oldIds, accounts, orderedAccountIDs, accountLabels, addresses,
                             transactions, unusedTxIDs, orderedTransactionIDs, hooks, id);
      unusedTxIDs := unusedTxIDs + {id};
    }

    /** The committed transaction with id `id`, if there is one. */
    method Transaction(id: int) returns (r: Option<Transaction>)
      requires Valid()
      ensures r.Some? <==> id in transactions
      ensures r.Some? ==> r.value == transactions[id] && r.value.id == id
    {
      r := if id in transactions then Some(transactions[id]) else None;
    }

    /** Commits reservation `txID` as a transfer of `value` from account
        `from` to account `to`. The checks run in this order and the first
        that fails decides the error; a failure changes nothing. */
    method Transfer(txID: int, from: int, to: int, value: int, now: int) returns (r: Outcome)
      requires Valid()
      modifies this
      ensures Valid()
      ensures txID !in old(unusedTxIDs) ==> r == Fail(InvalidTxID)
      ensures txID in old(unusedTxIDs) && from !in old(accounts) ==> r == Fail(NoFromAccount)
      ensures txID in old(unusedTxIDs) && from in old(accounts) && to !in old(accounts)
              ==> r == Fail(NoToAccount)
      ensures txID in old(unusedTxIDs) && from in old(accounts) && to in old(accounts) && value <= 0
              ==> r == Fail(InvalidBalance)
      ensures txID in old(unusedTxIDs) && from in old(accounts) && to in old(accounts) && value > 0
              && old(accounts)[from].balance < value
              ==> r == Fail(InsufficientFunds)
      ensures r == Pass <==>
              && txID in old(unusedTxIDs) && from in old(accounts) && to in old(accounts)
              && 0 < value <= old(accounts)[from].balance
      ensures r.Fail? ==> unchanged(this)
      ensures r == Pass ==>
        && accounts == Transferred(old(accounts), from, to, value)
        && accounts[from].balance >= 0
        && transactions == old(transactions)[txID := Entities.Transaction(txID, Entities.Transfer, from, to, "", value, now)]
        && orderedTransactionIDs == old(orderedTransactionIDs) + [txID]
        && unusedTxIDs == old(unusedTxIDs) - {txID}
        && Total() == old(Total()) + (if from == to then value else 0)
      ensures r == Pass ==>
        unchanged(this`orderedAccountIDs, this`accountLabels, this`addresses, this`hooks, this`ids)
    {
      if txID !in unusedTxIDs {
        return Fail(InvalidTxID);
      }
      if from !in accounts {
        return Fail(NoFromAccount);
      }
      var fromAcc := accounts[from];
      if to !in accounts {
        return Fail(NoToAccount);
      }
      var toAcc := accounts[to];
      if value <= 0 {
        return Fail(InvalidBalance);
      }
      if fromAcc.balance < value {
        return Fail(InsufficientFunds);
      }

      TransferredSum(orderedAccountIDs, accounts, from, to, value);
      fromAcc := fromAcc.(balance := fromAcc.balance - value);
      toAcc := toAcc.(balance := toAcc.balance + value);
      WriteBackIsTransferred(accounts, from, to, value, fromAcc, toAcc);
      var tx := Entities.Transaction(txID, Entities.Transfer, from, to, "", value, now);
      CommitKeepsConsistent(ids, accounts, orderedAccountIDs, accountLabels, addresses, transactions,
                            unusedTxIDs, orderedTransactionIDs, hooks, accounts[from := fromAcc][to := toAcc], tx);

      accounts := accounts[from := fromAcc][to := toAcc];
      transactions := transactions[txID := tx];
      orderedTransactionIDs := orderedTransactionIDs + [txID];
      unusedTxIDs := unusedTxIDs - {txID};
      r := Pass;
    }

    /** Commits reservation `txID` as a debit of `value` from account `from`
        to the external address `toAddr`, which need not be bound here. The
        checks run in this order and the first that fails decides the error;
        a failure changes nothing. */
    method Debit(txID: int, from: int, toAddr: string, value: int, now: int) returns (r: Outcome)
      requires Valid()
      modifies this
      ensures Valid()
      ensures txID !in old(unusedTxIDs) ==> r == Fail(InvalidTxID)
      ensures txID in old(unusedTxIDs) && from !in old(accounts) ==> r == Fail(NoFromAccount)
      ensures txID in old(unusedTxIDs) && from in old(accounts) && toAddr == ""
              ==> r == Fail(NoToAddress)
      ensures txID in old(unusedTxIDs) && from in old(accounts) && toAddr != "" && value <= 0
              ==> r == Fail(InvalidBalance)
      ensures txID in old(unusedTxIDs) && from in old(accounts) && toAddr != "" && value > 0
              && old(accounts)[from].balance < value
              ==> r == Fail(InsufficientFunds)
      ensures r == Pass <==>
              && txID in old(unusedTxIDs) && from in old(accounts) && toAddr != ""
              && 0 < value <= old(accounts)[from].balance
      ensures r.Fail? ==> unchanged(this)
      ensures r == Pass ==>
        && accounts == Adjusted(old(accounts), from, -value)
        && accounts[from].balance >= 0
        && transactions == old(transactions)[txID := Entities.Transaction(txID, Entities.Debit, from, 0, toAddr, value, now)]
        && orderedTransactionIDs == old(orderedTransactionIDs) + [txID]
        && unusedTxIDs == old(unusedTxIDs) - {txID}
        && Total() == old(Total()) - value
      ensures r == Pass ==>
        unchanged(this`orderedAccountIDs, this`accountLabels, this`addresses, this`hooks, this`ids)
    {
      if txID !in unusedTxIDs {
        return Fail(InvalidTxID);
      }
      if from !in accounts {
        return Fail(NoFromAccount);
      }
      var fromAcc := accounts[from];
      if toAddr == "" {
        return Fail(NoToAddress);
      }
      if value <= 0 {
        return Fail(InvalidBalance);
      }
      if fromAcc.balance < value {
        return Fail(InsufficientFunds);
      }

      AdjustedSum(orderedAccountIDs, accounts, from, -value);
      fromAcc := fromAcc.(balance := fromAcc.balance - value);
      WriteBackIsAdjusted(accounts, from, -value, fromAcc);
      var tx := Entities.Transaction(txID, Entities.Debit, from, 0, toAddr, value, now);
      CommitKeepsConsistent(ids, accounts, orderedAccountIDs, accountLabels, addresses, transactions,
                            unusedTxIDs, orderedTransactionIDs, hooks, accounts[from := fromAcc], tx);

      accounts := accounts[from := fromAcc];
      transactions := transactions[txID := tx];
      orderedTransactionIDs := orderedTransactionIDs + [txID];
      unusedTxIDs := unusedTxIDs - {txID};
      r := Pass;
    }

    /** Registers hook `url`, refusing a URL already registered and refusing
        any URL once three hooks are registered. A failure changes nothing. */
    method CreateHook(url: string) returns (r: Outcome)
      requires Valid()
      modifies this
      ensures Valid()
      ensures url in old(hooks) ==> r == Fail(HookExists)
      ensures url !in old(hooks) && |old(hooks)| >= MaxHooks ==> r == Fail(MaxHooksReached)
      ensures r == Pass <==> url !in old(hooks) && |old(hooks)| < MaxHooks
      ensures hooks == if r == Pass then old(hooks) + {url} else old(hooks)
      ensures unchanged(this`accounts, this`orderedAccountIDs, this`accountLabels, this`addresses,
                        this`transactions, this`unusedTxIDs, this`orderedTransactionIDs, this`ids)
    {
      if url in hooks {
        return Fail(HookExists);
      }
      if |hooks| > 2 {
        return Fail(MaxHooksReached);
      }
      hooks := hooks + {url};
      r := Pass;
    }

    /** The registered hooks, each once, in no particular order. */
    method Hooks() returns (list: seq<string>)
      requires Valid()
      ensures NoDup(list)
      ensures forall h :: h in list <==> h in hooks
      ensures |list| == |hooks|
    {
      list := [];
      var rest := hooks;
      while rest != {}
        invariant rest <= hooks
        invariant NoDup(list)
        invariant forall h :: h in list <==> h in hooks && h !in rest
        invariant |list| + |rest| == |hooks|
        decreases rest
      {
        var h :| h in rest;
        list := list + [h];
        rest := rest - {h};
      }
    }

    /** Removes hook `url`; the result says whether it was registered. */
    method DeleteHook(url: string) returns (deleted: bool)
      requires Valid()
      modifies this
      ensures Valid()
      ensures deleted <==> url in old(hooks)
      ensures hooks == old(hooks) - {url}
      ensures unchanged(this`accounts, this`orderedAccountIDs, this`accountLabels, this`addresses,
                        this`transactions, this`unusedTxIDs, this`orderedTransactionIDs, this`ids)
    {
      if url !in hooks {
        return false;
      }
      hooks := hooks - {url};
      deleted := true;
    }
  }

  /** The mock service: one independent ledger per network. */
  class Service {
    const testNet: Chain
    const mainNet: Chain

    constructor ()
      ensures fresh(testNet) && fresh(mainNet) && testNet != mainNet
      ensures testNet.Valid() && testNet.Initial() && testNet.network == TestNet3
      ensures mainNet.Valid() && mainNet.Initial() && mainNet.network == MainNet
    {
      testNet := new Chain(TestNet3);
      mainNet := new Chain(MainNet);
    }
  }
}
