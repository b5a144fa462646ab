/** Client runs of a fresh ledger that follow the service's own tests step by
    step, with their expected outcomes as postconditions. */
module Scenarios {
  import opened Entities
  import opened Paging
  import opened Ledger

  /** A new service's MainNet ledger finds the fee account by its label,
      with balance 0, and finds nothing under a label nobody registered. */
  method FeeAccountByLabel() returns (fee: Option<Account>, unknown: Option<Account>)
    ensures fee.Some? && fee.value.balance == 0
    ensures unknown == None
  {
    var s := new Service();
    fee := s.mainNet.AccountByLabel(FeeLabel);
    unknown := s.mainNet.AccountByLabel("unknown");
  }

  /** Opens an account, binds `addr` to it and credits 10 there. */
  method OpenFunded(c: Chain, addr: string) returns (id: int, txID: int)
    requires c.Valid()
    modifies c
    ensures c.Valid()
    ensures id !in old(c.accounts) && c.accounts == old(c.accounts)[id := Account(id, 10)]
    ensures txID !in old(c.transactions)
    ensures c.transactions == old(c.transactions)[txID := Transaction(txID, Credit, id, 0, addr, 10, 0)]
    ensures c.orderedTransactionIDs == old(c.orderedTransactionIDs) + [txID]
  {
    var acc := c.CreateAccount();
    id := acc.id;
    var _ := c.CreateAddress(id, addr);
    var found;
    txID, found := c.CreditAddress(addr, 10, 0);
    assert c.accounts == old(c.accounts)[id := Account(id, 10)];
  }

  /** A ledger with two accounts, each credited 10 through an address of
      its own, with those two credits as its only transactions. */
  method FundedPair() returns (c: Chain, a0: int, a1: int, c0: int, c1: int)
    ensures fresh(c) && c.Valid()
    ensures a0 != a1 && a0 in c.accounts && a1 in c.accounts
    ensures c.accounts[a0].balance == 10 && c.accounts[a1].balance == 10
    ensures c.orderedTransactionIDs == [c0, c1] && c0 in c.transactions && c1 in c.transactions
    ensures c.transactions[c0] == Transaction(c0, Credit, a0, 0, "addr0", 10, 0)
    ensures c.transactions[c1] == Transaction(c1, Credit, a1, 0, "addr1", 10, 0)
  {
    c := new Chain(MainNet);
    a0, c0 := OpenFunded(c, "addr0");
    a1, c1 := OpenFunded(c, "addr1");
  }

  /** Of three committed transactions, a page of up to 10 entries for an
      account named by the first and the last lists exactly those two. */
  lemma ListsTwoOfThree(ids: seq<int>, m: map<int, Transaction>, accID: int)
    requires |ids| == 3 && ids[0] in m && ids[1] in m && ids[2] in m
    requires Involves(m[ids[0]], accID) && !Involves(m[ids[1]], accID) && Involves(m[ids[2]], accID)
    ensures TransactionsPage(ids, m, accID, 10, 0) == [m[ids[0]], m[ids[2]]]
  {
    var last := [m[ids[2]]];
    var tail := [m[ids[1]], m[ids[2]]];
    var txs := [m[ids[0]], m[ids[1]], m[ids[2]]];
    assert Window(ids, 10, 0) == ids;
    assert Lookup(ids, m) == txs;
    assert txs[1..] == tail && tail[1..] == last && last[1..] == [];
    assert Involving(last, accID) == last;
    assert Involving(tail, accID) == last;
    assert Involving(txs, accID) == [m[ids[0]]] + last;
  }

  /** Two accounts are credited 10 each through their addresses; one
      reservation then moves 5 from the first to the second. The balances
      end at 5 and 15; the first account's default page (limit 10) lists its
      credit and the transfer; committing the same reservation again fails
      with InvalidTxID. */
  method CreditThenTransfer() returns (b0: int, b1: int, listed: nat, reuse: Outcome)
    ensures b0 == 5 && b1 == 15
    ensures listed == 2
    ensures reuse == Fail(InvalidTxID)
  {
    var c, a0, a1, c0, c1 := FundedPair();
    var txID := c.CreateTransactionID();
    var r := c.Transfer(txID, a0, a1, 5, 0);
    assert r == Pass;
    b0, b1 := c.accounts[a0].balance, c.accounts[a1].balance;

    ListsTwoOfThree(c.orderedTransactionIDs, c.transactions, a0);
    var txns := c.AccountTransactions(a0, 10, 0);
    listed := |txns|;

    reuse := c.Transfer(txID, a0, a1, 5, 1);
  }

  /** Registering the same hook URL twice: the second call is refused. */
  method DuplicateHook() returns (first: Outcome, again: Outcome)
    ensures first == Pass && again == Fail(HookExists)
  {
    var c := new Chain(MainNet);
    first := c.CreateHook("https://testurl.com/");
    again := c.CreateHook("https://testurl.com/");
  }

  /** A new ledger with three hooks registered. */
  method ThreeHooks() returns (c: Chain)
    ensures fresh(c) && c.Valid()
    ensures c.hooks == {"https://a.example/", "https://b.example/", "https://c.example/"}
  {
    c := new Chain(MainNet);
    var r := c.CreateHook("https://a.example/");
    r := c.CreateHook("https://b.example/");
    r := c.CreateHook("https://c.example/");
  }

  /** The hook registry holds at most three URLs, and takes a fourth once
      one of them is deleted. */
  method HookCap() returns (fourth: Outcome, deleted: bool, afterDelete: Outcome)
    ensures fourth == Fail(MaxHooksReached)
    ensures deleted && afterDelete == Pass
  {
    var c := ThreeHooks();
    fourth := c.CreateHook("https://d.example/");
    deleted := c.DeleteHook("https://b.example/");
    afterDelete := c.CreateHook("https://d.example/");
  }
}
