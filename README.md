# rtwire mock ledger, modelled in Dafny

The rtwire mock service keeps one in-memory ledger (a `chain`) for each
Bitcoin network, TestNet3 and MainNet. A ledger holds:

- accounts, and their ids in creation order;
- labels and addresses bound to accounts;
- committed transactions, and their ids in commit order;
- transaction ids that were reserved but not yet committed;
- a set of webhook URLs;
- the set of every id it has ever issued.

Value enters the ledger only by crediting an address, or by a transfer from
an account to itself (see below). A transfer or a debit
is two-phase: a client first reserves a transaction id, then commits it once.
Account and transaction listings are offset/limit pages in creation order.

The project models this ledger as the class `Ledger.Chain`. Its fields are
maps, sequences and sets that its methods update in place. The methods are:

- `NextID`, `CreateAccount` and the fee-account setup in the constructor;
- `Accounts` and `AccountTransactions`;
- `CreateAddress`, `Account`, `AccountByLabel` and `CreditAddress`;
- `CreateTransactionID`, `Transaction`, `Transfer` and `Debit`;
- `CreateHook`, `Hooks` and `DeleteHook`.

Every method keeps the invariant `Valid`, which is the predicate
`Consistent` applied to the fields:

- ids are positive;
- no id names two entities;
- each ordered list holds its map's keys once each;
- every address and label names an existing account;
- there are at most three hooks.

The other modules hold the specifications the methods are proved against:

- `Paging` states what a page holds and that consecutive pages concatenate.
- `Balances` states how credits, transfers and debits rewrite balances, and
  what each does to the sum of all balances.
- `Scenarios` replays the service's own tests on a fresh ledger.

The model keeps these behaviours of the code:

- A credit records the credited account as its *source*.
- A credit's value is not checked, so a credit can drive a balance negative.
  For that reason `balance >= 0` is not part of the invariant. A successful
  transfer or debit does leave its source at `>= 0`.
- A transfer from an account to itself writes the destination last. It
  therefore ends at the old balance plus `value`, and the sum of all balances
  grows by `value` (`Balances.TransferredSum`).
- `CreateHook` refuses once more than two hooks exist. That is the same as
  "at most three".
- An unknown label reads as id 0. No id is ever 0, so the lookup finds no
  account.

## Model

| member | source | states |
|---|---|---|
| Paging.Width | service/service.go:109-111 | the clamped page size lies between 0 and `limit`, does not run past the end, and is `limit` unless the page reaches the end |
| Paging.Window | service/service.go:113 | the ids a page covers are exactly `ids[next+k]` for each position `k` of the clamped width |
| Paging.WindowsConcatenate | service/service.go:109-113 | the window of `l1` entries followed by the window of `l2` entries after it is the window of `l1+l2` entries |
| Paging.Lookup | service/service.go:113-115 | looking ids up in a map gives one record per id, in the order of the ids |
| Paging.LookupAppend | service/service.go:113-115 | looking up a concatenation is the concatenation of the lookups |
| Paging.Involving | service/service.go:128-134 | the account filter keeps only records that name the account as source or destination, keeps every such record, and never grows the list |
| Paging.InvolvingAppend | service/service.go:128-134 | filtering a concatenation filters each part and keeps their order |
| Paging.InvolvingStep | service/service.go:128-134 | filtering one more record appends it exactly when it names the account |
| Paging.AccountsPage | service/service.go:105-117 | an accounts page has the clamped width and holds, at each position `k`, the account whose id is at `next+k` in creation order |
| Paging.TransactionsPage | service/service.go:119-136 | a transactions page holds no more records than the clamped window; every record on it names the account and is the record of an id in the window; every record of the window that names the account is on it |
| Paging.AccountPagesConcatenate | service/service.go:105-117 | two consecutive account pages make up the page of their combined limit |
| Paging.TransactionPagesConcatenate | service/service.go:119-136 | two consecutive transaction pages of one account make up the page of their combined limit |
| Balances.Adjusted | service/service.go:192-194 | a credit or a debit changes only the one account's balance, by exactly `delta`, and keeps every key and id |
| Balances.Transferred | service/service.go:254-258 | a transfer between distinct accounts lowers the source by `value` and raises the destination by `value`; a self transfer ends at old balance plus `value`; every other account is untouched |
| Balances.SumAppend | service/service.go:101 | listing one more account adds its balance to the sum |
| Balances.SumIgnoresUnlisted | service/service.go:100-101 | changing an account that is not listed leaves the sum as it was |
| Balances.SumUpdate | service/service.go:194 | replacing one listed account changes the sum by the change in its balance |
| Balances.OpenAccountKeepsSum | service/service.go:96-101 | opening an account with balance 0 leaves the sum of balances unchanged |
| Balances.AdjustedSum | service/service.go:192-194 | a credit or a debit moves the sum of all balances by exactly its delta |
| Balances.TransferredSum | service/service.go:254-258 | a transfer between distinct accounts keeps the sum of all balances; a self transfer raises it by `value` |
| Ledger.Above | service/service.go:81-90 | above any finite set of issued ids there is a positive id, so a fresh id always exists |
| Ledger.IndexesAppend | service/service.go:100-101 | adding a new key to a map and to the end of its ordered list keeps the list listing each key once |
| Ledger.IndexesSameKeys | service/service.go:257-258 | rewriting records under existing keys keeps the ordered list listing each key once |
| Ledger.OpenAccountKeepsConsistent | service/service.go:92-103 | opening an account under a fresh positive id keeps the invariant |
| Ledger.ReserveKeepsConsistent | service/service.go:211-218 | reserving a fresh positive id keeps the invariant |
| Ledger.CreditKeepsConsistent | service/service.go:192-206 | rewriting balances and recording a credit under a fresh id keeps the invariant |
| Ledger.CommitKeepsConsistent | service/service.go:257-269 | rewriting balances and committing a reserved id keeps the invariant, including one record per ordered transaction id |
| Ledger.Chain.constructor | service/service.go:413-441 | a new ledger is in the state `Initial`: it holds only the fee account, with balance 0, labelled "_fee", first in creation order and the only issued id. It has no addresses, transactions, reservations or hooks, and all balances sum to 0 |
| Ledger.Chain.NextID | service/service.go:81-90 | the id returned is positive and never issued before, and exactly it is added to the issued ids |
| Ledger.Chain.CreateAccount | service/service.go:92-103 | a fresh id with balance 0 is added to the accounts and appended to the creation order; nothing else changes and the sum of balances is kept |
| Ledger.Chain.Accounts | service/service.go:105-117 | the returned slice is the accounts page of `AccountsPage` |
| Ledger.Chain.AccountTransactions | service/service.go:119-136 | the returned slice is the transactions page of `TransactionsPage` |
| Ledger.Chain.CreateAddress | service/service.go:140-166 | an unknown account gives "account not found" and binds nothing; otherwise the address is bound to the account, replacing any earlier binding, and is returned |
| Ledger.Chain.Account | service/service.go:168-173 | an account is found exactly when its id is present, and it is the stored account with that id |
| Ledger.Chain.AccountByLabel | service/service.go:175-181 | an account is found exactly when the label is registered, and it is the labelled account |
| Ledger.Chain.CreditAddress | service/service.go:183-209 | an unbound address gives (0, false) and changes nothing. A bound one adds `value` to exactly that account and records a fresh "credit" naming that account as source, appended to the commit order. The sum of balances rises by `value` |
| Ledger.Chain.CreateTransactionID | service/service.go:211-218 | a fresh positive id is issued and reserved; nothing else changes |
| Ledger.Chain.Transaction | service/service.go:220-226 | a transaction is found exactly when its id is committed, and it is the stored record with that id |
| Ledger.Chain.Transfer | service/service.go:228-272 | errors are checked in code order: invalid txID, no from account, no to account, invalid balance, insufficient funds. Success happens iff all checks pass, and a failure changes nothing. Success rewrites balances as `Transferred` and leaves the source at >= 0. It records the "transfer", moves the id from reserved to committed (so it cannot be used again) and appends it to the order. The sum of balances is kept unless from equals to |
| Ledger.Chain.Debit | service/service.go:274-315 | errors are checked in code order: invalid txID, no from account, no to address, invalid balance, insufficient funds. Success happens iff all checks pass, and a failure changes nothing. Success lowers only the source, by `value`, leaving it at >= 0. It records the "debit" with its `toAddress`, moves the id from reserved to committed and appends it. The sum of balances falls by `value` |
| Ledger.Chain.CreateHook | service/service.go:331-344 | an existing URL gives errHookExists; otherwise three existing hooks give errMaxHooks. Success happens iff neither applies, adds only that URL, and a failure changes nothing |
| Ledger.Chain.Hooks | service/service.go:346-355 | the list holds every registered hook exactly once and nothing else |
| Ledger.Chain.DeleteHook | service/service.go:357-366 | the result is true iff the URL was registered; exactly that URL is removed and nothing else changes |
| Ledger.Service.constructor | service/service.go:408-446 | the service holds two distinct, fresh ledgers, one for TestNet3 and one for MainNet; each satisfies the invariant and is in the state `Initial`, holding only the labelled fee account |
| Scenarios.FeeAccountByLabel | service/account_test.go:13-26 | the MainNet ledger of a new service finds the "_fee" account, with balance 0, and finds nothing under an unknown label |
| Scenarios.OpenFunded | service/transaction_test.go:18-89 | opening an account, binding an address and crediting 10 there adds exactly that account, with balance 10, and one credit record |
| Scenarios.FundedPair | service/transaction_test.go:17-90 | two accounts credited 10 each are distinct, hold 10 each, and their two credits are the only transactions |
| Scenarios.ListsTwoOfThree | service/transaction_test.go:176-199 | among three transactions of which the first and last name an account, a default page of 10 for that account lists exactly those two |
| Scenarios.CreditThenTransfer | service/transaction_test.go:92-199 | after the transfer of 5, the balances are 5 and 15 and the sender's page lists 2 transactions. Committing the same reservation again fails with "invalid txID" |
| Scenarios.DuplicateHook | service/hook_test.go:13-56 | registering the same URL a second time is refused with errHookExists |
| Scenarios.ThreeHooks | service/service.go:331-344 | three registrations of distinct URLs on a new ledger leave exactly those three hooks |
| Scenarios.HookCap | service/service.go:331-366 | a fourth URL is refused with errMaxHooks; after one hook is deleted, the fourth is accepted |

## Left out

- The HTTP handlers, routing, header checks, JSON encoding, basic-auth middleware and options (`UserPass`, `main.go`). Only the ledger is modelled; `chain.params()` and the network-specific address parameters are part of address derivation below.
- Address derivation with btcec/btcutil: `CreateAddress` takes the generated address as an argument. The key-generation and encoding errors of those library calls are not modelled.
- Webhook delivery after a credit, which is fire-and-forget HTTP posts from goroutines.
- The lock: every method is one atomic step.
- Randomness in `nextID`: the model chooses any positive id not yet issued, rather than drawing from `rand.Int63() + 1`. The bound of 2^63 on ids is not modelled.
- The clock: `created` is the parameter `now` of `CreditAddress`, `Transfer` and `Debit`.
- int64 arithmetic: balances and ids are unbounded integers, so overflow of a balance is not modelled.
- Ledger.Chain.Accounts: an offset beyond the end makes the service panic; the model requires `0 <= next <= |accounts|` and `limit >= 0`.
- Ledger.Chain.AccountTransactions: the same requirement on `next` and `limit` as `Accounts`, over the committed transactions.
- Ledger.Chain.Hooks: Go's map iteration gives the hooks in an unspecified order; the contract states the set of hooks and that each appears once, not an order.
- `Fees()` returns a constant list and is not modelled.
