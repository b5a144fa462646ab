/** The balance updates the ledger performs, and what they do to the sum of
    all balances. The sum is taken over the creation-ordered account ids, in
    which each account occurs exactly once. */
module Balances {
  import opened Entities

  /** The balance of account `id` in `m`, or 0 when there is none. */
  function BalanceOf(m: map<int, Account>, id: int): int
  {
    if id in m then m[id].balance else 0
  }

  /** The sum of the balances of the accounts listed in `ids`. */
  function SumBalances(ids: seq<int>, m: map<int, Account>): int
  {
    if ids == [] then 0 else BalanceOf(m, ids[0]) + SumBalances(ids[1..], m)
  }

  /** Account `id` with `delta` added to its balance, as a credit (delta is
      the credited value) and a debit (delta is minus the debited value)
      write it back into the map. */
  function Adjusted(m: map<int, Account>, id: int, delta: int): (r: map<int, Account>)
    requires id in m
    ensures r.Keys == m.Keys
    ensures r[id].id == m[id].id && r[id].balance == m[id].balance + delta
    ensures forall other :: other in m && other != id ==> r[other] == m[other]
  {
    m[id := m[id].(balance := m[id].balance + delta)]
  }

  /** The accounts after a transfer of `value` from `from` to `to`. Both new
      balances are computed from the balances read before either is written,
      and the destination is written last; so when `from == to` the write of
      the destination replaces that of the source. */
  function Transferred(m: map<int, Account>, from: int, to: int, value: int): (r: map<int, Account>)
    requires from in m && to in m
    ensures r.Keys == m.Keys
    ensures from != to ==> r[from].balance == m[from].balance - value
    ensures from != to ==> r[to].balance == m[to].balance + value
    ensures from == to ==> r[from].balance == m[from].balance + value
    ensures r[from].id == m[from].id && r[to].id == m[to].id
    ensures forall other :: other in m && other != from && other != to ==> r[other] == m[other]
  {
    var fromAcc := m[from].(balance := m[from].balance - value);
    var toAcc := m[to].(balance := m[to].balance + value);
    m[from := fromAcc][to := toAcc]
  }

  /** Writing back one account with its balance moved by `delta` is `Adjusted`. */
  lemma WriteBackIsAdjusted(m: map<int, Account>, id: int, delta: int, acc: Account)
    requires id in m && acc == m[id].(balance := m[id].balance + delta)
    ensures m[id := acc] == Adjusted(m, id, delta)
  {
  }

  /** Writing back the source and then the destination, each computed from the
      balances read before the writes, is `Transferred`. */
  lemma WriteBackIsTransferred(m: map<int, Account>, from: int, to: int, value: int,
                               fromAcc: Account, toAcc: Account)
    requires from in m && to in m
    requires fromAcc == m[from].(balance := m[from].balance - value)
    requires toAcc == m[to].(balance := m[to].balance + value)
    ensures m[from := fromAcc][to := toAcc] == Transferred(m, from, to, value)
  {
  }

  lemma {:induction false} SumAppend(ids: seq<int>, id: int, m: map<int, Account>)
    ensures SumBalances(ids + [id], m) == SumBalances(ids, m) + BalanceOf(m, id)
  {
    if ids == [] {
      assert ids + [id] == [id];
    } else {
      assert (ids + [id])[1..] == ids[1..] + [id];
      SumAppend(ids[1..], id, m);
    }
  }

  lemma {:induction false} SumIgnoresUnlisted(ids: seq<int>, m: map<int, Account>, id: int, a: Account)
    requires id !in ids
    ensures SumBalances(ids, m[id := a]) == SumBalances(ids, m)
  {
    if ids != [] {
      SumIgnoresUnlisted(ids[1..], m, id, a);
    }
  }

  /** Replacing one listed account changes the sum by the change in its balance. */
  lemma {:induction false} SumUpdate(ids: seq<int>, m: map<int, Account>, id: int, a: Account)
    requires NoDup(ids) && id in ids
    ensures SumBalances(ids, m[id := a]) == SumBalances(ids, m) - BalanceOf(m, id) + a.balance
  {
    assert NoDup(ids[1..]);
    if ids[0] == id {
      assert forall k :: 0 <= k < |ids[1..]| ==> ids[1..][k] != id by {
        forall k | 0 <= k < |ids[1..]| ensures ids[1..][k] != id {
          assert ids[1..][k] == ids[k + 1];
        }
      }
      SumIgnoresUnlisted(ids[1..], m, id, a);
    } else {
      SumUpdate(ids[1..], m, id, a);
    }
  }

  /** Opening an account with balance 0 under a new id leaves the sum as it was. */
  lemma OpenAccountKeepsSum(ids: seq<int>, m: map<int, Account>, id: int)
    requires id !in ids
    ensures SumBalances(ids + [id], m[id := Account(id, 0)]) == SumBalances(ids, m)
  {
    SumAppend(ids, id, m[id := Account(id, 0)]);
    SumIgnoresUnlisted(ids, m, id, Account(id, 0));
  }

  /** A credit or a debit moves the sum by exactly its delta. */
  lemma AdjustedSum(ids: seq<int>, m: map<int, Account>, id: int, delta: int)
    requires NoDup(ids) && id in ids && id in m
    ensures SumBalances(ids, Adjusted(m, id, delta)) == SumBalances(ids, m) + delta
  {
    SumUpdate(ids, m, id, m[id].(balance := m[id].balance + delta));
  }

  /** A transfer between two different accounts keeps the sum of all
      balances; a transfer from an account to itself raises it by `value`. */
  lemma TransferredSum(ids: seq<int>, m: map<int, Account>, from: int, to: int, value: int)
    requires NoDup(ids) && from in ids && to in ids && from in m && to in m
    ensures SumBalances(ids, Transferred(m, from, to, value))
            == SumBalances(ids, m) + (if from == to then value else 0)
  {
    var fromAcc := m[from].(balance := m[from].balance - value);
    var toAcc := m[to].(balance := m[to].balance + value);
    var m1 := m[from := fromAcc];
    SumUpdate(ids, m, from, fromAcc);
    SumUpdate(ids, m1, to, toAcc);
    assert Transferred(m, from, to, value) == m1[to := toAcc];
  }
}
