/** Offset/limit pages over the creation-ordered id lists of a ledger.

    A page starts at the zero-based offset `next` and holds at most `limit`
    entries; when `next + limit` runs past the end of the collection the
    ledger shrinks `limit` so the page ends at the last entry. An offset
    beyond the end is outside the ledger's contract (the service panics on
    it), so every member here requires `next <= n`. */
module Paging {
  import opened Entities

  /** The number of ids a page covers. */
  function Width(n: int, limit: int, next: int): (w: int)
    requires 0 <= next <= n && 0 <= limit
    ensures 0 <= w <= limit && next + w <= n
    ensures w == limit || next + w == n
  {
    if next + limit > n then n - next else limit
  }

  /** The ids a page covers: the slice of `ids` from `next`, `Width` long. */
  function Window(ids: seq<int>, limit: int, next: int): (win: seq<int>)
    requires 0 <= next <= |ids| && 0 <= limit
    ensures |win| == Width(|ids|, limit, next)
    ensures forall k :: 0 <= k < |win| ==> win[k] == ids[next + k]
  {
    ids[next..next + Width(|ids|, limit, next)]
  }

  /** Two consecutive windows make up the window that asks for both limits. */
  lemma WindowsConcatenate(ids: seq<int>, l1: int, l2: int, next: int)
    requires 0 <= next <= |ids| && 0 <= l1 && 0 <= l2
    ensures next + Width(|ids|, l1, next) <= |ids|
    ensures Window(ids, l1, next) + Window(ids, l2, next + Width(|ids|, l1, next)) == Window(ids, l1 + l2, next)
  {
    var n := |ids|;
    var w1 := Width(n, l1, next);
    var w2 := Width(n, l2, next + w1);
    assert w1 + w2 == Width(n, l1 + l2, next);
    assert ids[next..next + w1] + ids[next + w1..next + w1 + w2] == ids[next..next + w1 + w2];
  }

  /** The records that `m` holds for `ids`, in the order of `ids`. */
  function Lookup<T>(ids: seq<int>, m: map<int, T>): (r: seq<T>)
    requires forall k :: 0 <= k < |ids| ==> ids[k] in m
    ensures |r| == |ids|
    ensures forall k :: 0 <= k < |ids| ==> r[k] == m[ids[k]]
  {
    if ids == [] then [] else [m[ids[0]]] + Lookup(ids[1..], m)
  }

  lemma LookupAppend<T>(a: seq<int>, b: seq<int>, m: map<int, T>)
    requires forall k :: 0 <= k < |a| ==> a[k] in m
    requires forall k :: 0 <= k < |b| ==> b[k] in m
    ensures Lookup(a + b, m) == Lookup(a, m) + Lookup(b, m)
  {
    assert forall k :: 0 <= k < |a| ==> a[k] == (a + b)[k];
    assert forall k :: 0 <= k < |b| ==> b[k] == (a + b)[|a| + k];
  }

  /** The transactions of `txs` that name `accID` as source or destination,
      in their original order. */
  function Involving(txs: seq<Transaction>, accID: int): (r: seq<Transaction>)
    ensures |r| <= |txs|
    ensures forall t :: t in r ==> t in txs && Involves(t, accID)
    ensures forall t :: t in txs && Involves(t, accID) ==> t in r
  {
    if txs == [] then []
    else if Involves(txs[0], accID) then [txs[0]] + Involving(txs[1..], accID)
    else Involving(txs[1..], accID)
  }

  /** Filtering a concatenation filters each part and keeps their order. */
  lemma {:induction false} InvolvingAppend(a: seq<Transaction>, b: seq<Transaction>, accID: int)
    ensures Involving(a + b, accID) == Involving(a, accID) + Involving(b, accID)
  {
    if a != [] {
      assert (a + b)[0] == a[0];
      assert (a + b)[1..] == a[1..] + b;
      InvolvingAppend(a[1..], b, accID);
    } else {
      assert a + b == b;
    }
  }

  /** Filtering one more entry of a list appends it when it names `accID`. */
  lemma InvolvingStep(txs: seq<Transaction>, i: int, accID: int)
    requires 0 <= i < |txs|
    ensures Involving(txs[..i + 1], accID)
            == Involving(txs[..i], accID) + (if Involves(txs[i], accID) then [txs[i]] else [])
  {
    assert txs[..i + 1] == txs[..i] + [txs[i]];
    assert [txs[i]][1..] == [];
    InvolvingAppend(txs[..i], [txs[i]], accID);
  }

  /** The accounts listed on the page at `next` of at most `limit` entries. */
  function AccountsPage(ids: seq<int>, m: map<int, Account>, limit: int, next: int): (page: seq<Account>)
    requires forall k :: 0 <= k < |ids| ==> ids[k] in m
    requires 0 <= next <= |ids| && 0 <= limit
    ensures |page| == Width(|ids|, limit, next)
    ensures forall k :: 0 <= k < |page| ==> page[k] == m[ids[next + k]]
  {
    Lookup(Window(ids, limit, next), m)
  }

  /** The transactions of account `accID` among the page at `next` of at most
      `limit` committed transactions: the window is cut first and filtered
      afterwards, so a page may hold fewer than `limit` entries even when more
      transactions of `accID` follow. Each listed record names `accID` and is
      the record of an id in the window; each record of the window that
      names `accID` is listed. */
  function TransactionsPage(ids: seq<int>, m: map<int, Transaction>, accID: int, limit: int, next: int)
    : (page: seq<Transaction>)
    requires forall k :: 0 <= k < |ids| ==> ids[k] in m
    requires 0 <= next <= |ids| && 0 <= limit
    ensures |page| <= Width(|ids|, limit, next)
    ensures forall t :: t in page ==> Involves(t, accID)
    ensures forall k :: next <= k < next + Width(|ids|, limit, next) && Involves(m[ids[k]], accID)
                        ==> m[ids[k]] in page
    ensures forall t :: t in page ==> exists k :: next <= k < next + Width(|ids|, limit, next) && t == m[ids[k]]
  {
    var w := Width(|ids|, limit, next);
    var window := Lookup(Window(ids, limit, next), m);
    assert forall k :: next <= k < next + w ==> m[ids[k]] == window[k - next];
    assert forall t :: t in window ==> exists k :: next <= k < next + w && t == m[ids[k]] by {
      forall t | t in window ensures exists k :: next <= k < next + w && t == m[ids[k]] {
        var j :| 0 <= j < |window| && window[j] == t;
        assert t == m[ids[next + j]];
      }
    }
    Involving(window, accID)
  }

  /** Consecutive account pages concatenate to one larger page. */
  lemma AccountPagesConcatenate(ids: seq<int>, m: map<int, Account>, l1: int, l2: int, next: int)
    requires forall k :: 0 <= k < |ids| ==> ids[k] in m
    requires 0 <= next <= |ids| && 0 <= l1 && 0 <= l2
    ensures next + Width(|ids|, l1, next) <= |ids|
    ensures AccountsPage(ids, m, l1, next) + AccountsPage(ids, m, l2, next + Width(|ids|, l1, next))
            == AccountsPage(ids, m, l1 + l2, next)
  {
    WindowsConcatenate(ids, l1, l2, next);
    var a := Window(ids, l1, next);
    var b := Window(ids, l2, next + Width(|ids|, l1, next));
    LookupAppend(a, b, m);
  }

  /** Consecutive transaction pages of one account concatenate to one larger page. */
  lemma TransactionPagesConcatenate(ids: seq<int>, m: map<int, Transaction>, accID: int,
                                    l1: int, l2: int, next: int)
    requires forall k :: 0 <= k < |ids| ==> ids[k] in m
    requires 0 <= next <= |ids| && 0 <= l1 && 0 <= l2
    ensures next + Width(|ids|, l1, next) <= |ids|
    ensures TransactionsPage(ids, m, accID, l1, next)
            + TransactionsPage(ids, m, accID, l2, next + Width(|ids|, l1, next))
            == TransactionsPage(ids, m, accID, l1 + l2, next)
  {
    WindowsConcatenate(ids, l1, l2, next);
    var a := Window(ids, l1, next);
    var b := Window(ids, l2, next + Width(|ids|, l1, next));
    LookupAppend(a, b, m);
    InvolvingAppend(Lookup(a, m), Lookup(b, m), accID);
  }
}
