/** What every run of the pool keeps. */
module MempoolProof {
  import opened Base
  import opened Mempool
  import opened Sums

  // ----- What a sender owes ---------------------------------------------------------------------

  function Charge(txs: map<string, Transaction>, sender: string): string -> nat {
    h => if h in txs && !txs[h].IsContent() && txs[h].sender == sender then txs[h].Value() else 0
  }

  /** The sum of a sender's pending transfers. */
  ghost function Owed(txs: map<string, Transaction>, sender: string): nat {
    SumOver(txs.Keys, Charge(txs, sender))
  }

  function Weight(tx: Transaction, sender: string): nat {
    if !tx.IsContent() && tx.sender == sender then tx.Value() else 0
  }

  lemma OwedInsert(txs: map<string, Transaction>, h: string, tx: Transaction, sender: string)
    requires h !in txs
    ensures Owed(txs[h := tx], sender) == Owed(txs, sender) + Weight(tx, sender)
  {
    var more := txs[h := tx];
    assert more.Keys == txs.Keys + {h};
    SumInsert(txs.Keys, Charge(more, sender), h);
    SumCongruent(txs.Keys, Charge(more, sender), Charge(txs, sender));
  }

  lemma OwedRemove(txs: map<string, Transaction>, h: string, sender: string)
    requires h in txs
    ensures Owed(txs, sender) == Owed(txs - {h}, sender) + Weight(txs[h], sender)
  {
    assert txs == (txs - {h})[h := txs[h]];
    OwedInsert(txs - {h}, h, txs[h], sender);
  }

  // ----- Consistency ----------------------------------------------------------------------------

  /** The order lists every pending transaction once. */
  ghost predicate OrderExact(order: seq<string>, keys: set<string>) {
    NoDuplicates(order) && forall h :: h in order <==> h in keys
  }

  ghost predicate DedupExact(k: Codec, p: Pool) {
    && (forall h :: h in p.txs ==> k.dedupHash(p.txs[h]) in p.dedup)
    && (forall d :: d in p.dedup ==> exists h :: h in p.txs && k.dedupHash(p.txs[h]) == d)
    && (forall g, h :: g in p.txs && h in p.txs && k.dedupHash(p.txs[g]) == k.dedupHash(p.txs[h]) ==> g == h)
  }

  /** A sender has a total exactly when it owes something, and it is what it owes. */
  predicate TotalExact(owed: nat, totals: map<string, U256>, sender: string) {
    (sender in totals <==> owed > 0) && (sender in totals ==> totals[sender] == owed)
  }

  ghost predicate TotalsExact(txs: map<string, Transaction>, totals: map<string, U256>) {
    forall s :: TotalExact(Owed(txs, s), totals, s)
  }

  ghost predicate FreeContent(txs: map<string, Transaction>) {
    forall h :: h in txs && txs[h].IsContent() ==> txs[h].Value() == 0
  }

  /** The two indexes by hash hold exactly the pending transactions. */
  ghost predicate Indexed(k: Codec, p: Pool) { Keyed(k, p.txs) && DedupExact(k, p) }

  /** Order, transactions and dedup set agree; nothing here depends on amounts. */
  ghost predicate Queued(k: Codec, p: Pool) { OrderExact(p.order, p.txs.Keys) && Indexed(k, p) }

  ghost predicate Totalled(p: Pool) { TotalsExact(p.txs, p.totals) && FreeContent(p.txs) }

  ghost predicate Consistent(k: Codec, p: Pool) { Queued(k, p) && Totalled(p) }

  lemma RemovalExactFor(txs: map<string, Transaction>, totals: map<string, U256>, h: string, sender: string)
    requires TotalExact(Owed(txs, sender), totals, sender) && h in txs
    ensures TotalExact(Owed(txs - {h}, sender), Discharged(totals, txs[h]), sender)
            <==> sender != txs[h].sender || !txs[h].IsContent() || txs[h].Value() == 0 || sender !in totals
  {
    OwedRemove(txs, h, sender);
  }

  /** Removing a transaction keeps the totals exact precisely when it is a transfer, or carries no
      amount, or its sender owes nothing: admission does not charge user content, removal credits it. */
  lemma RemovalExact(txs: map<string, Transaction>, totals: map<string, U256>, h: string)
    requires TotalsExact(txs, totals) && h in txs
    ensures TotalsExact(txs - {h}, Discharged(totals, txs[h]))
            <==> !txs[h].IsContent() || txs[h].Value() == 0 || txs[h].sender !in totals
  {
    forall s
      ensures TotalExact(Owed(txs - {h}, s), Discharged(totals, txs[h]), s)
              <==> s != txs[h].sender || !txs[h].IsContent() || txs[h].Value() == 0 || s !in totals
    {
      assert TotalExact(Owed(txs, s), totals, s);
      RemovalExactFor(txs, totals, h, s);
    }
  }

  /** An input that fails it: next to a pending transfer of 2, content with amount 1 of the same sender. */
  lemma CreditedContent()
    ensures var transfer := Transaction(TX_TRANSFER_BY_KEY, "a", "b", Some(2), 0, "", 1, "", "");
      var content := Transaction(TX_USER_CONTENT, "a", "", Some(1), 0, "", 1, "", "");
      var txs, totals := map["t" := transfer, "c" := content], map["a" := 2 as U256];
      TotalsExact(txs, totals) && !TotalsExact(txs - {"c"}, Discharged(totals, txs["c"]))
  {
    var transfer := Transaction(TX_TRANSFER_BY_KEY, "a", "b", Some(2), 0, "", 1, "", "");
    var content := Transaction(TX_USER_CONTENT, "a", "", Some(1), 0, "", 1, "", "");
    var txs, totals := map["t" := transfer, "c" := content], map["a" := 2 as U256];
    forall s
      ensures TotalExact(Owed(txs, s), totals, s)
    {
      OwedRemove(txs, "c", s);
      OwedRemove(txs - {"c"}, "t", s);
      assert txs - {"c"} - {"t"} == map[];
    }
    RemovalExact(txs, totals, "c");
  }

  lemma DedupRemoved(k: Codec, p: Pool, h: string)
    requires DedupExact(k, p) && h in p.txs
    ensures DedupExact(k, Remove(k, p, h))
  {
    var q := Remove(k, p, h);
    forall d | d in q.dedup
      ensures exists g :: g in q.txs && k.dedupHash(q.txs[g]) == d
    {
      var g :| g in p.txs && k.dedupHash(p.txs[g]) == d;
      assert g in q.txs;
    }
  }

  lemma {:induction false} RemoveAllKeepsIndexed(k: Codec, p: Pool, hs: seq<string>)
    requires Indexed(k, p)
    ensures Indexed(k, RemoveAll(k, p, hs))
  {
    if hs != [] {
      var q, h := RemoveAll(k, p, hs[..|hs| - 1]), hs[|hs| - 1];
      RemoveAllKeepsIndexed(k, p, hs[..|hs| - 1]);
      if h in q.txs {
        DedupRemoved(k, q, h);
      }
    }
  }

  lemma {:induction false} RemoveAllKeepsTotalled(k: Codec, p: Pool, hs: seq<string>)
    requires Totalled(p)
    ensures Totalled(RemoveAll(k, p, hs))
  {
    if hs != [] {
      var q, h := RemoveAll(k, p, hs[..|hs| - 1]), hs[|hs| - 1];
      RemoveAllKeepsTotalled(k, p, hs[..|hs| - 1]);
      if h in q.txs {
        RemovalExact(q.txs, q.totals, h);
      }
    }
  }

  lemma {:induction false} RemoveAllFrame(k: Codec, p: Pool, hs: seq<string>)
    ensures var q := RemoveAll(k, p, hs);
      && q.txs == p.txs - (set h | h in hs)
      && q.order == p.order && q.slot == p.slot && q.cache == p.cache && q.max == p.max
  {
    if hs != [] {
      RemoveAllFrame(k, p, hs[..|hs| - 1]);
      assert hs == hs[..|hs| - 1] + [hs[|hs| - 1]];
    }
  }

  lemma {:induction false} WithoutMembers(order: seq<string>, hs: set<string>)
    ensures forall h :: h in Without(order, hs) <==> h in order && h !in hs
  {
    if order != [] {
      WithoutMembers(order[..|order| - 1], hs);
      assert order == order[..|order| - 1] + [order[|order| - 1]];
    }
  }

  lemma {:induction false} WithoutDistinct(order: seq<string>, hs: set<string>)
    requires NoDuplicates(order)
    ensures NoDuplicates(Without(order, hs))
  {
    if order != [] {
      var front, last := order[..|order| - 1], order[|order| - 1];
      assert NoDuplicates(front);
      WithoutDistinct(front, hs);
      WithoutMembers(front, hs);
      assert last !in front;
      assert last !in Without(front, hs);
    }
  }

  lemma AdmissionExactFor(txs: map<string, Transaction>, totals: map<string, U256>, h: string, tx: Transaction,
      s: string)
    requires TotalExact(Owed(txs, s), totals, s) && h !in txs && (tx.IsContent() || tx.Value() > 0)
    ensures var more := txs[h := tx];
      TotalExact(Owed(more, s), Charged(totals, tx), s)
      <==> s != tx.sender || tx.IsContent() || Owed(txs, s) + tx.Value() < TWO_256
  {
    OwedInsert(txs, h, tx, s);
  }

  /** Admitting a transaction with a proper amount keeps the totals exact precisely when it is content or
      does not take what its sender owes to 2^256. */
  lemma AdmissionExact(txs: map<string, Transaction>, totals: map<string, U256>, h: string, tx: Transaction)
    requires TotalsExact(txs, totals) && h !in txs && (tx.IsContent() || tx.Value() > 0)
    ensures TotalsExact(txs[h := tx], Charged(totals, tx))
            <==> tx.IsContent() || Owed(txs, tx.sender) + tx.Value() < TWO_256
  {
    var more := txs[h := tx];
    forall s
      ensures TotalExact(Owed(more, s), Charged(totals, tx), s)
              <==> s != tx.sender || tx.IsContent() || Owed(txs, s) + tx.Value() < TWO_256
    {
      assert TotalExact(Owed(txs, s), totals, s);
      AdmissionExactFor(txs, totals, h, tx, s);
    }
  }

  /** With collision-free hashes a transaction that passes the duplicate check is not in the pool. */
  lemma NotPooled(k: Codec, p: Pool, tx: Transaction)
    requires CollisionFree(k) && Keyed(k, p.txs) && DedupExact(k, p) && k.dedupHash(tx) !in p.dedup
    ensures k.txHash(tx) !in p.txs
  {
  }

  lemma InsertKeepsDedup(k: Codec, p: Pool, tx: Transaction)
    requires DedupExact(k, p) && k.dedupHash(tx) !in p.dedup && k.txHash(tx) !in p.txs
    ensures DedupExact(k, Insert(k, p, tx))
  {
    var q := Insert(k, p, tx);
    forall d | d in q.dedup
      ensures exists h :: h in q.txs && k.dedupHash(q.txs[h]) == d
    {
      if d in p.dedup {
        var h :| h in p.txs && k.dedupHash(p.txs[h]) == d;
        assert h in q.txs && q.txs[h] == p.txs[h];
      } else {
        assert k.txHash(tx) in q.txs;
      }
    }
  }

  lemma InsertKeepsOrder(order: seq<string>, keys: set<string>, h: string)
    requires OrderExact(order, keys) && h !in keys
    ensures OrderExact(order + [h], keys + {h})
  {
    assert h !in order;
  }

  lemma InsertKeepsQueued(k: Codec, p: Pool, tx: Transaction)
    requires CollisionFree(k) && Queued(k, p) && k.dedupHash(tx) !in p.dedup
    ensures Queued(k, Insert(k, p, tx)) && k.txHash(tx) !in p.txs
  {
    assert k.txHash(tx) !in p.txs by { NotPooled(k, p, tx); }
    var q := Insert(k, p, tx);
    assert DedupExact(k, q) by { InsertKeepsDedup(k, p, tx); }
    assert OrderExact(q.order, q.txs.Keys) by {
      InsertKeepsOrder(p.order, p.txs.Keys, k.txHash(tx));
      assert q.txs.Keys == p.txs.Keys + {k.txHash(tx)};
    }
  }

  /** The amount of a transaction can be accounted for: content is free, and a transfer is not and does
      not overflow what its sender owes. */
  ghost predicate Accountable(txs: map<string, Transaction>, tx: Transaction) {
    if tx.IsContent() then tx.Value() == 0 else tx.Value() > 0 && Owed(txs, tx.sender) + tx.Value() < TWO_256
  }

  lemma InsertKeepsTotalled(k: Codec, p: Pool, tx: Transaction)
    requires Totalled(p) && k.txHash(tx) !in p.txs && Accountable(p.txs, tx)
    ensures Totalled(Insert(k, p, tx))
  {
    AdmissionExact(p.txs, p.totals, k.txHash(tx), tx);
  }

  lemma PulledOrder(order: seq<string>, keys: set<string>, m: nat)
    requires OrderExact(order, keys) && m <= |order|
    ensures OrderExact(order[m..], keys - set h | h in order[..m])
  {
    assert order == order[..m] + order[m..];
  }

  lemma PullKeepsQueued(k: Codec, p: Pool, n: nat)
    requires Queued(k, p)
    ensures Queued(k, PullBatch(k, p, n).0)
  {
    var m := Min(n, |p.order|);
    var start := p.(order := p.order[m..]);
    var q := PullBatch(k, p, n).0;
    assert Indexed(k, q) by {
      IndexedAside(k, p, start);
      RemoveAllKeepsIndexed(k, start, p.order[..m]);
      IndexedAside(k, RemoveAll(k, start, p.order[..m]), q);
    }
    assert OrderExact(q.order, q.txs.Keys) by {
      PulledOrder(p.order, p.txs.Keys, m);
      RemoveAllFrame(k, start, p.order[..m]);
      assert q.txs.Keys == p.txs.Keys - set h | h in p.order[..m];
    }
  }

  lemma PullKeepsTotalled(k: Codec, p: Pool, n: nat)
    requires Totalled(p)
    ensures Totalled(PullBatch(k, p, n).0)
  {
    var m := Min(n, |p.order|);
    RemoveAllKeepsTotalled(k, p.(order := p.order[m..]), p.order[..m]);
  }

  lemma CleanupKeepsQueued(k: Codec, p: Pool, visit: seq<string>)
    requires Queued(k, p)
    ensures Queued(k, BlockCleanup(k, p, visit))
  {
    var q := BlockCleanup(k, p, visit);
    assert Indexed(k, q) by {
      RemoveAllKeepsIndexed(k, p, visit);
      IndexedAside(k, RemoveAll(k, p, visit), q);
    }
    RemoveAllFrame(k, p, visit);
    WithoutMembers(p.order, set h | h in visit);
    WithoutDistinct(p.order, set h | h in visit);
  }

  lemma CleanupKeepsTotalled(k: Codec, p: Pool, visit: seq<string>)
    requires Totalled(p)
    ensures Totalled(BlockCleanup(k, p, visit))
  {
    RemoveAllKeepsTotalled(k, p, visit);
  }

  lemma IndexedAside(k: Codec, p: Pool, q: Pool)
    requires Indexed(k, p) && q.txs == p.txs && q.dedup == p.dedup
    ensures Indexed(k, q)
  {
  }

  lemma TotalsDetermined(txs: map<string, Transaction>, a: map<string, U256>, b: map<string, U256>)
    requires TotalsExact(txs, a) && TotalsExact(txs, b)
    ensures a == b
  {
    forall s
      ensures (s in a <==> s in b) && (s in a ==> a[s] == b[s])
    {
      assert TotalExact(Owed(txs, s), a, s) && TotalExact(Owed(txs, s), b, s);
    }
  }

  lemma DedupDetermined(k: Codec, a: Pool, b: Pool)
    requires DedupExact(k, a) && DedupExact(k, b) && a.txs == b.txs
    ensures a.dedup == b.dedup
  {
  }

  /** The order in which a block's hashes come up does not matter. */
  lemma CleanupOrderIrrelevant(k: Codec, p: Pool, a: seq<string>, b: seq<string>)
    requires Consistent(k, p) && (set h | h in a) == (set h | h in b)
    ensures BlockCleanup(k, p, a) == BlockCleanup(k, p, b)
  {
    var x, y := BlockCleanup(k, p, a), BlockCleanup(k, p, b);
    CleanupKeepsQueued(k, p, a);
    CleanupKeepsQueued(k, p, b);
    CleanupKeepsTotalled(k, p, a);
    CleanupKeepsTotalled(k, p, b);
    RemoveAllFrame(k, p, a);
    RemoveAllFrame(k, p, b);
    TotalsDetermined(x.txs, x.totals, y.totals);
    DedupDetermined(k, x, y);
  }
}
