/** Consistency, first-in first-out delivery and solvency of the pool over every run. */
module MempoolRuns {
  import opened Base
  import opened Accounts
  import opened BlockStore
  import Content
  import opened Dedup
  import opened Mempool
  import opened MempoolProof

  datatype Step =
    | Add(tx: Transaction, signed: bool)
    | Pull(n: nat)
    | GoodBlock(txs: seq<Transaction>, visit: seq<string>)  // a good block arrives; `visit`: how its hashes come up
    | SetSlot(slot: nat)
    | NewLedger(db: Db)
    | Expire(gone: set<string>)                         // cache entries are evicted

  /** The pool and the ledger it consults, with what was admitted, pulled and cleaned up so far. */
  datatype Trace = Trace(pool: Pool, db: Db, admitted: seq<Transaction>, pulled: seq<Transaction>,
      cleaned: set<Transaction>)

  function Dropped(p: Pool, visit: seq<string>): set<Transaction> {
    set h | h in visit && h in p.txs :: p.txs[h]
  }

  function Next(k: Codec, t: Trace, step: Step): Trace {
    match step
    case Add(tx, signed) =>
      t.(pool := AddTx(k, t.pool, t.db, tx, signed),
         admitted := if AddError(k, t.pool, t.db, tx, signed).None? then t.admitted + [tx] else t.admitted)
    case Pull(n) =>
      var (p, txs) := PullBatch(k, t.pool, n);
      t.(pool := p, pulled := t.pulled + txs)
    case GoodBlock(txs, visit) =>
      t.(pool := BlockCleanup(k, t.pool.(cache := t.pool.cache + DedupHashes(k, txs)), visit),
         cleaned := t.cleaned + Dropped(t.pool, visit))
    case SetSlot(slot) => t.(pool := SetCurrentSlot(t.pool, slot))
    case NewLedger(db) => t.(db := db)
    case Expire(gone) => t.(pool := t.pool.(cache := t.pool.cache - gone))
  }

  function RunSteps(k: Codec, t: Trace, steps: seq<Step>): Trace {
    if steps == [] then t else Next(k, RunSteps(k, t, steps[..|steps| - 1]), steps[|steps| - 1])
  }

  /** A new pool over a cache and a ledger. */
  function Fresh(max: nat, cache: set<string>, db: Db): Trace {
    Trace(Pool(map[], [], {}, map[], max, 0, cache), db, [], [], {})
  }

  lemma FreshConsistent(k: Codec, max: nat, cache: set<string>, db: Db)
    ensures Consistent(k, Fresh(max, cache, db).pool)
  {
    assert forall s :: TotalExact(Owed(map[], s), map[], s);
  }

  // ----- Consistency ----------------------------------------------------------------------------

  /** The amount of a transaction that comes in can be accounted for. */
  ghost predicate Sane(k: Codec, t: Trace, step: Step) {
    step.Add? && AddError(k, t.pool, t.db, step.tx, step.signed).None? ==> Accountable(t.pool.txs, step.tx)
  }

  /** Cleaning up visits exactly the hashes of the block. */
  ghost predicate Visits(k: Codec, step: Step) {
    step.GoodBlock? ==> forall h :: h in step.visit <==> h in Hashes(k, step.txs)
  }

  lemma QueuedAside(k: Codec, p: Pool, q: Pool)
    requires Queued(k, p) && q.txs == p.txs && q.order == p.order && q.dedup == p.dedup
    ensures Queued(k, q)
  {
    IndexedAside(k, p, q);
  }

  /** What admission means: exactly the signed transactions with a short memo, for which there is room,
      whose nonce is at most the current slot and at most the window behind it, that have not been
      seen, and that are valid content or a transfer the sender can still pay or makes to itself. */
  lemma AdmittedTx(k: Codec, p: Pool, db: Db, tx: Transaction, signed: bool)
    ensures AddError(k, p, db, tx, signed).None? <==>
      && signed && |tx.textData| <= 512 && |p.txs| < p.max
      && 1 <= tx.nonce <= p.slot <= tx.nonce + 150
      && k.dedupHash(tx) !in p.dedup && k.dedupHash(tx) !in p.cache
      && if tx.IsContent() then Content.Validate(k, tx, db.txs, db.latest).1
         else tx.Value() > 0 && (tx.sender == tx.recipient
              || (tx.sender in db.accounts && Available(p, db.accounts[tx.sender].balance, tx.sender) >= tx.Value()))
  {
  }

  lemma StepKeepsQueued(k: Codec, t: Trace, step: Step)
    requires CollisionFree(k) && Queued(k, t.pool)
    ensures Queued(k, Next(k, t, step).pool)
  {
    match step
    case Add(tx, signed) =>
      if AddError(k, t.pool, t.db, tx, signed).None? {
        AdmittedTx(k, t.pool, t.db, tx, signed);
        InsertKeepsQueued(k, t.pool, tx);
      }
    case Pull(n) => PullKeepsQueued(k, t.pool, n);
    case GoodBlock(txs, visit) =>
      var p := t.pool.(cache := t.pool.cache + DedupHashes(k, txs));
      QueuedAside(k, t.pool, p);
      CleanupKeepsQueued(k, p, visit);
    case SetSlot(slot) => QueuedAside(k, t.pool, Next(k, t, step).pool);
    case NewLedger(db) =>
    case Expire(gone) => QueuedAside(k, t.pool, Next(k, t, step).pool);
  }

  lemma StepKeepsTotalled(k: Codec, t: Trace, step: Step)
    requires CollisionFree(k) && Consistent(k, t.pool) && Sane(k, t, step)
    ensures Totalled(Next(k, t, step).pool)
  {
    match step
    case Add(tx, signed) =>
      if AddError(k, t.pool, t.db, tx, signed).None? {
        AdmittedTx(k, t.pool, t.db, tx, signed);
        NotPooled(k, t.pool, tx);
        InsertKeepsTotalled(k, t.pool, tx);
      }
    case Pull(n) => PullKeepsTotalled(k, t.pool, n);
    case GoodBlock(txs, visit) => CleanupKeepsTotalled(k, t.pool.(cache := t.pool.cache + DedupHashes(k, txs)), visit);
    case SetSlot(slot) =>
    case NewLedger(db) =>
    case Expire(gone) =>
  }

  /** In every run, whatever the amounts, the order lists each pending transaction once, and the dedup
      set holds exactly their dedup hashes and no two share one. */
  lemma {:induction false} QueueConsistent(k: Codec, t: Trace, steps: seq<Step>)
    requires CollisionFree(k) && Queued(k, t.pool)
    ensures Queued(k, RunSteps(k, t, steps).pool)
  {
    if steps != [] {
      QueueConsistent(k, t, steps[..|steps| - 1]);
      StepKeepsQueued(k, RunSteps(k, t, steps[..|steps| - 1]), steps[|steps| - 1]);
    }
  }

  /** In every run in which the amounts that are admitted can be accounted for, each sender's total is
      besides exactly the sum of its pending transfers and is there only when positive. */
  lemma {:induction false} PoolConsistent(k: Codec, t: Trace, steps: seq<Step>)
    requires CollisionFree(k) && Consistent(k, t.pool)
    requires forall i :: 0 <= i < |steps| ==> Sane(k, RunSteps(k, t, steps[..i]), steps[i])
    ensures Consistent(k, RunSteps(k, t, steps).pool)
  {
    QueueConsistent(k, t, steps);
    if steps != [] {
      var front := steps[..|steps| - 1];
      assert forall i :: 0 <= i < |front| ==> front[..i] == steps[..i] && front[i] == steps[i];
      PoolConsistent(k, t, front);
      StepKeepsTotalled(k, RunSteps(k, t, front), steps[|steps| - 1]);
    }
  }

  // ----- First in, first out --------------------------------------------------------------------

  /** The pending transactions, in order. */
  function Waiting(p: Pool): seq<Transaction> { GetBatch(p.txs, p.order) }

  function Keep(txs: seq<Transaction>, gone: set<Transaction>): seq<Transaction> {
    if txs == [] then [] else
    Keep(txs[..|txs| - 1], gone) + if txs[|txs| - 1] in gone then [] else [txs[|txs| - 1]]
  }

  lemma {:induction false} KeepConcat(a: seq<Transaction>, b: seq<Transaction>, gone: set<Transaction>)
    ensures Keep(a + b, gone) == Keep(a, gone) + Keep(b, gone)
  {
    if b == [] {
      assert a + b == a;
    } else {
      assert (a + b)[..|a + b| - 1] == a + b[..|b| - 1];
      KeepConcat(a, b[..|b| - 1], gone);
    }
  }

  lemma {:induction false} KeepTwice(txs: seq<Transaction>, a: set<Transaction>, b: set<Transaction>)
    ensures Keep(Keep(txs, a), b) == Keep(txs, a + b)
  {
    if txs != [] {
      var front, last := txs[..|txs| - 1], txs[|txs| - 1];
      KeepTwice(front, a, b);
      if last !in a {
        assert (Keep(front, a) + [last])[..|Keep(front, a)|] == Keep(front, a);
      } else {
        assert Keep(txs, a) == Keep(front, a);
      }
    }
  }

  lemma {:induction false} KeepMembers(txs: seq<Transaction>, gone: set<Transaction>)
    ensures forall tx :: tx in Keep(txs, gone) <==> tx in txs && tx !in gone
  {
    if txs != [] {
      KeepMembers(txs[..|txs| - 1], gone);
      assert txs == txs[..|txs| - 1] + [txs[|txs| - 1]];
    }
  }

  lemma {:induction false} KeepAll(txs: seq<Transaction>, gone: set<Transaction>)
    requires forall tx :: tx in txs ==> tx !in gone
    ensures Keep(txs, gone) == txs
  {
    if txs != [] {
      KeepAll(txs[..|txs| - 1], gone);
      assert txs == txs[..|txs| - 1] + [txs[|txs| - 1]];
    }
  }

  ghost predicate DistinctDedup(k: Codec, txs: seq<Transaction>) {
    forall i, j :: 0 <= i < j < |txs| ==> k.dedupHash(txs[i]) != k.dedupHash(txs[j])
  }

  lemma {:induction false} KeepDistinct(k: Codec, txs: seq<Transaction>, gone: set<Transaction>)
    requires DistinctDedup(k, txs)
    ensures DistinctDedup(k, Keep(txs, gone))
  {
    if txs != [] {
      var front, last := txs[..|txs| - 1], txs[|txs| - 1];
      KeepDistinct(k, front, gone);
      KeepMembers(front, gone);
      forall i | 0 <= i < |Keep(front, gone)|
        ensures k.dedupHash(Keep(front, gone)[i]) != k.dedupHash(last)
      {
        assert Keep(front, gone)[i] in front;
      }
    }
  }

  lemma {:induction false} BatchAgree(m: map<string, Transaction>, n: map<string, Transaction>, hs: seq<string>)
    requires forall h :: h in hs ==> (h in m <==> h in n) && (h in m ==> m[h] == n[h])
    ensures GetBatch(m, hs) == GetBatch(n, hs)
  {
    if hs != [] {
      BatchAgree(m, n, hs[..|hs| - 1]);
    }
  }

  lemma {:induction false} BatchMembers(m: map<string, Transaction>, hs: seq<string>)
    ensures forall tx :: tx in GetBatch(m, hs) <==> exists h :: h in hs && h in m && m[h] == tx
  {
    if hs != [] {
      var front, last := hs[..|hs| - 1], hs[|hs| - 1];
      BatchMembers(m, front);
      assert hs == front + [last];
      forall tx
        ensures tx in GetBatch(m, hs) <==> exists h :: h in hs && h in m && m[h] == tx
      {
        if tx in GetBatch(m, hs) && tx !in GetBatch(m, front) {
          assert last in hs && last in m && m[last] == tx;
        }
      }
    }
  }

  /** Removing distinct hashes one by one finds what looking them up finds. */
  lemma {:induction false} FoundIsBatch(k: Codec, p: Pool, hs: seq<string>)
    requires NoDuplicates(hs)
    ensures Found(k, p, hs) == GetBatch(p.txs, hs)
  {
    if hs != [] {
      FoundIsBatch(k, p, hs[..|hs| - 1]);
      RemoveAllFrame(k, p, hs[..|hs| - 1]);
    }
  }

  /** A pull returns the front of the queue and leaves the rest. */
  lemma PullSplits(k: Codec, p: Pool, n: nat)
    requires Queued(k, p)
    ensures var (q, txs) := PullBatch(k, p, n); txs + Waiting(q) == Waiting(p) && |txs| == Min(n, |p.order|)
  {
    var m := Min(n, |p.order|);
    var start := p.(order := p.order[m..]);
    FoundIsBatch(k, start, p.order[..m]);
    RemoveAllFrame(k, start, p.order[..m]);
    assert p.order == p.order[..m] + p.order[m..];
    BatchConcat(p.txs, p.order[..m], p.order[m..]);
    BatchAgree(p.txs, p.txs - (set h | h in p.order[..m]), p.order[m..]);
    BatchLength(p.txs, p.order[..m]);
  }

  lemma {:induction false} BatchLength(m: map<string, Transaction>, hs: seq<string>)
    requires forall h :: h in hs ==> h in m
    ensures |GetBatch(m, hs)| == |hs|
  {
    if hs != [] {
      BatchLength(m, hs[..|hs| - 1]);
    }
  }

  /** Cleaning up takes exactly the dropped transactions out of the queue. */
  lemma {:induction false} CleanupKeepsQueue(k: Codec, txs: map<string, Transaction>, order: seq<string>,
      hs: set<string>, gone: set<Transaction>)
    requires Keyed(k, txs) && (forall h :: h in order ==> h in txs)
    requires forall tx :: tx in gone <==> exists h :: h in hs && h in txs && txs[h] == tx
    ensures GetBatch(txs - hs, Without(order, hs)) == Keep(GetBatch(txs, order), gone)
  {
    if order != [] {
      var front, last := order[..|order| - 1], order[|order| - 1];
      CleanupKeepsQueue(k, txs, front, hs, gone);
      var b := GetBatch(txs, front) + [txs[last]];
      assert GetBatch(txs, order) == b && b[..|b| - 1] == GetBatch(txs, front);
      assert txs[last] in gone <==> last in hs;
      if last !in hs {
        assert (Without(front, hs) + [last])[..|Without(front, hs)|] == Without(front, hs);
      } else {
        assert Without(order, hs) == Without(front, hs);
      }
    }
  }

  /** Pulled transactions followed by the waiting ones are the admitted ones without those cleaned up,
      in order; no two admitted transactions share a dedup hash. */
  ghost predicate FifoInv(k: Codec, t: Trace) {
    && t.pulled + Waiting(t.pool) == Keep(t.admitted, t.cleaned)
    && DistinctDedup(k, t.admitted)
    && (forall tx :: tx in t.admitted ==> k.dedupHash(tx) in t.pool.dedup || k.dedupHash(tx) in t.pool.cache)
    && (forall tx :: tx in t.cleaned ==> k.dedupHash(tx) in t.pool.cache)
  }

  lemma InsertQueues(k: Codec, p: Pool, tx: Transaction)
    requires OrderExact(p.order, p.txs.Keys) && k.txHash(tx) !in p.txs
    ensures Waiting(Insert(k, p, tx)) == Waiting(p) + [tx]
  {
    var q := Insert(k, p, tx);
    assert q.order[..|p.order|] == p.order;
    BatchAgree(p.txs, q.txs, p.order);
  }

  lemma InsertKeepsFifo(k: Codec, t: Trace, tx: Transaction, u: Trace)
    requires FifoInv(k, t) && OrderExact(t.pool.order, t.pool.txs.Keys) && k.txHash(tx) !in t.pool.txs
    requires k.dedupHash(tx) !in t.pool.dedup && k.dedupHash(tx) !in t.pool.cache
    requires u == t.(pool := Insert(k, t.pool, tx), admitted := t.admitted + [tx])
    ensures FifoInv(k, u)
  {
    InsertQueues(k, t.pool, tx);
    assert u.admitted[..|t.admitted|] == t.admitted;
    assert Keep(u.admitted, u.cleaned) == Keep(t.admitted, t.cleaned) + [tx];
    assert DistinctDedup(k, u.admitted);
  }

  lemma AddKeepsFifo(k: Codec, t: Trace, tx: Transaction, signed: bool)
    requires CollisionFree(k) && Queued(k, t.pool) && FifoInv(k, t)
    ensures FifoInv(k, Next(k, t, Add(tx, signed)))
  {
    if AddError(k, t.pool, t.db, tx, signed).None? {
      AdmittedTx(k, t.pool, t.db, tx, signed);
      assert k.txHash(tx) !in t.pool.txs by { NotPooled(k, t.pool, tx); }
      InsertKeepsFifo(k, t, tx, Next(k, t, Add(tx, signed)));
    }
  }

  lemma PullKeepsFifo(k: Codec, t: Trace, n: nat)
    requires Queued(k, t.pool) && FifoInv(k, t)
    ensures FifoInv(k, Next(k, t, Pull(n)))
  {
    var p, u := t.pool, Next(k, t, Pull(n));
    assert u.pulled + Waiting(u.pool) == t.pulled + Waiting(p) by {
      PullSplits(k, p, n);
      var txs := PullBatch(k, p, n).1;
      assert (t.pulled + txs) + Waiting(u.pool) == t.pulled + (txs + Waiting(u.pool));
    }
    forall tx | tx in u.admitted
      ensures k.dedupHash(tx) in u.pool.dedup || k.dedupHash(tx) in u.pool.cache
    {
      PullRemembers(k, p, n, k.dedupHash(tx));
    }
    PullCache(k, p, n);
  }

  lemma PullCache(k: Codec, p: Pool, n: nat)
    ensures PullBatch(k, p, n).0.cache == p.cache + DedupHashes(k, PullBatch(k, p, n).1)
  {
    var m := Min(n, |p.order|);
    RemoveAllFrame(k, p.(order := p.order[m..]), p.order[..m]);
  }

  /** A pull does not lose track of any dedup hash. */
  lemma PullRemembers(k: Codec, p: Pool, n: nat, d: string)
    requires Queued(k, p) && (d in p.dedup || d in p.cache)
    ensures var q := PullBatch(k, p, n).0; d in q.dedup || d in q.cache
  {
    var (q, txs) := PullBatch(k, p, n);
    PullCache(k, p, n);
    PullKeepsQueued(k, p, n);
    if d in p.dedup {
      var h :| h in p.txs && k.dedupHash(p.txs[h]) == d;
      PullSplits(k, p, n);
      BatchMembers(p.txs, p.order);
      BatchMembers(q.txs, q.order);
      assert p.txs[h] in txs + Waiting(q);
      if p.txs[h] in txs {
        var i :| 0 <= i < |txs| && txs[i] == p.txs[h];
      } else {
        var g :| g in q.order && g in q.txs && q.txs[g] == p.txs[h];
      }
    }
  }

  /** So does a block whose hashes are all visited. */
  lemma BlockRemembers(k: Codec, t: Trace, txs: seq<Transaction>, visit: seq<string>, d: string)
    requires CollisionFree(k) && Queued(k, t.pool) && Visits(k, GoodBlock(txs, visit))
      && (d in t.pool.dedup || d in t.pool.cache)
    ensures var q := Next(k, t, GoodBlock(txs, visit)).pool; d in q.dedup || d in q.cache
  {
    var p, q := t.pool.(cache := t.pool.cache + DedupHashes(k, txs)), Next(k, t, GoodBlock(txs, visit)).pool;
    RemoveAllFrame(k, p, visit);
    if d in t.pool.dedup && d !in p.cache {
      var h :| h in p.txs && k.dedupHash(p.txs[h]) == d;
      assert h !in visit by { VisitedIsCached(k, t, txs, visit, h); }
      QueuedAside(k, t.pool, p);
      CleanupKeepsQueued(k, p, visit);
      assert h in q.txs && q.txs[h] == p.txs[h];
    }
  }

  lemma VisitedIsCached(k: Codec, t: Trace, txs: seq<Transaction>, visit: seq<string>, h: string)
    requires CollisionFree(k) && Keyed(k, t.pool.txs) && Visits(k, GoodBlock(txs, visit)) && h in t.pool.txs
    ensures h in visit ==> k.dedupHash(t.pool.txs[h]) in DedupHashes(k, txs)
  {
    if h in visit {
      var i :| 0 <= i < |txs| && Hashes(k, txs)[i] == h;
      assert txs[i] == t.pool.txs[h];
    }
  }

  lemma BlockKeepsFifo(k: Codec, t: Trace, txs: seq<Transaction>, visit: seq<string>)
    requires CollisionFree(k) && Queued(k, t.pool) && FifoInv(k, t) && Visits(k, GoodBlock(txs, visit))
    ensures FifoInv(k, Next(k, t, GoodBlock(txs, visit)))
  {
    var u, gone := Next(k, t, GoodBlock(txs, visit)), Dropped(t.pool, visit);
    var p := t.pool.(cache := t.pool.cache + DedupHashes(k, txs));
    RemoveAllFrame(k, p, visit);
    assert t.pulled + Waiting(u.pool) == Keep(t.admitted, t.cleaned + gone) by {
      CleanupKeepsQueue(k, p.txs, p.order, (set h | h in visit), gone);
      assert Waiting(u.pool) == Keep(Waiting(t.pool), gone);
      PulledStays(k, t, gone);
      KeepConcat(t.pulled, Waiting(t.pool), gone);
      KeepTwice(t.admitted, t.cleaned, gone);
    }
    forall tx | tx in u.admitted
      ensures k.dedupHash(tx) in u.pool.dedup || k.dedupHash(tx) in u.pool.cache
    {
      BlockRemembers(k, t, txs, visit, k.dedupHash(tx));
    }
    forall tx | tx in gone
      ensures k.dedupHash(tx) in u.pool.cache
    {
      var h :| h in visit && h in t.pool.txs && t.pool.txs[h] == tx;
      VisitedIsCached(k, t, txs, visit, h);
    }
  }

  lemma DistinctSplit(k: Codec, a: seq<Transaction>, b: seq<Transaction>)
    requires DistinctDedup(k, a + b)
    ensures forall x, y :: x in a && y in b ==> x != y
  {
    forall i, j | 0 <= i < |a| && 0 <= j < |b|
      ensures a[i] != b[j]
    {
      assert k.dedupHash((a + b)[i]) != k.dedupHash((a + b)[|a| + j]);
    }
  }

  /** What has been pulled is not waiting any more, so no cleanup concerns it. */
  lemma PulledStays(k: Codec, t: Trace, gone: set<Transaction>)
    requires Queued(k, t.pool) && FifoInv(k, t)
    requires forall tx :: tx in gone ==> exists h :: h in t.pool.txs && t.pool.txs[h] == tx
    ensures Keep(t.pulled, gone) == t.pulled
  {
    forall tx | tx in gone
      ensures tx in Waiting(t.pool)
    {
      var h :| h in t.pool.txs && t.pool.txs[h] == tx;
      BatchMembers(t.pool.txs, t.pool.order);
      assert h in t.pool.order;
    }
    KeepDistinct(k, t.admitted, t.cleaned);
    DistinctSplit(k, t.pulled, Waiting(t.pool));
    KeepAll(t.pulled, gone);
  }

  lemma StepKeepsFifo(k: Codec, t: Trace, step: Step)
    requires CollisionFree(k) && Queued(k, t.pool) && FifoInv(k, t) && Visits(k, step) && !step.Expire?
    ensures FifoInv(k, Next(k, t, step))
  {
    match step
    case Add(tx, signed) => AddKeepsFifo(k, t, tx, signed);
    case Pull(n) => PullKeepsFifo(k, t, n);
    case GoodBlock(txs, visit) => BlockKeepsFifo(k, t, txs, visit);
    case SetSlot(slot) =>
    case NewLedger(db) =>
  }

  /** In every run in which the cache evicts nothing, whatever the amounts, the pulled transactions and
      then the waiting ones are the admitted ones in order of admission without those cleaned up, and
      PullBatch never returns a dedup hash twice. */
  lemma {:induction false} FirstInFirstOut(k: Codec, max: nat, cache: set<string>, db: Db, steps: seq<Step>)
    requires CollisionFree(k)
    requires forall i :: 0 <= i < |steps| ==> Visits(k, steps[i]) && !steps[i].Expire?
    ensures var t := RunSteps(k, Fresh(max, cache, db), steps);
      && t.pulled + Waiting(t.pool) == Keep(t.admitted, t.cleaned)
      && DistinctDedup(k, t.pulled)
  {
    FifoKept(k, max, cache, db, steps);
    var t := RunSteps(k, Fresh(max, cache, db), steps);
    KeepDistinct(k, t.admitted, t.cleaned);
    assert forall i :: 0 <= i < |t.pulled| ==> t.pulled[i] == (t.pulled + Waiting(t.pool))[i];
  }

  lemma {:induction false} FifoKept(k: Codec, max: nat, cache: set<string>, db: Db, steps: seq<Step>)
    requires CollisionFree(k)
    requires forall i :: 0 <= i < |steps| ==> Visits(k, steps[i]) && !steps[i].Expire?
    ensures var t := RunSteps(k, Fresh(max, cache, db), steps); Queued(k, t.pool) && FifoInv(k, t)
  {
    if steps != [] {
      FifoKept(k, max, cache, db, steps[..|steps| - 1]);
      var t := RunSteps(k, Fresh(max, cache, db), steps[..|steps| - 1]);
      StepKeepsQueued(k, t, steps[|steps| - 1]);
      StepKeepsFifo(k, t, steps[|steps| - 1]);
    }
  }

  // ----- Solvency -------------------------------------------------------------------------------

  /** Every pending total is covered, so that subtracting it from the balance does not wrap. */
  predicate Covered(totals: map<string, U256>, accounts: Store) {
    forall s :: s in totals ==> s in accounts && totals[s] <= accounts[s].balance
  }

  /** No transfer to oneself, free content, and balances that do not fall. */
  ghost predicate Funded(t: Trace, step: Step) {
    match step
    case Add(tx, _) => if tx.IsContent() then tx.Value() == 0 else tx.sender != tx.recipient
    case NewLedger(db) =>
      forall a :: a in t.db.accounts ==> a in db.accounts && db.accounts[a].balance >= t.db.accounts[a].balance
    case _ => true
  }

  lemma AddStaysCovered(k: Codec, p: Pool, db: Db, tx: Transaction, signed: bool)
    requires TotalsExact(p.txs, p.totals) && Covered(p.totals, db.accounts) && AddError(k, p, db, tx, signed).None?
    requires !tx.IsContent() && tx.sender != tx.recipient
    ensures Owed(p.txs, tx.sender) + tx.Value() < TWO_256
    ensures Covered(Charged(p.totals, tx), db.accounts)
  {
    AdmittedTx(k, p, db, tx, signed);
    assert TotalExact(Owed(p.txs, tx.sender), p.totals, tx.sender);
  }

  /** Admitting a transfer keeps totals exact and covered precisely when it is not to oneself or the
      sender could pay it on top of what it owes: transfers to oneself are charged but not checked. */
  lemma AdmissionSolvent(k: Codec, p: Pool, db: Db, tx: Transaction, signed: bool)
    requires TotalsExact(p.txs, p.totals) && Covered(p.totals, db.accounts) && AddError(k, p, db, tx, signed).None?
    requires !tx.IsContent() && k.txHash(tx) !in p.txs
    ensures var q := Insert(k, p, tx);
      TotalsExact(q.txs, q.totals) && Covered(q.totals, db.accounts)
      <==> tx.sender != tx.recipient || Owed(p.txs, tx.sender) + tx.Value() <= Balance(db.accounts, tx.sender)
  {
    var q, owed := Insert(k, p, tx), Owed(p.txs, tx.sender);
    AdmittedTx(k, p, db, tx, signed);
    assert TotalExact(owed, p.totals, tx.sender);
    AdmissionExact(p.txs, p.totals, k.txHash(tx), tx);
    if owed + tx.Value() < TWO_256 {
      assert q.totals[tx.sender] == owed + tx.Value();
    }
  }

  /** A self-transfer that fails it: an empty pool admits one of amount 1 from an unknown account. */
  lemma UncoveredSelfTransfer(k: Codec, db: Db)
    requires db.accounts == map[]
    ensures var tx := Transaction(TX_TRANSFER_BY_KEY, "a", "a", Some(1), 0, "", 1, "", "");
      var p := Pool(map[], [], {}, map[], 1, 1, {});
      && TotalsExact(p.txs, p.totals) && Covered(p.totals, db.accounts) && AddError(k, p, db, tx, true).None?
      && !Covered(Insert(k, p, tx).totals, db.accounts)
  {
    var tx := Transaction(TX_TRANSFER_BY_KEY, "a", "a", Some(1), 0, "", 1, "", "");
    var p := Pool(map[], [], {}, map[], 1, 1, {});
    assert forall s :: TotalExact(Owed(map[], s), map[], s);
    AdmittedTx(k, p, db, tx, true);
    assert "a" in Insert(k, p, tx).totals;
  }

  lemma DischargeStaysCovered(txs: map<string, Transaction>, totals: map<string, U256>, h: string, accounts: Store)
    requires h in txs && TotalExact(Owed(txs, txs[h].sender), totals, txs[h].sender) && Covered(totals, accounts)
    requires txs[h].IsContent() ==> txs[h].Value() == 0
    ensures Covered(Discharged(totals, txs[h]), accounts)
  {
    OwedRemove(txs, h, txs[h].sender);
  }

  lemma RemoveStaysCovered(k: Codec, p: Pool, h: string, accounts: Store)
    requires Totalled(p) && Covered(p.totals, accounts)
    ensures Covered(Remove(k, p, h).totals, accounts)
  {
    if h in p.txs {
      assert TotalExact(Owed(p.txs, p.txs[h].sender), p.totals, p.txs[h].sender);
      DischargeStaysCovered(p.txs, p.totals, h, accounts);
    }
  }

  lemma {:induction false} RemoveAllStaysCovered(k: Codec, p: Pool, hs: seq<string>, accounts: Store)
    requires Totalled(p) && Covered(p.totals, accounts)
    ensures Covered(RemoveAll(k, p, hs).totals, accounts)
  {
    if hs != [] {
      RemoveAllStaysCovered(k, p, hs[..|hs| - 1], accounts);
      RemoveAllKeepsTotalled(k, p, hs[..|hs| - 1]);
      RemoveStaysCovered(k, RemoveAll(k, p, hs[..|hs| - 1]), hs[|hs| - 1], accounts);
    }
  }

  /** A transfer that passes the balance check can be accounted for. */
  lemma FundedIsSane(k: Codec, t: Trace, step: Step)
    requires Totalled(t.pool) && Covered(t.pool.totals, t.db.accounts) && Funded(t, step)
    ensures Sane(k, t, step)
  {
    if step.Add? && AddError(k, t.pool, t.db, step.tx, step.signed).None? && !step.tx.IsContent() {
      AdmittedTx(k, t.pool, t.db, step.tx, step.signed);
      AddStaysCovered(k, t.pool, t.db, step.tx, step.signed);
    }
  }

  lemma StepStaysCovered(k: Codec, t: Trace, step: Step)
    requires Totalled(t.pool) && Covered(t.pool.totals, t.db.accounts) && Funded(t, step)
    ensures var u := Next(k, t, step); Covered(u.pool.totals, u.db.accounts)
  {
    match step
    case Add(tx, signed) =>
      if AddError(k, t.pool, t.db, tx, signed).None? && !tx.IsContent() {
        AddStaysCovered(k, t.pool, t.db, tx, signed);
      }
    case Pull(n) =>
      var m := Min(n, |t.pool.order|);
      RemoveAllStaysCovered(k, t.pool.(order := t.pool.order[m..]), t.pool.order[..m], t.db.accounts);
    case GoodBlock(txs, visit) =>
      RemoveAllStaysCovered(k, t.pool.(cache := t.pool.cache + DedupHashes(k, txs)), visit, t.db.accounts);
    case SetSlot(slot) =>
    case NewLedger(db) =>
    case Expire(gone) =>
  }

  /** While balances do not fall and no transfer to oneself comes in, every sender's pending total is
      at most its balance, so the pool stays consistent without any assumption on overflow. */
  lemma {:induction false} PoolSolvent(k: Codec, t: Trace, steps: seq<Step>)
    requires CollisionFree(k) && Consistent(k, t.pool) && Covered(t.pool.totals, t.db.accounts)
    requires forall i :: 0 <= i < |steps| ==> Funded(RunSteps(k, t, steps[..i]), steps[i])
    ensures var u := RunSteps(k, t, steps);
      && Consistent(k, u.pool) && Covered(u.pool.totals, u.db.accounts)
      && forall s :: Owed(u.pool.txs, s) <= Balance(u.db.accounts, s)
  {
    if steps != [] {
      var front := steps[..|steps| - 1];
      assert forall i :: 0 <= i < |front| ==> front[..i] == steps[..i] && front[i] == steps[i];
      PoolSolvent(k, t, front);
      FundedIsSane(k, RunSteps(k, t, front), steps[|steps| - 1]);
      StepKeepsTotalled(k, RunSteps(k, t, front), steps[|steps| - 1]);
      StepStaysCovered(k, RunSteps(k, t, front), steps[|steps| - 1]);
    }
    QueueConsistent(k, t, steps);
    var u := RunSteps(k, t, steps);
    forall s
      ensures Owed(u.pool.txs, s) <= Balance(u.db.accounts, s)
    {
      assert TotalExact(Owed(u.pool.txs, s), u.pool.totals, s);
    }
  }
}
