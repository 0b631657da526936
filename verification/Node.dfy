/** A node's handlers for blocks and votes, as atomic actions that may interleave freely and be cut
    short by a crash. */
module Node {
  import opened Base
  import opened Accounts
  import opened BlockStore
  import opened Consensus
  import opened Ledger
  import opened LedgerProof
  import opened Mempool
  import Dedup
  import Verify

  // ----- Atomic actions of the handlers ---------------------------------------------------------

  /** What remains to be done by a handler that has been entered. */
  datatype Task =
    | CastOwn(slot: nat)               // the block is stored, the node's own vote is not yet cast
    | Check(slot: nat, committed: bool) // a vote was counted, the block is not yet looked up
    | Commit(slot: nat)                // the slot is committed and its block known; the apply lock is due
    | SyncFinalize(slot: nat)          // block sync stored the block and will finalise it unasked

  /** Persistent store, volatile votes, unfinished handlers, and the slot that the holder of the apply
      lock has found not applied and is about to finalise. */
  datatype Core = Core(store: State, tally: Tally, tasks: multiset<Task>, applying: Option<nat>)

  /** The block as stored: marked when its proof of history does not check. */
  ghost function Judged(k: Codec, b: Broadcasted): Broadcasted {
    if Verify.Accepts(k, b.core.prevHash, b.entries) then b else b.(core := b.core.(invalidPoH := true))
  }

  /** Check and finalisation under the apply lock, if nothing comes between them: nothing if the slot is
      already applied or unknown. */
  function ApplySlot(k: Codec, s: State, slot: nat): (r: State) {
    if slot in s.db.finalized || slot !in s.db.blocks then s else FinalizeBlock(k, s, s.db.blocks[slot]).0
  }

  /** Reopening the database after a crash. */
  function Reopened(db: Db): State {
    State(db,
      if db.metaFinalized.None? || db.metaStore.None? then 0 else db.metaStore.value,
      if db.metaFinalized.None? then 0 else db.metaFinalized.value)
  }

  /** A block that has just been stored is not newer than the newest stored slot. The block handler asks
      for the opposite after storing, so its reset of the clock never comes about. */
  lemma ResetGuardFails(k: Codec, s: State, b: Broadcasted)
    requires AddPending(k, s, b).1
    ensures !(b.core.slot > AddPending(k, s, b).0.latestStore)
  {
  }

  /** Block sync stores a block that passes its checks and finalises it at once. */
  ghost function SyncOne(k: Codec, s: State, b: Broadcasted, checked: bool): State {
    var (s', ok) := AddPending(k, s, Judged(k, b));
    if checked && ok then FinalizeBlock(k, s', s'.db.blocks[b.core.slot]).0 else s
  }

  datatype Step =
    | RecvBlock(b: Broadcasted, checked: bool)  // `checked`: leader, signature and transactions pass
    | RecvEmptyBlock(b: Broadcasted)
    | OwnBlock(b: Broadcasted)
    | RecvVote(v: Vote)
    | Run(task: Task, writeOk: bool)            // `writeOk`: the store accepts the batch
    | Apply(writeOk: bool)                      // the holder of the apply lock finalises and lets go
    | CleanVotes
    | SyncBlock(b: Broadcasted, checked: bool)  // block sync, storing and finalising in one action
    | SyncStore(b: Broadcasted, checked: bool)  // the same, but interruptible after storing
    | Crash

  /** Stores a block and, if that succeeds, leaves a task. */
  function StoreThen(k: Codec, c: Core, b: Broadcasted, t: multiset<Task>): Core {
    var (s, ok) := AddPending(k, c.store, b);
    if ok then c.(store := s, tasks := c.tasks + t) else c
  }

  function CountVote(c: Core, v: Vote): Core {
    var (t, r) := AddVote(c.tally, v);
    if r.Counted? then c.(tally := t, tasks := c.tasks + multiset{Check(v.slot, r.committed)}) else c
  }

  /** A commit waits while the apply lock is taken; everything else can go ahead. */
  predicate Enabled(c: Core, t: Task) { t in c.tasks && (t.Commit? ==> c.applying.None?) }

  /** The finalisation does not look at the finalised marker again, and sync does not take the apply lock.
      The block read at the check is the stored one but for that marker, which this writes anyway. */
  function ApplyHeld(k: Codec, c: Core, writeOk: bool): Core {
    match c.applying
    case None => c
    case Some(slot) =>
      var d := c.(applying := None);
      if writeOk && slot in d.store.db.blocks
      then d.(store := FinalizeBlock(k, d.store, d.store.db.blocks[slot]).0) else d
  }

  function RunTask(k: Codec, self: string, c: Core, t: Task, writeOk: bool): Core {
    var d := c.(tasks := c.tasks - multiset{t});
    match t
    case CastOwn(slot) =>
      CountVote(d, Vote(slot, if slot in d.store.db.blocks then d.store.db.blocks[slot].core.hash else [], self, true))
    case Check(slot, committed) =>
      if committed && slot in d.store.db.blocks then d.(tasks := d.tasks + multiset{Commit(slot)}) else d
    case Commit(slot) =>
      if slot in d.store.db.finalized || slot !in d.store.db.blocks then d else d.(applying := Some(slot))
    case SyncFinalize(slot) =>
      if writeOk && slot in d.store.db.blocks
      then d.(store := FinalizeBlock(k, d.store, d.store.db.blocks[slot]).0) else d
  }

  ghost function Act(k: Codec, self: string, c: Core, step: Step): Core {
    match step
    case RecvBlock(b, checked) => if checked then StoreThen(k, c, Judged(k, b), multiset{CastOwn(b.core.slot)}) else c
    case RecvEmptyBlock(b) => StoreThen(k, c, b, multiset{})
    case OwnBlock(b) => StoreThen(k, c, b, multiset{CastOwn(b.core.slot)})
    case RecvVote(v) => CountVote(c, v)
    case Run(t, writeOk) => if Enabled(c, t) then RunTask(k, self, c, t, writeOk) else c
    case Apply(writeOk) => ApplyHeld(k, c, writeOk)
    case CleanVotes => c.(tally := Cleanup(c.tally, c.tally.maxSlot, VOTE_RETENTION_SLOTS))
    case SyncBlock(b, checked) => c.(store := SyncOne(k, c.store, b, checked))
    case SyncStore(b, checked) =>
      if checked then StoreThen(k, c, Judged(k, b), multiset{SyncFinalize(b.core.slot)}) else c
    case Crash => Core(Reopened(c.store.db), EmptyTally(c.tally.threshold), multiset{}, None)
  }

  // ----- The handlers as written ----------------------------------------------------------------

  /** Counting a vote and, if it commits a known block, applying it, without interruption. */
  function ProcessVote(k: Codec, s: State, t: Tally, v: Vote): (r: (State, Tally)) {
    var (t', res) := AddVote(t, v);
    if res.Counted? && res.committed && v.slot in s.db.blocks then (ApplySlot(k, s, v.slot), t') else (s, t')
  }

  /** A slot that is about to be applied becomes the pool's current slot. */
  function PoolAtSlot(p: Pool, s: State, slot: nat): Pool {
    if slot in s.db.finalized || slot !in s.db.blocks then p else SetCurrentSlot(p, slot)
  }

  function PoolAfterVote(p: Pool, s: State, t: Tally, v: Vote): Pool {
    var res := AddVote(t, v).1;
    if res.Counted? && res.committed then PoolAtSlot(p, s, v.slot) else p
  }

  /** The pool once it has seen a block: a good block's transactions are remembered and cleaned up,
      `visit` being how their hashes come up. */
  function PoolAfterBlock(k: Codec, p: Pool, b: Broadcasted, visit: seq<string>): Pool {
    if b.core.invalidPoH then p else
    BlockCleanup(k, p.(cache := p.cache + Dedup.DedupHashes(k, Transactions(b.entries))), visit)
  }

  class NodeObject {
    const self: string
    const ledger: LedgerObject
    const collector: Collector
    const pool: MempoolObject

    ghost predicate Valid()
      reads this, ledger, ledger.store
    {
      ledger.Valid() && SlotsOk(ledger.store.db) && pool.codec == ledger.codec
    }

    constructor (self: string, ledger: LedgerObject, collector: Collector, pool: MempoolObject)
      requires ledger.Valid() && SlotsOk(ledger.store.db) && pool.codec == ledger.codec
      ensures Valid() && this.self == self && this.ledger == ledger && this.collector == collector && this.pool == pool
    {
      this.self, this.ledger, this.collector, this.pool := self, ledger, collector, pool;
    }

    method ApplyDataToBlock(slot: nat)
      requires Valid()
      modifies ledger.store, pool`netCurrentSlot
      ensures Valid() && ledger.store.View() == ApplySlot(ledger.codec, old(ledger.store.View()), slot)
      ensures pool.View() == PoolAtSlot(old(pool.View()), old(ledger.store.View()), slot)
    {
      if ledger.store.IsApplied(slot) {
        return;
      }
      if slot !in ledger.store.db.blocks {
        return;
      }
      pool.SetSlot(slot);
      var _ := ledger.Finalise(ledger.store.db.blocks[slot]);
    }

    method Process(v: Vote)
      requires Valid()
      modifies ledger.store, collector, pool`netCurrentSlot
      ensures Valid()
      ensures (ledger.store.View(), collector.View())
              == ProcessVote(ledger.codec, old(ledger.store.View()), old(collector.View()), v)
      ensures pool.View() == PoolAfterVote(old(pool.View()), old(ledger.store.View()), old(collector.View()), v)
    {
      var r := collector.Add(v);
      if r.Refused? {
        return;
      }
      if !ledger.store.HasCompleteBlock(v.slot) {
        return;
      }
      if r.committed {
        ApplyDataToBlock(v.slot);
      }
    }

    /** Takes note of a good block's transactions. */
    method CleanPool(b: Broadcasted) returns (ghost visit: seq<string>)
      requires !b.core.invalidPoH
      modifies pool, pool.dedupService
      ensures forall h :: h in visit <==> h in Hashes(pool.codec, Transactions(b.entries))
      ensures pool.View() == PoolAfterBlock(pool.codec, old(pool.View()), b, visit)
    {
      var txs := CollectTxs(b.entries);
      var hashes, dedups := CollectHashes(pool.codec, txs);
      pool.dedupService.Add(dedups);
      assert (set h | h in dedups) == Dedup.DedupHashes(pool.codec, txs);
      visit := pool.Cleanup(hashes);
      forall h
        ensures h in visit <==> h in Hashes(pool.codec, txs)
      {
        assert h in visit <==> h in set x | x in visit;
      }
    }

    /** A block from the network: if the pool does not object to its transactions, store it with its
        verdict, clean the pool, then vote for it. `checked`: leader, signature and the signatures of
        its transactions pass. */
    method OnBlockReceived(b: Broadcasted, checked: bool) returns (ghost visit: seq<string>)
      requires Valid()
      modifies ledger.store, collector, pool, pool.dedupService
      ensures Valid()
      ensures forall h :: h in visit ==> h in Hashes(pool.codec, Transactions(b.entries))
      ensures var k, s, t, p := ledger.codec, old(ledger.store.View()), old(collector.View()), old(pool.View());
        if b.core.slot in s.db.blocks || !checked || BlockError(k, p, Transactions(b.entries)).Some?
        then ledger.store.View() == s && collector.View() == t && pool.View() == p
        else var s', v := AddPending(k, s, Judged(k, b)).0, Vote(b.core.slot, b.core.hash, self, true);
          && (ledger.store.View(), collector.View()) == ProcessVote(k, s', t, v)
          && pool.View() == PoolAfterVote(PoolAfterBlock(k, p, Judged(k, b), visit), s', t, v)
          && (!Judged(k, b).core.invalidPoH ==> forall h :: h in visit <==> h in Hashes(k, Transactions(b.entries)))
    {
      visit := [];
      if b.core.slot in ledger.store.db.blocks || !checked {
        return;
      }
      var txs := CollectTxs(b.entries);
      var refusal := pool.VerifyBlockTransactions(txs);
      if refusal.Some? {
        return;
      }
      var err := Verify.VerifyEntries(ledger.codec, b.core.prevHash, b.entries);
      var blk := b;
      if err.Some? {
        blk := b.(core := b.core.(invalidPoH := true));
      }
      StepKeepsStore(ledger.codec, LedgerProof.Run(ledger.store.View(), []), StoreBlock(blk));
      var ok := ledger.store.AddBlockPending(blk);
      if !blk.core.invalidPoH {
        visit := CleanPool(blk);
      }
      Process(Vote(b.core.slot, b.core.hash, self, true));
    }
  }

  method CollectTxs(es: seq<Entry>) returns (txs: seq<Transaction>)
    ensures txs == Transactions(es)
  {
    txs := [];
    for i := 0 to |es|
      invariant txs + Transactions(es[i..]) == Transactions(es)
    {
      assert es[i..][1..] == es[i + 1..];
      txs := txs + es[i].txs;
    }
  }

  /** The hashes and dedup hashes of transactions. */
  method CollectHashes(k: Codec, txs: seq<Transaction>) returns (hashes: set<string>, dedups: seq<string>)
    ensures forall h :: h in hashes <==> h in Hashes(k, txs)
    ensures |dedups| == |txs| && forall i :: 0 <= i < |txs| ==> dedups[i] == k.dedupHash(txs[i])
  {
    hashes, dedups := {}, [];
    for i := 0 to |txs|
      invariant forall h :: h in hashes <==> h in Hashes(k, txs)[..i]
      invariant |dedups| == i && forall j :: 0 <= j < i ==> dedups[j] == k.dedupHash(txs[j])
    {
      assert Hashes(k, txs)[..i + 1] == Hashes(k, txs)[..i] + [k.txHash(txs[i])];
      hashes := hashes + {k.txHash(txs[i])};
      dedups := dedups + [k.dedupHash(txs[i])];
    }
    assert Hashes(k, txs)[..|txs|] == Hashes(k, txs);
  }
}
