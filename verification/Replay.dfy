/** A transaction that is already in a stored block is not taken again. */
module Replay {
  import opened Base
  import opened BlockStore
  import opened Dedup
  import opened Mempool
  import opened MempoolRuns
  import MempoolProof

  /** How far a transaction's nonce may run ahead of the slot of its block. */
  const SLACK := DEDUP_SLOT_GAP - NONCE_WINDOW - 1

  /** The nonce is outside the window or the transaction has been seen. */
  predicate Refused(k: Codec, p: Pool, tx: Transaction) {
    NonceError(p.slot, tx).Some? || k.dedupHash(tx) in p.cache
  }

  /** Such a transaction is refused by the pool, and so is every block that contains it. */
  lemma RefusedEverywhere(k: Codec, p: Pool, tx: Transaction)
    requires Refused(k, p, tx)
    ensures forall db: Db, signed: bool :: AddError(k, p, db, tx, signed).Some?
    ensures forall txs: seq<Transaction> :: tx in txs ==> BlockError(k, p, txs).Some?
  {
    forall db: Db, signed: bool
      ensures AddError(k, p, db, tx, signed).Some?
    {
      if CheapError(p, tx, signed).None? {
        assert LockedError(k, p, db, tx) == Some(Duplicate);
      }
    }
    forall txs: seq<Transaction> | tx in txs
      ensures BlockError(k, p, txs).Some?
    {
      var i :| 0 <= i < |txs| && txs[i] == tx;
    }
  }

  /** The pool after the node has joined with its store at slot `latest`. */
  function Joined(k: Codec, p: Pool, db: Db, latest: nat): Pool {
    SetCurrentSlot(p.(cache := p.cache + Loaded(k, db, LoadStart(latest), latest + 1)), latest)
  }

  ghost predicate Remembered(k: Codec, p: Pool, tx: Transaction) {
    tx.nonce < MinNonce(p.slot) || k.dedupHash(tx) in p.cache
  }

  /** Cache entries live until the slot passes the nonce window. */
  predicate Lives(k: Codec, t: Trace, step: Step, tx: Transaction) {
    step.Expire? && k.dedupHash(tx) in step.gone ==> t.pool.slot > tx.nonce + NONCE_WINDOW
  }

  /** Joining remembers every stored transaction whose nonce is no more than the slack ahead of its
      slot: either its block is loaded, or its nonce is too old already. */
  lemma JoinedRemembers(k: Codec, p: Pool, db: Db, latest: nat, s: nat, tx: Transaction)
    requires s <= latest && s in db.blocks && tx in BlockTxs(db, db.blocks[s])
    requires tx.nonce <= SafeNonce(s)
    ensures Remembered(k, Joined(k, p, db, latest), tx)
  {
    if s >= LoadStart(latest) {
      var i :| 0 <= i < |BlockTxs(db, db.blocks[s])| && BlockTxs(db, db.blocks[s])[i] == tx;
      assert k.dedupHash(tx) in DedupHashes(k, BlockTxs(db, db.blocks[s]));
    }
  }

  lemma StepRemembers(k: Codec, t: Trace, step: Step, tx: Transaction)
    requires Remembered(k, t.pool, tx) && Lives(k, t, step, tx)
    ensures Remembered(k, Next(k, t, step).pool, tx)
  {
    match step
    case Add(_, _) =>
    case Pull(n) =>
      PullCache(k, t.pool, n);
      PullSlot(k, t.pool, n);
    case GoodBlock(txs, visit) =>
      MempoolProof.RemoveAllFrame(k, t.pool.(cache := t.pool.cache + DedupHashes(k, txs)), visit);
    case SetSlot(_) =>
    case NewLedger(_) =>
    case Expire(_) =>
  }

  lemma PullSlot(k: Codec, p: Pool, n: nat)
    ensures PullBatch(k, p, n).0.slot == p.slot
  {
    var m := Min(n, |p.order|);
    MempoolProof.RemoveAllFrame(k, p.(order := p.order[m..]), p.order[..m]);
  }

  lemma {:induction false} RunRemembers(k: Codec, t: Trace, steps: seq<Step>, tx: Transaction)
    requires Remembered(k, t.pool, tx)
    requires forall i :: 0 <= i < |steps| ==> Lives(k, RunSteps(k, t, steps[..i]), steps[i], tx)
    ensures Remembered(k, RunSteps(k, t, steps).pool, tx)
  {
    if steps != [] {
      var front := steps[..|steps| - 1];
      assert forall i :: 0 <= i < |front| ==> front[..i] == steps[..i] && front[i] == steps[i];
      RunRemembers(k, t, front, tx);
      StepRemembers(k, RunSteps(k, t, front), steps[|steps| - 1], tx);
    }
  }

  /** After joining at `latest`, and however the pool runs on from there, a transaction stored at a slot
      up to `latest` with a nonce up to that slot, even up to 49 beyond it, is refused by the pool and
      in every block. */
  lemma ReplayRefused(k: Codec, p: Pool, db: Db, latest: nat, s: nat, tx: Transaction, t: Trace, steps: seq<Step>)
    requires s <= latest && s in db.blocks && tx in BlockTxs(db, db.blocks[s])
    requires tx.nonce <= SafeNonce(s)
    requires t.pool == Joined(k, p, db, latest)
    requires forall i :: 0 <= i < |steps| ==> Lives(k, RunSteps(k, t, steps[..i]), steps[i], tx)
    ensures var q := RunSteps(k, t, steps).pool;
      && (forall view: Db, signed: bool :: AddError(k, q, view, tx, signed).Some?)
      && (forall txs: seq<Transaction> :: tx in txs ==> BlockError(k, q, txs).Some?)
  {
    JoinedRemembers(k, p, db, latest, s, tx);
    RunRemembers(k, t, steps, tx);
    RefusedEverywhere(k, RunSteps(k, t, steps).pool, tx);
  }

  /** A store that holds one transaction in one block. */
  function Single(k: Codec, s: nat, tx: Transaction): Db {
    var blk := Block(BlockCore(s, [], "", 0, [], [], true, false), [PersistentEntry(1, [], [k.txHash(tx)], false)]);
    Db(map[s := blk], {s}, map[k.txHash(tx) := tx], map[], map[], map[], None, None)
  }

  lemma SingleHolds(k: Codec, s: nat, tx: Transaction)
    ensures var db := Single(k, s, tx); s in db.blocks && tx in BlockTxs(db, db.blocks[s])
  {
    var db, hs := Single(k, s, tx), [k.txHash(tx)];
    var blk := db.blocks[s];
    assert blk.entries[..0] == [] && AllTxHashes(blk.entries) == hs;
    assert hs[..|hs| - 1] == [] && GetBatch(db.txs, hs) == [tx];
  }

  /** The greatest nonce with which a transaction stored at a slot is certain to be refused. */
  function SafeNonce(s: nat): nat { if s == 0 then 0 else s + SLACK }

  /** A latest slot that lets a greater nonce through again. */
  function TooLate(s: nat, nonce: nat): nat { if s == 0 then nonce else nonce + NONCE_WINDOW }

  /** The slack is sharp: with any greater nonce there is a store whose transaction passes both checks
      again after joining. */
  lemma SlackIsSharp(k: Codec, s: nat, tx: Transaction)
    requires tx.nonce > SafeNonce(s)
    ensures var db, latest := Single(k, s, tx), TooLate(s, tx.nonce);
      && s <= latest && s in db.blocks && tx in BlockTxs(db, db.blocks[s])
      && !Refused(k, Joined(k, Fresh(1, {}, db).pool, db, latest), tx)
  {
    var db, latest := Single(k, s, tx), TooLate(s, tx.nonce);
    SingleHolds(k, s, tx);
    LoadedEmpty(k, db, LoadStart(latest), latest + 1);
  }

  /** Whatever the store holds besides and whenever the node joins, the transaction is refused. */
  ghost predicate AlwaysRefused(k: Codec, s: nat, tx: Transaction) {
    forall p: Pool, db: Db, latest: nat :: s <= latest && s in db.blocks && tx in BlockTxs(db, db.blocks[s]) ==>
      Refused(k, Joined(k, p, db, latest), tx)
  }

  /** A transaction stored at a slot is certain to be refused again exactly when its nonce is at most 49
      ahead of the slot; in slot 0, whose block is never loaded, exactly when it is zero. */
  lemma RefusalIsCertain(k: Codec, s: nat, tx: Transaction)
    ensures AlwaysRefused(k, s, tx) <==> tx.nonce <= SafeNonce(s)
  {
    if tx.nonce <= SafeNonce(s) {
      forall p: Pool, db: Db, latest: nat | s <= latest && s in db.blocks && tx in BlockTxs(db, db.blocks[s])
        ensures Refused(k, Joined(k, p, db, latest), tx)
      {
        JoinedRemembers(k, p, db, latest, s, tx);
      }
    } else {
      SlackIsSharp(k, s, tx);
    }
  }

  lemma {:induction false} LoadedEmpty(k: Codec, db: Db, start: nat, end: nat)
    requires forall s :: start <= s < end ==> s !in db.blocks
    ensures Loaded(k, db, start, end) == {}
  {
    if end > start {
      LoadedEmpty(k, db, start, end - 1);
    }
  }
}
