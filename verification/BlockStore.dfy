/** Blocks on the wire and on disk, and the store that holds them. The database is a value that a
    batch write replaces at once. */
module BlockStore {
  import opened Base
  import opened Accounts

  datatype BlockCore = BlockCore(
    slot: nat,
    prevHash: Hash,
    leaderId: string,
    timestamp: nat,
    hash: Hash,
    signature: Bytes,
    finalized: bool,
    invalidPoH: bool)

  /** A block as broadcast, with whole transactions. */
  datatype Broadcasted = Broadcasted(core: BlockCore, entries: seq<Entry>)

  datatype PersistentEntry = PersistentEntry(numHashes: nat, hash: Hash, txHashes: seq<string>, tick: bool)

  /** A block as stored, with transaction hashes. */
  datatype Block = Block(core: BlockCore, entries: seq<PersistentEntry>)

  datatype Status = Processed | Succeeded | Failed

  datatype Meta = Meta(slot: nat, blockHash: Hash, status: Status)

  datatype Db = Db(
    blocks: map<nat, Block>,
    finalized: set<nat>,
    txs: map<string, Transaction>,
    metas: map<string, Meta>,
    accounts: Store,
    latest: map<string, string>,       // newest version of each content root
    metaStore: Option<nat>,            // persisted latest stored slot
    metaFinalized: Option<nat>)        // persisted latest finalised slot

  datatype State = State(db: Db, latestStore: nat, latestFinalized: nat)

  /** The last entry hash of a stored block. */
  function BlockTail(blk: Block): Hash {
    if blk.entries == [] then ZERO_HASH else blk.entries[|blk.entries| - 1].hash
  }

  // ----- Conversions ----------------------------------------------------------------------------

  function Hashes(k: Codec, txs: seq<Transaction>): (r: seq<string>)
    ensures |r| == |txs|
  {
    seq(|txs|, i requires 0 <= i < |txs| => k.txHash(txs[i]))
  }

  function PersistEntry(k: Codec, e: Entry): PersistentEntry {
    PersistentEntry(e.numHashes, e.hash, Hashes(k, e.txs), e.tick)
  }

  function ToBlock(k: Codec, b: Broadcasted): (r: Block)
  {
    Block(b.core.(finalized := false),
      seq(|b.entries|, i requires 0 <= i < |b.entries| => PersistEntry(k, b.entries[i])))
  }

  method BroadcastedBlockToBlock(k: Codec, b: Broadcasted) returns (r: Block)
    ensures r == ToBlock(k, b)
  {
    var es: seq<PersistentEntry> := [];
    for i := 0 to |b.entries|
      invariant |es| == i && forall j :: 0 <= j < i ==> es[j] == PersistEntry(k, b.entries[j])
    {
      var e := b.entries[i];
      var hs: seq<string> := [];
      for j := 0 to |e.txs|
        invariant hs == Hashes(k, e.txs)[..j]
      {
        hs := hs + [k.txHash(e.txs[j])];
      }
      es := es + [PersistentEntry(e.numHashes, e.hash, hs, e.tick)];
    }
    assert es == ToBlock(k, b).entries;
    r := Block(b.core.(finalized := false), es);
  }

  /** Batch read of transactions: those that are found, in the order asked for. */
  function GetBatch(m: map<string, Transaction>, hs: seq<string>): (r: seq<Transaction>) {
    if hs == [] then [] else
    var front := GetBatch(m, hs[..|hs| - 1]);
    if hs[|hs| - 1] in m then front + [m[hs[|hs| - 1]]] else front
  }

  lemma {:induction false} BatchConcat(m: map<string, Transaction>, a: seq<string>, b: seq<string>)
    ensures GetBatch(m, a + b) == GetBatch(m, a) + GetBatch(m, b)
  {
    if b == [] {
      assert a + b == a;
    } else {
      assert (a + b)[..|a + b| - 1] == a + b[..|b| - 1];
      BatchConcat(m, a, b[..|b| - 1]);
    }
  }

  function Rebuild(m: map<string, Transaction>, blk: Block): (r: Broadcasted) {
    Broadcasted(blk.core, seq(|blk.entries|, i requires 0 <= i < |blk.entries| =>
      Entry(blk.entries[i].numHashes, blk.entries[i].hash, GetBatch(m, blk.entries[i].txHashes), blk.entries[i].tick)))
  }

  /** The sender's side of block sync turns a stored block back into a broadcast one. */
  method ConvertBlockToBroadcasted(m: map<string, Transaction>, blk: Block) returns (r: Broadcasted)
    ensures r == Rebuild(m, blk)
  {
    var es: seq<Entry> := [];
    for i := 0 to |blk.entries|
      invariant es == Rebuild(m, blk).entries[..i]
    {
      var p := blk.entries[i];
      es := es + [Entry(p.numHashes, p.hash, GetBatch(m, p.txHashes), p.tick)];
    }
    r := Broadcasted(blk.core, es);
  }

  // ----- Storing a block ------------------------------------------------------------------------

  /** Transactions that are stored with a block: those of its non-tick entries. */
  function StoredTxs(es: seq<Entry>): seq<Transaction> {
    if es == [] then [] else
    StoredTxs(es[..|es| - 1]) + if es[|es| - 1].tick then [] else es[|es| - 1].txs
  }

  function PutTxs(k: Codec, m: map<string, Transaction>, txs: seq<Transaction>): map<string, Transaction> {
    if txs == [] then m else PutTxs(k, m, txs[..|txs| - 1])[k.txHash(txs[|txs| - 1]) := txs[|txs| - 1]]
  }

  function PutMetas(k: Codec, m: map<string, Meta>, txs: seq<Transaction>, v: Meta): map<string, Meta> {
    if txs == [] then m else PutMetas(k, m, txs[..|txs| - 1], v)[k.txHash(txs[|txs| - 1]) := v]
  }

  function AddPending(k: Codec, s: State, b: Broadcasted): (r: (State, bool)) {
    var slot := b.core.slot;
    if slot in s.db.blocks then (s, false) else
    var txs := StoredTxs(b.entries);
    var newest := slot > s.latestStore;
    (State(s.db.(blocks := s.db.blocks[slot := ToBlock(k, b)],
                 txs := PutTxs(k, s.db.txs, txs),
                 metas := PutMetas(k, s.db.metas, txs, Meta(slot, b.core.hash, Processed)),
                 metaStore := if newest then Some(slot) else s.db.metaStore),
           if newest then slot else s.latestStore,
           s.latestFinalized),
     true)
  }

  /** Accounts, metas, versions, block status and finalised marker go into one batch. */
  function Finalize(s: State, blk: Block, metas: map<string, Meta>, accounts: Store,
                    latest: map<string, string>): (r: (State, bool)) {
    var slot := blk.core.slot;
    if slot !in s.db.blocks then (s, false) else
    (State(s.db.(blocks := s.db.blocks[slot := blk.(core := blk.core.(finalized := true))],
                 finalized := s.db.finalized + {slot},
                 metas := s.db.metas + metas,
                 accounts := s.db.accounts + accounts,
                 latest := s.db.latest + latest,
                 metaFinalized := if slot > s.latestFinalized then Some(slot) else s.db.metaFinalized),
           s.latestStore,
           slot),
     true)
  }

  class GenericBlockStore {
    const codec: Codec
    var db: Db
    var latestStore: nat
    var latestFinalized: nat

    function View(): State
      reads this
    {
      State(db, latestStore, latestFinalized)
    }

    /** Opens a store on an existing database. */
    constructor (codec: Codec, db: Db)
      ensures this.codec == codec
      ensures View() == State(db,
        if db.metaFinalized.None? || db.metaStore.None? then 0 else db.metaStore.value,
        if db.metaFinalized.None? then 0 else db.metaFinalized.value)
    {
      this.codec := codec;
      this.db := db;
      if db.metaFinalized.None? {
        latestFinalized := 0;
        latestStore := 0;
      } else {
        latestFinalized := db.metaFinalized.value;
        latestStore := if db.metaStore.None? then 0 else db.metaStore.value;
      }
    }

    predicate HasCompleteBlock(slot: nat)
      reads this
    {
      slot in db.blocks
    }

    predicate IsApplied(slot: nat)
      reads this
    {
      slot in db.finalized
    }

    method AddBlockPending(b: Broadcasted) returns (ok: bool)
      modifies this
      ensures (View(), ok) == AddPending(codec, old(View()), b)
    {
      var slot := b.core.slot;
      if slot in db.blocks {
        return false;
      }
      var blk := BroadcastedBlockToBlock(codec, b);
      var batch := db.(blocks := db.blocks[slot := blk]);
      if slot > latestStore {
        latestStore := slot;
        batch := batch.(metaStore := Some(slot));
      }
      var txs, metas := PutEntries(b.entries, Meta(slot, b.core.hash, Processed));
      db := batch.(txs := txs, metas := metas);
      ok := true;
    }

    /** The batch's transactions and metas: those of the database and of all non-tick entries. */
    method PutEntries(es: seq<Entry>, meta: Meta) returns (txs: map<string, Transaction>, metas: map<string, Meta>)
      ensures txs == PutTxs(codec, db.txs, StoredTxs(es))
      ensures metas == PutMetas(codec, db.metas, StoredTxs(es), meta)
    {
      txs, metas := db.txs, db.metas;
      for i := 0 to |es|
        invariant txs == PutTxs(codec, db.txs, StoredTxs(es[..i]))
        invariant metas == PutMetas(codec, db.metas, StoredTxs(es[..i]), meta)
      {
        assert es[..i + 1][..i] == es[..i];
        if !es[i].tick {
          txs, metas := PutEntry(txs, metas, es[i].txs, meta, StoredTxs(es[..i]));
        } else {
          assert StoredTxs(es[..i + 1]) == StoredTxs(es[..i]);
        }
      }
      assert es[..|es|] == es;
    }

    /** Adds one entry's transactions and metas to the batch, `done` being those already added. */
    method PutEntry(txs: map<string, Transaction>, metas: map<string, Meta>, more: seq<Transaction>, meta: Meta,
        ghost done: seq<Transaction>)
      returns (txs': map<string, Transaction>, metas': map<string, Meta>)
      requires txs == PutTxs(codec, db.txs, done) && metas == PutMetas(codec, db.metas, done, meta)
      ensures txs' == PutTxs(codec, db.txs, done + more) && metas' == PutMetas(codec, db.metas, done + more, meta)
    {
      txs', metas' := txs, metas;
      assert done + more[..0] == done;
      for j := 0 to |more|
        invariant txs' == PutTxs(codec, db.txs, done + more[..j])
        invariant metas' == PutMetas(codec, db.metas, done + more[..j], meta)
      {
        var h := codec.txHash(more[j]);
        txs', metas' := txs'[h := more[j]], metas'[h := meta];
        assert (done + more[..j + 1])[..|done| + j] == done + more[..j];
      }
      assert more[..|more|] == more;
    }

    method FinalizeBlock(blk: Block, metas: map<string, Meta>, accounts: Store, latest: map<string, string>)
        returns (ok: bool)
      modifies this
      ensures (View(), ok) == Finalize(old(View()), blk, metas, accounts, latest)
    {
      var slot := blk.core.slot;
      if slot !in db.blocks {
        return false;
      }
      var batch := db.(blocks := db.blocks[slot := blk.(core := blk.core.(finalized := true))]);
      batch := batch.(metas := batch.metas + metas, accounts := batch.accounts + accounts,
        latest := batch.latest + latest);
      batch := batch.(finalized := batch.finalized + {slot});
      if slot > latestFinalized {
        batch := batch.(metaFinalized := Some(slot));
      }
      db := batch;
      latestFinalized := slot;
      ok := true;
    }
  }

  // ----- Stored transactions and the round trip -------------------------------------------------

  lemma {:induction false} PutTxsOk(k: Codec, m: map<string, Transaction>, txs: seq<Transaction>)
    requires Keyed(k, m)
    ensures Keyed(k, PutTxs(k, m, txs))
    ensures forall h :: h in m ==> h in PutTxs(k, m, txs)
    ensures forall i :: 0 <= i < |txs| ==> k.txHash(txs[i]) in PutTxs(k, m, txs)
  {
    if txs != [] {
      PutTxsOk(k, m, txs[..|txs| - 1]);
    }
  }

  ghost predicate AllStored(k: Codec, m: map<string, Transaction>, txs: seq<Transaction>) {
    forall i :: 0 <= i < |txs| ==> k.txHash(txs[i]) in m
  }

  /** Asking for the hashes of some transactions gives those transactions back exactly when all of
      them are stored. */
  lemma {:induction false} GetBatchOfHashes(k: Codec, m: map<string, Transaction>, txs: seq<Transaction>)
    requires CollisionFree(k) && Keyed(k, m)
    ensures |GetBatch(m, Hashes(k, txs))| <= |txs|
    ensures GetBatch(m, Hashes(k, txs)) == txs <==> AllStored(k, m, txs)
  {
    if txs != [] {
      var front := txs[..|txs| - 1];
      assert Hashes(k, txs)[..|txs| - 1] == Hashes(k, front);
      GetBatchOfHashes(k, m, front);
      assert front + [txs[|txs| - 1]] == txs;
      assert AllStored(k, m, txs) <==> AllStored(k, m, front) && k.txHash(txs[|txs| - 1]) in m;
    }
  }

  /** The round trip: once a block is stored, and in every later database that keeps each transaction
      under its hash, converting it back gives the same entries exactly when the transactions inside
      tick entries, if any, are stored too. */
  lemma BlockRoundTrip(k: Codec, s: State, b: Broadcasted, later: map<string, Transaction>)
    requires CollisionFree(k) && Keyed(k, s.db.txs) && Keyed(k, later)
    requires AddPending(k, s, b).1
    requires AddPending(k, s, b).0.db.txs.Keys <= later.Keys
    ensures Rebuild(later, AddPending(k, s, b).0.db.blocks[b.core.slot]).core == b.core.(finalized := false)
    ensures Rebuild(later, AddPending(k, s, b).0.db.blocks[b.core.slot]).entries == b.entries
            <==> forall i :: 0 <= i < |b.entries| && b.entries[i].tick ==> AllStored(k, later, b.entries[i].txs)
  {
    var blk := AddPending(k, s, b).0.db.blocks[b.core.slot];
    var es := Rebuild(later, blk).entries;
    assert blk == ToBlock(k, b);
    PutTxsOk(k, s.db.txs, StoredTxs(b.entries));
    forall i | 0 <= i < |b.entries|
      ensures es[i] == b.entries[i] <==> AllStored(k, later, b.entries[i].txs)
      ensures !b.entries[i].tick ==> AllStored(k, later, b.entries[i].txs)
    {
      GetBatchOfHashes(k, later, b.entries[i].txs);
      if !b.entries[i].tick {
        EntryStored(k, s.db.txs, b.entries, i);
      }
    }
    assert es == b.entries <==> forall i :: 0 <= i < |b.entries| ==> es[i] == b.entries[i];
  }

  lemma {:induction false} StoredContains(es: seq<Entry>, i: nat, j: nat)
    requires i < |es| && !es[i].tick && j < |es[i].txs|
    ensures es[i].txs[j] in StoredTxs(es)
  {
    if i < |es| - 1 {
      StoredContains(es[..|es| - 1], i, j);
    }
  }

  lemma EntryStored(k: Codec, m: map<string, Transaction>, es: seq<Entry>, i: nat)
    requires Keyed(k, m) && i < |es| && !es[i].tick
    ensures AllStored(k, PutTxs(k, m, StoredTxs(es)), es[i].txs)
  {
    PutTxsOk(k, m, StoredTxs(es));
    forall j | 0 <= j < |es[i].txs|
      ensures k.txHash(es[i].txs[j]) in PutTxs(k, m, StoredTxs(es))
    {
      StoredContains(es, i, j);
      var n :| 0 <= n < |StoredTxs(es)| && StoredTxs(es)[n] == es[i].txs[j];
    }
  }
}
