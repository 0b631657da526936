/** The cache of recently seen transactions, keyed by their dedup hash. */
module Dedup {
  import opened Base
  import opened BlockStore

  const DEDUP_SLOT_GAP := 200

  function DedupHashes(k: Codec, txs: seq<Transaction>): set<string> {
    set i | 0 <= i < |txs| :: k.dedupHash(txs[i])
  }

  function AllTxHashes(es: seq<PersistentEntry>): seq<string> {
    if es == [] then [] else AllTxHashes(es[..|es| - 1]) + es[|es| - 1].txHashes
  }

  /** The stored transactions of a stored block. */
  function BlockTxs(db: Db, blk: Block): seq<Transaction> {
    GetBatch(db.txs, AllTxHashes(blk.entries))
  }

  function LoadStart(latest: nat): (start: nat)
    ensures 1 <= start
  {
    if latest > DEDUP_SLOT_GAP then latest - DEDUP_SLOT_GAP + 1 else 1
  }

  /** Dedup hashes of the stored blocks of slots from `start` up to but not including `end`. */
  function Loaded(k: Codec, db: Db, start: nat, end: nat): (r: set<string>)
    ensures forall s :: start <= s < end && s in db.blocks ==> DedupHashes(k, BlockTxs(db, db.blocks[s])) <= r
    decreases end
  {
    if end <= start then {} else
    Loaded(k, db, start, end - 1) +
    if end - 1 in db.blocks then DedupHashes(k, BlockTxs(db, db.blocks[end - 1])) else {}
  }

  lemma {:induction false} LoadedOnly(k: Codec, db: Db, start: nat, end: nat, h: string)
    requires h in Loaded(k, db, start, end)
    ensures exists s :: start <= s < end && s in db.blocks && h in DedupHashes(k, BlockTxs(db, db.blocks[s]))
  {
    if end - 1 !in db.blocks || h !in DedupHashes(k, BlockTxs(db, db.blocks[end - 1])) {
      LoadedOnly(k, db, start, end - 1, h);
    }
  }

  class DedupService {
    var cache: set<string>

    constructor ()
      ensures cache == {}
    {
      cache := {};
    }

    method Add(hashes: seq<string>)
      modifies this
      ensures cache == old(cache) + set h | h in hashes
    {
      for i := 0 to |hashes|
        invariant cache == old(cache) + set h | h in hashes[..i]
      {
        assert hashes[..i + 1] == hashes[..i] + [hashes[i]];
        cache := cache + {hashes[i]};
      }
      assert hashes[..|hashes|] == hashes;
    }

    method IsDuplicate(h: string) returns (found: bool)
      ensures found == (h in cache)
    {
      found := h in cache;
    }

    /** Fills the cache with the blocks of the last slots, as the node does when it joins. */
    method LoadTxHashes(k: Codec, db: Db, latest: nat)
      modifies this
      ensures cache == old(cache) + Loaded(k, db, LoadStart(latest), latest + 1)
    {
      if latest < 1 {
        return;
      }
      var hashes := CollectHashes(k, db, LoadStart(latest), latest);
      Add(hashes);
    }
  }

  method CollectHashes(k: Codec, db: Db, start: nat, latest: nat) returns (hashes: seq<string>)
    requires start <= latest
    ensures (set h | h in hashes) == Loaded(k, db, start, latest + 1)
  {
    hashes := [];
    var slot := start;
    while slot <= latest
      invariant start <= slot <= latest + 1
      invariant (set h | h in hashes) == Loaded(k, db, start, slot)
    {
      if slot in db.blocks {
        var more := BlockHashes(k, db, db.blocks[slot]);
        hashes := hashes + more;
      }
      slot := slot + 1;
    }
  }

  method BlockHashes(k: Codec, db: Db, blk: Block) returns (hashes: seq<string>)
    ensures (set h | h in hashes) == DedupHashes(k, BlockTxs(db, blk))
  {
    var txHashes: seq<string> := [];
    for i := 0 to |blk.entries|
      invariant txHashes == AllTxHashes(blk.entries[..i])
    {
      assert blk.entries[..i + 1][..i] == blk.entries[..i];
      txHashes := txHashes + blk.entries[i].txHashes;
    }
    assert blk.entries[..|blk.entries|] == blk.entries;
    var txs := GetBatch(db.txs, txHashes);
    hashes := [];
    for i := 0 to |txs|
      invariant |hashes| == i && forall j :: 0 <= j < i ==> hashes[j] == k.dedupHash(txs[j])
    {
      hashes := hashes + [k.dedupHash(txs[i])];
    }
  }
}
