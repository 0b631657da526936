/** Whole sessions of block sync, from the request to the receiver's accounts, and where the blocks it
    makes up leave the chain. */
module SyncSession {
  import opened Base
  import opened Accounts
  import opened BlockStore
  import opened Node
  import opened Sync
  import opened SyncProof
  import opened Verify
  import Leader
  import LedgerProof
  import Poh
  import Recorder

  // ----- Request to accounts --------------------------------------------------------------------

  /** The sender holds every slot of `from`..`end - 1`, and the receiver, which is waiting for `from`,
      believes each. */
  ghost predicate CanReplicate(e: Env, s: State, q: Queue, db: Db, from: nat, end: nat) {
    && CollisionFree(e.codec) && LedgerProof.StoreOk(e.codec, s) && LedgerProof.SlotsOk(db)
    && q.next == from && Expecting(e, s, q, end)
    && (forall x :: from <= x < end ==> x in db.blocks && Sound(e, db, x))
  }

  /** The first slot a request gets: the requested one unless the request ends before it starts. */
  function First(from: nat, to: nat): nat { if from <= to + 1 then from else to + 1 }

  lemma NothingArrives(e: Env, s: State, q: Queue, db: Db, from: nat)
    requires LedgerProof.StoreOk(e.codec, s)
    ensures var r := ArriveAll(e, s, q, Stored(db, from, from)); r.1 == q && ReplicaOk(e, s, db, from, from, r.0)
  {
    ReplicaStart(e, s, db, from);
  }

  lemma SomeArrive(e: Env, s: State, q: Queue, db: Db, from: nat, latest: nat)
    requires from <= latest && CanReplicate(e, s, q, db, from, latest + 1)
    ensures var r := ArriveAll(e, s, q, Stored(db, from, latest + 1));
      r.1 == q.(next := latest + 1) && ReplicaOk(e, s, db, from, latest + 1, r.0)
  {
    SyncReplicates(e, s, q, db, from, latest);
  }

  /** Once `sent` has arrived the receiver waits for `end`, has stored the slots up to there, and holds
      the sender's accounts if those are its own earlier ones changed by the transfers of those slots. */
  ghost predicate Replicated(e: Env, s: State, q: Queue, db: Db, from: nat, end: nat, sent: seq<Broadcasted>) {
    var r := ArriveAll(e, s, q, sent);
    && r.1 == q.(next := end) && ReplicaOk(e, s, db, from, end, r.0)
    && (db.accounts == ApplyAll(s.db.accounts, SlotTransfers(db, from, end)) ==> r.0.db.accounts == db.accounts)
  }

  lemma StreamReplicates(e: Env, s: State, q: Queue, db: Db, from: nat, end: nat)
    requires from <= end && CanReplicate(e, s, q, db, from, end)
    ensures Replicated(e, s, q, db, from, end, Stored(db, from, end))
  {
    if from < end {
      SomeArrive(e, s, q, db, from, end - 1);
    } else {
      NothingArrives(e, s, q, db, from);
    }
  }

  /** A session of any length while the sender's store grows: whatever the rounds of the sender find and
      however its stream is cut into batches, the receiver ends up at the slot the sender has come to,
      and has replicated everything up to there. */
  lemma SessionReplicates(e: Env, s: State, q: Queue, rs: seq<Reading>, from: nat, to: nat,
      batches: seq<seq<Broadcasted>>)
    requires Stable(rs) && rs != [] && from <= rs[0].latest
    requires Flat(batches) == RoundsSend(rs, from, to).0
    requires CanReplicate(e, s, q, rs[|rs| - 1].db, First(from, to), RoundsSend(rs, from, to).1)
    ensures Replicated(e, s, q, rs[|rs| - 1].db, First(from, to), RoundsSend(rs, from, to).1, Flat(batches))
  {
    SenderSends(rs, from, to);
    StreamReplicates(e, s, q, rs[|rs| - 1].db, First(from, to), RoundsSend(rs, from, to).1);
  }

  /** A session with a sender that stays where it is: the loop ends by itself, and the receiver has every
      slot up to the sender's latest. */
  lemma ConstantSession(e: Env, s: State, q: Queue, db: Db, latest: nat, n: nat, from: nat, to: nat,
      batches: seq<seq<Broadcasted>>)
    requires from <= latest && n >= latest + 3
    requires Flat(batches) == RoundsSend(Constant(db, latest, n), from, to).0
    requires CanReplicate(e, s, q, db, First(from, to), latest + 1)
    ensures Finishes(Constant(db, latest, n), from, to)
    ensures Replicated(e, s, q, db, First(from, to), latest + 1, Flat(batches))
  {
    ConstantSender(db, latest, n, from, to);
    StreamReplicates(e, s, q, db, First(from, to), latest + 1);
  }

  // ----- Made-up slots and the leader's seed ----------------------------------------------------

  /** The pass makes up the `n` slots from place `i` on. */
  ghost predicate MadeUpRun(e: Env, db: Db, q: Queue, i: nat, n: nat) {
    && Filed(q.blocks) && i + n <= |Collect(e, db, q, []).1|
    && forall x :: q.next + i <= x < q.next + i + n ==> x !in q.blocks
  }

  /** The hashes between the slots of a made-up run, from the one before it to the one after it. */
  ghost function Ends(e: Env, db: Db, q: Queue, i: nat, n: nat): (hs: seq<Hash>)
    requires n > 0 && i + n <= |Collect(e, db, q, []).1|
    ensures |hs| == n + 1
  {
    var all := Collect(e, db, q, []).1;
    [Before(db, q, all, i)] + seq(n, j requires 0 <= j < n => LastHash(ZERO_HASH, all[i + j].entries))
  }

  lemma MadeUpIs(e: Env, db: Db, q: Queue, i: nat)
    requires Filed(q.blocks) && i < |Collect(e, db, q, []).1| && q.next + i !in q.blocks
    ensures var all := Collect(e, db, q, []).1; all[i] == EmptyBlock(e, q.next + i, Before(db, q, all, i))
  {
    var all := Collect(e, db, q, []).1;
    CollectPasses(e, db, q, []);
    assert TakenAt(e, db, q, [], all, i);
    MadeUpBlocksLink(e, db, q, i);
  }

  lemma EndsAre(e: Env, db: Db, q: Queue, i: nat, n: nat, j: nat)
    requires MadeUpRun(e, db, q, i, n) && j < n && q.next + i >= 1
    ensures var hs, all := Ends(e, db, q, i, n), Collect(e, db, q, []).1;
      hs[j] == Before(db, q, all, i + j) && hs[j + 1] == LastHash(ZERO_HASH, all[i + j].entries)
  {
  }

  lemma EmptyBlockTail(e: Env, slot: nat, prev: Hash)
    requires e.ticksPerSlot > 0 && e.perTick > 0
    ensures LastHash(ZERO_HASH, EmptyBlock(e, slot, prev).entries) == LastHash(prev, EmptyBlock(e, slot, prev).entries)
  {
    assert |EmptyBlock(e, slot, prev).entries| > 0;
  }

  lemma MadeUpAt(e: Env, db: Db, q: Queue, i: nat, n: nat, j: nat)
    requires e.ticksPerSlot > 0 && e.perTick > 0 && MadeUpRun(e, db, q, i, n) && j < n && q.next + i >= 1
    ensures var hs := Ends(e, db, q, i, n); hs[j + 1] == LastHash(hs[j], EmptyBlock(e, q.next + i + j, hs[j]).entries)
  {
    EndsAre(e, db, q, i, n, j);
    MadeUpIs(e, db, q, i + j);
    EmptyBlockTail(e, q.next + i + j, Ends(e, db, q, i, n)[j]);
  }

  lemma MadeUpHashes(e: Env, db: Db, q: Queue, i: nat, n: nat)
    requires e.ticksPerSlot > 0 && e.perTick > 0 && MadeUpRun(e, db, q, i, n) && n > 0 && q.next + i >= 1
    ensures var all := Collect(e, db, q, []).1;
      LastHash(ZERO_HASH, all[i + n - 1].entries)
      == Poh.Iterate(e.codec.sha, Before(db, q, all, i), SlotHashes(e, n))
  {
    var hs := Ends(e, db, q, i, n);
    forall j | 0 <= j < |hs| - 1
      ensures hs[j + 1] == LastHash(hs[j], EmptyBlock(e, q.next + i + j, hs[j]).entries)
    {
      MadeUpAt(e, db, q, i, n, j);
    }
    EmptyRunIsFastForward(e, q.next + i, hs);
  }

  lemma HashCount(n: nat, ticksPerSlot: nat, perTick: nat)
    ensures n * (ticksPerSlot * perTick) == n * ticksPerSlot * perTick
  {
  }

  /** The slots that a pass makes up end exactly where the leader's own computation over the same slots
      ends, as long as the number of hashes fits 64 bits. */
  lemma MadeUpRunIsFastForward(e: Env, db: Db, q: Queue, i: nat, n: nat, r: Recorder.State)
    requires e.ticksPerSlot == r.ticksPerSlot && e.perTick == r.clock.perTick > 0
    requires MadeUpRun(e, db, q, i, n) && n > 0 && q.next + i >= 1 && SlotHashes(e, n) < TWO_64
    ensures var all, from := Collect(e, db, q, []).1, q.next + i - 1;
      LastHash(ZERO_HASH, all[i + n - 1].entries)
      == Leader.FastForwarded(e.codec, r, Before(db, q, all, i), from, from + n)
  {
    MadeUpHashes(e, db, q, i, n);
    HashCount(n, r.ticksPerSlot, r.clock.perTick);
  }

  /** So a leader that gives up waiting after such slots, and whose newest stored slot is the one before
      them, starts from the end of the last made-up block. */
  lemma SeedAfterMadeUpRun(e: Env, s: State, q: Queue, n: nat, r: Recorder.State)
    requires e.ticksPerSlot == r.ticksPerSlot && e.perTick == r.clock.perTick > 0
    requires MadeUpRun(e, s.db, q, 0, n) && n > 0 && q.next >= 2 && SlotHashes(e, n) < TWO_64
    requires s.latestStore == q.next - 1 && s.latestStore in s.db.blocks
    requires s.latestStore in r.queue ==> r.queue[s.latestStore] == BlockTail(s.db.blocks[s.latestStore])
    ensures Leader.SeedFor(e.codec, r, s, q.next + n - 1, false)
            == LastHash(ZERO_HASH, Collect(e, s.db, q, []).1[n - 1].entries)
  {
    MadeUpRunIsFastForward(e, s.db, q, 0, n, r);
  }
}
