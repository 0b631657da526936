/** Block sync: a sender streams stored blocks in batches, a receiver puts them in slot order. */
module Sync {
  import opened Base
  import opened BlockStore
  import opened Ledger
  import opened Node
  import opened Poh
  import opened Verify
  import LedgerProof

  const SYNC_BLOCKS_BATCH_SIZE := 100

  // ----- The sender -----------------------------------------------------------------------------

  /** The stored blocks of slots from `start` up to but not including `end`, as they are sent. */
  function Stored(db: Db, start: nat, end: nat): seq<Broadcasted> {
    if end <= start then [] else
    Stored(db, start, end - 1) + if end - 1 in db.blocks then [Rebuild(db.txs, db.blocks[end - 1])] else []
  }

  function Flat(batches: seq<seq<Broadcasted>>): seq<Broadcasted> {
    if batches == [] then [] else Flat(batches[..|batches| - 1]) + batches[|batches| - 1]
  }

  predicate BatchSizes(batches: seq<seq<Broadcasted>>) {
    forall i :: 0 <= i < |batches| ==> 1 <= |batches[i]| <= SYNC_BLOCKS_BATCH_SIZE
  }

  lemma {:induction false} StoredSplit(db: Db, start: nat, mid: nat, end: nat)
    requires start <= mid <= end
    ensures Stored(db, start, end) == Stored(db, start, mid) + Stored(db, mid, end)
  {
    if mid < end {
      StoredSplit(db, start, mid, end - 1);
    }
  }

  /** Sends one batch. */
  method SendBatch(batches: seq<seq<Broadcasted>>, batch: seq<Broadcasted>) returns (r: seq<seq<Broadcasted>>)
    requires BatchSizes(batches) && 1 <= |batch| <= SYNC_BLOCKS_BATCH_SIZE
    ensures BatchSizes(r) && Flat(r) == Flat(batches) + batch
  {
    r := batches + [batch];
    assert r[..|batches|] == batches;
  }

  /** One round of the sender: the blocks of `from`..`to`, in batches. */
  method SendRange(db: Db, from: nat, to: nat) returns (batches: seq<seq<Broadcasted>>)
    ensures Flat(batches) == Stored(db, from, to + 1) && BatchSizes(batches)
  {
    batches := [];
    var batch: seq<Broadcasted> := [];
    var slot := from;
    while slot <= to
      invariant from <= slot && (slot <= to + 1 || slot == from)
      invariant Flat(batches) + batch == Stored(db, from, slot)
      invariant BatchSizes(batches) && |batch| < SYNC_BLOCKS_BATCH_SIZE
    {
      ghost var before := Flat(batches) + batch;
      if slot in db.blocks {
        var b := ConvertBlockToBroadcasted(db.txs, db.blocks[slot]);
        assert Flat(batches) + (batch + [b]) == before + [b];
        batch := batch + [b];
      }
      if |batch| >= SYNC_BLOCKS_BATCH_SIZE {
        batches := SendBatch(batches, batch);
        batch := [];
      }
      slot := slot + 1;
    }
    if |batch| > 0 {
      batches := SendBatch(batches, batch);
    }
  }

  lemma {:induction false} FlatConcat(a: seq<seq<Broadcasted>>, b: seq<seq<Broadcasted>>)
    ensures Flat(a + b) == Flat(a) + Flat(b)
  {
    if b == [] {
      assert a + b == a;
    } else {
      assert (a + b)[..|a + b| - 1] == a + b[..|b| - 1];
      FlatConcat(a, b[..|b| - 1]);
    }
  }

  /** What a round of the sender finds: the store and its latest finalised slot. */
  datatype Reading = Reading(db: Db, latest: nat)

  function Least(a: nat, b: nat): nat { if a <= b then a else b }

  /** What the rounds send, and the slot the sender has come to: every round refreshes the latest slot. */
  function RoundsSend(rs: seq<Reading>, cur: nat, upto: nat): (seq<Broadcasted>, nat) {
    if rs == [] || cur > rs[0].latest then ([], cur) else
    var u := Least(upto, rs[0].latest);
    var (rest, next) := RoundsSend(rs[1..], u + 1, u + SYNC_BLOCKS_BATCH_SIZE);
    (Stored(rs[0].db, cur, u + 1) + rest, next)
  }

  /** Some round finds that it has sent everything up to its latest slot. */
  predicate Finishes(rs: seq<Reading>, cur: nat, upto: nat) {
    && rs != []
    && (cur > rs[0].latest ||
        var u := Least(upto, rs[0].latest);
        Finishes(rs[1..], u + 1, u + SYNC_BLOCKS_BATCH_SIZE))
  }

  /** What has been sent and what is still to come from where the sender stands. */
  function Ahead(sent: seq<Broadcasted>, rs: seq<Reading>, cur: nat, upto: nat): (seq<Broadcasted>, nat, bool) {
    var (rest, next) := RoundsSend(rs, cur, upto);
    (sent + rest, next, Finishes(rs, cur, upto))
  }

  lemma RoundGoesOn(sent: seq<Broadcasted>, rs: seq<Reading>, cur: nat, upto: nat)
    requires rs != [] && cur <= rs[0].latest
    ensures var u := Least(upto, rs[0].latest);
      Ahead(sent, rs, cur, upto)
      == Ahead(sent + Stored(rs[0].db, cur, u + 1), rs[1..], u + 1, u + SYNC_BLOCKS_BATCH_SIZE)
  {
    var u := Least(upto, rs[0].latest);
    var rest := RoundsSend(rs[1..], u + 1, u + SYNC_BLOCKS_BATCH_SIZE).0;
    assert sent + (Stored(rs[0].db, cur, u + 1) + rest) == (sent + Stored(rs[0].db, cur, u + 1)) + rest;
  }

  /** The sender's loop over what its rounds find; `first` is the latest slot before the loop, and `done`
      says that the loop has ended by itself. */
  method SendBlocks(first: nat, rs: seq<Reading>, from: nat, to: nat)
    returns (batches: seq<seq<Broadcasted>>, next: nat, done: bool)
    ensures BatchSizes(batches)
    ensures if first > 0 && from > first then Flat(batches) == [] && next == from && done
            else (Flat(batches), next) == RoundsSend(rs, from, to) && done == Finishes(rs, from, to)
  {
    batches, next, done := [], from, true;
    if first > 0 && from > first {
      return;
    }
    var upto: nat, i: nat := to, 0;
    done := false;
    assert rs[0..] == rs && [] + RoundsSend(rs, from, to).0 == RoundsSend(rs, from, to).0;
    while i < |rs|
      invariant 0 <= i <= |rs| && BatchSizes(batches) && !done
      invariant Ahead(Flat(batches), rs[i..], next, upto) == Ahead([], rs, from, to)
    {
      if next > rs[i].latest {
        done := true;
        break;
      }
      RoundGoesOn(Flat(batches), rs[i..], next, upto);
      if upto > rs[i].latest {
        upto := rs[i].latest;
      }
      var more := SendRange(rs[i].db, next, upto);
      FlatConcat(batches, more);
      assert rs[i..][1..] == rs[i + 1..];
      batches := batches + more;
      next := upto + 1;
      upto := next + SYNC_BLOCKS_BATCH_SIZE - 1;
      i := i + 1;
    }
    assert Flat(batches) + [] == Flat(batches);
  }

  // ----- The receiver ---------------------------------------------------------------------------

  /** What a receiving node knows: its own slots, identity and clock settings, the black boxes that
      stamp and sign a block, and whether a block's signature and transactions verify. */
  datatype Env = Env(
    codec: Codec,
    leads: nat -> bool,
    self: string,
    ticksPerSlot: int,
    perTick: nat,
    stamp: nat -> nat,
    seal: (BlockCore, seq<Entry>) -> BlockCore,
    trusts: Broadcasted -> bool)

  /** Blocks that wait for their turn, the slot whose turn it is, and the newest slot known of. */
  datatype Queue = Queue(blocks: map<nat, Broadcasted>, next: nat, world: nat)

  /** Last entry hash of the slot before, from this pass if it has taken any block, else from the store. */
  function PrevHash(db: Db, slot: nat, done: seq<Broadcasted>): Hash {
    if slot <= 1 then ZERO_HASH
    else if done != [] then
      (if done[|done| - 1].core.slot == slot - 1 then LastHash(ZERO_HASH, done[|done| - 1].entries) else ZERO_HASH)
    else if slot - 1 in db.blocks then BlockTail(db.blocks[slot - 1])
    else ZERO_HASH
  }

  function TickEntries(k: Codec, seed: Hash, n: nat, perTick: nat): (es: seq<Entry>)
    ensures |es| == n && TickOnly(k, seed, es, perTick)
  {
    seq(n, i requires 0 <= i < n => TickEntry(perTick, Iterate(k.sha, seed, perTick * (i + 1))))
  }

  /** The block a leader makes up for a slot of its own that nobody sent. */
  function EmptyBlock(e: Env, slot: nat, prev: Hash): Broadcasted {
    var n := if e.ticksPerSlot <= 0 || e.perTick == 0 then 0 else e.ticksPerSlot;
    var es := TickEntries(e.codec, prev, n, e.perTick);
    var core := BlockCore(slot, prev, e.self, e.stamp(slot), [], [], false, false);
    var sealed := e.seal(core, es);
    Broadcasted(core.(hash := sealed.hash, signature := sealed.signature), es)
  }

  /** One pass over the queue, `done` being what it has taken so far. */
  function Collect(e: Env, db: Db, q: Queue, done: seq<Broadcasted>): (Queue, seq<Broadcasted>)
    decreases q.world + 1 - q.next
  {
    if q.next > q.world then (q, done)
    else if q.next in q.blocks then
      Collect(e, db, q.(blocks := q.blocks - {q.next}, next := q.next + 1), done + [q.blocks[q.next]])
    else if e.leads(q.next) then
      Collect(e, db, q.(next := q.next + 1), done + [EmptyBlock(e, q.next, PrevHash(db, q.next, done))])
    else (q, done)
  }

  /** The taken blocks are stored and finalised one after the other; failures are skipped. */
  ghost function ProcessAll(e: Env, s: State, blocks: seq<Broadcasted>): State {
    if blocks == [] then s else
    var b := blocks[|blocks| - 1];
    SyncOne(e.codec, ProcessAll(e, s, blocks[..|blocks| - 1]), b, e.trusts(b))
  }

  /** What one arrival does to store and queue, and the blocks it takes. */
  ghost function Arrive(e: Env, s: State, q: Queue, b: Broadcasted): (State, Queue, seq<Broadcasted>) {
    if b.core.slot in s.db.blocks then (s, q, []) else
    var (q', done) := Collect(e, s.db, q.(blocks := q.blocks[b.core.slot := b]), []);
    (ProcessAll(e, s, done), q', done)
  }

  ghost function ArriveAll(e: Env, s: State, q: Queue, bs: seq<Broadcasted>): (State, Queue, seq<Broadcasted>) {
    if bs == [] then (s, q, []) else
    var (s1, q1, taken) := ArriveAll(e, s, q, bs[..|bs| - 1]);
    var (s2, q2, more) := Arrive(e, s1, q1, bs[|bs| - 1]);
    (s2, q2, taken + more)
  }

  class OrderingQueue {
    const env: Env
    const ledger: LedgerObject
    var queue: map<nat, Broadcasted>
    var nextExpectedSlot: nat
    var worldLatestSlot: nat

    function View(): Queue
      reads this
    {
      Queue(queue, nextExpectedSlot, worldLatestSlot)
    }

    ghost predicate Valid()
      reads this, ledger, ledger.store
    {
      ledger.Valid() && ledger.codec == env.codec && LedgerProof.SlotsOk(ledger.store.db)
    }

    constructor (env: Env, ledger: LedgerObject, next: nat, world: nat)
      requires ledger.Valid() && ledger.codec == env.codec && LedgerProof.SlotsOk(ledger.store.db)
      ensures Valid() && View() == Queue(map[], next, world) && this.env == env && this.ledger == ledger
    {
      this.env := env;
      this.ledger := ledger;
      queue, nextExpectedSlot, worldLatestSlot := map[], next, world;
    }

    method GetPrevHashForSlot(slot: nat, done: seq<Broadcasted>) returns (h: Hash)
      ensures h == PrevHash(ledger.store.db, slot, done)
    {
      if slot <= 1 {
        return ZERO_HASH;
      }
      if |done| > 0 {
        var last := done[|done| - 1];
        if last.core.slot == slot - 1 {
          return LastHash(ZERO_HASH, last.entries);
        }
      } else if slot - 1 in ledger.store.db.blocks {
        return BlockTail(ledger.store.db.blocks[slot - 1]);
      }
      h := ZERO_HASH;
    }

    method AssembleEmptyBlock(slot: nat, prev: Hash) returns (b: Broadcasted)
      ensures b == EmptyBlock(env, slot, prev)
    {
      var es := GenerateTickOnlyEntries(env.codec, prev, env.ticksPerSlot, env.perTick);
      assert es == TickEntries(env.codec, prev, |es|, env.perTick);
      var core := BlockCore(slot, prev, env.self, env.stamp(slot), [], [], false, false);
      var sealed := env.seal(core, es);
      b := Broadcasted(core.(hash := sealed.hash, signature := sealed.signature), es);
    }

    /** Takes consecutive slots off the queue, making up those this node leads. */
    method TakeConsecutive() returns (done: seq<Broadcasted>)
      modifies this`queue, this`nextExpectedSlot
      ensures (View(), done) == Collect(env, ledger.store.db, old(View()), [])
    {
      done := [];
      while true
        invariant worldLatestSlot == old(worldLatestSlot)
        invariant Collect(env, ledger.store.db, old(View()), []) == Collect(env, ledger.store.db, View(), done)
        decreases worldLatestSlot + 1 - nextExpectedSlot
      {
        if nextExpectedSlot > worldLatestSlot {
          break;
        } else if nextExpectedSlot in queue {
          ghost var q := View();
          done := done + [queue[nextExpectedSlot]];
          queue := queue - {nextExpectedSlot};
          nextExpectedSlot := nextExpectedSlot + 1;
          assert View() == q.(blocks := q.blocks - {q.next}, next := q.next + 1);
        } else if env.leads(nextExpectedSlot) {
          ghost var q := View();
          var prev := GetPrevHashForSlot(nextExpectedSlot, done);
          var b := AssembleEmptyBlock(nextExpectedSlot, prev);
          done := done + [b];
          nextExpectedSlot := nextExpectedSlot + 1;
          assert View() == q.(next := q.next + 1);
        } else {
          break;
        }
      }
    }

    method ProcessBlock(b: Broadcasted)
      requires Valid()
      modifies ledger.store
      ensures Valid() && ledger.store.View() == SyncOne(env.codec, old(ledger.store.View()), b, env.trusts(b))
    {
      if !env.trusts(b) {
        return;
      }
      var err := VerifyEntries(env.codec, b.core.prevHash, b.entries);
      var blk := b;
      if err.Some? {
        blk := b.(core := b.core.(invalidPoH := true));
      }
      LedgerProof.StepKeepsStore(env.codec, LedgerProof.Run(ledger.store.View(), []), LedgerProof.StoreBlock(blk));
      var ok := ledger.store.AddBlockPending(blk);
      if !ok {
        return;
      }
      var _ := ledger.Finalise(ledger.store.db.blocks[blk.core.slot]);
    }

    method AddBlockToOrderingQueue(b: Broadcasted) returns (done: seq<Broadcasted>)
      requires Valid()
      modifies this`queue, this`nextExpectedSlot, ledger.store
      ensures Valid()
      ensures (ledger.store.View(), View(), done) == Arrive(env, old(ledger.store.View()), old(View()), b)
    {
      if ledger.store.HasCompleteBlock(b.core.slot) {
        return [];
      }
      queue := queue[b.core.slot := b];
      done := TakeConsecutive();
      for i := 0 to |done|
        invariant Valid()
        invariant ledger.store.View() == ProcessAll(env, old(ledger.store.View()), done[..i])
        invariant (View(), done)
          == Collect(env, old(ledger.store.db), old(View()).(blocks := old(queue)[b.core.slot := b]), [])
      {
        assert done[..i + 1][..i] == done[..i];
        ProcessBlock(done[i]);
      }
      assert done[..|done|] == done;
    }

    method ReceiveBatch(batch: seq<Broadcasted>) returns (ghost taken: seq<Broadcasted>)
      requires Valid()
      modifies this`queue, this`nextExpectedSlot, ledger.store
      ensures Valid()
      ensures (ledger.store.View(), View(), taken) == ArriveAll(env, old(ledger.store.View()), old(View()), batch)
    {
      taken := [];
      for i := 0 to |batch|
        invariant Valid()
        invariant (ledger.store.View(), View(), taken)
          == ArriveAll(env, old(ledger.store.View()), old(View()), batch[..i])
      {
        assert batch[..i + 1][..i] == batch[..i];
        var done := AddBlockToOrderingQueue(batch[i]);
        taken := taken + done;
      }
      assert batch[..|batch|] == batch;
    }

    /** The stream handler: every block of every batch in turn. */
    method ReceiveBatches(batches: seq<seq<Broadcasted>>) returns (ghost taken: seq<Broadcasted>)
      requires Valid()
      modifies this`queue, this`nextExpectedSlot, ledger.store
      ensures Valid()
      ensures (ledger.store.View(), View(), taken)
        == ArriveAll(env, old(ledger.store.View()), old(View()), Flat(batches))
    {
      taken := [];
      for i := 0 to |batches|
        invariant Valid()
        invariant (ledger.store.View(), View(), taken)
          == ArriveAll(env, old(ledger.store.View()), old(View()), Flat(batches[..i]))
      {
        assert batches[..i + 1][..i] == batches[..i];
        ArriveAllConcat(env, old(ledger.store.View()), old(View()), Flat(batches[..i]), batches[i]);
        ghost var more := ReceiveBatch(batches[i]);
        taken := taken + more;
      }
      assert batches[..|batches|] == batches;
    }
  }

  lemma {:induction false} ArriveAllConcat(e: Env, s: State, q: Queue, a: seq<Broadcasted>, b: seq<Broadcasted>)
    ensures var (s1, q1, first) := ArriveAll(e, s, q, a);
      var (s2, q2, more) := ArriveAll(e, s1, q1, b);
      ArriveAll(e, s, q, a + b) == (s2, q2, first + more)
  {
    if b == [] {
      assert a + b == a;
      assert ArriveAll(e, s, q, a).2 + [] == ArriveAll(e, s, q, a).2;
    } else {
      assert (a + b)[..|a + b| - 1] == a + b[..|b| - 1];
      ArriveAllConcat(e, s, q, a, b[..|b| - 1]);
      var (s1, q1, first) := ArriveAll(e, s, q, a);
      var (s2, q2, more) := ArriveAll(e, s1, q1, b[..|b| - 1]);
      var last := Arrive(e, s2, q2, b[|b| - 1]).2;
      assert first + (more + last) == (first + more) + last;
    }
  }
}
