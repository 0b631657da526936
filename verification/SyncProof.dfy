/** What a pass over the queue takes, why arrival order does not matter, and what the two ends of block
    sync agree on. */
module SyncProof {
  import opened Base
  import opened Accounts
  import opened BlockStore
  import opened Ledger
  import opened Node
  import opened Sync
  import opened Verify
  import LedgerProof
  import NodeProof
  import Poh

  // ----- One pass -------------------------------------------------------------------------------

  /** Blocks wait under their own slot. */
  ghost predicate Filed(m: map<nat, Broadcasted>) {
    forall s :: s in m ==> m[s].core.slot == s
  }

  /** The block that slot `q.next + i - |done|` gets: the waiting one, or one made up by its leader. */
  ghost predicate TakenAt(e: Env, db: Db, q: Queue, done: seq<Broadcasted>, all: seq<Broadcasted>, i: nat)
    requires |done| <= i < |all|
  {
    var slot := q.next + (i - |done|);
    if slot in q.blocks then all[i] == q.blocks[slot]
    else e.leads(slot) && all[i] == EmptyBlock(e, slot, PrevHash(db, slot, all[..i]))
  }

  /** The pass takes exactly the slots from the old to the new expected slot, in order, leaves the rest
      of the queue alone, and stops only at the newest known slot or at one that is neither waiting nor
      led. */
  ghost predicate PassOk(e: Env, db: Db, q: Queue, done: seq<Broadcasted>, q': Queue, all: seq<Broadcasted>) {
    && q.next <= q'.next && q'.world == q.world
    && |all| == |done| + (q'.next - q.next) && all[..|done|] == done
    && (forall i :: |done| <= i < |all| ==> TakenAt(e, db, q, done, all, i))
    && (forall s :: s in q'.blocks <==> s in q.blocks && !(q.next <= s < q'.next))
    && (forall s :: s in q'.blocks ==> q'.blocks[s] == q.blocks[s])
    && (q'.next > q.next ==> q'.next <= q.world + 1)
    && (q'.next <= q.world ==> q'.next !in q.blocks && !e.leads(q'.next))
  }

  lemma PassStep(e: Env, db: Db, q: Queue, done: seq<Broadcasted>, b: Broadcasted, mid: Queue, q': Queue,
      all: seq<Broadcasted>)
    requires q.next <= q.world
    requires if q.next in q.blocks then b == q.blocks[q.next]
             else e.leads(q.next) && b == EmptyBlock(e, q.next, PrevHash(db, q.next, done))
    requires mid == q.(blocks := q.blocks - {q.next}, next := q.next + 1)
    requires PassOk(e, db, mid, done + [b], q', all)
    ensures PassOk(e, db, q, done, q', all)
  {
    assert all[|done|] == all[..|done| + 1][|done|] == b;
    assert all[..|done|] == all[..|done| + 1][..|done|] == done;
    forall i | |done| <= i < |all|
      ensures TakenAt(e, db, q, done, all, i)
    {
      if i > |done| {
        assert TakenAt(e, db, mid, done + [b], all, i);
      }
    }
  }

  lemma {:induction false} CollectPasses(e: Env, db: Db, q: Queue, done: seq<Broadcasted>)
    ensures PassOk(e, db, q, done, Collect(e, db, q, done).0, Collect(e, db, q, done).1)
    decreases q.world + 1 - q.next
  {
    if q.next <= q.world && (q.next in q.blocks || e.leads(q.next)) {
      var mid := q.(blocks := q.blocks - {q.next}, next := q.next + 1);
      var b := if q.next in q.blocks then q.blocks[q.next] else EmptyBlock(e, q.next, PrevHash(db, q.next, done));
      assert q.next !in q.blocks ==> mid.blocks == q.blocks;
      CollectPasses(e, db, mid, done + [b]);
      PassStep(e, db, q, done, b, mid, Collect(e, db, q, done).0, Collect(e, db, q, done).1);
    }
  }

  /** A pass from an ordered queue: the blocks it takes carry consecutive slots. */
  lemma TakenSlots(e: Env, db: Db, q: Queue, i: nat)
    requires Filed(q.blocks) && i < |Collect(e, db, q, []).1|
    ensures Collect(e, db, q, []).1[i].core.slot == q.next + i
  {
    CollectPasses(e, db, q, []);
    assert TakenAt(e, db, q, [], Collect(e, db, q, []).1, i);
  }

  /** The hash the block of a slot has to start from: the end of the slot before, in this pass or in
      the store, and zero for slot 1. */
  ghost function Before(db: Db, q: Queue, all: seq<Broadcasted>, i: nat): Hash
    requires i < |all|
  {
    if q.next + i <= 1 then ZERO_HASH
    else if i > 0 then LastHash(ZERO_HASH, all[i - 1].entries)
    else if q.next - 1 in db.blocks then BlockTail(db.blocks[q.next - 1])
    else ZERO_HASH
  }

  /** Every made-up block of a pass starts from the end of the slot before it, and the checker accepts
      it exactly when the clock settings are within the checker's limits or it has no entries. */
  lemma MadeUpBlocksLink(e: Env, db: Db, q: Queue, i: nat)
    requires Filed(q.blocks) && i < |Collect(e, db, q, []).1| && q.next + i !in q.blocks
    ensures var all := Collect(e, db, q, []).1;
      && all[i].core.prevHash == Before(db, q, all, i)
      && (Accepts(e.codec, all[i].core.prevHash, all[i].entries) <==>
            e.ticksPerSlot <= 0 || e.perTick == 0
              || (e.ticksPerSlot <= MAX_ENTRIES_PER_SLOT && e.perTick <= MAX_NUM_HASHES))
  {
    var all := Collect(e, db, q, []).1;
    CollectPasses(e, db, q, []);
    assert TakenAt(e, db, q, [], all, i);
    assert all[..i] != [] <==> i > 0;
    if i > 0 {
      TakenSlots(e, db, q, i - 1);
      assert all[..i][i - 1] == all[i - 1];
    }
    TickOnlyAccepted(e.codec, all[i].core.prevHash, all[i].entries, e.perTick);
  }

  /** Hashes in `slots` slots without transactions. */
  function SlotHashes(e: Env, slots: nat): nat
    requires e.ticksPerSlot > 0
  {
    var one: nat := e.ticksPerSlot * e.perTick;
    slots * one
  }

  lemma EmptyBlockEnds(e: Env, slot: nat, prev: Hash)
    requires e.ticksPerSlot > 0 && e.perTick > 0
    ensures LastHash(prev, EmptyBlock(e, slot, prev).entries) == Poh.Iterate(e.codec.sha, prev, SlotHashes(e, 1))
  {
    TickOnlyEndsAtFastForward(e.codec, prev, EmptyBlock(e, slot, prev).entries, e.perTick);
  }

  lemma {:induction false} IteratedChain(sha: Bytes -> Hash, hs: seq<Hash>, one: nat, n: nat)
    requires n < |hs| && forall i :: 0 <= i < |hs| - 1 ==> hs[i + 1] == Poh.Iterate(sha, hs[i], one)
    ensures hs[n] == Poh.Iterate(sha, hs[0], n * one)
  {
    if n > 0 {
      IteratedChain(sha, hs, one, n - 1);
      Poh.FastForwardComposes(sha, hs[0], one, 0, n - 1, n);
    }
  }

  /** A run of made-up blocks, `hs` being the hashes between them, ends exactly where a leader that
      fast-forwards over the same slots starts, so the block it then produces links to them. */
  lemma EmptyRunIsFastForward(e: Env, slot: nat, hs: seq<Hash>)
    requires e.ticksPerSlot > 0 && e.perTick > 0 && hs != []
    requires forall i :: 0 <= i < |hs| - 1 ==> hs[i + 1] == LastHash(hs[i], EmptyBlock(e, slot + i, hs[i]).entries)
    ensures hs[|hs| - 1] == Poh.Iterate(e.codec.sha, hs[0], SlotHashes(e, |hs| - 1))
  {
    forall i | 0 <= i < |hs| - 1
      ensures hs[i + 1] == Poh.Iterate(e.codec.sha, hs[i], SlotHashes(e, 1))
    {
      EmptyBlockEnds(e, slot + i, hs[i]);
    }
    IteratedChain(e.codec.sha, hs, SlotHashes(e, 1), |hs| - 1);
  }

  // ----- Arrival order --------------------------------------------------------------------------

  /** The first slot from `next` on that has no block, or the one after the newest known slot. */
  function StopAt(m: map<nat, Broadcasted>, next: nat, world: nat): (end: nat)
    ensures next <= end && (forall s :: next <= s < end ==> s in m) && (end > next ==> end <= world + 1)
    ensures end <= world ==> end !in m
    decreases world + 1 - next
  {
    if next > world || next !in m then next else StopAt(m, next + 1, world)
  }

  function Slice(m: map<nat, Broadcasted>, start: nat, end: nat): (r: seq<Broadcasted>)
    requires start <= end && forall s :: start <= s < end ==> s in m
  {
    seq(end - start, i requires 0 <= i < end - start => m[start + i])
  }

  ghost predicate Unled(e: Env, start: nat, end: nat, world: nat) {
    forall s :: start <= s <= end && s <= world ==> !e.leads(s)
  }

  /** Taking the first of a run of slots. */
  lemma SliceHead(m: map<nat, Broadcasted>, next: nat, end: nat, done: seq<Broadcasted>)
    requires next < end && forall s :: next <= s < end ==> s in m
    ensures (done + [m[next]]) + Slice(m - {next}, next + 1, end) == done + Slice(m, next, end)
    ensures Rest(m - {next}, next + 1, end) == Rest(m, next, end)
  {
    assert Slice(m, next, end) == [m[next]] + Slice(m - {next}, next + 1, end);
  }

  /** Where this node leads no slot, a pass takes the contiguous run of waiting blocks. */
  lemma {:induction false} UnledPass(e: Env, db: Db, q: Queue, done: seq<Broadcasted>)
    requires Unled(e, q.next, StopAt(q.blocks, q.next, q.world), q.world)
    ensures var end := StopAt(q.blocks, q.next, q.world);
      Collect(e, db, q, done) == (Queue(Rest(q.blocks, q.next, end), end, q.world), done + Slice(q.blocks, q.next, end))
    decreases q.world + 1 - q.next
  {
    var end := StopAt(q.blocks, q.next, q.world);
    if q.next <= q.world && q.next in q.blocks {
      var mid := q.(blocks := q.blocks - {q.next}, next := q.next + 1);
      StopAtAgrees(q.blocks, mid.blocks, q.next + 1, q.world);
      UnledPass(e, db, mid, done + [q.blocks[q.next]]);
      SliceHead(q.blocks, q.next, end, done);
    } else {
      assert end == q.next && done + Slice(q.blocks, q.next, end) == done;
      assert Rest(q.blocks, q.next, end) == q.blocks;
    }
  }

  /** What is left of the waiting blocks once a range of slots has been taken. */
  function Rest(m: map<nat, Broadcasted>, start: nat, end: nat): map<nat, Broadcasted> {
    map s | s in m && !(start <= s < end) :: m[s]
  }

  function Put(m: map<nat, Broadcasted>, bs: seq<Broadcasted>): map<nat, Broadcasted> {
    if bs == [] then m else Put(m, bs[..|bs| - 1])[bs[|bs| - 1].core.slot := bs[|bs| - 1]]
  }

  /** One block per slot, none of them waiting or stored already. */
  ghost predicate NewBlocks(s: State, q: Queue, bs: seq<Broadcasted>) {
    && DistinctSlots(bs)
    && (forall i :: 0 <= i < |bs| ==> bs[i].core.slot !in s.db.blocks && bs[i].core.slot !in q.blocks)
  }

  ghost predicate DistinctSlots(bs: seq<Broadcasted>) {
    forall i, j :: 0 <= i < j < |bs| ==> bs[i].core.slot != bs[j].core.slot
  }

  ghost predicate HasSlot(bs: seq<Broadcasted>, s: nat) {
    exists i :: 0 <= i < |bs| && bs[i].core.slot == s
  }

  lemma {:induction false} PutKeys(m: map<nat, Broadcasted>, bs: seq<Broadcasted>, s: nat)
    ensures s in Put(m, bs) <==> s in m || HasSlot(bs, s)
    ensures s in m && !HasSlot(bs, s) ==> Put(m, bs)[s] == m[s]
  {
    if bs != [] {
      var front, last := bs[..|bs| - 1], bs[|bs| - 1];
      PutKeys(m, front, s);
      assert HasSlot(bs, s) <==> HasSlot(front, s) || last.core.slot == s by {
        assert bs == front + [last];
        assert bs[|bs| - 1].core.slot == last.core.slot;
        if HasSlot(front, s) {
          var i :| 0 <= i < |front| && front[i].core.slot == s;
          assert bs[i].core.slot == s;
        }
      }
    }
  }

  lemma {:induction false} PutValue(m: map<nat, Broadcasted>, bs: seq<Broadcasted>, i: nat)
    requires DistinctSlots(bs) && i < |bs|
    ensures bs[i].core.slot in Put(m, bs) && Put(m, bs)[bs[i].core.slot] == bs[i]
  {
    if i < |bs| - 1 {
      PutValue(m, bs[..|bs| - 1], i);
    }
  }

  lemma {:induction false} StopAtGrows(m: map<nat, Broadcasted>, n: map<nat, Broadcasted>, next: nat, world: nat)
    requires m.Keys <= n.Keys
    ensures StopAt(m, next, world) <= StopAt(n, next, world)
    ensures StopAt(n, next, world) == StopAt(n, StopAt(m, next, world), world)
    decreases world + 1 - next
  {
    if next <= world && next in m {
      StopAtGrows(m, n, next + 1, world);
    }
  }

  lemma {:induction false} StopAtAgrees(m: map<nat, Broadcasted>, n: map<nat, Broadcasted>, next: nat, world: nat)
    requires forall s :: s >= next ==> (s in m <==> s in n)
    ensures StopAt(m, next, world) == StopAt(n, next, world)
    decreases world + 1 - next
  {
    if next <= world && next in m {
      StopAtAgrees(m, n, next + 1, world);
    }
  }

  lemma {:induction false} ProcessAllConcat(e: Env, s: State, a: seq<Broadcasted>, b: seq<Broadcasted>)
    ensures ProcessAll(e, s, a + b) == ProcessAll(e, ProcessAll(e, s, a), b)
  {
    if b == [] {
      assert a + b == a;
    } else {
      assert (a + b)[..|a + b| - 1] == a + b[..|b| - 1];
      ProcessAllConcat(e, s, a, b[..|b| - 1]);
    }
  }

  lemma SyncOneStores(k: Codec, s: State, b: Broadcasted, checked: bool)
    ensures SyncOne(k, s, b, checked).db.blocks.Keys <= s.db.blocks.Keys + {b.core.slot}
  {
    var s1 := AddPending(k, s, Judged(k, b)).0;
    assert s1.db.blocks.Keys <= s.db.blocks.Keys + {b.core.slot};
    if b.core.slot !in s.db.blocks {
      assert s1.db.blocks[b.core.slot].core.slot == b.core.slot;
      assert FinalizeBlock(k, s1, s1.db.blocks[b.core.slot]).0.db.blocks.Keys <= s1.db.blocks.Keys + {b.core.slot};
    }
  }

  /** Processing stores no slots but those of the processed blocks. */
  lemma {:induction false} ProcessAllStores(e: Env, s: State, bs: seq<Broadcasted>)
    ensures forall x :: x in ProcessAll(e, s, bs).db.blocks ==> x in s.db.blocks || HasSlot(bs, x)
  {
    if bs != [] {
      var front, b := bs[..|bs| - 1], bs[|bs| - 1];
      ProcessAllStores(e, s, front);
      SyncOneStores(e.codec, ProcessAll(e, s, front), b, e.trusts(b));
      forall x | HasSlot(front, x) || x == b.core.slot
        ensures HasSlot(bs, x)
      {
        if HasSlot(front, x) {
          var i :| 0 <= i < |front| && front[i].core.slot == x;
          assert bs[i].core.slot == x;
        } else {
          assert bs[|bs| - 1].core.slot == x;
        }
      }
    }
  }

  /** What any list of arrivals comes to: the contiguous run from the expected slot over everything
      that has arrived is taken, in slot order, and the rest is left waiting. */
  ghost predicate ArrivedOk(e: Env, s: State, q: Queue, bs: seq<Broadcasted>) {
    var m := Put(q.blocks, bs);
    var end := StopAt(m, q.next, q.world);
    ArriveAll(e, s, q, bs) ==
      (ProcessAll(e, s, Slice(m, q.next, end)), Queue(Rest(m, q.next, end), end, q.world), Slice(m, q.next, end))
  }

  /** The queue stands where a pass has left it. */
  predicate Settled(q: Queue) { q.next <= q.world ==> q.next !in q.blocks }

  lemma SameAbove(m: map<nat, Broadcasted>, n: map<nat, Broadcasted>, b: Broadcasted, next: nat, mid: nat, end: nat)
    requires next <= mid <= end && b.core.slot !in m && forall x :: next <= x < mid ==> x in m
    requires n == m[b.core.slot := b] && forall x :: mid <= x < end ==> x in n
    ensures var rest := Rest(m, next, mid)[b.core.slot := b];
      && (forall x :: mid <= x < end ==> x in rest)
      && Slice(rest, mid, end) == Slice(n, mid, end)
      && Rest(rest, mid, end) == Rest(n, next, end)
  {
    var rest := Rest(m, next, mid)[b.core.slot := b];
    forall x | mid <= x < end
      ensures x in rest
    {
      assert x in n;
    }
  }

  /** The pass after one more arrival on top of what has arrived. */
  lemma NextPass(e: Env, db: Db, m: map<nat, Broadcasted>, b: Broadcasted, next: nat, world: nat)
    requires b.core.slot !in m
    requires Unled(e, next, StopAt(m[b.core.slot := b], next, world), world)
    ensures var n := m[b.core.slot := b];
      var mid, end := StopAt(m, next, world), StopAt(n, next, world);
      && mid <= end
      && Collect(e, db, Queue(Rest(m, next, mid)[b.core.slot := b], mid, world), [])
         == (Queue(Rest(n, next, end), end, world), Slice(n, mid, end))
  {
    var n := m[b.core.slot := b];
    var mid, end := StopAt(m, next, world), StopAt(n, next, world);
    StopAtGrows(m, n, next, world);
    var rest := Rest(m, next, mid)[b.core.slot := b];
    StopAtAgrees(rest, n, mid, world);
    SameAbove(m, n, b, next, mid, end);
    UnledPass(e, db, Queue(rest, mid, world), []);
    assert [] + Slice(rest, mid, end) == Slice(rest, mid, end);
  }

  lemma SlicesJoin(m: map<nat, Broadcasted>, b: Broadcasted, next: nat, world: nat)
    requires b.core.slot !in m
    ensures var n := m[b.core.slot := b];
      var mid, end := StopAt(m, next, world), StopAt(n, next, world);
      mid <= end && Slice(m, next, mid) + Slice(n, mid, end) == Slice(n, next, end)
  {
    StopAtGrows(m, m[b.core.slot := b], next, world);
  }

  lemma NotStored(e: Env, s: State, m: map<nat, Broadcasted>, b: Broadcasted, start: nat, end: nat)
    requires Filed(m) && b.core.slot !in m && b.core.slot !in s.db.blocks
    requires start <= end && forall x :: start <= x < end ==> x in m
    ensures b.core.slot !in ProcessAll(e, s, Slice(m, start, end)).db.blocks
  {
    ProcessAllStores(e, s, Slice(m, start, end));
  }

  /** One more arrival on top of what has arrived. */
  lemma ArrivalStep(e: Env, s: State, m: map<nat, Broadcasted>, b: Broadcasted, next: nat, world: nat)
    requires Filed(m) && b.core.slot !in m && b.core.slot !in s.db.blocks
    requires Unled(e, next, StopAt(m[b.core.slot := b], next, world), world)
    ensures var n := m[b.core.slot := b];
      var mid, end := StopAt(m, next, world), StopAt(n, next, world);
      && mid <= end
      && Arrive(e, ProcessAll(e, s, Slice(m, next, mid)), Queue(Rest(m, next, mid), mid, world), b)
         == (ProcessAll(e, s, Slice(n, next, end)), Queue(Rest(n, next, end), end, world), Slice(n, mid, end))
      && Slice(m, next, mid) + Slice(n, mid, end) == Slice(n, next, end)
  {
    var n := m[b.core.slot := b];
    var mid, end := StopAt(m, next, world), StopAt(n, next, world);
    var s1 := ProcessAll(e, s, Slice(m, next, mid));
    NotStored(e, s, m, b, next, mid);
    NextPass(e, s1.db, m, b, next, world);
    SlicesJoin(m, b, next, world);
    ProcessAllConcat(e, s, Slice(m, next, mid), Slice(n, mid, end));
  }

  lemma {:induction false} PutFiled(m: map<nat, Broadcasted>, bs: seq<Broadcasted>)
    requires Filed(m)
    ensures Filed(Put(m, bs)) && m.Keys <= Put(m, bs).Keys
  {
    if bs != [] {
      PutFiled(m, bs[..|bs| - 1]);
    }
  }

  lemma {:induction false} ArrivalsComeTo(e: Env, s: State, q: Queue, bs: seq<Broadcasted>)
    requires Filed(q.blocks) && Settled(q) && NewBlocks(s, q, bs)
    requires Unled(e, q.next, StopAt(Put(q.blocks, bs), q.next, q.world), q.world)
    ensures ArrivedOk(e, s, q, bs)
  {
    if bs == [] {
      assert Rest(q.blocks, q.next, q.next) == q.blocks;
    } else {
      var front, b := bs[..|bs| - 1], bs[|bs| - 1];
      var m := Put(q.blocks, front);
      StopAtGrows(m, Put(q.blocks, bs), q.next, q.world);
      ArrivalsComeTo(e, s, q, front);
      LastIsNew(s, q, bs);
      PutFiled(q.blocks, front);
      ArrivalStep(e, s, m, b, q.next, q.world);
    }
  }

  lemma LastIsNew(s: State, q: Queue, bs: seq<Broadcasted>)
    requires NewBlocks(s, q, bs) && bs != []
    ensures bs[|bs| - 1].core.slot !in Put(q.blocks, bs[..|bs| - 1])
  {
    PutKeys(q.blocks, bs[..|bs| - 1], bs[|bs| - 1].core.slot);
  }

  /** Two lists with the same blocks come to the same map. */
  lemma PutSame(m: map<nat, Broadcasted>, bs: seq<Broadcasted>, cs: seq<Broadcasted>)
    requires DistinctSlots(bs) && DistinctSlots(cs) && forall b :: b in bs <==> b in cs
    ensures Put(m, bs) == Put(m, cs)
  {
    forall s
      ensures (s in Put(m, bs) <==> s in Put(m, cs)) && (s in Put(m, bs) ==> Put(m, bs)[s] == Put(m, cs)[s])
    {
      PutOneWay(m, bs, cs, s);
      PutOneWay(m, cs, bs, s);
    }
  }

  lemma PutOneWay(m: map<nat, Broadcasted>, bs: seq<Broadcasted>, cs: seq<Broadcasted>, s: nat)
    requires DistinctSlots(bs) && DistinctSlots(cs) && forall b :: b in bs <==> b in cs
    ensures s in Put(m, bs) ==> s in Put(m, cs) && Put(m, cs)[s] == Put(m, bs)[s]
  {
    PutKeys(m, bs, s);
    PutKeys(m, cs, s);
    if HasSlot(bs, s) {
      var i :| 0 <= i < |bs| && bs[i].core.slot == s;
      assert bs[i] in cs;
      var j :| 0 <= j < |cs| && cs[j] == bs[i];
      PutValue(m, bs, i);
      PutValue(m, cs, j);
    } else if HasSlot(cs, s) {
      var j :| 0 <= j < |cs| && cs[j].core.slot == s;
      assert cs[j] in bs;
    }
  }

  /** For one new block per slot, and no slot led by this node up to where the pass stops, every order
      of arrival takes the same blocks in the same order, leaves the same blocks waiting, and ends in
      the same store. */
  lemma OrderIrrelevant(e: Env, s: State, q: Queue, bs: seq<Broadcasted>, cs: seq<Broadcasted>)
    requires Filed(q.blocks) && Settled(q) && NewBlocks(s, q, bs) && NewBlocks(s, q, cs)
    requires forall b :: b in bs <==> b in cs
    requires Unled(e, q.next, StopAt(Put(q.blocks, bs), q.next, q.world), q.world)
    ensures ArriveAll(e, s, q, bs) == ArriveAll(e, s, q, cs)
  {
    PutSame(q.blocks, bs, cs);
    ArrivalsComeTo(e, s, q, bs);
    ArrivalsComeTo(e, s, q, cs);
  }

  /** Where arrivals stand: what has been taken runs from the first slot to the expected one, beyond that
      everything that arrived waits, and only taken slots are stored. */
  ghost predicate Standing(s0: State, q0: Queue, bs: seq<Broadcasted>, s: State, q: Queue, taken: seq<Broadcasted>) {
    && q.world == q0.world && q.next >= q0.next && |taken| == q.next - q0.next && Filed(q.blocks)
    && (forall x :: x >= q.next ==> (x in q.blocks <==> x in Put(q0.blocks, bs)))
    && (forall x :: x in s.db.blocks ==> x in s0.db.blocks || q0.next <= x < q.next)
  }

  /** A pass leaves no slot behind that is waiting or led. */
  predicate Stopped(e: Env, q: Queue) { q.next <= q.world ==> q.next !in q.blocks && !e.leads(q.next) }

  lemma TakenStored(e: Env, s: State, q: Queue, x: nat)
    requires Filed(q.blocks) && x in ProcessAll(e, s, Collect(e, s.db, q, []).1).db.blocks
    ensures x in s.db.blocks || q.next <= x < Collect(e, s.db, q, []).0.next
  {
    var all := Collect(e, s.db, q, []).1;
    ProcessAllStores(e, s, all);
    CollectPasses(e, s.db, q, []);
    if x !in s.db.blocks {
      var i :| 0 <= i < |all| && all[i].core.slot == x;
      TakenSlots(e, s.db, q, i);
    }
  }

  /** One more new arrival: it is put aside only if its slot has been taken already. */
  lemma StandingStep(e: Env, s0: State, q0: Queue, bs: seq<Broadcasted>, b: Broadcasted, s: State, q: Queue,
      taken: seq<Broadcasted>)
    requires Standing(s0, q0, bs, s, q, taken) && b.core.slot !in s0.db.blocks
    ensures var (s', q', more) := Arrive(e, s, q, b);
      && Standing(s0, q0, bs + [b], s', q', taken + more)
      && (Stopped(e, q') || (b.core.slot in s.db.blocks && q' == q))
  {
    var (s', q', more) := Arrive(e, s, q, b);
    assert (bs + [b])[..|bs|] == bs;
    assert Put(q0.blocks, bs + [b]) == Put(q0.blocks, bs)[b.core.slot := b];
    if b.core.slot !in s.db.blocks {
      var queued := q.(blocks := q.blocks[b.core.slot := b]);
      CollectPasses(e, s.db, queued, []);
      forall x | x in s'.db.blocks
        ensures x in s0.db.blocks || q0.next <= x < q'.next
      {
        TakenStored(e, s, queued, x);
      }
    }
  }

  /** The history of a list of new arrivals, one per slot. */
  lemma {:induction false} ArrivalsStand(e: Env, s: State, q: Queue, bs: seq<Broadcasted>)
    requires Filed(q.blocks) && NewBlocks(s, q, bs)
    ensures var r := ArriveAll(e, s, q, bs); Standing(s, q, bs, r.0, r.1, r.2) && (bs != [] ==> Stopped(e, r.1))
  {
    if bs != [] {
      var front, b := bs[..|bs| - 1], bs[|bs| - 1];
      ArrivalsStand(e, s, q, front);
      var r := ArriveAll(e, s, q, front);
      StandingStep(e, s, q, front, b, r.0, r.1, r.2);
      assert front + [b] == bs;
    }
  }

  /** Slot `x` is in reach: it is known of, and every slot before it is waiting, arrives or is led. */
  ghost predicate InReach(e: Env, q: Queue, bs: seq<Broadcasted>, x: nat) {
    q.next <= x <= q.world && forall y :: q.next <= y < x ==> y in Put(q.blocks, bs) || e.leads(y)
  }

  /** The block taken for slot `x`, once it has been. */
  function TakenFor(q: Queue, taken: seq<Broadcasted>, x: nat): Option<Broadcasted> {
    if q.next <= x < q.next + |taken| then Some(taken[x - q.next]) else None
  }

  /** A block that waits or has been taken for its slot stays that way. */
  predicate Secured(q0: Queue, q: Queue, taken: seq<Broadcasted>, b: Broadcasted) {
    if q.next <= b.core.slot then b.core.slot in q.blocks && q.blocks[b.core.slot] == b
    else TakenFor(q0, taken, b.core.slot) == Some(b)
  }

  lemma TakenForMore(q: Queue, taken: seq<Broadcasted>, more: seq<Broadcasted>, x: nat)
    ensures TakenFor(q, taken, x).Some? ==> TakenFor(q, taken + more, x) == TakenFor(q, taken, x)
  {
  }

  lemma SecuredStep(e: Env, s: State, q0: Queue, q: Queue, taken: seq<Broadcasted>, b: Broadcasted, c: Broadcasted)
    requires Filed(q.blocks) && q.next >= q0.next && |taken| == q.next - q0.next && b.core.slot >= q0.next
    requires Secured(q0, q, taken, b) && c.core.slot != b.core.slot
    ensures var (_, q', more) := Arrive(e, s, q, c); Secured(q0, q', taken + more, b)
  {
    var (_, q', more) := Arrive(e, s, q, c);
    var x := b.core.slot;
    TakenForMore(q0, taken, more, x);
    if c.core.slot in s.db.blocks {
      assert taken + more == taken;
    } else {
      var queued := q.(blocks := q.blocks[c.core.slot := c]);
      CollectPasses(e, s.db, queued, []);
      if q.next <= x < q'.next {
        assert TakenAt(e, s.db, queued, [], more, x - q.next);
      }
    }
  }

  /** The first to arrive is the one taken for its slot. */
  lemma {:induction false} FirstIsSecured(e: Env, s: State, q: Queue, b: Broadcasted, rest: seq<Broadcasted>)
    requires Filed(q.blocks) && NewBlocks(s, q, [b] + rest) && b.core.slot >= q.next
    ensures var r := ArriveAll(e, s, q, [b] + rest); Secured(q, r.1, r.2, b)
  {
    var all := [b] + rest;
    if rest == [] {
      assert all == [b] && all[0] == b;
      ArriveOne(e, s, q, b);
      FirstSecured(e, s, q, b);
    } else {
      var front, c := rest[..|rest| - 1], rest[|rest| - 1];
      assert all[..|all| - 1] == [b] + front && all[|all| - 1] == c;
      FirstIsSecured(e, s, q, b, front);
      ArrivalsStand(e, s, q, [b] + front);
      var r := ArriveAll(e, s, q, [b] + front);
      assert all[0] == b && c.core.slot != b.core.slot;
      SecuredStep(e, r.0, q, r.1, r.2, b, c);
    }
  }

  lemma ArriveOne(e: Env, s: State, q: Queue, b: Broadcasted)
    ensures ArriveAll(e, s, q, [b]) == Arrive(e, s, q, b)
  {
    var one := [b];
    assert one[..0] == [] && one[0] == b;
    assert [] + Arrive(e, s, q, b).2 == Arrive(e, s, q, b).2;
  }

  lemma FirstSecured(e: Env, s: State, q: Queue, b: Broadcasted)
    requires Filed(q.blocks) && b.core.slot >= q.next && b.core.slot !in s.db.blocks
    ensures Secured(q, Arrive(e, s, q, b).1, Arrive(e, s, q, b).2, b)
  {
    var queued := q.(blocks := q.blocks[b.core.slot := b]);
    var (q', more) := Collect(e, s.db, queued, []);
    CollectPasses(e, s.db, queued, []);
    if b.core.slot < q'.next {
      assert TakenAt(e, s.db, queued, [], more, b.core.slot - q.next);
    }
  }

  /** A led slot whose block has not arrived is empty-handed until it is reached, and then made up. */
  ghost predicate MadeUp(e: Env, q0: Queue, q: Queue, taken: seq<Broadcasted>, x: nat) {
    if q.next <= x then x !in q.blocks
    else TakenFor(q0, taken, x).Some? && exists prev :: TakenFor(q0, taken, x).value == EmptyBlock(e, x, prev)
  }

  lemma MadeUpStep(e: Env, s: State, q0: Queue, q: Queue, taken: seq<Broadcasted>, x: nat, c: Broadcasted)
    requires Filed(q.blocks) && q.next >= q0.next && |taken| == q.next - q0.next && x >= q0.next
    requires MadeUp(e, q0, q, taken, x) && c.core.slot != x
    ensures var (_, q', more) := Arrive(e, s, q, c); MadeUp(e, q0, q', taken + more, x)
  {
    var (_, q', more) := Arrive(e, s, q, c);
    TakenForMore(q0, taken, more, x);
    if c.core.slot in s.db.blocks {
      assert taken + more == taken;
    } else {
      var queued := q.(blocks := q.blocks[c.core.slot := c]);
      CollectPasses(e, s.db, queued, []);
      if q.next <= x < q'.next {
        assert TakenAt(e, s.db, queued, [], more, x - q.next);
        assert TakenFor(q0, taken + more, x).value == EmptyBlock(e, x, PrevHash(s.db, x, more[..x - q.next]));
      }
    }
  }

  lemma {:induction false} AbsentIsMadeUp(e: Env, s: State, q: Queue, rest: seq<Broadcasted>, x: nat)
    requires Filed(q.blocks) && NewBlocks(s, q, rest) && x >= q.next && x !in q.blocks && !HasSlot(rest, x)
    ensures var r := ArriveAll(e, s, q, rest); MadeUp(e, q, r.1, r.2, x)
  {
    if rest != [] {
      var front, c := rest[..|rest| - 1], rest[|rest| - 1];
      assert !HasSlot(front, x) by {
        assert forall i :: 0 <= i < |front| ==> front[i] == rest[i];
      }
      AbsentIsMadeUp(e, s, q, front, x);
      ArrivalsStand(e, s, q, front);
      var r := ArriveAll(e, s, q, front);
      MadeUpStep(e, r.0, q, r.1, r.2, x, c);
    }
  }

  /** After at least one arrival, a led slot in reach has been taken. */
  lemma ReachedAfter(e: Env, s: State, q: Queue, rest: seq<Broadcasted>, x: nat)
    requires Filed(q.blocks) && NewBlocks(s, q, rest) && rest != [] && InReach(e, q, rest, x) && e.leads(x)
    ensures ArriveAll(e, s, q, rest).1.next > x
  {
    ArrivalsStand(e, s, q, rest);
  }

  /** With a led slot order does matter. Take any new arrivals, one of them for a slot that this node
      leads and that is in reach without it. If it comes first it is taken for its slot; if it comes
      last a made-up block is. So the two orders agree on that slot exactly when the arriving block is
      the made-up one. */
  lemma LedSlotOrderMatters(e: Env, s: State, q: Queue, b: Broadcasted, rest: seq<Broadcasted>)
    requires Filed(q.blocks) && rest != [] && b.core.slot !in q.blocks && e.leads(b.core.slot)
    requires NewBlocks(s, q, [b] + rest) && NewBlocks(s, q, rest + [b]) && InReach(e, q, rest, b.core.slot)
    ensures var x := b.core.slot;
      var first, last := TakenFor(q, ArriveAll(e, s, q, [b] + rest).2, x),
        TakenFor(q, ArriveAll(e, s, q, rest + [b]).2, x);
      && first == Some(b)
      && last.Some? && (exists prev :: last.value == EmptyBlock(e, x, prev))
      && (first == last <==> b == last.value)
  {
    BFirst(e, s, q, b, rest);
    BLast(e, s, q, b, rest);
  }

  lemma BFirst(e: Env, s: State, q: Queue, b: Broadcasted, rest: seq<Broadcasted>)
    requires Filed(q.blocks) && b.core.slot !in q.blocks && e.leads(b.core.slot)
    requires NewBlocks(s, q, [b] + rest) && InReach(e, q, rest, b.core.slot)
    ensures TakenFor(q, ArriveAll(e, s, q, [b] + rest).2, b.core.slot) == Some(b)
  {
    FirstIsSecured(e, s, q, b, rest);
    forall y | q.next <= y < b.core.slot
      ensures y in Put(q.blocks, [b] + rest) || e.leads(y)
    {
      PutKeys(q.blocks, rest, y);
      PutKeys(q.blocks, [b] + rest, y);
      if HasSlot(rest, y) {
        var i :| 0 <= i < |rest| && rest[i].core.slot == y;
        assert ([b] + rest)[i + 1].core.slot == y;
      }
    }
    ReachedAfter(e, s, q, [b] + rest, b.core.slot);
  }

  lemma BLast(e: Env, s: State, q: Queue, b: Broadcasted, rest: seq<Broadcasted>)
    requires Filed(q.blocks) && rest != [] && b.core.slot !in q.blocks && e.leads(b.core.slot)
    requires NewBlocks(s, q, rest + [b]) && InReach(e, q, rest, b.core.slot)
    ensures var last := TakenFor(q, ArriveAll(e, s, q, rest + [b]).2, b.core.slot);
      last.Some? && exists prev :: last.value == EmptyBlock(e, b.core.slot, prev)
  {
    var x, all := b.core.slot, rest + [b];
    assert NewBlocks(s, q, rest) && !HasSlot(rest, x) by {
      assert all[|rest|] == b && forall i :: 0 <= i < |rest| ==> all[i] == rest[i];
    }
    AbsentIsMadeUp(e, s, q, rest, x);
    ReachedAfter(e, s, q, rest, x);
    var r := ArriveAll(e, s, q, rest);
    TakenForMore(q, r.2, Arrive(e, r.0, r.1, b).2, x);
    ArriveAllLast(e, s, q, rest, b);
  }

  lemma ArriveAllLast(e: Env, s: State, q: Queue, rest: seq<Broadcasted>, b: Broadcasted)
    ensures var r := ArriveAll(e, s, q, rest); ArriveAll(e, s, q, rest + [b]).2 == r.2 + Arrive(e, r.0, r.1, b).2
  {
    assert (rest + [b])[..|rest|] == rest;
  }

  // ----- Sender to receiver ---------------------------------------------------------------------

  lemma {:induction false} StoredIndex(db: Db, start: nat, end: nat)
    requires start <= end && forall s :: start <= s < end ==> s in db.blocks
    ensures |Stored(db, start, end)| == end - start
    ensures forall i :: 0 <= i < end - start ==> Stored(db, start, end)[i] == Rebuild(db.txs, db.blocks[start + i])
  {
    if start < end {
      StoredIndex(db, start, end - 1);
    }
  }

  /** Both stores send the same for every slot below `end`. */
  ghost predicate SameBelow(a: Db, b: Db, end: nat) {
    forall x :: x < end ==>
      && (x in a.blocks <==> x in b.blocks)
      && (x in a.blocks ==> Rebuild(a.txs, a.blocks[x]) == Rebuild(b.txs, b.blocks[x]))
  }

  /** The latest slot has not gone back and what lies up to it has not changed. */
  ghost predicate Extends(a: Reading, b: Reading) {
    a.latest <= b.latest && SameBelow(a.db, b.db, a.latest + 1)
  }

  ghost predicate Stable(rs: seq<Reading>) {
    rs == [] || ((forall j :: 0 <= j < |rs| ==> Extends(rs[0], rs[j])) && Stable(rs[1..]))
  }

  lemma {:induction false} SameStored(a: Db, b: Db, start: nat, end: nat)
    requires SameBelow(a, b, end)
    ensures Stored(a, start, end) == Stored(b, start, end)
  {
    if start < end {
      SameStored(a, b, start, end - 1);
    }
  }

  /** Once the requested range does not end before it starts, what the rounds send is what the last of
      them finds stored from there to where the sender has come, once each and in order. */
  lemma {:induction false} RoundsSendStored(rs: seq<Reading>, cur: nat, upto: nat)
    requires Stable(rs) && rs != [] && cur <= upto + 1
    ensures var (sent, next) := RoundsSend(rs, cur, upto);
      && cur <= next && (next > cur ==> next <= rs[|rs| - 1].latest + 1)
      && sent == Stored(rs[|rs| - 1].db, cur, next)
    decreases |rs|
  {
    if cur <= rs[0].latest {
      var u, last := Least(upto, rs[0].latest), rs[|rs| - 1];
      RoundStored(rs, cur, u);
      var rest := RoundsSend(rs[1..], u + 1, u + SYNC_BLOCKS_BATCH_SIZE);
      assert rest.0 == Stored(last.db, u + 1, rest.1) && u + 1 <= rest.1 <= last.latest + 1 by {
        if |rs| > 1 {
          RoundsSendStored(rs[1..], u + 1, u + SYNC_BLOCKS_BATCH_SIZE);
        }
      }
      StoredSplit(last.db, cur, u + 1, rest.1);
    }
  }

  lemma RoundStored(rs: seq<Reading>, cur: nat, u: nat)
    requires Stable(rs) && rs != [] && u <= rs[0].latest
    ensures rs[0].latest <= rs[|rs| - 1].latest
    ensures Stored(rs[0].db, cur, u + 1) == Stored(rs[|rs| - 1].db, cur, u + 1)
  {
    assert Extends(rs[0], rs[|rs| - 1]);
    SameStored(rs[0].db, rs[|rs| - 1].db, cur, u + 1);
  }

  /** The sender for any request: it starts at the requested slot or, if the request ends before it
      starts, just after its end. */
  lemma SenderSends(rs: seq<Reading>, from: nat, to: nat)
    requires Stable(rs) && rs != [] && from <= rs[0].latest
    ensures var start := if from <= to + 1 then from else to + 1;
      var (sent, next) := RoundsSend(rs, from, to);
      start <= next <= rs[|rs| - 1].latest + 1 && sent == Stored(rs[|rs| - 1].db, start, next)
  {
    RoundStored(rs, from, from);
    if from <= to + 1 {
      RoundsSendStored(rs, from, to);
    } else {
      var rest := RoundsSend(rs[1..], to + 1, to + SYNC_BLOCKS_BATCH_SIZE);
      assert RoundsSend(rs, from, to) == rest by {
        assert Stored(rs[0].db, from, to + 1) + rest.0 == rest.0;
      }
      if |rs| > 1 {
        RoundsSendStored(rs[1..], to + 1, to + SYNC_BLOCKS_BATCH_SIZE);
      }
    }
  }

  /** The loop ends by itself at the latest when it has made more rounds than there are slots left,
      however the latest slot grows below `bound`; and then it has come past the latest slot of a round. */
  lemma {:induction false} SenderFinishes(rs: seq<Reading>, cur: nat, upto: nat, bound: nat)
    requires cur <= upto && (forall i :: 0 <= i < |rs| ==> rs[i].latest <= bound)
    ensures |rs| + cur >= bound + 2 && rs != [] ==> Finishes(rs, cur, upto)
    ensures Finishes(rs, cur, upto) ==> exists i :: 0 <= i < |rs| && RoundsSend(rs, cur, upto).1 > rs[i].latest
    decreases |rs|
  {
    if rs != [] && cur <= rs[0].latest {
      var u := Least(upto, rs[0].latest);
      assert forall i :: 0 <= i < |rs[1..]| ==> rs[1..][i] == rs[i + 1];
      SenderFinishes(rs[1..], u + 1, u + SYNC_BLOCKS_BATCH_SIZE, bound);
      if Finishes(rs, cur, upto) {
        var i :| 0 <= i < |rs[1..]| && RoundsSend(rs[1..], u + 1, u + SYNC_BLOCKS_BATCH_SIZE).1 > rs[1..][i].latest;
        assert RoundsSend(rs, cur, upto).1 > rs[i + 1].latest;
      }
    }
  }

  function Constant(db: Db, latest: nat, n: nat): seq<Reading> { seq(n, _ => Reading(db, latest)) }

  lemma {:induction false} ConstantIsStable(db: Db, latest: nat, n: nat)
    ensures Stable(Constant(db, latest, n))
  {
    if n > 0 {
      ConstantIsStable(db, latest, n - 1);
      assert Constant(db, latest, n)[1..] == Constant(db, latest, n - 1);
    }
  }

  lemma ConstantSenderAhead(db: Db, latest: nat, n: nat, cur: nat, upto: nat)
    requires cur <= latest && cur <= upto && n + cur >= latest + 2
    ensures var rs := Constant(db, latest, n);
      Finishes(rs, cur, upto) && RoundsSend(rs, cur, upto) == (Stored(db, cur, latest + 1), latest + 1)
  {
    var rs := Constant(db, latest, n);
    SenderFinishes(rs, cur, upto, latest);
    ConstantIsStable(db, latest, n);
    RoundsSendStored(rs, cur, upto);
  }

  /** While the latest slot stays the same the sender ends and has sent the stored blocks up to it, each
      once, in slot order, whatever was requested. */
  lemma ConstantSender(db: Db, latest: nat, n: nat, from: nat, to: nat)
    requires from <= latest && n >= latest + 3
    ensures var rs, start := Constant(db, latest, n), if from <= to + 1 then from else to + 1;
      Finishes(rs, from, to) && RoundsSend(rs, from, to) == (Stored(db, start, latest + 1), latest + 1)
  {
    if from <= to {
      ConstantSenderAhead(db, latest, n, from, to);
    } else {
      var rs, rest := Constant(db, latest, n), Constant(db, latest, n - 1);
      assert rs[1..] == rest;
      ConstantSenderAhead(db, latest, n - 1, to + 1, to + SYNC_BLOCKS_BATCH_SIZE);
      assert [] + RoundsSend(rest, to + 1, to + SYNC_BLOCKS_BATCH_SIZE).0 == Stored(db, to + 1, latest + 1);
    }
  }

  /** The receiver of a stream of slots up to but not including `end` waits for the first of them, has
      none of them yet, and leads none of them nor, if it knows of that slot, the one after. */
  ghost predicate Expecting(e: Env, s: State, q: Queue, end: nat) {
    && q.next <= end <= q.world + 1 && Filed(q.blocks)
    && (forall x :: q.next <= x < end ==> x !in s.db.blocks && x !in q.blocks && !e.leads(x))
    && (end <= q.world ==> end !in q.blocks && !e.leads(end))
  }

  ghost predicate Consecutive(sent: seq<Broadcasted>, from: nat) {
    forall i :: 0 <= i < |sent| ==> sent[i].core.slot == from + i
  }

  lemma {:induction false} PutConsecutive(m: map<nat, Broadcasted>, sent: seq<Broadcasted>, from: nat)
    requires Consecutive(sent, from)
    ensures forall x :: x in Put(m, sent) <==> x in m || from <= x < from + |sent|
    ensures forall x :: from <= x < from + |sent| ==> Put(m, sent)[x] == sent[x - from]
    ensures forall x :: x in m && !(from <= x < from + |sent|) ==> Put(m, sent)[x] == m[x]
  {
    if sent != [] {
      PutConsecutive(m, sent[..|sent| - 1], from);
    }
  }

  lemma {:induction false} StopAtFirstGap(m: map<nat, Broadcasted>, next: nat, end: nat, world: nat)
    requires next <= end <= world + 1 && (forall x :: next <= x < end ==> x in m) && (end <= world ==> end !in m)
    ensures StopAt(m, next, world) == end
    decreases end - next
  {
    if next < end {
      StopAtFirstGap(m, next + 1, end, world);
    }
  }

  lemma ConsecutiveInPlace(m: map<nat, Broadcasted>, sent: seq<Broadcasted>, next: nat, world: nat)
    requires Consecutive(sent, next) && next + |sent| <= world + 1
    requires next + |sent| <= world ==> next + |sent| !in m
    ensures var n, end := Put(m, sent), next + |sent|;
      && (forall x :: next <= x < end ==> x in n)
      && StopAt(n, next, world) == end && Slice(n, next, end) == sent
  {
    PutConsecutive(m, sent, next);
    StopAtFirstGap(Put(m, sent), next, next + |sent|, world);
  }

  lemma ConsecutiveRest(m: map<nat, Broadcasted>, sent: seq<Broadcasted>, next: nat)
    requires Consecutive(sent, next)
    requires forall x :: next <= x < next + |sent| ==> x !in m
    ensures Rest(Put(m, sent), next, next + |sent|) == m
  {
    PutConsecutive(m, sent, next);
  }

  lemma ConsecutiveNew(e: Env, s: State, q: Queue, sent: seq<Broadcasted>)
    requires Consecutive(sent, q.next) && Expecting(e, s, q, q.next + |sent|)
    ensures NewBlocks(s, q, sent) && Settled(q) && Unled(e, q.next, q.next + |sent|, q.world)
  {
  }

  lemma ConsecutiveArrived(e: Env, s: State, q: Queue, sent: seq<Broadcasted>)
    requires Consecutive(sent, q.next) && Expecting(e, s, q, q.next + |sent|)
    ensures ArrivedOk(e, s, q, sent)
  {
    ConsecutiveNew(e, s, q, sent);
    ConsecutiveInPlace(q.blocks, sent, q.next, q.world);
    ArrivalsComeTo(e, s, q, sent);
  }

  lemma AllTaken(e: Env, s: State, q: Queue, sent: seq<Broadcasted>)
    requires ArrivedOk(e, s, q, sent)
    requires var m, end := Put(q.blocks, sent), q.next + |sent|;
      StopAt(m, q.next, q.world) == end && Slice(m, q.next, end) == sent && Rest(m, q.next, end) == q.blocks
    ensures ArriveAll(e, s, q, sent) == (ProcessAll(e, s, sent), q.(next := q.next + |sent|), sent)
  {
  }

  /** Consecutive blocks from the expected slot on, arriving at a node that leads none of their slots,
      are all taken. */
  lemma ConsecutiveTaken(e: Env, s: State, q: Queue, sent: seq<Broadcasted>)
    requires Consecutive(sent, q.next) && Expecting(e, s, q, q.next + |sent|)
    ensures ArriveAll(e, s, q, sent) == (ProcessAll(e, s, sent), q.(next := q.next + |sent|), sent)
  {
    ConsecutiveArrived(e, s, q, sent);
    ConsecutiveInPlace(q.blocks, sent, q.next, q.world);
    ConsecutiveRest(q.blocks, sent, q.next);
    AllTaken(e, s, q, sent);
  }

  lemma StoredConsecutive(db: Db, from: nat, end: nat)
    requires from <= end && LedgerProof.SlotsOk(db) && (forall x :: from <= x < end ==> x in db.blocks)
    ensures |Stored(db, from, end)| == end - from && Consecutive(Stored(db, from, end), from)
  {
    StoredIndex(db, from, end);
  }

  /** A sender that stores every slot of `from`..`latest` sends them such that the receiver takes each
      exactly once, in slot order, and then expects the slot after. */
  lemma SyncDelivers(e: Env, s: State, q: Queue, db: Db, from: nat, latest: nat)
    requires from <= latest && LedgerProof.SlotsOk(db) && (forall x :: from <= x <= latest ==> x in db.blocks)
    requires q.next == from && Expecting(e, s, q, latest + 1)
    ensures var sent := Stored(db, from, latest + 1);
      ArriveAll(e, s, q, sent) == (ProcessAll(e, s, sent), q.(next := latest + 1), sent)
  {
    StoredConsecutive(db, from, latest + 1);
    ConsecutiveTaken(e, s, q, Stored(db, from, latest + 1));
  }

  // ----- Both ends hold the same accounts -------------------------------------------------------

  /** What a rebuilt block carries is what its stored form loads. */
  lemma {:induction false} RebuiltCarries(m: map<string, Transaction>, es: seq<PersistentEntry>)
    ensures var core := BlockCore(0, [], "", 0, [], [], false, false);
      StoredTxs(Rebuild(m, Block(core, es)).entries) == GetBatch(m, TxHashes(es))
  {
    if es != [] {
      var core := BlockCore(0, [], "", 0, [], [], false, false);
      var front, last := es[..|es| - 1], es[|es| - 1];
      RebuiltCarries(m, front);
      var rebuilt := Rebuild(m, Block(core, es)).entries;
      assert rebuilt[..|es| - 1] == Rebuild(m, Block(core, front)).entries;
      BatchConcat(m, TxHashes(front), last.txHashes);
      assert last.tick ==> TxHashes(es) == TxHashes(front);
    }
  }

  lemma {:induction false} StoredHashes(k: Codec, es: seq<Entry>)
    ensures var core := BlockCore(0, [], "", 0, [], [], false, false);
      TxHashes(ToBlock(k, Broadcasted(core, es)).entries) == Hashes(k, StoredTxs(es))
  {
    if es != [] {
      var core := BlockCore(0, [], "", 0, [], [], false, false);
      var front, last := es[..|es| - 1], es[|es| - 1];
      StoredHashes(k, front);
      assert ToBlock(k, Broadcasted(core, es)).entries[..|es| - 1] == ToBlock(k, Broadcasted(core, front)).entries;
      if last.tick {
        assert StoredTxs(es) == StoredTxs(front);
      } else {
        assert Hashes(k, StoredTxs(front) + last.txs) == Hashes(k, StoredTxs(front)) + Hashes(k, last.txs);
      }
    }
  }

  /** A block just stored loads the transactions it carried. */
  lemma StoredLoads(k: Codec, s: State, b: Broadcasted)
    requires CollisionFree(k) && Keyed(k, s.db.txs) && b.core.slot !in s.db.blocks
    ensures var db := AddPending(k, s, b).0.db; Load(db, db.blocks[b.core.slot]) == StoredTxs(b.entries)
  {
    StoredHashes(k, b.entries);
    PutTxsOk(k, s.db.txs, StoredTxs(b.entries));
    GetBatchOfHashes(k, PutTxs(k, s.db.txs, StoredTxs(b.entries)), StoredTxs(b.entries));
  }

  /** A rebuilt block that is stored elsewhere loads the same transactions as the original. */
  lemma ReplicaLoads(k: Codec, s: State, db: Db, slot: nat, b: Broadcasted)
    requires CollisionFree(k) && Keyed(k, s.db.txs) && slot in db.blocks
    requires b.entries == Rebuild(db.txs, db.blocks[slot]).entries && b.core.slot !in s.db.blocks
    ensures var s' := AddPending(k, s, b).0; Load(s'.db, s'.db.blocks[b.core.slot]) == Load(db, db.blocks[slot])
  {
    StoredLoads(k, s, b);
    RebuiltCarries(db.txs, db.blocks[slot].entries);
  }

  /** The transfers of the sender's stored blocks, slot by slot; a block marked InvalidPoH has none. */
  function SlotTransfers(db: Db, start: nat, end: nat): seq<Transaction> {
    if end <= start then [] else
    SlotTransfers(db, start, end - 1) +
    if end - 1 in db.blocks && !db.blocks[end - 1].core.invalidPoH then Transfers(Load(db, db.blocks[end - 1])) else []
  }

  /** The receiver believes the block, and the sender's verdict on its proof of history is right. */
  ghost predicate Sound(e: Env, db: Db, slot: nat)
    requires slot in db.blocks
  {
    var b := Rebuild(db.txs, db.blocks[slot]);
    e.trusts(b) && (b.core.invalidPoH || Accepts(e.codec, b.core.prevHash, b.entries))
  }

  lemma ReplicaStep(e: Env, s: State, db: Db, slot: nat)
    requires CollisionFree(e.codec) && LedgerProof.StoreOk(e.codec, s) && LedgerProof.SlotsOk(db)
    requires slot in db.blocks && slot !in s.db.blocks && Sound(e, db, slot)
    ensures var b := Rebuild(db.txs, db.blocks[slot]);
      var s' := SyncOne(e.codec, s, b, e.trusts(b));
      && LedgerProof.StoreOk(e.codec, s') && s'.db.blocks.Keys == s.db.blocks.Keys + {slot}
      && s'.db.accounts ==
         if db.blocks[slot].core.invalidPoH then s.db.accounts
         else ApplyAll(s.db.accounts, Transfers(Load(db, db.blocks[slot])))
  {
    var k, b := e.codec, Rebuild(db.txs, db.blocks[slot]);
    var j := Judged(k, b);
    var s1 := AddPending(k, s, j).0;
    NodeProof.StoringFacts(k, s, j);
    NodeProof.FinalisingFacts(k, s1, slot);
    ReplicaLoads(k, s, db, slot, j);
    assert NodeProof.Marked(s1.db, slot) == db.blocks[slot].core.invalidPoH;
  }

  lemma SlotTransfersStep(db: Db, m: Store, start: nat, end: nat)
    requires start < end && end - 1 in db.blocks
    ensures var before, blk := ApplyAll(m, SlotTransfers(db, start, end - 1)), db.blocks[end - 1];
      ApplyAll(m, SlotTransfers(db, start, end)) ==
      if blk.core.invalidPoH then before else ApplyAll(before, Transfers(Load(db, blk)))
  {
    var front, blk := SlotTransfers(db, start, end - 1), db.blocks[end - 1];
    if blk.core.invalidPoH {
      assert SlotTransfers(db, start, end) == front;
    } else {
      NodeProof.ApplyAllConcat(m, front, Transfers(Load(db, blk)));
    }
  }

  ghost predicate ReplicaOk(e: Env, s: State, db: Db, from: nat, end: nat, s': State) {
    && LedgerProof.StoreOk(e.codec, s')
    && (forall x :: x in s'.db.blocks <==> x in s.db.blocks || from <= x < end)
    && s'.db.accounts == ApplyAll(s.db.accounts, SlotTransfers(db, from, end))
  }

  lemma ReplicaGrows(e: Env, s: State, db: Db, from: nat, end: nat, s1: State, s2: State)
    requires from < end && end - 1 in db.blocks && ReplicaOk(e, s, db, from, end - 1, s1)
    requires LedgerProof.StoreOk(e.codec, s2) && s2.db.blocks.Keys == s1.db.blocks.Keys + {end - 1}
    requires s2.db.accounts ==
      if db.blocks[end - 1].core.invalidPoH then s1.db.accounts
      else ApplyAll(s1.db.accounts, Transfers(Load(db, db.blocks[end - 1])))
    ensures ReplicaOk(e, s, db, from, end, s2)
  {
    SlotTransfersStep(db, s.db.accounts, from, end);
  }

  lemma ReplicaNext(e: Env, s: State, db: Db, from: nat, end: nat, s1: State)
    requires CollisionFree(e.codec) && LedgerProof.SlotsOk(db) && from < end && ReplicaOk(e, s, db, from, end - 1, s1)
    requires end - 1 in db.blocks && end - 1 !in s.db.blocks && Sound(e, db, end - 1)
    ensures var b := Rebuild(db.txs, db.blocks[end - 1]);
      ReplicaOk(e, s, db, from, end, SyncOne(e.codec, s1, b, e.trusts(b)))
  {
    var b := Rebuild(db.txs, db.blocks[end - 1]);
    ReplicaStep(e, s1, db, end - 1);
    ReplicaGrows(e, s, db, from, end, s1, SyncOne(e.codec, s1, b, e.trusts(b)));
  }

  lemma ProcessStored(e: Env, s: State, db: Db, from: nat, end: nat)
    requires from < end && end - 1 in db.blocks
    ensures var b := Rebuild(db.txs, db.blocks[end - 1]);
      ProcessAll(e, s, Stored(db, from, end))
        == SyncOne(e.codec, ProcessAll(e, s, Stored(db, from, end - 1)), b, e.trusts(b))
  {
    var front, sent := Stored(db, from, end - 1), Stored(db, from, end);
    assert sent[..|sent| - 1] == front;
  }

  lemma ReplicaStart(e: Env, s: State, db: Db, from: nat)
    requires LedgerProof.StoreOk(e.codec, s)
    ensures ReplicaOk(e, s, db, from, from, s)
  {
  }

  ghost predicate Sendable(e: Env, s: State, db: Db, slot: nat) {
    slot in db.blocks && slot !in s.db.blocks && Sound(e, db, slot)
  }

  /** Whatever the receiver takes from the stream, its accounts become exactly what the sender's stored
      blocks of those slots make of them, applied one transfer at a time in slot order. */
  lemma {:induction false} ReplicaAccounts(e: Env, s: State, db: Db, from: nat, end: nat)
    requires CollisionFree(e.codec) && LedgerProof.StoreOk(e.codec, s) && LedgerProof.SlotsOk(db) && from <= end
    requires forall x :: from <= x < end ==> Sendable(e, s, db, x)
    ensures ReplicaOk(e, s, db, from, end, ProcessAll(e, s, Stored(db, from, end)))
  {
    if from == end {
      ReplicaStart(e, s, db, from);
    } else {
      ReplicaAccounts(e, s, db, from, end - 1);
      assert Sendable(e, s, db, end - 1);
      ProcessStored(e, s, db, from, end);
      ReplicaNext(e, s, db, from, end, ProcessAll(e, s, Stored(db, from, end - 1)));
    }
  }

  /** The whole session: the stream of a store that holds every slot of `from`..`latest` brings the
      receiver to the slot after, with those slots stored and its accounts changed by exactly the
      sender's transfers of those slots. */
  lemma SyncReplicates(e: Env, s: State, q: Queue, db: Db, from: nat, latest: nat)
    requires from <= latest && LedgerProof.SlotsOk(db) && q.next == from && Expecting(e, s, q, latest + 1)
    requires CollisionFree(e.codec) && LedgerProof.StoreOk(e.codec, s)
    requires forall x :: from <= x <= latest ==> x in db.blocks && Sound(e, db, x)
    ensures var r := ArriveAll(e, s, q, Stored(db, from, latest + 1));
      r.1 == q.(next := latest + 1) && ReplicaOk(e, s, db, from, latest + 1, r.0)
  {
    SyncDelivers(e, s, q, db, from, latest);
    ReplicaAccounts(e, s, db, from, latest + 1);
  }
}
