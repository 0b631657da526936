/** The leader pipeline: batches of pending transactions are recorded, the recorder is flushed into a
    buffer, and the buffer becomes a block at the end of a led slot. */
module Leader {
  import opened Base
  import opened Poh
  import opened Verify
  import BlockStore
  import Recorder

  /** The part of a block that the pipeline decides. */
  datatype SlotBlock = SlotBlock(slot: nat, prevHash: Hash, entries: seq<Entry>)

  datatype Core = Core(
    rec: Recorder.State,
    leaderStart: Option<nat>,          // None where the source holds NoSlot
    collected: seq<Entry>,
    pending: seq<Transaction>,
    batchSize: nat)
  {
    predicate Ready() { leaderStart.Some? }

    predicate Leading(lead: nat -> bool) {
      lead(rec.CurrentSlot()) && Ready()
    }
  }

  /** The seed that the wait at a leader slot's start settles on: the end of the stored block of the slot
      before if it turned up in time; else the newest hash known, from the recorder or else from the
      store, run over the ticks up to there. */
  function SeedFor(k: Codec, r: Recorder.State, s: BlockStore.State, prev: nat, inTime: bool): Hash
    requires inTime ==> prev in s.db.blocks
  {
    if inTime then BlockStore.BlockTail(s.db.blocks[prev]) else
    var seen := s.latestStore;
    if seen in r.queue then FastForwarded(k, r, r.queue[seen], seen, prev)
    else if seen in s.db.blocks then FastForwarded(k, r, BlockStore.BlockTail(s.db.blocks[seen]), seen, prev)
    else FastForwarded(k, r, ZERO_HASH, 0, prev)
  }

  function FastForwarded(k: Codec, r: Recorder.State, h: Hash, from: nat, to: nat): Hash {
    Iterate(k.sha, h, Wrap64((to - from) * r.ticksPerSlot * r.clock.perTick))
  }

  // ----- Steps of the source --------------------------------------------------------------------

  /** The reset at the end of onLeaderSlotStart; `seed` is what its wait loop settled on. */
  function SlotStart(c: Core, slot: nat, seed: Hash): Core
    requires slot > 0
  {
    c.(rec := Recorder.ResetTo(c.rec, seed, slot - 1), collected := [], pending := [], leaderStart := Some(slot))
  }

  function SlotEnd(c: Core): Core { c.(leaderStart := None) }

  /** A follower adopts the slot of a block it received. */
  function FollowerReset(lead: nat -> bool, c: Core, seed: Hash, slot: nat): Core
  {
    if !lead(c.rec.CurrentSlot()) && !lead(slot) then c.(rec := Recorder.ResetTo(c.rec, seed, slot)) else c
  }

  function HandleEntry(lead: nat -> bool, c: Core, es: seq<Entry>): (r: (Core, Option<SlotBlock>))
    requires es != []
  {
    var last := c.rec.PassedSlot();
    if c.rec.AtSlotEnd() && lead(last) && es[|es| - 1].tick && c.collected != [] then
      (c.(collected := []),
       Some(SlotBlock(last, Recorder.GetHash(c.rec.queue, Recorder.Sub64(last, 1)), c.collected + es)))
    else if c.Leading(lead) then (c.(collected := c.collected + es), None)
    else (c, None)
  }

  function Peek(c: Core): seq<Transaction> {
    if |c.pending| < c.batchSize then c.pending else c.pending[..c.batchSize]
  }

  /** One turn of the batch loop; `pulled` is what the mempool handed out. */
  function Batch(k: Codec, lead: nat -> bool, c: Core, pulled: seq<Transaction>): (r: Core)
  {
    if !c.Leading(lead) then c else
    var d := c.(pending := c.pending + pulled);
    var txs := Peek(d);
    if d.pending == [] then c else
    var (rec, out) := Recorder.RecordTxs(k, d.rec, txs);
    if out.Recorded? then d.(rec := rec, pending := d.pending[|txs|..]) else d.(rec := rec)
  }

  /** One turn of the flush loop: drain, tick, hand over. */
  function Flush(k: Codec, lead: nat -> bool, c: Core): (r: (Core, Option<SlotBlock>))
  {
    var (rec, tick) := Recorder.TickSlot(k, c.rec.(entries := []));
    var es := match tick case Some(e) => c.rec.entries + [e] case None => c.rec.entries;
    if es == [] then (c.(rec := rec), None) else HandleEntry(lead, c.(rec := rec), es)
  }

  /** The validator object. */
  class Validator {
    const codec: Codec
    const lead: nat -> bool            // whether this node leads a slot
    const recorder: Recorder.PohRecorder
    const batchSize: nat
    var leaderStart: Option<nat>
    var collectedEntries: seq<Entry>
    var pendingTxs: seq<Transaction>

    ghost function View(): Core
      reads this, recorder, recorder.poh, recorder.slotHashes
    {
      Core(recorder.View(), leaderStart, collectedEntries, pendingTxs, batchSize)
    }

    ghost predicate Valid()
      reads this, recorder, recorder.poh, recorder.slotHashes
    {
      recorder.Valid() && recorder.codec == codec
    }

    constructor (recorder: Recorder.PohRecorder, lead: nat -> bool, batchSize: nat)
      requires recorder.Valid()
      ensures Valid() && this.recorder == recorder && codec == recorder.codec && this.lead == lead
      ensures View() == Core(recorder.View(), None, [], [], batchSize)
    {
      codec := recorder.codec;
      this.recorder := recorder;
      this.lead := lead;
      this.batchSize := batchSize;
      leaderStart := None;
      collectedEntries := [];
      pendingTxs := [];
    }

    /** The wait at the start of a leader slot; `inTime`: the block of the slot before turns up before
        the deadline. */
    method WaitForSeed(store: BlockStore.GenericBlockStore, prev: nat, inTime: bool) returns (seed: Hash)
      requires Valid() && (inTime ==> store.HasCompleteBlock(prev))
      modifies recorder.poh
      ensures Valid() && seed == SeedFor(codec, old(recorder.View()), store.View(), prev, inTime)
      ensures var c := old(View());
        View() == if inTime then c else c.(rec := c.rec.(clock := ResetClock(c.rec.clock, seed)))
    {
      if inTime {
        return BlockStore.BlockTail(store.db.blocks[prev]);
      }
      var lastSeen := store.latestStore;
      var hash, found := recorder.slotHashes.Get(lastSeen);
      if found {
        seed := recorder.FastForward(hash, lastSeen, prev);
        return;
      }
      var from, last := 0, ZERO_HASH;
      if lastSeen in store.db.blocks {
        from, last := lastSeen, BlockStore.BlockTail(store.db.blocks[lastSeen]);
      }
      seed := recorder.FastForward(last, from, prev);
    }

    method OnLeaderSlotStart(store: BlockStore.GenericBlockStore, slot: nat, inTime: bool) returns (seed: Hash)
      requires Valid() && slot > 0 && (inTime ==> store.HasCompleteBlock(slot - 1))
      modifies this, recorder, recorder.poh, recorder.slotHashes
      ensures Valid() && seed == SeedFor(codec, old(recorder.View()), store.View(), slot - 1, inTime)
      ensures View() == SlotStart(old(View()), slot, seed)
    {
      seed := WaitForSeed(store, slot - 1, inTime);
      recorder.Reset(seed, slot - 1);
      collectedEntries := [];
      pendingTxs := [];
      leaderStart := Some(slot);
    }

    method OnLeaderSlotEnd()
      requires Valid()
      modifies this
      ensures Valid() && View() == SlotEnd(old(View()))
    {
      leaderStart := None;
    }

    method HandleResetFromLeader(seed: Hash, slot: nat)
      requires Valid()
      modifies recorder, recorder.poh, recorder.slotHashes
      ensures Valid() && View() == FollowerReset(lead, old(View()), seed, slot)
    {
      var current := recorder.tickHeight / recorder.ticksPerSlot + 1;
      if !lead(current) && !lead(slot) {
        recorder.Reset(seed, slot);
      }
    }

    method HandleEntries(es: seq<Entry>) returns (blk: Option<SlotBlock>)
      requires Valid() && es != []
      modifies this
      ensures Valid() && (View(), blk) == HandleEntry(lead, old(View()), es)
    {
      blk := None;
      var last := recorder.tickHeight / recorder.ticksPerSlot;
      var atEnd := recorder.tickHeight % recorder.ticksPerSlot == 0;
      if atEnd && lead(last) && es[|es| - 1].tick && |collectedEntries| > 0 {
        collectedEntries := collectedEntries + es;
        var prevHash, _ := recorder.slotHashes.Get(Recorder.Sub64(last, 1));
        blk := Some(SlotBlock(last, prevHash, collectedEntries));
        collectedEntries := [];
      } else if lead(last + 1) && leaderStart.Some? {
        collectedEntries := collectedEntries + es;
      }
    }

    method PeekPending(size: nat) returns (txs: seq<Transaction>)
      ensures txs <= pendingTxs && |txs| == if |pendingTxs| < size then |pendingTxs| else size
    {
      txs := if |pendingTxs| < size then pendingTxs else pendingTxs[..size];
    }

    method DropPending(size: nat)
      modifies this`pendingTxs
      ensures pendingTxs == if size >= |old(pendingTxs)| then [] else old(pendingTxs)[size..]
    {
      if size >= |pendingTxs| {
        pendingTxs := [];
        return;
      }
      pendingTxs := pendingTxs[size..];
    }

    method LeaderBatch(pulled: seq<Transaction>)
      requires Valid()
      modifies this, recorder, recorder.poh
      ensures Valid() && View() == Batch(codec, lead, old(View()), pulled)
    {
      var slot := recorder.tickHeight / recorder.ticksPerSlot + 1;
      if !lead(slot) || leaderStart.None? {
        return;
      }
      if |pulled| == 0 && |pendingTxs| == 0 {
        return;
      }
      pendingTxs := pendingTxs + pulled;
      var txs := PeekPending(batchSize);
      assert txs == Peek(View());
      var out := recorder.Record(txs);
      if out.Rejected? {
        return;
      }
      DropPending(|txs|);
    }

    method TickAndFlush() returns (blk: Option<SlotBlock>)
      requires Valid()
      modifies this, recorder, recorder.poh, recorder.slotHashes
      ensures Valid() && (View(), blk) == Flush(codec, lead, old(View()))
    {
      blk := None;
      var es := recorder.DrainEntries();
      var tick := recorder.Tick();
      if tick.Some? {
        es := es + [tick.value];
      }
      if |es| > 0 {
        blk := HandleEntries(es);
      }
    }
  }

  // ----- Runs with history ----------------------------------------------------------------------

  /** How the slot under construction began: with a reset of the recorder, right after a slot that
      became a block, or right after a slot that did not. */
  datatype Opening = AtReset(seed: Hash) | AfterBlock | AfterGap

  /** A block the pipeline handed over, with how its slot began. */
  datatype Produced = Produced(blk: SlotBlock, opening: Opening)

  /** Pipeline state with history: the blocks so far, the entries flushed in the current slot, and
      how the slot began. */
  datatype Trace = Trace(core: Core, blocks: seq<Produced>, slotLog: seq<Entry>, opening: Opening)

  datatype Step =
    | DoAutoHash
    | DoBatch(pulled: seq<Transaction>)
    | DoFlush
    | DoSlotStart(slot: nat, seed: Hash)
    | DoSlotEnd
    | DoFollowerReset(seed: Hash, slot: nat)

  function AfterReset(t: Trace, c: Core, seed: Hash): Trace {
    t.(core := c, slotLog := [], opening := AtReset(seed))
  }

  function FlushTrace(k: Codec, lead: nat -> bool, t: Trace): Trace
  {
    var (c, blk) := Flush(k, lead, t.core);
    var (_, tick) := Recorder.TickSlot(k, t.core.rec.(entries := []));
    var es := match tick case Some(e) => t.core.rec.entries + [e] case None => t.core.rec.entries;
    var blocks := match blk case Some(b) => t.blocks + [Produced(b, t.opening)] case None => t.blocks;
    if tick.Some? && c.rec.AtSlotEnd()
    then Trace(c, blocks, [], if blk.Some? then AfterBlock else AfterGap)
    else t.(core := c, blocks := blocks, slotLog := t.slotLog + es)
  }

  /** Steps whose guard fails change nothing, as in the source's loops. */
  function Next(k: Codec, lead: nat -> bool, t: Trace, s: Step): Trace
  {
    match s
    case DoAutoHash => t.(core := t.core.(rec := t.core.rec.(clock := AutoHash(k, t.core.rec.clock))))
    case DoBatch(pulled) => t.(core := Batch(k, lead, t.core, pulled))
    case DoFlush => FlushTrace(k, lead, t)
    case DoSlotStart(slot, seed) =>
      if slot > 0 && lead(slot) && !t.core.Ready() then AfterReset(t, SlotStart(t.core, slot, seed), seed) else t
    case DoSlotEnd =>
      if !lead(t.core.rec.CurrentSlot()) && t.core.Ready() then t.(core := SlotEnd(t.core)) else t
    case DoFollowerReset(seed, slot) =>
      if !lead(t.core.rec.CurrentSlot()) && !lead(slot)
      then AfterReset(t, FollowerReset(lead, t.core, seed, slot), seed) else t
  }

  function RunSteps(k: Codec, lead: nat -> bool, t: Trace, steps: seq<Step>): (r: Trace)
  {
    if steps == [] then t else Next(k, lead, RunSteps(k, lead, t, steps[..|steps| - 1]), steps[|steps| - 1])
  }

  // ----- The slot under construction ------------------------------------------------------------

  /** Entries seen as clock events. */
  function Events(es: seq<Entry>): (r: seq<PohEntry>)
    ensures |r| == |es|
  {
    seq(|es|, i requires 0 <= i < |es| => PohEntry(es[i].numHashes, es[i].hash, es[i].tick))
  }

  predicate EntryOk(e: Entry) {
    && 1 <= e.numHashes <= MAX_NUM_HASHES
    && |e.txs| <= MAX_TRANSACTIONS_PER_ENTRY
    && (e.tick <==> e.txs == [])
  }

  ghost predicate AllOk(es: seq<Entry>) {
    forall i :: 0 <= i < |es| ==> EntryOk(es[i])
  }

  /** `log` holds all entries since the boundary hash `prev`, and the clock continues it. */
  ghost predicate SlotOk(k: Codec, prev: Hash, c: Clock, log: seq<Entry>) {
    && c.perTick <= MAX_NUM_HASHES
    && Budget(c, Events(log))
    && Linked(k, prev, log)
    && AllOk(log)
    && c.hash == Iterate(k.sha, LastHash(prev, log), c.numHashes)
  }

  lemma EventsAppend(es: seq<Entry>, e: Entry)
    ensures Events(es + [e]) == Events(es) + [PohEntry(e.numHashes, e.hash, e.tick)]
  {
  }

  lemma SlotOkAtReset(k: Codec, c: Clock, seed: Hash)
    requires 1 < c.perTick <= MAX_NUM_HASHES
    ensures SlotOk(k, seed, ResetClock(c, seed), [])
  {
  }

  lemma SlotOkAutoHash(k: Codec, prev: Hash, c: Clock, log: seq<Entry>)
    requires SlotOk(k, prev, c, log)
    ensures SlotOk(k, prev, AutoHash(k, c), log)
  {
    BudgetStep(k, c, Events(log), StepAutoHash);
  }

  /** The entry a step emits is the one the checker computes from where the log ends. */
  lemma EmittedEntry(k: Codec, from: Hash, c: Clock, e: Entry, s: ClockStep)
    requires c.hash == Iterate(k.sha, from, c.numHashes)
    requires Apply(k, c, s).1 == Some(PohEntry(e.numHashes, e.hash, e.tick))
    requires match s
      case StepRecord(m) => m == HashTransactions(k, e.txs) && e.txs != []
      case StepTick => e.txs == []
      case StepAutoHash => false
    ensures e.numHashes == c.numHashes + 1 && e.hash == Advance(k, from, e)
    ensures Apply(k, c, s).0.hash == e.hash && Apply(k, c, s).0.numHashes == 0
    ensures e.tick <==> s.StepTick?
  {
  }

  lemma SlotOkEntry(k: Codec, prev: Hash, c: Clock, log: seq<Entry>, e: Entry, s: ClockStep)
    requires SlotOk(k, prev, c, log)
    requires Apply(k, c, s).1 == Some(PohEntry(e.numHashes, e.hash, e.tick))
    requires |e.txs| <= MAX_TRANSACTIONS_PER_ENTRY
    requires match s
      case StepRecord(m) => m == HashTransactions(k, e.txs) && e.txs != []
      case StepTick => e.txs == []
      case StepAutoHash => false
    ensures SlotOk(k, prev, Apply(k, c, s).0, log + [e])
  {
    var d := Apply(k, c, s).0;
    EmittedEntry(k, LastHash(prev, log), c, e, s);
    assert Budget(d, Events(log + [e])) by {
      BudgetStep(k, c, Events(log), s);
      EventsAppend(log, e);
    }
    LinkedAppend(k, prev, log, e);
    assert EntryOk(e) by {
      assert ClockOk(c) && c.numHashes + c.remaining <= c.perTick;
    }
  }

  lemma SlotOkRecord(k: Codec, prev: Hash, r: Recorder.State, log: seq<Entry>, txs: seq<Transaction>)
    requires SlotOk(k, prev, r.clock, log) && txs != []
    ensures var (s, out) := Recorder.RecordTxs(k, r, txs);
      && (out.Rejected? ==> s == r)
      && (out.Recorded? ==> s == r.(clock := s.clock, entries := r.entries + [out.entry])
                            && out.entry.txs == txs && !out.entry.tick
                            && SlotOk(k, prev, s.clock, log + [out.entry]))
  {
    var (s, out) := Recorder.RecordTxs(k, r, txs);
    var step := StepRecord(HashTransactions(k, txs));
    BudgetStep(k, r.clock, Events(log), step);
    if out.Recorded? {
      SlotOkEntry(k, prev, r.clock, log, out.entry, step);
    }
  }

  lemma SlotOkTick(k: Codec, prev: Hash, r: Recorder.State, log: seq<Entry>)
    requires SlotOk(k, prev, r.clock, log)
    ensures var (s, e) := Recorder.TickSlot(k, r);
      && (e.None? ==> s == r)
      && (e.Some? ==> e.value.tick && s.tickHeight == r.tickHeight + 1 && s.ticksPerSlot == r.ticksPerSlot
                      && s.entries == r.entries && s.clock == ResetClock(r.clock, e.value.hash)
                      && SlotOk(k, prev, s.clock, log + [e.value]))
  {
    var (s, e) := Recorder.TickSlot(k, r);
    BudgetStep(k, r.clock, Events(log), StepTick);
    if e.Some? {
      SlotOkEntry(k, prev, r.clock, log, e.value, StepTick);
    }
  }
}
