/** The recorder turns clock events into block entries and remembers the hash at each slot boundary. */
module Recorder {
  import opened Base
  import opened Poh
  import opened Verify

  // ----- Slot-boundary hashes -------------------------------------------------------------------

  const MAX_SLOT_HASHES: nat := 10000

  /** a - b in unsigned 64-bit arithmetic, for a and b below 2^64. */
  function Sub64(a: nat, b: nat): (r: nat)
    requires b < TWO_64
  {
    if a >= b then a - b else a + TWO_64 - b
  }

  function PutHash(m: map<nat, Hash>, slot: nat, h: Hash): (r: map<nat, Hash>) {
    if slot !in m && |m| + 1 > MAX_SLOT_HASHES
    then m[slot := h] - {Sub64(slot, MAX_SLOT_HASHES)}
    else m[slot := h]
  }

  function GetHash(m: map<nat, Hash>, slot: nat): Hash {
    if slot in m then m[slot] else ZERO_HASH
  }

  class SlotHashQueue {
    var slotMap: map<nat, Hash>

    constructor ()
      ensures slotMap == map[0 := ZERO_HASH]
    {
      slotMap := map[0 := ZERO_HASH];
    }

    /** The new hash can be read back, and a put evicts at most the entry MAX_SLOT_HASHES slots below
        it, so the boundary just before the new one always survives. */
    method Put(slot: nat, h: Hash)
      modifies this
      ensures slotMap == PutHash(old(slotMap), slot, h)
      ensures slot in slotMap && slotMap[slot] == h
      ensures forall s :: s in old(slotMap) && s != slot && s != Sub64(slot, MAX_SLOT_HASHES) ==>
                s in slotMap && slotMap[s] == old(slotMap)[s]
    {
      if slot in slotMap {
        slotMap := slotMap[slot := h];
        return;
      }
      slotMap := slotMap[slot := h];
      if |slotMap| > MAX_SLOT_HASHES {
        slotMap := slotMap - {Sub64(slot, MAX_SLOT_HASHES)};
      }
    }

    method Get(slot: nat) returns (h: Hash, found: bool)
      ensures found == (slot in slotMap)
      ensures h == GetHash(slotMap, slot)
    {
      if slot in slotMap {
        h, found := slotMap[slot], true;
      } else {
        h, found := ZERO_HASH, false;
      }
    }
  }

  // ----- The recorder's state and steps ---------------------------------------------------------

  datatype State = State(
    clock: Clock,
    ticksPerSlot: Pos,
    tickHeight: nat,
    entries: seq<Entry>,
    queue: map<nat, Hash>)
  {
    function PassedSlot(): nat { tickHeight / ticksPerSlot }

    function CurrentSlot(): nat { PassedSlot() + 1 }

    predicate AtSlotEnd() { tickHeight % ticksPerSlot == 0 }
  }

  datatype RecordError = TooManyTxs | SlotFull | TickRequired | TooManyHashes | EntryTooLarge

  datatype Outcome = Recorded(entry: Entry) | Rejected(why: RecordError)

  function ResetTo(r: State, lastHash: Hash, slot: nat): State {
    r.(clock := ResetClock(r.clock, lastHash),
       tickHeight := slot * r.ticksPerSlot,
       entries := [],
       queue := PutHash(r.queue, slot, lastHash))
  }

  function RecordTxs(k: Codec, r: State, txs: seq<Transaction>): (res: (State, Outcome)) {
    if |txs| > MAX_TRANSACTIONS_PER_ENTRY then (r, Rejected(TooManyTxs)) else
    if |r.entries| >= MAX_ENTRIES_PER_SLOT then (r, Rejected(SlotFull)) else
    var (c, p) := Record(k, r.clock, HashTransactions(k, txs));
    if p.None? then (r, Rejected(TickRequired)) else
    var hashed := r.(clock := c);
    if p.value.numHashes > MAX_NUM_HASHES then (hashed, Rejected(TooManyHashes)) else
    var e := TxEntry(p.value.numHashes, p.value.hash, txs);
    if EntrySize(e) > MAX_ENTRY_SIZE then (hashed, Rejected(EntryTooLarge)) else
    (hashed.(entries := r.entries + [e]), Recorded(e))
  }

  function TickSlot(k: Codec, r: State): (res: (State, Option<Entry>))
  {
    var (c, p) := Tick(k, r.clock);
    if p.None? then (r, None) else
    var hashed := r.(clock := c);
    if p.value.numHashes > MAX_NUM_HASHES then (hashed, None) else
    var e := TickEntry(p.value.numHashes, p.value.hash);
    var ticked := hashed.(tickHeight := r.tickHeight + 1);
    (if ticked.AtSlotEnd() then ticked.(queue := PutHash(r.queue, ticked.PassedSlot(), e.hash)) else ticked, Some(e))
  }

  /** The recorder object. */
  class PohRecorder {
    const codec: Codec
    const poh: PohClock
    const ticksPerSlot: Pos
    const slotHashes: SlotHashQueue
    var tickHeight: nat
    var entries: seq<Entry>

    ghost function View(): State
      reads this, poh, slotHashes
    {
      State(poh.View(), ticksPerSlot, tickHeight, entries, slotHashes.slotMap)
    }

    ghost predicate Valid()
      reads this, poh, slotHashes
    {
      poh.codec == codec && ClockOk(View().clock)
    }

    constructor (poh: PohClock, ticksPerSlot: Pos, latestSlot: nat)
      requires poh.Valid()
      ensures Valid() && this.poh == poh && codec == poh.codec && fresh(slotHashes)
      ensures View() == State(poh.View(), ticksPerSlot, latestSlot * ticksPerSlot, [], map[0 := ZERO_HASH])
    {
      codec := poh.codec;
      this.poh := poh;
      this.ticksPerSlot := ticksPerSlot;
      tickHeight := latestSlot * ticksPerSlot;
      entries := [];
      slotHashes := new SlotHashQueue();
    }

    method Reset(lastHash: Hash, slot: nat)
      requires Valid()
      modifies this, poh, slotHashes
      ensures Valid() && View() == ResetTo(old(View()), lastHash, slot)
    {
      tickHeight := slot * ticksPerSlot;
      poh.Reset(lastHash);
      entries := [];
      slotHashes.Put(slot, lastHash);
    }

    /** Fast-forwards the clock over the ticks of the slots in between; every other field stays. */
    method FastForward(seen: Hash, fromSlot: nat, toSlot: nat) returns (h: Hash)
      requires Valid()
      modifies poh
      ensures Valid() && View() == old(View()).(clock := ResetClock(old(View().clock), h))
      ensures h == Iterate(codec.sha, seen, Wrap64((toSlot - fromSlot) * ticksPerSlot * poh.perTick))
    {
      h := poh.TickFastForward(seen, Wrap64(fromSlot * ticksPerSlot), Wrap64(toSlot * ticksPerSlot));
      WrapOperands(toSlot * ticksPerSlot, fromSlot * ticksPerSlot, poh.perTick);
      assert toSlot * ticksPerSlot - fromSlot * ticksPerSlot == (toSlot - fromSlot) * ticksPerSlot;
    }

    method Record(txs: seq<Transaction>) returns (out: Outcome)
      requires Valid()
      modifies this, poh
      ensures Valid() && (View(), out) == RecordTxs(codec, old(View()), txs)
    {
      if |txs| > MAX_TRANSACTIONS_PER_ENTRY {
        return Rejected(TooManyTxs);
      }
      var mixin := HashTransactions(codec, txs);
      if |entries| >= MAX_ENTRIES_PER_SLOT {
        return Rejected(SlotFull);
      }
      var p := poh.RecordMixin(mixin);
      if p.None? {
        return Rejected(TickRequired);
      }
      if p.value.numHashes > MAX_NUM_HASHES {
        return Rejected(TooManyHashes);
      }
      var e := TxEntry(p.value.numHashes, p.value.hash, txs);
      if EntrySize(e) > MAX_ENTRY_SIZE {
        return Rejected(EntryTooLarge);
      }
      entries := entries + [e];
      out := Recorded(e);
    }

    method Tick() returns (e: Option<Entry>)
      requires Valid()
      modifies this, poh, slotHashes
      ensures Valid() && (View(), e) == TickSlot(codec, old(View()))
    {
      var p := poh.TickIfDue();
      if p.None? {
        return None;
      }
      if p.value.numHashes > MAX_NUM_HASHES {
        return None;
      }
      var tick := TickEntry(p.value.numHashes, p.value.hash);
      tickHeight := tickHeight + 1;
      if tickHeight % ticksPerSlot == 0 {
        slotHashes.Put(tickHeight / ticksPerSlot, tick.hash);
      }
      e := Some(tick);
    }

    method DrainEntries() returns (es: seq<Entry>)
      requires Valid()
      modifies this
      ensures Valid() && es == old(entries) && View() == old(View()).(entries := [])
    {
      es := entries;
      entries := [];
    }
  }

  // ----- Properties -----------------------------------------------------------------------------

  /** The recorder advanced the chain and then threw the entry away. */
  predicate Discards(k: Codec, r: State)
  {
    TickSlot(k, r).0.clock != r.clock && TickSlot(k, r).1.None?
  }

  predicate DiscardsTxs(k: Codec, r: State, txs: seq<Transaction>) {
    RecordTxs(k, r, txs).0.clock != r.clock && RecordTxs(k, r, txs).1.Rejected?
  }

  /** The recorder with the clock that a run from a reset leaves behind. */
  function AfterRun(k: Codec, r: State, seed: Hash, steps: seq<ClockStep>): State {
    r.(clock := Run(k, ResetClock(r.clock, seed), steps).0)
  }

  /** Some run leads to a tick or a record whose entry is hashed into the chain and then dropped
      exactly when a tick may hold more than MAX_NUM_HASHES hashes. */
  lemma DiscardsIffBeyondCap(k: Codec, r: State, seed: Hash)
    requires r.clock.perTick > 1
    ensures (exists steps :: Discards(k, AfterRun(k, r, seed, steps))
                             || exists txs :: DiscardsTxs(k, AfterRun(k, r, seed, steps), txs))
            <==> r.clock.perTick > MAX_NUM_HASHES
  {
    if r.clock.perTick > MAX_NUM_HASHES {
      var c := ResetClock(r.clock, seed);
      var steps := seq(c.perTick - 1, _ => StepAutoHash);
      AutoHashes(k, c, c.perTick - 1);
      assert TickSlot(k, AfterRun(k, r, seed, steps)).0.clock.remaining == c.perTick;
      assert Discards(k, AfterRun(k, r, seed, steps));
    } else {
      forall steps
        ensures !Discards(k, AfterRun(k, r, seed, steps))
        ensures forall txs :: !DiscardsTxs(k, AfterRun(k, r, seed, steps), txs)
      {
        BudgetLaw(k, r.clock, seed, steps);
      }
    }
  }

  lemma {:induction false} AutoHashes(k: Codec, c: Clock, n: nat)
    requires n < c.remaining
    ensures var d := Run(k, c, seq(n, _ => StepAutoHash)).0;
      d.remaining == c.remaining - n && d.numHashes == c.numHashes + n && d.perTick == c.perTick
  {
    var steps := seq(n, _ => StepAutoHash);
    if n > 0 {
      assert steps[..n - 1] == seq(n - 1, _ => StepAutoHash);
      AutoHashes(k, c, n - 1);
    }
  }

  datatype Attempt = AttemptAutoHash | AttemptRecord(txs: seq<Transaction>)

  function Attempts(k: Codec, r: State, ops: seq<Attempt>): State {
    if ops == [] then r else
    var s := Attempts(k, r, ops[..|ops| - 1]);
    match ops[|ops| - 1]
    case AttemptAutoHash => s.(clock := AutoHash(k, s.clock))
    case AttemptRecord(txs) => RecordTxs(k, s, txs).0
  }

  /** Draining and ticking may be separated by other recorder activity exactly when only the tick's
      own hash is left at the drain: then, and only then, no activity in between has any effect. */
  lemma FlushMaySplit(k: Codec, r: State)
    requires ClockOk(r.clock)
    ensures (forall ops :: Attempts(k, r, ops) == r) <==> r.clock.remaining == 1
  {
    if r.clock.remaining == 1 {
      forall ops
        ensures Attempts(k, r, ops) == r
      {
        RefusedAttempts(k, r, ops);
      }
    } else {
      var ops := [AttemptAutoHash];
      assert ops[..0] == [];
      assert Attempts(k, r, ops) != r;
    }
  }

  lemma {:induction false} RefusedAttempts(k: Codec, r: State, ops: seq<Attempt>)
    requires r.clock.remaining == 1
    ensures Attempts(k, r, ops) == r
  {
    if ops != [] {
      RefusedAttempts(k, r, ops[..|ops| - 1]);
    }
  }
}
