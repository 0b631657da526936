/** Every run of the leader pipeline produces blocks the checker accepts. */
module LeaderProof {
  import opened Base
  import opened Poh
  import opened Verify
  import opened Leader
  import Recorder

  // ----- Invariant ------------------------------------------------------------------------------

  /** The recorder never drops an entry, and a non-empty batch yields a non-empty record. */
  predicate Records(c: Core) { 1 < c.rec.clock.perTick <= MAX_NUM_HASHES && c.batchSize >= 1 }

  /** Configuration under which the pipeline works: besides, a slot has an inner tick that opens the
      buffer. (Module OneTick is about slots that have not.) */
  predicate Configured(c: Core) { Records(c) && c.rec.ticksPerSlot >= 2 }

  /** Hash at the boundary before the current slot. */
  function Boundary(r: Recorder.State): Hash { Recorder.GetHash(r.queue, r.PassedSlot()) }

  ghost predicate NoTicks(es: seq<Entry>) {
    forall i :: 0 <= i < |es| ==> !es[i].tick
  }

  ghost predicate SlotInv(k: Codec, t: Trace) {
    var r := t.core.rec;
    && Records(t.core)
    && r.PassedSlot() in r.queue
    && SlotOk(k, Boundary(r), r.clock, t.slotLog + r.entries)
    && Ticks(Events(t.slotLog)) == r.tickHeight % r.ticksPerSlot
    && NoTicks(r.entries)
  }

  /** The buffer holds the current slot's entries. After a gap it also holds, first, the tick that
      ended the slot before. */
  ghost predicate BufferInv(lead: nat -> bool, t: Trace) {
    var c := t.core;
    if !c.Leading(lead) then c.collected == [] && c.rec.entries == []
    else if t.opening.AfterGap? then
      && c.collected != []
      && IsCarried(c.collected[0], Boundary(c.rec))
      && c.collected[1..] == t.slotLog
    else c.collected == t.slotLog
  }

  predicate IsCarried(e: Entry, boundary: Hash) { EntryOk(e) && e.tick && e.hash == boundary }

  /** The entries of a block that belong to its own slot. */
  function OwnEntries(p: Produced): seq<Entry> {
    if p.opening.AfterGap? && p.blk.entries != [] then p.blk.entries[1..] else p.blk.entries
  }

  ghost predicate BlockOk(k: Codec, perTick: nat, ticksPerSlot: nat, p: Produced) {
    var own := OwnEntries(p);
    && own != []
    && (p.opening.AfterGap? ==> IsCarried(p.blk.entries[0], p.blk.prevHash))
    && (p.opening.AtReset? ==> p.blk.prevHash == p.opening.seed)
    && Linked(k, p.blk.prevHash, own)
    && AllOk(own)
    && Ticks(Events(own)) == ticksPerSlot
    && Hashes(Events(own)) == perTick * ticksPerSlot
    && TicksAreFull(Events(own), perTick)
  }

  predicate BlockSlotOk(lead: nat -> bool, p: Produced) {
    p.blk.slot > 0 && lead(p.blk.slot) && OpeningOk(lead, p.opening, p.blk.slot - 1)
  }

  ghost predicate LinkedBlocks(blocks: seq<Produced>) {
    forall i :: 0 <= i < |blocks| && blocks[i].opening.AfterBlock? ==> i > 0 && Follows(blocks[i - 1], blocks[i])
  }

  predicate EndsAt(p: Produced, slot: nat, h: Hash) {
    p.blk.slot == slot && LastHash(ZERO_HASH, p.blk.entries) == h
  }

  /** Block b is for the slot after block a and starts from a's last entry hash. */
  predicate Follows(a: Produced, b: Produced) {
    b.blk.slot > 0 && EndsAt(a, b.blk.slot - 1, b.blk.prevHash)
  }

  /** The opening of a slot against the schedule: `last` is the slot before it. */
  predicate OpeningOk(lead: nat -> bool, o: Opening, last: nat) {
    match o
    case AtReset(_) => true
    case AfterBlock => lead(last)
    case AfterGap => !lead(last)
  }

  ghost predicate BlocksInv(k: Codec, lead: nat -> bool, t: Trace) {
    var r := t.core.rec;
    && (t.core.Ready() ==> OpeningOk(lead, t.opening, r.PassedSlot()))
    && (forall i :: 0 <= i < |t.blocks| ==> BlockOk(k, r.clock.perTick, r.ticksPerSlot, t.blocks[i]))
    && (forall i :: 0 <= i < |t.blocks| ==> BlockSlotOk(lead, t.blocks[i]))
    && LinkedBlocks(t.blocks)
    && (t.opening.AtReset? ==> Boundary(r) == t.opening.seed)
    && (t.opening.AfterBlock? ==> t.blocks != [] && EndsAt(t.blocks[|t.blocks| - 1], r.PassedSlot(), Boundary(r)))
  }

  ghost predicate Inv(k: Codec, lead: nat -> bool, t: Trace) {
    Configured(t.core) && SlotInv(k, t) && BufferInv(lead, t) && BlocksInv(k, lead, t)
  }

  // ----- Arithmetic of ticks and slots ----------------------------------------------------------

  lemma SlotArithmetic(h: nat, t: Pos)
    ensures h % t + 1 < t ==> (h + 1) / t == h / t && (h + 1) % t == h % t + 1
    ensures h % t + 1 == t ==> (h + 1) / t == h / t + 1 && (h + 1) % t == 0
  {
    var q := h / t;
    assert h == q * t + h % t;
    if h % t + 1 < t {
      Quotient(h + 1, t, q, h % t + 1);
    } else {
      assert q * t + t == (q + 1) * t;
      Quotient(h + 1, t, q + 1, 0);
    }
  }

  lemma {:induction false} QuietTicks(a: seq<Entry>, b: seq<Entry>)
    requires NoTicks(b)
    ensures Ticks(Events(a + b)) == Ticks(Events(a))
  {
    if b == [] {
      assert a + b == a;
    } else {
      var front := b[..|b| - 1];
      assert a + b == (a + front) + [b[|b| - 1]];
      EventsAppend(a + front, b[|b| - 1]);
      assert Events(a + b)[..|a + front|] == Events(a + front);
      QuietTicks(a, front);
    }
  }

  // ----- Steps other than flush -----------------------------------------------------------------

  lemma AutoHashStep(k: Codec, lead: nat -> bool, t: Trace)
    requires Inv(k, lead, t)
    ensures Inv(k, lead, Next(k, lead, t, DoAutoHash))
  {
    SlotOkAutoHash(k, Boundary(t.core.rec), t.core.rec.clock, t.slotLog + t.core.rec.entries);
  }

  /** A recorder step inside a slot keeps the blocks and, with the buffer, the whole invariant. */
  lemma WithinSlot(k: Codec, lead: nat -> bool, t: Trace, u: Trace)
    requires Inv(k, lead, t) && SlotInv(k, u) && BufferInv(lead, u)
    requires u.blocks == t.blocks && u.opening == t.opening && u.core.leaderStart == t.core.leaderStart
    requires var r, s := t.core.rec, u.core.rec;
      && r.queue == s.queue && r.PassedSlot() == s.PassedSlot()
      && r.ticksPerSlot == s.ticksPerSlot && r.clock.perTick == s.clock.perTick
    ensures Inv(k, lead, u)
  {
  }

  lemma BatchStep(k: Codec, lead: nat -> bool, t: Trace, pulled: seq<Transaction>)
    requires Inv(k, lead, t)
    ensures Inv(k, lead, Next(k, lead, t, DoBatch(pulled)))
  {
    var d := t.core.(pending := t.core.pending + pulled);
    if t.core.Leading(lead) && d.pending != [] {
      var txs := Peek(d);
      SlotOkRecord(k, Boundary(d.rec), d.rec, t.slotLog + d.rec.entries, txs);
      var (rec, out) := Recorder.RecordTxs(k, d.rec, txs);
      if out.Recorded? {
        var u := t.(core := d.(rec := rec, pending := d.pending[|txs|..]));
        assert Next(k, lead, t, DoBatch(pulled)) == u;
        RecordedInSlot(k, lead, t, u, out.entry);
      } else {
        WithinSlot(k, lead, t, t.(core := d));
      }
    }
  }

  lemma RecordedInSlot(k: Codec, lead: nat -> bool, t: Trace, u: Trace, e: Entry)
    requires Inv(k, lead, t) && t.core.Leading(lead) && !e.tick
    requires u == t.(core := t.core.(rec := u.core.rec, pending := u.core.pending))
    requires u.core.rec == t.core.rec.(clock := u.core.rec.clock, entries := t.core.rec.entries + [e])
    requires SlotOk(k, Boundary(t.core.rec), u.core.rec.clock, (t.slotLog + t.core.rec.entries) + [e])
    requires u.core.rec.clock.perTick == t.core.rec.clock.perTick
    ensures Inv(k, lead, u)
  {
    assert (t.slotLog + t.core.rec.entries) + [e] == u.slotLog + u.core.rec.entries;
    WithinSlot(k, lead, t, u);
  }

  lemma ResetStep(k: Codec, lead: nat -> bool, t: Trace, c: Core, seed: Hash, slot: nat)
    requires Configured(t.core) && BlocksInv(k, lead, t)
    requires c.rec == Recorder.ResetTo(t.core.rec, seed, slot) && c.collected == [] && c.batchSize == t.core.batchSize
    ensures Inv(k, lead, AfterReset(t, c, seed))
  {
    Quotient(slot * c.rec.ticksPerSlot, c.rec.ticksPerSlot, slot, 0);
    SlotOkAtReset(k, t.core.rec.clock, seed);
    assert [] + c.rec.entries == [];
  }

  // ----- Flush ----------------------------------------------------------------------------------

  /** The trace after entries were handed over inside a slot. */
  function HandedOver(lead: nat -> bool, t: Trace, s: Recorder.State, es: seq<Entry>): Trace {
    t.(core := t.core.(rec := s, collected := if t.core.Leading(lead) then t.core.collected + es else t.core.collected),
       slotLog := t.slotLog + es)
  }

  /** Handing over entries inside a slot moves them from the recorder to the log and the buffer. */
  lemma HandOver(k: Codec, lead: nat -> bool, t: Trace, u: Trace, es: seq<Entry>)
    requires Inv(k, lead, t) && SlotInv(k, u)
    requires u == HandedOver(lead, t, u.core.rec, es) && u.core.rec.entries == []
    requires var r, s := t.core.rec, u.core.rec;
      && r.queue == s.queue && r.PassedSlot() == s.PassedSlot()
      && r.ticksPerSlot == s.ticksPerSlot && r.clock.perTick == s.clock.perTick
    ensures Inv(k, lead, u)
  {
    var c := t.core.collected;
    if t.core.Leading(lead) && t.opening.AfterGap? {
      assert (c + es)[0] == c[0] && (c + es)[1..] == c[1..] + es;
    }
    WithinSlot(k, lead, t, u);
  }

  /** Unless the flush ends a slot it just hands over. */
  lemma FlushInSlot(k: Codec, lead: nat -> bool, t: Trace, s: Recorder.State, es: seq<Entry>)
    requires var (s', tick) := Recorder.TickSlot(k, t.core.rec.(entries := []));
      && s == s'
      && es == (match tick case Some(e) => t.core.rec.entries + [e] case None => t.core.rec.entries)
      && (tick.Some? ==> !s.AtSlotEnd())
    requires s.PassedSlot() == t.core.rec.PassedSlot() && NoTicks(t.core.rec.entries)
    ensures FlushTrace(k, lead, t) == HandedOver(lead, t, s, es)
  {
    if es == [] {
      assert t.core.collected + es == t.core.collected && t.slotLog + es == t.slotLog;
    }
  }

  lemma QuietFlush(k: Codec, lead: nat -> bool, t: Trace)
    requires SlotInv(k, t)
    requires Recorder.TickSlot(k, t.core.rec.(entries := [])).1.None?
    ensures FlushTrace(k, lead, t) == HandedOver(lead, t, t.core.rec.(entries := []), t.core.rec.entries)
  {
    var s, es := t.core.rec.(entries := []), t.core.rec.entries;
    SlotOkTick(k, Boundary(t.core.rec), s, t.slotLog + es);
    FlushInSlot(k, lead, t, s, es);
  }

  lemma FlushWithoutTick(k: Codec, lead: nat -> bool, t: Trace)
    requires Inv(k, lead, t)
    requires Recorder.TickSlot(k, t.core.rec.(entries := [])).1.None?
    ensures Inv(k, lead, FlushTrace(k, lead, t))
  {
    var s, es := t.core.rec.(entries := []), t.core.rec.entries;
    QuietFlush(k, lead, t);
    QuietTicks(t.slotLog, es);
    assert (t.slotLog + es) + [] == t.slotLog + es;
    HandOver(k, lead, t, HandedOver(lead, t, s, es), es);
  }

  /** State of the recorder after a tick, in terms of the slot it ticked in. */
  lemma AfterTick(k: Codec, t: Trace) returns (s: Recorder.State, e: Entry, log: seq<Entry>)
    requires SlotInv(k, t)
    requires Recorder.TickSlot(k, t.core.rec.(entries := [])).1.Some?
    ensures (s, Some(e)) == Recorder.TickSlot(k, t.core.rec.(entries := []))
    ensures log == t.slotLog + (t.core.rec.entries + [e]) && s.entries == []
    ensures e.tick && s.clock == ResetClock(t.core.rec.clock, e.hash)
    ensures s.ticksPerSlot == t.core.rec.ticksPerSlot && s.tickHeight == t.core.rec.tickHeight + 1
    ensures SlotOk(k, Boundary(t.core.rec), s.clock, log)
    ensures Ticks(Events(log)) == t.core.rec.tickHeight % s.ticksPerSlot + 1
  {
    var r := t.core.rec;
    var full := t.slotLog + r.entries;
    SlotOkTick(k, Boundary(r), r.(entries := []), full);
    var (s', o) := Recorder.TickSlot(k, r.(entries := []));
    s, e := s', o.value;
    log := t.slotLog + (r.entries + [e]);
    assert log == full + [e];
    QuietTicks(t.slotLog, r.entries);
    EventsAppend(full, e);
    assert Events(log)[..|full|] == Events(full);
  }

  /** The slot goes on after the coming tick. */
  predicate InnerTickDue(k: Codec, r: Recorder.State) {
    Recorder.TickSlot(k, r.(entries := [])).1.Some? && r.tickHeight % r.ticksPerSlot + 1 < r.ticksPerSlot
  }

  /** The coming tick ends the slot. */
  predicate LastTickDue(k: Codec, r: Recorder.State) {
    Recorder.TickSlot(k, r.(entries := [])).1.Some? && r.tickHeight % r.ticksPerSlot + 1 == r.ticksPerSlot
  }

  lemma InnerTickFlush(k: Codec, lead: nat -> bool, t: Trace) returns (s: Recorder.State, e: Entry, log: seq<Entry>)
    requires SlotInv(k, t) && InnerTickDue(k, t.core.rec)
    ensures log == t.slotLog + (t.core.rec.entries + [e]) && e.txs == []
    ensures s.queue == t.core.rec.queue && s.PassedSlot() == t.core.rec.PassedSlot() && s.entries == []
    ensures s.ticksPerSlot == t.core.rec.ticksPerSlot && s.clock.perTick == t.core.rec.clock.perTick
    ensures SlotOk(k, Boundary(s), s.clock, log) && Ticks(Events(log)) == s.tickHeight % s.ticksPerSlot
    ensures FlushTrace(k, lead, t) == HandedOver(lead, t, s, t.core.rec.entries + [e])
  {
    s, e, log := AfterTick(k, t);
    SlotArithmetic(t.core.rec.tickHeight, s.ticksPerSlot);
    FlushInSlot(k, lead, t, s, t.core.rec.entries + [e]);
  }

  lemma FlushInnerTick(k: Codec, lead: nat -> bool, t: Trace)
    requires Inv(k, lead, t) && InnerTickDue(k, t.core.rec)
    ensures Inv(k, lead, FlushTrace(k, lead, t))
  {
    var s, e, log := InnerTickFlush(k, lead, t);
    var es := t.core.rec.entries + [e];
    assert log + [] == log;
    HandOver(k, lead, t, HandedOver(lead, t, s, es), es);
  }

  /** The tick that ends a slot: what is recorded as the boundary, and what stays of the old one. */
  lemma SlotEndTick(k: Codec, t: Trace) returns (s: Recorder.State, e: Entry, log: seq<Entry>)
    requires SlotInv(k, t) && LastTickDue(k, t.core.rec)
    ensures (s, Some(e)) == Recorder.TickSlot(k, t.core.rec.(entries := []))
    ensures log == t.slotLog + (t.core.rec.entries + [e]) && s.entries == []
    ensures s.ticksPerSlot >= 2 ==> t.slotLog != []
    ensures e.tick && e.txs == [] && s.AtSlotEnd() && s.clock == ResetClock(t.core.rec.clock, e.hash)
    ensures s.ticksPerSlot == t.core.rec.ticksPerSlot && s.PassedSlot() == t.core.rec.PassedSlot() + 1
    ensures s.PassedSlot() in s.queue && Boundary(s) == e.hash
    ensures Recorder.GetHash(s.queue, s.PassedSlot() - 1) == Boundary(t.core.rec)
    ensures SlotOk(k, Boundary(t.core.rec), s.clock, log)
    ensures Ticks(Events(log)) == s.ticksPerSlot
  {
    s, e, log := AfterTick(k, t);
    SlotArithmetic(t.core.rec.tickHeight, s.ticksPerSlot);
    assert Ticks(Events(t.slotLog)) == s.ticksPerSlot - 1;
  }

  lemma SlotEndBlock(k: Codec, prev: Hash, c: Clock, log: seq<Entry>, perTick: nat, ticksPerSlot: nat, p: Produced)
    requires SlotOk(k, prev, c, log) && c.numHashes == 0 && c.remaining == c.perTick == perTick
    requires Ticks(Events(log)) == ticksPerSlot && log != []
    requires p.blk.prevHash == prev && OwnEntries(p) == log
    requires p.opening.AfterGap? ==> p.blk.entries != [] && IsCarried(p.blk.entries[0], prev)
    requires p.opening.AtReset? ==> prev == p.opening.seed
    ensures BlockOk(k, perTick, ticksPerSlot, p)
  {
    OneTickLess(Hashes(Events(log)), perTick, ticksPerSlot);
  }

  lemma OneTickLess(hashes: nat, perTick: nat, ticks: nat)
    requires hashes + perTick == perTick * (ticks + 1)
    ensures hashes == perTick * ticks
  {
  }

  /** The trace after the tick `e` ended a led slot. */
  function AssembledTrace(t: Trace, s: Recorder.State, e: Entry): Trace {
    var b := SlotBlock(s.PassedSlot(), Boundary(t.core.rec), t.core.collected + (t.core.rec.entries + [e]));
    Trace(t.core.(rec := s, collected := []), t.blocks + [Produced(b, t.opening)], [], AfterBlock)
  }

  lemma FlushAtSlotEnd(k: Codec, lead: nat -> bool, t: Trace, s: Recorder.State, e: Entry)
    requires (s, Some(e)) == Recorder.TickSlot(k, t.core.rec.(entries := []))
    requires e.tick && s.AtSlotEnd() && s.PassedSlot() == t.core.rec.PassedSlot() + 1
    requires Recorder.GetHash(s.queue, s.PassedSlot() - 1) == Boundary(t.core.rec)
    requires t.core.Leading(lead) && BufferInv(lead, t) && t.slotLog != []
    ensures FlushTrace(k, lead, t) == AssembledTrace(t, s, e)
  {
    assert t.core.collected != [];
  }

  lemma AssemblingFlush(k: Codec, lead: nat -> bool, t: Trace) returns (s: Recorder.State, e: Entry, log: seq<Entry>)
    requires Configured(t.core) && SlotInv(k, t) && LastTickDue(k, t.core.rec)
    requires t.core.Leading(lead) && BufferInv(lead, t)
    ensures log == t.slotLog + (t.core.rec.entries + [e]) && s.entries == [] && t.slotLog != []
    ensures e.txs == [] && s.AtSlotEnd() && s.clock == ResetClock(t.core.rec.clock, e.hash)
    ensures s.ticksPerSlot == t.core.rec.ticksPerSlot && s.PassedSlot() == t.core.rec.PassedSlot() + 1
    ensures s.PassedSlot() in s.queue && Boundary(s) == e.hash
    ensures SlotOk(k, Boundary(t.core.rec), s.clock, log) && Ticks(Events(log)) == s.ticksPerSlot
    ensures FlushTrace(k, lead, t) == AssembledTrace(t, s, e)
  {
    s, e, log := SlotEndTick(k, t);
    FlushAtSlotEnd(k, lead, t, s, e);
  }

  /** The slot after one that became a block begins empty. */
  lemma AssembledSlot(k: Codec, lead: nat -> bool, t: Trace, s: Recorder.State, e: Entry)
    requires SlotInv(k, t) && s.entries == [] && s.AtSlotEnd() && s.clock == ResetClock(t.core.rec.clock, e.hash)
    requires s.ticksPerSlot == t.core.rec.ticksPerSlot && s.PassedSlot() in s.queue && Boundary(s) == e.hash
    ensures SlotInv(k, AssembledTrace(t, s, e)) && BufferInv(lead, AssembledTrace(t, s, e))
  {
    var u := AssembledTrace(t, s, e);
    SlotOkAtReset(k, t.core.rec.clock, e.hash);
    assert u.slotLog + u.core.rec.entries == [];
  }

  lemma FlushAssembles(k: Codec, lead: nat -> bool, t: Trace)
    requires Inv(k, lead, t) && LastTickDue(k, t.core.rec) && t.core.Leading(lead)
    ensures Inv(k, lead, FlushTrace(k, lead, t))
  {
    var s, e, log := AssemblingFlush(k, lead, t);
    var u := AssembledTrace(t, s, e);
    var p := u.blocks[|t.blocks|];
    AssembledBlock(k, lead, t, s, e, log, p);
    AssembledSlot(k, lead, t, s, e);
    AppendedBlock(k, lead, t, u, p);
  }

  lemma AssembledBlock(k: Codec, lead: nat -> bool, t: Trace, s: Recorder.State, e: Entry, log: seq<Entry>, p: Produced)
    requires BufferInv(lead, t) && t.core.Leading(lead) && t.slotLog != []
    requires t.opening.AtReset? ==> Boundary(t.core.rec) == t.opening.seed
    requires log == t.slotLog + (t.core.rec.entries + [e])
    requires SlotOk(k, Boundary(t.core.rec), s.clock, log) && s.clock.numHashes == 0
      && s.clock.remaining == s.clock.perTick
    requires Ticks(Events(log)) == s.ticksPerSlot
    requires p.opening == t.opening && p.blk.prevHash == Boundary(t.core.rec)
    requires p.blk.entries == t.core.collected + (t.core.rec.entries + [e])
    ensures BlockOk(k, s.clock.perTick, s.ticksPerSlot, p)
    ensures LastHash(ZERO_HASH, p.blk.entries) == e.hash
  {
    var c := t.core.collected;
    var es := t.core.rec.entries + [e];
    if t.opening.AfterGap? {
      assert (c + es)[0] == c[0] && (c + es)[1..] == c[1..] + es;
    }
    assert (c + es)[|c + es| - 1] == e;
    SlotEndBlock(k, Boundary(t.core.rec), s.clock, log, s.clock.perTick, s.ticksPerSlot, p);
  }

  lemma AppendedLinked(blocks: seq<Produced>, p: Produced)
    requires LinkedBlocks(blocks)
    requires p.opening.AfterBlock? ==> blocks != [] && Follows(blocks[|blocks| - 1], p)
    ensures LinkedBlocks(blocks + [p])
  {
    var all := blocks + [p];
    forall i | 0 <= i < |all| && all[i].opening.AfterBlock?
      ensures i > 0 && Follows(all[i - 1], all[i])
    {
      if i < |blocks| {
        assert blocks[i].opening.AfterBlock?;
      }
    }
  }

  lemma AppendedBlock(k: Codec, lead: nat -> bool, t: Trace, u: Trace, p: Produced)
    requires BlocksInv(k, lead, t) && u.blocks == t.blocks + [p]
    requires BlockOk(k, t.core.rec.clock.perTick, t.core.rec.ticksPerSlot, p)
    requires p.opening == t.opening && p.blk.prevHash == Boundary(t.core.rec)
      && p.blk.slot == t.core.rec.PassedSlot() + 1
    requires t.core.Leading(lead) && u.opening.AfterBlock?
    requires u.core.rec.clock.perTick == t.core.rec.clock.perTick && u.core.rec.ticksPerSlot == t.core.rec.ticksPerSlot
    requires EndsAt(p, u.core.rec.PassedSlot(), Boundary(u.core.rec))
    ensures BlocksInv(k, lead, u)
  {
    AppendedLinked(t.blocks, p);
    forall i | 0 <= i < |u.blocks|
      ensures BlockOk(k, u.core.rec.clock.perTick, u.core.rec.ticksPerSlot, u.blocks[i])
      ensures BlockSlotOk(lead, u.blocks[i])
    {
      assert i < |t.blocks| ==> u.blocks[i] == t.blocks[i];
    }
  }

  /** The trace after the tick `e` ended a slot that was not being led. */
  function DroppedTrace(lead: nat -> bool, t: Trace, s: Recorder.State, e: Entry): Trace {
    var c := t.core.(rec := s);
    Trace(c.(collected := if c.Leading(lead) then [e] else []), t.blocks, [], AfterGap)
  }

  lemma DroppingFlush(k: Codec, lead: nat -> bool, t: Trace) returns (s: Recorder.State, e: Entry)
    requires SlotInv(k, t) && LastTickDue(k, t.core.rec)
    requires !t.core.Leading(lead) && BufferInv(lead, t)
    ensures EntryOk(e) && e.tick && e.txs == []
    ensures s.entries == [] && s.AtSlotEnd() && s.clock == ResetClock(t.core.rec.clock, e.hash)
    ensures s.ticksPerSlot == t.core.rec.ticksPerSlot && s.PassedSlot() == t.core.rec.PassedSlot() + 1
    ensures s.PassedSlot() in s.queue && Boundary(s) == e.hash
    ensures FlushTrace(k, lead, t) == DroppedTrace(lead, t, s, e)
  {
    var s', e', log := SlotEndTick(k, t);
    s, e := s', e';
    assert log[|log| - 1] == e;
    assert t.core.rec.entries + [e] == [e];
    assert t.core.collected + [e] == [e];
  }

  lemma FlushDropsSlot(k: Codec, lead: nat -> bool, t: Trace)
    requires Inv(k, lead, t) && LastTickDue(k, t.core.rec) && !t.core.Leading(lead)
    ensures Inv(k, lead, FlushTrace(k, lead, t))
  {
    var s, e := DroppingFlush(k, lead, t);
    var u := DroppedTrace(lead, t, s, e);
    SlotOkAtReset(k, s.clock, e.hash);
    assert u.slotLog + u.core.rec.entries == [];
  }

  // ----- Runs -----------------------------------------------------------------------------------

  lemma FlushStep(k: Codec, lead: nat -> bool, t: Trace)
    requires Inv(k, lead, t)
    ensures Inv(k, lead, FlushTrace(k, lead, t))
  {
    var r := t.core.rec;
    if Recorder.TickSlot(k, r.(entries := [])).1.None? {
      FlushWithoutTick(k, lead, t);
    } else if InnerTickDue(k, r) {
      FlushInnerTick(k, lead, t);
    } else if t.core.Leading(lead) {
      FlushAssembles(k, lead, t);
    } else {
      FlushDropsSlot(k, lead, t);
    }
  }

  lemma SlotStartStep(k: Codec, lead: nat -> bool, t: Trace, slot: nat, seed: Hash)
    requires Inv(k, lead, t)
    ensures Inv(k, lead, Next(k, lead, t, DoSlotStart(slot, seed)))
  {
    if slot > 0 && lead(slot) && !t.core.Ready() {
      ResetStep(k, lead, t, SlotStart(t.core, slot, seed), seed, slot - 1);
    }
  }

  lemma FollowerStep(k: Codec, lead: nat -> bool, t: Trace, seed: Hash, slot: nat)
    requires Inv(k, lead, t)
    ensures Inv(k, lead, Next(k, lead, t, DoFollowerReset(seed, slot)))
  {
    if !lead(t.core.rec.CurrentSlot()) && !lead(slot) {
      ResetStep(k, lead, t, FollowerReset(lead, t.core, seed, slot), seed, slot);
    }
  }

  lemma SlotEndStep(k: Codec, lead: nat -> bool, t: Trace)
    requires Inv(k, lead, t)
    ensures Inv(k, lead, Next(k, lead, t, DoSlotEnd))
  {
  }

  lemma StepKeepsInv(k: Codec, lead: nat -> bool, t: Trace, s: Step)
    requires Inv(k, lead, t)
    ensures Inv(k, lead, Next(k, lead, t, s))
  {
    match s
    case DoAutoHash => AutoHashStep(k, lead, t);
    case DoBatch(pulled) => BatchStep(k, lead, t, pulled);
    case DoFlush => FlushStep(k, lead, t);
    case DoSlotStart(slot, seed) => SlotStartStep(k, lead, t, slot, seed);
    case DoSlotEnd => SlotEndStep(k, lead, t);
    case DoFollowerReset(seed, slot) => FollowerStep(k, lead, t, seed, slot);
  }

  lemma {:induction false} RunKeepsInv(k: Codec, lead: nat -> bool, t: Trace, steps: seq<Step>)
    requires Inv(k, lead, t)
    ensures Inv(k, lead, RunSteps(k, lead, t, steps))
  {
    if steps != [] {
      RunKeepsInv(k, lead, t, steps[..|steps| - 1]);
      StepKeepsInv(k, lead, RunSteps(k, lead, t, steps[..|steps| - 1]), steps[|steps| - 1]);
    }
  }

  // ----- What every run produces ----------------------------------------------------------------

  /** A pipeline that has just started to lead `slot`. */
  function Started(c: Core, slot: nat, seed: Hash): Trace
    requires slot > 0
  {
    Trace(SlotStart(c, slot, seed), [], [], AtReset(seed))
  }

  lemma StartedInv(k: Codec, lead: nat -> bool, c: Core, slot: nat, seed: Hash)
    requires Configured(c) && slot > 0
    ensures Inv(k, lead, Started(c, slot, seed))
  {
    var t := Trace(c.(leaderStart := None), [], [], AtReset(Boundary(c.rec)));
    ResetStep(k, lead, t, SlotStart(c, slot, seed), seed, slot - 1);
  }

  ghost predicate TxsOk(k: Codec, es: seq<Entry>) {
    forall i, j :: 0 <= i < |es| && 0 <= j < |es[i].txs| ==> TxShapeOk(k, es[i].txs[j])
  }

  /** What is known of a produced block. Its slot is led. If its slot began with a reset it starts from
      the seed of that reset. Unless its slot began after a gap it holds
      exactly ticksPerSlot ticks, and the checker accepts it from its own previous hash exactly when
      it has few enough entries and its transactions are well formed. After a gap it holds one tick
      too many, and the checker accepts it exactly if, besides, the hash chain happens to loop back to
      where it started over the extra tick. */
  ghost predicate Verdict(k: Codec, lead: nat -> bool, perTick: nat, ticksPerSlot: nat, p: Produced) {
    var es := p.blk.entries;
    && BlockSlotOk(lead, p)
    && es != []
    && (p.opening.AtReset? ==> p.blk.prevHash == p.opening.seed)
    && Ticks(Events(es)) == ticksPerSlot + (if p.opening.AfterGap? then 1 else 0)
    && |OwnEntries(p)| <= perTick * ticksPerSlot
    && (Accepts(k, p.blk.prevHash, es) <==>
          && |es| <= MAX_ENTRIES_PER_SLOT && TxsOk(k, es)
          && (p.opening.AfterGap? ==> Iterate(k.sha, p.blk.prevHash, es[0].numHashes) == p.blk.prevHash))
  }

  /** Whether the checker accepts entries that are well shaped and linked, but for a tick in front that
      ends where they start. */
  lemma AcceptsCarried(k: Codec, prev: Hash, e: Entry, own: seq<Entry>)
    requires IsCarried(e, prev) && AllOk(own) && Linked(k, prev, own)
    ensures Accepts(k, prev, [e] + own) <==>
      |own| < MAX_ENTRIES_PER_SLOT && TxsOk(k, [e] + own) && Iterate(k.sha, prev, e.numHashes) == prev
  {
    LinkedPrepend(k, prev, e, own);
    ShapeSplits(k, [e] + own);
  }

  lemma CountVerdict(k: Codec, perTick: nat, ticksPerSlot: nat, p: Produced)
    requires BlockOk(k, perTick, ticksPerSlot, p)
    ensures Ticks(Events(p.blk.entries)) == ticksPerSlot + (if p.opening.AfterGap? then 1 else 0)
    ensures |OwnEntries(p)| <= perTick * ticksPerSlot
  {
    var es, own := p.blk.entries, OwnEntries(p);
    assert forall i :: 0 <= i < |own| ==> Events(own)[i].numHashes == own[i].numHashes;
    AtLeastOneHashEach(Events(own));
    if p.opening.AfterGap? {
      assert es == [es[0]] + own;
      TicksPrepend(es[0], own);
    }
  }

  lemma BlockVerdict(k: Codec, lead: nat -> bool, perTick: nat, ticksPerSlot: nat, p: Produced)
    requires BlockOk(k, perTick, ticksPerSlot, p) && BlockSlotOk(lead, p)
    ensures Verdict(k, lead, perTick, ticksPerSlot, p)
  {
    CountVerdict(k, perTick, ticksPerSlot, p);
    if p.opening.AfterGap? {
      assert p.blk.entries == [p.blk.entries[0]] + OwnEntries(p);
      AcceptsCarried(k, p.blk.prevHash, p.blk.entries[0], OwnEntries(p));
    } else {
      ShapeSplits(k, p.blk.entries);
    }
  }

  lemma {:induction false} TicksPrepend(e: Entry, es: seq<Entry>)
    ensures Ticks(Events([e] + es)) == Ticks(Events(es)) + if e.tick then 1 else 0
  {
    if es == [] {
      assert [e] + es == [] + [e];
      EventsAppend([], e);
      assert Events([e])[..0] == [];
    } else {
      var front, last := es[..|es| - 1], es[|es| - 1];
      TicksPrepend(e, front);
      assert [e] + es == ([e] + front) + [last] && es == front + [last];
      EventsAppend([e] + front, last);
      EventsAppend(front, last);
      assert Events([e] + es)[..|es|] == Events([e] + front);
      assert Events(es)[..|front|] == Events(front);
    }
  }

  lemma ShapeSplits(k: Codec, es: seq<Entry>)
    requires AllOk(es)
    ensures (forall i :: 0 <= i < |es| ==> EntryShapeOk(k, es[i])) <==> TxsOk(k, es)
  {
    if TxsOk(k, es) {
      forall i | 0 <= i < |es|
        ensures EntryShapeOk(k, es[i])
      {
        assert EntryOk(es[i]);
      }
    }
  }

  /** The pipeline theorem: for every schedule and every interleaving of hashing, batching, flushing,
      slot starts, slot ends and follower resets, each block handed over is as Verdict says, and a
      block whose slot began after a block starts from that block's last entry hash. */
  lemma ProducedBlocksVerify(k: Codec, lead: nat -> bool, c: Core, slot: nat, seed: Hash, steps: seq<Step>)
    requires Configured(c) && slot > 0
    ensures var t := RunSteps(k, lead, Started(c, slot, seed), steps);
      && (forall i :: 0 <= i < |t.blocks| ==>
            Verdict(k, lead, t.core.rec.clock.perTick, t.core.rec.ticksPerSlot, t.blocks[i]))
      && LinkedBlocks(t.blocks)
  {
    var t := RunSteps(k, lead, Started(c, slot, seed), steps);
    StartedInv(k, lead, c, slot, seed);
    RunKeepsInv(k, lead, Started(c, slot, seed), steps);
    forall i | 0 <= i < |t.blocks|
      ensures Verdict(k, lead, t.core.rec.clock.perTick, t.core.rec.ticksPerSlot, t.blocks[i])
    {
      BlockVerdict(k, lead, t.core.rec.clock.perTick, t.core.rec.ticksPerSlot, t.blocks[i]);
    }
  }

  /** So a block whose slot did not begin at a reset holds the right number of ticks exactly when this
      node led the slot before as well. */
  lemma ExtraTickAfterGap(k: Codec, lead: nat -> bool, c: Core, slot: nat, seed: Hash, steps: seq<Step>, i: nat)
    requires Configured(c) && slot > 0
    requires var t := RunSteps(k, lead, Started(c, slot, seed), steps); i < |t.blocks| && !t.blocks[i].opening.AtReset?
    ensures var t := RunSteps(k, lead, Started(c, slot, seed), steps);
      var b := t.blocks[i].blk;
      b.slot > 0 && (Ticks(Events(b.entries)) == t.core.rec.ticksPerSlot <==> lead(b.slot - 1))
  {
    ProducedBlocksVerify(k, lead, c, slot, seed, steps);
    var t := RunSteps(k, lead, Started(c, slot, seed), steps);
    assert Verdict(k, lead, t.core.rec.clock.perTick, t.core.rec.ticksPerSlot, t.blocks[i]);
  }

  /** How that comes about: a node that is still ready at the last tick of a slot it does not lead puts
      that tick first into the block of the next slot, if it leads that one. */
  lemma GapOpens(k: Codec, lead: nat -> bool, t: Trace)
    requires Inv(k, lead, t) && LastTickDue(k, t.core.rec) && t.core.Ready()
    requires !lead(t.core.rec.CurrentSlot()) && lead(t.core.rec.CurrentSlot() + 1)
    ensures var u := FlushTrace(k, lead, t);
      && u.core.Leading(lead) && u.opening.AfterGap?
      && |u.core.collected| == 1 && u.core.collected[0].tick && u.core.collected[0].hash == Boundary(u.core.rec)
  {
    var s, e := DroppingFlush(k, lead, t);
  }

  // ----- Where pulled transactions go -----------------------------------------------------------

  function BlockTxs(blocks: seq<Produced>): seq<Transaction> {
    if blocks == [] then [] else BlockTxs(blocks[..|blocks| - 1]) + Transactions(blocks[|blocks| - 1].blk.entries)
  }

  /** Where transactions are, oldest first: in blocks, in the buffer, in the recorder, pending. */
  function FlowOf(blocks: seq<Produced>, collected: seq<Entry>, recorded: seq<Entry>,
      pending: seq<Transaction>): seq<Transaction> {
    BlockTxs(blocks) + Transactions(collected) + Transactions(recorded) + pending
  }

  function Flow(t: Trace): seq<Transaction> {
    FlowOf(t.blocks, t.core.collected, t.core.rec.entries, t.core.pending)
  }

  /** What a step takes from the mempool. */
  function Takes(lead: nat -> bool, t: Trace, s: Step): seq<Transaction> {
    if s.DoBatch? && t.core.Leading(lead) then s.pulled else []
  }

  /** What the batch loop took from the mempool in a run. */
  function Pulled(k: Codec, lead: nat -> bool, t: Trace, steps: seq<Step>): seq<Transaction> {
    if steps == [] then [] else
    var front := steps[..|steps| - 1];
    Pulled(k, lead, t, front) + Takes(lead, RunSteps(k, lead, t, front), steps[|steps| - 1])
  }

  /** A slot start that takes effect; it empties the pending list. */
  predicate Starts(lead: nat -> bool, t: Trace, s: Step) {
    s.DoSlotStart? && s.slot > 0 && lead(s.slot) && !t.core.Ready()
  }

  /** What slot starts threw away in a run. */
  function Lost(k: Codec, lead: nat -> bool, t: Trace, steps: seq<Step>): seq<Transaction> {
    if steps == [] then [] else
    var front := steps[..|steps| - 1];
    var u := RunSteps(k, lead, t, front);
    Lost(k, lead, t, front) + if Starts(lead, u, steps[|steps| - 1]) then u.core.pending else []
  }

  function CutTail(s: seq<Transaction>, n: nat): seq<Transaction> {
    if n <= |s| then s[..|s| - n] else []
  }

  /** What was taken, in order, cut short by the pending list at every slot start. */
  function Kept(k: Codec, lead: nat -> bool, t: Trace, steps: seq<Step>): seq<Transaction> {
    if steps == [] then [] else
    var front := steps[..|steps| - 1];
    var u, kept := RunSteps(k, lead, t, front), Kept(k, lead, t, front);
    if Starts(lead, u, steps[|steps| - 1]) then CutTail(kept, |u.core.pending|)
    else kept + Takes(lead, u, steps[|steps| - 1])
  }

  lemma Reassociate(a: seq<Transaction>, b: seq<Transaction>, c: seq<Transaction>, d: seq<Transaction>)
    ensures a + (b + c) + d == a + b + (c + d)
  {
  }

  lemma FlowRecorded(blocks: seq<Produced>, collected: seq<Entry>, recorded: seq<Entry>, pending: seq<Transaction>,
      e: Entry)
    requires e.txs <= pending
    ensures FlowOf(blocks, collected, recorded + [e], pending[|e.txs|..])
      == FlowOf(blocks, collected, recorded, pending)
  {
    var rest := pending[|e.txs|..];
    assert pending == e.txs + rest;
    assert Transactions(recorded + [e]) == Transactions(recorded) + e.txs by {
      TransactionsConcat(recorded, [e]);
      assert [e][1..] == [];
      assert Transactions([e]) == e.txs;
    }
    Reassociate(BlockTxs(blocks) + Transactions(collected), Transactions(recorded), e.txs, rest);
  }

  lemma FlowHandedOver(blocks: seq<Produced>, collected: seq<Entry>, recorded: seq<Entry>, pending: seq<Transaction>,
      tick: seq<Entry>)
    requires Transactions(tick) == []
    ensures FlowOf(blocks, collected + (recorded + tick), [], pending) == FlowOf(blocks, collected, recorded, pending)
    ensures forall p: Produced :: p.blk.entries == collected + (recorded + tick) ==>
      FlowOf(blocks + [p], [], [], pending) == FlowOf(blocks, collected, recorded, pending)
  {
    TransactionsConcat(recorded, tick);
    TransactionsConcat(collected, recorded + tick);
    forall p: Produced | p.blk.entries == collected + (recorded + tick)
      ensures BlockTxs(blocks + [p]) == BlockTxs(blocks) + Transactions(p.blk.entries)
    {
      assert (blocks + [p])[..|blocks|] == blocks;
    }
  }

  lemma FlowBatch(k: Codec, lead: nat -> bool, t: Trace, pulled: seq<Transaction>)
    requires Inv(k, lead, t) && t.core.Leading(lead)
    ensures Flow(Next(k, lead, t, DoBatch(pulled))) == Flow(t) + pulled
  {
    var d := t.core.(pending := t.core.pending + pulled);
    var f := FlowOf(t.blocks, d.collected, d.rec.entries, d.pending);
    assert f == Flow(t) + pulled;
    if d.pending != [] {
      var txs := Peek(d);
      SlotOkRecord(k, Boundary(d.rec), d.rec, t.slotLog + d.rec.entries, txs);
      var (rec, out) := Recorder.RecordTxs(k, d.rec, txs);
      if out.Recorded? {
        FlowRecorded(t.blocks, d.collected, d.rec.entries, d.pending, out.entry);
        assert Next(k, lead, t, DoBatch(pulled)) == t.(core := d.(rec := rec, pending := d.pending[|txs|..]));
      } else {
        assert Next(k, lead, t, DoBatch(pulled)) == t.(core := d);
      }
    }
  }

  lemma FlowInSlot(lead: nat -> bool, t: Trace, s: Recorder.State, tick: seq<Entry>)
    requires Transactions(tick) == [] && s.entries == []
    requires !t.core.Leading(lead) ==> t.core.rec.entries == []
    ensures Flow(HandedOver(lead, t, s, t.core.rec.entries + tick)) == Flow(t)
  {
    FlowHandedOver(t.blocks, t.core.collected, t.core.rec.entries, t.core.pending, tick);
  }

  lemma FlowWithinSlot(k: Codec, lead: nat -> bool, t: Trace)
    requires SlotInv(k, t) && BufferInv(lead, t)
    requires Recorder.TickSlot(k, t.core.rec.(entries := [])).1.None? || InnerTickDue(k, t.core.rec)
    ensures Flow(FlushTrace(k, lead, t)) == Flow(t)
  {
    var r := t.core.rec;
    if InnerTickDue(k, r) {
      var s, e, _ := InnerTickFlush(k, lead, t);
      assert [e][1..] == [];
      FlowInSlot(lead, t, s, [e]);
    } else {
      QuietFlush(k, lead, t);
      assert r.entries + [] == r.entries;
      FlowInSlot(lead, t, r.(entries := []), []);
    }
  }

  lemma FlowSlotEnd(k: Codec, lead: nat -> bool, t: Trace)
    requires Configured(t.core) && SlotInv(k, t) && BufferInv(lead, t) && LastTickDue(k, t.core.rec)
    ensures Flow(FlushTrace(k, lead, t)) == Flow(t)
  {
    if t.core.Leading(lead) {
      var s, e, _ := AssemblingFlush(k, lead, t);
      assert [e][1..] == [];
      FlowHandedOver(t.blocks, t.core.collected, t.core.rec.entries, t.core.pending, [e]);
    } else {
      var s, e := DroppingFlush(k, lead, t);
      assert [e][1..] == [];
    }
  }

  /** A slot start loses the pending list and nothing else: buffer and recorder are empty by then. */
  lemma FlowStart(k: Codec, lead: nat -> bool, t: Trace, s: Step)
    requires Inv(k, lead, t) && Starts(lead, t, s)
    ensures Flow(t) == Flow(Next(k, lead, t, s)) + t.core.pending
  {
  }

  lemma FlowStep(k: Codec, lead: nat -> bool, t: Trace, s: Step)
    requires Inv(k, lead, t) && !Starts(lead, t, s)
    ensures Flow(Next(k, lead, t, s)) == Flow(t) + Takes(lead, t, s)
  {
    if s.DoFlush? && LastTickDue(k, t.core.rec) {
      FlowSlotEnd(k, lead, t);
    } else if s.DoFlush? {
      FlowWithinSlot(k, lead, t);
    } else if s.DoBatch? && t.core.Leading(lead) {
      FlowBatch(k, lead, t, s.pulled);
    } else {
      assert Flow(Next(k, lead, t, s)) == Flow(t);
    }
  }

  /** Every slot start that takes effect finds the pending list empty. */
  predicate NothingPending(k: Codec, lead: nat -> bool, t: Trace, steps: seq<Step>) {
    steps == [] ||
    var u := RunSteps(k, lead, t, steps[..|steps| - 1]);
    NothingPending(k, lead, t, steps[..|steps| - 1]) && (Starts(lead, u, steps[|steps| - 1]) ==> u.core.pending == [])
  }

  lemma {:induction false} LostIsPending(k: Codec, lead: nat -> bool, t: Trace, steps: seq<Step>)
    ensures Lost(k, lead, t, steps) == [] <==> NothingPending(k, lead, t, steps)
  {
    if steps != [] {
      LostIsPending(k, lead, t, steps[..|steps| - 1]);
    }
  }

  lemma {:induction false} FlowIsKept(k: Codec, lead: nat -> bool, t: Trace, steps: seq<Step>)
    requires Inv(k, lead, t) && Flow(t) == []
    ensures Flow(RunSteps(k, lead, t, steps)) == Kept(k, lead, t, steps)
  {
    if steps != [] {
      var front, s := steps[..|steps| - 1], steps[|steps| - 1];
      var u := RunSteps(k, lead, t, front);
      FlowIsKept(k, lead, t, front);
      RunKeepsInv(k, lead, t, front);
      if Starts(lead, u, s) {
        FlowStart(k, lead, u, s);
      } else {
        FlowStep(k, lead, u, s);
      }
    }
  }

  /** Flow and what was lost make up what was pulled. */
  predicate Balanced(flow: seq<Transaction>, lost: seq<Transaction>, pulled: seq<Transaction>) {
    multiset(flow) + multiset(lost) == multiset(pulled) && (lost == [] ==> flow == pulled)
  }

  lemma BalanceStart(flow: seq<Transaction>, pending: seq<Transaction>, lost: seq<Transaction>,
      pulled: seq<Transaction>)
    requires Balanced(flow + pending, lost, pulled)
    ensures Balanced(flow, lost + pending, pulled + [])
  {
    assert pulled + [] == pulled;
    if lost + pending == [] {
      assert flow + pending == flow;
    }
  }

  lemma BalanceTake(flow: seq<Transaction>, taken: seq<Transaction>, lost: seq<Transaction>, pulled: seq<Transaction>)
    requires Balanced(flow, lost, pulled)
    ensures Balanced(flow + taken, lost + [], pulled + taken)
  {
    assert lost + [] == lost;
  }

  lemma {:induction false} FlowBalance(k: Codec, lead: nat -> bool, t: Trace, steps: seq<Step>)
    requires Inv(k, lead, t) && Flow(t) == []
    ensures Balanced(Flow(RunSteps(k, lead, t, steps)), Lost(k, lead, t, steps), Pulled(k, lead, t, steps))
  {
    if steps != [] {
      var front, s := steps[..|steps| - 1], steps[|steps| - 1];
      var u := RunSteps(k, lead, t, front);
      FlowBalance(k, lead, t, front);
      RunKeepsInv(k, lead, t, front);
      var lost, pulled := Lost(k, lead, t, front), Pulled(k, lead, t, front);
      if Starts(lead, u, s) {
        FlowStart(k, lead, u, s);
        BalanceStart(Flow(Next(k, lead, u, s)), u.core.pending, lost, pulled);
      } else {
        FlowStep(k, lead, u, s);
        BalanceTake(Flow(u), Takes(lead, u, s), lost, pulled);
      }
    }
  }

  /** For every run: the transactions in blocks, buffer, recorder and pending list are, in this order,
      those pulled from the mempool without the pending lists that slot starts threw away; pulled
      transactions are there or were thrown away, each once; and they are all there exactly when every
      slot start that took effect found nothing pending. */
  lemma PulledInOrder(k: Codec, lead: nat -> bool, c: Core, slot: nat, seed: Hash, steps: seq<Step>)
    requires Configured(c) && slot > 0
    ensures var t := Started(c, slot, seed);
      var f, pulled, lost := Flow(RunSteps(k, lead, t, steps)), Pulled(k, lead, t, steps), Lost(k, lead, t, steps);
      && f == Kept(k, lead, t, steps)
      && multiset(f) + multiset(lost) == multiset(pulled)
      && (f == pulled <==> NothingPending(k, lead, t, steps))
  {
    var t := Started(c, slot, seed);
    StartedInv(k, lead, c, slot, seed);
    FlowIsKept(k, lead, t, steps);
    FlowBalance(k, lead, t, steps);
    LostIsPending(k, lead, t, steps);
    var f, pulled, lost := Flow(RunSteps(k, lead, t, steps)), Pulled(k, lead, t, steps), Lost(k, lead, t, steps);
    assert |multiset(f)| + |multiset(lost)| == |multiset(pulled)|;
  }
}
