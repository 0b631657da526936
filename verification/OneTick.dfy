/** The leader pipeline with one tick per slot. Every tick then ends a slot, and what opens the buffer is
    not a tick of the slot but an entry flushed before it, or the whole of a slot that gave no block. */
module OneTick {
  import opened Base
  import opened Poh
  import opened Verify
  import opened Leader
  import opened LeaderProof
  import Recorder

  // ----- Entries of the slot before -------------------------------------------------------------

  /** Entries up to and including the first tick. */
  function UpToTick(es: seq<Entry>): (r: seq<Entry>)
    ensures r <= es
  {
    if es == [] then [] else if es[0].tick then [es[0]] else [es[0]] + UpToTick(es[1..])
  }

  /** One whole slot with its only tick at the end, which is at `boundary`; or nothing. */
  ghost predicate IsSlotEnding(es: seq<Entry>, boundary: Hash) {
    es != [] ==>
      && AllOk(es) && NoTicks(es[..|es| - 1])
      && es[|es| - 1].tick && es[|es| - 1].hash == boundary
  }

  lemma {:induction false} UpToTickIs(a: seq<Entry>, b: seq<Entry>)
    requires a != [] && NoTicks(a[..|a| - 1]) && a[|a| - 1].tick
    ensures UpToTick(a + b) == a
  {
    assert (a + b)[0] == a[0] && (a + b)[1..] == a[1..] + b;
    if |a| > 1 {
      assert a[..|a| - 1][0] == a[0];
      assert a[1..][..|a| - 2] == a[..|a| - 1][1..];
      UpToTickIs(a[1..], b);
    } else {
      assert a == [a[0]];
    }
  }

  lemma {:induction false} TicksConcat(a: seq<Entry>, b: seq<Entry>)
    ensures Ticks(Events(a + b)) == Ticks(Events(a)) + Ticks(Events(b))
  {
    if b == [] {
      assert a + b == a;
    } else {
      var front, last := b[..|b| - 1], b[|b| - 1];
      TicksConcat(a, front);
      assert a + b == (a + front) + [last] && b == front + [last];
      EventsAppend(a + front, last);
      EventsAppend(front, last);
      assert Events(a + b)[..|a + front|] == Events(a + front);
      assert Events(b)[..|front|] == Events(front);
    }
  }

  lemma SlotEndingTicks(es: seq<Entry>, boundary: Hash)
    requires IsSlotEnding(es, boundary)
    ensures Ticks(Events(es)) == if es == [] then 0 else 1
  {
    if es != [] {
      var front, last := es[..|es| - 1], es[|es| - 1];
      assert es == front + [last];
      TicksConcat(front, [last]);
      assert [] + front == front;
      QuietTicks([], front);
      TicksPrepend(last, []);
      assert [last] + [] == [last];
    }
  }

  lemma LinkedConcat(k: Codec, prev: Hash, a: seq<Entry>, b: seq<Entry>)
    ensures Linked(k, prev, a + b) <==> Linked(k, prev, a) && Linked(k, LastHash(prev, a), b)
  {
    forall i | 0 <= i < |a|
      ensures Continues(k, prev, a + b, i) <==> Continues(k, prev, a, i)
    {
      assert (a + b)[..i] == a[..i];
    }
    forall i | 0 <= i < |b|
      ensures Continues(k, prev, a + b, |a| + i) <==> Continues(k, LastHash(prev, a), b, i)
    {
      assert (a + b)[..|a| + i] == a + b[..i];
    }
    if Linked(k, prev, a) && Linked(k, LastHash(prev, a), b) {
      forall i | 0 <= i < |a + b|
        ensures Continues(k, prev, a + b, i)
      {
        if i >= |a| {
          assert Continues(k, LastHash(prev, a), b, i - |a|);
        }
      }
    }
    if Linked(k, prev, a + b) {
      forall i | 0 <= i < |b|
        ensures Continues(k, LastHash(prev, a), b, i)
      {
        assert Continues(k, prev, a + b, |a| + i);
      }
    }
  }

  // ----- Invariant ------------------------------------------------------------------------------

  /** The part of the buffer that comes from the slot before. */
  function Carried(t: Trace): seq<Entry> {
    if |t.slotLog| <= |t.core.collected| then t.core.collected[..|t.core.collected| - |t.slotLog|] else []
  }

  /** The buffer holds, after the whole of the slot before if that gave no block, the current slot's
      entries flushed so far; it is empty while the slot is not led. */
  ghost predicate BufferHolds(lead: nat -> bool, t: Trace) {
    var c := t.core;
    if !c.Leading(lead) then c.collected == [] && c.rec.entries == []
    else && c.collected == Carried(t) + t.slotLog
         && IsSlotEnding(Carried(t), Boundary(c.rec))
         && (Carried(t) != [] <==> t.opening.AfterGap?)
  }

  /** What is known of a block: its slot is led; it holds one tick of its own, with the hashes of one
      tick, and after a slot that gave no block the whole of that slot before them; and the checker
      accepts it exactly if it has few enough entries, its transactions are well formed and those
      earlier entries happen to chain from the hash at which they end. */
  ghost predicate OneTickVerdict(k: Codec, lead: nat -> bool, perTick: nat, p: Produced) {
    var es := p.blk.entries;
    var carried := if p.opening.AfterGap? then UpToTick(es) else [];
    && lead(p.blk.slot)
    && (p.opening.AtReset? ==> p.blk.prevHash == p.opening.seed)
    && (p.opening.AfterGap? ==> carried != [])
    && IsSlotEnding(carried, p.blk.prevHash)
    && Ticks(Events(es)) == (if p.opening.AfterGap? then 2 else 1)
    && Hashes(Events(es[|carried|..])) == perTick && |es| <= |carried| + perTick
    && (Accepts(k, p.blk.prevHash, es) <==>
          |es| <= MAX_ENTRIES_PER_SLOT && TxsOk(k, es) && Linked(k, p.blk.prevHash, carried))
  }

  ghost predicate BlocksHold(k: Codec, lead: nat -> bool, t: Trace) {
    var r := t.core.rec;
    && (forall i :: 0 <= i < |t.blocks| ==> OneTickVerdict(k, lead, r.clock.perTick, t.blocks[i]))
    && LinkedBlocks(t.blocks)
    && (t.opening.AtReset? ==> Boundary(r) == t.opening.seed)
    && (t.opening.AfterBlock? ==> t.blocks != [] && EndsAt(t.blocks[|t.blocks| - 1], r.PassedSlot(), Boundary(r)))
  }

  ghost predicate OneTickInv(k: Codec, lead: nat -> bool, t: Trace) {
    t.core.rec.ticksPerSlot == 1 && SlotInv(k, t) && BufferHolds(lead, t) && BlocksHold(k, lead, t)
  }

  /** The buffer is open exactly when the slot is led, after a seed for it, and the slot before gave no
      block or some entry of its own has been flushed. */
  lemma BufferOpens(lead: nat -> bool, t: Trace)
    requires BufferHolds(lead, t)
    ensures t.core.collected != [] <==> t.core.Leading(lead) && (t.opening.AfterGap? || t.slotLog != [])
  {
  }

  // ----- The tick -------------------------------------------------------------------------------

  /** The trace after the tick `e` ended a slot with the buffer empty: the whole slot goes to the next one
      if that is led, and else it is dropped, transactions and all. */
  function GapTrace(lead: nat -> bool, t: Trace, s: Recorder.State, e: Entry): Trace {
    var c := t.core.(rec := s);
    Trace(c.(collected := if c.Leading(lead) then t.core.rec.entries + [e] else []), t.blocks, [], AfterGap)
  }

  lemma FlushAtTick(k: Codec, lead: nat -> bool, t: Trace, s: Recorder.State, e: Entry)
    requires (s, Some(e)) == Recorder.TickSlot(k, t.core.rec.(entries := []))
    requires e.tick && s.AtSlotEnd() && s.PassedSlot() == t.core.rec.PassedSlot() + 1
    requires Recorder.GetHash(s.queue, s.PassedSlot() - 1) == Boundary(t.core.rec)
    requires t.core.collected != [] ==> lead(t.core.rec.CurrentSlot())
    ensures FlushTrace(k, lead, t) ==
            if t.core.collected != [] then AssembledTrace(t, s, e) else GapTrace(lead, t, s, e)
  {
    assert [] + (t.core.rec.entries + [e]) == t.core.rec.entries + [e];
  }

  /** The tick closes a block, of everything buffered and everything recorded, exactly when the buffer is
      not empty. */
  lemma TickCloses(k: Codec, lead: nat -> bool, t: Trace) returns (s: Recorder.State, e: Entry, log: seq<Entry>)
    requires t.core.rec.ticksPerSlot == 1 && SlotInv(k, t) && BufferHolds(lead, t)
    requires Recorder.TickSlot(k, t.core.rec.(entries := [])).1.Some?
    ensures log == t.slotLog + (t.core.rec.entries + [e]) && s.entries == []
    ensures e.tick && s.clock == ResetClock(t.core.rec.clock, e.hash) && s.ticksPerSlot == 1
    ensures s.PassedSlot() in s.queue && s.PassedSlot() == t.core.rec.PassedSlot() + 1 && Boundary(s) == e.hash
    ensures SlotOk(k, Boundary(t.core.rec), s.clock, log) && Ticks(Events(log)) == 1
    ensures FlushTrace(k, lead, t) ==
            if t.core.collected != [] then AssembledTrace(t, s, e) else GapTrace(lead, t, s, e)
  {
    s, e, log := SlotEndTick(k, t);
    FlushAtTick(k, lead, t, s, e);
  }

  /** What one slot's log amounts to once its tick is in. */
  lemma ClosedSlot(k: Codec, prev: Hash, c: Clock, log: seq<Entry>)
    requires SlotOk(k, prev, c, log) && c.numHashes == 0 && c.remaining == c.perTick && log != []
    requires Ticks(Events(log)) == 1
    ensures Linked(k, prev, log) && AllOk(log) && Hashes(Events(log)) == c.perTick && |log| <= c.perTick
  {
    var p := Produced(SlotBlock(1, prev, log), AtReset(prev));
    SlotEndBlock(k, prev, c, log, c.perTick, 1, p);
    CountVerdict(k, c.perTick, 1, p);
  }

  /** Whether the checker accepts entries that follow on a slot ending where they start. */
  lemma AcceptsAfterSlot(k: Codec, prev: Hash, carried: seq<Entry>, own: seq<Entry>)
    requires IsSlotEnding(carried, prev) && Linked(k, prev, own) && AllOk(own)
    ensures Accepts(k, prev, carried + own) <==>
      |carried + own| <= MAX_ENTRIES_PER_SLOT && TxsOk(k, carried + own) && Linked(k, prev, carried)
  {
    LinkedConcat(k, prev, carried, own);
    ShapeSplits(k, carried + own);
  }

  lemma BlockVerdictHolds(k: Codec, lead: nat -> bool, perTick: nat, carried: seq<Entry>, own: seq<Entry>, p: Produced)
    requires p.blk.entries == carried + own && lead(p.blk.slot)
    requires IsSlotEnding(carried, p.blk.prevHash) && (carried != [] <==> p.opening.AfterGap?)
    requires p.opening.AtReset? ==> p.blk.prevHash == p.opening.seed
    requires Linked(k, p.blk.prevHash, own) && AllOk(own) && |own| <= perTick
    requires Hashes(Events(own)) == perTick && Ticks(Events(own)) == 1
    ensures OneTickVerdict(k, lead, perTick, p)
  {
    var es := p.blk.entries;
    if p.opening.AfterGap? {
      UpToTickIs(carried, own);
    }
    assert es[|carried|..] == own;
    TicksConcat(carried, own);
    SlotEndingTicks(carried, p.blk.prevHash);
    AcceptsAfterSlot(k, p.blk.prevHash, carried, own);
  }

  lemma AppendedVerdict(k: Codec, lead: nat -> bool, t: Trace, u: Trace, p: Produced)
    requires BlocksHold(k, lead, t) && u.blocks == t.blocks + [p]
    requires OneTickVerdict(k, lead, t.core.rec.clock.perTick, p)
    requires p.opening == t.opening && p.blk.prevHash == Boundary(t.core.rec)
      && p.blk.slot == t.core.rec.PassedSlot() + 1
    requires u.opening.AfterBlock? && u.core.rec.clock.perTick == t.core.rec.clock.perTick
    requires EndsAt(p, u.core.rec.PassedSlot(), Boundary(u.core.rec))
    ensures BlocksHold(k, lead, u)
  {
    AppendedLinked(t.blocks, p);
    forall i | 0 <= i < |u.blocks|
      ensures OneTickVerdict(k, lead, u.core.rec.clock.perTick, u.blocks[i])
    {
      assert i < |t.blocks| ==> u.blocks[i] == t.blocks[i];
    }
  }

  lemma TickAssembles(k: Codec, lead: nat -> bool, t: Trace)
    requires OneTickInv(k, lead, t) && LastTickDue(k, t.core.rec) && t.core.collected != []
    ensures OneTickInv(k, lead, FlushTrace(k, lead, t))
  {
    var s, e, log := TickCloses(k, lead, t);
    AssembledHolds(k, lead, t, s, e, log);
  }

  lemma AssembledHolds(k: Codec, lead: nat -> bool, t: Trace, s: Recorder.State, e: Entry, log: seq<Entry>)
    requires OneTickInv(k, lead, t) && t.core.collected != []
    requires log == t.slotLog + (t.core.rec.entries + [e]) && s.entries == []
    requires s.clock == ResetClock(t.core.rec.clock, e.hash) && s.ticksPerSlot == 1
    requires s.PassedSlot() in s.queue && s.PassedSlot() == t.core.rec.PassedSlot() + 1 && Boundary(s) == e.hash
    requires SlotOk(k, Boundary(t.core.rec), s.clock, log) && Ticks(Events(log)) == 1
    ensures OneTickInv(k, lead, AssembledTrace(t, s, e))
  {
    var u := AssembledTrace(t, s, e);
    var p := u.blocks[|t.blocks|];
    AssembledVerdict(k, lead, t, s, e, log, p);
    AppendedVerdict(k, lead, t, u, p);
    NextSlotBegins(k, t, u, e);
    assert Carried(u) == [] && u.core.collected == [] + u.slotLog;
  }

  lemma AssembledEntries(lead: nat -> bool, t: Trace, log: seq<Entry>, es: seq<Entry>)
    requires BufferHolds(lead, t) && t.core.collected != [] && log == t.slotLog + es && es != []
    ensures t.core.collected + es == Carried(t) + log
    ensures LastHash(ZERO_HASH, t.core.collected + es) == es[|es| - 1].hash
    ensures IsSlotEnding(Carried(t), Boundary(t.core.rec)) && (Carried(t) != [] <==> t.opening.AfterGap?)
    ensures lead(t.core.rec.CurrentSlot())
  {
  }

  lemma AssembledVerdict(k: Codec, lead: nat -> bool, t: Trace, s: Recorder.State, e: Entry, log: seq<Entry>,
      p: Produced)
    requires BufferHolds(lead, t) && t.core.collected != []
    requires t.opening.AtReset? ==> Boundary(t.core.rec) == t.opening.seed
    requires log == t.slotLog + (t.core.rec.entries + [e])
    requires SlotOk(k, Boundary(t.core.rec), s.clock, log) && s.clock == ResetClock(t.core.rec.clock, e.hash)
    requires Ticks(Events(log)) == 1
    requires p.opening == t.opening && p.blk.prevHash == Boundary(t.core.rec)
    requires p.blk.slot == t.core.rec.CurrentSlot()
    requires p.blk.entries == t.core.collected + (t.core.rec.entries + [e])
    ensures OneTickVerdict(k, lead, t.core.rec.clock.perTick, p)
    ensures LastHash(ZERO_HASH, p.blk.entries) == e.hash
  {
    AssembledEntries(lead, t, log, t.core.rec.entries + [e]);
    ClosedSlot(k, Boundary(t.core.rec), s.clock, log);
    BlockVerdictHolds(k, lead, t.core.rec.clock.perTick, Carried(t), log, p);
  }

  /** The slot after a tick begins empty. */
  lemma NextSlotBegins(k: Codec, t: Trace, u: Trace, e: Entry)
    requires SlotInv(k, t) && t.core.rec.ticksPerSlot == u.core.rec.ticksPerSlot == 1
    requires u.slotLog == [] && u.core.rec.entries == [] && u.core.batchSize == t.core.batchSize
    requires u.core.rec.clock == ResetClock(t.core.rec.clock, e.hash)
    requires u.core.rec.PassedSlot() in u.core.rec.queue && Boundary(u.core.rec) == e.hash
    ensures SlotInv(k, u)
  {
    SlotOkAtReset(k, t.core.rec.clock, e.hash);
    assert u.slotLog + u.core.rec.entries == [];
  }

  lemma TickLeavesGap(k: Codec, lead: nat -> bool, t: Trace)
    requires OneTickInv(k, lead, t) && LastTickDue(k, t.core.rec) && t.core.collected == []
    ensures OneTickInv(k, lead, FlushTrace(k, lead, t))
  {
    var s, e, log := TickCloses(k, lead, t);
    var u := GapTrace(lead, t, s, e);
    NextSlotBegins(k, t, u, e);
    if u.core.Leading(lead) {
      GapCarried(k, lead, t, log, e, u);
    }
    assert BlocksHold(k, lead, u);
  }

  lemma GapCarried(k: Codec, lead: nat -> bool, t: Trace, log: seq<Entry>, e: Entry, u: Trace)
    requires SlotInv(k, t) && BufferHolds(lead, t) && t.core.collected == []
    requires log == t.slotLog + (t.core.rec.entries + [e]) && AllOk(log) && e.tick
    requires u.core.Leading(lead) && u.opening.AfterGap? && u.slotLog == []
    requires u.core.collected == t.core.rec.entries + [e] && Boundary(u.core.rec) == e.hash
    ensures BufferHolds(lead, u)
  {
    var es := t.core.rec.entries + [e];
    assert AllOk(es) by {
      forall i | 0 <= i < |es|
        ensures EntryOk(es[i])
      {
        assert es[i] == log[|t.slotLog| + i];
      }
    }
    assert Carried(u) == es && es[..|es| - 1] == t.core.rec.entries;
  }

  // ----- The other steps ------------------------------------------------------------------------

  lemma SlotGoesOn(k: Codec, lead: nat -> bool, t: Trace, u: Trace)
    requires OneTickInv(k, lead, t) && SlotInv(k, u) && BufferHolds(lead, u)
    requires u.blocks == t.blocks && u.opening == t.opening
    requires var r, s := t.core.rec, u.core.rec;
      && r.queue == s.queue && r.PassedSlot() == s.PassedSlot()
      && r.ticksPerSlot == s.ticksPerSlot && r.clock.perTick == s.clock.perTick
    ensures OneTickInv(k, lead, u)
  {
  }

  /** The buffer takes what the log takes. */
  lemma BufferGrows(lead: nat -> bool, t: Trace, u: Trace, es: seq<Entry>)
    requires BufferHolds(lead, t) && u.core.Leading(lead) == t.core.Leading(lead)
    requires Boundary(u.core.rec) == Boundary(t.core.rec) && u.opening == t.opening
    requires if t.core.Leading(lead)
      then u.core.collected == t.core.collected + es && u.slotLog == t.slotLog + es
      else u.core.collected == t.core.collected && u.core.rec.entries == []
    ensures BufferHolds(lead, u)
  {
    if t.core.Leading(lead) {
      assert u.core.collected == Carried(t) + u.slotLog;
      assert Carried(u) == Carried(t);
    }
  }

  lemma QuietKeepsSlot(k: Codec, lead: nat -> bool, t: Trace, u: Trace)
    requires SlotInv(k, t)
    requires u == HandedOver(lead, t, t.core.rec.(entries := []), t.core.rec.entries)
    ensures SlotInv(k, u)
  {
    QuietTicks(t.slotLog, t.core.rec.entries);
    assert u.slotLog + u.core.rec.entries == t.slotLog + t.core.rec.entries;
  }

  lemma HandedOverHolds(k: Codec, lead: nat -> bool, t: Trace, u: Trace)
    requires OneTickInv(k, lead, t)
    requires u == HandedOver(lead, t, t.core.rec.(entries := []), t.core.rec.entries)
    ensures OneTickInv(k, lead, u)
  {
    QuietKeepsSlot(k, lead, t, u);
    BufferGrows(lead, t, u, t.core.rec.entries);
    SlotGoesOn(k, lead, t, u);
  }

  lemma FlushBuffers(k: Codec, lead: nat -> bool, t: Trace)
    requires OneTickInv(k, lead, t) && Recorder.TickSlot(k, t.core.rec.(entries := [])).1.None?
    ensures OneTickInv(k, lead, FlushTrace(k, lead, t))
  {
    QuietFlush(k, lead, t);
    HandedOverHolds(k, lead, t, HandedOver(lead, t, t.core.rec.(entries := []), t.core.rec.entries));
  }

  lemma PendingGoesOn(k: Codec, lead: nat -> bool, t: Trace, pending: seq<Transaction>)
    requires OneTickInv(k, lead, t)
    ensures OneTickInv(k, lead, t.(core := t.core.(pending := pending)))
  {
  }

  lemma BatchRecords(k: Codec, lead: nat -> bool, t: Trace, pulled: seq<Transaction>)
    requires OneTickInv(k, lead, t)
    ensures OneTickInv(k, lead, Next(k, lead, t, DoBatch(pulled)))
  {
    var d := t.core.(pending := t.core.pending + pulled);
    if t.core.Leading(lead) && d.pending != [] {
      var txs := Peek(d);
      SlotOkRecord(k, Boundary(d.rec), d.rec, t.slotLog + d.rec.entries, txs);
      var (rec, out) := Recorder.RecordTxs(k, d.rec, txs);
      if out.Recorded? {
        var u := t.(core := d.(rec := rec, pending := d.pending[|txs|..]));
        assert Next(k, lead, t, DoBatch(pulled)) == u;
        RecordedGoesOn(k, lead, t, u, out.entry);
      } else {
        PendingGoesOn(k, lead, t, d.pending);
      }
    }
  }

  lemma BufferStays(lead: nat -> bool, t: Trace, u: Trace)
    requires BufferHolds(lead, t) && u.core.Leading(lead) == t.core.Leading(lead)
    requires Boundary(u.core.rec) == Boundary(t.core.rec) && u.opening == t.opening
    requires u.core.collected == t.core.collected && u.slotLog == t.slotLog
    requires !t.core.Leading(lead) ==> u.core.rec.entries == []
    ensures BufferHolds(lead, u)
  {
  }

  lemma RecordedSlot(k: Codec, t: Trace, u: Trace, e: Entry)
    requires SlotInv(k, t) && !e.tick && u.slotLog == t.slotLog && u.core.batchSize == t.core.batchSize
    requires u.core.rec == t.core.rec.(clock := u.core.rec.clock, entries := t.core.rec.entries + [e])
    requires SlotOk(k, Boundary(t.core.rec), u.core.rec.clock, (t.slotLog + t.core.rec.entries) + [e])
    requires u.core.rec.clock.perTick == t.core.rec.clock.perTick
    ensures SlotInv(k, u)
  {
    assert (t.slotLog + t.core.rec.entries) + [e] == u.slotLog + u.core.rec.entries;
  }

  lemma RecordedGoesOn(k: Codec, lead: nat -> bool, t: Trace, u: Trace, e: Entry)
    requires OneTickInv(k, lead, t) && t.core.Leading(lead) && !e.tick
    requires u == t.(core := t.core.(rec := u.core.rec, pending := u.core.pending))
    requires u.core.rec == t.core.rec.(clock := u.core.rec.clock, entries := t.core.rec.entries + [e])
    requires SlotOk(k, Boundary(t.core.rec), u.core.rec.clock, (t.slotLog + t.core.rec.entries) + [e])
    requires u.core.rec.clock.perTick == t.core.rec.clock.perTick
    ensures OneTickInv(k, lead, u)
  {
    RecordedSlot(k, t, u, e);
    BufferStays(lead, t, u);
    SlotGoesOn(k, lead, t, u);
  }

  lemma ResetOpens(k: Codec, lead: nat -> bool, t: Trace, c: Core, seed: Hash, slot: nat)
    requires t.core.rec.ticksPerSlot == 1 && Records(t.core) && BlocksHold(k, lead, t)
    requires c.rec == Recorder.ResetTo(t.core.rec, seed, slot) && c.collected == [] && c.batchSize == t.core.batchSize
    ensures OneTickInv(k, lead, AfterReset(t, c, seed))
  {
    SlotOkAtReset(k, t.core.rec.clock, seed);
    assert [] + c.rec.entries == [];
  }

  lemma StepKeepsOneTick(k: Codec, lead: nat -> bool, t: Trace, s: Step)
    requires OneTickInv(k, lead, t)
    ensures OneTickInv(k, lead, Next(k, lead, t, s))
  {
    match s
    case DoAutoHash => HashGoesOn(k, lead, t);
    case DoBatch(pulled) => BatchRecords(k, lead, t, pulled);
    case DoFlush =>
      if Recorder.TickSlot(k, t.core.rec.(entries := [])).1.None? {
        FlushBuffers(k, lead, t);
      } else if t.core.collected != [] {
        TickAssembles(k, lead, t);
      } else {
        TickLeavesGap(k, lead, t);
      }
    case DoSlotStart(slot, seed) =>
      if slot > 0 && lead(slot) && !t.core.Ready() {
        ResetOpens(k, lead, t, SlotStart(t.core, slot, seed), seed, slot - 1);
      }
    case DoSlotEnd =>
    case DoFollowerReset(seed, slot) =>
      if !lead(t.core.rec.CurrentSlot()) && !lead(slot) {
        ResetOpens(k, lead, t, FollowerReset(lead, t.core, seed, slot), seed, slot);
      }
  }

  lemma HashGoesOn(k: Codec, lead: nat -> bool, t: Trace)
    requires OneTickInv(k, lead, t)
    ensures OneTickInv(k, lead, Next(k, lead, t, DoAutoHash))
  {
    var u := Next(k, lead, t, DoAutoHash);
    SlotOkAutoHash(k, Boundary(t.core.rec), t.core.rec.clock, t.slotLog + t.core.rec.entries);
    BufferStays(lead, t, u);
    SlotGoesOn(k, lead, t, u);
  }

  // ----- Runs -----------------------------------------------------------------------------------

  /** The pipeline theorem for one tick per slot: for every schedule and every interleaving, each block
      handed over is as OneTickVerdict says, and a block right after another starts from its last hash. */
  lemma {:induction false} OneTickBlocks(k: Codec, lead: nat -> bool, c: Core, slot: nat, seed: Hash, steps: seq<Step>)
    requires Records(c) && c.rec.ticksPerSlot == 1 && slot > 0
    ensures OneTickInv(k, lead, RunSteps(k, lead, Started(c, slot, seed), steps))
  {
    if steps == [] {
      ResetOpens(k, lead, Trace(c, [], [], AtReset(Boundary(c.rec))), SlotStart(c, slot, seed), seed, slot - 1);
    } else {
      OneTickBlocks(k, lead, c, slot, seed, steps[..|steps| - 1]);
      StepKeepsOneTick(k, lead, RunSteps(k, lead, Started(c, slot, seed), steps[..|steps| - 1]), steps[|steps| - 1]);
    }
  }

  /** After any run, a tick hands over a block for its slot exactly when the slot is led, a seed for it was
      taken, and the slot before gave no block or an entry of its own was flushed before the tick. The
      block then holds the tick and the ticks already buffered, and when none was, the checker
      accepts it exactly if its transactions are well formed. */
  lemma TickOfALedSlot(k: Codec, lead: nat -> bool, c: Core, slot: nat, seed: Hash, steps: seq<Step>)
    requires Records(c) && c.rec.ticksPerSlot == 1 && slot > 0
    requires var t := RunSteps(k, lead, Started(c, slot, seed), steps);
      Recorder.TickSlot(k, t.core.rec.(entries := [])).1.Some?
    ensures var t := RunSteps(k, lead, Started(c, slot, seed), steps);
      var u := Next(k, lead, t, DoFlush);
      && u.core.rec.CurrentSlot() == t.core.rec.CurrentSlot() + 1
      && (t.core.collected != [] <==> t.core.Leading(lead) && (t.opening.AfterGap? || t.slotLog != []))
      && if t.core.collected == [] then u.blocks == t.blocks
         else && |u.blocks| == |t.blocks| + 1 && u.blocks[..|t.blocks|] == t.blocks
              && ClosesSlot(k, t, u.blocks[|t.blocks|])
  {
    var t := RunSteps(k, lead, Started(c, slot, seed), steps);
    OneTickBlocks(k, lead, c, slot, seed, steps);
    OneTickBlocks(k, lead, c, slot, seed, steps + [DoFlush]);
    assert (steps + [DoFlush])[..|steps|] == steps;
    BufferOpens(lead, t);
    var s, e, _ := TickCloses(k, lead, t);
    if t.core.collected != [] {
      ClosingBlock(k, lead, t, s, e);
    }
  }

  ghost predicate ClosesSlot(k: Codec, t: Trace, p: Produced) {
    && p.blk.slot == t.core.rec.CurrentSlot() && p.opening == t.opening
    && t.core.collected <= p.blk.entries
    && Ticks(Events(p.blk.entries)) == Ticks(Events(t.core.collected)) + 1
    && (Ticks(Events(t.core.collected)) == 0 <==> !t.opening.AfterGap?)
    && (!t.opening.AfterGap? ==> (Accepts(k, p.blk.prevHash, p.blk.entries) <==> TxsOk(k, p.blk.entries)))
  }

  lemma ClosingBlock(k: Codec, lead: nat -> bool, t: Trace, s: Recorder.State, e: Entry)
    requires OneTickInv(k, lead, t) && OneTickInv(k, lead, AssembledTrace(t, s, e)) && t.core.collected != []
    requires e.tick && s.CurrentSlot() == t.core.rec.CurrentSlot() + 1
    requires s.clock.perTick == t.core.rec.clock.perTick
    ensures ClosesSlot(k, t, AssembledTrace(t, s, e).blocks[|t.blocks|])
  {
    var p := AssembledTrace(t, s, e).blocks[|t.blocks|];
    assert OneTickVerdict(k, lead, s.clock.perTick, p);
    BufferOpens(lead, t);
    TicksConcat(Carried(t), t.slotLog);
    SlotEndingTicks(Carried(t), Boundary(t.core.rec));
  }
}
