/** Three short runs of the leader pipeline: one with a tick too many, one in which a transaction is
    thrown away, and one with slots of a single tick. */
module LeaderWitness {
  import opened Base
  import opened Poh
  import opened Leader
  import opened LeaderProof
  import Recorder

  predicate LeadsOneAndThree(slot: nat) { slot == 1 || slot == 3 }

  /** Two hashes per tick, two ticks per slot. */
  predicate Small(c: Core) { c.rec.clock.perTick == 2 && c.rec.ticksPerSlot == 2 && c.batchSize >= 1 }

  /** At the start of a tick, with nothing recorded. */
  predicate Tidy(t: Trace) { Small(t.core) && t.core.rec.clock.remaining == 2 && t.core.rec.entries == [] }

  /** What the flush at the end of a tick does, given that only the tick's own hash is left. */
  ghost predicate Ticked(lead: nat -> bool, t: Trace, u: Trace) {
    && Tidy(u) && u.core.rec.tickHeight == t.core.rec.tickHeight + 1
    && u.core.leaderStart == t.core.leaderStart && u.core.pending == t.core.pending
    && if t.core.rec.tickHeight % 2 == 0 then u.blocks == t.blocks && u.opening == t.opening
       else if t.core.Leading(lead) then
         && |u.blocks| == |t.blocks| + 1 && u.blocks[..|t.blocks|] == t.blocks
         && u.blocks[|t.blocks|].opening == t.opening && u.opening.AfterBlock?
       else u.blocks == t.blocks && u.opening.AfterGap?
  }

  lemma InnerTick(k: Codec, lead: nat -> bool, t: Trace)
    requires Inv(k, lead, t) && Small(t.core) && t.core.rec.clock.remaining == 1 && t.core.rec.entries == []
    requires t.core.rec.tickHeight % 2 == 0
    ensures Ticked(lead, t, FlushTrace(k, lead, t))
  {
    assert InnerTickDue(k, t.core.rec);
    var s, e, _ := InnerTickFlush(k, lead, t);
    assert s == Recorder.TickSlot(k, t.core.rec).0 by {
      assert t.core.rec.(entries := []) == t.core.rec;
      assert FlushTrace(k, lead, t).core.rec == s;
    }
  }

  lemma LastTick(k: Codec, lead: nat -> bool, t: Trace)
    requires Inv(k, lead, t) && Small(t.core) && t.core.rec.clock.remaining == 1 && t.core.rec.entries == []
    requires t.core.rec.tickHeight % 2 == 1
    ensures Ticked(lead, t, FlushTrace(k, lead, t))
  {
    assert t.core.rec.(entries := []) == t.core.rec;
    assert LastTickDue(k, t.core.rec);
    if t.core.Leading(lead) {
      var s, e, _ := AssemblingFlush(k, lead, t);
    } else {
      var s, e := DroppingFlush(k, lead, t);
    }
  }

  /** One hash and one flush are one tick. */
  lemma Round(k: Codec, lead: nat -> bool, t: Trace)
    requires Inv(k, lead, t) && Tidy(t)
    ensures var u := Next(k, lead, Next(k, lead, t, DoAutoHash), DoFlush); Inv(k, lead, u) && Ticked(lead, t, u)
  {
    var v := Next(k, lead, t, DoAutoHash);
    StepKeepsInv(k, lead, t, DoAutoHash);
    StepKeepsInv(k, lead, v, DoFlush);
    if t.core.rec.tickHeight % 2 == 0 {
      InnerTick(k, lead, v);
    } else {
      LastTick(k, lead, v);
    }
  }

  function Rounds(n: nat): seq<Step> {
    if n == 0 then [] else Rounds(n - 1) + [DoAutoHash] + [DoFlush]
  }

  lemma RunAppend(k: Codec, lead: nat -> bool, t: Trace, steps: seq<Step>, s: Step)
    ensures RunSteps(k, lead, t, steps + [s]) == Next(k, lead, RunSteps(k, lead, t, steps), s)
  {
    assert (steps + [s])[..|steps|] == steps;
  }

  lemma RunRound(k: Codec, lead: nat -> bool, t: Trace, steps: seq<Step>)
    requires Inv(k, lead, RunSteps(k, lead, t, steps)) && Tidy(RunSteps(k, lead, t, steps))
    ensures var u := RunSteps(k, lead, t, steps + [DoAutoHash] + [DoFlush]);
      Inv(k, lead, u) && Ticked(lead, RunSteps(k, lead, t, steps), u)
  {
    RunAppend(k, lead, t, steps, DoAutoHash);
    RunAppend(k, lead, t, steps + [DoAutoHash], DoFlush);
    Round(k, lead, RunSteps(k, lead, t, steps));
  }

  lemma {:induction false} ManyRounds(k: Codec, lead: nat -> bool, c: Core, seed: Hash, n: nat)
    requires Small(c)
    ensures var t := RunSteps(k, lead, Started(c, 1, seed), Rounds(n));
      Inv(k, lead, t) && Tidy(t) && t.core.rec.tickHeight == n && t.core.leaderStart == Some(1)
  {
    if n == 0 {
      FirstRound(k, lead, c, seed);
    } else {
      ManyRounds(k, lead, c, seed, n - 1);
      RunRound(k, lead, Started(c, 1, seed), Rounds(n - 1));
    }
  }

  lemma FirstRound(k: Codec, lead: nat -> bool, c: Core, seed: Hash)
    requires Small(c)
    ensures var t := Started(c, 1, seed);
      Inv(k, lead, t) && Tidy(t) && t.core.rec.tickHeight == 0 && t.core.leaderStart == Some(1)
  {
    StartedInv(k, lead, c, 1, seed);
  }

  lemma RoundAt(k: Codec, lead: nat -> bool, c: Core, seed: Hash, n: nat)
    requires Small(c)
    ensures Ticked(lead, RunSteps(k, lead, Started(c, 1, seed), Rounds(n)),
      RunSteps(k, lead, Started(c, 1, seed), Rounds(n + 1)))
  {
    ManyRounds(k, lead, c, seed, n);
    RunRound(k, lead, Started(c, 1, seed), Rounds(n));
  }

  /** A node that leads slots 1 and 3 and hashes and flushes through slots 1, 2 and 3 hands over two
      blocks, the second of them with three ticks instead of two. */
  lemma ExtraTickRun(k: Codec, c: Core, seed: Hash)
    requires Small(c)
    ensures var t := RunSteps(k, LeadsOneAndThree, Started(c, 1, seed), Rounds(6));
      |t.blocks| == 2 && t.blocks[1].opening.AfterGap? && Ticks(Events(t.blocks[1].blk.entries)) == 3
  {
    var lead, t0 := LeadsOneAndThree, Started(c, 1, seed);
    UpToSlotThree(k, c, seed);
    ManyRounds(k, lead, c, seed, 4);
    ManyRounds(k, lead, c, seed, 5);
    RoundAt(k, lead, c, seed, 4);
    RoundAt(k, lead, c, seed, 5);
    ProducedBlocksVerify(k, lead, c, 1, seed, Rounds(6));
    ManyRounds(k, lead, c, seed, 6);
  }

  lemma UpToSlotThree(k: Codec, c: Core, seed: Hash)
    requires Small(c)
    ensures var t := RunSteps(k, LeadsOneAndThree, Started(c, 1, seed), Rounds(4));
      |t.blocks| == 1 && t.opening.AfterGap?
  {
    UpToSlotTwo(k, c, seed);
    ManyRounds(k, LeadsOneAndThree, c, seed, 2);
    ManyRounds(k, LeadsOneAndThree, c, seed, 3);
    RoundAt(k, LeadsOneAndThree, c, seed, 2);
    RoundAt(k, LeadsOneAndThree, c, seed, 3);
  }

  lemma UpToSlotTwo(k: Codec, c: Core, seed: Hash)
    requires Small(c)
    ensures |RunSteps(k, LeadsOneAndThree, Started(c, 1, seed), Rounds(2)).blocks| == 1
  {
    ManyRounds(k, LeadsOneAndThree, c, seed, 0);
    ManyRounds(k, LeadsOneAndThree, c, seed, 1);
    RoundAt(k, LeadsOneAndThree, c, seed, 0);
    RoundAt(k, LeadsOneAndThree, c, seed, 1);
  }

  // ----- A transaction that is thrown away ------------------------------------------------------

  /** A batch at a moment when only the tick's own hash is left stays pending. */
  lemma RefusedBatch(k: Codec, c: Core, seed: Hash, tx: Transaction)
    requires Small(c)
    ensures var t := Next(k, LeadsOneAndThree, Started(c, 1, seed), DoAutoHash);
      var u := Next(k, LeadsOneAndThree, t, DoBatch([tx]));
      && Inv(k, LeadsOneAndThree, u) && u.core == t.core.(pending := [tx]) && u.core.leaderStart == Some(1)
      && Small(u.core) && u.core.rec.clock.remaining == 1 && u.core.rec.entries == [] && u.core.rec.tickHeight == 0
  {
    var lead, t0 := LeadsOneAndThree, Started(c, 1, seed);
    var t := Next(k, lead, t0, DoAutoHash);
    StartedInv(k, lead, c, 1, seed);
    StepKeepsInv(k, lead, t0, DoAutoHash);
    StepKeepsInv(k, lead, t, DoBatch([tx]));
    assert t.core.pending + [tx] == [tx];
  }

  function BatchSteps(tx: Transaction): seq<Step> { [] + [DoAutoHash] + [DoBatch([tx])] }

  function LossySteps(tx: Transaction): seq<Step> {
    BatchSteps(tx) + [DoFlush] + [DoAutoHash] + [DoFlush] + [DoSlotEnd]
  }

  lemma AfterRefusal(k: Codec, c: Core, seed: Hash, tx: Transaction)
    requires Small(c)
    ensures var t := RunSteps(k, LeadsOneAndThree, Started(c, 1, seed), BatchSteps(tx) + [DoFlush]);
      && Inv(k, LeadsOneAndThree, t) && Tidy(t) && t.core.rec.tickHeight == 1
      && t.core.pending == [tx] && t.core.leaderStart == Some(1)
  {
    var lead, t0 := LeadsOneAndThree, Started(c, 1, seed);
    RunAppend(k, lead, t0, [], DoAutoHash);
    RunAppend(k, lead, t0, [] + [DoAutoHash], DoBatch([tx]));
    RunAppend(k, lead, t0, BatchSteps(tx), DoFlush);
    RefusedBatch(k, c, seed, tx);
    var u := RunSteps(k, lead, t0, BatchSteps(tx));
    InnerTick(k, lead, u);
    StepKeepsInv(k, lead, u, DoFlush);
  }

  lemma SlotEnds(k: Codec, t: Trace)
    requires Small(t.core) && t.core.rec.tickHeight == 2 && t.core.Ready()
    ensures var u := Next(k, LeadsOneAndThree, t, DoSlotEnd); u.core.pending == t.core.pending && !u.core.Ready()
  {
  }

  lemma BeforeSlotThree(k: Codec, c: Core, seed: Hash, tx: Transaction)
    requires Small(c)
    ensures var t := RunSteps(k, LeadsOneAndThree, Started(c, 1, seed), LossySteps(tx));
      t.core.pending == [tx] && Starts(LeadsOneAndThree, t, DoSlotStart(3, seed))
  {
    var lead, t0 := LeadsOneAndThree, Started(c, 1, seed);
    var first := BatchSteps(tx) + [DoFlush];
    AfterRefusal(k, c, seed, tx);
    RunRound(k, lead, t0, first);
    SlotEnds(k, RunSteps(k, lead, t0, first + [DoAutoHash] + [DoFlush]));
    RunAppend(k, lead, t0, first + [DoAutoHash] + [DoFlush], DoSlotEnd);
  }

  lemma BooksAppend(k: Codec, lead: nat -> bool, t: Trace, steps: seq<Step>, s: Step)
    ensures var u := RunSteps(k, lead, t, steps);
      && Pulled(k, lead, t, steps + [s]) == Pulled(k, lead, t, steps) + Takes(lead, u, s)
      && Lost(k, lead, t, steps + [s]) == Lost(k, lead, t, steps) + if Starts(lead, u, s) then u.core.pending else []
  {
    assert (steps + [s])[..|steps|] == steps;
  }

  lemma PulledBefore(k: Codec, c: Core, seed: Hash, tx: Transaction)
    requires Small(c)
    ensures Pulled(k, LeadsOneAndThree, Started(c, 1, seed), BatchSteps(tx)) == [tx]
    ensures Lost(k, LeadsOneAndThree, Started(c, 1, seed), BatchSteps(tx)) == []
  {
    var lead, t0 := LeadsOneAndThree, Started(c, 1, seed);
    RunAppend(k, lead, t0, [], DoAutoHash);
    BooksAppend(k, lead, t0, [], DoAutoHash);
    BooksAppend(k, lead, t0, [] + [DoAutoHash], DoBatch([tx]));
  }

  lemma BooksBefore(k: Codec, c: Core, seed: Hash, tx: Transaction)
    requires Small(c)
    ensures Pulled(k, LeadsOneAndThree, Started(c, 1, seed), LossySteps(tx)) == [tx]
    ensures Lost(k, LeadsOneAndThree, Started(c, 1, seed), LossySteps(tx)) == []
  {
    var lead, t0, first := LeadsOneAndThree, Started(c, 1, seed), BatchSteps(tx);
    PulledBefore(k, c, seed, tx);
    BooksAppend(k, lead, t0, first, DoFlush);
    BooksAppend(k, lead, t0, first + [DoFlush], DoAutoHash);
    BooksAppend(k, lead, t0, first + [DoFlush] + [DoAutoHash], DoFlush);
    BooksAppend(k, lead, t0, first + [DoFlush] + [DoAutoHash] + [DoFlush], DoSlotEnd);
  }

  lemma NothingLeft(k: Codec, lead: nat -> bool, c: Core, seed: Hash, steps: seq<Step>)
    requires Configured(c) && Lost(k, lead, Started(c, 1, seed), steps) == Pulled(k, lead, Started(c, 1, seed), steps)
    ensures Flow(RunSteps(k, lead, Started(c, 1, seed), steps)) == []
    ensures BlockTxs(RunSteps(k, lead, Started(c, 1, seed), steps).blocks) == []
  {
    PulledInOrder(k, lead, c, 1, seed, steps);
    var flow, lost := Flow(RunSteps(k, lead, Started(c, 1, seed), steps)), Lost(k, lead, Started(c, 1, seed), steps);
    assert |multiset(flow) + multiset(lost)| == |multiset(lost)|;
  }

  /** A node that leads slots 1 and 3 and pulls a transaction just before a tick of slot 1 throws it
      away when it starts slot 3: it is then in no block, buffer or list of the pipeline. */
  lemma LostRun(k: Codec, c: Core, seed: Hash, tx: Transaction)
    requires Small(c)
    ensures var t0, steps := Started(c, 1, seed), LossySteps(tx) + [DoSlotStart(3, seed)];
      && Pulled(k, LeadsOneAndThree, t0, steps) == [tx] && Lost(k, LeadsOneAndThree, t0, steps) == [tx]
      && Flow(RunSteps(k, LeadsOneAndThree, t0, steps)) == []
      && BlockTxs(RunSteps(k, LeadsOneAndThree, t0, steps).blocks) == []
  {
    var lead, t0 := LeadsOneAndThree, Started(c, 1, seed);
    var steps := LossySteps(tx) + [DoSlotStart(3, seed)];
    BooksBefore(k, c, seed, tx);
    BooksAppend(k, lead, t0, LossySteps(tx), DoSlotStart(3, seed));
    BeforeSlotThree(k, c, seed, tx);
    NothingLeft(k, lead, c, seed, steps);
  }

  // ----- One tick per slot ----------------------------------------------------------------------

  predicate LeadsAlways(slot: nat) { true }

  /** Two hashes per tick, one tick per slot, at the start of a slot that is led. */
  predicate OneTick(t: Trace) {
    && t.core.rec.clock.perTick == 2 && t.core.rec.ticksPerSlot == 1 && t.core.rec.clock.remaining == 2
    && t.core.rec.clock.numHashes == 0 && t.core.rec.entries == [] && t.core.Ready()
  }

  /** Every tick ends a slot: it is buffered if the buffer is empty, and else closes a block. */
  lemma OneTickRound(k: Codec, t: Trace)
    requires OneTick(t)
    ensures var u := Next(k, LeadsAlways, Next(k, LeadsAlways, t, DoAutoHash), DoFlush);
      && OneTick(u)
      && if t.core.collected == [] then u.blocks == t.blocks && |u.core.collected| == 1 && u.core.collected[0].tick
         else |u.blocks| == |t.blocks| + 1
              && |u.blocks[|t.blocks|].blk.entries| == |t.core.collected| + 1
              && u.blocks[|t.blocks|].blk.entries[..|t.core.collected|] == t.core.collected
              && u.blocks[|t.blocks|].blk.entries[|t.core.collected|].tick
  {
    var v := Next(k, LeadsAlways, t, DoAutoHash);
    assert v.core.rec.(entries := []) == v.core.rec;
    var (s, tick) := Recorder.TickSlot(k, v.core.rec);
    assert tick.Some? && tick.value.tick && s.AtSlotEnd();
    assert v.core.rec.entries + [tick.value] == [tick.value];
  }

  /** With one tick per slot and nothing to record, the first slot yields no block and the second one
      yields a block with two ticks. */
  lemma OneTickRun(k: Codec, c: Core, seed: Hash)
    requires c.rec.clock.perTick == 2 && c.rec.ticksPerSlot == 1
    ensures var t := RunSteps(k, LeadsAlways, Started(c, 1, seed), Rounds(2));
      |t.blocks| == 1 && |t.blocks[0].blk.entries| == 2
      && t.blocks[0].blk.entries[0].tick && t.blocks[0].blk.entries[1].tick
  {
    var t0 := Started(c, 1, seed);
    assert Rounds(1) == [] + [DoAutoHash] + [DoFlush];
    RunAppend(k, LeadsAlways, t0, [], DoAutoHash);
    RunAppend(k, LeadsAlways, t0, [] + [DoAutoHash], DoFlush);
    OneTickRound(k, t0);
    var t1 := RunSteps(k, LeadsAlways, t0, Rounds(1));
    RunAppend(k, LeadsAlways, t0, Rounds(1), DoAutoHash);
    RunAppend(k, LeadsAlways, t0, Rounds(1) + [DoAutoHash], DoFlush);
    OneTickRound(k, t1);
    var es := RunSteps(k, LeadsAlways, t0, Rounds(2)).blocks[0].blk.entries;
    assert es[0] == es[..1][0];
  }
}
