/** Safety and progress of the vote and finalisation protocol over every interleaving and crash. */
module NodeProof {
  import opened Base
  import opened Accounts
  import opened BlockStore
  import opened Consensus
  import opened Ledger
  import L = LedgerProof
  import opened Node
  import Verify

  // ----- Runs with history ----------------------------------------------------------------------

  /** A run so far: the node, the slots whose effects reached the account store (in order), the
      transfers they brought, the slots applied because votes committed them with the voters counted for
      them by then, the slots stored by a handler that goes on to vote, and every voter counted per slot
      since the node was last started. */
  datatype Trace = Trace(
    core: Core,
    applied: seq<nat>,
    transfers: seq<Transaction>,
    commits: seq<(nat, set<string>)>,
    handled: set<nat>,
    counted: map<nat, set<string>>)

  function Counted(t: Trace, slot: nat): set<string> {
    if slot in t.counted then t.counted[slot] else {}
  }

  /** The store and slot that a step hands to finalisation, if it gets that far. */
  ghost function Finalises(k: Codec, c: Core, step: Step): Option<(State, nat)> {
    match step
    case Apply(true) =>
      if c.applying.Some? && c.applying.value in c.store.db.blocks then Some((c.store, c.applying.value)) else None
    case Run(SyncFinalize(slot), true) =>
      if step.task in c.tasks && slot in c.store.db.blocks then Some((c.store, slot)) else None
    case SyncBlock(b, checked) =>
      if checked && b.core.slot !in c.store.db.blocks
        then Some((AddPending(k, c.store, Judged(k, b)).0, b.core.slot)) else None
    case _ => None
  }

  /** The slot and transfers it applies: none for a block marked InvalidPoH. */
  ghost function Applies(k: Codec, c: Core, step: Step): Option<(nat, seq<Transaction>)> {
    match Finalises(k, c, step)
    case None => None
    case Some((s, slot)) =>
      if slot !in s.db.blocks || Marked(s.db, slot) then None
      else Some((slot, Transfers(Load(s.db, s.db.blocks[slot]))))
  }

  /** The vote that a step tries to count. */
  function Votes(self: string, c: Core, step: Step): Option<(nat, string)> {
    match step
    case RecvVote(v) => if v.signed then Some((v.slot, v.voter)) else None
    case Run(CastOwn(slot), _) => if step.task in c.tasks then Some((slot, self)) else None
    case _ => None
  }

  /** A voting handler stores its block. */
  predicate Handles(c: Core, step: Step) {
    ((step.RecvBlock? && step.checked) || step.OwnBlock?) && step.b.core.slot !in c.store.db.blocks
  }

  ghost function Next(k: Codec, self: string, t: Trace, step: Step): Trace {
    var applied := Applies(k, t.core, step);
    var vote := Votes(self, t.core, step);
    Trace(
      Act(k, self, t.core, step),
      if applied.Some? then t.applied + [applied.value.0] else t.applied,
      if applied.Some? then t.transfers + applied.value.1 else t.transfers,
      if applied.Some? && step.Apply? then t.commits + [(applied.value.0, Counted(t, applied.value.0))] else t.commits,
      if Handles(t.core, step) then t.handled + {step.b.core.slot} else t.handled,
      if step.Crash? then map[]
      else if vote.Some? then t.counted[vote.value.0 := Counted(t, vote.value.0) + {vote.value.1}]
      else t.counted)
  }

  ghost function RunSteps(k: Codec, self: string, t: Trace, steps: seq<Step>): Trace {
    if steps == [] then t else Next(k, self, RunSteps(k, self, t, steps[..|steps| - 1]), steps[|steps| - 1])
  }

  /** A node that starts on a store, with no votes and nothing under way. */
  function Fresh(s: State, threshold: nat): Trace {
    Trace(Core(s, EmptyTally(threshold), multiset{}, None), [], [], [], {}, map[])
  }

  // ----- What the store's two writes do ---------------------------------------------------------

  predicate Marked(db: Db, slot: nat) { slot in db.blocks && db.blocks[slot].core.invalidPoH }

  lemma StoringFacts(k: Codec, s: State, b: Broadcasted)
    requires L.StoreOk(k, s)
    ensures var s' := AddPending(k, s, b).0;
      && L.StoreOk(k, s')
      && s'.db.blocks.Keys == s.db.blocks.Keys + {b.core.slot}
      && (forall slot :: slot in s.db.blocks ==> Marked(s'.db, slot) == Marked(s.db, slot))
      && s'.db.finalized == s.db.finalized && s'.db.accounts == s.db.accounts
  {
    L.StepKeepsStore(k, L.Run(s, []), L.StoreBlock(b));
  }

  lemma FinalisingFacts(k: Codec, s: State, slot: nat)
    requires L.StoreOk(k, s) && slot in s.db.blocks
    ensures var s' := FinalizeBlock(k, s, s.db.blocks[slot]).0;
      && L.StoreOk(k, s')
      && s'.db.blocks.Keys == s.db.blocks.Keys
      && (forall x :: Marked(s'.db, x) == Marked(s.db, x))
      && if Marked(s.db, slot) then s'.db.finalized == s.db.finalized && s'.db.accounts == s.db.accounts
         else s'.db.finalized == s.db.finalized + {slot}
              && s'.db.accounts == ApplyAll(s.db.accounts, Transfers(Load(s.db, s.db.blocks[slot])))
  {
    L.StepKeepsStore(k, L.Run(s, []), L.FinalizeSlot(slot));
    if !Marked(s.db, slot) {
      L.FinalizeIsSequential(k, s, s.db.blocks[slot]);
    }
  }

  /** Sync's two writes together touch nothing but a slot that was unknown. */
  lemma SyncFacts(k: Codec, s: State, b: Broadcasted, checked: bool)
    requires L.StoreOk(k, s)
    ensures var s', slot := SyncOne(k, s, b, checked), b.core.slot;
      && (!checked || slot in s.db.blocks ==> s' == s)
      && L.StoreOk(k, s') && s.db.blocks.Keys <= s'.db.blocks.Keys <= s.db.blocks.Keys + {slot}
      && s.db.finalized <= s'.db.finalized <= s.db.finalized + {slot}
      && (forall x :: x in s.db.blocks ==> Marked(s'.db, x) == Marked(s.db, x))
  {
    if checked && b.core.slot !in s.db.blocks {
      StoringFacts(k, s, Judged(k, b));
      FinalisingFacts(k, AddPending(k, s, Judged(k, b)).0, b.core.slot);
    }
  }

  lemma {:induction false} ApplyAllConcat(m: Store, a: seq<Transaction>, b: seq<Transaction>)
    ensures ApplyAll(m, a + b) == ApplyAll(ApplyAll(m, a), b)
  {
    if b == [] {
      assert a + b == a;
    } else {
      assert (a + b)[..|a + b| - 1] == a + b[..|b| - 1];
      ApplyAllConcat(m, a, b[..|b| - 1]);
    }
  }

  // ----- At most once ---------------------------------------------------------------------------

  function Slots(s: seq<nat>): set<nat> { set x | x in s }

  /** The finalised markers are exactly the slots whose transfers are in the account store, and the
      accounts are exactly what those transfers make of the initial ones. */
  ghost predicate BooksInv(k: Codec, s0: State, t: Trace) {
    var db := t.core.store.db;
    && L.StoreOk(k, t.core.store)
    && db.finalized <= db.blocks.Keys
    && db.finalized == s0.db.finalized + Slots(t.applied)
    && (forall slot :: slot in t.applied ==> slot in db.blocks && !Marked(db, slot))
    && db.accounts == ApplyAll(s0.db.accounts, t.transfers)
  }

  /** No slot is applied twice, and none that was finalised at the start is applied again. */
  ghost predicate Once(s0: State, t: Trace) {
    NoDuplicates(t.applied) && Slots(t.applied) !! s0.db.finalized
  }

  lemma AppliedBooks(k: Codec, s0: State, t: Trace, s: State, slot: nat, u: Trace)
    requires BooksInv(k, s0, t)
    requires L.StoreOk(k, s) && slot in s.db.blocks && !Marked(s.db, slot)
    requires s.db.blocks.Keys >= t.core.store.db.blocks.Keys && s.db.finalized == t.core.store.db.finalized
    requires s.db.accounts == t.core.store.db.accounts
    requires forall x :: x in t.core.store.db.blocks ==> Marked(s.db, x) == Marked(t.core.store.db, x)
    requires u.core.store == FinalizeBlock(k, s, s.db.blocks[slot]).0
    requires u.applied == t.applied + [slot]
    requires u.transfers == t.transfers + Transfers(Load(s.db, s.db.blocks[slot]))
    ensures BooksInv(k, s0, u)
  {
    FinalisingFacts(k, s, slot);
    ApplyAllConcat(s0.db.accounts, t.transfers, Transfers(Load(s.db, s.db.blocks[slot])));
    assert Slots(u.applied) == Slots(t.applied) + {slot};
  }

  lemma StoredBooks(k: Codec, s0: State, t: Trace, b: Broadcasted, u: Trace)
    requires BooksInv(k, s0, t)
    requires u.core.store == AddPending(k, t.core.store, b).0
    requires u.applied == t.applied && u.transfers == t.transfers
    ensures BooksInv(k, s0, u)
  {
    StoringFacts(k, t.core.store, b);
  }

  lemma StepKeepsBooks(k: Codec, self: string, s0: State, t: Trace, step: Step)
    requires BooksInv(k, s0, t)
    ensures BooksInv(k, s0, Next(k, self, t, step))
  {
    var u := Next(k, self, t, step);
    match step
    case RecvBlock(b, checked) => if checked { StoredBooks(k, s0, t, Judged(k, b), u); }
    case RecvEmptyBlock(b) => StoredBooks(k, s0, t, b, u);
    case OwnBlock(b) => StoredBooks(k, s0, t, b, u);
    case SyncStore(b, checked) => if checked { StoredBooks(k, s0, t, Judged(k, b), u); }
    case Run(task, writeOk) => FinalisingKeepsBooks(k, self, s0, t, step, task.slot);
    case Apply(writeOk) =>
      FinalisingKeepsBooks(k, self, s0, t, step, if t.core.applying.Some? then t.core.applying.value else 0);
    case SyncBlock(b, checked) => SyncKeepsBooks(k, self, s0, t, b, checked);
    case RecvVote(_) =>
    case CleanVotes =>
    case Crash =>
  }

  lemma FinalisedBooks(k: Codec, s0: State, t: Trace, slot: nat, u: Trace)
    requires BooksInv(k, s0, t) && slot in t.core.store.db.blocks
    requires u.core.store == FinalizeBlock(k, t.core.store, t.core.store.db.blocks[slot]).0
    requires if Marked(t.core.store.db, slot) then u.applied == t.applied && u.transfers == t.transfers
      else && u.applied == t.applied + [slot]
           && u.transfers == t.transfers + Transfers(Load(t.core.store.db, t.core.store.db.blocks[slot]))
    ensures BooksInv(k, s0, u)
  {
    if Marked(t.core.store.db, slot) {
      FinalisingFacts(k, t.core.store, slot);
    } else {
      AppliedBooks(k, s0, t, t.core.store, slot, u);
    }
  }

  /** A task or the holder of the apply lock: if it finalises at all, it is the block of `slot`. */
  lemma FinalisingEffect(k: Codec, self: string, t: Trace, step: Step, slot: nat)
    requires step.Run? || step.Apply?
    requires step.Run? ==> slot == step.task.slot
    requires step.Apply? && t.core.applying.Some? ==> slot == t.core.applying.value
    ensures var u, db := Next(k, self, t, step), t.core.store.db;
      if Finalises(k, t.core, step).None?
      then u.core.store == t.core.store && u.applied == t.applied && u.transfers == t.transfers
      else && slot in db.blocks && u.core.store == FinalizeBlock(k, t.core.store, db.blocks[slot]).0
           && if Marked(db, slot) then u.applied == t.applied && u.transfers == t.transfers
              else u.applied == t.applied + [slot] && u.transfers == t.transfers + Transfers(Load(db, db.blocks[slot]))
  {
  }

  lemma FinalisingKeepsBooks(k: Codec, self: string, s0: State, t: Trace, step: Step, slot: nat)
    requires BooksInv(k, s0, t) && (step.Run? || step.Apply?)
    requires step.Run? ==> slot == step.task.slot
    requires step.Apply? && t.core.applying.Some? ==> slot == t.core.applying.value
    ensures BooksInv(k, s0, Next(k, self, t, step))
  {
    FinalisingEffect(k, self, t, step, slot);
    if Finalises(k, t.core, step).Some? {
      FinalisedBooks(k, s0, t, slot, Next(k, self, t, step));
    }
  }

  lemma SyncKeepsBooks(k: Codec, self: string, s0: State, t: Trace, b: Broadcasted, checked: bool)
    requires BooksInv(k, s0, t)
    ensures BooksInv(k, s0, Next(k, self, t, SyncBlock(b, checked)))
  {
    var u := Next(k, self, t, SyncBlock(b, checked));
    var slot := b.core.slot;
    if checked && slot !in t.core.store.db.blocks {
      var s := AddPending(k, t.core.store, Judged(k, b)).0;
      StoringFacts(k, t.core.store, Judged(k, b));
      FinalisingFacts(k, s, slot);
      if !Marked(s.db, slot) {
        AppliedBooks(k, s0, t, s, slot, u);
      }
    }
  }

  /** The slot that a finalising task, sync's own or the holder of the apply lock, is about to write. */
  function Writes(c: Core, step: Step): Option<nat> {
    match step
    case Run(SyncFinalize(slot), true) => if step.task in c.tasks then Some(slot) else None
    case Apply(true) => c.applying
    case _ => None
  }

  /** Such a write of a good block whose slot has been finalised in the meantime. */
  predicate Repeats(t: Trace, step: Step) {
    var w := Writes(t.core, step);
    && w.Some? && w.value in t.core.store.db.blocks && !Marked(t.core.store.db, w.value)
    && w.value in t.core.store.db.finalized
  }

  /** One step applies a slot again exactly when it is such a write: the ledger does not look at the
      finalised marker. */
  lemma StepAppliesOnce(k: Codec, self: string, s0: State, t: Trace, step: Step)
    requires BooksInv(k, s0, t)
    ensures Once(s0, Next(k, self, t, step)) <==> Once(s0, t) && !Repeats(t, step)
  {
    var u := Next(k, self, t, step);
    var applies := Applies(k, t.core, step);
    if applies.Some? {
      var slot := applies.value.0;
      assert slot in t.core.store.db.finalized <==> Repeats(t, step) by {
        if step.SyncBlock? {
          assert slot !in t.core.store.db.blocks;
        }
      }
      AppendedOnce(s0, t, slot, u);
    } else {
      assert u.applied == t.applied;
    }
  }

  lemma AppendedOnce(s0: State, t: Trace, slot: nat, u: Trace)
    requires u.applied == t.applied + [slot]
    ensures Once(s0, u) <==> Once(s0, t) && slot !in s0.db.finalized + Slots(t.applied)
  {
    assert Slots(u.applied) == Slots(t.applied) + {slot};
    if Once(s0, u) {
      assert forall i :: 0 <= i < |t.applied| ==> u.applied[i] == t.applied[i] && u.applied[|t.applied|] == slot;
    }
  }

  /** No write in the run finds its slot finalised in the meantime. */
  ghost predicate NeverRepeats(k: Codec, self: string, t: Trace, steps: seq<Step>) {
    steps == [] || (NeverRepeats(k, self, t, steps[..|steps| - 1])
                    && !Repeats(RunSteps(k, self, t, steps[..|steps| - 1]), steps[|steps| - 1]))
  }

  lemma {:induction false} BooksKept(k: Codec, self: string, s0: State, threshold: nat, steps: seq<Step>)
    requires L.StoreOk(k, s0) && s0.db.finalized <= s0.db.blocks.Keys
    ensures BooksInv(k, s0, RunSteps(k, self, Fresh(s0, threshold), steps))
  {
    if steps != [] {
      BooksKept(k, self, s0, threshold, steps[..|steps| - 1]);
      StepKeepsBooks(k, self, s0, RunSteps(k, self, Fresh(s0, threshold), steps[..|steps| - 1]), steps[|steps| - 1]);
    }
  }

  lemma {:induction false} AppliedOnceExactly(k: Codec, self: string, s0: State, threshold: nat, steps: seq<Step>)
    requires L.StoreOk(k, s0) && s0.db.finalized <= s0.db.blocks.Keys
    ensures Once(s0, RunSteps(k, self, Fresh(s0, threshold), steps))
      <==> NeverRepeats(k, self, Fresh(s0, threshold), steps)
  {
    if steps != [] {
      var front := steps[..|steps| - 1];
      AppliedOnceExactly(k, self, s0, threshold, front);
      BooksKept(k, self, s0, threshold, front);
      StepAppliesOnce(k, self, s0, RunSteps(k, self, Fresh(s0, threshold), front), steps[|steps| - 1]);
    }
  }

  /** In every run, crashes, failed writes and interrupted syncs included: the finalised markers are
      exactly the slots whose transfers are in the accounts, the accounts are exactly what those
      transfers make of the initial ones, blocks marked InvalidPoH never change an account, and no
      balance is made or lost. No slot is applied twice, and none finalised at the start is applied
      again, exactly when no write, of sync or under the apply lock, finds its slot finalised in the
      meantime. */
  lemma AtMostOnce(k: Codec, self: string, s0: State, threshold: nat, steps: seq<Step>)
    requires L.StoreOk(k, s0) && s0.db.finalized <= s0.db.blocks.Keys
    ensures var t := RunSteps(k, self, Fresh(s0, threshold), steps);
      && BooksInv(k, s0, t)
      && (Once(s0, t) <==> NeverRepeats(k, self, Fresh(s0, threshold), steps))
      && (Total(s0.db.accounts) < TWO_256 ==> Total(t.core.store.db.accounts) == Total(s0.db.accounts))
  {
    BooksKept(k, self, s0, threshold, steps);
    AppliedOnceExactly(k, self, s0, threshold, steps);
    if Total(s0.db.accounts) < TWO_256 {
      TransfersConserve(s0.db.accounts, RunSteps(k, self, Fresh(s0, threshold), steps).transfers);
    }
  }

  /** No sync is interrupted, and the slot under the apply lock is known and not yet finalised. */
  ghost predicate WholeInv(c: Core) {
    && (forall slot :: SyncFinalize(slot) !in c.tasks)
    && (c.applying.Some? ==> c.applying.value in c.store.db.blocks && c.applying.value !in c.store.db.finalized)
  }

  lemma StoreKeepsWhole(c: Core, d: Core)
    requires WholeInv(c) && d.applying == c.applying
    requires c.store.db.blocks.Keys <= d.store.db.blocks.Keys
    requires forall slot :: slot in c.store.db.blocks && slot in d.store.db.finalized ==> slot in c.store.db.finalized
    requires forall slot :: SyncFinalize(slot) in d.tasks ==> SyncFinalize(slot) in c.tasks
    ensures WholeInv(d)
  {
  }

  lemma StoringKeepsWhole(k: Codec, c: Core, b: Broadcasted, task: multiset<Task>)
    requires L.StoreOk(k, c.store) && WholeInv(c) && task <= multiset{CastOwn(b.core.slot)}
    ensures WholeInv(StoreThen(k, c, b, task))
  {
    StoringFacts(k, c.store, b);
    StoreKeepsWhole(c, StoreThen(k, c, b, task));
  }

  lemma RunKeepsWhole(k: Codec, self: string, c: Core, task: Task, writeOk: bool)
    requires L.StoreOk(k, c.store) && WholeInv(c)
    ensures WholeInv(Act(k, self, c, Run(task, writeOk)))
  {
  }

  lemma StepKeepsWhole(k: Codec, self: string, c: Core, step: Step)
    requires L.StoreOk(k, c.store) && WholeInv(c) && !step.SyncStore?
    ensures WholeInv(Act(k, self, c, step))
  {
    match step
    case RecvBlock(b, checked) => StoringKeepsWhole(k, c, Judged(k, b), multiset{CastOwn(b.core.slot)});
    case RecvEmptyBlock(b) => StoringKeepsWhole(k, c, b, multiset{});
    case OwnBlock(b) => StoringKeepsWhole(k, c, b, multiset{CastOwn(b.core.slot)});
    case SyncBlock(b, checked) =>
      SyncFacts(k, c.store, b, checked);
      StoreKeepsWhole(c, c.(store := SyncOne(k, c.store, b, checked)));
    case Run(task, writeOk) => RunKeepsWhole(k, self, c, task, writeOk);
    case Apply(_) =>
    case RecvVote(_) =>
    case CleanVotes =>
    case Crash =>
  }

  lemma {:induction false} WholeSyncNeverRepeats(k: Codec, self: string, s0: State, threshold: nat, steps: seq<Step>)
    requires L.StoreOk(k, s0) && s0.db.finalized <= s0.db.blocks.Keys
    requires forall i :: 0 <= i < |steps| ==> !steps[i].SyncStore?
    ensures WholeInv(RunSteps(k, self, Fresh(s0, threshold), steps).core)
    ensures NeverRepeats(k, self, Fresh(s0, threshold), steps)
  {
    if steps != [] {
      var front := steps[..|steps| - 1];
      WholeSyncNeverRepeats(k, self, s0, threshold, front);
      BooksKept(k, self, s0, threshold, front);
      StepKeepsWhole(k, self, RunSteps(k, self, Fresh(s0, threshold), front).core, steps[|steps| - 1]);
    }
  }

  /** So with sync storing and finalising in one action no slot is ever applied twice. */
  lemma WholeSyncAppliesOnce(k: Codec, self: string, s0: State, threshold: nat, steps: seq<Step>)
    requires L.StoreOk(k, s0) && s0.db.finalized <= s0.db.blocks.Keys
    requires forall i :: 0 <= i < |steps| ==> !steps[i].SyncStore?
    ensures Once(s0, RunSteps(k, self, Fresh(s0, threshold), steps))
  {
    WholeSyncNeverRepeats(k, self, s0, threshold, steps);
    AppliedOnceExactly(k, self, s0, threshold, steps);
  }

  /** What a finalising write does to a known, good block. */
  lemma WriteApplies(k: Codec, self: string, t: Trace, step: Step, slot: nat)
    requires Writes(t.core, step) == Some(slot)
    requires slot in t.core.store.db.blocks && !Marked(t.core.store.db, slot)
    ensures var u := Next(k, self, t, step);
      && u.applied == t.applied + [slot] && slot in u.core.store.db.blocks && !Marked(u.core.store.db, slot)
      && (step.Run? ==> u.core.applying == t.core.applying)
      && (step.Apply? ==> u.core.tasks == t.core.tasks)
  {
  }

  /** Once sync stands between its two writes of a slot that the holder of the apply lock has found not
      applied, the slot's transfers are applied twice, whichever of the two writes first. */
  lemma DoubleApply(k: Codec, self: string, t: Trace, slot: nat)
    requires SyncFinalize(slot) in t.core.tasks && t.core.applying == Some(slot)
    requires slot in t.core.store.db.blocks && !Marked(t.core.store.db, slot)
    ensures var sync, hold := Run(SyncFinalize(slot), true), Apply(true);
      && Next(k, self, Next(k, self, t, hold), sync).applied == t.applied + [slot] + [slot]
      && Next(k, self, Next(k, self, t, sync), hold).applied == t.applied + [slot] + [slot]
  {
    var sync, hold := Run(SyncFinalize(slot), true), Apply(true);
    WriteApplies(k, self, t, hold, slot);
    WriteApplies(k, self, Next(k, self, t, hold), sync, slot);
    WriteApplies(k, self, t, sync, slot);
    WriteApplies(k, self, Next(k, self, t, sync), hold, slot);
  }

  /** And one vote is enough to get there. */
  lemma SyncRace(k: Codec, self: string, s0: State, b: Broadcasted, voter: string)
    requires b.core.slot !in s0.db.blocks && b.core.slot !in s0.db.finalized
    requires Judged(k, b) == b && !b.core.invalidPoH
    ensures var slot := b.core.slot;
      var t1 := Next(k, self, Fresh(s0, 1), SyncStore(b, true));
      var t2 := Next(k, self, t1, RecvVote(Vote(slot, [], voter, true)));
      var t3 := Next(k, self, t2, Run(Check(slot, true), true));
      var t := Next(k, self, t3, Run(Commit(slot), true));
      && SyncFinalize(slot) in t.core.tasks && t.core.applying == Some(slot) && slot !in t.core.store.db.finalized
      && slot in t.core.store.db.blocks && !Marked(t.core.store.db, slot) && t.applied == []
  {
    var slot := b.core.slot;
    var t1 := Next(k, self, Fresh(s0, 1), SyncStore(b, true));
    SyncStores(k, self, s0, b);
    FirstVote(k, self, t1, slot, voter);
    var t2 := Next(k, self, t1, RecvVote(Vote(slot, [], voter, true)));
    CheckCommits(k, self, t2, slot);
    CommitHolds(k, self, Next(k, self, t2, Run(Check(slot, true), true)), slot);
  }

  lemma CommitHolds(k: Codec, self: string, t: Trace, slot: nat)
    requires Commit(slot) in t.core.tasks && t.core.applying.None?
    requires slot in t.core.store.db.blocks && slot !in t.core.store.db.finalized
    ensures var u := Next(k, self, t, Run(Commit(slot), true));
      && u.core == t.core.(tasks := t.core.tasks - multiset{Commit(slot)}, applying := Some(slot))
      && u.applied == t.applied
  {
  }

  lemma SyncStores(k: Codec, self: string, s0: State, b: Broadcasted)
    requires b.core.slot !in s0.db.blocks && Judged(k, b) == b && !b.core.invalidPoH
    ensures var u := Next(k, self, Fresh(s0, 1), SyncStore(b, true));
      && u.core.tally == EmptyTally(1) && u.core.tasks == multiset{SyncFinalize(b.core.slot)} && u.applied == []
      && u.core.applying.None?
      && b.core.slot in u.core.store.db.blocks && !Marked(u.core.store.db, b.core.slot)
      && u.core.store.db.finalized == s0.db.finalized
  {
  }

  lemma FirstVote(k: Codec, self: string, t: Trace, slot: nat, voter: string)
    requires t.core.tally == EmptyTally(1)
    ensures var u := Next(k, self, t, RecvVote(Vote(slot, [], voter, true)));
      && u.core.tasks == t.core.tasks + multiset{Check(slot, true)} && u.core.applying == t.core.applying
      && u.core.store == t.core.store && u.applied == t.applied
  {
    assert VotersOf(AddVote(t.core.tally, Vote(slot, [], voter, true)).0, slot) == {voter};
  }

  lemma CheckCommits(k: Codec, self: string, t: Trace, slot: nat)
    requires slot in t.core.store.db.blocks && Check(slot, true) in t.core.tasks
    ensures var u := Next(k, self, t, Run(Check(slot, true), true));
      && u.core.tasks == t.core.tasks - multiset{Check(slot, true)} + multiset{Commit(slot)}
      && u.core.store == t.core.store && u.applied == t.applied && u.core.applying == t.core.applying
  {
  }

  // ----- The handlers are sequences of the actions ----------------------------------------------

  /** What is left of a handler once its vote has been tried: `r` is how counting it went. */
  ghost function VoteToEnd(k: Codec, self: string, c: Core, slot: nat, r: VoteResult): Core {
    if r.Refused? then c else
    var d := Act(k, self, c, Run(Check(slot, r.committed), true));
    if !r.committed || slot !in c.store.db.blocks then d else
    Act(k, self, Act(k, self, d, Run(Commit(slot), true)), Apply(true))
  }

  /** Taking the apply lock, checking and finalising, without interruption. */
  lemma CommitToEnd(k: Codec, self: string, c: Core, slot: nat)
    requires Commit(slot) in c.tasks && c.applying.None?
    ensures Act(k, self, Act(k, self, c, Run(Commit(slot), true)), Apply(true))
            == c.(store := ApplySlot(k, c.store, slot), tasks := c.tasks - multiset{Commit(slot)})
  {
  }

  lemma VoteToEndIs(k: Codec, self: string, c: Core, v: Vote)
    requires c.applying.None?
    ensures var r := AddVote(c.tally, v).1;
      VoteToEnd(k, self, CountVote(c, v), v.slot, r)
      == Core(ProcessVote(k, c.store, c.tally, v).0, ProcessVote(k, c.store, c.tally, v).1, c.tasks, None)
  {
    var r := AddVote(c.tally, v).1;
    if r.Counted? {
      var one := CountVote(c, v);
      var two := Act(k, self, one, Run(Check(v.slot, r.committed), true));
      assert one.tasks - multiset{Check(v.slot, r.committed)} == c.tasks;
      if r.committed && v.slot in c.store.db.blocks {
        assert two == one.(tasks := c.tasks + multiset{Commit(v.slot)});
        assert two.tasks - multiset{Commit(v.slot)} == c.tasks;
        CommitToEnd(k, self, two, v.slot);
      }
    }
  }

  /** An uninterrupted vote handler is the actions RecvVote, Check and, if the vote commits a known
      block, Commit and Apply, one after the other. */
  lemma VoteHandlerIsActions(k: Codec, self: string, c: Core, v: Vote)
    requires c.applying.None?
    ensures VoteToEnd(k, self, Act(k, self, c, RecvVote(v)), v.slot, AddVote(c.tally, v).1)
            == Core(ProcessVote(k, c.store, c.tally, v).0, ProcessVote(k, c.store, c.tally, v).1, c.tasks, None)
  {
    VoteToEndIs(k, self, c, v);
  }

  /** An uninterrupted block handler is the actions RecvBlock, CastOwn, Check and, if the own vote
      commits, Commit and Apply, one after the other. */
  lemma BlockHandlerIsActions(k: Codec, self: string, c: Core, b: Broadcasted)
    requires b.core.slot !in c.store.db.blocks && c.applying.None?
    ensures var slot, s := b.core.slot, AddPending(k, c.store, Judged(k, b)).0;
      var v := Vote(slot, b.core.hash, self, true);
      var stored := Act(k, self, c, RecvBlock(b, true));
      var cast := Act(k, self, stored, Run(CastOwn(slot), true));
      VoteToEnd(k, self, cast, slot, AddVote(c.tally, v).1)
      == Core(ProcessVote(k, s, c.tally, v).0, ProcessVote(k, s, c.tally, v).1, c.tasks, None)
  {
    var slot, s := b.core.slot, AddPending(k, c.store, Judged(k, b)).0;
    var v := Vote(slot, b.core.hash, self, true);
    var stored := Act(k, self, c, RecvBlock(b, true));
    assert stored == Core(s, c.tally, c.tasks + multiset{CastOwn(slot)}, None);
    assert stored.tasks - multiset{CastOwn(slot)} == c.tasks;
    assert s.db.blocks[slot].core.hash == b.core.hash;
    assert Act(k, self, stored, Run(CastOwn(slot), true)) == CountVote(Core(s, c.tally, c.tasks, None), v);
    VoteToEndIs(k, self, Core(s, c.tally, c.tasks, None), v);
  }

  // ----- Votes behind every commit --------------------------------------------------------------

  /** Whatever is going to be applied on the strength of votes has had a threshold of voters counted for
      its slot since the last start, and whatever has been had them in the same life of the node. */
  ghost predicate QuorumInv(t: Trace) {
    var q := t.core.tally.threshold;
    && (forall slot: nat :: VotersOf(t.core.tally, slot) <= Counted(t, slot))
    && (forall slot: nat :: Check(slot, true) in t.core.tasks ==> |Counted(t, slot)| >= q)
    && (forall slot: nat :: Commit(slot) in t.core.tasks ==> |Counted(t, slot)| >= q)
    && (t.core.applying.Some? ==> |Counted(t, t.core.applying.value)| >= q)
    && (forall i :: 0 <= i < |t.commits| ==> |t.commits[i].1| >= q)
  }

  /** What trying to count a signed vote does: a voter already counted changes nothing; a new one is
      added and leaves a check that knows whether the threshold is reached. */
  ghost predicate Counts(c: Core, v: Vote, d: Core) {
    && d.store == c.store && d.tally.threshold == c.tally.threshold && d.applying == c.applying
    && if v.voter in VotersOf(c.tally, v.slot) then d == c
       else (forall s: nat :: VotersOf(d.tally, s) == VotersOf(c.tally, s) + if s == v.slot then {v.voter} else {})
            && d.tasks == c.tasks + multiset{Check(v.slot, |VotersOf(d.tally, v.slot)| >= c.tally.threshold)}
  }

  lemma CountVoteCounts(c: Core, v: Vote)
    requires v.signed
    ensures Counts(c, v, CountVote(c, v))
  {
  }

  /** Counting a vote keeps the quorum record. */
  lemma CountingKeepsQuorums(t: Trace, c: Core, v: Vote, u: Trace)
    requires QuorumInv(t)
    requires c.tally == t.core.tally && c.tasks <= t.core.tasks && c.applying == t.core.applying
    requires Counts(c, v, u.core) && u.commits == t.commits
    requires u.counted == t.counted[v.slot := Counted(t, v.slot) + {v.voter}]
    ensures QuorumInv(u)
  {
    forall slot: nat
      ensures VotersOf(u.core.tally, slot) <= Counted(u, slot) && |Counted(u, slot)| >= |Counted(t, slot)|
    {
      SubsetCardinality(Counted(t, slot), Counted(u, slot));
    }
    SubsetCardinality(VotersOf(u.core.tally, v.slot), Counted(u, v.slot));
  }

  /** Any other step that runs no task leaves votes and commits alone, or forgets some. */
  lemma QuietStep(k: Codec, self: string, t: Trace, step: Step)
    requires Votes(self, t.core, step).None? && (step.Run? ==> !Enabled(t.core, step.task)) && !step.Apply?
    ensures var u := Next(k, self, t, step);
      && u.commits == t.commits && u.core.tally.threshold == t.core.tally.threshold
      && if step.Crash? then u.core.tasks == multiset{} && u.core.applying.None? && u.core.tally.votes == map[]
         else && u.counted == t.counted && u.core.applying == t.core.applying
              && (forall slot: nat :: VotersOf(u.core.tally, slot) <= VotersOf(t.core.tally, slot))
              && (forall task :: task in u.core.tasks && (task.Check? || task.Commit?) ==> task in t.core.tasks)
  {
  }

  /** What running a task other than the own vote does to votes, tasks and history. */
  lemma TaskEffect(k: Codec, self: string, t: Trace, task: Task, writeOk: bool)
    requires Enabled(t.core, task) && !task.CastOwn?
    ensures var u := Next(k, self, t, Run(task, writeOk));
      && u.core.tally == t.core.tally && u.counted == t.counted && u.handled == t.handled && u.commits == t.commits
      && u.core.tasks == t.core.tasks - multiset{task}
           + (if task.Check? && task.committed && task.slot in t.core.store.db.blocks
             then multiset{Commit(task.slot)} else multiset{})
      && u.core.applying == (
           if task.Commit? && task.slot !in t.core.store.db.finalized && task.slot in t.core.store.db.blocks
           then Some(task.slot) else t.core.applying)
  {
  }

  lemma TaskKeepsQuorums(t: Trace, task: Task, u: Trace)
    requires QuorumInv(t) && task in t.core.tasks
    requires u.core.tally == t.core.tally && u.counted == t.counted && u.commits == t.commits
    requires u.core.tasks <= t.core.tasks + if task.Check? && task.committed
      then multiset{Commit(task.slot)} else multiset{}
    requires u.core.applying == t.core.applying || (task.Commit? && u.core.applying == Some(task.slot))
    ensures QuorumInv(u)
  {
  }

  lemma ApplyKeepsQuorums(k: Codec, self: string, t: Trace, writeOk: bool)
    requires QuorumInv(t)
    ensures QuorumInv(Next(k, self, t, Apply(writeOk)))
  {
    var u := Next(k, self, t, Apply(writeOk));
    assert u.core.tally == t.core.tally && u.counted == t.counted && u.core.tasks == t.core.tasks;
    assert u.core.applying.None?;
    assert u.commits == t.commits || (t.core.applying.Some?
      && u.commits == t.commits + [(t.core.applying.value, Counted(t, t.core.applying.value))]);
  }

  lemma OwnVoteEffect(k: Codec, self: string, t: Trace, slot: nat, writeOk: bool) returns (c: Core, v: Vote)
    requires CastOwn(slot) in t.core.tasks
    ensures c == t.core.(tasks := t.core.tasks - multiset{CastOwn(slot)})
    ensures v.signed && v.slot == slot && v.voter == self
    ensures var u := Next(k, self, t, Run(CastOwn(slot), writeOk));
      && u.core == CountVote(c, v) && u.commits == t.commits
      && u.counted == t.counted[slot := Counted(t, slot) + {self}]
  {
    c := t.core.(tasks := t.core.tasks - multiset{CastOwn(slot)});
    var hash := if slot in t.core.store.db.blocks then t.core.store.db.blocks[slot].core.hash else [];
    v := Vote(slot, hash, self, true);
  }

  lemma OwnVoteKeepsQuorums(k: Codec, self: string, t: Trace, slot: nat, writeOk: bool)
    requires QuorumInv(t) && CastOwn(slot) in t.core.tasks
    ensures QuorumInv(Next(k, self, t, Run(CastOwn(slot), writeOk)))
  {
    var c, v := OwnVoteEffect(k, self, t, slot, writeOk);
    CountVoteCounts(c, v);
    CountingKeepsQuorums(t, c, v, Next(k, self, t, Run(CastOwn(slot), writeOk)));
  }

  lemma RunKeepsQuorums(k: Codec, self: string, t: Trace, task: Task, writeOk: bool)
    requires QuorumInv(t) && Enabled(t.core, task)
    ensures QuorumInv(Next(k, self, t, Run(task, writeOk)))
  {
    if task.CastOwn? {
      OwnVoteKeepsQuorums(k, self, t, task.slot, writeOk);
    } else {
      TaskEffect(k, self, t, task, writeOk);
      TaskKeepsQuorums(t, task, Next(k, self, t, Run(task, writeOk)));
    }
  }

  lemma VoteKeepsQuorums(k: Codec, self: string, t: Trace, v: Vote)
    requires QuorumInv(t) && v.signed
    ensures QuorumInv(Next(k, self, t, RecvVote(v)))
  {
    CountVoteCounts(t.core, v);
    CountingKeepsQuorums(t, t.core, v, Next(k, self, t, RecvVote(v)));
  }

  lemma QuietKeepsQuorums(k: Codec, self: string, t: Trace, step: Step)
    requires QuorumInv(t) && Votes(self, t.core, step).None?
    requires (step.Run? ==> !Enabled(t.core, step.task)) && !step.Apply?
    ensures QuorumInv(Next(k, self, t, step))
  {
    QuietStep(k, self, t, step);
  }

  lemma StepKeepsQuorums(k: Codec, self: string, t: Trace, step: Step)
    requires QuorumInv(t)
    ensures QuorumInv(Next(k, self, t, step))
  {
    if step.RecvVote? && step.v.signed {
      VoteKeepsQuorums(k, self, t, step.v);
    } else if step.Run? && Enabled(t.core, step.task) {
      RunKeepsQuorums(k, self, t, step.task, step.writeOk);
    } else if step.Apply? {
      ApplyKeepsQuorums(k, self, t, step.writeOk);
    } else {
      QuietKeepsQuorums(k, self, t, step);
    }
  }

  /** In every run, every slot applied because it was committed has had a threshold of distinct voters
      whose signed votes for it this node counted since it was last started. */
  lemma {:induction false} CommitsHaveQuorums(k: Codec, self: string, s0: State, threshold: nat, steps: seq<Step>)
    ensures QuorumInv(RunSteps(k, self, Fresh(s0, threshold), steps))
  {
    if steps != [] {
      CommitsHaveQuorums(k, self, s0, threshold, steps[..|steps| - 1]);
      StepKeepsQuorums(k, self, RunSteps(k, self, Fresh(s0, threshold), steps[..|steps| - 1]), steps[|steps| - 1]);
    }
  }

  // ----- No committed slot is forgotten ---------------------------------------------------------

  /** Some handler is still at work on the slot. */
  predicate Pending(c: Core, slot: nat) {
    || CastOwn(slot) in c.tasks || Check(slot, true) in c.tasks || Commit(slot) in c.tasks
    || c.applying == Some(slot)
  }

  /** A slot that has its block, a good proof of history and a threshold of votes, but is not applied. */
  predicate Due(t: Trace, slot: nat) {
    var db := t.core.store.db;
    && slot in t.handled && !Marked(db, slot) && slot !in db.finalized
    && |VotersOf(t.core.tally, slot)| >= t.core.tally.threshold
  }

  /** The node votes for itself once per slot, and only for slots it stores. */
  ghost predicate OwnVoteInv(self: string, t: Trace) {
    && (forall slot: nat :: self in VotersOf(t.core.tally, slot) ==> slot in t.core.store.db.blocks)
    && (forall slot: nat :: CastOwn(slot) in t.core.tasks ==>
          slot in t.core.store.db.blocks && self !in VotersOf(t.core.tally, slot) && t.core.tasks[CastOwn(slot)] == 1)
  }

  ghost predicate LiveInv(k: Codec, self: string, t: Trace) {
    && L.StoreOk(k, t.core.store)
    && t.core.tally.threshold >= 1
    && t.handled <= t.core.store.db.blocks.Keys
    && OwnVoteInv(self, t)
    && (forall slot: nat :: Due(t, slot) ==> Pending(t.core, slot))
  }

  /** Batches are written, and no vote in the node's own name comes from outside. */
  predicate Benign(self: string, step: Step) {
    match step
    case RecvVote(v) => v.voter != self
    case Run(_, writeOk) => writeOk
    case Apply(writeOk) => writeOk
    case _ => true
  }

  lemma StoringKeepsLive(k: Codec, self: string, t: Trace, b: Broadcasted, task: multiset<Task>, u: Trace)
    requires LiveInv(k, self, t)
    requires task <= multiset{CastOwn(b.core.slot)} || task == multiset{SyncFinalize(b.core.slot)}
    requires u.core == StoreThen(k, t.core, b, task)
    requires u.handled <= t.handled + {b.core.slot}
    requires b.core.slot in u.handled && b.core.slot !in t.core.store.db.blocks
      ==> task == multiset{CastOwn(b.core.slot)}
    requires b.core.slot in t.core.store.db.blocks ==> u.handled == t.handled
    ensures LiveInv(k, self, u)
  {
    StoringFacts(k, t.core.store, b);
    forall slot: nat | Due(u, slot)
      ensures Pending(u.core, slot)
    {
      if slot in t.handled {
        assert Due(t, slot);
      }
    }
  }

  lemma CountingKeepsOwn(self: string, t: Trace, c: Core, v: Vote, u: Trace)
    requires OwnVoteInv(self, t)
    requires c.store == t.core.store && c.tally == t.core.tally && c.applying == t.core.applying
    requires Counts(c, v, u.core)
    requires if v.voter == self
      then CastOwn(v.slot) in t.core.tasks && c.tasks == t.core.tasks - multiset{CastOwn(v.slot)}
             else c.tasks == t.core.tasks
    ensures OwnVoteInv(self, u)
  {
    forall slot: nat | CastOwn(slot) in u.core.tasks
      ensures slot in u.core.store.db.blocks && self !in VotersOf(u.core.tally, slot)
        && u.core.tasks[CastOwn(slot)] == 1
    {
      assert CastOwn(slot) in t.core.tasks;
    }
  }

  lemma CountingKeepsLive(k: Codec, self: string, t: Trace, c: Core, v: Vote, u: Trace)
    requires LiveInv(k, self, t)
    requires c.store == t.core.store && c.tally == t.core.tally && c.applying == t.core.applying
    requires Counts(c, v, u.core) && u.handled == t.handled
    requires if v.voter == self
      then CastOwn(v.slot) in t.core.tasks && c.tasks == t.core.tasks - multiset{CastOwn(v.slot)}
             else c.tasks == t.core.tasks
    ensures LiveInv(k, self, u)
  {
    CountingKeepsOwn(self, t, c, v, u);
    forall slot: nat | Due(u, slot)
      ensures Pending(u.core, slot)
    {
      CountingKeepsDue(k, self, t, c, v, u, slot);
    }
  }

  lemma CountingKeepsDue(k: Codec, self: string, t: Trace, c: Core, v: Vote, u: Trace, slot: nat)
    requires LiveInv(k, self, t) && Due(u, slot)
    requires c.store == t.core.store && c.tally == t.core.tally && c.applying == t.core.applying
    requires Counts(c, v, u.core) && u.handled == t.handled
    requires if v.voter == self
      then CastOwn(v.slot) in t.core.tasks && c.tasks == t.core.tasks - multiset{CastOwn(v.slot)}
             else c.tasks == t.core.tasks
    ensures Pending(u.core, slot)
  {
    if slot != v.slot || u.core.tally == t.core.tally {
      assert Due(t, slot);
    } else {
      assert Check(slot, true) in u.core.tasks;
    }
  }

  lemma VoteKeepsLive(k: Codec, self: string, t: Trace, v: Vote)
    requires LiveInv(k, self, t) && v.signed && v.voter != self
    ensures LiveInv(k, self, Next(k, self, t, RecvVote(v)))
  {
    CountVoteCounts(t.core, v);
    CountingKeepsLive(k, self, t, t.core, v, Next(k, self, t, RecvVote(v)));
  }

  lemma CheckKeepsLive(k: Codec, self: string, t: Trace, slot: nat, committed: bool, u: Trace)
    requires LiveInv(k, self, t) && Check(slot, committed) in t.core.tasks
    requires u.core.store == t.core.store && u.core.tally == t.core.tally && u.handled == t.handled
    requires u.core.applying == t.core.applying
    requires u.core.tasks == t.core.tasks - multiset{Check(slot, committed)}
               + if committed && slot in t.core.store.db.blocks then multiset{Commit(slot)} else multiset{}
    ensures LiveInv(k, self, u)
  {
    assert forall x: nat :: Due(u, x) ==> Due(t, x) && x in t.core.store.db.blocks;
  }

  lemma CommitKeepsLive(k: Codec, self: string, t: Trace, slot: nat, u: Trace)
    requires LiveInv(k, self, t) && Commit(slot) in t.core.tasks && t.core.applying.None?
    requires u.core.store == t.core.store && u.core.tally == t.core.tally && u.handled == t.handled
    requires u.core.tasks == t.core.tasks - multiset{Commit(slot)}
    requires slot !in t.core.store.db.finalized && slot in t.core.store.db.blocks ==> u.core.applying == Some(slot)
    ensures LiveInv(k, self, u)
  {
    assert forall x: nat :: Due(u, x) ==> Due(t, x) && x in t.core.store.db.blocks;
  }

  /** A finalisation, be it of sync or under the apply lock. */
  lemma FinaliseKeepsLive(k: Codec, self: string, t: Trace, slot: nat, u: Trace)
    requires LiveInv(k, self, t)
    requires u.core.tally == t.core.tally && u.handled == t.handled
    requires || (u.core.applying == t.core.applying && u.core.tasks == t.core.tasks - multiset{SyncFinalize(slot)})
             || (u.core.applying.None? && t.core.applying == Some(slot) && u.core.tasks == t.core.tasks)
    requires L.StoreOk(k, u.core.store) && u.core.store.db.blocks.Keys == t.core.store.db.blocks.Keys
    requires u.core.store.db.finalized >= t.core.store.db.finalized
    requires forall x :: Marked(u.core.store.db, x) == Marked(t.core.store.db, x)
    requires slot in t.core.store.db.blocks && !Marked(t.core.store.db, slot) ==> slot in u.core.store.db.finalized
    ensures LiveInv(k, self, u)
  {
    forall x: nat | Due(u, x)
      ensures Pending(u.core, x)
    {
      assert Due(t, x) && x != slot;
    }
  }

  lemma ApplyKeepsLive(k: Codec, self: string, t: Trace)
    requires LiveInv(k, self, t)
    ensures LiveInv(k, self, Next(k, self, t, Apply(true)))
  {
    var u := Next(k, self, t, Apply(true));
    if t.core.applying.None? {
      SameKeepsLive(k, self, t, u);
    } else {
      var slot := t.core.applying.value;
      if slot in t.core.store.db.blocks {
        FinalisingFacts(k, t.core.store, slot);
      }
      FinaliseKeepsLive(k, self, t, slot, u);
    }
  }

  lemma RunKeepsLive(k: Codec, self: string, t: Trace, task: Task)
    requires LiveInv(k, self, t) && Enabled(t.core, task)
    ensures LiveInv(k, self, Next(k, self, t, Run(task, true)))
  {
    var u := Next(k, self, t, Run(task, true));
    if task.CastOwn? {
      var hash := t.core.store.db.blocks[task.slot].core.hash;
      var c := t.core.(tasks := t.core.tasks - multiset{task});
      CountVoteCounts(c, Vote(task.slot, hash, self, true));
      CountingKeepsLive(k, self, t, c, Vote(task.slot, hash, self, true), u);
    } else {
      TaskEffect(k, self, t, task, true);
      if task.Check? {
        CheckKeepsLive(k, self, t, task.slot, task.committed, u);
      } else if task.Commit? {
        CommitKeepsLive(k, self, t, task.slot, u);
      } else {
        if task.slot in t.core.store.db.blocks {
          FinalisingFacts(k, t.core.store, task.slot);
        }
        FinaliseKeepsLive(k, self, t, task.slot, u);
      }
    }
  }

  lemma SyncKeepsLive(k: Codec, self: string, t: Trace, b: Broadcasted, checked: bool)
    requires LiveInv(k, self, t)
    ensures LiveInv(k, self, Next(k, self, t, SyncBlock(b, checked)))
  {
    var u := Next(k, self, t, SyncBlock(b, checked));
    SyncFacts(k, t.core.store, b, checked);
    assert u.core == t.core.(store := SyncOne(k, t.core.store, b, checked)) && u.handled == t.handled;
    assert forall x: nat :: Due(u, x) ==> Due(t, x);
  }

  lemma ForgettingKeepsLive(k: Codec, self: string, t: Trace, step: Step)
    requires LiveInv(k, self, t) && (step.CleanVotes? || step.Crash?)
    ensures LiveInv(k, self, Next(k, self, t, step))
  {
    var u := Next(k, self, t, step);
    forall x: nat | Due(u, x)
      ensures Pending(u.core, x)
    {
      assert VotersOf(u.core.tally, x) == {} || VotersOf(u.core.tally, x) == VotersOf(t.core.tally, x);
      assert step.CleanVotes? && Due(t, x);
    }
  }

  lemma StepKeepsLive(k: Codec, self: string, t: Trace, step: Step)
    requires LiveInv(k, self, t) && Benign(self, step)
    ensures LiveInv(k, self, Next(k, self, t, step))
  {
    var u := Next(k, self, t, step);
    match step
    case RecvBlock(b, checked) =>
      if checked { StoringKeepsLive(k, self, t, Judged(k, b), multiset{CastOwn(b.core.slot)}, u); }
      else { SameKeepsLive(k, self, t, u); }
    case RecvEmptyBlock(b) => StoringKeepsLive(k, self, t, b, multiset{}, u);
    case OwnBlock(b) => StoringKeepsLive(k, self, t, b, multiset{CastOwn(b.core.slot)}, u);
    case SyncStore(b, checked) =>
      if checked { StoringKeepsLive(k, self, t, Judged(k, b), multiset{SyncFinalize(b.core.slot)}, u); }
      else { SameKeepsLive(k, self, t, u); }
    case RecvVote(v) =>
      if v.signed { VoteKeepsLive(k, self, t, v); } else { SameKeepsLive(k, self, t, u); }
    case Run(task, _) =>
      if Enabled(t.core, task) { RunKeepsLive(k, self, t, task); } else { SameKeepsLive(k, self, t, u); }
    case Apply(_) => ApplyKeepsLive(k, self, t);
    case SyncBlock(b, checked) => SyncKeepsLive(k, self, t, b, checked);
    case CleanVotes => ForgettingKeepsLive(k, self, t, step);
    case Crash => ForgettingKeepsLive(k, self, t, step);
  }

  lemma SameKeepsLive(k: Codec, self: string, t: Trace, u: Trace)
    requires LiveInv(k, self, t) && u.core == t.core && u.handled == t.handled
    ensures LiveInv(k, self, u)
  {
    assert forall x: nat :: Due(u, x) ==> Due(t, x);
  }

  /** In every benign run, crashes included, a slot whose block was stored by a voting handler with a
      good proof of history and which has a threshold of votes is applied or still being worked on; so
      once no handler is under way it is applied. */
  lemma {:induction false} CommittedSlotsApply(k: Codec, self: string, s0: State, n: nat, steps: seq<Step>)
    requires L.StoreOk(k, s0)
    requires forall i :: 0 <= i < |steps| ==> Benign(self, steps[i])
    ensures var t := RunSteps(k, self, Fresh(s0, Threshold(n)), steps);
      && LiveInv(k, self, t)
      && (t.core.tasks == multiset{} && t.core.applying.None? ==> forall slot: nat :: !Due(t, slot))
  {
    if steps != [] {
      CommittedSlotsApply(k, self, s0, n, steps[..|steps| - 1]);
      StepKeepsLive(k, self, RunSteps(k, self, Fresh(s0, Threshold(n)), steps[..|steps| - 1]), steps[|steps| - 1]);
    }
  }

  /** A vote in the node's own name that arrives before the block is what breaks this: the stored slot
      has its threshold of votes, nothing is under way, and it is not applied. */
  lemma OwnVoteFirst(k: Codec, self: string, s0: State, b: Broadcasted)
    requires L.StoreOk(k, s0) && b.core.slot !in s0.db.blocks && b.core.slot !in s0.db.finalized && !b.core.invalidPoH
    ensures var slot := b.core.slot;
      var t1 := Next(k, self, Fresh(s0, 1), RecvVote(Vote(slot, [], self, true)));
      var t2 := Next(k, self, t1, Run(Check(slot, true), true));
      var t3 := Next(k, self, t2, OwnBlock(b));
      var t4 := Next(k, self, t3, Run(CastOwn(slot), true));
      t4.core.tasks == multiset{} && t4.core.applying.None? && Due(t4, slot)
  {
    var slot := b.core.slot;
    var t1 := Next(k, self, Fresh(s0, 1), RecvVote(Vote(slot, [], self, true)));
    assert VotersOf(t1.core.tally, slot) == {self};
    assert t1.core.store == s0 && t1.core.tasks == multiset{Check(slot, true)};
    var t2 := Next(k, self, t1, Run(Check(slot, true), true));
    assert t2.core == t1.core.(tasks := multiset{});
    StoredButIgnored(k, self, t2, b);
  }

  /** Exactly when a newly received block is applied by the time its handler returns: its proof of
      history checks, the node's own vote is still to be counted, and with it the votes suffice. */
  lemma HandlerApplies(k: Codec, self: string, s: State, t: Tally, b: Broadcasted)
    requires L.StoreOk(k, s) && b.core.slot !in s.db.blocks && b.core.slot !in s.db.finalized && !b.core.invalidPoH
    ensures var slot := b.core.slot;
      slot in ProcessVote(k, AddPending(k, s, Judged(k, b)).0, t, Vote(slot, b.core.hash, self, true)).0.db.finalized
      <==> (Verify.Accepts(k, b.core.prevHash, b.entries) && self !in VotersOf(t, slot)
            && |VotersOf(t, slot)| + 1 >= t.threshold)
  {
    var slot, s' := b.core.slot, AddPending(k, s, Judged(k, b)).0;
    StoringFacts(k, s, Judged(k, b));
    FinalisingFacts(k, s', slot);
    assert Marked(s'.db, slot) <==> !Verify.Accepts(k, b.core.prevHash, b.entries);
    if self !in VotersOf(t, slot) {
      assert |VotersOf(t, slot) + {self}| == |VotersOf(t, slot)| + 1;
    }
  }

  lemma StoredButIgnored(k: Codec, self: string, t: Trace, b: Broadcasted)
    requires L.StoreOk(k, t.core.store) && b.core.slot !in t.core.store.db.blocks && !b.core.invalidPoH
    requires b.core.slot !in t.core.store.db.finalized && t.core.tasks == multiset{} && t.core.applying.None?
    requires VotersOf(t.core.tally, b.core.slot) == {self} && t.core.tally.threshold <= 1
    ensures var t' := Next(k, self, Next(k, self, t, OwnBlock(b)), Run(CastOwn(b.core.slot), true));
      t'.core.tasks == multiset{} && t'.core.applying.None? && Due(t', b.core.slot)
  {
    var slot := b.core.slot;
    StoringFacts(k, t.core.store, b);
    var t1 := Next(k, self, t, OwnBlock(b));
    assert t1.core == Core(AddPending(k, t.core.store, b).0, t.core.tally, multiset{CastOwn(slot)}, None)
      && slot in t1.handled;
    var t2 := Next(k, self, t1, Run(CastOwn(slot), true));
    assert t2.core == t1.core.(tasks := multiset{});
  }
}
