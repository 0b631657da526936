/** What the store knows about its newest slots, and what of it survives a restart. */
module Restart {
  import opened Base
  import opened BlockStore
  import opened Ledger
  import opened LedgerProof
  import opened Node

  /** The newest stored slot is the greatest one, and is persisted. */
  ghost predicate StoreLatest(s: State) {
    && (forall x :: x in s.db.blocks ==> x <= s.latestStore)
    && (s.latestStore > 0 ==> s.latestStore in s.db.blocks)
    && s.db.metaStore == (if s.latestStore > 0 then Some(s.latestStore) else None)
  }

  /** The newest finalised slot is the greatest one, and is persisted. */
  ghost predicate FinalizedLatest(s: State) {
    && (forall x :: x in s.db.finalized ==> x <= s.latestFinalized)
    && (s.latestFinalized > 0 ==> s.latestFinalized in s.db.finalized)
    && s.db.metaFinalized == (if s.latestFinalized > 0 then Some(s.latestFinalized) else None)
  }

  /** The step finalises no slot below one that is finalised already. */
  ghost predicate Ascending(r: LedgerProof.Run, step: LedgerProof.Step) {
    step.FinalizeSlot? ==> step.slot >= r.store.latestFinalized
  }

  lemma StepKeepsStoreLatest(k: Codec, r: LedgerProof.Run, step: LedgerProof.Step)
    requires SlotsOk(r.store.db) && StoreLatest(r.store)
    ensures SlotsOk(LedgerProof.Next(k, r, step).store.db) && StoreLatest(LedgerProof.Next(k, r, step).store)
  {
    if step.StoreBlock? {
      var s, slot := AddPending(k, r.store, step.b).0, step.b.core.slot;
      assert s.db.blocks.Keys <= r.store.db.blocks.Keys + {slot};
    } else if step.slot in r.store.db.blocks {
      var s := FinalizeBlock(k, r.store, r.store.db.blocks[step.slot]).0;
      assert s.db.blocks.Keys == r.store.db.blocks.Keys;
    }
  }

  /** Finalising a slot keeps the newest finalised slot the greatest one exactly when the slot is not
      below it: the counter is overwritten without looking. */
  lemma FinalizedStaysLatest(k: Codec, s: State, slot: nat)
    requires SlotsOk(s.db) && FinalizedLatest(s) && slot in s.db.blocks && !s.db.blocks[slot].core.invalidPoH
    ensures FinalizedLatest(FinalizeBlock(k, s, s.db.blocks[slot]).0) <==> slot >= s.latestFinalized
  {
    var s' := FinalizeBlock(k, s, s.db.blocks[slot]).0;
    assert s'.latestFinalized == slot && s'.db.finalized == s.db.finalized + {slot};
    if slot < s.latestFinalized {
      assert s.latestFinalized in s'.db.finalized;
    }
  }

  lemma StepKeepsFinalizedLatest(k: Codec, r: LedgerProof.Run, step: LedgerProof.Step)
    requires SlotsOk(r.store.db) && FinalizedLatest(r.store) && Ascending(r, step)
    ensures FinalizedLatest(LedgerProof.Next(k, r, step).store)
  {
    if step.FinalizeSlot? && step.slot in r.store.db.blocks && !r.store.db.blocks[step.slot].core.invalidPoH {
      FinalizedStaysLatest(k, r.store, step.slot);
    }
  }

  /** In every run that finalises in ascending order, both counters are the greatest slots of their kind;
      and reopening the database brings back both exactly when nothing has been stored above slot 0 or
      something has been finalised above it. */
  lemma {:induction false} RestartKeepsLatest(k: Codec, r: LedgerProof.Run, steps: seq<LedgerProof.Step>)
    requires SlotsOk(r.store.db) && StoreLatest(r.store) && FinalizedLatest(r.store)
    requires forall i :: 0 <= i < |steps| ==> Ascending(LedgerProof.RunSteps(k, r, steps[..i]), steps[i])
    ensures var s := LedgerProof.RunSteps(k, r, steps).store;
      && SlotsOk(s.db) && StoreLatest(s) && FinalizedLatest(s)
      && (Reopened(s.db) == s <==> s.latestStore == 0 || s.latestFinalized > 0)
  {
    if steps != [] {
      var front := steps[..|steps| - 1];
      assert forall i :: 0 <= i < |front| ==> front[..i] == steps[..i] && front[i] == steps[i];
      RestartKeepsLatest(k, r, front);
      StepKeepsStoreLatest(k, LedgerProof.RunSteps(k, r, front), steps[|steps| - 1]);
      StepKeepsFinalizedLatest(k, LedgerProof.RunSteps(k, r, front), steps[|steps| - 1]);
    }
  }
}
