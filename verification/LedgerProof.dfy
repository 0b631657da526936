/** What finalising blocks does to the whole store, over any run. */
module LedgerProof {
  import opened Base
  import opened Accounts
  import opened Content
  import opened Overlay
  import opened BlockStore
  import opened Ledger

  // ----- One block ------------------------------------------------------------------------------

  lemma {:induction false} FirstPassIsApplyAll(k: Codec, core: BlockCore, txs: seq<Transaction>, state: Store)
    ensures FirstPass(k, core, txs, state).0 == ApplyAll(state, Transfers(txs))
  {
    if txs != [] {
      var front, tx := txs[..|txs| - 1], txs[|txs| - 1];
      FirstPassIsApplyAll(k, core, front, state);
      if tx.IsContent() {
        assert Transfers(txs) == Transfers(front);
      } else {
        assert Transfers(txs)[..|Transfers(front)|] == Transfers(front);
      }
    }
  }

  lemma {:induction false} ContentsNamed(k: Codec, txs: seq<Transaction>, i: nat)
    requires i < |txs|
    ensures Names(k, txs[i], RelatedHashes(k, txs), RootHashes(k, txs))
  {
    if i < |txs| - 1 {
      ContentsNamed(k, txs[..|txs| - 1], i);
    }
  }

  /** Contents accepted when the block is finalised, judged against the whole store. */
  function Accepted(k: Codec, s: State, blk: Block): seq<Transaction> {
    ValidateAll(k, Contents(k, Load(s.db, blk)), s.db.txs, s.db.latest).1
  }

  /** Finalising a stored block that is not marked InvalidPoH is applying its transfers one at a time
      to the whole account store and its contents one at a time to the whole version table, and
      nothing else of accounts, versions or transactions changes. */
  lemma FinalizeIsSequential(k: Codec, s: State, blk: Block)
    requires !blk.core.invalidPoH && blk.core.slot in s.db.blocks
    ensures var db := FinalizeBlock(k, s, blk).0.db;
      && db.accounts == ApplyAll(s.db.accounts, Transfers(Load(s.db, blk)))
      && db.latest == ValidateAll(k, Contents(k, Load(s.db, blk)), s.db.txs, s.db.latest).0
      && db.txs == s.db.txs
      && db.finalized == s.db.finalized + {blk.core.slot}
  {
    var txs := Load(s.db, blk);
    var keys := Addresses(Transfers(txs));
    FirstPassIsApplyAll(k, blk.core, txs, Restrict(s.db.accounts, keys));
    OverlayIsSequential(s.db.accounts, Transfers(txs), keys);
    var contents := Contents(k, txs);
    forall i | 0 <= i < |contents|
      ensures Names(k, contents[i], RelatedHashes(k, contents), RootHashes(k, contents))
    {
      ContentsNamed(k, contents, i);
    }
    ContentOverlay(k, contents, s.db.txs, RelatedHashes(k, contents), RootHashes(k, contents), s.db.latest);
  }

  // ----- Transaction metas ----------------------------------------------------------------------

  ghost predicate DistinctHashes(k: Codec, txs: seq<Transaction>) {
    forall i, j :: 0 <= i < j < |txs| ==> k.txHash(txs[i]) != k.txHash(txs[j])
  }

  /** A transfer's meta records whether it succeeded at its place in the sequence. */
  lemma {:induction false} FirstPassMetas(k: Codec, core: BlockCore, txs: seq<Transaction>, state: Store, i: nat)
    requires DistinctHashes(k, txs) && i < |txs| && !txs[i].IsContent()
    ensures var metas := FirstPass(k, core, txs, state).1;
      && k.txHash(txs[i]) in metas
      && metas[k.txHash(txs[i])] == Mark(core, ApplyTx(ApplyAll(state, Transfers(txs[..i])), txs[i]).1)
  {
    var front := txs[..|txs| - 1];
    if i == |txs| - 1 {
      FirstPassIsApplyAll(k, core, front, state);
    } else {
      assert front[..i] == txs[..i] && front[i] == txs[i];
      FirstPassMetas(k, core, front, state, i);
      assert k.txHash(txs[i]) != k.txHash(txs[|txs| - 1]);
    }
  }

  lemma {:induction false} SecondPassKeeps(k: Codec, core: BlockCore, txs: seq<Transaction>,
      related: map<string, Transaction>, latest: Latest, metas: map<string, Meta>, h: string)
    requires forall i :: 0 <= i < |txs| ==> k.txHash(txs[i]) != h
    ensures var m := SecondPass(k, core, txs, related, latest, metas);
      (h in m <==> h in metas) && (h in metas ==> m[h] == metas[h])
  {
    if txs != [] {
      SecondPassKeeps(k, core, txs[..|txs| - 1], related, latest, metas, h);
    }
  }

  lemma {:induction false} TransfersPrefix(txs: seq<Transaction>, i: nat)
    requires i <= |txs|
    ensures Addresses(Transfers(txs[..i])) <= Addresses(Transfers(txs))
  {
    if i < |txs| {
      var front := txs[..|txs| - 1];
      assert front[..i] == txs[..i];
      TransfersPrefix(front, i);
      if txs[|txs| - 1].IsContent() {
        assert Transfers(txs) == Transfers(front);
      } else {
        assert Transfers(txs)[..|Transfers(front)|] == Transfers(front);
      }
    } else {
      assert txs[..i] == txs;
    }
  }

  /** After finalisation a transfer's stored status is its outcome when the block's transfers are
      applied one at a time to the whole store. */
  lemma TransferStatus(k: Codec, s: State, blk: Block, i: nat)
    requires !blk.core.invalidPoH && blk.core.slot in s.db.blocks
    requires var txs := Load(s.db, blk); DistinctHashes(k, txs) && i < |txs| && !txs[i].IsContent()
    ensures var txs := Load(s.db, blk);
      var metas := FinalizeBlock(k, s, blk).0.db.metas;
      && k.txHash(txs[i]) in metas
      && metas[k.txHash(txs[i])] == Mark(blk.core, ApplyTx(ApplyAll(s.db.accounts, Transfers(txs[..i])), txs[i]).1)
  {
    var txs := Load(s.db, blk);
    var keys := Addresses(Transfers(txs));
    var part := Restrict(s.db.accounts, keys);
    FirstPassMetas(k, blk.core, txs, part, i);
    var h := k.txHash(txs[i]);
    var contents := Contents(k, txs);
    ContentsApart(k, txs, i);
    SecondPassKeeps(k, blk.core, contents, Restrict(s.db.txs, RelatedHashes(k, contents)),
      Restrict(s.db.latest, RootHashes(k, contents)),
      FirstPass(k, blk.core, txs, part).1, h);
    SameVerdict(s.db.accounts, txs, i);
  }

  lemma ContentsApart(k: Codec, txs: seq<Transaction>, i: nat)
    requires DistinctHashes(k, txs) && i < |txs| && !txs[i].IsContent()
    ensures forall j :: 0 <= j < |Contents(k, txs)| ==> k.txHash(Contents(k, txs)[j]) != k.txHash(txs[i])
  {
    ContentsParse(k, txs);
    forall j | 0 <= j < |Contents(k, txs)|
      ensures k.txHash(Contents(k, txs)[j]) != k.txHash(txs[i])
    {
      var c := Contents(k, txs)[j];
      var n :| 0 <= n < |txs| && txs[n] == c;
      assert n != i;
    }
  }

  lemma SameVerdict(m: Store, txs: seq<Transaction>, i: nat)
    requires i < |txs| && !txs[i].IsContent()
    ensures var part := Restrict(m, Addresses(Transfers(txs)));
      ApplyTx(ApplyAll(part, Transfers(txs[..i])), txs[i]).1 == ApplyTx(ApplyAll(m, Transfers(txs[..i])), txs[i]).1
  {
    var upto := Transfers(txs[..i + 1]);
    assert txs[..i + 1][..i] == txs[..i];
    assert upto == Transfers(txs[..i]) + [txs[i]];
    assert upto[..|upto| - 1] == Transfers(txs[..i]);
    TransfersPrefix(txs, i + 1);
    OverlayIsSequential(m, upto, Addresses(Transfers(txs)));
  }

  /** A content's meta records whether it was accepted at its place among the contents. */
  lemma {:induction false} SecondPassMetas(k: Codec, core: BlockCore, txs: seq<Transaction>,
      related: map<string, Transaction>, latest: Latest, metas: map<string, Meta>, i: nat)
    requires DistinctHashes(k, txs) && i < |txs|
    ensures var m := SecondPass(k, core, txs, related, latest, metas);
      && k.txHash(txs[i]) in m
      && m[k.txHash(txs[i])] == Mark(core, Validate(k, txs[i], related, ValidateAll(k, txs[..i], related, latest).0).1)
  {
    if i < |txs| - 1 {
      var front := txs[..|txs| - 1];
      assert front[..i] == txs[..i] && front[i] == txs[i];
      SecondPassMetas(k, core, front, related, latest, metas, i);
      assert k.txHash(txs[i]) != k.txHash(txs[|txs| - 1]);
    }
  }

  /** The verdict on one content is the same against what the block names as against the whole store. */
  lemma SameContentVerdict(k: Codec, s: State, contents: seq<Transaction>, i: nat)
    requires i < |contents|
    ensures var hashes, roots := RelatedHashes(k, contents), RootHashes(k, contents);
      var related, latest := Restrict(s.db.txs, hashes), Restrict(s.db.latest, roots);
      Validate(k, contents[i], related, ValidateAll(k, contents[..i], related, latest).0).1
      == Validate(k, contents[i], s.db.txs, ValidateAll(k, contents[..i], s.db.txs, s.db.latest).0).1
  {
    var hashes, roots := RelatedHashes(k, contents), RootHashes(k, contents);
    forall j | 0 <= j < |contents|
      ensures Names(k, contents[j], hashes, roots)
    {
      ContentsNamed(k, contents, j);
    }
    var front := contents[..i];
    ContentOverlay(k, front, s.db.txs, hashes, roots, s.db.latest);
    RestrictedValidate(k, contents[i], s.db.txs, hashes, roots, s.db.latest,
      ValidateAll(k, front, Restrict(s.db.txs, hashes), Restrict(s.db.latest, roots)).0,
      ValidateAll(k, front, s.db.txs, s.db.latest).0);
  }

  /** After finalisation a content's stored status is its outcome when the block's contents are validated
      one at a time against the whole store. */
  lemma ContentStatus(k: Codec, s: State, blk: Block, i: nat)
    requires !blk.core.invalidPoH && blk.core.slot in s.db.blocks
    requires var contents := Contents(k, Load(s.db, blk)); DistinctHashes(k, contents) && i < |contents|
    ensures var contents := Contents(k, Load(s.db, blk));
      var metas := FinalizeBlock(k, s, blk).0.db.metas;
      && k.txHash(contents[i]) in metas
      && metas[k.txHash(contents[i])]
         == Mark(blk.core, Validate(k, contents[i], s.db.txs, ValidateAll(k, contents[..i], s.db.txs, s.db.latest).0).1)
  {
    var txs := Load(s.db, blk);
    var contents := Contents(k, txs);
    var related, latest := Restrict(s.db.txs, RelatedHashes(k, contents)),
      Restrict(s.db.latest, RootHashes(k, contents));
    SecondPassMetas(k, blk.core, contents, related, latest,
      FirstPass(k, blk.core, txs, Restrict(s.db.accounts, Addresses(Transfers(txs)))).1, i);
    SameContentVerdict(k, s, contents, i);
  }

  // ----- Runs -----------------------------------------------------------------------------------

  datatype Step = StoreBlock(b: Broadcasted) | FinalizeSlot(slot: nat)

  /** The store with the contents accepted so far. */
  datatype Run = Run(store: State, accepted: seq<Transaction>)

  /** Blocks may be stored in any order and finalised in any order, even more than once. */
  function Next(k: Codec, r: Run, step: Step): Run {
    match step
    case StoreBlock(b) => r.(store := AddPending(k, r.store, b).0)
    case FinalizeSlot(slot) =>
      if slot !in r.store.db.blocks then r else
      var blk := r.store.db.blocks[slot];
      Run(FinalizeBlock(k, r.store, blk).0,
          if blk.core.invalidPoH then r.accepted else r.accepted + Accepted(k, r.store, blk))
  }

  function RunSteps(k: Codec, r: Run, steps: seq<Step>): Run {
    if steps == [] then r else Next(k, RunSteps(k, r, steps[..|steps| - 1]), steps[|steps| - 1])
  }

  /** Blocks are stored under their slot. */
  ghost predicate SlotsOk(db: Db) {
    forall s :: s in db.blocks ==> db.blocks[s].core.slot == s
  }

  ghost predicate StoreOk(k: Codec, s: State) {
    Keyed(k, s.db.txs) && SlotsOk(s.db)
  }

  lemma StepKeepsStore(k: Codec, r: Run, step: Step)
    requires StoreOk(k, r.store)
    ensures StoreOk(k, Next(k, r, step).store)
  {
    match step
    case StoreBlock(b) => PutTxsOk(k, r.store.db.txs, StoredTxs(b.entries));
    case FinalizeSlot(slot) =>
  }

  /** One step keeps the total of balances and wraps nowhere. */
  lemma StepConserves(k: Codec, r: Run, step: Step)
    requires StoreOk(k, r.store) && Total(r.store.db.accounts) < TWO_256
    ensures Total(Next(k, r, step).store.db.accounts) == Total(r.store.db.accounts)
  {
    if step.FinalizeSlot? && step.slot in r.store.db.blocks {
      var blk := r.store.db.blocks[step.slot];
      if !blk.core.invalidPoH {
        FinalizeIsSequential(k, r.store, blk);
        TransfersConserve(r.store.db.accounts, Transfers(Load(r.store.db, blk)));
      }
    }
  }

  /** Over every run, the total of balances stays what it was. */
  lemma {:induction false} RunConserves(k: Codec, r: Run, steps: seq<Step>)
    requires StoreOk(k, r.store) && Total(r.store.db.accounts) < TWO_256
    ensures StoreOk(k, RunSteps(k, r, steps).store)
    ensures Total(RunSteps(k, r, steps).store.db.accounts) == Total(r.store.db.accounts)
  {
    if steps != [] {
      var front := steps[..|steps| - 1];
      RunConserves(k, r, front);
      StepKeepsStore(k, RunSteps(k, r, front), steps[|steps| - 1]);
      StepConserves(k, RunSteps(k, r, front), steps[|steps| - 1]);
    }
  }

  /** The step accepts no content whose hash was accepted before, nor one twice. */
  ghost predicate NoRepeat(k: Codec, r: Run, step: Step) {
    step.FinalizeSlot? && step.slot in r.store.db.blocks && !r.store.db.blocks[step.slot].core.invalidPoH ==>
      AllFresh(k, Accepted(k, r.store, r.store.db.blocks[step.slot]), r.accepted)
  }

  lemma StepKeepsChains(k: Codec, r: Run, step: Step)
    requires CollisionFree(k) && StoreOk(k, r.store) && ChainsOk(k, r.accepted, r.store.db.latest)
      && NoRepeat(k, r, step)
    ensures ChainsOk(k, Next(k, r, step).accepted, Next(k, r, step).store.db.latest)
  {
    if step.FinalizeSlot? && step.slot in r.store.db.blocks {
      var blk := r.store.db.blocks[step.slot];
      if !blk.core.invalidPoH {
        FinalizeIsSequential(k, r.store, blk);
        ChainsKept(k, Contents(k, Load(r.store.db, blk)), r.store.db.txs, r.accepted, r.store.db.latest);
      }
    }
  }

  /** In every run that accepts no content hash twice, the accepted versions of each root form one
      unforked line from the root to the recorded newest hash. */
  lemma {:induction false} RunKeepsChains(k: Codec, r: Run, steps: seq<Step>)
    requires CollisionFree(k) && StoreOk(k, r.store) && ChainsOk(k, r.accepted, r.store.db.latest)
    requires forall i :: 0 <= i < |steps| ==> NoRepeat(k, RunSteps(k, r, steps[..i]), steps[i])
    ensures StoreOk(k, RunSteps(k, r, steps).store)
    ensures ChainsOk(k, RunSteps(k, r, steps).accepted, RunSteps(k, r, steps).store.db.latest)
  {
    if steps != [] {
      var front := steps[..|steps| - 1];
      assert forall i :: 0 <= i < |front| ==> front[..i] == steps[..i] && front[i] == steps[i];
      RunKeepsChains(k, r, front);
      StepKeepsStore(k, RunSteps(k, r, front), steps[|steps| - 1]);
      StepKeepsChains(k, RunSteps(k, r, front), steps[|steps| - 1]);
    }
  }

  // ----- Walking back in a run ------------------------------------------------------------------

  lemma {:induction false} BatchStored(m: map<string, Transaction>, hs: seq<string>)
    ensures forall tx :: tx in GetBatch(m, hs) ==> exists h :: h in m && m[h] == tx
  {
    if hs != [] {
      BatchStored(m, hs[..|hs| - 1]);
    }
  }

  /** Contents that a block brings to acceptance are stored. */
  lemma AcceptedAreStored(k: Codec, s: State, blk: Block)
    requires Keyed(k, s.db.txs)
    ensures AllStored(k, s.db.txs, Accepted(k, s, blk))
  {
    var txs := Load(s.db, blk);
    AcceptedAmong(k, Contents(k, txs), s.db.txs, s.db.latest);
    ContentsParse(k, txs);
    BatchStored(s.db.txs, TxHashes(blk.entries));
    forall i | 0 <= i < |Accepted(k, s, blk)|
      ensures k.txHash(Accepted(k, s, blk)[i]) in s.db.txs
    {
      var tx := Accepted(k, s, blk)[i];
      assert tx in ValidateAll(k, Contents(k, txs), s.db.txs, s.db.latest).1;
      assert tx in Contents(k, txs);
      var j :| 0 <= j < |Contents(k, txs)| && Contents(k, txs)[j] == tx;
      assert tx in txs;
    }
  }

  lemma StepKeepsAccepted(k: Codec, r: Run, step: Step)
    requires StoreOk(k, r.store) && AllStored(k, r.store.db.txs, r.accepted)
    ensures AllStored(k, Next(k, r, step).store.db.txs, Next(k, r, step).accepted)
  {
    match step
    case StoreBlock(b) => PutTxsOk(k, r.store.db.txs, StoredTxs(b.entries));
    case FinalizeSlot(slot) =>
      if slot in r.store.db.blocks {
        var blk := r.store.db.blocks[slot];
        AcceptedAreStored(k, r.store, blk);
        if !blk.core.invalidPoH {
          FinalizeIsSequential(k, r.store, blk);
        }
      }
  }

  /** In every run every accepted content is, and stays, among the stored transactions. */
  lemma {:induction false} RunKeepsAccepted(k: Codec, r: Run, steps: seq<Step>)
    requires StoreOk(k, r.store) && AllStored(k, r.store.db.txs, r.accepted)
    ensures StoreOk(k, RunSteps(k, r, steps).store)
    ensures AllStored(k, RunSteps(k, r, steps).store.db.txs, RunSteps(k, r, steps).accepted)
  {
    if steps != [] {
      var front := steps[..|steps| - 1];
      RunKeepsAccepted(k, r, front);
      StepKeepsStore(k, RunSteps(k, r, front), steps[|steps| - 1]);
      StepKeepsAccepted(k, RunSteps(k, r, front), steps[|steps| - 1]);
    }
  }

  /** In every run that finalises no content hash twice, following parents from the recorded newest hash
      of any root through the stored transactions ends at that root, after as many steps as it has
      later versions. */
  lemma RunWalksToRoot(k: Codec, r: Run, steps: seq<Step>)
    requires CollisionFree(k) && StoreOk(k, r.store) && ChainsOk(k, r.accepted, r.store.db.latest)
    requires AllStored(k, r.store.db.txs, r.accepted)
    requires forall i :: 0 <= i < |steps| ==> NoRepeat(k, RunSteps(k, r, steps[..i]), steps[i])
    ensures var u := RunSteps(k, r, steps);
      forall root :: root in u.store.db.latest ==>
        && |Chain(k, u.accepted, root)| > 0
        && WalkBack(k, u.store.db.txs, u.store.db.latest[root], |Chain(k, u.accepted, root)| - 1) == root
  {
    var u := RunSteps(k, r, steps);
    RunKeepsChains(k, r, steps);
    RunKeepsAccepted(k, r, steps);
    forall root | root in u.store.db.latest
      ensures |Chain(k, u.accepted, root)| > 0
      ensures WalkBack(k, u.store.db.txs, u.store.db.latest[root], |Chain(k, u.accepted, root)| - 1) == root
    {
      ChainWalks(k, u.accepted, u.store.db.latest, u.store.db.txs, root);
    }
  }

  lemma ChainWalks(k: Codec, log: seq<Transaction>, latest: Latest, stored: map<string, Transaction>, root: string)
    requires CollisionFree(k) && Keyed(k, stored) && AllStored(k, stored, log)
    requires ChainsOk(k, log, latest) && root in latest
    ensures |Chain(k, log, root)| > 0 && WalkBack(k, stored, latest[root], |Chain(k, log, root)| - 1) == root
  {
    var line := Chain(k, log, root);
    assert LineOk(k, line, root, latest[root]);
    ChainWithin(k, log, root);
    forall i | 0 <= i < |line|
      ensures k.txHash(line[i]) in stored
    {
      var j :| 0 <= j < |log| && log[j] == line[i];
    }
    WalkEndsAtRoot(k, stored, line, root, latest[root]);
  }
}
