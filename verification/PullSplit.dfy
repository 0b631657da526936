/** A pull lets go of the pool before it remembers what it took. Runs in which other steps come in
    between, and exactly when that makes no difference. */
module PullSplit {
  import opened Base
  import opened BlockStore
  import opened Dedup
  import opened Mempool
  import opened MempoolProof
  import opened MempoolRuns

  datatype SplitStep =
    | Whole(step: Step)
    | TakeOut(n: nat)   // the pull up to where it lets go of the pool
    | Remember          // what was taken out is entered into the cache

  /** A trace with the dedup hashes that are taken out and not yet remembered. */
  datatype SplitTrace = SplitTrace(t: Trace, window: set<string>)

  function SplitNext(k: Codec, s: SplitTrace, step: SplitStep): SplitTrace {
    match step
    case Whole(x) => s.(t := Next(k, s.t, x))
    case TakeOut(n) =>
      var (q, txs) := PullBatch(k, s.t.pool, n);
      SplitTrace(s.t.(pool := q.(cache := s.t.pool.cache), pulled := s.t.pulled + txs),
                 s.window + DedupHashes(k, txs))
    case Remember => SplitTrace(Settled(s), {})
  }

  function SplitRun(k: Codec, s: SplitTrace, steps: seq<SplitStep>): SplitTrace {
    if steps == [] then s else SplitNext(k, SplitRun(k, s, steps[..|steps| - 1]), steps[|steps| - 1])
  }

  /** The trace once everything taken out is remembered. */
  function Settled(s: SplitTrace): Trace { s.t.(pool := s.t.pool.(cache := s.t.pool.cache + s.window)) }

  /** The same steps with every pull in one piece. */
  function Merged(steps: seq<SplitStep>): seq<Step> {
    if steps == [] then [] else
    Merged(steps[..|steps| - 1]) +
    match steps[|steps| - 1]
    case Whole(x) => [x]
    case TakeOut(n) => [Pull(n)]
    case Remember => []
  }

  /** Something is admitted again while it is taken out and not yet remembered. */
  predicate Readmits(k: Codec, s: SplitTrace, step: SplitStep) {
    && step.Whole? && step.step.Add?
    && AddError(k, s.t.pool, s.t.db, step.step.tx, step.step.signed).None?
    && k.dedupHash(step.step.tx) in s.window
  }

  predicate NeverReadmits(k: Codec, s: SplitTrace, steps: seq<SplitStep>) {
    steps == [] ||
    var front := steps[..|steps| - 1];
    NeverReadmits(k, s, front) && !Readmits(k, SplitRun(k, s, front), steps[|steps| - 1])
  }

  // ----- Pulls in one piece ---------------------------------------------------------------------

  lemma {:induction false} RemovalIgnoresCache(k: Codec, p: Pool, hs: seq<string>, cache: set<string>)
    ensures RemoveAll(k, p.(cache := cache), hs) == RemoveAll(k, p, hs).(cache := cache)
    ensures Found(k, p.(cache := cache), hs) == Found(k, p, hs)
  {
    if hs != [] {
      RemovalIgnoresCache(k, p, hs[..|hs| - 1], cache);
    }
  }

  lemma PullIgnoresCache(k: Codec, p: Pool, n: nat, cache: set<string>)
    ensures var (q, txs) := PullBatch(k, p, n);
      PullBatch(k, p.(cache := cache), n) == (q.(cache := cache + DedupHashes(k, txs)), txs)
  {
    var m := Min(n, |p.order|);
    var rest := p.(order := p.order[m..]);
    assert p.(cache := cache).(order := p.order[m..]) == rest.(cache := cache);
    RemovalIgnoresCache(k, rest, p.order[..m], cache);
  }

  lemma CleanupSettles(k: Codec, s: SplitTrace, txs: seq<Transaction>, visit: seq<string>)
    ensures Settled(SplitNext(k, s, Whole(GoodBlock(txs, visit)))) == Next(k, Settled(s), GoodBlock(txs, visit))
  {
    var p, d := s.t.pool, DedupHashes(k, txs);
    RemoveAllFrame(k, p.(cache := p.cache + d), visit);
    RemovalIgnoresCache(k, p.(cache := p.cache + d), visit, p.cache + s.window + d);
    assert p.(cache := p.cache + s.window).(cache := p.cache + s.window + d)
      == p.(cache := p.cache + d).(cache := p.cache + s.window + d);
    assert p.cache + d + s.window == p.cache + s.window + d;
  }

  /** A step that readmits nothing is, once settled, the step with the pull in one piece. */
  lemma StepSettles(k: Codec, s: SplitTrace, step: SplitStep)
    requires !Readmits(k, s, step) && (step.Whole? ==> !step.step.Expire?)
    ensures Settled(SplitNext(k, s, step)) == match step
      case Whole(x) => Next(k, Settled(s), x)
      case TakeOut(n) => Next(k, Settled(s), Pull(n))
      case Remember => Settled(s)
  {
    var p := s.t.pool;
    match step
    case TakeOut(n) =>
      var txs := PullBatch(k, p, n).1;
      PullIgnoresCache(k, p, n, p.cache + s.window);
      assert p.cache + (s.window + DedupHashes(k, txs)) == p.cache + s.window + DedupHashes(k, txs);
    case Remember => assert Settled(s).pool.cache + {} == Settled(s).pool.cache;
    case Whole(Pull(n)) =>
      var txs := PullBatch(k, p, n).1;
      PullCache(k, p, n);
      PullIgnoresCache(k, p, n, p.cache + s.window);
      assert p.cache + DedupHashes(k, txs) + s.window == p.cache + s.window + DedupHashes(k, txs);
    case Whole(GoodBlock(txs, visit)) => CleanupSettles(k, s, txs, visit);
    case Whole(Add(tx, signed)) =>
      AdmittedTx(k, p, s.t.db, tx, signed);
      AdmittedTx(k, Settled(s).pool, s.t.db, tx, signed);
    case Whole(_) =>
  }

  lemma {:induction false} RunSettles(k: Codec, s: SplitTrace, steps: seq<SplitStep>)
    requires NeverReadmits(k, s, steps)
    requires forall i :: 0 <= i < |steps| && steps[i].Whole? ==> !steps[i].step.Expire?
    ensures Settled(SplitRun(k, s, steps)) == RunSteps(k, Settled(s), Merged(steps))
  {
    if steps != [] {
      var front, last := steps[..|steps| - 1], steps[|steps| - 1];
      RunSettles(k, s, front);
      StepSettles(k, SplitRun(k, s, front), last);
      assert last.Remember? ==> Merged(steps) == Merged(front);
      assert !last.Remember? ==> Merged(steps)[..|Merged(front)|] == Merged(front);
    }
  }

  lemma {:induction false} MergedVisits(k: Codec, steps: seq<SplitStep>)
    requires forall i :: 0 <= i < |steps| && steps[i].Whole? ==> Visits(k, steps[i].step) && !steps[i].step.Expire?
    ensures forall i :: 0 <= i < |Merged(steps)| ==> Visits(k, Merged(steps)[i]) && !Merged(steps)[i].Expire?
  {
    if steps != [] {
      MergedVisits(k, steps[..|steps| - 1]);
    }
  }

  // ----- Exactly when -----------------------------------------------------------------------------

  /** What is taken out and not yet remembered has been pulled. */
  lemma {:induction false} WindowIsPulled(k: Codec, s: SplitTrace, steps: seq<SplitStep>)
    requires s.window == {}
    ensures SplitRun(k, s, steps).window <= DedupHashes(k, SplitRun(k, s, steps).t.pulled)
  {
    if steps != [] {
      var front, last := steps[..|steps| - 1], steps[|steps| - 1];
      WindowIsPulled(k, s, front);
      var v := SplitRun(k, s, front);
      match last
      case Whole(Pull(n)) => DedupHashesConcat(k, v.t.pulled, PullBatch(k, v.t.pool, n).1);
      case Whole(_) =>
      case TakeOut(n) => DedupHashesConcat(k, v.t.pulled, PullBatch(k, v.t.pool, n).1);
      case Remember =>
    }
  }

  lemma DedupHashesConcat(k: Codec, a: seq<Transaction>, b: seq<Transaction>)
    ensures DedupHashes(k, a + b) == DedupHashes(k, a) + DedupHashes(k, b)
  {
    forall i | 0 <= i < |a|
      ensures k.dedupHash(a[i]) in DedupHashes(k, a + b)
    {
      assert (a + b)[i] == a[i];
    }
    forall i | 0 <= i < |b|
      ensures k.dedupHash(b[i]) in DedupHashes(k, a + b)
    {
      assert (a + b)[|a| + i] == b[i];
    }
  }

  lemma SettledIsFifo(k: Codec, max: nat, cache: set<string>, db: Db, steps: seq<SplitStep>)
    requires CollisionFree(k) && NeverReadmits(k, SplitTrace(Fresh(max, cache, db), {}), steps)
    requires forall i :: 0 <= i < |steps| && steps[i].Whole? ==> Visits(k, steps[i].step) && !steps[i].step.Expire?
    ensures var t := SplitRun(k, SplitTrace(Fresh(max, cache, db), {}), steps).t;
      && t.pulled + Waiting(t.pool) == Keep(t.admitted, t.cleaned)
      && DistinctDedup(k, t.pulled) && DistinctDedup(k, t.admitted)
  {
    var s := SplitTrace(Fresh(max, cache, db), {});
    MergedVisits(k, steps);
    RunSettles(k, s, steps);
    assert Settled(s) == Fresh(max, cache, db) by {
      assert cache + {} == cache;
    }
    FirstInFirstOut(k, max, cache, db, Merged(steps));
    FifoKept(k, max, cache, db, Merged(steps));
  }

  lemma ReadmissionRepeats(k: Codec, max: nat, cache: set<string>, db: Db, steps: seq<SplitStep>, tx: Transaction)
    requires CollisionFree(k) && NeverReadmits(k, SplitTrace(Fresh(max, cache, db), {}), steps)
    requires forall i :: 0 <= i < |steps| && steps[i].Whole? ==> Visits(k, steps[i].step) && !steps[i].step.Expire?
    requires k.dedupHash(tx) in SplitRun(k, SplitTrace(Fresh(max, cache, db), {}), steps).window
    ensures !DistinctDedup(k, SplitRun(k, SplitTrace(Fresh(max, cache, db), {}), steps).t.admitted + [tx])
  {
    var s := SplitTrace(Fresh(max, cache, db), {});
    var t := SplitRun(k, s, steps).t;
    WindowIsPulled(k, s, steps);
    var j :| 0 <= j < |t.pulled| && k.dedupHash(t.pulled[j]) == k.dedupHash(tx);
    var twin := t.pulled[j];
    SettledIsFifo(k, max, cache, db, steps);
    KeepMembers(t.admitted, t.cleaned);
    assert twin in t.pulled + Waiting(t.pool);
    var i :| 0 <= i < |t.admitted| && t.admitted[i] == twin;
    assert (t.admitted + [tx])[i] == twin && (t.admitted + [tx])[|t.admitted|] == tx;
  }

  /** The law of the queue with pulls that other steps come between, in every run in which the cache
      evicts nothing. No dedup hash is admitted twice exactly when nothing is admitted again while it is
      taken out and not yet remembered; and then pulled and waiting transactions are the admitted
      ones in order without those cleaned up, and none is pulled twice. */
  lemma {:induction false} SplitPulls(k: Codec, max: nat, cache: set<string>, db: Db, steps: seq<SplitStep>)
    requires CollisionFree(k)
    requires forall i :: 0 <= i < |steps| && steps[i].Whole? ==> Visits(k, steps[i].step) && !steps[i].step.Expire?
    ensures var s := SplitTrace(Fresh(max, cache, db), {});
      var t := SplitRun(k, s, steps).t;
      && (DistinctDedup(k, t.admitted) <==> NeverReadmits(k, s, steps))
      && (NeverReadmits(k, s, steps) ==>
            t.pulled + Waiting(t.pool) == Keep(t.admitted, t.cleaned) && DistinctDedup(k, t.pulled))
  {
    var s := SplitTrace(Fresh(max, cache, db), {});
    if NeverReadmits(k, s, steps) {
      SettledIsFifo(k, max, cache, db, steps);
    } else {
      var front, last := steps[..|steps| - 1], steps[|steps| - 1];
      SplitPulls(k, max, cache, db, front);
      var v, u := SplitRun(k, s, front), SplitRun(k, s, steps);
      if NeverReadmits(k, s, front) {
        ReadmissionRepeats(k, max, cache, db, front, last.step.tx);
      } else {
        assert u.t.admitted[..|v.t.admitted|] == v.t.admitted;
        assert forall i :: 0 <= i < |v.t.admitted| ==> u.t.admitted[i] == v.t.admitted[i];
      }
    }
  }

  // ----- It can happen ----------------------------------------------------------------------------

  lemma PullUndoesInsert(k: Codec, p: Pool, tx: Transaction)
    requires p.txs == map[] && p.order == [] && p.dedup == {} && p.totals == map[]
    requires tx.IsContent() || tx.Value() > 0
    ensures PullBatch(k, Insert(k, p, tx), 1).0.(cache := p.cache) == p
    ensures PullBatch(k, Insert(k, p, tx), 1).1 == [tx]
  {
    var q, h := Insert(k, p, tx), k.txHash(tx);
    assert q.order == [h] && q.order[..1] == [h] && q.order[1..] == [] && [h][..0] == [];
    var r := q.(order := []);
    assert RemoveAll(k, r, [h]) == Remove(k, r, h);
    assert Remove(k, r, h).txs == map[] && Remove(k, r, h).dedup == {} && Remove(k, r, h).totals == map[];
    assert Found(k, r, [h]) == [] + [tx];
  }

  /** Any transaction that an empty pool admits is admitted a second time if it comes again while it is
      taken out and not yet remembered. */
  lemma Readmission(k: Codec, t: Trace, tx: Transaction, signed: bool)
    requires t.pool.txs == map[] && t.pool.order == [] && t.pool.dedup == {} && t.pool.totals == map[]
    requires AddError(k, t.pool, t.db, tx, signed).None?
    ensures var s := SplitNext(k, SplitNext(k, SplitTrace(t, {}), Whole(Add(tx, signed))), TakeOut(1));
      var u := SplitNext(k, s, Whole(Add(tx, signed)));
      s.t.pulled == t.pulled + [tx] && u.t.admitted == t.admitted + [tx] + [tx]
  {
    AdmittedTx(k, t.pool, t.db, tx, signed);
    PullUndoesInsert(k, t.pool, tx);
    var s := SplitNext(k, SplitNext(k, SplitTrace(t, {}), Whole(Add(tx, signed))), TakeOut(1));
    assert s.t.pool == t.pool && s.t.db == t.db;
  }
}
