/** The proof-of-history clock: a hash chain with a budget of hashes per tick. */
module Poh {
  import opened Base

  /** n-fold application of the hash. */
  function Iterate(sha: Bytes -> Hash, h: Hash, n: nat): Hash {
    if n == 0 then h else sha(Iterate(sha, h, n - 1))
  }

  lemma {:induction false} IterateAdd(sha: Bytes -> Hash, h: Hash, m: nat, n: nat)
    ensures Iterate(sha, h, m + n) == Iterate(sha, Iterate(sha, h, m), n)
  {
    if n > 0 {
      IterateAdd(sha, h, m, n - 1);
    }
  }

  datatype Clock = Clock(hash: Hash, numHashes: nat, perTick: nat, remaining: nat)

  datatype PohEntry = PohEntry(numHashes: nat, hash: Hash, tick: bool)

  /** What every clock step keeps. The constructor refuses perTick <= 1. */
  predicate ClockOk(c: Clock) {
    1 < c.perTick && 1 <= c.remaining <= c.perTick
  }

  function ResetClock(c: Clock, seed: Hash): Clock {
    c.(hash := seed, numHashes := 0, remaining := c.perTick)
  }

  function HashOnce(k: Codec, c: Clock, data: Bytes): Clock
    requires c.remaining >= 1
  {
    c.(hash := k.sha(data), numHashes := c.numHashes + 1, remaining := c.remaining - 1)
  }

  /** One wake-up of the auto-hash loop. */
  function AutoHash(k: Codec, c: Clock): (r: Clock) {
    if c.remaining > 1 then HashOnce(k, c, c.hash) else c
  }

  /** Mixes `mixin` into the chain unless only the tick's hash is left. */
  function Record(k: Codec, c: Clock, mixin: Hash): (r: (Clock, Option<PohEntry>)) {
    if c.remaining <= 1 then (c, None) else
    var d := HashOnce(k, c, c.hash + mixin);
    (d.(numHashes := 0), Some(PohEntry(d.numHashes, d.hash, false)))
  }

  /** Closes the tick when exactly its last hash is left. */
  function Tick(k: Codec, c: Clock): (r: (Clock, Option<PohEntry>)) {
    if c.remaining != 1 then (c, None) else
    var d := HashOnce(k, c, c.hash);
    (d.(numHashes := 0, remaining := c.perTick), Some(PohEntry(d.numHashes, d.hash, true)))
  }

  /** The clock object. */
  class PohClock {
    const codec: Codec
    const perTick: nat
    var hash: Hash
    var numHashes: nat
    var remaining: nat

    function View(): Clock
      reads this
    {
      Clock(hash, numHashes, perTick, remaining)
    }

    predicate Valid()
      reads this
    {
      ClockOk(View())
    }

    constructor (codec: Codec, seed: Bytes, perTick: nat)
      requires perTick > 1  // the source panics otherwise
      ensures Valid() && this.codec == codec
      ensures View() == Clock(codec.sha(seed), 0, perTick, perTick)
    {
      this.codec := codec;
      this.perTick := perTick;
      hash := codec.sha(seed);
      numHashes := 0;
      remaining := perTick;
    }

    method Reset(seed: Hash)
      requires Valid()
      modifies this
      ensures Valid() && View() == ResetClock(old(View()), seed)
    {
      hash := seed;
      remaining := perTick;
      numHashes := 0;
    }

    method HashOnceInPlace(data: Bytes)
      requires remaining > 0
      modifies this
      ensures View() == HashOnce(codec, old(View()), data)
    {
      hash := codec.sha(data);
      numHashes := numHashes + 1;
      remaining := remaining - 1;
    }

    method RecordMixin(mixin: Hash) returns (entry: Option<PohEntry>)
      requires Valid()
      modifies this
      ensures Valid() && (View(), entry) == Record(codec, old(View()), mixin)
    {
      if remaining <= 1 {
        return None;
      }
      HashOnceInPlace(hash + mixin);
      entry := Some(PohEntry(numHashes, hash, false));
      numHashes := 0;
    }

    method TickIfDue() returns (entry: Option<PohEntry>)
      requires Valid()
      modifies this
      ensures Valid() && (View(), entry) == Tick(codec, old(View()))
    {
      if remaining != 1 {
        return None;
      }
      HashOnceInPlace(hash);
      entry := Some(PohEntry(numHashes, hash, true));
      remaining := perTick;
      numHashes := 0;
    }

    method AutoHashStep()
      requires Valid()
      modifies this
      ensures Valid() && View() == AutoHash(codec, old(View()))
    {
      if remaining > 1 {
        HashOnceInPlace(hash);
      }
    }

    /** Runs the clock over whole ticks at once; the number of hashes is computed in 64 bits. */
    method TickFastForward(seen: Hash, fromTick: nat, toTick: nat) returns (h: Hash)
      requires Valid()
      modifies this
      ensures Valid() && h == Iterate(codec.sha, seen, Wrap64((toTick - fromTick) * perTick))
      ensures View() == ResetClock(old(View()), h)
    {
      hash := seen;
      var total := Wrap64((toTick - fromTick) * perTick);
      var i := 0;
      while i < total
        invariant i <= total
        invariant hash == Iterate(codec.sha, seen, i)
      {
        hash := codec.sha(hash);
        i := i + 1;
      }
      numHashes := 0;
      remaining := perTick;
      h := hash;
    }
  }

  // ----- Runs of the clock ----------------------------------------------------------------------

  datatype ClockStep = StepAutoHash | StepRecord(mixin: Hash) | StepTick

  function Apply(k: Codec, c: Clock, s: ClockStep): (r: (Clock, Option<PohEntry>)) {
    match s
    case StepAutoHash => (AutoHash(k, c), None)
    case StepRecord(m) => Record(k, c, m)
    case StepTick => Tick(k, c)
  }

  /** Clock after a run and the entries it emitted, in order. */
  function Run(k: Codec, c: Clock, steps: seq<ClockStep>): (r: (Clock, seq<PohEntry>)) {
    if steps == [] then (c, []) else
    var (d, out) := Run(k, c, steps[..|steps| - 1]);
    var (e, o) := Apply(k, d, steps[|steps| - 1]);
    (e, match o case Some(x) => out + [x] case None => out)
  }

  function Hashes(es: seq<PohEntry>): nat {
    if es == [] then 0 else Hashes(es[..|es| - 1]) + es[|es| - 1].numHashes
  }

  function Ticks(es: seq<PohEntry>): nat {
    if es == [] then 0 else Ticks(es[..|es| - 1]) + if es[|es| - 1].tick then 1 else 0
  }

  /** Every prefix that ends in a tick holds exactly perTick hashes per tick. */
  ghost predicate TicksAreFull(es: seq<PohEntry>, perTick: nat) {
    forall i :: 0 <= i < |es| && es[i].tick ==> Hashes(es[..i + 1]) == perTick * Ticks(es[..i + 1])
  }

  /** Clock and emitted entries account for the budget. The remaining budget is in 1..perTick, every
      entry accounts for at least one hash, the hashes emitted so far plus those not yet emitted plus
      those left fill the ticks exactly, and between two ticks the entries sum to exactly perTick. */
  ghost predicate Budget(d: Clock, es: seq<PohEntry>) {
    && ClockOk(d)
    && (forall i :: 0 <= i < |es| ==> 1 <= es[i].numHashes <= d.perTick)
    && Hashes(es) + d.numHashes + d.remaining == d.perTick * (Ticks(es) + 1)
    && d.numHashes + d.remaining <= d.perTick
    && TicksAreFull(es, d.perTick)
  }

  /** The budget law holds after any run from a reset, in any order of steps. */
  lemma {:induction false} BudgetLaw(k: Codec, c: Clock, seed: Hash, steps: seq<ClockStep>)
    requires c.perTick > 1
    ensures var (d, es) := Run(k, ResetClock(c, seed), steps);
      d.perTick == c.perTick && Budget(d, es)
  {
    if steps != [] {
      var front := steps[..|steps| - 1];
      BudgetLaw(k, c, seed, front);
      var (d, out) := Run(k, ResetClock(c, seed), front);
      BudgetStep(k, d, out, steps[|steps| - 1]);
    }
  }

  lemma BudgetStep(k: Codec, d: Clock, out: seq<PohEntry>, s: ClockStep)
    requires Budget(d, out)
    ensures var (e, o) := Apply(k, d, s);
      e.perTick == d.perTick && Budget(e, match o case Some(x) => out + [x] case None => out)
  {
    var (e, o) := Apply(k, d, s);
    if o.Some? {
      AppendedEntry(out, o.value, d.perTick);
      assert o.value.tick ==> d.perTick * (Ticks(out) + 2) == d.perTick * (Ticks(out) + 1) + d.perTick;
    }
  }

  lemma AppendedEntry(out: seq<PohEntry>, x: PohEntry, perTick: nat)
    requires TicksAreFull(out, perTick)
    requires x.tick ==> Hashes(out) + x.numHashes == perTick * (Ticks(out) + 1)
    ensures Hashes(out + [x]) == Hashes(out) + x.numHashes
    ensures Ticks(out + [x]) == Ticks(out) + if x.tick then 1 else 0
    ensures TicksAreFull(out + [x], perTick)
  {
    var es := out + [x];
    assert es[..|es| - 1] == out;
    forall i | 0 <= i < |es| && es[i].tick
      ensures Hashes(es[..i + 1]) == perTick * Ticks(es[..i + 1])
    {
      if i < |out| {
        assert es[..i + 1] == out[..i + 1];
      } else {
        assert es[..i + 1] == es;
      }
    }
  }

  /** So a run emits at most perTick entries per started tick. */
  lemma EntryCountBound(k: Codec, c: Clock, seed: Hash, steps: seq<ClockStep>)
    requires c.perTick > 1
    ensures var es := Run(k, ResetClock(c, seed), steps).1;
      |es| < c.perTick * (Ticks(es) + 1)
  {
    var (d, es) := Run(k, ResetClock(c, seed), steps);
    BudgetLaw(k, c, seed, steps);
    assert |es| < c.perTick * (Ticks(es) + 1) by {
      FewerThanHashes(es, d.numHashes + d.remaining, c.perTick * (Ticks(es) + 1));
    }
  }

  lemma FewerThanHashes(es: seq<PohEntry>, left: nat, total: nat)
    requires (forall i :: 0 <= i < |es| ==> 1 <= es[i].numHashes) && left > 0 && Hashes(es) + left == total
    ensures |es| < total
  {
    AtLeastOneHashEach(es);
  }

  lemma {:induction false} AtLeastOneHashEach(es: seq<PohEntry>)
    requires forall i :: 0 <= i < |es| ==> 1 <= es[i].numHashes
    ensures |es| <= Hashes(es)
  {
    if es != [] {
      AtLeastOneHashEach(es[..|es| - 1]);
    }
  }

  // ----- The fast forms refine the clock --------------------------------------------------------

  /** A run without transactions is plain iteration of the hash, once per hash accounted for. */
  lemma {:induction false} QuietRunIsIteration(k: Codec, c: Clock, seed: Hash, steps: seq<ClockStep>)
    requires c.perTick > 1
    requires forall i :: 0 <= i < |steps| ==> !steps[i].StepRecord?
    ensures var (d, es) := Run(k, ResetClock(c, seed), steps);
      d.hash == Iterate(k.sha, seed, Hashes(es) + d.numHashes)
  {
    if steps != [] {
      var front := steps[..|steps| - 1];
      BudgetLaw(k, c, seed, front);
      QuietRunIsIteration(k, c, seed, front);
      var (d, out) := Run(k, ResetClock(c, seed), front);
      var (e, o) := Apply(k, d, steps[|steps| - 1]);
      if o.Some? {
        assert (out + [o.value])[..|out|] == out;
      }
    }
  }

  /** Fast-forwarding over the ticks of a quiet run that has just ticked gives that run's hash. */
  lemma FastForwardMatchesQuietRun(k: Codec, c: Clock, seed: Hash, steps: seq<ClockStep>, fromTick: nat, toTick: nat)
    requires c.perTick > 1 && fromTick <= toTick
    requires forall i :: 0 <= i < |steps| ==> !steps[i].StepRecord?
    requires Ticks(Run(k, ResetClock(c, seed), steps).1) == toTick - fromTick
    requires Run(k, ResetClock(c, seed), steps).0.remaining == c.perTick
    ensures Run(k, ResetClock(c, seed), steps).0.hash == Iterate(k.sha, seed, (toTick - fromTick) * c.perTick)
  {
    QuietRunIsIteration(k, c, seed, steps);
    BudgetLaw(k, c, seed, steps);
    var n := toTick - fromTick;
    assert c.perTick * (n + 1) == n * c.perTick + c.perTick;
  }

  /** Fast-forwarding in two legs is fast-forwarding once. */
  lemma FastForwardComposes(sha: Bytes -> Hash, h: Hash, perTick: nat, a: nat, b: nat, c: nat)
    requires a <= b <= c
    ensures Iterate(sha, Iterate(sha, h, (b - a) * perTick), (c - b) * perTick) == Iterate(sha, h, (c - a) * perTick)
  {
    IterateAdd(sha, h, (b - a) * perTick, (c - b) * perTick);
    assert (b - a) * perTick + (c - b) * perTick == (c - a) * perTick;
  }
}
