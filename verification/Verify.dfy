/** The checker of proof-of-history entries, and the generator of transaction-free slots. */
module Verify {
  import opened Base
  import opened Poh

  const MAX_NUM_HASHES := 100
  const MAX_ENTRIES_PER_SLOT := 100
  const MAX_TRANSACTIONS_PER_ENTRY := 6000
  const MAX_ENTRY_SIZE := 1024 * 1024

  function ConcatBytes(k: Codec, txs: seq<Transaction>): Bytes {
    if txs == [] then [] else k.txBytes(txs[0]) + ConcatBytes(k, txs[1..])
  }

  /** The mixin of a list of transactions. */
  function HashTransactions(k: Codec, txs: seq<Transaction>): Hash {
    k.sha(ConcatBytes(k, txs))
  }

  function EntrySize(e: Entry): nat { 41 + 32 * |e.txs| }

  predicate TxShapeOk(k: Codec, tx: Transaction) {
    && tx.sender != ""
    && tx.recipient != ""
    && |k.txBytes(tx)| <= MAX_ENTRY_SIZE / MAX_TRANSACTIONS_PER_ENTRY
  }

  predicate EntryShapeOk(k: Codec, e: Entry) {
    && e.numHashes <= MAX_NUM_HASHES
    && |e.txs| <= MAX_TRANSACTIONS_PER_ENTRY
    && (forall i :: 0 <= i < |e.txs| ==> TxShapeOk(k, e.txs[i]))
    && EntrySize(e) <= MAX_ENTRY_SIZE
  }

  /** NumHashes - 1 in unsigned 64-bit arithmetic. */
  function Dec64(n: nat): nat { if n == 0 then TWO_64 - 1 else n - 1 }

  /** The hash an entry must carry when the chain stands at `cur`. */
  function Advance(k: Codec, cur: Hash, e: Entry): Hash {
    var mid := Iterate(k.sha, cur, Dec64(e.numHashes));
    k.sha(if e.txs == [] then mid else mid + HashTransactions(k, e.txs))
  }

  /** Entry i continues the chain of the entries before it. */
  predicate Continues(k: Codec, prev: Hash, es: seq<Entry>, i: nat)
    requires i < |es|
  {
    es[i].hash == Advance(k, LastHash(prev, es[..i]), es[i])
  }

  ghost predicate Linked(k: Codec, prev: Hash, es: seq<Entry>) {
    forall i :: 0 <= i < |es| ==> Continues(k, prev, es, i)
  }

  /** What the checker accepts: few enough entries, each well formed, each continuing the chain. */
  ghost predicate Accepts(k: Codec, prev: Hash, es: seq<Entry>) {
    && |es| <= MAX_ENTRIES_PER_SLOT
    && (forall i :: 0 <= i < |es| ==> EntryShapeOk(k, es[i]))
    && Linked(k, prev, es)
  }

  datatype VerifyError = TooManyEntries | BadEntry(index: nat) | Mismatch(index: nat)

  /** Accepts exactly the lists that satisfy Accepts and otherwise names the first offending entry. */
  method VerifyEntries(k: Codec, prev: Hash, es: seq<Entry>) returns (r: Option<VerifyError>)
    ensures r.None? <==> Accepts(k, prev, es)
    ensures r == Some(TooManyEntries) <==> |es| > MAX_ENTRIES_PER_SLOT
    ensures r.Some? && !r.value.TooManyEntries? ==>
      var i := r.value.index;
      && i < |es|
      && (forall j :: 0 <= j < i ==> EntryShapeOk(k, es[j]) && Continues(k, prev, es, j))
      && (r.value.BadEntry? <==> !EntryShapeOk(k, es[i]))
      && (r.value.Mismatch? ==> !Continues(k, prev, es, i))
  {
    if |es| > MAX_ENTRIES_PER_SLOT {
      return Some(TooManyEntries);
    }
    var cur := prev;
    for i := 0 to |es|
      invariant cur == LastHash(prev, es[..i])
      invariant forall j :: 0 <= j < i ==> EntryShapeOk(k, es[j]) && Continues(k, prev, es, j)
    {
      var e := es[i];
      if !EntryShapeOk(k, e) {
        return Some(BadEntry(i));
      }
      ghost var start := cur;
      var n := 0;
      while n < Dec64(e.numHashes)
        invariant n <= Dec64(e.numHashes)
        invariant cur == Iterate(k.sha, start, n)
      {
        cur := k.sha(cur);
        n := n + 1;
      }
      if |e.txs| == 0 {
        cur := k.sha(cur);
      } else {
        var mixin := HashTransactions(k, e.txs);
        cur := k.sha(cur + mixin);
      }
      if cur != e.hash {
        assert !Continues(k, prev, es, i);
        return Some(Mismatch(i));
      }
      assert es[..i + 1][..i] == es[..i];
    }
    r := None;
  }

  lemma ContinuesAfter(k: Codec, prev: Hash, e: Entry, es: seq<Entry>, i: nat)
    requires i < |es|
    ensures Continues(k, prev, [e] + es, i + 1) <==> Continues(k, e.hash, es, i)
  {
    var all := [e] + es;
    assert all[..i + 1] == [e] + es[..i];
    assert LastHash(prev, all[..i + 1]) == LastHash(e.hash, es[..i]) by {
      if i > 0 {
        assert all[..i + 1][i] == es[..i][i - 1];
      }
    }
  }

  /** A chain with one more entry in front. */
  lemma LinkedPrepend(k: Codec, prev: Hash, e: Entry, es: seq<Entry>)
    ensures Linked(k, prev, [e] + es) <==> e.hash == Advance(k, prev, e) && Linked(k, e.hash, es)
  {
    var all := [e] + es;
    forall i | 0 <= i < |es|
      ensures Continues(k, prev, all, i + 1) <==> Continues(k, e.hash, es, i)
    {
      ContinuesAfter(k, prev, e, es, i);
    }
    assert Continues(k, prev, all, 0) <==> e.hash == Advance(k, prev, e) by {
      assert all[..0] == [];
    }
    if e.hash == Advance(k, prev, e) && Linked(k, e.hash, es) {
      forall i | 0 <= i < |all|
        ensures Continues(k, prev, all, i)
      {
        if i > 0 {
          assert Continues(k, e.hash, es, i - 1);
        }
      }
    }
  }

  lemma LinkedAppend(k: Codec, prev: Hash, es: seq<Entry>, e: Entry)
    requires Linked(k, prev, es)
    requires e.hash == Advance(k, LastHash(prev, es), e)
    ensures Linked(k, prev, es + [e])
  {
    var fs := es + [e];
    forall i | 0 <= i < |fs|
      ensures Continues(k, prev, fs, i)
    {
      if i < |es| {
        assert fs[..i] == es[..i] && fs[i] == es[i];
        assert Continues(k, prev, es, i);
      } else {
        assert fs[..i] == es;
      }
    }
  }

  /** Entry i of a transaction-free slot carries the chain after i + 1 whole ticks. */
  ghost predicate TickOnly(k: Codec, seed: Hash, es: seq<Entry>, perTick: nat) {
    forall i :: 0 <= i < |es| ==> es[i] == TickEntry(perTick, Iterate(k.sha, seed, perTick * (i + 1)))
  }

  method GenerateTickOnlyEntries(k: Codec, seed: Hash, numEntries: int, perTick: nat) returns (es: seq<Entry>)
    ensures |es| == if numEntries <= 0 || perTick == 0 then 0 else numEntries
    ensures TickOnly(k, seed, es, perTick)
  {
    es := [];
    if numEntries <= 0 || perTick == 0 {
      return;
    }
    var cur := seed;
    for i := 0 to numEntries
      invariant |es| == i
      invariant cur == Iterate(k.sha, seed, perTick * i)
      invariant TickOnly(k, seed, es, perTick)
    {
      ghost var start := cur;
      var n := 1;
      while n < perTick
        invariant 1 <= n <= perTick
        invariant cur == Iterate(k.sha, start, n - 1)
      {
        cur := k.sha(cur);
        n := n + 1;
      }
      cur := k.sha(cur);
      IterateAdd(k.sha, seed, perTick * i, perTick);
      assert perTick * i + perTick == perTick * (i + 1);
      es := es + [TickEntry(perTick, cur)];
    }
  }

  lemma TickOnlyLinked(k: Codec, seed: Hash, es: seq<Entry>, perTick: nat)
    requires perTick >= 1 && TickOnly(k, seed, es, perTick)
    ensures Linked(k, seed, es)
  {
    forall i | 0 <= i < |es|
      ensures Continues(k, seed, es, i)
    {
      assert perTick * i + perTick == perTick * (i + 1);
      IterateAdd(k.sha, seed, perTick * i, perTick);
      assert LastHash(seed, es[..i]) == Iterate(k.sha, seed, perTick * i) by {
        if i > 0 {
          assert es[..i][i - 1] == es[i - 1];
        }
      }
    }
  }

  /** A generated slot is accepted from its own seed exactly when it is empty or both its tick count
      and its hashes per tick are within the checker's bounds. */
  lemma TickOnlyAccepted(k: Codec, seed: Hash, es: seq<Entry>, perTick: nat)
    requires TickOnly(k, seed, es, perTick)
    requires perTick == 0 ==> es == []
    ensures Accepts(k, seed, es) <==> es == [] || (|es| <= MAX_ENTRIES_PER_SLOT && perTick <= MAX_NUM_HASHES)
  {
    if es != [] {
      TickOnlyLinked(k, seed, es, perTick);
      assert es[0].numHashes == perTick;
    }
  }

  /** A generated slot ends where the clock ends when fast-forwarded over the same ticks. */
  lemma TickOnlyEndsAtFastForward(k: Codec, seed: Hash, es: seq<Entry>, perTick: nat)
    requires TickOnly(k, seed, es, perTick)
    ensures LastHash(seed, es) == Iterate(k.sha, seed, |es| * perTick)
  {
    assert |es| * perTick == perTick * |es|;
  }
}
