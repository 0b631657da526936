/** Finalising a block: load its transactions, apply transfers and contents to copies of what they
    touch, and write everything back in one batch. */
module Ledger {
  import opened Base
  import opened Accounts
  import opened Content
  import opened Overlay
  import opened BlockStore

  // ----- What a block contributes ---------------------------------------------------------------

  function TxHashes(es: seq<PersistentEntry>): seq<string> {
    if es == [] then [] else
    TxHashes(es[..|es| - 1]) + if es[|es| - 1].tick then [] else es[|es| - 1].txHashes
  }

  /** The transactions of a stored block. */
  function Load(db: Db, blk: Block): seq<Transaction> {
    GetBatch(db.txs, TxHashes(blk.entries))
  }

  function Transfers(txs: seq<Transaction>): seq<Transaction> {
    if txs == [] then [] else
    Transfers(txs[..|txs| - 1]) + if txs[|txs| - 1].IsContent() then [] else [txs[|txs| - 1]]
  }

  /** Content transactions whose body parses. */
  function Contents(k: Codec, txs: seq<Transaction>): seq<Transaction> {
    if txs == [] then [] else
    var tx := txs[|txs| - 1];
    Contents(k, txs[..|txs| - 1]) + if tx.IsContent() && k.parse(tx.extraInfo).Some? then [tx] else []
  }

  /** Hashes that contents look up: parents and references. */
  function RelatedHashes(k: Codec, txs: seq<Transaction>): set<string> {
    if txs == [] then {} else
    RelatedHashes(k, txs[..|txs| - 1]) +
    match k.parse(txs[|txs| - 1].extraInfo)
    case None => {}
    case Some(c) =>
      (if c.parentHash == "" then {} else {c.parentHash}) + (set i | 0 <= i < |c.references| :: c.references[i])
  }

  function RootHashes(k: Codec, txs: seq<Transaction>): set<string> {
    if txs == [] then {} else
    RootHashes(k, txs[..|txs| - 1]) +
    match k.parse(txs[|txs| - 1].extraInfo)
    case None => {}
    case Some(c) => if c.rootHash == "" then {} else {c.rootHash}
  }

  // ----- The two passes over a block ------------------------------------------------------------

  function Mark(core: BlockCore, ok: bool): Meta {
    Meta(core.slot, core.hash, if ok then Succeeded else Failed)
  }

  /** Accounts and transaction metas after the transfers; contents are left for the second pass. */
  function FirstPass(k: Codec, core: BlockCore, txs: seq<Transaction>, state: Store): (r: (Store, map<string, Meta>)) {
    if txs == [] then (state, map[]) else
    var (st, metas) := FirstPass(k, core, txs[..|txs| - 1], state);
    var tx := txs[|txs| - 1];
    var h := k.txHash(tx);
    if tx.IsContent() then (st, if k.parse(tx.extraInfo).None? then metas[h := Mark(core, false)] else metas)
    else (ApplyTx(st, tx).0, metas[h := Mark(core, ApplyTx(st, tx).1)])
  }

  /** Metas of the contents, on top of those of the first pass. */
  function SecondPass(k: Codec, core: BlockCore, txs: seq<Transaction>, related: map<string, Transaction>,
      latest: Latest, metas: map<string, Meta>): (r: map<string, Meta>) {
    if txs == [] then metas else
    var front, tx := txs[..|txs| - 1], txs[|txs| - 1];
    SecondPass(k, core, front, related, latest, metas)
      [k.txHash(tx) := Mark(core, Validate(k, tx, related, ValidateAll(k, front, related, latest).0).1)]
  }

  function FinalizeBlock(k: Codec, s: State, blk: Block): (r: (State, bool)) {
    if blk.core.invalidPoH then (s, true) else
    var txs := Load(s.db, blk);
    var (accounts, metas) := FirstPass(k, blk.core, txs, Restrict(s.db.accounts, Addresses(Transfers(txs))));
    var contents := Contents(k, txs);
    var related := Restrict(s.db.txs, RelatedHashes(k, contents));
    var latest := Restrict(s.db.latest, RootHashes(k, contents));
    Finalize(s, blk, SecondPass(k, blk.core, contents, related, latest, metas), accounts,
             ValidateAll(k, contents, related, latest).0)
  }

  // ----- The ledger object ----------------------------------------------------------------------

  class LedgerObject {
    const codec: Codec
    const store: GenericBlockStore

    ghost predicate Valid()
      reads this, store
    {
      store.codec == codec && Keyed(codec, store.db.txs)
    }

    constructor (store: GenericBlockStore)
      requires Keyed(store.codec, store.db.txs)
      ensures Valid() && this.store == store && codec == store.codec
    {
      codec := store.codec;
      this.store := store;
    }

    method CollectHashes(es: seq<PersistentEntry>) returns (hs: seq<string>)
      ensures hs == TxHashes(es)
    {
      hs := [];
      for i := 0 to |es|
        invariant hs == TxHashes(es[..i])
      {
        assert es[..i + 1][..i] == es[..i];
        if !es[i].tick {
          hs := hs + es[i].txHashes;
        }
      }
      assert es[..|es|] == es;
    }

    /** Adds an address unless it is already listed. */
    method AddAddress(addrs: seq<string>, a: string) returns (r: seq<string>)
      requires NoDuplicates(addrs)
      ensures NoDuplicates(r) && AsSet(r) == AsSet(addrs) + {a}
    {
      r := if a in addrs then addrs else addrs + [a];
    }

    /** Senders and recipients of the transfers, each once. */
    method CollectAddresses(txs: seq<Transaction>) returns (addrs: seq<string>)
      ensures NoDuplicates(addrs) && AsSet(addrs) == Addresses(Transfers(txs))
    {
      addrs := [];
      for i := 0 to |txs|
        invariant NoDuplicates(addrs) && AsSet(addrs) == Addresses(Transfers(txs[..i]))
      {
        assert txs[..i + 1][..i] == txs[..i];
        var tx := txs[i];
        AddressesStep(Transfers(txs[..i]), tx);
        if !tx.IsContent() {
          addrs := AddAddress(addrs, tx.sender);
          addrs := AddAddress(addrs, tx.recipient);
        } else {
          assert Transfers(txs[..i + 1]) == Transfers(txs[..i]);
        }
      }
      assert txs[..|txs|] == txs;
    }

    method LoadAccount(state: map<string, Account>, a: string, ghost done: set<string>)
        returns (r: map<string, Account>)
      requires Separate(state) && View(state) == Restrict(store.db.accounts, done) && a !in done
      ensures Separate(r) && View(r) == Restrict(store.db.accounts, done + {a})
      ensures forall b :: b in r ==> (b in state && r[b] == state[b]) || fresh(r[b])
    {
      if a in store.db.accounts {
        assert a !in View(state);
        var acc := new Account(a, store.db.accounts[a].balance, store.db.accounts[a].nonce);
        r := state[a := acc];
        assert Restrict(store.db.accounts, done + {a}) == Restrict(store.db.accounts, done)[a := store.db.accounts[a]];
        assert View(r) == View(state)[a := store.db.accounts[a]];
      } else {
        r := state;
        assert Restrict(store.db.accounts, done + {a}) == Restrict(store.db.accounts, done);
      }
    }

    /** Fresh account objects for the addresses that exist. */
    method LoadAccounts(addrs: seq<string>) returns (state: map<string, Account>)
      requires NoDuplicates(addrs)
      ensures Separate(state) && forall a :: a in state ==> fresh(state[a])
      ensures View(state) == Restrict(store.db.accounts, AsSet(addrs))
    {
      state := map[];
      for i := 0 to |addrs|
        invariant Separate(state) && forall a :: a in state ==> fresh(state[a])
        invariant View(state) == Restrict(store.db.accounts, AsSet(addrs[..i]))
      {
        assert AsSet(addrs[..i + 1]) == AsSet(addrs[..i]) + {addrs[i]};
        state := LoadAccount(state, addrs[i], AsSet(addrs[..i]));
      }
      assert addrs[..|addrs|] == addrs;
    }

    /** First pass on account objects; contents that parse are collected. */
    method ApplyTransfers(core: BlockCore, txs: seq<Transaction>, start: map<string, Account>)
      returns (state: map<string, Account>, metas: map<string, Meta>, contents: seq<Transaction>)
      requires Separate(start)
      modifies start.Values
      ensures Separate(state) && contents == Contents(codec, txs)
      ensures (View(state), metas) == FirstPass(codec, core, txs, old(View(start)))
    {
      state, metas, contents := start, map[], [];
      for i := 0 to |txs|
        invariant Separate(state) && forall a :: a in state ==> state[a] in start.Values || fresh(state[a])
        invariant contents == Contents(codec, txs[..i])
        invariant (View(state), metas) == FirstPass(codec, core, txs[..i], old(View(start)))
      {
        assert txs[..i + 1][..i] == txs[..i];
        var tx := txs[i];
        var h := codec.txHash(tx);
        if tx.IsContent() {
          if codec.parse(tx.extraInfo).None? {
            metas := metas[h := Mark(core, false)];
          } else {
            contents := contents + [tx];
          }
        } else {
          var ok;
          state, ok := ApplyTxInPlace(state, tx);
          metas := metas[h := Mark(core, ok)];
        }
      }
      assert txs[..|txs|] == txs;
    }

    /** Second pass: contents in order, each against the versions the earlier ones left. */
    method ApplyContents(core: BlockCore, txs: seq<Transaction>, related: map<string, Transaction>, latest: Latest,
        metas: map<string, Meta>)
      returns (latest': Latest, metas': map<string, Meta>)
      requires forall i :: 0 <= i < |txs| ==> codec.parse(txs[i].extraInfo).Some?
      ensures latest' == ValidateAll(codec, txs, related, latest).0
      ensures metas' == SecondPass(codec, core, txs, related, latest, metas)
    {
      latest', metas' := latest, metas;
      for i := 0 to |txs|
        invariant latest' == ValidateAll(codec, txs[..i], related, latest).0
        invariant metas' == SecondPass(codec, core, txs[..i], related, latest, metas)
      {
        SecondPassStep(codec, core, txs, i, related, latest, metas);
        var ok;
        latest', ok := ValidateUserContent(codec, txs[i], related, latest');
        metas' := metas'[codec.txHash(txs[i]) := Mark(core, ok)];
      }
      assert txs[..|txs|] == txs;
    }

    /** Hashes and roots that the contents name. */
    method CollectNames(txs: seq<Transaction>) returns (hashes: set<string>, roots: set<string>)
      requires forall i :: 0 <= i < |txs| ==> codec.parse(txs[i].extraInfo).Some?
      ensures hashes == RelatedHashes(codec, txs) && roots == RootHashes(codec, txs)
    {
      hashes, roots := {}, {};
      for i := 0 to |txs|
        invariant hashes == RelatedHashes(codec, txs[..i]) && roots == RootHashes(codec, txs[..i])
      {
        assert txs[..i + 1][..i] == txs[..i];
        var c := codec.parse(txs[i].extraInfo).value;
        if c.parentHash != "" {
          hashes := hashes + {c.parentHash};
        }
        if c.rootHash != "" {
          roots := roots + {c.rootHash};
        }
        hashes := hashes + (set j | 0 <= j < |c.references| :: c.references[j]);
      }
      assert txs[..|txs|] == txs;
    }

    /** Finalises a stored block. A block marked InvalidPoH changes nothing. */
    method Finalise(blk: Block) returns (ok: bool)
      requires Valid()
      modifies store
      ensures Valid() && (store.View(), ok) == FinalizeBlock(codec, old(store.View()), blk)
    {
      if blk.core.invalidPoH {
        return true;
      }
      var hs := CollectHashes(blk.entries);
      var txs := GetBatch(store.db.txs, hs);
      var addrs := CollectAddresses(txs);
      var start := LoadAccounts(addrs);
      var state, metas, contents := ApplyTransfers(blk.core, txs, start);
      ContentsParse(codec, txs);
      var hashes, roots := CollectNames(contents);
      var related := Restrict(store.db.txs, hashes);
      var latest := Restrict(store.db.latest, roots);
      latest, metas := ApplyContents(blk.core, contents, related, latest, metas);
      ok := store.FinalizeBlock(blk, metas, View(state), latest);
    }
  }

  lemma SecondPassStep(k: Codec, core: BlockCore, txs: seq<Transaction>, i: nat, related: map<string, Transaction>,
      latest: Latest, metas: map<string, Meta>)
    requires i < |txs|
    ensures var l := ValidateAll(k, txs[..i], related, latest).0;
      && ValidateAll(k, txs[..i + 1], related, latest).0 == Validate(k, txs[i], related, l).0
      && SecondPass(k, core, txs[..i + 1], related, latest, metas)
         == SecondPass(k, core, txs[..i], related, latest, metas)
            [k.txHash(txs[i]) := Mark(core, Validate(k, txs[i], related, l).1)]
  {
    assert txs[..i + 1][..i] == txs[..i];
  }

  lemma {:induction false} ContentsParse(k: Codec, txs: seq<Transaction>)
    ensures forall i :: 0 <= i < |Contents(k, txs)| ==>
      k.parse(Contents(k, txs)[i].extraInfo).Some? && Contents(k, txs)[i].IsContent() && Contents(k, txs)[i] in txs
  {
    if txs != [] {
      ContentsParse(k, txs[..|txs| - 1]);
    }
  }

  lemma AddressesStep(txs: seq<Transaction>, tx: Transaction)
    ensures Addresses(txs + [tx]) == Addresses(txs) + {tx.sender} + {tx.recipient}
  {
    assert (txs + [tx])[..|txs|] == txs;
  }

  function AsSet(s: seq<string>): set<string> { set x | x in s }
}
