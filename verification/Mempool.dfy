/** The pool of pending transactions. */
module Mempool {
  import opened Base
  import opened Accounts
  import opened BlockStore
  import opened Content
  import opened Dedup

  const NONCE_WINDOW := 150
  const MAX_MEMO_CHARACTERS := 512

  /** The pool together with the dedup cache it shares with the block handlers. */
  datatype Pool = Pool(
    txs: map<string, Transaction>,
    order: seq<string>,
    dedup: set<string>,
    totals: map<string, U256>,
    max: nat,
    slot: nat,
    cache: set<string>)

  datatype Refusal =
    | InvalidAmount | MemoTooLong | Full | NonceTooLow | NonceTooHigh | BadSignature
    | Duplicate | InvalidContent | AccountNotFound | InsufficientFunds

  // ----- Admission ------------------------------------------------------------------------------

  function MinNonce(slot: nat): nat { if slot > NONCE_WINDOW then slot - NONCE_WINDOW else 1 }

  function NonceError(slot: nat, tx: Transaction): Option<Refusal> {
    if tx.nonce < MinNonce(slot) then Some(NonceTooLow)
    else if tx.nonce > slot then Some(NonceTooHigh)
    else None
  }

  /** Checks before the lock is taken; `signed` is the outcome of verifying the signature. */
  function CheapError(p: Pool, tx: Transaction, signed: bool): Option<Refusal> {
    if tx.Value() == 0 && !tx.IsContent() then Some(InvalidAmount)
    else if |tx.textData| > MAX_MEMO_CHARACTERS then Some(MemoTooLong)
    else if |p.txs| >= p.max then Some(Full)
    else if NonceError(p.slot, tx).Some? then NonceError(p.slot, tx)
    else if !signed then Some(BadSignature)
    else None
  }

  /** Balance minus pending amounts, in 256-bit arithmetic; a transfer to oneself is not checked. */
  function BalanceError(p: Pool, accounts: Store, tx: Transaction): Option<Refusal> {
    if tx.sender == tx.recipient then None
    else if tx.sender !in accounts then Some(AccountNotFound)
    else if Available(p, accounts[tx.sender].balance, tx.sender) < tx.Value() then Some(InsufficientFunds)
    else None
  }

  function Available(p: Pool, balance: U256, sender: string): U256 {
    if sender in p.totals then Wrap256(balance - p.totals[sender]) else balance
  }

  /** Checks under the lock. */
  function LockedError(k: Codec, p: Pool, db: Db, tx: Transaction): Option<Refusal> {
    if k.dedupHash(tx) in p.dedup || k.dedupHash(tx) in p.cache then Some(Duplicate)
    else if tx.IsContent() then (if Validate(k, tx, db.txs, db.latest).1 then None else Some(InvalidContent))
    else BalanceError(p, db.accounts, tx)
  }

  /** Why a transaction is refused, if it is. */
  function AddError(k: Codec, p: Pool, db: Db, tx: Transaction, signed: bool): Option<Refusal> {
    if CheapError(p, tx, signed).Some? then CheapError(p, tx, signed) else LockedError(k, p, db, tx)
  }

  function Charged(totals: map<string, U256>, tx: Transaction): map<string, U256> {
    if tx.IsContent() then totals else
    totals[tx.sender := Wrap256((if tx.sender in totals then totals[tx.sender] else 0) + tx.Value())]
  }

  function Insert(k: Codec, p: Pool, tx: Transaction): Pool {
    p.(txs := p.txs[k.txHash(tx) := tx],
       order := p.order + [k.txHash(tx)],
       dedup := p.dedup + {k.dedupHash(tx)},
       totals := Charged(p.totals, tx))
  }

  function AddTx(k: Codec, p: Pool, db: Db, tx: Transaction, signed: bool): Pool {
    if AddError(k, p, db, tx, signed).Some? then p else Insert(k, p, tx)
  }

  // ----- Removal --------------------------------------------------------------------------------

  /** Removal subtracts whatever the kind of transaction, and drops a total that reaches zero. */
  function Discharged(totals: map<string, U256>, tx: Transaction): map<string, U256> {
    if tx.sender !in totals then totals else
    var left := Wrap256(totals[tx.sender] - tx.Value());
    if left == 0 then totals - {tx.sender} else totals[tx.sender := left]
  }

  /** Forgets one transaction; the order is handled by the callers. */
  function Remove(k: Codec, p: Pool, h: string): Pool {
    if h !in p.txs then p else
    p.(txs := p.txs - {h}, dedup := p.dedup - {k.dedupHash(p.txs[h])}, totals := Discharged(p.totals, p.txs[h]))
  }

  function RemoveAll(k: Codec, p: Pool, hs: seq<string>): Pool {
    if hs == [] then p else Remove(k, RemoveAll(k, p, hs[..|hs| - 1]), hs[|hs| - 1])
  }

  /** The transactions found while removing the hashes one by one. */
  function Found(k: Codec, p: Pool, hs: seq<string>): seq<Transaction> {
    if hs == [] then [] else
    var q, h := RemoveAll(k, p, hs[..|hs| - 1]), hs[|hs| - 1];
    Found(k, p, hs[..|hs| - 1]) + if h in q.txs then [q.txs[h]] else []
  }

  function Min(a: nat, b: nat): nat { if a <= b then a else b }

  /** Takes up to `n` transactions from the front of the order and remembers them as seen. */
  function PullBatch(k: Codec, p: Pool, n: nat): (Pool, seq<Transaction>) {
    var m := Min(n, |p.order|);
    var q := RemoveAll(k, p.(order := p.order[m..]), p.order[..m]);
    var pulled := Found(k, p.(order := p.order[m..]), p.order[..m]);
    (q.(cache := q.cache + DedupHashes(k, pulled)), pulled)
  }

  function Without(order: seq<string>, hs: set<string>): seq<string> {
    if order == [] then [] else
    Without(order[..|order| - 1], hs) + if order[|order| - 1] in hs then [] else [order[|order| - 1]]
  }

  /** Forgets the transactions of a block; `visit` is the order in which its hashes come up. */
  function BlockCleanup(k: Codec, p: Pool, visit: seq<string>): Pool {
    var q := RemoveAll(k, p, visit);
    q.(order := Without(q.order, set h | h in visit))
  }

  function SetCurrentSlot(p: Pool, slot: nat): Pool { if slot <= p.slot then p else p.(slot := slot) }

  /** Why a block's transactions are refused: all nonces are looked at before any duplicate. */
  function BlockError(k: Codec, p: Pool, txs: seq<Transaction>): (r: Option<Refusal>)
    ensures r.None?
      <==> forall i :: 0 <= i < |txs| ==> NonceError(p.slot, txs[i]).None? && k.dedupHash(txs[i]) !in p.cache
  {
    var e := FirstNonceError(p.slot, txs);
    if e.Some? then e
    else if exists i :: 0 <= i < |txs| && k.dedupHash(txs[i]) in p.cache then Some(Duplicate)
    else None
  }

  function FirstNonceError(slot: nat, txs: seq<Transaction>): (r: Option<Refusal>)
    ensures r.None? <==> forall i :: 0 <= i < |txs| ==> NonceError(slot, txs[i]).None?
  {
    if txs == [] then None
    else if NonceError(slot, txs[0]).Some? then NonceError(slot, txs[0])
    else FirstNonceError(slot, txs[1..])
  }

  // ----- The pool object ------------------------------------------------------------------------

  class MempoolObject {
    const codec: Codec
    const max: nat
    const dedupService: DedupService
    var txs: map<string, Transaction>
    var txOrder: seq<string>
    var dedupTxHashSet: set<string>
    var senderTotalAmount: map<string, U256>
    var netCurrentSlot: nat

    function View(): Pool
      reads this, dedupService
    {
      Pool(txs, txOrder, dedupTxHashSet, senderTotalAmount, max, netCurrentSlot, dedupService.cache)
    }

    constructor (codec: Codec, max: nat, dedupService: DedupService)
      ensures View() == Pool(map[], [], {}, map[], max, 0, dedupService.cache)
      ensures this.codec == codec && this.dedupService == dedupService
    {
      this.codec, this.max, this.dedupService := codec, max, dedupService;
      txs, txOrder, dedupTxHashSet, senderTotalAmount, netCurrentSlot := map[], [], {}, map[], 0;
    }

    method ValidateNonce(ts: seq<Transaction>) returns (e: Option<Refusal>)
      ensures e == FirstNonceError(netCurrentSlot, ts)
    {
      var minNonce := 1;
      if netCurrentSlot > NONCE_WINDOW {
        minNonce := netCurrentSlot - NONCE_WINDOW;
      }
      for i := 0 to |ts|
        invariant FirstNonceError(netCurrentSlot, ts) == FirstNonceError(netCurrentSlot, ts[i..])
      {
        assert ts[i..][1..] == ts[i + 1..];
        if ts[i].nonce < minNonce {
          return Some(NonceTooLow);
        }
        if ts[i].nonce > netCurrentSlot {
          return Some(NonceTooHigh);
        }
      }
      e := None;
    }

    method ValidateDuplicateTxs(ts: seq<Transaction>) returns (e: Option<Refusal>)
      ensures e == if exists i :: 0 <= i < |ts| && codec.dedupHash(ts[i]) in dedupService.cache
        then Some(Duplicate) else None
    {
      for i := 0 to |ts|
        invariant forall j :: 0 <= j < i ==> codec.dedupHash(ts[j]) !in dedupService.cache
      {
        var found := dedupService.IsDuplicate(codec.dedupHash(ts[i]));
        if found {
          return Some(Duplicate);
        }
      }
      e := None;
    }

    method VerifyBlockTransactions(ts: seq<Transaction>) returns (e: Option<Refusal>)
      ensures e == BlockError(codec, View(), ts)
    {
      e := ValidateNonce(ts);
      if e.None? {
        e := ValidateDuplicateTxs(ts);
      }
    }

    method CheapValidate(tx: Transaction, signed: bool) returns (e: Option<Refusal>)
      ensures e == CheapError(View(), tx, signed)
    {
      if tx.Value() == 0 && !tx.IsContent() {
        return Some(InvalidAmount);
      }
      if |tx.textData| > MAX_MEMO_CHARACTERS {
        return Some(MemoTooLong);
      }
      if |txs| >= max {
        return Some(Full);
      }
      e := ValidateNonce([tx]);
      if e.Some? {
        return;
      }
      if !signed {
        return Some(BadSignature);
      }
    }

    method ValidateBalance(db: Db, tx: Transaction) returns (e: Option<Refusal>)
      ensures e == BalanceError(View(), db.accounts, tx)
    {
      if tx.sender == tx.recipient {
        return None;
      }
      if tx.sender !in db.accounts {
        return Some(AccountNotFound);
      }
      var available := db.accounts[tx.sender].balance;
      if tx.sender in senderTotalAmount {
        available := Wrap256(available - senderTotalAmount[tx.sender]);
      }
      if available < tx.Value() {
        return Some(InsufficientFunds);
      }
      e := None;
    }

    method ValidateTransaction(db: Db, tx: Transaction) returns (e: Option<Refusal>)
      ensures e == LockedError(codec, View(), db, tx)
    {
      if codec.dedupHash(tx) in dedupTxHashSet {
        return Some(Duplicate);
      }
      e := ValidateDuplicateTxs([tx]);
      assert [tx][0] == tx;
      if e.Some? {
        return;
      }
      if tx.IsContent() {
        return if Validate(codec, tx, db.txs, db.latest).1 then None else Some(InvalidContent);
      }
      e := ValidateBalance(db, tx);
    }

    method Add(db: Db, tx: Transaction, signed: bool) returns (e: Option<Refusal>)
      modifies this
      ensures e == AddError(codec, old(View()), db, tx, signed)
      ensures View() == AddTx(codec, old(View()), db, tx, signed)
    {
      e := CheapValidate(tx, signed);
      if e.Some? {
        return;
      }
      e := ValidateTransaction(db, tx);
      if e.Some? {
        return;
      }
      InsertTx(tx);
    }

    method InsertTx(tx: Transaction)
      modifies this
      ensures View() == Insert(codec, old(View()), tx)
    {
      var h := codec.txHash(tx);
      txs := txs[h := tx];
      txOrder := txOrder + [h];
      dedupTxHashSet := dedupTxHashSet + {codec.dedupHash(tx)};
      if !tx.IsContent() {
        if tx.sender !in senderTotalAmount {
          senderTotalAmount := senderTotalAmount[tx.sender := 0];
        }
        senderTotalAmount := senderTotalAmount[tx.sender := Wrap256(senderTotalAmount[tx.sender] + tx.Value())];
        assert senderTotalAmount == Charged(old(senderTotalAmount), tx);
      }
    }

    /** Takes one transaction out of the maps. */
    method Drop(h: string) returns (r: Option<Transaction>)
      modifies this`txs, this`dedupTxHashSet, this`senderTotalAmount
      ensures View() == Remove(codec, old(View()), h)
      ensures r == if h in old(txs) then Some(old(txs)[h]) else None
    {
      if h !in txs {
        return None;
      }
      var tx := txs[h];
      if tx.sender in senderTotalAmount {
        var left := Wrap256(senderTotalAmount[tx.sender] - tx.Value());
        senderTotalAmount := senderTotalAmount[tx.sender := left];
        if left == 0 {
          senderTotalAmount := senderTotalAmount - {tx.sender};
          assert senderTotalAmount == old(senderTotalAmount) - {tx.sender};
        }
      }
      txs := txs - {h};
      dedupTxHashSet := dedupTxHashSet - {codec.dedupHash(tx)};
      r := Some(tx);
    }

    method Pull(n: nat) returns (result: seq<Transaction>)
      modifies this, dedupService
      ensures (View(), result) == PullBatch(codec, old(View()), n)
    {
      var m := if n <= |txOrder| then n else |txOrder|;
      var selected := txOrder[..m];
      txOrder := txOrder[m..];
      ghost var start := View();
      result := [];
      var hashes: seq<string> := [];
      for i := 0 to m
        invariant View() == RemoveAll(codec, start, selected[..i])
        invariant result == Found(codec, start, selected[..i])
        invariant |hashes| == |result| && forall j :: 0 <= j < |hashes| ==> hashes[j] == codec.dedupHash(result[j])
      {
        assert selected[..i + 1][..i] == selected[..i];
        var found := Drop(selected[i]);
        if found.Some? {
          result := result + [found.value];
          hashes := hashes + [codec.dedupHash(found.value)];
        }
      }
      assert selected[..m] == selected;
      dedupService.Add(hashes);
      assert (set h | h in hashes) == DedupHashes(codec, result);
    }

    method SetSlot(slot: nat)
      modifies this`netCurrentSlot
      ensures View() == SetCurrentSlot(old(View()), slot)
    {
      if slot <= netCurrentSlot {
        return;
      }
      netCurrentSlot := slot;
    }

    /** Removes a block's transactions; the hashes come up in an order of the map's own choosing. */
    method Cleanup(hashes: set<string>) returns (ghost visit: seq<string>)
      modifies this
      ensures (set h | h in visit) == hashes && |visit| == |hashes|
      ensures View() == BlockCleanup(codec, old(View()), visit)
    {
      visit := [];
      var todo := hashes;
      while todo != {}
        invariant todo <= hashes && (set h | h in visit) == hashes - todo && |visit| + |todo| == |hashes|
        invariant View() == RemoveAll(codec, old(View()), visit)
        decreases |todo|
      {
        var h :| h in todo;
        var _ := Drop(h);
        assert (set x | x in visit + [h]) == (set x | x in visit) + {h};
        visit := visit + [h];
        todo := todo - {h};
      }
      assert (set h | h in visit) == hashes;
      var kept := Filter(txOrder, hashes);
      txOrder := kept;
    }
  }

  method Filter(order: seq<string>, hashes: set<string>) returns (kept: seq<string>)
    ensures kept == Without(order, hashes)
  {
    kept := [];
    for i := 0 to |order|
      invariant kept == Without(order[..i], hashes)
    {
      assert order[..i + 1][..i] == order[..i];
      if order[i] !in hashes {
        kept := kept + [order[i]];
      }
    }
    assert order[..|order|] == order;
  }
}
