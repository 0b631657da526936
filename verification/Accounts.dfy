/** Account balances and the transfers of a block. */
module Accounts {
  import opened Base
  import opened Overlay
  import opened Sums

  datatype Acct = Acct(balance: U256, nonce: nat)

  type Store = map<string, Acct>

  function Balance(m: Store, a: string): U256 {
    if a in m then m[a].balance else 0
  }

  /** An absent account is created empty. */
  function Open(m: Store, a: string): (r: Store)
    ensures a in r
  {
    if a in m then m else m[a := Acct(0, 0)]
  }

  /** Debit, credit and nonce are separate updates, so that a transfer to oneself first loses and then
      regains the amount. */
  function Move(m: Store, tx: Transaction, v: U256): (r: Store)
    requires tx.sender in m && tx.recipient in m && m[tx.sender].balance >= v
  {
    var debited := m[tx.sender := m[tx.sender].(balance := m[tx.sender].balance - v)];
    var credited :=
      debited[tx.recipient := debited[tx.recipient].(balance := Wrap256(debited[tx.recipient].balance + v))];
    credited[tx.sender := credited[tx.sender].(nonce := tx.nonce)]
  }

  /** One transfer: both accounts are opened, the amount is checked, then moved, and the sender's
      nonce is recorded. */
  function ApplyTx(m: Store, tx: Transaction): (r: (Store, bool)) {
    match tx.amount
    case None => (m, false)
    case Some(v) =>
      var both := Open(Open(m, tx.sender), tx.recipient);
      if both[tx.sender].balance < v then (both, false) else (Move(both, tx, v), true)
  }

  /** Transfers applied one at a time to the whole store. */
  function ApplyAll(m: Store, txs: seq<Transaction>): (r: Store) {
    if txs == [] then m else ApplyTx(ApplyAll(m, txs[..|txs| - 1]), txs[|txs| - 1]).0
  }

  // ----- Account objects, as the source updates them --------------------------------------------

  class Account {
    const address: string
    var balance: U256
    var nonce: nat

    constructor (address: string, balance: U256, nonce: nat)
      ensures this.address == address && this.balance == balance && this.nonce == nonce
    {
      this.address := address;
      this.balance := balance;
      this.nonce := nonce;
    }
  }

  /** Distinct addresses have distinct objects, and objects know their address. */
  ghost predicate Separate(state: map<string, Account>) {
    && (forall a :: a in state ==> state[a].address == a)
    && (forall a, b :: a in state && b in state && a != b ==> state[a] != state[b])
  }

  function View(state: map<string, Account>): Store
    reads state.Values
  {
    map a | a in state :: Acct(state[a].balance, state[a].nonce)
  }

  method OpenInPlace(state: map<string, Account>, a: string) returns (r: map<string, Account>, acc: Account)
    requires Separate(state)
    ensures Separate(r) && a in r && r[a] == acc && r.Keys == state.Keys + {a}
    ensures forall b :: b in state ==> r[b] == state[b]
    ensures a !in state ==> fresh(acc)
    ensures View(r) == Open(old(View(state)), a)
  {
    if a in state {
      r, acc := state, state[a];
    } else {
      acc := new Account(a, 0, 0);
      r := state[a := acc];
    }
  }

  method SetBalance(state: map<string, Account>, acc: Account, v: U256)
    requires Separate(state) && acc.address in state && state[acc.address] == acc
    modifies acc`balance
    ensures View(state) == old(View(state))[acc.address := Acct(v, old(acc.nonce))]
    ensures acc.balance == v
  {
    acc.balance := v;
  }

  method SetNonce(state: map<string, Account>, acc: Account, n: nat)
    requires Separate(state) && acc.address in state && state[acc.address] == acc
    modifies acc`nonce
    ensures View(state) == old(View(state))[acc.address := Acct(old(acc.balance), n)]
  {
    acc.nonce := n;
  }

  method MoveInPlace(state: map<string, Account>, sender: Account, recipient: Account, tx: Transaction, v: U256)
    requires Separate(state) && tx.sender in state && tx.recipient in state
    requires sender == state[tx.sender] && recipient == state[tx.recipient] && sender.balance >= v
    modifies sender, recipient
    ensures View(state) == Move(old(View(state)), tx, v)
  {
    ghost var m := View(state);
    assert sender.address == tx.sender && recipient.address == tx.recipient;
    SetBalance(state, sender, sender.balance - v);
    ghost var debited := m[tx.sender := m[tx.sender].(balance := m[tx.sender].balance - v)];
    assert View(state) == debited;
    assert debited[tx.recipient] == Acct(recipient.balance, recipient.nonce);
    SetBalance(state, recipient, Wrap256(recipient.balance + v));
    ghost var credited := debited[tx.recipient := debited[tx.recipient].(balance := recipient.balance)];
    assert View(state) == credited;
    assert credited[tx.sender] == Acct(sender.balance, sender.nonce);
    SetNonce(state, sender, tx.nonce);
  }

  /** Applies a transfer to the objects of `state`. Sender and recipient may be the same object. */
  method ApplyTxInPlace(state: map<string, Account>, tx: Transaction) returns (r: map<string, Account>, ok: bool)
    requires Separate(state)
    modifies state.Values
    ensures Separate(r) && state.Keys <= r.Keys
    ensures forall b :: b in state ==> r[b] == state[b]
    ensures forall b :: b in r && b !in state ==> fresh(r[b])
    ensures (View(r), ok) == ApplyTx(old(View(state)), tx)
  {
    if tx.amount.None? {
      return state, false;
    }
    var sender, recipient;
    r, sender := OpenInPlace(state, tx.sender);
    r, recipient := OpenInPlace(r, tx.recipient);
    var v := tx.amount.value;
    if sender.balance < v {
      return r, false;
    }
    MoveInPlace(r, sender, recipient, tx, v);
    ok := true;
  }

  // ----- A block works on a copy of the accounts it mentions ------------------------------------

  function Addresses(txs: seq<Transaction>): set<string> {
    if txs == [] then {} else Addresses(txs[..|txs| - 1]) + {txs[|txs| - 1].sender, txs[|txs| - 1].recipient}
  }

  lemma OverlayOpen(m: Store, part: Store, whole: Store, keys: set<string>, a: string)
    requires Overlays(m, part, whole, keys) && a in keys
    ensures Overlays(m, Open(part, a), Open(whole, a), keys)
    ensures Open(part, a)[a] == Open(whole, a)[a]
  {
  }

  lemma OverlayMove(m: Store, part: Store, whole: Store, keys: set<string>, tx: Transaction, v: U256)
    requires Overlays(m, part, whole, keys)
    requires tx.sender in part && tx.recipient in part && part[tx.sender].balance >= v
    ensures tx.sender in whole && tx.recipient in whole && whole[tx.sender] == part[tx.sender]
    ensures Overlays(m, Move(part, tx, v), Move(whole, tx, v), keys)
  {
    var d := part[tx.sender].(balance := part[tx.sender].balance - v);
    OverlayPut(m, part, whole, keys, tx.sender, d);
    var p, w := part[tx.sender := d], whole[tx.sender := d];
    var c := p[tx.recipient].(balance := Wrap256(p[tx.recipient].balance + v));
    OverlayPut(m, p, w, keys, tx.recipient, c);
    var p', w' := p[tx.recipient := c], w[tx.recipient := c];
    OverlayPut(m, p', w', keys, tx.sender, p'[tx.sender].(nonce := tx.nonce));
  }

  lemma OverlayStep(m: Store, part: Store, whole: Store, keys: set<string>, tx: Transaction)
    requires Overlays(m, part, whole, keys) && tx.sender in keys && tx.recipient in keys
    ensures Overlays(m, ApplyTx(part, tx).0, ApplyTx(whole, tx).0, keys)
    ensures ApplyTx(part, tx).1 == ApplyTx(whole, tx).1
  {
    var p, w := Open(part, tx.sender), Open(whole, tx.sender);
    OverlayOpen(m, part, whole, keys, tx.sender);
    OverlayOpen(m, p, w, keys, tx.recipient);
    var p', w' := Open(p, tx.recipient), Open(w, tx.recipient);
    assert p'[tx.sender] == w'[tx.sender];
    if tx.amount.Some? && p'[tx.sender].balance >= tx.amount.value {
      OverlayMove(m, p', w', keys, tx, tx.amount.value);
    }
  }

  /** Reading the mentioned accounts in a batch, applying the transfers to that copy and writing it
      back is applying the transfers one at a time to the whole store: same accounts, same verdict on
      the last transfer (hence on every one), every other account untouched. */
  lemma {:induction false} OverlayIsSequential(m: Store, txs: seq<Transaction>, keys: set<string>)
    requires Addresses(txs) <= keys
    ensures Overlays(m, ApplyAll(Restrict(m, keys), txs), ApplyAll(m, txs), keys)
    ensures m + ApplyAll(Restrict(m, keys), txs) == ApplyAll(m, txs)
    ensures txs != [] ==> var front, tx := txs[..|txs| - 1], txs[|txs| - 1];
      ApplyTx(ApplyAll(Restrict(m, keys), front), tx).1 == ApplyTx(ApplyAll(m, front), tx).1
  {
    if txs == [] {
      OverlayStart(m, keys);
    } else {
      var front, tx := txs[..|txs| - 1], txs[|txs| - 1];
      OverlayIsSequential(m, front, keys);
      OverlayStep(m, ApplyAll(Restrict(m, keys), front), ApplyAll(m, front), keys, tx);
    }
  }

  // ----- Conservation ---------------------------------------------------------------------------

  ghost function Total(m: Store): nat {
    SumOver(m.Keys, a => Balance(m, a))
  }

  lemma TotalUpdate(m: Store, a: string, v: Acct)
    ensures Total(m[a := v]) == Total(m) - Balance(m, a) + v.balance
    ensures Balance(m, a) <= Total(m)
  {
    var n := m[a := v];
    var f, g := (x: string) => Balance(m, x), (x: string) => Balance(n, x);
    SumCongruent(m.Keys - {a}, f, g);
    assert n.Keys - {a} == m.Keys - {a};
    SumPick(n.Keys, g, a);
    if a in m {
      SumPick(m.Keys, f, a);
    } else {
      assert m.Keys - {a} == m.Keys;
    }
  }

  lemma TotalOpen(m: Store, a: string)
    ensures Total(Open(m, a)) == Total(m)
    ensures forall b :: Balance(Open(m, a), b) == Balance(m, b)
  {
    if a !in m {
      TotalUpdate(m, a, Acct(0, 0));
    }
  }

  /** Net effect of one transfer on one balance. */
  function Moved(tx: Transaction, a: string): int {
    (if tx.recipient == a then tx.Value() else 0) - (if tx.sender == a then tx.Value() else 0)
  }

  lemma MoveConserves(m: Store, tx: Transaction, v: U256)
    requires Total(m) < TWO_256 && tx.amount == Some(v)
    requires tx.sender in m && tx.recipient in m && m[tx.sender].balance >= v
    ensures Total(Move(m, tx, v)) == Total(m)
    ensures forall a :: Balance(Move(m, tx, v), a) == Balance(m, a) + Moved(tx, a)
    ensures Move(m, tx, v)[tx.sender].nonce == tx.nonce
  {
    var d := m[tx.sender].(balance := m[tx.sender].balance - v);
    TotalUpdate(m, tx.sender, d);
    var debited := m[tx.sender := d];
    var c := debited[tx.recipient].(balance := Wrap256(debited[tx.recipient].balance + v));
    TotalUpdate(debited, tx.recipient, c);
    var credited := debited[tx.recipient := c];
    TotalUpdate(credited, tx.sender, credited[tx.sender].(nonce := tx.nonce));
  }

  /** While the total fits in 256 bits, a transfer keeps it and never wraps: it succeeds exactly when
      the sender can pay, moves exactly the amount, and otherwise changes no balance. */
  lemma TransferConserves(m: Store, tx: Transaction)
    requires Total(m) < TWO_256
    ensures var (n, ok) := ApplyTx(m, tx);
      && Total(n) == Total(m)
      && (ok <==> tx.amount.Some? && Balance(m, tx.sender) >= tx.amount.value)
      && (forall a :: Balance(n, a) == Balance(m, a) + if ok then Moved(tx, a) else 0)
      && (ok ==> tx.sender in n && n[tx.sender].nonce == tx.nonce)
  {
    TotalOpen(m, tx.sender);
    TotalOpen(Open(m, tx.sender), tx.recipient);
    if ApplyTx(m, tx).1 {
      MoveConserves(Open(Open(m, tx.sender), tx.recipient), tx, tx.amount.value);
    }
  }

  /** Sum of what the successful transfers of a list move into, minus out of, an account. */
  function NetFlow(m: Store, txs: seq<Transaction>, a: string): int {
    if txs == [] then 0 else
    var front, tx := txs[..|txs| - 1], txs[|txs| - 1];
    NetFlow(m, front, a) + if ApplyTx(ApplyAll(m, front), tx).1 then Moved(tx, a) else 0
  }

  /** Over any list of transfers the total is kept and every balance is its old value plus its net flow. */
  lemma {:induction false} TransfersConserve(m: Store, txs: seq<Transaction>)
    requires Total(m) < TWO_256
    ensures Total(ApplyAll(m, txs)) == Total(m)
    ensures forall a :: Balance(ApplyAll(m, txs), a) == Balance(m, a) + NetFlow(m, txs, a)
  {
    if txs != [] {
      TransfersConserve(m, txs[..|txs| - 1]);
      TransferConserves(ApplyAll(m, txs[..|txs| - 1]), txs[|txs| - 1]);
    }
  }

  // ----- Genesis --------------------------------------------------------------------------------

  datatype Allocation = Allocation(address: string, amount: U256)

  function Allocated(gs: seq<Allocation>): nat {
    if gs == [] then 0 else Allocated(gs[..|gs| - 1]) + gs[|gs| - 1].amount
  }

  ghost predicate DistinctAllocations(gs: seq<Allocation>) {
    forall i, j :: 0 <= i < j < |gs| ==> gs[i].address != gs[j].address
  }

  function GenesisStore(gs: seq<Allocation>): Store {
    if gs == [] then map[] else GenesisStore(gs[..|gs| - 1])[gs[|gs| - 1].address := Acct(gs[|gs| - 1].amount, 0)]
  }

  lemma {:induction false} GenesisKeys(gs: seq<Allocation>, a: string)
    ensures a in GenesisStore(gs) <==> exists j :: 0 <= j < |gs| && gs[j].address == a
  {
    if gs != [] {
      GenesisKeys(gs[..|gs| - 1], a);
    }
  }

  /** The genesis total is what the genesis allocates. */
  lemma {:induction false} GenesisTotal(gs: seq<Allocation>)
    requires DistinctAllocations(gs)
    ensures Total(GenesisStore(gs)) == Allocated(gs)
  {
    if gs != [] {
      var front, g := gs[..|gs| - 1], gs[|gs| - 1];
      GenesisTotal(front);
      GenesisKeys(front, g.address);
      TotalUpdate(GenesisStore(front), g.address, Acct(g.amount, 0));
    }
  }

  ghost predicate NewAddresses(m: Store, gs: seq<Allocation>) {
    forall i :: 0 <= i < |gs| ==> gs[i].address !in m
  }

  /** Creates the genesis accounts one by one, stopping at the first address that already exists: it
      succeeds exactly when the addresses are new and distinct, and otherwise leaves those before. */
  method CreateFromGenesis(start: Store, gs: seq<Allocation>) returns (m: Store, ok: bool)
    ensures ok <==> DistinctAllocations(gs) && NewAddresses(start, gs)
    ensures ok ==> m == start + GenesisStore(gs)
    ensures !ok ==> exists n :: 0 <= n < |gs| && m == start + GenesisStore(gs[..n])
  {
    m := start;
    assert start + GenesisStore(gs[..0]) == start;
    for i := 0 to |gs|
      invariant m == start + GenesisStore(gs[..i]) && DistinctAllocations(gs[..i]) && NewAddresses(start, gs[..i])
    {
      var g := gs[i];
      GenesisKeys(gs[..i], g.address);
      if g.address in m {
        return m, false;
      }
      assert gs[..i + 1][..i] == gs[..i];
      m := m[g.address := Acct(g.amount, 0)];
      assert m == start + GenesisStore(gs[..i + 1]);
    }
    assert gs[..|gs|] == gs;
    ok := true;
  }
}
