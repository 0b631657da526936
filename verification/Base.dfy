/** Values shared by every component: bytes and hashes, transactions, block entries, and the
    functions the node treats as black boxes (SHA-256, JSON, base58, Ed25519). */
module Base {

  datatype Option<+T> = None | Some(value: T)

  newtype Byte = b: int | 0 <= b < 256

  type Bytes = seq<Byte>

  /** A hash is whatever the hash function returns; nothing below depends on its length. */
  type Hash = Bytes

  /** The zero hash used as the predecessor of slot 1. */
  const ZERO_HASH: Hash := [0, 0, 0, 0, 0, 0, 0, 0, 0, 0, 0, 0, 0, 0, 0, 0,
                           0, 0, 0, 0, 0, 0, 0, 0, 0, 0, 0, 0, 0, 0, 0, 0]

  type Pos = n: nat | n > 0 witness 1

  const TWO_64: nat := 0x1_0000_0000_0000_0000

  const TWO_256: nat := 0x1_0000000000000000_0000000000000000_0000000000000000_0000000000000000

  /** A 256-bit unsigned amount or balance. */
  type U256 = n: nat | n < TWO_256

  /** Result of a 256-bit operation whose exact value is x. */
  function Wrap256(x: int): (r: U256)
    ensures 0 <= x < TWO_256 ==> r == x
    ensures x < 0 <= x + TWO_256 ==> r == x + TWO_256
    ensures TWO_256 <= x < 2 * TWO_256 ==> r == x - TWO_256
  {
    x % TWO_256
  }

  /** Result of a 64-bit operation whose exact value is x. */
  function Wrap64(x: int): (r: nat)
    ensures r < TWO_64 && (0 <= x < TWO_64 ==> r == x)
  {
    x % TWO_64
  }

  const TX_TRANSFER_BY_ZK := 0
  const TX_TRANSFER_BY_KEY := 1
  const TX_USER_CONTENT := 2

  /** A transaction; `amount` is absent where the source holds nil. */
  datatype Transaction = Transaction(
    kind: int,
    sender: string,
    recipient: string,
    amount: Option<U256>,
    timestamp: nat,
    textData: string,
    nonce: nat,
    signature: string,
    extraInfo: string)
  {
    predicate IsContent() { kind == TX_USER_CONTENT }

    function Value(): U256 {
      match amount
      case Some(v) => v
      case None => 0
    }
  }

  /** Parsed body of a user-content transaction. */
  datatype UserContent = UserContent(
    kind: string,
    title: string,
    description: string,
    parentHash: string,
    rootHash: string,
    references: seq<string>)

  /** The black boxes. Every theorem quantifies over all of them; a theorem that needs a hash to be
      collision-free says so. */
  datatype Codec = Codec(
    sha: Bytes -> Hash,                          // SHA-256
    txBytes: Transaction -> Bytes,               // JSON bytes of a transaction
    txHash: Transaction -> string,               // hex hash of those bytes
    dedupHash: Transaction -> string,            // hash of the signed fields only
    parse: string -> Option<UserContent>,        // JSON of the extra-info field
    blank: string -> bool,                       // nothing but white space
    addressOk: (string, string) -> bool)         // recipient check for a content type

  /** No two different transactions share a transaction hash. */
  ghost predicate CollisionFree(k: Codec)
  {
    forall a: Transaction, b: Transaction :: k.txHash(a) == k.txHash(b) ==> a == b
  }

  /** Every transaction is kept under its own hash. */
  ghost predicate Keyed(k: Codec, m: map<string, Transaction>) {
    forall h :: h in m ==> k.txHash(m[h]) == h
  }

  ghost predicate NoDuplicates<T>(s: seq<T>) {
    forall i, j :: 0 <= i < j < |s| ==> s[i] != s[j]
  }

  /** An entry of a block: NumHashes hashes, the last of them mixing in the transactions if any. */
  datatype Entry = Entry(numHashes: nat, hash: Hash, txs: seq<Transaction>, tick: bool)

  function TickEntry(numHashes: nat, hash: Hash): Entry { Entry(numHashes, hash, [], true) }

  function TxEntry(numHashes: nat, hash: Hash, txs: seq<Transaction>): Entry { Entry(numHashes, hash, txs, false) }

  /** Hash at which a chain of entries that starts after `prev` ends. */
  function LastHash(prev: Hash, es: seq<Entry>): Hash {
    if es == [] then prev else es[|es| - 1].hash
  }

  /** All transactions of a list of entries, in order. */
  function Transactions(es: seq<Entry>): seq<Transaction> {
    if es == [] then [] else es[0].txs + Transactions(es[1..])
  }

  lemma {:induction false} TransactionsConcat(a: seq<Entry>, b: seq<Entry>)
    ensures Transactions(a + b) == Transactions(a) + Transactions(b)
  {
    if a == [] {
      assert a + b == b;
    } else {
      assert (a + b)[1..] == a[1..] + b;
      TransactionsConcat(a[1..], b);
    }
  }

  // Quotients.

  lemma Quotient(h: nat, t: Pos, q: nat, m: nat)
    requires h == q * t + m && m < t
    ensures h / t == q && h % t == m
  {
    var d := h / t;
    if d > q {
      MulMonotone(q + 1, d, t);
    } else if d < q {
      MulMonotone(d + 1, q, t);
    }
  }

  lemma MulMonotone(a: nat, b: nat, t: nat)
    requires a <= b
    ensures a * t <= b * t
  {
    assert b * t == a * t + (b - a) * t;
  }

  lemma WrapShift(x: int, q: int)
    ensures Wrap64(x + q * TWO_64) == Wrap64(x)
  {
    var r := x % TWO_64;
    assert x + q * TWO_64 == (x / TWO_64 + q) * TWO_64 + r;
    QuotientOf(x + q * TWO_64, x / TWO_64 + q, r);
  }

  lemma QuotientOf(x: int, q: int, r: nat)
    requires x == q * TWO_64 + r && r < TWO_64
    ensures x % TWO_64 == r
  {
  }

  /** Wrapping the operands of a difference and product first does not change the wrapped result. */
  lemma WrapOperands(a: int, b: int, c: int)
    ensures Wrap64((Wrap64(a) - Wrap64(b)) * c) == Wrap64((a - b) * c)
  {
    var q := (b / TWO_64 - a / TWO_64) * c;
    assert a == a / TWO_64 * TWO_64 + Wrap64(a) && b == b / TWO_64 * TWO_64 + Wrap64(b);
    assert (Wrap64(a) - Wrap64(b)) * c == (a - b) * c + q * TWO_64;
    WrapShift((a - b) * c, q);
  }
}
