/** User content: each version names its predecessor, and the ledger accepts it only if that
    predecessor is still the newest version of its root. */
module Content {
  import opened Base
  import opened Overlay

  const MAX_REFERENCES := 10

  type Latest = map<string, string>

  /** Checks of a content body that do not depend on versions. */
  predicate BodyOk(k: Codec, tx: Transaction, c: UserContent, related: map<string, Transaction>) {
    && !k.blank(c.kind) && !k.blank(c.title) && !k.blank(c.description)
    && k.addressOk(c.kind, tx.recipient)
    && |c.references| <= MAX_REFERENCES
    && (forall i :: 0 <= i < |c.references| ==> c.references[i] in related)
  }

  predicate IsRoot(c: UserContent) { c.parentHash == "" && c.rootHash == "" }

  /** The stored predecessor is content of the same author to the same recipient. */
  predicate ParentOk(tx: Transaction, c: UserContent, related: map<string, Transaction>) {
    && c.parentHash in related
    && related[c.parentHash].IsContent()
    && related[c.parentHash].sender == tx.sender
    && related[c.parentHash].recipient == tx.recipient
  }

  /** Compare-and-swap of the newest version; `related` holds the stored transactions it may need. */
  function Validate(k: Codec, tx: Transaction, related: map<string, Transaction>, latest: Latest): (r: (Latest, bool))
  {
    match k.parse(tx.extraInfo)
    case None => (latest, false)
    case Some(c) =>
      if !BodyOk(k, tx, c, related) then (latest, false)
      else if IsRoot(c) then (latest[k.txHash(tx) := k.txHash(tx)], true)
      else if c.parentHash == "" || c.rootHash == "" then (latest, false)
      else if !ParentOk(tx, c, related) then (latest, false)
      else if c.rootHash !in latest || latest[c.rootHash] != c.parentHash then (latest, false)
      else (latest[c.rootHash := k.txHash(tx)], true)
  }

  /** Newest versions after a list of contents, and those that were accepted, in order. */
  function ValidateAll(k: Codec, txs: seq<Transaction>, related: map<string, Transaction>,
      latest: Latest): (r: (Latest, seq<Transaction>)) {
    if txs == [] then (latest, []) else
    var (l, done) := ValidateAll(k, txs[..|txs| - 1], related, latest);
    var tx := txs[|txs| - 1];
    var (l', ok) := Validate(k, tx, related, l);
    (l', if ok then done + [tx] else done)
  }

  /** The validation of one content as the source writes it: a sequence of early exits. */
  method ValidateUserContent(k: Codec, tx: Transaction, related: map<string, Transaction>, latest: Latest)
    returns (latest': Latest, ok: bool)
    ensures (latest', ok) == Validate(k, tx, related, latest)
  {
    latest', ok := latest, false;
    if k.parse(tx.extraInfo).None? {
      return;  // the required fields are missing
    }
    var c := k.parse(tx.extraInfo).value;
    if k.blank(c.kind) || k.blank(c.title) || k.blank(c.description) {
      return;
    }
    if !k.addressOk(c.kind, tx.recipient) {
      return;
    }
    if |c.references| > MAX_REFERENCES {
      return;
    }
    for i := 0 to |c.references|
      invariant forall j :: 0 <= j < i ==> c.references[j] in related
    {
      if c.references[i] !in related {
        return;
      }
    }
    var h := k.txHash(tx);
    if c.parentHash == "" && c.rootHash == "" {
      latest', ok := latest[h := h], true;
      return;
    }
    if c.parentHash == "" || c.rootHash == "" {
      return;
    }
    if c.parentHash !in related {
      return;
    }
    var parent := related[c.parentHash];
    if !parent.IsContent() || parent.sender != tx.sender || parent.recipient != tx.recipient {
      return;
    }
    if c.rootHash !in latest {
      return;
    }
    if latest[c.rootHash] != c.parentHash {
      return;
    }
    latest', ok := latest[c.rootHash := h], true;
  }

  // ----- A block reads only the roots and transactions it names ---------------------------------

  /** Everything tx looks up is among the names. */
  ghost predicate Names(k: Codec, tx: Transaction, hashes: set<string>, roots: set<string>) {
    k.parse(tx.extraInfo).Some? ==>
      var c := k.parse(tx.extraInfo).value;
      && (c.parentHash == "" || c.parentHash in hashes)
      && (c.rootHash == "" || c.rootHash in roots)
      && (forall i :: 0 <= i < |c.references| ==> c.references[i] in hashes)
  }

  lemma RestrictedValidate(k: Codec, tx: Transaction, stored: map<string, Transaction>, hashes: set<string>,
      roots: set<string>, m: Latest, part: Latest, whole: Latest)
    requires Names(k, tx, hashes, roots) && Overlays(m, part, whole, roots)
    ensures var (p, w) := (Validate(k, tx, Restrict(stored, hashes), part), Validate(k, tx, stored, whole));
      p.1 == w.1 && Overlays(m, p.0, w.0, roots)
  {
    var related := Restrict(stored, hashes);
    if k.parse(tx.extraInfo).Some? {
      var c := k.parse(tx.extraInfo).value;
      assert BodyOk(k, tx, c, related) <==> BodyOk(k, tx, c, stored);
      assert c.parentHash != "" ==> (ParentOk(tx, c, related) <==> ParentOk(tx, c, stored));
      var h := k.txHash(tx);
      OverlayPut(m, part, whole, roots, h, h);
      OverlayPut(m, part, whole, roots, c.rootHash, h);
    }
  }

  /** Validating the contents of a block against the transactions and roots they name, and writing the
      result back, is validating them one at a time against the whole store. */
  lemma {:induction false} ContentOverlay(k: Codec, txs: seq<Transaction>, stored: map<string, Transaction>,
      hashes: set<string>, roots: set<string>, latest: Latest)
    requires forall i :: 0 <= i < |txs| ==> Names(k, txs[i], hashes, roots)
    ensures var (p, w) :=
      (ValidateAll(k, txs, Restrict(stored, hashes), Restrict(latest, roots)), ValidateAll(k, txs, stored, latest));
      p.1 == w.1 && Overlays(latest, p.0, w.0, roots)
  {
    if txs == [] {
      OverlayStart(latest, roots);
    } else {
      var front := txs[..|txs| - 1];
      ContentOverlay(k, front, stored, hashes, roots, latest);
      RestrictedValidate(k, txs[|txs| - 1], stored, hashes, roots, latest,
        ValidateAll(k, front, Restrict(stored, hashes), Restrict(latest, roots)).0,
        ValidateAll(k, front, stored, latest).0);
    }
  }

  // ----- Version chains -------------------------------------------------------------------------

  /** The root an accepted content belongs to. */
  function RootOf(k: Codec, tx: Transaction): string {
    match k.parse(tx.extraInfo)
    case None => ""
    case Some(c) => if IsRoot(c) then k.txHash(tx) else c.rootHash
  }

  function ParentOf(k: Codec, tx: Transaction): string {
    match k.parse(tx.extraInfo)
    case None => ""
    case Some(c) => c.parentHash
  }

  /** Versions of a root among the accepted contents, oldest first. */
  function Chain(k: Codec, log: seq<Transaction>, root: string): seq<Transaction> {
    if log == [] then [] else
    var tx := log[|log| - 1];
    Chain(k, log[..|log| - 1], root) + if RootOf(k, tx) == root then [tx] else []
  }

  /** The versions form one unbroken line from the root to the newest hash: the first is the root
      itself, each later one names the one before it as its parent, and all share sender and
      recipient. */
  ghost predicate LineOk(k: Codec, line: seq<Transaction>, root: string, newest: string) {
    && line != []
    && k.txHash(line[0]) == root && ParentOf(k, line[0]) == ""
    && k.txHash(line[|line| - 1]) == newest
    && (forall i :: 0 < i < |line| ==> Succeeds(k, line[i - 1], line[i]))
  }

  predicate Succeeds(k: Codec, a: Transaction, b: Transaction) {
    ParentOf(k, b) == k.txHash(a) && b.sender == a.sender && b.recipient == a.recipient
  }

  /** The recorded newest versions are exactly the ends of the lines of the accepted contents. */
  ghost predicate ChainsOk(k: Codec, log: seq<Transaction>, latest: Latest) {
    && (forall r :: r in latest ==> LineOk(k, Chain(k, log, r), r, latest[r]))
    && (forall i :: 0 <= i < |log| ==> RootOf(k, log[i]) in latest)
  }

  ghost predicate Fresh(k: Codec, tx: Transaction, log: seq<Transaction>) {
    forall i :: 0 <= i < |log| ==> k.txHash(log[i]) != k.txHash(tx)
  }

  lemma {:induction false} ChainWithin(k: Codec, log: seq<Transaction>, root: string)
    ensures forall i :: 0 <= i < |Chain(k, log, root)| ==> Chain(k, log, root)[i] in log
    ensures (forall i :: 0 <= i < |log| ==> RootOf(k, log[i]) != root) ==> Chain(k, log, root) == []
  {
    if log != [] {
      ChainWithin(k, log[..|log| - 1], root);
    }
  }

  lemma ChainAppend(k: Codec, log: seq<Transaction>, tx: Transaction, root: string)
    ensures Chain(k, log + [tx], root)
            == if RootOf(k, tx) == root then Chain(k, log, root) + [tx] else Chain(k, log, root)
  {
    assert (log + [tx])[..|log|] == log;
  }

  /** A new root opens a line of its own. */
  lemma RootOpensLine(k: Codec, tx: Transaction, log: seq<Transaction>, latest: Latest)
    requires ChainsOk(k, log, latest) && Fresh(k, tx, log)
    ensures k.txHash(tx) !in latest && Chain(k, log, k.txHash(tx)) == []
  {
    ChainWithin(k, log, k.txHash(tx));
  }

  /** A line accepts a successor of its newest version. */
  lemma LineExtends(k: Codec, line: seq<Transaction>, root: string, newest: string, tx: Transaction)
    requires LineOk(k, line, root, newest) && Succeeds(k, line[|line| - 1], tx)
    ensures LineOk(k, line + [tx], root, k.txHash(tx))
  {
    var l := line + [tx];
    forall i | 0 < i < |l|
      ensures Succeeds(k, l[i - 1], l[i])
    {
      if i < |line| {
        assert Succeeds(k, line[i - 1], line[i]);
      }
    }
  }

  lemma NewLine(k: Codec, tx: Transaction, stored: map<string, Transaction>, log: seq<Transaction>, latest: Latest)
    requires CollisionFree(k) && Keyed(k, stored)
    requires ChainsOk(k, log, latest) && Fresh(k, tx, log)
    requires Validate(k, tx, stored, latest).1
    ensures var root := RootOf(k, tx);
      && Validate(k, tx, stored, latest).0 == latest[root := k.txHash(tx)]
      && LineOk(k, Chain(k, log, root) + [tx], root, k.txHash(tx))
  {
    var root := RootOf(k, tx);
    var line := Chain(k, log, root);
    if IsRoot(k.parse(tx.extraInfo).value) {
      RootOpensLine(k, tx, log, latest);
      assert line + [tx] == [tx];
    } else {
      assert LineOk(k, line, root, latest[root]);
      var parent := stored[ParentOf(k, tx)];
      assert k.txHash(line[|line| - 1]) == k.txHash(parent);
      LineExtends(k, line, root, latest[root], tx);
    }
  }

  /** Accepting one more content extends exactly its own line, by one version at its end. */
  lemma AcceptExtends(k: Codec, tx: Transaction, stored: map<string, Transaction>, log: seq<Transaction>,
      latest: Latest)
    requires CollisionFree(k) && Keyed(k, stored)
    requires ChainsOk(k, log, latest) && Fresh(k, tx, log)
    requires Validate(k, tx, stored, latest).1
    ensures ChainsOk(k, log + [tx], Validate(k, tx, stored, latest).0)
  {
    NewLine(k, tx, stored, log, latest);
    var latest' := Validate(k, tx, stored, latest).0;
    forall r | r in latest'
      ensures LineOk(k, Chain(k, log + [tx], r), r, latest'[r])
    {
      ChainAppend(k, log, tx, r);
    }
  }

  /** No hash occurs twice among the contents `txs`, and none among those accepted so far. */
  ghost predicate AllFresh(k: Codec, txs: seq<Transaction>, log: seq<Transaction>) {
    && (forall i, j :: 0 <= i < j < |txs| ==> k.txHash(txs[i]) != k.txHash(txs[j]))
    && (forall i :: 0 <= i < |txs| ==> Fresh(k, txs[i], log))
  }

  lemma FreshAfter(k: Codec, tx: Transaction, done: seq<Transaction>, log: seq<Transaction>)
    requires AllFresh(k, done + [tx], log)
    ensures Fresh(k, tx, log + done)
  {
    var txs := done + [tx];
    assert txs[|done|] == tx;
    forall i | 0 <= i < |log + done|
      ensures k.txHash((log + done)[i]) != k.txHash(tx)
    {
      if i >= |log| {
        assert txs[i - |log|] == done[i - |log|];
      }
    }
  }

  lemma {:induction false} AcceptedAmong(k: Codec, txs: seq<Transaction>, related: map<string, Transaction>,
      latest: Latest)
    ensures forall tx :: tx in ValidateAll(k, txs, related, latest).1 ==> tx in txs
  {
    if txs != [] {
      AcceptedAmong(k, txs[..|txs| - 1], related, latest);
    }
  }

  lemma AllFreshFront(k: Codec, front: seq<Transaction>, tx: Transaction, log: seq<Transaction>)
    requires AllFresh(k, front + [tx], log)
    ensures AllFresh(k, front, log)
  {
    var txs := front + [tx];
    assert forall i :: 0 <= i < |front| ==> txs[i] == front[i];
  }

  /** The chains stay unforked over any list of contents, several versions of one root included, as long
      as no content is accepted twice. */
  lemma {:induction false} ChainsKept(k: Codec, txs: seq<Transaction>, stored: map<string, Transaction>,
      log: seq<Transaction>, latest: Latest)
    requires CollisionFree(k) && Keyed(k, stored)
    requires ChainsOk(k, log, latest) && AllFresh(k, ValidateAll(k, txs, stored, latest).1, log)
    ensures ChainsOk(k, log + ValidateAll(k, txs, stored, latest).1, ValidateAll(k, txs, stored, latest).0)
  {
    if txs == [] {
      assert log + [] == log;
    } else {
      var front, tx := txs[..|txs| - 1], txs[|txs| - 1];
      assert txs == front + [tx];
      var (l, done) := ValidateAll(k, front, stored, latest);
      if Validate(k, tx, stored, l).1 {
        AllFreshFront(k, done, tx, log);
      }
      ChainsKept(k, front, stored, log, latest);
      ChainsKeptBy(k, front, tx, stored, log, latest);
    }
  }

  lemma ChainsKeptBy(k: Codec, front: seq<Transaction>, tx: Transaction, stored: map<string, Transaction>,
      log: seq<Transaction>, latest: Latest)
    requires CollisionFree(k) && Keyed(k, stored)
    requires AllFresh(k, ValidateAll(k, front + [tx], stored, latest).1, log)
    requires ChainsOk(k, log + ValidateAll(k, front, stored, latest).1, ValidateAll(k, front, stored, latest).0)
    ensures ChainsOk(k, log + ValidateAll(k, front + [tx], stored, latest).1,
      ValidateAll(k, front + [tx], stored, latest).0)
  {
    var (l, done) := ValidateAll(k, front, stored, latest);
    var after := ValidateAll(k, front + [tx], stored, latest);
    assert after == (Validate(k, tx, stored, l).0, if Validate(k, tx, stored, l).1 then done + [tx] else done) by {
      assert (front + [tx])[..|front|] == front;
    }
    if Validate(k, tx, stored, l).1 {
      FreshAfter(k, tx, done, log);
      AcceptExtends(k, tx, stored, log + done, l);
      assert log + after.1 == (log + done) + [tx];
    } else {
      assert after == (l, done);
    }
  }

  // ----- Walking back ---------------------------------------------------------------------------

  /** The hash reached from `h` by following `n` parent links through the stored transactions. */
  function WalkBack(k: Codec, stored: map<string, Transaction>, h: string, n: nat): string
    decreases n
  {
    if n == 0 || h !in stored then h else WalkBack(k, stored, ParentOf(k, stored[h]), n - 1)
  }

  /** Following parents from the newest version ends at the root after as many steps as there are
      later versions. */
  lemma WalkEndsAtRoot(k: Codec, stored: map<string, Transaction>, line: seq<Transaction>, root: string, newest: string)
    requires CollisionFree(k) && Keyed(k, stored)
    requires LineOk(k, line, root, newest)
    requires forall i :: 0 <= i < |line| ==> k.txHash(line[i]) in stored
    ensures WalkBack(k, stored, newest, |line| - 1) == root
  {
    WalkFrom(k, stored, line, root, newest, |line| - 1);
  }

  lemma {:induction false} WalkFrom(k: Codec, stored: map<string, Transaction>, line: seq<Transaction>, root: string,
      newest: string, i: nat)
    requires CollisionFree(k) && Keyed(k, stored)
    requires LineOk(k, line, root, newest) && i < |line|
    requires forall i :: 0 <= i < |line| ==> k.txHash(line[i]) in stored
    ensures WalkBack(k, stored, k.txHash(line[i]), i) == root
  {
    if i > 0 {
      assert stored[k.txHash(line[i])] == line[i];
      assert Succeeds(k, line[i - 1], line[i]);
      WalkFrom(k, stored, line, root, newest, i - 1);
    }
  }
}
