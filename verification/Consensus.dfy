/** Counting votes per slot. */
module Consensus {
  import opened Base

  const VOTE_RETENTION_SLOTS := 1500

  /** A vote; `signed` is the outcome of checking its signature. */
  datatype Vote = Vote(slot: nat, blockHash: Hash, voter: string, signed: bool)

  type VoteTable = map<nat, map<string, Vote>>

  datatype Tally = Tally(votes: VoteTable, threshold: nat, maxSlot: nat)

  /** The threshold as coded. */
  function Threshold(n: nat): (q: nat)
    ensures q >= 1
  {
    var f := n / 3;
    if 2 * f > 1 then 2 * f else 1
  }

  function EmptyTally(threshold: nat): Tally { Tally(map[], threshold, 0) }

  function VotersOf(t: Tally, slot: nat): (r: set<string>) {
    if slot in t.votes then t.votes[slot].Keys else {}
  }

  datatype VoteResult = Refused | Counted(committed: bool)

  /** Any signed vote of a new voter for the slot counts, whatever block hash it names. */
  function AddVote(t: Tally, v: Vote): (r: (Tally, VoteResult))
    ensures r.1.Counted? <==> v.signed && v.voter !in VotersOf(t, v.slot)
    ensures r.1.Refused? ==> forall s: nat :: VotersOf(r.0, s) == VotersOf(t, s)
    ensures r.1.Counted? ==>
      && (forall s: nat :: VotersOf(r.0, s) == VotersOf(t, s) + if s == v.slot then {v.voter} else {})
      && (r.1.committed <==> |VotersOf(r.0, v.slot)| >= t.threshold)
    ensures r.0.threshold == t.threshold && r.0.maxSlot >= t.maxSlot
  {
    if !v.signed then (t, Refused) else
    var slotVotes := if v.slot in t.votes then t.votes[v.slot] else map[];
    if v.voter in slotVotes then (t, Refused) else
    var more := slotVotes[v.voter := v];
    assert more.Keys == slotVotes.Keys + {v.voter};
    (Tally(t.votes[v.slot := more], t.threshold, if v.slot > t.maxSlot then v.slot else t.maxSlot),
     Counted(|more| >= t.threshold))
  }

  /** Votes of slots more than `keep` below `current` are forgotten. */
  function Cleanup(t: Tally, current: nat, keep: nat): (r: Tally)
    ensures forall s: nat :: VotersOf(r, s) == if current >= keep && s < current - keep then {} else VotersOf(t, s)
    ensures r.threshold == t.threshold
  {
    if current < keep then t else t.(votes := map s | s in t.votes && s >= current - keep :: t.votes[s])
  }

  class Collector {
    var votes: VoteTable
    const threshold: nat
    var maxSlot: nat

    function View(): Tally
      reads this
    {
      Tally(votes, threshold, maxSlot)
    }

    constructor (n: nat)
      ensures View() == EmptyTally(Threshold(n))
    {
      var f := n / 3;
      votes := map[];
      threshold := if 2 * f > 1 then 2 * f else 1;
      maxSlot := 0;
    }

    method Add(v: Vote) returns (r: VoteResult)
      modifies this
      ensures (View(), r) == AddVote(old(View()), v)
    {
      if !v.signed {
        return Refused;
      }
      if v.slot !in votes {
        votes := votes[v.slot := map[]];
      }
      if v.voter in votes[v.slot] {
        return Refused;
      }
      votes := votes[v.slot := votes[v.slot][v.voter := v]];
      assert votes == old(votes)[v.slot := votes[v.slot]];
      if v.slot > maxSlot {
        maxSlot := v.slot;
      }
      r := Counted(|votes[v.slot]| >= threshold);
    }

    /** Collects the old slots and deletes them one by one. */
    method CleanupOldVotes(current: nat, keep: nat)
      modifies this`votes
      ensures View() == Cleanup(old(View()), current, keep)
    {
      if current < keep {
        return;
      }
      var limit := current - keep;
      var todo := set s | s in votes && s < limit;
      while todo != {}
        invariant todo <= votes.Keys && forall s :: s in todo ==> s < limit
        invariant forall s :: s in votes ==> s in old(votes) && votes[s] == old(votes)[s]
        invariant forall s :: s in old(votes) ==> (s in votes <==> s >= limit || s in todo)
        decreases |todo|
      {
        var s :| s in todo;
        votes := votes - {s};
        todo := todo - {s};
      }
    }
  }

  // ----- How much the threshold promises --------------------------------------------------------

  /** Any two sets of `q` of the validators share a member. */
  ghost predicate QuorumsMeet(validators: set<string>, q: nat) {
    forall a, b :: a <= validators && b <= validators && |a| >= q && |b| >= q ==> a * b != {}
  }

  lemma {:induction false} SubsetOfSize(s: set<string>, n: nat) returns (t: set<string>)
    requires n <= |s|
    ensures t <= s && |t| == n
  {
    if n == 0 {
      t := {};
    } else {
      var x :| x in s;
      var u := SubsetOfSize(s - {x}, n - 1);
      t := u + {x};
    }
  }

  lemma SubsetCardinality(a: set<string>, b: set<string>)
    requires a <= b
    ensures |a| <= |b|
  {
    assert b == a + (b - a);
  }

  /** Quorums of the coded threshold are bound to meet exactly when the number of validators leaves a
      remainder by three smaller than its third, or there is one validator: the commit rule by itself
      does not make two commits overlap for, say, four or five validators. */
  lemma ThresholdQuorums(validators: set<string>)
    ensures var n := |validators|;
      QuorumsMeet(validators, Threshold(n)) <==> n / 3 > n % 3 || n <= 1
  {
    var n, q := |validators|, Threshold(|validators|);
    if 2 * q > n {
      forall a, b | a <= validators && b <= validators && |a| >= q && |b| >= q
        ensures a * b != {}
      {
        SubsetCardinality(a + b, validators);
        assert |a + b| == |a| + |b| - |a * b|;
      }
    } else {
      var a := SubsetOfSize(validators, q);
      assert |validators - a| == n - q by {
        assert validators == a + (validators - a);
      }
      var b := SubsetOfSize(validators - a, q);
      assert a * b == {} && b <= validators;
    }
  }
}
