/** Leader schedule: validated slot ranges, looked up by binary search, repeating for ever. */
module Schedule {
  import opened Base

  datatype ScheduleEntry = ScheduleEntry(startSlot: nat, endSlot: nat, leader: string)
  {
    predicate Contains(slot: nat) { startSlot <= slot <= endSlot }
  }

  ghost predicate Sorted(es: seq<ScheduleEntry>) {
    forall i, j :: 0 <= i < j < |es| ==> es[i].startSlot <= es[j].startSlot
  }

  /** What Validate checks on sorted entries: each range starts after the one before it ends. */
  ghost predicate Chained(es: seq<ScheduleEntry>) {
    forall i :: 1 <= i < |es| ==> es[i - 1].endSlot < es[i].startSlot
  }

  ghost predicate Disjoint(es: seq<ScheduleEntry>) {
    forall i, j, slot: nat :: 0 <= i < j < |es| && es[i].Contains(slot) ==> !es[j].Contains(slot)
  }

  /** Linear scan for the entry of a slot. */
  function Scan(es: seq<ScheduleEntry>, slot: nat): (r: Option<string>)
  {
    if es == [] then None
    else if es[0].Contains(slot) then Some(es[0].leader)
    else Scan(es[1..], slot)
  }

  /** The schedule covers slots 1..maxSlot and repeats. */
  function Normalise(slot: nat, maxSlot: Pos): nat {
    if slot % maxSlot == 0 then maxSlot else slot % maxSlot
  }

  class LeaderSchedule {
    var entries: seq<ScheduleEntry>
    var maxSlot: nat

    ghost predicate Valid()
      reads this
    {
      Sorted(entries) && Chained(entries) && maxSlot > 0
    }

    constructor (entries: seq<ScheduleEntry>)
      ensures this.entries == entries && maxSlot == 0
    {
      this.entries := entries;
      maxSlot := 0;
    }

    /** Sorts the entries in place and accepts them exactly when no range starts before the previous
        one has ended. */
    method Validate() returns (ok: bool)
      modifies this`entries
      ensures Sorted(entries) && multiset(entries) == old(multiset(entries))
      ensures ok <==> Chained(entries)
    {
      if |entries| == 0 {
        return true;
      }
      entries := SortByStart(entries);
      assert |multiset(entries)| == |old(entries)|;
      for i := 1 to |entries|
        invariant forall j :: 1 <= j < i ==> entries[j - 1].endSlot < entries[j].startSlot
      {
        if entries[i].startSlot <= entries[i - 1].endSlot {
          return false;
        }
      }
      ok := true;
    }

    /** Finds the leader that a linear scan over the entries finds for the normalised slot. */
    method LeaderAt(slot: nat) returns (leader: Option<string>)
      requires Valid()
      ensures leader == Scan(entries, Normalise(slot, maxSlot))
    {
      var s := slot % maxSlot;
      if s == 0 {
        s := maxSlot;
      }
      var i, j := 0, |entries|;
      while i < j
        invariant 0 <= i <= j <= |entries|
        invariant forall n :: 0 <= n < i ==> entries[n].startSlot <= s
        invariant forall n :: j <= n < |entries| ==> entries[n].startSlot > s
      {
        var h := (i + j) / 2;
        if entries[h].startSlot > s {
          j := h;
        } else {
          i := h + 1;
        }
      }
      if i > 0 && entries[i - 1].Contains(s) {
        ScanFinds(entries, s, i - 1);
        leader := Some(entries[i - 1].leader);
      } else {
        ScanMisses(entries, s, i);
        leader := None;
      }
    }

    method IsLeaderAt(slot: nat, id: string) returns (yes: bool)
      requires Valid()
      ensures yes <==> Scan(entries, Normalise(slot, maxSlot)) == Some(id)
    {
      var leader := LeaderAt(slot);
      yes := leader == Some(id);
    }
  }

  /** Sorting and validation in one; None where the source reports overlapping entries. The source
      indexes the last entry without checking that there is one. */
  method NewLeaderSchedule(entries: seq<ScheduleEntry>) returns (ls: LeaderSchedule?)
    requires entries != []
    ensures ls != null ==>
      && fresh(ls) && multiset(ls.entries) == multiset(entries) && Sorted(ls.entries) && Chained(ls.entries)
      && ls.entries != [] && ls.maxSlot == ls.entries[|ls.entries| - 1].endSlot
    ensures ls == null ==> exists es :: Sorted(es) && multiset(es) == multiset(entries) && !Chained(es)
  {
    var s := new LeaderSchedule(entries);
    var ok := s.Validate();
    if !ok {
      ls := null;
      return;
    }
    assert |multiset(s.entries)| == |entries|;
    s.maxSlot := s.entries[|s.entries| - 1].endSlot;
    ls := s;
  }

  /** Insertion sort by start slot, standing in for the library sort. */
  method SortByStart(es: seq<ScheduleEntry>) returns (r: seq<ScheduleEntry>)
    ensures Sorted(r) && multiset(r) == multiset(es)
  {
    r := [];
    for i := 0 to |es|
      invariant Sorted(r) && multiset(r) == multiset(es[..i])
    {
      PrefixMultiset(es, i);
      r := InsertByStart(r, es[i]);
    }
    assert es[..|es|] == es;
  }

  method InsertByStart(r: seq<ScheduleEntry>, e: ScheduleEntry) returns (t: seq<ScheduleEntry>)
    requires Sorted(r)
    ensures Sorted(t) && multiset(t) == multiset(r) + multiset{e}
  {
    var j := 0;
    while j < |r| && r[j].startSlot <= e.startSlot
      invariant 0 <= j <= |r|
      invariant forall n :: 0 <= n < j ==> r[n].startSlot <= e.startSlot
    {
      j := j + 1;
    }
    t := InsertAt(r, j, e);
    InsertedSorted(r, j, e);
    InsertedMultiset(r, j, e);
  }

  function InsertAt(r: seq<ScheduleEntry>, j: nat, e: ScheduleEntry): seq<ScheduleEntry>
    requires j <= |r|
  {
    r[..j] + [e] + r[j..]
  }

  lemma InsertedSorted(r: seq<ScheduleEntry>, j: nat, e: ScheduleEntry)
    requires Sorted(r) && j <= |r|
    requires forall n :: 0 <= n < j ==> r[n].startSlot <= e.startSlot
    requires j < |r| ==> e.startSlot < r[j].startSlot
    ensures Sorted(InsertAt(r, j, e))
  {
    var t := InsertAt(r, j, e);
    forall a, b | 0 <= a < b < |t|
      ensures t[a].startSlot <= t[b].startSlot
    {
      assert t[a] == if a < j then r[a] else if a == j then e else r[a - 1];
      assert t[b] == if b < j then r[b] else if b == j then e else r[b - 1];
    }
  }

  lemma InsertedMultiset(r: seq<ScheduleEntry>, j: nat, e: ScheduleEntry)
    requires j <= |r|
    ensures multiset(InsertAt(r, j, e)) == multiset(r) + multiset{e}
  {
    assert r == r[..j] + r[j..];
  }

  lemma PrefixMultiset(es: seq<ScheduleEntry>, i: nat)
    requires i < |es|
    ensures multiset(es[..i + 1]) == multiset(es[..i]) + multiset{es[i]}
  {
    assert es[..i + 1] == es[..i] + [es[i]];
  }

  // ----- Properties -----------------------------------------------------------------------------

  lemma {:induction false} ChainedApart(es: seq<ScheduleEntry>, i: nat, j: nat)
    requires Sorted(es) && Chained(es) && i < j < |es|
    ensures es[i].endSlot < es[j].startSlot
  {
    if i + 1 < j {
      ChainedApart(es, i, j - 1);
      assert es[i + 1].startSlot <= es[j].startSlot;
    }
  }

  /** In a validated schedule no slot is in two entries. */
  lemma ChainedDisjoint(es: seq<ScheduleEntry>)
    requires Sorted(es) && Chained(es)
    ensures Disjoint(es)
  {
    forall i, j, slot: nat | 0 <= i < j < |es| && es[i].Contains(slot)
      ensures !es[j].Contains(slot)
    {
      ChainedApart(es, i, j);
    }
  }

  /** On proper ranges validation rejects nothing but overlaps. */
  lemma ValidationIsDisjointness(es: seq<ScheduleEntry>)
    requires Sorted(es)
    requires forall i :: 0 <= i < |es| ==> es[i].startSlot <= es[i].endSlot
    ensures Chained(es) <==> Disjoint(es)
  {
    if Chained(es) {
      ChainedDisjoint(es);
    } else {
      var i :| 1 <= i < |es| && es[i].startSlot <= es[i - 1].endSlot;
      var slot := es[i].startSlot;
      assert es[i - 1].startSlot <= slot;
      assert es[i - 1].Contains(slot) && es[i].Contains(slot);
      assert !Disjoint(es);
    }
  }

  lemma {:induction false} ScanFinds(es: seq<ScheduleEntry>, slot: nat, i: nat)
    requires Sorted(es) && Chained(es) && i < |es| && es[i].Contains(slot)
    ensures Scan(es, slot) == Some(es[i].leader)
  {
    if i > 0 {
      ChainedApart(es, 0, i);
      ScanFinds(es[1..], slot, i - 1);
    }
  }

  /** If entry i - 1 is the last to start by the slot and misses it, every entry misses it. */
  lemma ScanMisses(es: seq<ScheduleEntry>, slot: nat, i: nat)
    requires Sorted(es) && Chained(es) && i <= |es|
    requires forall n :: i <= n < |es| ==> es[n].startSlot > slot
    requires i > 0 ==> es[i - 1].startSlot <= slot && !es[i - 1].Contains(slot)
    ensures Scan(es, slot) == None
  {
    forall n | 0 <= n < |es|
      ensures !es[n].Contains(slot)
    {
      if n + 1 < i {
        ChainedApart(es, n, i - 1);
      }
    }
    ScanNone(es, slot);
  }

  lemma {:induction false} ScanNone(es: seq<ScheduleEntry>, slot: nat)
    requires forall n :: 0 <= n < |es| ==> !es[n].Contains(slot)
    ensures Scan(es, slot) == None
  {
    if es != [] {
      ScanNone(es[1..], slot);
    }
  }

  /** The schedule repeats with period maxSlot, and within the first period it is the plain scan. */
  lemma Periodic(es: seq<ScheduleEntry>, slot: nat, maxSlot: Pos)
    ensures Scan(es, Normalise(slot + maxSlot, maxSlot)) == Scan(es, Normalise(slot, maxSlot))
    ensures 1 <= slot <= maxSlot ==> Normalise(slot, maxSlot) == slot
  {
    var q, m := slot / maxSlot, slot % maxSlot;
    assert slot + maxSlot == (q + 1) * maxSlot + m;
    Quotient(slot + maxSlot, maxSlot, q + 1, m);
    if slot < maxSlot {
      Quotient(slot, maxSlot, 0, slot);
    } else if slot == maxSlot {
      Quotient(slot, maxSlot, 1, 0);
    }
  }
}
