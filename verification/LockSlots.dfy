/** The four-slot lock table that both shields start with: linear search, append, delete by moving the last slot. */
module LockSlots {
  import opened ShieldSpec

  const MAX_LOCKS := 4

  /** LS_LockEntry. */
  datatype Slot = Slot(lockPtr: nat, recCount: nat)

  ghost predicate SlotOk(slots: seq<Slot>, i: nat, m: Counts)
    requires i < |slots|
  {
    slots[i].lockPtr in m && m[slots[i].lockPtr] == slots[i].recCount
  }

  ghost predicate HasSlot(slots: seq<Slot>, l: nat) {
    exists i :: 0 <= i < |slots| && slots[i].lockPtr == l
  }

  /** The slots hold exactly the locks of `m` with their counts, each in one slot. */
  ghost predicate Holds(slots: seq<Slot>, m: Counts) {
    && (forall i {:trigger SlotOk(slots, i, m)} | 0 <= i < |slots| :: SlotOk(slots, i, m))
    && (forall l {:trigger HasSlot(slots, l)} | l in m :: HasSlot(slots, l))
    && (forall i, j | 0 <= i < j < |slots| :: slots[i].lockPtr != slots[j].lockPtr)
  }

  /** One more acquisition of the lock in slot `i`. */
  lemma BumpHolds(slots: seq<Slot>, i: nat, m: Counts)
    requires Holds(slots, m) && i < |slots|
    ensures Holds(slots[i := slots[i].(recCount := slots[i].recCount + 1)], Increment(m, slots[i].lockPtr))
    ensures Count(m, slots[i].lockPtr) == slots[i].recCount
  {
    assert SlotOk(slots, i, m);
    var l := slots[i].lockPtr;
    UpdateHolds(slots, i, slots[i].recCount + 1, m);
  }

  lemma UpdateHolds(slots: seq<Slot>, i: nat, n: nat, m: Counts)
    requires Holds(slots, m) && i < |slots|
    ensures Holds(slots[i := slots[i].(recCount := n)], m[slots[i].lockPtr := n])
  {
    var after, r := slots[i := slots[i].(recCount := n)], m[slots[i].lockPtr := n];
    assert SlotOk(slots, i, m);
    forall j | 0 <= j < |after| ensures SlotOk(after, j, r) { assert SlotOk(slots, j, m); }
    forall l | l in r ensures HasSlot(after, l) {
      assert HasSlot(slots, l);
      var j :| 0 <= j < |slots| && slots[j].lockPtr == l;
      assert after[j].lockPtr == l;
    }
  }

  lemma AppendHolds(slots: seq<Slot>, s: Slot, m: Counts)
    requires Holds(slots, m) && s.lockPtr !in m
    ensures Holds(slots + [s], m[s.lockPtr := s.recCount])
  {
    var after, r := slots + [s], m[s.lockPtr := s.recCount];
    forall j | 0 <= j < |after| ensures SlotOk(after, j, r) && (j < |slots| ==> after[j].lockPtr != s.lockPtr) {
      if j < |slots| { assert SlotOk(slots, j, m); }
    }
    forall k | k in r ensures HasSlot(after, k) {
      if k == s.lockPtr {
        assert after[|slots|].lockPtr == k;
      } else {
        assert HasSlot(slots, k);
        var j :| 0 <= j < |slots| && slots[j].lockPtr == k;
        assert after[j].lockPtr == k;
      }
    }
  }

  /** The slots determine the counts. */
  lemma HoldsUnique(slots: seq<Slot>, m: Counts, r: Counts)
    requires Holds(slots, m) && Holds(slots, r)
    ensures m == r
  {
    SameCounts(slots, m, r);
    SameCounts(slots, r, m);
    assert m.Keys == r.Keys;
  }

  lemma SameCounts(slots: seq<Slot>, m: Counts, r: Counts)
    requires Holds(slots, m) && Holds(slots, r)
    ensures forall l | l in m :: l in r && m[l] == r[l]
  {
    forall l | l in m ensures l in r && m[l] == r[l] {
      assert HasSlot(slots, l);
      var i :| 0 <= i < |slots| && slots[i].lockPtr == l;
      assert SlotOk(slots, i, m) && SlotOk(slots, i, r);
    }
  }

  lemma NextSlotIsNew(slots: seq<Slot>, i: nat, m: Counts)
    requires i < |slots| && Holds(slots[..i], m)
    requires forall j | 0 <= j < i :: slots[j].lockPtr != slots[i].lockPtr
    ensures slots[i].lockPtr !in m
  {
    assert slots[i].lockPtr in m ==> HasSlot(slots[..i], slots[i].lockPtr);
  }

  /** The last slot moves into the deleted one; every other count stays. */
  lemma DeleteHolds(slots: seq<Slot>, i: nat, m: Counts)
    requires Holds(slots, m) && i < |slots|
    ensures Holds(slots[i := slots[|slots| - 1]][..|slots| - 1], m - {slots[i].lockPtr})
  {
    var n := |slots| - 1;
    var after, r := slots[i := slots[n]][..n], m - {slots[i].lockPtr};
    forall j | 0 <= j < n ensures SlotOk(after, j, r) {
      var k := if j == i then n else j;
      assert after[j] == slots[k] && SlotOk(slots, k, m);
      assert slots[k].lockPtr != slots[i].lockPtr;
    }
    forall l | l in r ensures HasSlot(after, l) {
      assert HasSlot(slots, l);
      var j :| 0 <= j < |slots| && slots[j].lockPtr == l;
      assert after[if j == n then i else j].lockPtr == l;
    }
  }

  lemma {:induction false} HoldsSize(slots: seq<Slot>, m: Counts)
    requires Holds(slots, m)
    ensures |m| == |slots|
  {
    if slots == [] {
      forall l | l in m ensures HasSlot(slots, l) {}
      assert m == map[];
    } else {
      var n := |slots| - 1;
      DeleteHolds(slots, n, m);
      assert slots[n := slots[n]][..n] == slots[..n];
      HoldsSize(slots[..n], m - {slots[n].lockPtr});
      assert SlotOk(slots, n, m);
      assert m.Keys == (m - {slots[n].lockPtr}).Keys + {slots[n].lockPtr};
    }
  }

  /** The loop of `lookup`: the number of the lock's slot among the first `n`, or -1. */
  method FindSlot(a: array<Slot>, n: nat, l: nat, ghost m: Counts) returns (r: int)
    requires n <= a.Length && Holds(a[..n], m)
    ensures if l in m then 0 <= r < n && a[r].lockPtr == l && a[r].recCount == m[l] else r == -1
  {
    for i := 0 to n
      invariant forall j | 0 <= j < i :: a[j].lockPtr != l
    {
      if a[i].lockPtr == l {
        assert SlotOk(a[..n], i, m);
        return i;
      }
    }
    r := -1;
    assert l in m ==> HasSlot(a[..n], l);
  }
}
