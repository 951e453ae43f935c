/** The array shield, src/shielding_array.cpp and inc/shielding_array.h. */
module ShieldArray {
  import opened ShieldSpec
  import opened ShieldDepth
  import opened LockSlots

  /** The acquisition of a fifth lock, which the table has no slot for. */
  predicate Overflows(m: Counts, op: Op) {
    op.Acquire? && op.l !in m && |m| == MAX_LOCKS
  }

  /** The table after an operation: what does not fit is not recorded. */
  function ArrayAfter(m: Counts, op: Op): Counts {
    if Overflows(m, op) then m else After(m, op)
  }

  /** The table and the statuses of a whole sequence of operations of one thread. */
  function ArrayRun(ops: seq<Op>): Counts {
    if ops == [] then map[] else ArrayAfter(ArrayRun(ops[..|ops| - 1]), ops[|ops| - 1])
  }

  function ArrayStatuses(ops: seq<Op>): (sts: seq<Status>)
    ensures |sts| == |ops|
  {
    if ops == [] then []
    else ArrayStatuses(ops[..|ops| - 1]) + [StatusOf(ArrayRun(ops[..|ops| - 1]), ops[|ops| - 1])]
  }

  ghost predicate Fits(ops: seq<Op>) {
    forall k | 0 <= k < |ops| :: !Overflows(Run(ops[..k]), ops[k])
  }

  lemma FitsPrefix(ops: seq<Op>, k: nat)
    requires Fits(ops) && k <= |ops|
    ensures Fits(ops[..k])
  {
    forall i | 0 <= i < k ensures !Overflows(Run(ops[..k][..i]), ops[..k][i]) {
      assert ops[..k][..i] == ops[..i];
    }
  }

  /** While a thread never holds a fifth lock, the array table is as good as the unbounded one. */
  lemma {:induction false} FittingRunsAgree(ops: seq<Op>)
    requires Fits(ops)
    ensures ArrayRun(ops) == Run(ops) && ArrayStatuses(ops) == Statuses(ops)
  {
    if ops != [] {
      var n := |ops| - 1;
      FitsPrefix(ops, n);
      FittingRunsAgree(ops[..n]);
      assert !Overflows(Run(ops[..n]), ops[n]);
    }
  }

  ghost predicate TablesAgree(ops: seq<Op>) {
    forall k | 0 <= k <= |ops| :: ArrayRun(ops[..k]) == Run(ops[..k])
  }

  /** And that is the exact condition: the first fifth lock is lost. */
  lemma TablesAgreeIffFits(ops: seq<Op>)
    ensures TablesAgree(ops) <==> Fits(ops)
  {
    if Fits(ops) {
      forall k | 0 <= k <= |ops| ensures ArrayRun(ops[..k]) == Run(ops[..k]) {
        FitsPrefix(ops, k);
        FittingRunsAgree(ops[..k]);
      }
    } else {
      var k :| 0 <= k < |ops| && Overflows(Run(ops[..k]), ops[k]);
      var upTo := ops[..k + 1];
      assert upTo[..k] == ops[..k];
      if ArrayRun(ops[..k]) == Run(ops[..k]) {
        assert ops[k].l in Run(upTo) && ops[k].l !in ArrayRun(upTo);
      }
    }
  }

  /** The status at position `j` depends on what came before. */
  lemma {:induction false} StatusAt(ops: seq<Op>, j: nat)
    requires j < |ops|
    ensures ArrayStatuses(ops)[j] == StatusOf(ArrayRun(ops[..j]), ops[j])
  {
    if j + 1 < |ops| {
      var before := ops[..|ops| - 1];
      StatusAt(before, j);
      assert before[..j] == ops[..j];
    }
  }

  lemma StatusBefore(ops: seq<Op>, more: seq<Op>)
    requires more != []
    ensures ArrayStatuses(ops + more)[|ops|] == StatusOf(ArrayRun(ops), more[0])
  {
    StatusAt(ops + more, |ops|);
    assert (ops + more)[..|ops|] == ops;
  }

  lemma LastOp(ops: seq<Op>, op: Op)
    ensures ArrayRun(ops + [op]) == ArrayAfter(ArrayRun(ops), op)
  {
    assert (ops + [op])[..|ops|] == ops;
  }

  lemma Regroup<T>(a: seq<T>, b: seq<T>, c: seq<T>)
    ensures a + (b + c) == a + b + c
  {
  }

  lemma TakeMore<T>(a: seq<T>, b: seq<T>, i: nat)
    requires i < |b|
    ensures (a + b)[..|a| + i] == a + b[..i] && (a + b)[|a| + i] == b[i]
  {
  }

  /** An operation that is no acquisition of `l` does not bring it into the table. */
  lemma {:induction false} StaysUnknown(ops: seq<Op>, l: nat, more: seq<Op>)
    requires l !in ArrayRun(ops)
    requires forall i | 0 <= i < |more| :: more[i].l == l ==> more[i].Release?
    ensures l !in ArrayRun(ops + more)
  {
    if more == [] {
      assert ops + more == ops;
    } else {
      var before := more[..|more| - 1];
      StaysUnknown(ops, l, before);
      assert (ops + more)[..|ops + more| - 1] == ops + before;
    }
  }

  lemma {:induction false} UnknownIsRefused(ops: seq<Op>, l: nat, more: seq<Op>, i: nat)
    requires l !in ArrayRun(ops) && i < |more| && more[i].l == l
    requires forall j | 0 <= j < |more| :: more[j].l == l ==> more[j].Release?
    ensures ArrayStatuses(ops + more)[|ops| + i] == UnbalancedUnlock
  {
    StaysUnknown(ops, l, more[..i]);
    StatusAt(ops + more, |ops| + i);
    TakeMore(ops, more, i);
  }

  /**
   * A thread that acquires a fifth lock gets it, but until it acquires it again, whatever else it does, the
   * table does not know the lock, and every release of it is refused as unbalanced.
   */
  lemma {:induction false} FifthLockIsStuck(ops: seq<Op>, l: nat, reentrant: bool, more: seq<Op>)
    requires Overflows(ArrayRun(ops), Acquire(l, reentrant))
    requires forall i | 0 <= i < |more| :: more[i].l == l ==> more[i].Release?
    ensures var got := ops + [Acquire(l, reentrant)];
            && ArrayStatuses(got + more)[|ops|] == AcquireNow && l !in ArrayRun(got + more)
            && forall i | 0 <= i < |more| && more[i].l == l ::
                 ArrayStatuses(got + more)[|got| + i] == UnbalancedUnlock
  {
    var got := ops + [Acquire(l, reentrant)];
    LastOp(ops, Acquire(l, reentrant));
    StaysUnknown(got, l, more);
    StatusBefore(ops, [Acquire(l, reentrant)] + more);
    Regroup(ops, [Acquire(l, reentrant)], more);
    forall i | 0 <= i < |more| && more[i].l == l
      ensures ArrayStatuses(got + more)[|got| + i] == UnbalancedUnlock
    {
      UnknownIsRefused(got, l, more, i);
    }
  }

  /** The four recorded locks are not affected by it. */
  lemma FourStayRecorded(ops: seq<Op>, l: nat, reentrant: bool)
    requires |ArrayRun(ops)| == 4 && l !in ArrayRun(ops)
    ensures ArrayRun(ops + [Acquire(l, reentrant)]) == ArrayRun(ops)
  {
    LastOp(ops, Acquire(l, reentrant));
  }

  /** A thread that uses only four locks never gets there. */
  lemma {:induction false} FourLocksFit(ops: seq<Op>, ls: set<nat>)
    requires |ls| <= 4 && forall i | 0 <= i < |ops| :: ops[i].l in ls
    ensures Fits(ops)
  {
    forall k | 0 <= k < |ops| ensures !Overflows(Run(ops[..k]), ops[k]) {
      OnlyUsedLocks(ops[..k], ls);
      var m := Run(ops[..k]);
      if ops[k].l !in m {
        Smaller(m.Keys + {ops[k].l}, ls);
      }
    }
  }

  lemma {:induction false} OnlyUsedLocks(ops: seq<Op>, ls: set<nat>)
    requires forall i | 0 <= i < |ops| :: ops[i].l in ls
    ensures Run(ops).Keys <= ls
  {
    if ops != [] { OnlyUsedLocks(ops[..|ops| - 1], ls); }
  }

  lemma {:induction false} Smaller(a: set<nat>, b: set<nat>)
    requires a <= b
    ensures |a| <= |b|
  {
    if x :| x in a { Smaller(a - {x}, b - {x}); }
  }

  /** The simplest such thread. */
  lemma FiveLocksOverflow()
    ensures var ops := [Acquire(1, true), Acquire(2, true), Acquire(3, true), Acquire(4, true)];
            Overflows(ArrayRun(ops), Acquire(5, true))
  {
    var one: seq<Op> := [] + [Acquire(1, true)];
    var two := one + [Acquire(2, true)];
    var three := two + [Acquire(3, true)];
    LastOp([], Acquire(1, true));
    LastOp(one, Acquire(2, true));
    LastOp(two, Acquire(3, true));
    LastOp(three, Acquire(4, true));
    assert three + [Acquire(4, true)] == [Acquire(1, true), Acquire(2, true), Acquire(3, true), Acquire(4, true)];
    assert ArrayRun(three + [Acquire(4, true)]).Keys == {1, 2, 3, 4};
  }

  /** The thread-local state. `lock_fn` and `unlock_fn` are logged in `calls`. */
  class ArrayShield {
    const lockTable: array<Slot>
    var lockCount: nat
    var calls: seq<Call>
    ghost var counts: Counts

    ghost predicate Valid()
      reads this, lockTable
    {
      && lockTable.Length == MAX_LOCKS && lockCount <= MAX_LOCKS
      && Holds(lockTable[..lockCount], counts) && Positive(counts)
    }

    constructor ()
      ensures Valid() && counts == map[] && calls == [] && fresh(lockTable)
    {
      lockTable := new Slot[MAX_LOCKS](_ => Slot(0, 0));
      lockCount, calls, counts := 0, [], map[];
    }

    /** `lookup`: the number of the lock's slot, or -1 for null. */
    method Lookup(l: nat) returns (r: int)
      requires Valid()
      ensures if l in counts then 0 <= r < lockCount && lockTable[r] == Slot(l, counts[l]) else r == -1
    {
      if lockCount <= MAX_LOCKS {
        r := FindSlot(lockTable, lockCount, l, counts);
      } else {
        r := -1;
      }
    }

    /** `IncrementRef`, `entry` being null or the lock's slot. */
    method IncrementRef(l: nat, entry: int)
      requires Valid() && (entry == -1 || (0 <= entry < lockCount && lockTable[entry].lockPtr == l))
      modifies this`lockCount, this`counts, lockTable
      ensures Valid()
      ensures counts == if l !in old(counts) && old(|counts|) == 4 then old(counts)
          else Increment(old(counts), l)
    {
      HoldsSize(lockTable[..lockCount], counts);
      var found := entry;
      if entry == -1 {
        found := Lookup(l);
      }
      ghost var slots := lockTable[..lockCount];
      if found == -1 {
        if lockCount < MAX_LOCKS {
          AppendHolds(slots, Slot(l, 1), counts);
          lockTable[lockCount] := Slot(l, 1);
          lockCount := lockCount + 1;
          counts := Increment(counts, l);
          assert lockTable[..lockCount] == slots + [Slot(l, 1)];
        }
      } else {
        BumpHolds(slots, found, counts);
        assert SlotOk(slots, found, counts);
        lockTable[found] := lockTable[found].(recCount := lockTable[found].recCount + 1);
        counts := Increment(counts, l);
        assert lockTable[..lockCount] == slots[found := slots[found].(recCount := slots[found].recCount + 1)];
      }
    }

    /** `DecrementRef`: the count that is left, or -1 for a lock that is not held. */
    method DecrementRef(l: nat, entry: int) returns (left: int)
      requires Valid() && (entry == -1 || (0 <= entry < lockCount && lockTable[entry].lockPtr == l))
      modifies this`lockCount, this`counts, lockTable
      ensures Valid() && counts == Decrement(old(counts), l)
      ensures left == if l in old(counts) then old(counts)[l] - 1 else -1
    {
      var found := entry;
      if entry == -1 {
        found := Lookup(l);
      }
      if found == -1 {
        assert counts - {l} == counts;
        return -1;
      }
      ghost var slots := lockTable[..lockCount];
      assert SlotOk(slots, found, counts);
      if lockTable[found].recCount > 1 {
        UpdateHolds(slots, found, slots[found].recCount - 1, counts);
        lockTable[found] := lockTable[found].(recCount := lockTable[found].recCount - 1);
        counts := Decrement(counts, l);
        assert lockTable[..lockCount] == slots[found := slots[found].(recCount := slots[found].recCount - 1)];
        left := lockTable[found].recCount;
      } else {
        DeleteHolds(slots, found, counts);
        lockCount := lockCount - 1;
        lockTable[found] := lockTable[lockCount];
        counts := Decrement(counts, l);
        assert lockTable[..lockCount] == slots[found := slots[|slots| - 1]][..|slots| - 1];
        left := 0;
      }
    }

    /** LS_ACQUIRE. After UnbalancedLock the program aborts. */
    method Acquire(l: nat, reentrant: bool) returns (st: Status)
      requires Valid()
      modifies this, lockTable
      ensures Valid() && counts == ArrayAfter(old(counts), Op.Acquire(l, reentrant))
      ensures st == StatusOf(old(counts), Op.Acquire(l, reentrant))
      ensures Answers(st, Op.Acquire(l, reentrant), Count(old(counts), l))
      ensures calls == old(calls) + CallsOf(old(counts), Op.Acquire(l, reentrant))
    {
      StatusAnswers(counts, Op.Acquire(l, reentrant), StatusOf(counts, Op.Acquire(l, reentrant)));
      hide Answers;
      var entry := Lookup(l);
      if entry == -1 {
        calls := calls + [Lock(l)];
        IncrementRef(l, entry);
        return AcquireNow;
      }
      if reentrant {
        IncrementRef(l, entry);
        return SkipAcquisition;
      }
      st := UnbalancedLock;
    }

    /** LS_RELEASE. After UnbalancedUnlock the program aborts. */
    method Release(l: nat, reentrant: bool) returns (st: Status)
      requires Valid()
      modifies this, lockTable
      ensures Valid() && counts == ArrayAfter(old(counts), Op.Release(l, reentrant))
      ensures st == StatusOf(old(counts), Op.Release(l, reentrant))
      ensures Answers(st, Op.Release(l, reentrant), Count(old(counts), l))
      ensures calls == old(calls) + CallsOf(old(counts), Op.Release(l, reentrant))
    {
      StatusAnswers(counts, Op.Release(l, reentrant), StatusOf(counts, Op.Release(l, reentrant)));
      hide Answers;
      var entry := Lookup(l);
      if entry == -1 {
        return UnbalancedUnlock;
      }
      var left;
      if reentrant {
        left := DecrementRef(l, entry);
        if left == 0 {
          calls := calls + [Unlock(l)];
          return ReleaseNow;
        }
        return SkipRelease;
      }
      calls := calls + [Unlock(l)];
      left := DecrementRef(l, entry);
      st := ReleaseNow;
    }

    /** Any sequence of operations of a thread that holds no lock yet. */
    method Run(ops: seq<Op>) returns (sts: seq<Status>)
      requires Valid() && counts == map[] && calls == []
      modifies this, lockTable
      ensures Valid() && counts == ArrayRun(ops) && sts == ArrayStatuses(ops)
      ensures Fits(ops) ==> counts == ShieldSpec.Run(ops) && sts == Statuses(ops) && calls == Calls(ops)
      ensures Fits(ops) ==> Answered(ops, sts)
    {
      sts := [];
      for k := 0 to |ops|
        invariant Valid() && counts == ArrayRun(ops[..k]) && sts == ArrayStatuses(ops[..k])
        invariant Fits(ops) ==> calls == Calls(ops[..k])
      {
        assert ops[..k + 1][..k] == ops[..k];
        if Fits(ops) {
          FitsPrefix(ops, k);
          FittingRunsAgree(ops[..k]);
        }
        var st;
        match ops[k] {
          case Acquire(l, reentrant) => st := Acquire(l, reentrant);
          case Release(l, reentrant) => st := Release(l, reentrant);
        }
        sts := sts + [st];
      }
      assert ops[..|ops|] == ops;
      if Fits(ops) {
        FittingRunsAgree(ops);
        StatusesAnswer(ops);
      }
    }
  }
}
