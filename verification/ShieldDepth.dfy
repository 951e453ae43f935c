/**
 * What each call to the shield returns, told from the calls alone: how deep a lock is held is counted from the
 * operations on it, without the table and whatever other locks are used in between.
 */
module ShieldDepth {
  import opened ShieldSpec

  /** How often the lock is held. Only an acquisition without the flag is not accepted while it is. */
  function Depth(ops: seq<Op>, l: nat): nat {
    if ops == [] then 0
    else
      var d, op := Depth(ops[..|ops| - 1], l), ops[|ops| - 1];
      if op.l != l then d
      else if op.Acquire? then (if d == 0 || op.reentrant then d + 1 else d)
      else if d == 0 then 0 else d - 1
  }

  /** The table counts exactly that. */
  lemma {:induction false} CountIsDepth(ops: seq<Op>, l: nat)
    ensures Count(Run(ops), l) == Depth(ops, l)
    ensures l in Run(ops) <==> Depth(ops, l) > 0
  {
    RunIsPositive(ops);
    if ops != [] {
      CountIsDepth(ops[..|ops| - 1], l);
      RunIsPositive(ops[..|ops| - 1]);
    }
  }

  lemma {:induction false} StatusAt(ops: seq<Op>, k: nat)
    requires k < |ops|
    ensures |Statuses(ops)| == |ops| && Statuses(ops)[k] == StatusOf(Run(ops[..k]), ops[k])
  {
    var n := |ops| - 1;
    if n > 0 { StatusAt(ops[..n], if k < n then k else 0); }
    if k < n { assert ops[..n][..k] == ops[..k]; }
  }

  /** For every sequence of operations and every position in it, whatever flags are used. */
  lemma StatusIsAnswer(ops: seq<Op>, k: nat)
    requires k < |ops|
    ensures |Statuses(ops)| == |ops| && Answers(Statuses(ops)[k], ops[k], Depth(ops[..k], ops[k].l))
  {
    StatusAt(ops, k);
    CountIsDepth(ops[..k], ops[k].l);
  }

  /** Every status is the answer to its operation at the depth that the operations before it lead to. */
  ghost predicate Answered(ops: seq<Op>, sts: seq<Status>) {
    |sts| == |ops| && forall k | 0 <= k < |ops| :: Answers(sts[k], ops[k], Depth(ops[..k], ops[k].l))
  }

  lemma StatusesAnswer(ops: seq<Op>)
    ensures Answered(ops, Statuses(ops))
  {
    if ops != [] { StatusAt(ops, 0); }
    forall k | 0 <= k < |ops| ensures Answers(Statuses(ops)[k], ops[k], Depth(ops[..k], ops[k].l)) {
      StatusIsAnswer(ops, k);
    }
  }

  /** `lock_fn` is called at depth 0 only, `unlock_fn` for a release that is accepted, but for inner reentrant ones. */
  lemma CallsByDepth(ops: seq<Op>)
    requires ops != []
    ensures var before, op := ops[..|ops| - 1], ops[|ops| - 1];
            var d := Depth(before, op.l);
            Calls(ops) == Calls(before) +
              if op.Acquire? then (if d == 0 then [Lock(op.l)] else [])
              else if d == 1 || (d > 1 && !op.reentrant) then [Unlock(op.l)] else []
  {
    CountIsDepth(ops[..|ops| - 1], ops[|ops| - 1].l);
  }

  /** The acquisitions of the lock less its releases, a release at 0 being ignored. */
  function Surplus(ops: seq<Op>, l: nat): nat {
    if ops == [] then 0
    else
      var d, op := Surplus(ops[..|ops| - 1], l), ops[|ops| - 1];
      if op.l != l then d else if op.Acquire? then d + 1 else if d > 0 then d - 1 else 0
  }

  ghost predicate Flagged(ops: seq<Op>, l: nat, reentrant: bool) {
    forall i | 0 <= i < |ops| && ops[i].l == l :: ops[i].reentrant == reentrant
  }

  lemma FlaggedPrefix(ops: seq<Op>, l: nat, reentrant: bool, k: nat)
    requires Flagged(ops, l, reentrant) && k <= |ops|
    ensures Flagged(ops[..k], l, reentrant)
  {
    assert forall i | 0 <= i < k :: ops[..k][i] == ops[i];
  }

  /**
   * A lock that is always used as reentrant: no acquisition is ever refused, however deep; only the first reaches
   * the lock underneath, only the last release frees it, and the count is the surplus of acquisitions.
   */
  lemma {:induction false} ReentrantDepth(ops: seq<Op>, l: nat)
    requires Flagged(ops, l, true)
    ensures Count(Run(ops), l) == Depth(ops, l) == Surplus(ops, l)
  {
    CountIsDepth(ops, l);
    if ops != [] {
      FlaggedPrefix(ops, l, true, |ops| - 1);
      ReentrantDepth(ops[..|ops| - 1], l);
    }
  }

  lemma ReentrantStatus(ops: seq<Op>, l: nat, k: nat)
    requires Flagged(ops, l, true) && k < |ops| && ops[k].l == l
    ensures |Statuses(ops)| == |ops|
    ensures var d := Surplus(ops[..k], l);
            Statuses(ops)[k] == if ops[k].Acquire? then (if d == 0 then AcquireNow else SkipAcquisition)
            else if d == 0 then UnbalancedUnlock else if d == 1 then ReleaseNow else SkipRelease
  {
    FlaggedPrefix(ops, l, true, k);
    ReentrantDepth(ops[..k], l);
    StatusIsAnswer(ops, k);
  }

  /** The last operation on the lock was an acquisition. */
  predicate Taken(ops: seq<Op>, l: nat) {
    ops != [] && if ops[|ops| - 1].l == l then ops[|ops| - 1].Acquire? else Taken(ops[..|ops| - 1], l)
  }

  /** A lock that is never used as reentrant is held at most once, exactly from an acquisition to the next release. */
  lemma {:induction false} PlainDepth(ops: seq<Op>, l: nat)
    requires Flagged(ops, l, false)
    ensures Count(Run(ops), l) == Depth(ops, l) == if Taken(ops, l) then 1 else 0
  {
    CountIsDepth(ops, l);
    if ops != [] {
      FlaggedPrefix(ops, l, false, |ops| - 1);
      PlainDepth(ops[..|ops| - 1], l);
    }
  }

  lemma PlainStatus(ops: seq<Op>, l: nat, k: nat)
    requires Flagged(ops, l, false) && k < |ops| && ops[k].l == l
    ensures |Statuses(ops)| == |ops|
    ensures var taken := Taken(ops[..k], l);
            Statuses(ops)[k] == if ops[k].Acquire? then (if taken then UnbalancedLock else AcquireNow)
            else if taken then ReleaseNow else UnbalancedUnlock
  {
    FlaggedPrefix(ops, l, false, k);
    PlainDepth(ops[..k], l);
    StatusIsAnswer(ops, k);
  }
}
