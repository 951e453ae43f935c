/**
 * What the lock shield promises, inc/shielding_hash.h and inc/shielding_array.h, as a map: how often the
 * thread holds each lock, which status a call returns and which calls reach the lock underneath.
 */
module ShieldSpec {

  datatype Status = AcquireNow | SkipAcquisition | UnbalancedLock | ReleaseNow | SkipRelease | UnbalancedUnlock

  datatype Op = Acquire(l: nat, reentrant: bool) | Release(l: nat, reentrant: bool)

  /** A call of `lock_fn` or `unlock_fn`. */
  datatype Call = Lock(l: nat) | Unlock(l: nat)

  /** The number of times each held lock is held. */
  type Counts = map<nat, nat>

  function Count(m: Counts, l: nat): nat {
    if l in m then m[l] else 0
  }

  ghost predicate Positive(m: Counts) {
    forall l | l in m :: m[l] > 0
  }

  function Increment(m: Counts, l: nat): Counts {
    m[l := Count(m, l) + 1]
  }

  function Decrement(m: Counts, l: nat): Counts {
    if Count(m, l) > 1 then m[l := m[l] - 1] else m - {l}
  }

  function StatusOf(m: Counts, op: Op): Status {
    match op
    case Acquire(l, reentrant) =>
      if l !in m then AcquireNow else if reentrant then SkipAcquisition else UnbalancedLock
    case Release(l, reentrant) =>
      if l !in m then UnbalancedUnlock else if reentrant && m[l] > 1 then SkipRelease else ReleaseNow
  }

  /** What LS_ACQUIRE and LS_RELEASE return for a lock that is held `d` times. */
  ghost predicate Answers(st: Status, op: Op, d: nat) {
    if op.Acquire? then
      && (d == 0 ==> st == AcquireNow)
      && (d > 0 && op.reentrant ==> st == SkipAcquisition)
      && (d > 0 && !op.reentrant ==> st == UnbalancedLock)
    else
      && (d == 0 ==> st == UnbalancedUnlock)
      && (d > 1 && op.reentrant ==> st == SkipRelease)
      && (d == 1 || (d > 1 && !op.reentrant) ==> st == ReleaseNow)
  }

  /** There is exactly one such status. */
  lemma StatusAnswers(m: Counts, op: Op, st: Status)
    requires Positive(m)
    ensures Answers(st, op, Count(m, op.l)) <==> st == StatusOf(m, op)
  {
  }

  predicate Accepted(st: Status) {
    !st.UnbalancedLock? && !st.UnbalancedUnlock?
  }

  function After(m: Counts, op: Op): Counts {
    if !Accepted(StatusOf(m, op)) then m
    else if op.Acquire? then Increment(m, op.l)
    else Decrement(m, op.l)
  }

  function CallsOf(m: Counts, op: Op): seq<Call> {
    match StatusOf(m, op)
    case AcquireNow => [Lock(op.l)]
    case ReleaseNow => [Unlock(op.l)]
    case _ => []
  }

  /** The cases of LS_ACQUIRE. */
  lemma AcquireCases(m: Counts, l: nat, reentrant: bool)
    requires Positive(m)
    ensures var op := Acquire(l, reentrant);
            if l !in m then
              After(m, op) == Increment(m, l) && CallsOf(m, op) == [Lock(l)] && Answers(AcquireNow, op, Count(m, l))
            else if reentrant then
              After(m, op) == Increment(m, l) && CallsOf(m, op) == [] && Answers(SkipAcquisition, op, Count(m, l))
            else
              After(m, op) == m && CallsOf(m, op) == [] && Answers(UnbalancedLock, op, Count(m, l))
  {
  }

  /** The cases of LS_RELEASE. */
  lemma ReleaseCases(m: Counts, l: nat, reentrant: bool)
    requires Positive(m)
    ensures var op := Release(l, reentrant);
            if l !in m then
              After(m, op) == m && CallsOf(m, op) == [] && Answers(UnbalancedUnlock, op, Count(m, l))
            else if reentrant && m[l] > 1 then
              After(m, op) == Decrement(m, l) && CallsOf(m, op) == [] && Answers(SkipRelease, op, Count(m, l))
            else
              After(m, op) == Decrement(m, l) && CallsOf(m, op) == [Unlock(l)] && Answers(ReleaseNow, op, Count(m, l))
  {
  }

  /** The counts, statuses and calls of a whole sequence of operations of one thread. */
  function Run(ops: seq<Op>): Counts {
    if ops == [] then map[] else After(Run(ops[..|ops| - 1]), ops[|ops| - 1])
  }

  function Statuses(ops: seq<Op>): seq<Status> {
    if ops == [] then []
    else Statuses(ops[..|ops| - 1]) + [StatusOf(Run(ops[..|ops| - 1]), ops[|ops| - 1])]
  }

  function Calls(ops: seq<Op>): seq<Call> {
    if ops == [] then []
    else Calls(ops[..|ops| - 1]) + CallsOf(Run(ops[..|ops| - 1]), ops[|ops| - 1])
  }

  /** The calls on one lock. */
  function On(l: nat, cs: seq<Call>): seq<Call> {
    if cs == [] then []
    else On(l, cs[..|cs| - 1]) + if cs[|cs| - 1].l == l then [cs[|cs| - 1]] else []
  }

  /** Lock, unlock, lock, unlock, ... */
  ghost predicate Alternates(cs: seq<Call>) {
    forall i | 0 <= i < |cs| :: cs[i].Lock? <==> i % 2 == 0
  }

  /** The last call on the lock was one of `lock_fn`. */
  predicate Held(l: nat, cs: seq<Call>) {
    var on := On(l, cs);
    on != [] && on[|on| - 1].Lock?
  }

  /** How many of the accepted operations are acquisitions (or releases) of the lock. */
  function Acquired(l: nat, ops: seq<Op>): nat {
    if ops == [] then 0
    else
      var op := ops[|ops| - 1];
      Acquired(l, ops[..|ops| - 1]) +
      if op.Acquire? && op.l == l && Accepted(StatusOf(Run(ops[..|ops| - 1]), op)) then 1 else 0
  }

  function Released(l: nat, ops: seq<Op>): nat {
    if ops == [] then 0
    else
      var op := ops[|ops| - 1];
      Released(l, ops[..|ops| - 1]) +
      if op.Release? && op.l == l && Accepted(StatusOf(Run(ops[..|ops| - 1]), op)) then 1 else 0
  }

  lemma {:induction false} RunIsPositive(ops: seq<Op>)
    ensures Positive(Run(ops))
  {
    if ops != [] { RunIsPositive(ops[..|ops| - 1]); }
  }

  /** The count is what was acquired and not yet released, whatever the reentrant flags. */
  lemma {:induction false} CountsBalance(ops: seq<Op>, l: nat)
    ensures Count(Run(ops), l) + Released(l, ops) == Acquired(l, ops)
  {
    if ops != [] {
      CountsBalance(ops[..|ops| - 1], l);
      RunIsPositive(ops[..|ops| - 1]);
    }
  }

  /** A release that frees the lock underneath although the thread holds it more than once. */
  predicate Premature(m: Counts, op: Op) {
    op.Release? && !op.reentrant && Count(m, op.l) > 1
  }

  /** No release of the sequence is premature. */
  ghost predicate Careful(ops: seq<Op>) {
    forall k | 0 <= k < |ops| :: !Premature(Run(ops[..k]), ops[k])
  }

  /** Every lock is used with one and the same flag. */
  ghost predicate OneFlag(ops: seq<Op>) {
    forall i, j | 0 <= i < |ops| && 0 <= j < |ops| && ops[i].l == ops[j].l :: ops[i].reentrant == ops[j].reentrant
  }

  /** A non-reentrant lock is never held more than once. */
  lemma {:induction false} FlagBoundsCount(ops: seq<Op>, l: nat)
    requires forall i | 0 <= i < |ops| && ops[i].l == l :: !ops[i].reentrant
    ensures Count(Run(ops), l) <= 1
  {
    if ops != [] {
      var before := ops[..|ops| - 1];
      assert forall i | 0 <= i < |before| :: before[i] == ops[i];
      FlagBoundsCount(before, l);
      RunIsPositive(before);
    }
  }

  lemma OneFlagIsCareful(ops: seq<Op>)
    requires OneFlag(ops)
    ensures Careful(ops)
  {
    forall k | 0 <= k < |ops| ensures !Premature(Run(ops[..k]), ops[k]) {
      if !ops[k].reentrant {
        assert forall i | 0 <= i < k && ops[i].l == ops[k].l :: !ops[i].reentrant;
        FlagBoundsCount(ops[..k], ops[k].l);
      }
    }
  }

  lemma OnAppends(l: nat, cs: seq<Call>, c: Call)
    ensures On(l, cs + [c]) == On(l, cs) + if c.l == l then [c] else []
  {
    assert (cs + [c])[..|cs|] == cs;
  }

  lemma CallsOnStep(l: nat, ops: seq<Op>)
    requires ops != []
    ensures var before := ops[..|ops| - 1];
            On(l, Calls(ops)) == On(l, Calls(before)) +
              if ops[|ops| - 1].l == l then CallsOf(Run(before), ops[|ops| - 1]) else []
  {
    var before, op := ops[..|ops| - 1], ops[|ops| - 1];
    if CallsOf(Run(before), op) == [] {
      assert Calls(ops) == Calls(before);
    } else {
      OnAppends(l, Calls(before), CallsOf(Run(before), op)[0]);
    }
  }

  lemma CarefulPrefix(ops: seq<Op>, k: nat)
    requires Careful(ops) && k <= |ops|
    ensures Careful(ops[..k])
  {
    forall i | 0 <= i < k ensures !Premature(Run(ops[..k][..i]), ops[..k][i]) {
      assert ops[..k][..i] == ops[..i];
    }
  }

  /** The calls `a` on one lock alternate, and the last one locked it exactly if it is counted. */
  ghost predicate Balanced(a: seq<Call>, counted: bool) {
    Alternates(a) && |a| % 2 == if counted then 1 else 0
  }

  lemma StepBalances(m: Counts, op: Op, l: nat, a: seq<Call>)
    requires Positive(m) && !Premature(m, op) && Balanced(a, l in m)
    ensures Balanced(a + (if op.l == l then CallsOf(m, op) else []), l in After(m, op))
  {
  }

  /**
   * Without premature releases the lock underneath is used in balance: its calls alternate, and it is
   * held exactly while the thread's count is positive.
   */
  lemma {:induction false} CarefulIsBalanced(ops: seq<Op>, l: nat)
    requires Careful(ops)
    ensures Balanced(On(l, Calls(ops)), l in Run(ops))
  {
    if ops != [] {
      var n := |ops| - 1;
      CarefulPrefix(ops, n);
      CarefulIsBalanced(ops[..n], l);
      RunIsPositive(ops[..n]);
      CallsOnStep(l, ops);
      assert !Premature(Run(ops[..n]), ops[n]);
      StepBalances(Run(ops[..n]), ops[n], l, On(l, Calls(ops[..n])));
    }
  }

  lemma BalancedIsHeld(l: nat, cs: seq<Call>, counted: bool)
    requires Balanced(On(l, cs), counted)
    ensures Held(l, cs) <==> counted
  {
  }

  predicate HeldIffCounted(l: nat, ops: seq<Op>) {
    Held(l, Calls(ops)) <==> l in Run(ops)
  }

  /** The lock is held exactly while it is counted, after every operation of the sequence. */
  ghost predicate HeldWhileCounted(ops: seq<Op>) {
    forall k, l: nat | 0 <= k <= |ops| :: HeldIffCounted(l, ops[..k])
  }

  /** That fails exactly when some release is premature. */
  lemma HeldWhileCountedIffCareful(ops: seq<Op>)
    ensures HeldWhileCounted(ops) <==> Careful(ops)
  {
    if Careful(ops) {
      forall k, l: nat | 0 <= k <= |ops| ensures HeldIffCounted(l, ops[..k]) {
        CarefulPrefix(ops, k);
        CarefulIsBalanced(ops[..k], l);
        BalancedIsHeld(l, Calls(ops[..k]), l in Run(ops[..k]));
      }
    } else {
      var k :| 0 <= k < |ops| && Premature(Run(ops[..k]), ops[k]);
      var upTo := ops[..k + 1];
      assert upTo[..k] == ops[..k];
      PrematureFrees(upTo);
      assert !HeldIffCounted(ops[k].l, upTo);
    }
  }

  lemma PrematureFrees(ops: seq<Op>)
    requires ops != [] && Premature(Run(ops[..|ops| - 1]), ops[|ops| - 1])
    ensures !Held(ops[|ops| - 1].l, Calls(ops)) && ops[|ops| - 1].l in Run(ops)
  {
    var before, op := ops[..|ops| - 1], ops[|ops| - 1];
    CallsOnStep(op.l, ops);
    assert Run(ops) == After(Run(before), op);
    hide Run, Calls, On;
    assert CallsOf(Run(before), op) == [Unlock(op.l)];
  }

  lemma OneMore(l: nat, ops: seq<Op>, op: Op)
    requires op.l == l
    ensures Run(ops + [op]) == After(Run(ops), op)
    ensures On(l, Calls(ops + [op])) == On(l, Calls(ops)) + CallsOf(Run(ops), op)
  {
    assert (ops + [op])[..|ops|] == ops;
    CallsOnStep(l, ops + [op]);
  }

  /** A thread that mixes the flags frees a lock that it still holds, and then frees it once more. */
  lemma MixedFlagsFreeTwice(l: nat)
    ensures var ops := [Acquire(l, true), Acquire(l, true), Release(l, false), Release(l, false)];
            && On(l, Calls(ops)) == [Lock(l), Unlock(l), Unlock(l)]
            && !Held(l, Calls(ops[..3])) && Count(Run(ops[..3]), l) == 1
  {
    hide Run, Calls, On;
    var ops := [Acquire(l, true), Acquire(l, true), Release(l, false), Release(l, false)];
    NoCalls(l);
    OneMore(l, [], ops[0]);
    OneMore(l, [] + [ops[0]], ops[1]);
    OneMore(l, [] + [ops[0]] + [ops[1]], ops[2]);
    OneMore(l, [] + [ops[0]] + [ops[1]] + [ops[2]], ops[3]);
    assert ops[..3] == [] + [ops[0]] + [ops[1]] + [ops[2]];
    assert ops == [] + [ops[0]] + [ops[1]] + [ops[2]] + [ops[3]];
  }

  lemma NoCalls(l: nat)
    ensures Run([]) == map[] && On(l, Calls([])) == []
  {
  }
}
