/** The array-based queue lock, src/abql.h: a circular array of 256 flags and a 32-bit counter. */
module Abql {
  import opened FifoLock
  import opened Runs
  import opened Sums
  import opened Int32

  const MAX_THREADS := 256

  datatype PC = Idle | Draw | Spin(slot: int) | Critical(slot: int) | ClearFlag(slot: int) | WakeNext(slot: int)

  /**
   * `fault` records an access outside the array. `arrivals`, `served` and `ticket` are history, in
   * unbounded numbers.
   */
  datatype State = State(
    flags: seq<bool>, tail: int, fault: bool, pc: seq<PC>, arrivals: seq<nat>, served: nat, ticket: seq<nat>)
  {
    function Goto(t: nat, p: PC): State
      requires t < |pc|
    {
      this.(pc := pc[t := p])
    }
  }

  function Init(n: nat): State {
    State(seq(MAX_THREADS, i => i == 0), 0, false, seq(n, i => Idle), [], 0, seq(n, i => 0))
  }

  predicate Shape(s: State) {
    |s.ticket| == |s.pc| && |s.flags| == MAX_THREADS
  }

  /** The slot of the `k`-th exchange, as the code computes it. */
  function Slot(k: nat): int {
    Rem(Wrap(k), MAX_THREADS)
  }

  /** One atomic step of thread `t`; a failed spin leaves the state as it was, and nothing happens after a fault. */
  function Next(s: State, t: nat): State {
    if !Shape(s) || t >= |s.pc| || s.fault then s else
    match s.pc[t]
    case Idle => s.Goto(t, Draw)
    case Draw =>
      s.(tail := Wrap(s.tail + 1), arrivals := s.arrivals + [t], ticket := s.ticket[t := |s.arrivals|],
         fault := Rem(s.tail, MAX_THREADS) < 0)
       .Goto(t, Spin(Rem(s.tail, MAX_THREADS)))
    case Spin(slot) => if 0 <= slot < MAX_THREADS && s.flags[slot] then s.Goto(t, Critical(slot)) else s
    case Critical(slot) => s.Goto(t, ClearFlag(slot))
    case ClearFlag(slot) => s.(flags := Put(s.flags, slot, false)).Goto(t, WakeNext(slot))
    case WakeNext(slot) =>
      s.(flags := Put(s.flags, Rem(slot + 1, MAX_THREADS), true), served := s.served + 1).Goto(t, Idle)
  }

  function Label(s: State, t: nat): Event {
    if !Shape(s) || t >= |s.pc| || s.fault then Tau else
    match s.pc[t]
    case Draw => Enqueue(t)
    case Spin(slot) => if 0 <= slot < MAX_THREADS && s.flags[slot] then Enter(t) else Tau
    case WakeNext(_) => Exit(t)
    case _ => Tau
  }

  predicate Queued(p: PC) {
    p.Spin? || Holds(p)
  }

  predicate Holds(p: PC) {
    p.Critical? || p.ClearFlag? || p.WakeNext?
  }

  /**
   * The slot of ticket `k` lies in the array for the first 2^31 + 1 tickets, where it is `k` modulo 256. After
   * that the counter is negative until it wraps around, and only every 256th ticket gets a slot in the array.
   */
  lemma SlotInRange(k: nat)
    requires k < TWO_TO_THE_32
    ensures 0 <= Slot(k) < MAX_THREADS <==> k <= TWO_TO_THE_31 || k % MAX_THREADS == 0
    ensures k <= TWO_TO_THE_31 ==> Slot(k) == k % MAX_THREADS
  {
    if k < TWO_TO_THE_31 {
      assert Wrap(k) == k;
    } else {
      assert Wrap(k) == k - TWO_TO_THE_32;
      NegativeRemainder(k);
    }
  }

  lemma NegativeRemainder(k: int)
    requires 0 <= k < TWO_TO_THE_32
    ensures Rem(k - TWO_TO_THE_32, MAX_THREADS) == -((-k) % MAX_THREADS)
    ensures (-k) % MAX_THREADS == 0 <==> k % MAX_THREADS == 0
  {
    assert (TWO_TO_THE_32 - k) % MAX_THREADS == (-k) % MAX_THREADS;
  }

  ghost predicate At(s: State, k: nat)
    requires Shape(s)
  {
    k < |s.arrivals| && s.arrivals[k] < |s.pc| && s.ticket[s.arrivals[k]] == k && Queued(s.pc[s.arrivals[k]])
  }

  ghost predicate Local(s: State, t: nat)
    requires Shape(s) && t < |s.pc|
  {
    var k := s.ticket[t];
    && s.served <= k < |s.arrivals| && s.arrivals[k] == t
    && !s.pc[t].Idle? && !s.pc[t].Draw? && s.pc[t].slot == k % MAX_THREADS
    && (!s.pc[t].Spin? ==> k == s.served)
  }

  /** The front thread has cleared its flag and not yet set the next one. */
  predicate Between(s: State) {
    s.served < |s.arrivals| && s.arrivals[s.served] < |s.pc| && s.pc[s.arrivals[s.served]].WakeNext?
  }

  ghost predicate Inv(s: State) {
    && Shape(s) && !s.fault
    && s.served <= |s.arrivals| <= TWO_TO_THE_31 + 1
    && s.tail == Wrap(|s.arrivals|)
    && (forall i | 0 <= i < MAX_THREADS :: s.flags[i] <==> i == s.served % MAX_THREADS && !Between(s))
    && (forall k {:trigger At(s, k)} :: s.served <= k < |s.arrivals| ==> At(s, k))
    && (forall t {:trigger Local(s, t)} :: 0 <= t < |s.pc| && Queued(s.pc[t]) ==> Local(s, t))
  }

  /** At most as many slots are taken as there are threads. */
  lemma OutstandingBounded(s: State)
    requires Inv(s)
    ensures |s.arrivals| - s.served <= |s.pc|
  {
    var q := s.arrivals[s.served..];
    forall i | 0 <= i < |q| ensures q[i] < |s.pc| { assert At(s, s.served + i); }
    forall i, j | 0 <= i < j < |q| ensures q[i] != q[j] { assert At(s, s.served + i) && At(s, s.served + j); }
    DistinctBounded(q, |s.pc|);
  }

  lemma ModApart(a: nat, b: nat)
    requires a <= b < a + MAX_THREADS
    ensures a % MAX_THREADS == b % MAX_THREADS <==> a == b
  {
  }

  /** No more than 256 tickets are outstanding, by however many threads. */
  predicate Few(s: State) {
    !s.fault ==> |s.arrivals| - s.served <= MAX_THREADS
  }

  /** Then a queued thread's slot is in the array, and its flag may be set only if it is the front. */
  lemma OnlyFrontIsSet(s: State, t: nat)
    requires Inv(s) && Few(s) && t < |s.pc| && Queued(s.pc[t])
    ensures 0 <= s.pc[t].slot < MAX_THREADS
    ensures s.flags[s.pc[t].slot] <==> s.ticket[t] == s.served && !Between(s)
  {
    assert Local(s, t);
    ModApart(s.served, s.ticket[t]);
  }

  ghost predicate AllDistinct(s: State)
    requires Shape(s)
  {
    forall t, u | 0 <= t < u < |s.pc| && Queued(s.pc[t]) && Queued(s.pc[u]) :: s.pc[t].slot != s.pc[u].slot
  }

  /** Queued threads have distinct slots exactly when no more than 256 tickets are outstanding. */
  lemma DistinctIffFew(s: State)
    requires Inv(s)
    ensures AllDistinct(s) <==> Few(s)
  {
    if Few(s) {
      forall t, u | 0 <= t < u < |s.pc| && Queued(s.pc[t]) && Queued(s.pc[u]) ensures s.pc[t].slot != s.pc[u].slot {
        assert Local(s, t) && Local(s, u);
        var a, b := s.ticket[t], s.ticket[u];
        if a <= b { ModApart(a, b); } else { ModApart(b, a); }
      }
    } else {
      var k := s.served + MAX_THREADS;
      assert At(s, s.served) && At(s, k);
      assert Local(s, s.arrivals[s.served]) && Local(s, s.arrivals[k]);
    }
  }

  lemma DrawKeepsInv(s: State, t: nat)
    requires Inv(s) && t < |s.pc| && s.pc[t].Draw? && |s.arrivals| <= TWO_TO_THE_31
    ensures Inv(Next(s, t))
  {
    var r := Next(s, t);
    WrapSuccessor(|s.arrivals|);
    SlotInRange(|s.arrivals|);
    if s.served < |s.arrivals| { assert At(s, s.served); }
    forall k: nat | r.served <= k < |r.arrivals| ensures At(r, k) { if k < |s.arrivals| { assert At(s, k); } }
    forall u: nat | u < |r.pc| && Queued(r.pc[u]) ensures Local(r, u) { if u != t { assert Local(s, u); } }
  }

  /** The slot after `a`'s is that of `a + 1`. */
  lemma NextSlot(a: nat)
    ensures Rem(a % MAX_THREADS + 1, MAX_THREADS) == (a + 1) % MAX_THREADS
  {
  }

  lemma HoldKeepsFlags(s: State, t: nat)
    requires Inv(s) && Few(s) && t < |s.pc| && Holds(s.pc[t])
    ensures var r := Next(s, t);
      Shape(r) && forall i | 0 <= i < MAX_THREADS :: r.flags[i] <==> i == r.served % MAX_THREADS && !Between(r)
  {
    assert Local(s, t);
    NextSlot(s.served);
    if s.served + 1 < |s.arrivals| { assert At(s, s.served + 1) && Local(s, s.arrivals[s.served + 1]); }
  }

  lemma MoveKeepsInv(s: State, t: nat)
    requires Inv(s) && Few(s) && t < |s.pc| && !s.pc[t].Draw?
    ensures Inv(Next(s, t))
  {
    var r := Next(s, t);
    if Queued(s.pc[t]) { OnlyFrontIsSet(s, t); assert Local(s, t); }
    if Holds(s.pc[t]) { HoldKeepsFlags(s, t); }
    if s.served < |s.arrivals| { assert At(s, s.served) && Local(s, s.arrivals[s.served]); }
    forall k: nat | r.served <= k < |r.arrivals| ensures At(r, k) { assert At(s, k); }
    forall u: nat | u < |r.pc| && Queued(r.pc[u]) ensures Local(r, u) { assert Local(s, u); }
  }

  /** The abstract lock a state stands for. */
  function Abs(s: State): Lock {
    Lock(s.arrivals, s.served,
         s.served < |s.arrivals| && s.arrivals[s.served] < |s.pc| && Holds(s.pc[s.arrivals[s.served]]))
  }

  lemma NextRefines(s: State, t: nat)
    requires Inv(s) && Few(s)
    ensures Allowed(Abs(s), Label(s, t))
    ensures Abs(Next(s, t)) == Apply(Abs(s), Label(s, t))
  {
    if s.served < |s.arrivals| { assert At(s, s.served) && Local(s, s.arrivals[s.served]); }
    if t < |s.pc| {
      if Queued(s.pc[t]) {
        assert Local(s, t);
        OnlyFrontIsSet(s, t);
        if s.pc[t].WakeNext? && s.served + 1 < |s.arrivals| {
          assert At(s, s.served + 1) && Local(s, s.arrivals[s.served + 1]);
        }
      } else if s.pc[t].Draw? {
        forall k: nat | s.served <= k < |s.arrivals| ensures s.arrivals[k] != t { assert At(s, k); }
      }
    }
  }

  /** The counter has just become negative and led outside the array. */
  ghost predicate Broken(s: State) {
    Shape(s) && s.fault && |s.arrivals| == TWO_TO_THE_31 + 2 && Abs(s).Valid()
  }

  lemma NextKeepsInv(s: State, t: nat)
    requires Inv(s) && Few(s) && t < |s.pc|
    ensures |Next(s, t).pc| == |s.pc|
    ensures if |Next(s, t).arrivals| <= TWO_TO_THE_31 + 1 then Inv(Next(s, t)) else Broken(Next(s, t))
  {
    if !s.pc[t].Draw? {
      MoveKeepsInv(s, t);
    } else if |s.arrivals| <= TWO_TO_THE_31 {
      DrawKeepsInv(s, t);
    } else {
      SlotInRange(TWO_TO_THE_31 + 1);
      NextRefines(s, t);
    }
  }

  ghost predicate Running(s: State, n: nat) {
    (Inv(s) || Broken(s)) && |s.pc| == n
  }

  lemma StaysRunning(s: State, n: nat, t: nat)
    requires Running(s, n) && Few(s)
    ensures Running(Next(s, t), n)
  {
    if t < n && Inv(s) { NextKeepsInv(s, t); }
  }

  /** The states of all runs of `n` threads. */
  ghost function After(n: nat, sched: seq<nat>): State {
    Exec(Next, Init(n), sched)
  }

  /** No more than 256 tickets are outstanding before any step of the run. */
  ghost predicate WithinLimit(n: nat, sched: seq<nat>) {
    Throughout(Next, Few, Init(n), sched)
  }

  /**
   * With any number of threads the lock behaves as the abstract FIFO lock over every schedule, as long as no more
   * than 256 tickets are outstanding and the counter leads into the array: exactly up to 2^31 + 1 acquisitions.
   */
  lemma FairWithinLimit(n: nat, sched: seq<nat>)
    requires WithinLimit(n, sched)
    ensures After(n, sched).fault <==> |After(n, sched).arrivals| > TWO_TO_THE_31 + 1
    ensures !After(n, sched).fault ==> Inv(After(n, sched))
    ensures Running(After(n, sched), n)
    ensures |After(n, sched).pc| == n
    ensures Legal(FREE, Events(Next, Label, Init(n), sched))
    ensures Run(FREE, Events(Next, Label, Init(n), sched)) == Abs(After(n, sched))
    ensures Fair(Events(Next, Label, Init(n), sched))
  {
    var inv := (s: State) => Running(s, n);
    forall s, t: nat | inv(s) && Few(s)
      ensures inv(Next(s, t)) && Allowed(Abs(s), Label(s, t)) && Abs(Next(s, t)) == Apply(Abs(s), Label(s, t))
    {
      if Inv(s) { NextRefines(s, t); }
      StaysRunning(s, n, t);
    }
    RunRefinesWhile(Next, Label, inv, Few, Abs, Init(n), sched);
    FirstComeFirstServed(Events(Next, Label, Init(n), sched));
  }

  /** With at most 256 threads that is always so. */
  lemma {:induction false} FewThreads(n: nat, sched: seq<nat>)
    requires n <= MAX_THREADS
    ensures WithinLimit(n, sched)
  {
    forall k | 0 <= k < |sched| ensures Few(After(n, sched[..k])) {
      FewThreads(n, sched[..k]);
      FairWithinLimit(n, sched[..k]);
      if Inv(After(n, sched[..k])) { OutstandingBounded(After(n, sched[..k])); }
    }
  }

  lemma RunIsFair(n: nat, sched: seq<nat>)
    requires n <= MAX_THREADS
    ensures After(n, sched).fault <==> |After(n, sched).arrivals| > TWO_TO_THE_31 + 1
    ensures !After(n, sched).fault ==> Inv(After(n, sched))
    ensures Running(After(n, sched), n)
    ensures |After(n, sched).pc| == n
    ensures Legal(FREE, Events(Next, Label, Init(n), sched))
    ensures Run(FREE, Events(Next, Label, Init(n), sched)) == Abs(After(n, sched))
    ensures Fair(Events(Next, Label, Init(n), sched))
  {
    FewThreads(n, sched);
    FairWithinLimit(n, sched);
  }

  ghost predicate Exclusive(s: State) {
    forall t, u | 0 <= t < u < |s.pc| :: !Holds(s.pc[t]) || !Holds(s.pc[u])
  }

  lemma MutualExclusion(n: nat, sched: seq<nat>)
    requires WithinLimit(n, sched) && !After(n, sched).fault
    ensures Exclusive(After(n, sched))
  {
    FairWithinLimit(n, sched);
    var s := After(n, sched);
    forall t, u | 0 <= t < u < |s.pc| ensures !Holds(s.pc[t]) || !Holds(s.pc[u]) {
      assert Queued(s.pc[t]) ==> Local(s, t);
      assert Queued(s.pc[u]) ==> Local(s, u);
    }
  }

  /** In no state are two flags set. */
  lemma AtMostOneFlag(n: nat, sched: seq<nat>, i: nat, j: nat)
    requires WithinLimit(n, sched) && !After(n, sched).fault && i < MAX_THREADS && j < MAX_THREADS
    requires |After(n, sched).flags| == MAX_THREADS && After(n, sched).flags[i] && After(n, sched).flags[j]
    ensures i == j
  {
    FairWithinLimit(n, sched);
  }

  /** Threads `0..m` queue one after the other. */
  function AllDraw(m: nat): seq<nat> {
    if m == 0 then [] else AllDraw(m - 1) + [m - 1, m - 1]
  }

  lemma {:induction false} AllDrawn(n: nat, m: nat)
    requires m <= n && m <= MAX_THREADS + 1
    ensures var s := After(n, AllDraw(m));
      && Shape(s) && !s.fault && |s.pc| == n && s.tail == m && s.flags == Init(n).flags
      && (forall i | 0 <= i < m :: s.pc[i] == Spin(i % MAX_THREADS)) && (forall i | m <= i < n :: s.pc[i].Idle?)
  {
    if m > 0 {
      AllDrawn(n, m - 1);
      var before := AllDraw(m - 1);
      assert AllDraw(m)[..|AllDraw(m)| - 1] == before + [m - 1];
      assert (before + [m - 1])[..|before|] == before;
      assert After(n, before + [m - 1]) == Next(After(n, before), m - 1);
      assert After(n, AllDraw(m)) == Next(Next(After(n, before), m - 1), m - 1);
      DrawsNext(After(n, before), m - 1);
    }
  }

  lemma DrawsNext(s: State, t: nat)
    requires Shape(s) && !s.fault && t < |s.pc| && t <= MAX_THREADS && s.pc[t].Idle? && s.tail == t
    ensures var r := Next(Next(s, t), t);
            && Shape(r) && !r.fault && r.tail == t + 1 && r.flags == s.flags
            && r.pc == s.pc[t := Spin(t % MAX_THREADS)]
  {
  }

  lemma BothEnter(n: nat, sched: seq<nat>, t: nat, u: nat) returns (more: seq<nat>)
    requires var s := After(n, sched);
             && Shape(s) && !s.fault && t < |s.pc| && u < |s.pc| && s.pc[t] == s.pc[u] && s.pc[t].Spin?
             && 0 <= s.pc[t].slot < MAX_THREADS && s.flags[s.pc[t].slot]
    ensures var r := After(n, more);
            !r.fault && |r.pc| == |After(n, sched).pc| && Holds(r.pc[t]) && Holds(r.pc[u])
  {
    more := sched + [t, u];
    assert more[..|more| - 1] == sched + [t];
    assert (sched + [t])[..|sched|] == sched;
    assert After(n, sched + [t]) == Next(After(n, sched), t);
  }

  /** 256 threads is the limit: with one more, a schedule lets two threads into the critical section together. */
  lemma OneThreadTooMany(n: nat) returns (sched: seq<nat>)
    requires n > MAX_THREADS
    ensures var s := After(n, sched); |s.pc| == n && !s.fault && Holds(s.pc[0]) && Holds(s.pc[MAX_THREADS])
  {
    hide AllDraw;
    AllDrawn(n, MAX_THREADS + 1);
    sched := BothEnter(n, AllDraw(MAX_THREADS + 1), 0, MAX_THREADS);
  }

  /** Mutual exclusion holds over all schedules, up to a fault, exactly for at most 256 threads. */
  lemma ExclusiveIffEnoughSlots(n: nat)
    ensures (forall sched: seq<nat> :: !After(n, sched).fault ==> Exclusive(After(n, sched))) <==> n <= 256
  {
    if n <= MAX_THREADS {
      forall sched: seq<nat> | !After(n, sched).fault ensures Exclusive(After(n, sched)) {
        FewThreads(n, sched);
        MutualExclusion(n, sched);
      }
    } else {
      var sched := OneThreadTooMany(n);
      assert !Exclusive(After(n, sched));
    }
  }

  /** How far a thread is from finishing the call it is in. */
  function Rank(p: PC): nat {
    match p
    case Idle => 0
    case WakeNext(_) => 1
    case ClearFlag(_) => 2
    case Critical(_) => 3
    case Spin(_) => 4
    case Draw => 5
  }

  function Measure(s: State): nat {
    Total(Rank, s.pc)
  }

  predicate Starts(s: State, t: nat) {
    t < |s.pc| && s.pc[t].Idle?
  }

  /** A step of a thread inside a call that is not a failed spin brings the lock closer to rest. */
  lemma MeasureFalls(s: State, t: nat)
    requires Shape(s) && t < |s.pc| && !s.pc[t].Idle? && Next(s, t) != s
    ensures Measure(Next(s, t)) < Measure(s)
  {
    var r := Next(s, t);
    assert r.pc == s.pc[t := r.pc[t]];
    TotalFalls(Rank, s.pc, t, r.pc[t]);
  }

  /** While any call is in progress, some thread in a call can take a step that is not a failed spin. */
  lemma NoDeadlock(s: State, u: nat) returns (t: nat)
    requires Inv(s) && Few(s) && u < |s.pc| && !s.pc[u].Idle?
    ensures t < |s.pc| && !s.pc[t].Idle? && Next(s, t) != s
  {
    t := u;
    if Queued(s.pc[u]) {
      assert Local(s, u) && At(s, s.served);
      t := s.arrivals[s.served];
      OnlyFrontIsSet(s, t);
      assert Local(s, t);
    }
    assert Next(s, t).pc[t] != s.pc[t];
  }

  /**
   * After any run, let the calls in progress go on without new ones: only `Measure` many steps other
   * than failed spins are left, and where none is left every call has returned,
   * as long as the counter has not run over.
   */
  lemma CallsReturn(n: nat, sched: seq<nat>, more: seq<nat>)
    requires n <= MAX_THREADS && Productive(Next, Starts, After(n, sched), more)
    ensures var r := Exec(Next, After(n, sched), more);
            && |more| + Measure(r) <= Measure(After(n, sched))
            && (!r.fault && (forall t: nat | t < |r.pc| :: Starts(r, t) || Next(r, t) == r) ==>
                  forall t: nat | t < |r.pc| :: r.pc[t].Idle?)
  {
    RunIsFair(n, sched);
    var inv := (s: State) => Running(s, n);
    forall s, t: nat | inv(s) ensures inv(Next(s, t)) {
      if Inv(s) { OutstandingBounded(s); }
      StaysRunning(s, n, t);
    }
    forall s, t: nat | inv(s) && !Starts(s, t) && Next(s, t) != s ensures Measure(Next(s, t)) < Measure(s) {
      MeasureFalls(s, t);
    }
    ProductiveRunsEnd(Next, Starts, inv, Measure, After(n, sched), more);
    var r := Exec(Next, After(n, sched), more);
    if u: nat :| !r.fault && u < |r.pc| && !r.pc[u].Idle? {
      OutstandingBounded(r);
      var t := NoDeadlock(r, u);
    }
  }

  /** The array of flags, the counter and where each thread is. */
  class AbqlLock {
    const flags: array<bool>
    var tail: int
    var pc: seq<PC>
    ghost var arrivals: seq<nat>
    ghost var served: nat
    ghost var ticket: seq<nat>

    ghost function Snapshot(): State
      reads this, flags
    {
      State(flags[..], tail, false, pc, arrivals, served, ticket)
    }

    ghost predicate Valid()
      reads this, flags
    {
      Inv(Snapshot())
    }

    constructor (n: nat)
      ensures Valid() && Snapshot() == Init(n) && fresh(flags)
    {
      flags := new bool[MAX_THREADS];
      tail, pc := 0, seq(n, i => Idle);
      arrivals, served, ticket := [], 0, seq(n, i => 0);
      new;
      for i := 0 to MAX_THREADS
        invariant fresh(flags) && flags.Length == MAX_THREADS
        invariant tail == 0 && pc == seq(n, i => Idle) && arrivals == [] && served == 0 && ticket == seq(n, i => 0)
        invariant forall j | 0 <= j < i :: !flags[j]
      {
        flags[i] := false;
      }
      flags[0] := true;
      assert flags[..] == Init(n).flags;
    }

    /** One step of `Acquire` by thread `t`, as long as the counter has not run over. */
    method AcquireStep(t: nat)
      requires Valid() && Few(Snapshot()) && t < |pc| && !Holds(pc[t])
      requires pc[t].Draw? ==> |arrivals| <= TWO_TO_THE_31
      modifies this
      ensures Valid() && Snapshot() == Next(old(Snapshot()), t)
    {
      NextKeepsInv(Snapshot(), t);
      if Queued(pc[t]) { OnlyFrontIsSet(Snapshot(), t); }
      match pc[t] {
        case Idle => pc := pc[t := Draw];
        case Draw =>
          SlotInRange(|arrivals|);
          var mySlot := Rem(tail, MAX_THREADS);
          tail := Wrap(tail + 1);
          ticket, arrivals := ticket[t := |arrivals|], arrivals + [t];
          pc := pc[t := Spin(mySlot)];
        case Spin(slot) =>
          if flags[slot] {
            pc := pc[t := Critical(slot)];
          }
      }
    }

    /** One step of `Release` by thread `t`. */
    method ReleaseStep(t: nat)
      requires Valid() && Few(Snapshot()) && t < |pc| && Holds(pc[t])
      modifies this, flags
      ensures Valid() && Snapshot() == Next(old(Snapshot()), t)
    {
      NextKeepsInv(Snapshot(), t);
      OnlyFrontIsSet(Snapshot(), t);
      match pc[t] {
        case Critical(slot) => pc := pc[t := ClearFlag(slot)];
        case ClearFlag(slot) =>
          flags[slot] := false;
          pc := pc[t := WakeNext(slot)];
        case WakeNext(slot) =>
          flags[(slot + 1) % MAX_THREADS] := true;
          served := served + 1;
          pc := pc[t := Idle];
      }
    }
  }
}
