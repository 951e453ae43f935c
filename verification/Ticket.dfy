/** The ticket lock, src/ticket.h: two 32-bit counters that wrap around. */
module Ticket {
  import opened FifoLock
  import opened Runs
  import opened Sums
  import opened Int32

  datatype PC = Idle | Draw | Spin(mine: int) | Critical | Bump

  /** `arrivals`, `served` and `ticket` are history, in unbounded numbers. */
  datatype State = State(next: int, serving: int, pc: seq<PC>, arrivals: seq<nat>, served: nat, ticket: seq<nat>) {
    function Goto(t: nat, p: PC): State
      requires t < |pc|
    {
      this.(pc := pc[t := p])
    }
  }

  function Init(n: nat): State {
    State(0, 0, seq(n, i => Idle), [], 0, seq(n, i => 0))
  }

  predicate Shape(s: State) {
    |s.ticket| == |s.pc|
  }

  /** One atomic step of thread `t`; a failed spin leaves the state as it was. */
  function Next(s: State, t: nat): State {
    if !Shape(s) || t >= |s.pc| then s else
    match s.pc[t]
    case Idle => s.Goto(t, Draw)
    case Draw =>
      s.(next := Wrap(s.next + 1), arrivals := s.arrivals + [t], ticket := s.ticket[t := |s.arrivals|])
       .Goto(t, Spin(s.next))
    case Spin(mine) => if s.serving != mine then s else s.Goto(t, Critical)
    case Critical => s.Goto(t, Bump)
    case Bump => s.(serving := Wrap(s.serving + 1), served := s.served + 1).Goto(t, Idle)
  }

  function Label(s: State, t: nat): Event {
    if !Shape(s) || t >= |s.pc| then Tau else
    match s.pc[t]
    case Draw => Enqueue(t)
    case Spin(mine) => if s.serving != mine then Tau else Enter(t)
    case Bump => Exit(t)
    case _ => Tau
  }

  predicate Queued(p: PC) {
    p.Spin? || Holds(p)
  }

  predicate Holds(p: PC) {
    p.Critical? || p.Bump?
  }

  ghost predicate At(s: State, k: nat)
    requires Shape(s)
  {
    k < |s.arrivals| && s.arrivals[k] < |s.pc| && s.ticket[s.arrivals[k]] == k && Queued(s.pc[s.arrivals[k]])
  }

  ghost predicate Local(s: State, t: nat)
    requires Shape(s) && t < |s.pc|
  {
    var k := s.ticket[t];
    && s.served <= k < |s.arrivals| && s.arrivals[k] == t
    && (if s.pc[t].Spin? then s.pc[t].mine == Wrap(k) else k == s.served)
  }

  ghost predicate Inv(s: State) {
    && Shape(s)
    && s.served <= |s.arrivals|
    && s.next == Wrap(|s.arrivals|) && s.serving == Wrap(s.served)
    && (forall k {:trigger At(s, k)} :: s.served <= k < |s.arrivals| ==> At(s, k))
    && (forall t {:trigger Local(s, t)} :: 0 <= t < |s.pc| && Queued(s.pc[t]) ==> Local(s, t))
  }

  /** At most as many tickets are outstanding as there are threads. */
  lemma OutstandingBounded(s: State)
    requires Inv(s)
    ensures |s.arrivals| - s.served <= |s.pc|
  {
    var q := s.arrivals[s.served..];
    forall i | 0 <= i < |q| ensures q[i] < |s.pc| { assert At(s, s.served + i); }
    forall i, j | 0 <= i < j < |q| ensures q[i] != q[j] { assert At(s, s.served + i) && At(s, s.served + j); }
    DistinctBounded(q, |s.pc|);
  }

  /** No more than 2^32 tickets are outstanding, by however many threads. */
  predicate Few(s: State) {
    |s.arrivals| - s.served <= TWO_TO_THE_32
  }

  /** Then only the oldest outstanding ticket matches. */
  lemma OnlyOldestMatches(s: State, t: nat)
    requires Inv(s) && Few(s) && t < |s.pc| && s.pc[t].Spin?
    ensures s.serving == s.pc[t].mine <==> s.ticket[t] == s.served
  {
    assert Local(s, t);
    WrapEqual(s.ticket[t], s.served);
  }

  ghost predicate AllDistinct(s: State)
    requires Shape(s)
  {
    forall t, u | 0 <= t < u < |s.pc| && Queued(s.pc[t]) && Queued(s.pc[u]) :: Wrap(s.ticket[t]) != Wrap(s.ticket[u])
  }

  /** Wrap-around makes two outstanding tickets look alike exactly when more than 2^32 are outstanding. */
  lemma DistinctIffFew(s: State)
    requires Inv(s)
    ensures AllDistinct(s) <==> Few(s)
  {
    if Few(s) {
      forall t, u | 0 <= t < u < |s.pc| && Queued(s.pc[t]) && Queued(s.pc[u])
        ensures Wrap(s.ticket[t]) != Wrap(s.ticket[u])
      {
        assert Local(s, t) && Local(s, u);
        WrapEqual(s.ticket[t], s.ticket[u]);
      }
    } else {
      var k := s.served + TWO_TO_THE_32;
      assert At(s, s.served) && At(s, k);
      WrapEqual(s.served, k);
    }
  }

  lemma NextKeepsInv(s: State, t: nat)
    requires Inv(s) && Few(s) && t < |s.pc|
    ensures Inv(Next(s, t)) && |Next(s, t).pc| == |s.pc|
  {
    var r := Next(s, t);
    WrapSuccessor(|s.arrivals|);
    WrapSuccessor(s.served);
    if s.pc[t].Spin? { OnlyOldestMatches(s, t); }
    if Queued(s.pc[t]) { assert Local(s, t); }
    forall k: nat | r.served <= k < |r.arrivals| ensures At(r, k) { if k < |s.arrivals| { assert At(s, k); } }
    forall u: nat | u < |r.pc| && Queued(r.pc[u]) ensures Local(r, u) {
      if Queued(s.pc[u]) { assert Local(s, u); }
    }
  }

  /** The abstract lock a state stands for. */
  function Abs(s: State): Lock {
    Lock(s.arrivals, s.served,
         s.served < |s.arrivals| && s.arrivals[s.served] < |s.pc| && Holds(s.pc[s.arrivals[s.served]]))
  }

  lemma NextRefines(s: State, t: nat)
    requires Inv(s) && Few(s)
    ensures Allowed(Abs(s), Label(s, t))
    ensures Abs(Next(s, t)) == Apply(Abs(s), Label(s, t))
  {
    if s.served < |s.arrivals| { assert At(s, s.served) && Local(s, s.arrivals[s.served]); }
    if t < |s.pc| {
      if s.pc[t].Spin? { OnlyOldestMatches(s, t); }
      if Queued(s.pc[t]) {
        assert Local(s, t);
        if s.pc[t].Bump? && s.served + 1 < |s.arrivals| {
          assert At(s, s.served + 1) && Local(s, s.arrivals[s.served + 1]);
        }
      } else if s.pc[t].Draw? {
        forall k: nat | s.served <= k < |s.arrivals| ensures s.arrivals[k] != t { assert At(s, k); }
      }
    }
  }

  /** The states of all runs of `n` threads. */
  ghost function After(n: nat, sched: seq<nat>): State {
    Exec(Next, Init(n), sched)
  }

  /** No more than 2^32 tickets are outstanding before any step of the run. */
  ghost predicate WithinLimit(n: nat, sched: seq<nat>) {
    Throughout(Next, Few, Init(n), sched)
  }

  /**
   * Over every schedule of any length and any number of threads, however often the counters wrap around, the lock
   * behaves as the abstract FIFO lock, as long as no more than 2^32 tickets are outstanding.
   */
  lemma FairWithinLimit(n: nat, sched: seq<nat>)
    requires WithinLimit(n, sched)
    ensures Inv(After(n, sched)) && |After(n, sched).pc| == n
    ensures Legal(FREE, Events(Next, Label, Init(n), sched))
    ensures Run(FREE, Events(Next, Label, Init(n), sched)) == Abs(After(n, sched))
    ensures Fair(Events(Next, Label, Init(n), sched))
  {
    var inv := (s: State) => Inv(s) && |s.pc| == n;
    forall s, t: nat | inv(s) && Few(s)
      ensures inv(Next(s, t)) && Allowed(Abs(s), Label(s, t)) && Abs(Next(s, t)) == Apply(Abs(s), Label(s, t))
    {
      if t < n { NextKeepsInv(s, t); }
      NextRefines(s, t);
    }
    RunRefinesWhile(Next, Label, inv, Few, Abs, Init(n), sched);
    FirstComeFirstServed(Events(Next, Label, Init(n), sched));
  }

  /** With at most 2^32 threads that is always so. */
  lemma {:induction false} FewThreads(n: nat, sched: seq<nat>)
    requires n <= TWO_TO_THE_32
    ensures WithinLimit(n, sched)
  {
    forall k | 0 <= k < |sched| ensures Few(After(n, sched[..k])) {
      FewThreads(n, sched[..k]);
      FairWithinLimit(n, sched[..k]);
      OutstandingBounded(After(n, sched[..k]));
    }
  }

  lemma RunIsFair(n: nat, sched: seq<nat>)
    requires n <= TWO_TO_THE_32
    ensures Inv(After(n, sched)) && |After(n, sched).pc| == n
    ensures Legal(FREE, Events(Next, Label, Init(n), sched))
    ensures Run(FREE, Events(Next, Label, Init(n), sched)) == Abs(After(n, sched))
    ensures Fair(Events(Next, Label, Init(n), sched))
  {
    FewThreads(n, sched);
    FairWithinLimit(n, sched);
  }

  ghost predicate Exclusive(s: State) {
    forall t, u | 0 <= t < u < |s.pc| :: !Holds(s.pc[t]) || !Holds(s.pc[u])
  }

  lemma MutualExclusion(n: nat, sched: seq<nat>)
    requires WithinLimit(n, sched)
    ensures Exclusive(After(n, sched))
  {
    FairWithinLimit(n, sched);
    var s := After(n, sched);
    forall t, u | 0 <= t < u < |s.pc| ensures !Holds(s.pc[t]) || !Holds(s.pc[u]) {
      assert Queued(s.pc[t]) ==> Local(s, t);
      assert Queued(s.pc[u]) ==> Local(s, u);
    }
  }

  /** Threads `0..m` draw tickets one after the other. */
  function AllDraw(m: nat): seq<nat> {
    if m == 0 then [] else AllDraw(m - 1) + [m - 1, m - 1]
  }

  lemma {:induction false} AllDrawn(n: nat, m: nat)
    requires m <= n
    ensures var s := After(n, AllDraw(m));
      && Shape(s) && |s.pc| == n && s.next == Wrap(m) && s.serving == 0
      && (forall i | 0 <= i < m :: s.pc[i] == Spin(Wrap(i))) && (forall i | m <= i < n :: s.pc[i].Idle?)
  {
    if m > 0 {
      AllDrawn(n, m - 1);
      var before := AllDraw(m - 1);
      assert AllDraw(m)[..|AllDraw(m)| - 1] == before + [m - 1];
      assert (before + [m - 1])[..|before|] == before;
      assert After(n, before + [m - 1]) == Next(After(n, before), m - 1);
      assert After(n, AllDraw(m)) == Next(Next(After(n, before), m - 1), m - 1);
      WrapSuccessor(m - 1);
    }
  }

  lemma BothEnter(n: nat, sched: seq<nat>, t: nat, u: nat) returns (more: seq<nat>)
    requires var s := After(n, sched);
             Shape(s) && t < |s.pc| && u < |s.pc| && s.pc[t] == s.pc[u] == Spin(s.serving)
    ensures var r := After(n, more); |r.pc| == |After(n, sched).pc| && Holds(r.pc[t]) && Holds(r.pc[u])
  {
    more := sched + [t, u];
    assert more[..|more| - 1] == sched + [t];
    assert (sched + [t])[..|sched|] == sched;
    assert After(n, sched + [t]) == Next(After(n, sched), t);
  }

  /** With more than 2^32 threads, a schedule lets two threads with the same wrapped ticket in together. */
  lemma OneThreadTooMany(n: nat) returns (sched: seq<nat>)
    requires n > TWO_TO_THE_32
    ensures var s := After(n, sched); |s.pc| == n && Holds(s.pc[0]) && Holds(s.pc[TWO_TO_THE_32])
  {
    hide AllDraw;
    AllDrawn(n, TWO_TO_THE_32 + 1);
    WrapEqual(0, TWO_TO_THE_32);
    sched := BothEnter(n, AllDraw(TWO_TO_THE_32 + 1), 0, TWO_TO_THE_32);
  }

  /** Mutual exclusion holds over all schedules exactly for at most 2^32 threads. */
  lemma ExclusiveIffFewThreads(n: nat)
    ensures (forall sched: seq<nat> :: Exclusive(After(n, sched))) <==> n <= 0x1_0000_0000
  {
    if n <= TWO_TO_THE_32 {
      forall sched: seq<nat> ensures Exclusive(After(n, sched)) {
        FewThreads(n, sched);
        MutualExclusion(n, sched);
      }
    } else {
      var sched := OneThreadTooMany(n);
      assert !Exclusive(After(n, sched));
    }
  }

  /** How far a thread is from finishing the call it is in. */
  function Rank(p: PC): nat {
    match p
    case Idle => 0
    case Bump => 1
    case Critical => 2
    case Spin(_) => 3
    case Draw => 4
  }

  function Measure(s: State): nat {
    Total(Rank, s.pc)
  }

  predicate Starts(s: State, t: nat) {
    t < |s.pc| && s.pc[t].Idle?
  }

  /** A step of a thread inside a call that is not a failed spin brings the lock closer to rest. */
  lemma MeasureFalls(s: State, t: nat)
    requires Shape(s) && t < |s.pc| && !s.pc[t].Idle? && Next(s, t) != s
    ensures Measure(Next(s, t)) < Measure(s)
  {
    var r := Next(s, t);
    assert r.pc == s.pc[t := r.pc[t]];
    TotalFalls(Rank, s.pc, t, r.pc[t]);
  }

  /** While any call is in progress, some thread in a call can take a step that is not a failed spin. */
  lemma NoDeadlock(s: State, u: nat) returns (t: nat)
    requires Inv(s) && Few(s) && u < |s.pc| && !s.pc[u].Idle?
    ensures t < |s.pc| && !s.pc[t].Idle? && Next(s, t) != s
  {
    t := u;
    if Queued(s.pc[u]) {
      assert Local(s, u) && At(s, s.served);
      t := s.arrivals[s.served];
      if s.pc[t].Spin? { OnlyOldestMatches(s, t); }
    }
    assert Next(s, t).pc[t] != s.pc[t];
  }

  /**
   * After any run, let the calls in progress go on without new ones: only `Measure` many steps other
   * than failed spins are left, and where none is left every call has returned.
   */
  lemma CallsReturn(n: nat, sched: seq<nat>, more: seq<nat>)
    requires n <= TWO_TO_THE_32 && Productive(Next, Starts, After(n, sched), more)
    ensures var r := Exec(Next, After(n, sched), more);
            && |more| + Measure(r) <= Measure(After(n, sched))
            && ((forall t: nat | t < |r.pc| :: Starts(r, t) || Next(r, t) == r) ==>
                  forall t: nat | t < |r.pc| :: r.pc[t].Idle?)
  {
    RunIsFair(n, sched);
    var inv := (s: State) => Inv(s) && |s.pc| == n;
    forall s, t: nat | inv(s) ensures inv(Next(s, t)) {
      OutstandingBounded(s);
      if t < n { NextKeepsInv(s, t); }
    }
    forall s, t: nat | inv(s) && !Starts(s, t) && Next(s, t) != s ensures Measure(Next(s, t)) < Measure(s) {
      MeasureFalls(s, t);
    }
    ProductiveRunsEnd(Next, Starts, inv, Measure, After(n, sched), more);
    var r := Exec(Next, After(n, sched), more);
    if u: nat :| u < |r.pc| && !r.pc[u].Idle? {
      OutstandingBounded(r);
      var t := NoDeadlock(r, u);
    }
  }

  /** The two counters and where each thread is. */
  class TicketLock {
    var next: int
    var serving: int
    var pc: seq<PC>
    ghost var arrivals: seq<nat>
    ghost var served: nat
    ghost var ticket: seq<nat>

    ghost function Snapshot(): State
      reads this
    {
      State(next, serving, pc, arrivals, served, ticket)
    }

    ghost predicate Valid()
      reads this
    {
      Inv(Snapshot())
    }

    constructor (n: nat)
      ensures Valid() && Snapshot() == Init(n)
    {
      next, serving, pc := 0, 0, seq(n, i => Idle);
      arrivals, served, ticket := [], 0, seq(n, i => 0);
    }

    /** One step of `Acquire` by thread `t`. */
    method AcquireStep(t: nat)
      requires Valid() && Few(Snapshot()) && t < |pc| && !Holds(pc[t])
      modifies this
      ensures Valid() && Snapshot() == Next(old(Snapshot()), t)
    {
      NextKeepsInv(Snapshot(), t);
      match pc[t] {
        case Idle => pc := pc[t := Draw];
        case Draw =>
          var mine := next;
          next := Wrap(next + 1);
          ticket, arrivals := ticket[t := |arrivals|], arrivals + [t];
          pc := pc[t := Spin(mine)];
        case Spin(mine) =>
          if serving == mine {
            pc := pc[t := Critical];
          }
      }
    }

    /** One step of `Release` by thread `t`. */
    method ReleaseStep(t: nat)
      requires Valid() && Few(Snapshot()) && t < |pc| && Holds(pc[t])
      modifies this
      ensures Valid() && Snapshot() == Next(old(Snapshot()), t)
    {
      NextKeepsInv(Snapshot(), t);
      if pc[t].Critical? {
        pc := pc[t := Bump];
      } else {
        serving := Wrap(serving + 1);
        served := served + 1;
        pc := pc[t := Idle];
      }
    }
  }
}
