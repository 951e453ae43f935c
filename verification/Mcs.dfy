/** The MCS queue lock, src/mcs.h. */
module Mcs {
  import opened FifoLock
  import opened Runs
  import opened Sums

  /**
   * Where a thread is; one constructor per atomic access, carrying the live locals. The first four
   * constructors precede the exchange on `tail`, the last five are `Release`.
   */
  datatype PC =
    | Idle
    | ClearNext
    | SetLocked
    | Swap
    | Test(prev: int)
    | Link(prev: int)
    | Spin
    | Critical
    | LoadNext
    | CasTail
    | AwaitNext
    | ReloadNext
    | Wake(succ: int)

  /**
   * Thread `t` owns node `t`. `arrivals`, `served` and `ticket` are history: the order of the
   * exchanges on `tail`, how many of those threads have left, and each thread's last arrival number.
   */
  datatype State = State(
    tail: int, next: seq<int>, locked: seq<bool>, pc: seq<PC>,
    arrivals: seq<nat>, served: nat, ticket: seq<nat>)
  {
    function Set(t: nat, p: PC): State
      requires t < |pc|
    {
      this.(pc := pc[t := p])
    }
  }

  function Init(n: nat): State {
    State(NULL, seq(n, i => NULL), seq(n, i => true), seq(n, i => Idle), [], 0, seq(n, i => 0))
  }

  predicate Shape(s: State) {
    |s.next| == |s.locked| == |s.ticket| == |s.pc|
  }

  /** One atomic step of thread `t`; a failed spin leaves the state as it was. */
  function Next(s: State, t: nat): State {
    if !Shape(s) || t >= |s.pc| then s else
    match s.pc[t]
    case Idle => s.Set(t, ClearNext)
    case ClearNext => s.(next := s.next[t := NULL]).Set(t, SetLocked)
    case SetLocked => s.(locked := s.locked[t := true]).Set(t, Swap)
    case Swap =>
      s.(tail := t, arrivals := s.arrivals + [t], ticket := s.ticket[t := |s.arrivals|]).Set(t, Test(s.tail))
    case Test(prev) => s.Set(t, if prev == NULL then Critical else Link(prev))
    case Link(prev) => s.(next := Put(s.next, prev, t)).Set(t, Spin)
    case Spin => if s.locked[t] then s else s.Set(t, Critical)
    case Critical => s.Set(t, LoadNext)
    case LoadNext => s.Set(t, if s.next[t] == NULL then CasTail else ReloadNext)
    case CasTail =>
      if s.tail == t then s.(tail := NULL, served := s.served + 1).Set(t, Idle) else s.Set(t, AwaitNext)
    case AwaitNext => if s.next[t] == NULL then s else s.Set(t, ReloadNext)
    case ReloadNext => s.Set(t, Wake(s.next[t]))
    case Wake(succ) => s.(locked := Put(s.locked, succ, false), served := s.served + 1).Set(t, Idle)
  }

  /** What the step means: queue at the exchange, enter on reaching the critical section, leave on handing over. */
  function Label(s: State, t: nat): Event {
    if !Shape(s) || t >= |s.pc| then Tau else
    match s.pc[t]
    case Swap => Enqueue(t)
    case Test(prev) => if prev == NULL then Enter(t) else Tau
    case Spin => if s.locked[t] then Tau else Enter(t)
    case CasTail => if s.tail == t then Exit(t) else Tau
    case Wake(_) => Exit(t)
    case _ => Tau
  }

  predicate Queued(p: PC) {
    !p.Idle? && !p.ClearNext? && !p.SetLocked? && !p.Swap?
  }

  /** Between entering the lock and handing it over. */
  predicate Holds(p: PC) {
    Queued(p) && !p.Test? && !p.Link? && !p.Spin?
  }

  /** The thread that queued at position `k` really is queued there. */
  ghost predicate At(s: State, k: nat)
    requires Shape(s)
  {
    k < |s.arrivals| && s.arrivals[k] < |s.pc| && s.ticket[s.arrivals[k]] == k && Queued(s.pc[s.arrivals[k]])
  }

  /** Thread `t` is queued at its ticket, and its node and program counter say so. */
  ghost predicate Local(s: State, t: nat)
    requires Shape(s) && t < |s.pc|
  {
    var k := s.ticket[t];
    && s.served <= k < |s.arrivals|
    && s.arrivals[k] == t
    && (if k + 1 == |s.arrivals| then s.tail == t && s.next[t] == NULL
        else
          var u := s.arrivals[k + 1];
          u < |s.pc| && s.next[t] == if Unlinked(s.pc[u]) then NULL else u)
    && (k > s.served ==> s.locked[t] && !Holds(s.pc[t]))
    && match s.pc[t]
       case Test(prev) => prev == if k == s.served then NULL else s.arrivals[k - 1]
       case Link(prev) => k > s.served && prev == s.arrivals[k - 1]
       case Spin => k == s.served ==> !s.locked[t]
       case AwaitNext => k + 1 < |s.arrivals|
       case ReloadNext => s.next[t] != NULL
       case Wake(succ) => s.next[t] == succ != NULL
       case _ => true
  }

  /** A node about to be queued has already been reset. */
  ghost predicate Prepared(s: State, t: nat)
    requires Shape(s) && t < |s.pc|
  {
    && (s.pc[t].SetLocked? || s.pc[t].Swap? ==> s.next[t] == NULL)
    && (s.pc[t].Swap? ==> s.locked[t])
  }

  ghost predicate Inv(s: State) {
    && Shape(s)
    && s.served <= |s.arrivals|
    && (s.served == |s.arrivals| ==> s.tail == NULL)
    && (forall k {:trigger At(s, k)} :: s.served <= k < |s.arrivals| ==> At(s, k))
    && (forall t {:trigger Local(s, t)} :: 0 <= t < |s.pc| && Queued(s.pc[t]) ==> Local(s, t))
    && (forall t {:trigger Prepared(s, t)} :: 0 <= t < |s.pc| ==> Prepared(s, t))
  }

  /** The neighbours of a queued thread, and the thread `tail` points to, are queued as well. */
  lemma Neighbours(s: State, t: nat)
    requires Inv(s) && t < |s.pc|
    ensures s.served < |s.arrivals| ==> At(s, |s.arrivals| - 1) && s.tail == s.arrivals[|s.arrivals| - 1]
    ensures Queued(s.pc[t]) ==> Local(s, t)
    ensures Queued(s.pc[t]) && s.ticket[t] + 1 < |s.arrivals| ==> At(s, s.ticket[t] + 1)
    ensures Queued(s.pc[t]) && s.served < s.ticket[t] ==>
              At(s, s.ticket[t] - 1) && Local(s, s.arrivals[s.ticket[t] - 1])
    ensures Prepared(s, t)
  {
    if s.served < |s.arrivals| {
      assert At(s, |s.arrivals| - 1) && Local(s, s.arrivals[|s.arrivals| - 1]);
    }
    if Queued(s.pc[t]) {
      assert Local(s, t);
      if s.ticket[t] + 1 < |s.arrivals| { assert At(s, s.ticket[t] + 1); }
      if s.served < s.ticket[t] { assert At(s, s.ticket[t] - 1); }
    }
  }

  lemma NextKeepsAt(s: State, t: nat, k: nat)
    requires Inv(s) && t < |s.pc|
    requires Next(s, t).served <= k < |Next(s, t).arrivals|
    ensures At(Next(s, t), k)
  {
    if k < |s.arrivals| { assert At(s, k); }
    Neighbours(s, t);
  }

  lemma NextKeepsOwn(s: State, t: nat)
    requires Inv(s) && t < |s.pc| && Queued(Next(s, t).pc[t])
    ensures Local(Next(s, t), t)
  {
    Neighbours(s, t);
  }

  lemma SwapKeepsOther(s: State, t: nat, u: nat)
    requires Inv(s) && t < |s.pc| && u < |s.pc| && u != t && Queued(s.pc[u])
    requires s.pc[t].Swap?
    ensures Local(Next(s, t), u)
  {
    Neighbours(s, t);
    Neighbours(s, u);
  }

  lemma LeaveKeepsOther(s: State, t: nat, u: nat)
    requires Inv(s) && t < |s.pc| && u < |s.pc| && u != t && Queued(s.pc[u])
    requires s.pc[t].Wake? || (s.pc[t].CasTail? && s.tail == t)
    ensures Local(Next(s, t), u)
  {
    Neighbours(s, t);
    Neighbours(s, u);
  }

  lemma LinkKeepsOther(s: State, t: nat, u: nat)
    requires Inv(s) && t < |s.pc| && u < |s.pc| && u != t && Queued(s.pc[u])
    requires s.pc[t].Link?
    ensures Local(Next(s, t), u)
  {
    Neighbours(s, t);
    Neighbours(s, u);
  }

  /** A thread queued before it reaches the front has not linked its predecessor in yet. */
  predicate Unlinked(p: PC) {
    p.Test? || p.Link?
  }

  lemma Frame(s: State, r: State, u: nat)
    requires Inv(s) && Shape(r) && |r.pc| == |s.pc| && u < |s.pc| && Queued(s.pc[u])
    requires r.served == s.served && r.arrivals == s.arrivals && r.tail == s.tail
    requires r.ticket[u] == s.ticket[u] && r.next[u] == s.next[u] && r.locked[u] == s.locked[u] && r.pc[u] == s.pc[u]
    requires forall v | 0 <= v < |s.pc| :: Unlinked(r.pc[v]) == Unlinked(s.pc[v])
    ensures Local(r, u)
  {
    assert Local(s, u);
  }

  lemma MoveKeepsOther(s: State, t: nat, u: nat)
    requires Inv(s) && t < |s.pc| && u < |s.pc| && u != t && Queued(s.pc[u])
    requires Label(s, t).Tau? && !s.pc[t].Link?
    ensures Local(Next(s, t), u)
  {
    Frame(s, Next(s, t), u);
  }

  lemma EnterKeepsOther(s: State, t: nat, u: nat)
    requires Inv(s) && t < |s.pc| && u < |s.pc| && u != t && Queued(s.pc[u])
    requires Label(s, t).Enter?
    ensures Local(Next(s, t), u)
  {
    Neighbours(s, t);
    Neighbours(s, u);
  }

  lemma NextKeepsOther(s: State, t: nat, u: nat)
    requires Inv(s) && t < |s.pc| && u < |s.pc| && u != t && Queued(s.pc[u])
    ensures Local(Next(s, t), u)
  {
    match Label(s, t)
    case Enqueue(_) => SwapKeepsOther(s, t, u);
    case Enter(_) => EnterKeepsOther(s, t, u);
    case Exit(_) => LeaveKeepsOther(s, t, u);
    case Tau => if s.pc[t].Link? { LinkKeepsOther(s, t, u); } else { MoveKeepsOther(s, t, u); }
  }

  lemma NextKeepsPrepared(s: State, t: nat, u: nat)
    requires Inv(s) && t < |s.pc| && u < |s.pc|
    ensures Prepared(Next(s, t), u)
  {
    Neighbours(s, t);
    Neighbours(s, u);
  }

  lemma NextKeepsInv(s: State, t: nat)
    requires Inv(s) && t < |s.pc|
    ensures Inv(Next(s, t))
  {
    var r := Next(s, t);
    Neighbours(s, t);
    forall k: nat | r.served <= k < |r.arrivals| ensures At(r, k) { NextKeepsAt(s, t, k); }
    forall u: nat | u < |r.pc| ensures Prepared(r, u) { NextKeepsPrepared(s, t, u); }
    forall u: nat | u < |r.pc| && Queued(r.pc[u]) ensures Local(r, u) {
      if u == t { NextKeepsOwn(s, t); } else { NextKeepsOther(s, t, u); }
    }
  }

  /** The abstract lock a state stands for. */
  function Abs(s: State): Lock {
    Lock(s.arrivals, s.served,
         s.served < |s.arrivals| && s.arrivals[s.served] < |s.pc| && Holds(s.pc[s.arrivals[s.served]]))
  }

  lemma OwnerIsFront(s: State, t: nat)
    requires Inv(s) && t < |s.pc| && Queued(s.pc[t])
    ensures s.served <= s.ticket[t] < |s.arrivals| && s.arrivals[s.ticket[t]] == t && At(s, s.served)
    ensures Abs(s).held <==> Holds(s.pc[s.arrivals[s.served]])
    ensures Holds(s.pc[t]) ==> s.ticket[t] == s.served
  {
    assert Local(s, t) && At(s, s.served);
  }

  lemma SwapRefines(s: State, t: nat)
    requires Inv(s) && t < |s.pc| && s.pc[t].Swap?
    ensures t !in Abs(s).Queue()
    ensures Abs(Next(s, t)) == Apply(Abs(s), Enqueue(t))
  {
    forall k: nat | s.served <= k < |s.arrivals| ensures s.arrivals[k] != t { assert At(s, k); }
    if s.served < |s.arrivals| { assert At(s, s.served); }
  }

  lemma LeaveRefines(s: State, t: nat)
    requires Inv(s) && t < |s.pc| && Label(s, t).Exit?
    ensures Allowed(Abs(s), Label(s, t))
    ensures Abs(Next(s, t)) == Apply(Abs(s), Label(s, t))
  {
    OwnerIsFront(s, t);
    if s.served + 1 < |s.arrivals| {
      assert At(s, s.served + 1);
      OwnerIsFront(s, s.arrivals[s.served + 1]);
    }
  }

  lemma FrontHolds(s: State)
    requires Inv(s)
    ensures Abs(s).Valid()
  {
  }

  /** Every atomic step is an enqueue, an entry, an exit or a stutter of the abstract lock. */
  lemma NextRefines(s: State, t: nat)
    requires Inv(s) && t < |s.pc|
    ensures Allowed(Abs(s), Label(s, t))
    ensures Abs(Next(s, t)) == Apply(Abs(s), Label(s, t))
  {
    if s.pc[t].Swap? {
      SwapRefines(s, t);
    } else if Label(s, t).Exit? {
      LeaveRefines(s, t);
    } else if Queued(s.pc[t]) {
      OwnerIsFront(s, t);
      assert Local(s, t);
    } else if s.served < |s.arrivals| {
      assert At(s, s.served);
    }
  }

  /** The states of all runs of `n` threads. */
  ghost function After(n: nat, sched: seq<nat>): State {
    Exec(Next, Init(n), sched)
  }

  /** Over every schedule of any number of threads, the lock behaves as the abstract FIFO lock. */
  lemma RunIsFair(n: nat, sched: seq<nat>)
    ensures Inv(After(n, sched)) && |After(n, sched).pc| == n
    ensures Legal(FREE, Events(Next, Label, Init(n), sched))
    ensures Run(FREE, Events(Next, Label, Init(n), sched)) == Abs(After(n, sched))
    ensures Fair(Events(Next, Label, Init(n), sched))
  {
    var inv := (s: State) => Inv(s) && |s.pc| == n;
    forall s, t: nat | inv(s)
      ensures inv(Next(s, t)) && Allowed(Abs(s), Label(s, t)) && Abs(Next(s, t)) == Apply(Abs(s), Label(s, t))
    {
      if t < n { NextKeepsInv(s, t); NextRefines(s, t); } else { FrontHolds(s); }
    }
    RunRefines(Next, Label, inv, Abs, Init(n), sched);
    FirstComeFirstServed(Events(Next, Label, Init(n), sched));
  }

  lemma MutualExclusion(n: nat, sched: seq<nat>, t: nat, u: nat)
    requires t < n && u < n && |After(n, sched).pc| == n
    requires Holds(After(n, sched).pc[t]) && Holds(After(n, sched).pc[u])
    ensures t == u
  {
    RunIsFair(n, sched);
    assert Local(After(n, sched), t) && Local(After(n, sched), u);
  }

  /**
   * `tail` is null exactly when no thread is queued, and a non-null `next` of a queued thread is
   * the next arrival, even while other links are still missing.
   */
  lemma LinksNameSuccessors(s: State)
    requires Inv(s)
    ensures s.tail == NULL <==> forall t: nat | t < |s.pc| :: !Queued(s.pc[t])
    ensures forall t: nat | t < |s.pc| && Queued(s.pc[t]) && s.next[t] != NULL ::
              s.ticket[t] + 1 < |s.arrivals| && s.next[t] == s.arrivals[s.ticket[t] + 1]
  {
    forall t: nat | t < |s.pc| && Queued(s.pc[t])
      ensures s.tail != NULL
      ensures s.next[t] != NULL ==>
                s.ticket[t] + 1 < |s.arrivals| && s.next[t] == s.arrivals[s.ticket[t] + 1]
    {
      Neighbours(s, t);
    }
    if s.served < |s.arrivals| { assert At(s, s.served); }
  }

  /** How far a thread is from finishing the call it is in. */
  function Rank(p: PC): nat {
    match p
    case Idle => 0
    case Wake(_) => 1
    case ReloadNext => 2
    case AwaitNext => 3
    case CasTail => 4
    case LoadNext => 5
    case Critical => 6
    case Spin => 7
    case Link(_) => 8
    case Test(_) => 9
    case Swap => 10
    case SetLocked => 11
    case ClearNext => 12
  }

  function Measure(s: State): nat {
    Total(Rank, s.pc)
  }

  /** A step of a thread inside `Acquire` or `Release` that is not a failed spin brings the lock closer to rest. */
  lemma MeasureFalls(s: State, t: nat)
    requires Shape(s) && t < |s.pc| && !s.pc[t].Idle? && Next(s, t) != s
    ensures Measure(Next(s, t)) < Measure(s)
  {
    var r := Next(s, t);
    assert r.pc == s.pc[t := r.pc[t]];
    TotalFalls(Rank, s.pc, t, r.pc[t]);
  }

  /** While any call is in progress, some thread in a call can take a step that is not a failed spin. */
  lemma NoDeadlock(s: State, u: nat) returns (t: nat)
    requires Inv(s) && u < |s.pc| && !s.pc[u].Idle?
    ensures t < |s.pc| && !s.pc[t].Idle? && Next(s, t) != s
  {
    t := u;
    if Queued(s.pc[u]) {
      Neighbours(s, u);
      assert At(s, s.served);
      t := s.arrivals[s.served];
      Neighbours(s, t);
      if s.pc[t].AwaitNext? && s.next[t] == NULL {
        t := s.arrivals[s.served + 1];
      }
    }
    assert Next(s, t).pc[t] != s.pc[t];
  }

  predicate Starts(s: State, t: nat) {
    t < |s.pc| && s.pc[t].Idle?
  }

  /**
   * After any run, let the calls in progress go on without new ones: only `Measure` many steps other
   * than failed spins are left, and where none is left every call has returned.
   */
  lemma CallsReturn(n: nat, sched: seq<nat>, more: seq<nat>)
    requires Productive(Next, Starts, After(n, sched), more)
    ensures var r := Exec(Next, After(n, sched), more);
            && |more| + Measure(r) <= Measure(After(n, sched))
            && ((forall t: nat | t < |r.pc| :: Starts(r, t) || Next(r, t) == r) ==>
                forall t: nat | t < |r.pc| :: r.pc[t].Idle?)
  {
    RunIsFair(n, sched);
    forall s, t: nat | Inv(s) ensures Inv(Next(s, t)) { if t < |s.pc| { NextKeepsInv(s, t); } }
    forall s, t: nat | Inv(s) && !Starts(s, t) && Next(s, t) != s ensures Measure(Next(s, t)) < Measure(s) {
      MeasureFalls(s, t);
    }
    ProductiveRunsEnd(Next, Starts, Inv, Measure, After(n, sched), more);
    var r := Exec(Next, After(n, sched), more);
    if u: nat :| u < |r.pc| && !r.pc[u].Idle? {
      var t := NoDeadlock(r, u);
    }
  }

  /** The lock object: the shared word, the nodes of all threads and where each thread is. */
  class McsLock {
    var tail: int
    var next: seq<int>
    var locked: seq<bool>
    var pc: seq<PC>
    ghost var arrivals: seq<nat>
    ghost var served: nat
    ghost var ticket: seq<nat>

    ghost function Snapshot(): State
      reads this
    {
      State(tail, next, locked, pc, arrivals, served, ticket)
    }

    ghost predicate Valid()
      reads this
    {
      Inv(Snapshot())
    }

    constructor (n: nat)
      ensures Valid() && Snapshot() == Init(n)
    {
      tail := NULL;
      next, locked, pc := seq(n, i => NULL), seq(n, i => true), seq(n, i => Idle);
      arrivals, served, ticket := [], 0, seq(n, i => 0);
    }

    /** One step of `Acquire` by thread `t`. */
    method AcquireStep(t: nat)
      requires Valid() && t < |pc|
      requires Rank(pc[t]) == 0 || Rank(pc[t]) > Rank(Critical)
      modifies this
      ensures Valid() && Snapshot() == Next(old(Snapshot()), t)
    {
      NextKeepsInv(Snapshot(), t);
      match pc[t] {
        case Idle => pc := pc[t := ClearNext];
        case ClearNext => next := next[t := NULL]; pc := pc[t := SetLocked];
        case SetLocked => locked := locked[t := true]; pc := pc[t := Swap];
        case Swap =>
          var prev := tail;
          tail := t;
          ticket, arrivals := ticket[t := |arrivals|], arrivals + [t];
          pc := pc[t := Test(prev)];
        case Test(prev) =>
          pc := pc[t := if prev != NULL then Link(prev) else Critical];
        case Link(prev) =>
          Neighbours(Snapshot(), t);
          next := next[prev := t];
          pc := pc[t := Spin];
        case Spin =>
          if !locked[t] {
            pc := pc[t := Critical];
          }
      }
    }

    /** One step of `Release` by thread `t`. */
    method ReleaseStep(t: nat)
      requires Valid() && t < |pc|
      requires 0 < Rank(pc[t]) <= Rank(Critical)
      modifies this
      ensures Valid() && Snapshot() == Next(old(Snapshot()), t)
    {
      NextKeepsInv(Snapshot(), t);
      match pc[t] {
        case Critical => pc := pc[t := LoadNext];
        case LoadNext => pc := pc[t := if next[t] != NULL then ReloadNext else CasTail];
        case CasTail =>
          if tail == t {
            tail := NULL;
            served := served + 1;
            pc := pc[t := Idle];
          } else {
            pc := pc[t := AwaitNext];
          }
        case AwaitNext =>
          if next[t] != NULL {
            pc := pc[t := ReloadNext];
          }
        case ReloadNext => pc := pc[t := Wake(next[t])];
        case Wake(succ) =>
          Neighbours(Snapshot(), t);
          locked := locked[succ := false];
          served := served + 1;
          pc := pc[t := Idle];
      }
    }
  }
}
