/**
 * The CLH queue lock, src/clh.h: a thread spins on its predecessor's node and takes that node over on release. The
 * two node pointers of a thread serve all locks, which it uses one after the other.
 */
module Clh {
  import opened FifoLock
  import opened Runs
  import opened Sums

  /** Where a thread is; one constructor per atomic access, `lk` is the lock of the call. */
  datatype PC =
    | Idle
    // Acquire
    | SetLocked(lk: nat)
    | Swap(lk: nat)
    | Spin(lk: nat)
    // Release
    | Critical(lk: nat)
    | Unlock(lk: nat)
    | Exchange

  /**
   * `locked` has one entry per node: as many nodes as threads and locks. `tail` is per lock, `my` and `pred` are
   * thread-local. The rest is history: who exchanged on each lock's tail, how many of those have left, and each
   * thread's last arrival number.
   */
  datatype State = State(
    locked: seq<bool>, tail: seq<int>, my: seq<int>, pred: seq<int>, pc: seq<PC>,
    arrivals: seq<seq<nat>>, served: seq<nat>, ticket: seq<nat>)
  {
    function Goto(t: nat, p: PC): State
      requires t < |pc|
    {
      this.(pc := pc[t := p])
    }
  }

  /** The scheduler picks the thread and, if it is idle, the lock that it acquires. */
  datatype Choice = Choice(t: nat, lk: nat)

  /** Thread `t` starts with node `t`, lock `lk` with node `n + lk`. */
  function Init(n: nat, m: nat): State {
    State(seq(n + m, i => false), seq(m, i => n + i), seq(n, i => i), seq(n, i => NULL), seq(n, i => Idle),
          seq(m, i => []), seq(m, i => 0), seq(n, i => 0))
  }

  predicate Shape(s: State) {
    && |s.my| == |s.pred| == |s.ticket| == |s.pc|
    && |s.tail| == |s.arrivals| == |s.served| && |s.locked| == |s.pc| + |s.tail|
  }

  predicate Known(s: State, p: PC) {
    p.Idle? || p.Exchange? || p.lk < |s.tail|
  }

  predicate Get(cells: seq<bool>, p: int) {
    0 <= p < |cells| && cells[p]
  }

  /** One atomic step; a failed spin leaves the state as it was. */
  function Next(s: State, c: Choice): State {
    if !Shape(s) || c.t >= |s.pc| || !Known(s, s.pc[c.t]) then s else
    var t := c.t;
    match s.pc[t]
    case Idle => if c.lk < |s.tail| then s.Goto(t, SetLocked(c.lk)) else s
    case SetLocked(lk) => s.(locked := Put(s.locked, s.my[t], true)).Goto(t, Swap(lk))
    case Swap(lk) =>
      s.(pred := s.pred[t := s.tail[lk]], tail := s.tail[lk := s.my[t]],
         arrivals := s.arrivals[lk := s.arrivals[lk] + [t]], ticket := s.ticket[t := |s.arrivals[lk]|])
       .Goto(t, Spin(lk))
    case Spin(lk) => if Get(s.locked, s.pred[t]) then s else s.Goto(t, Critical(lk))
    case Critical(lk) => s.Goto(t, Unlock(lk))
    case Unlock(lk) =>
      s.(locked := Put(s.locked, s.my[t], false), served := s.served[lk := s.served[lk] + 1]).Goto(t, Exchange)
    case Exchange => s.(my := s.my[t := s.pred[t]], pred := s.pred[t := s.my[t]]).Goto(t, Idle)
  }

  /** What the step means for lock `lk`. */
  function Label(s: State, c: Choice, lk: nat): Event {
    if !Shape(s) || c.t >= |s.pc| || !Known(s, s.pc[c.t]) || !On(s.pc[c.t], lk) then Tau else
    match s.pc[c.t]
    case Swap(_) => Enqueue(c.t)
    case Spin(_) => if Get(s.locked, s.pred[c.t]) then Tau else Enter(c.t)
    case Unlock(_) => Exit(c.t)
    case _ => Tau
  }

  predicate On(p: PC, lk: nat) {
    !p.Idle? && !p.Exchange? && p.lk == lk
  }

  predicate Queued(p: PC) {
    p.Spin? || Holds(p)
  }

  predicate Holds(p: PC) {
    p.Critical? || p.Unlock?
  }

  /** The node only thread `t` may use next: its own, or its predecessor's from the exchange on `tail` on. */
  function Own(s: State, t: nat): int
    requires Shape(s) && t < |s.pc|
  {
    if Queued(s.pc[t]) || s.pc[t].Exchange? then s.pred[t] else s.my[t]
  }

  /** The nodes of all threads, then those of the locks. */
  function Owners(s: State): (r: seq<int>)
    requires Shape(s)
    ensures |r| == |s.locked|
    ensures forall t | 0 <= t < |s.pc| :: r[t] == Own(s, t)
    ensures forall lk | 0 <= lk < |s.tail| :: r[|s.pc| + lk] == s.tail[lk]
  {
    seq(|s.pc|, i requires 0 <= i < |s.pc| => Own(s, i)) + s.tail
  }

  lemma OwnAfter(s: State, c: Choice, u: nat)
    requires Shape(s) && c.t < |s.pc| && Known(s, s.pc[c.t]) && u < |s.pc|
    ensures var r := Next(s, c);
            && Shape(r) && |r.pc| == |s.pc| && |r.tail| == |s.tail|
            && Own(r, u) == (if u == c.t && s.pc[u].Swap? then s.tail[s.pc[u].lk] else Own(s, u))
            && r.tail == if s.pc[c.t].Swap? then s.tail[s.pc[c.t].lk := Own(s, c.t)] else s.tail
  {
  }

  /**
   * A step leaves every node where it is, but for the exchange, where the thread's node and the lock's
   * change places.
   */
  lemma NodesChangePlaces(s: State, c: Choice)
    requires Shape(s) && c.t < |s.pc| && Known(s, s.pc[c.t])
    ensures Shape(Next(s, c)) && |Next(s, c).pc| == |s.pc|
    ensures Owners(Next(s, c)) ==
              if s.pc[c.t].Swap? then Swapped(Owners(s), c.t, |s.pc| + s.pc[c.t].lk) else Owners(s)
  {
    hide Next, Own, Owners;
    var r := Next(s, c);
    OwnAfter(s, c, c.t);
    var o := if s.pc[c.t].Swap? then Swapped(Owners(s), c.t, |s.pc| + s.pc[c.t].lk) else Owners(s);
    forall i: nat | i < |s.locked| ensures Owners(r)[i] == o[i] {
      if i < |s.pc| { OwnAfter(s, c, i); } else { assert Owners(r)[|s.pc| + (i - |s.pc|)] == r.tail[i - |s.pc|]; }
    }
  }

  function Swapped<T>(xs: seq<T>, i: nat, j: nat): seq<T>
    requires i < |xs| && j < |xs|
  {
    xs[i := xs[j]][j := xs[i]]
  }

  lemma SwappedConserves<T>(xs: seq<T>, i: nat, j: nat)
    requires i < |xs| && j < |xs|
    ensures multiset(Swapped(xs, i, j)) == multiset(xs)
  {
  }

  lemma NodesConserved(s: State, c: Choice)
    requires Shape(s)
    ensures Shape(Next(s, c)) && |Next(s, c).pc| == |s.pc| && |Next(s, c).tail| == |s.tail|
    ensures multiset(Owners(Next(s, c))) == multiset(Owners(s))
  {
    if c.t < |s.pc| && Known(s, s.pc[c.t]) {
      hide Next, Owners;
      NodesChangePlaces(s, c);
      OwnAfter(s, c, c.t);
      if s.pc[c.t].Swap? { SwappedConserves(Owners(s), c.t, |s.pc| + s.pc[c.t].lk); }
    }
  }

  /** No two of the threads and the locks own the same node. */
  ghost predicate Disjoint(s: State)
    requires Shape(s)
  {
    && (forall lk: nat | lk < |s.tail| :: 0 <= s.tail[lk] < |s.locked|)
    && (forall lk: nat, k: nat | lk < k < |s.tail| :: s.tail[lk] != s.tail[k])
    && (forall t: nat | t < |s.pc| :: 0 <= Own(s, t) < |s.locked|)
    && (forall t: nat, lk: nat | t < |s.pc| && lk < |s.tail| :: Own(s, t) != s.tail[lk])
    && (forall t: nat, u: nat | t < u < |s.pc| :: Own(s, t) != Own(s, u))
  }

  ghost predicate At(s: State, lk: nat, k: nat)
    requires Shape(s) && lk < |s.tail|
  {
    && k < |s.arrivals[lk]|
    && var t := s.arrivals[lk][k];
       t < |s.pc| && s.ticket[t] == k && Queued(s.pc[t]) && s.pc[t].lk == lk
  }

  /** Thread `t` is queued at its ticket; its node is locked and is what the next thread spins on. */
  ghost predicate Local(s: State, t: nat)
    requires Shape(s) && t < |s.pc| && Queued(s.pc[t])
  {
    var lk, k := s.pc[t].lk, s.ticket[t];
    && lk < |s.tail| && s.served[lk] <= k < |s.arrivals[lk]| && s.arrivals[lk][k] == t
    && s.my[t] == (if k + 1 == |s.arrivals[lk]| then s.tail[lk]
                   else if s.arrivals[lk][k + 1] < |s.pc| then s.pred[s.arrivals[lk][k + 1]] else NULL)
    && Get(s.locked, s.my[t]) && Get(s.locked, s.pred[t]) == (k > s.served[lk])
    && (k > s.served[lk] ==> s.pc[t].Spin?)
  }

  /** A lock that nobody is queued for has an unlocked node. */
  ghost predicate LockAt(s: State, lk: nat)
    requires Shape(s) && lk < |s.tail|
  {
    s.served[lk] <= |s.arrivals[lk]| && (s.served[lk] == |s.arrivals[lk]| ==> !Get(s.locked, s.tail[lk]))
  }

  /** Thread `t`'s lock exists, and a node about to be queued is locked. */
  ghost predicate Prepared(s: State, t: nat)
    requires Shape(s) && t < |s.pc|
  {
    Known(s, s.pc[t]) && (s.pc[t].Swap? ==> Get(s.locked, s.my[t]))
  }

  ghost predicate Inv(s: State) {
    && Shape(s) && Disjoint(s)
    && (forall lk {:trigger LockAt(s, lk)} :: 0 <= lk < |s.tail| ==> LockAt(s, lk))
    && (forall lk, k {:trigger At(s, lk, k)} ::
          0 <= lk < |s.tail| && s.served[lk] <= k < |s.arrivals[lk]| ==> At(s, lk, k))
    && (forall t {:trigger Local(s, t)} :: 0 <= t < |s.pc| && Queued(s.pc[t]) ==> Local(s, t))
    && (forall t {:trigger Prepared(s, t)} :: 0 <= t < |s.pc| ==> Prepared(s, t))
  }

  lemma NextKeepsDisjoint(s: State, c: Choice)
    requires Shape(s) && Disjoint(s) && c.t < |s.pc| && Known(s, s.pc[c.t])
    ensures Shape(Next(s, c)) && |Next(s, c).pc| == |s.pc| && Disjoint(Next(s, c))
  {
    hide Next, Own;
    var r := Next(s, c);
    OwnAfter(s, c, c.t);
    forall u: nat | u < |s.pc|
      ensures Own(r, u) == if u == c.t && s.pc[u].Swap? then s.tail[s.pc[u].lk] else Own(s, u)
    {
      OwnAfter(s, c, u);
    }
  }

  /** A queued thread's node is the lock's, or its successor's to take over. */
  lemma MyNode(s: State, t: nat)
    requires Inv(s) && t < |s.pc| && Queued(s.pc[t])
    ensures Local(s, t) && s.pred[t] == Own(s, t)
    ensures var lk, k := s.pc[t].lk, s.ticket[t];
            && s.my[t] == (if k + 1 == |s.arrivals[lk]| then s.tail[lk]
                           else if s.arrivals[lk][k + 1] < |s.pc| then Own(s, s.arrivals[lk][k + 1]) else NULL)
            && (k + 1 < |s.arrivals[lk]| ==> At(s, lk, k + 1))
            && (s.served[lk] < k ==> At(s, lk, k - 1))
  {
    assert Local(s, t);
    var lk, k := s.pc[t].lk, s.ticket[t];
    if k + 1 < |s.arrivals[lk]| { assert At(s, lk, k + 1); }
    if s.served[lk] < k { assert At(s, lk, k - 1); }
  }

  /** The nodes of two queued threads differ, and are neither those nor the predecessors' of unqueued threads. */
  lemma NodesApart(s: State, t: nat, u: nat)
    requires Inv(s) && t < |s.pc| && u < |s.pc| && t != u && Queued(s.pc[u])
    ensures Queued(s.pc[t]) ==> s.my[t] != s.my[u]
    ensures Queued(s.pc[t]) && (s.pc[u].lk != s.pc[t].lk || s.ticket[u] != s.ticket[t] + 1) ==> s.my[t] != s.pred[u]
    ensures !Queued(s.pc[t]) ==> Own(s, t) != s.my[u] && Own(s, t) != s.pred[u]
  {
    MyNode(s, u);
    if Queued(s.pc[t]) { MyNode(s, t); }
  }

  lemma StoreKeepsLocal(s: State, c: Choice, u: nat)
    requires Inv(s) && c.t < |s.pc| && u < |s.pc| && u != c.t && Queued(s.pc[u])
    requires s.pc[c.t].SetLocked? || s.pc[c.t].Unlock?
    ensures Local(Next(s, c), u)
  {
    NodesApart(s, c.t, u);
    MyNode(s, u);
    assert Prepared(s, c.t);
    if s.pc[c.t].Unlock? { MyNode(s, c.t); }
  }

  /** The last thread queued for lock `lk`. */
  lemma LastQueued(s: State, lk: nat)
    requires Inv(s) && lk < |s.tail| && s.served[lk] < |s.arrivals[lk]|
    ensures At(s, lk, |s.arrivals[lk]| - 1) && Local(s, s.arrivals[lk][|s.arrivals[lk]| - 1])
  {
    assert At(s, lk, |s.arrivals[lk]| - 1);
    assert Local(s, s.arrivals[lk][|s.arrivals[lk]| - 1]);
  }

  lemma SwapKeepsLocal(s: State, c: Choice, u: nat)
    requires Inv(s) && c.t < |s.pc| && u < |s.pc| && s.pc[c.t].Swap? && Queued(Next(s, c).pc[u])
    ensures Local(Next(s, c), u)
  {
    assert Prepared(s, c.t);
    var lk := s.pc[c.t].lk;
    assert LockAt(s, lk);
    if s.served[lk] < |s.arrivals[lk]| { LastQueued(s, lk); }
    if u != c.t { MyNode(s, u); }
  }

  lemma MoveKeepsLocal(s: State, c: Choice, u: nat)
    requires Inv(s) && c.t < |s.pc| && u < |s.pc| && Queued(Next(s, c).pc[u])
    requires !s.pc[c.t].SetLocked? && !s.pc[c.t].Unlock? && !s.pc[c.t].Swap?
    ensures Local(Next(s, c), u)
  {
    assert Prepared(s, c.t);
    MyNode(s, u);
    if u != c.t { assert Next(s, c).pc[u] == s.pc[u]; }
  }

  lemma NextKeepsAt(s: State, c: Choice, lk: nat, k: nat)
    requires Inv(s) && c.t < |s.pc| && lk < |s.tail|
    requires Shape(Next(s, c)) && |Next(s, c).pc| == |s.pc| && |Next(s, c).tail| == |s.tail|
    requires Next(s, c).served[lk] <= k < |Next(s, c).arrivals[lk]|
    ensures At(Next(s, c), lk, k)
  {
    assert Prepared(s, c.t);
    if Queued(s.pc[c.t]) { assert Local(s, c.t); }
    if k < |s.arrivals[lk]| { assert At(s, lk, k); }
  }

  lemma NextKeepsPrepared(s: State, c: Choice, u: nat)
    requires Inv(s) && c.t < |s.pc| && u < |s.pc|
    requires Shape(Next(s, c)) && |Next(s, c).pc| == |s.pc|
    ensures Prepared(Next(s, c), u)
  {
    assert Prepared(s, c.t) && Prepared(s, u);
    assert s.pc[u].Swap? ==> s.my[u] == Own(s, u);
    assert s.pc[c.t].SetLocked? ==> s.my[c.t] == Own(s, c.t);
    if s.pc[c.t].Unlock? { MyNode(s, c.t); }
  }

  lemma NextKeepsLockAt(s: State, c: Choice, lk: nat)
    requires Inv(s) && c.t < |s.pc| && lk < |s.tail|
    requires Shape(Next(s, c)) && |Next(s, c).tail| == |s.tail|
    ensures LockAt(Next(s, c), lk)
  {
    assert Prepared(s, c.t) && LockAt(s, lk);
    if Queued(s.pc[c.t]) { MyNode(s, c.t); }
    assert s.pc[c.t].SetLocked? ==> s.my[c.t] == Own(s, c.t);
  }

  lemma NextKeepsLocal(s: State, c: Choice, u: nat)
    requires Inv(s) && c.t < |s.pc| && u < |s.pc|
    requires Shape(Next(s, c)) && |Next(s, c).pc| == |s.pc| && Queued(Next(s, c).pc[u])
    ensures Local(Next(s, c), u)
  {
    assert Prepared(s, c.t);
    if s.pc[c.t].Swap? { SwapKeepsLocal(s, c, u); }
    else if s.pc[c.t].SetLocked? || s.pc[c.t].Unlock? { StoreKeepsLocal(s, c, u); }
    else { MoveKeepsLocal(s, c, u); }
  }

  /** Every atomic step, on whatever locks, keeps the invariant. */
  lemma NextKeepsInv(s: State, c: Choice)
    requires Inv(s)
    ensures Inv(Next(s, c)) && |Next(s, c).pc| == |s.pc| && |Next(s, c).tail| == |s.tail|
  {
    if c.t < |s.pc| {
      hide Next;
      var r := Next(s, c);
      assert Prepared(s, c.t);
      NextKeepsDisjoint(s, c);
      OwnAfter(s, c, c.t);
      forall lk: nat | lk < |r.tail| ensures LockAt(r, lk) { NextKeepsLockAt(s, c, lk); }
      forall lk: nat, k: nat | lk < |r.tail| && r.served[lk] <= k < |r.arrivals[lk]| ensures At(r, lk, k) {
        NextKeepsAt(s, c, lk, k);
      }
      forall u: nat | u < |r.pc| && Queued(r.pc[u]) ensures Local(r, u) { NextKeepsLocal(s, c, u); }
      forall u: nat | u < |r.pc| ensures Prepared(r, u) { NextKeepsPrepared(s, c, u); }
    }
  }

  /** The abstract lock that the state holds for lock `lk`. */
  function Abs(s: State, lk: nat): Lock {
    if !Shape(s) || lk >= |s.tail| then FREE
    else
      Lock(s.arrivals[lk], s.served[lk],
           s.served[lk] < |s.arrivals[lk]| && s.arrivals[lk][s.served[lk]] < |s.pc|
           && Holds(s.pc[s.arrivals[lk][s.served[lk]]]))
  }

  lemma OwnerIsFront(s: State, t: nat)
    requires Inv(s) && t < |s.pc| && Queued(s.pc[t])
    ensures var lk, k := s.pc[t].lk, s.ticket[t];
            && lk < |s.tail| && s.served[lk] <= k < |s.arrivals[lk]| && s.arrivals[lk][k] == t
            && At(s, lk, s.served[lk])
            && (Abs(s, lk).held <==> Holds(s.pc[s.arrivals[lk][s.served[lk]]]))
            && (Holds(s.pc[t]) ==> k == s.served[lk])
            && (Get(s.locked, s.pred[t]) <==> k > s.served[lk])
  {
    assert Local(s, t) && At(s, s.pc[t].lk, s.served[s.pc[t].lk]);
  }

  lemma QueuedRefines(s: State, c: Choice, lk: nat)
    requires Inv(s) && lk < |s.tail| && c.t < |s.pc| && Queued(s.pc[c.t]) && s.pc[c.t].lk == lk
    ensures Allowed(Abs(s, lk), Label(s, c, lk))
    ensures Abs(Next(s, c), lk) == Apply(Abs(s, lk), Label(s, c, lk))
  {
    OwnerIsFront(s, c.t);
    if s.pc[c.t].Unlock? && s.served[lk] + 1 < |s.arrivals[lk]| {
      assert At(s, lk, s.served[lk] + 1);
      OwnerIsFront(s, s.arrivals[lk][s.served[lk] + 1]);
    }
  }

  lemma SwapRefines(s: State, c: Choice, lk: nat)
    requires Inv(s) && lk < |s.tail| && c.t < |s.pc| && s.pc[c.t] == Swap(lk)
    ensures Allowed(Abs(s, lk), Label(s, c, lk))
    ensures Abs(Next(s, c), lk) == Apply(Abs(s, lk), Label(s, c, lk))
  {
    assert LockAt(s, lk);
    if s.served[lk] < |s.arrivals[lk]| { assert At(s, lk, s.served[lk]); }
    forall k: nat | s.served[lk] <= k < |s.arrivals[lk]| ensures s.arrivals[lk][k] != c.t { assert At(s, lk, k); }
  }

  /** For each lock, every atomic step is an enqueue, an entry, an exit or a stutter of its abstract lock. */
  lemma NextRefines(s: State, c: Choice, lk: nat)
    requires Inv(s)
    ensures Allowed(Abs(s, lk), Label(s, c, lk))
    ensures Abs(Next(s, c), lk) == Apply(Abs(s, lk), Label(s, c, lk))
  {
    if lk < |s.tail| {
      assert LockAt(s, lk);
      if c.t < |s.pc| && Queued(s.pc[c.t]) && s.pc[c.t].lk == lk {
        QueuedRefines(s, c, lk);
      } else if c.t < |s.pc| && s.pc[c.t] == Swap(lk) {
        SwapRefines(s, c, lk);
      } else {
        if c.t < |s.pc| { assert Prepared(s, c.t); }
        if s.served[lk] < |s.arrivals[lk]| { assert At(s, lk, s.served[lk]); }
      }
    }
  }

  /** The states of all runs of `n` threads over `m` locks. */
  ghost function After(n: nat, m: nat, sched: seq<Choice>): State {
    Exec(Next, Init(n, m), sched)
  }

  /** Over every schedule of any number of threads and locks, each lock behaves as the abstract FIFO lock. */
  lemma RunIsFair(n: nat, m: nat, sched: seq<Choice>, lk: nat)
    ensures Inv(After(n, m, sched)) && |After(n, m, sched).pc| == n && |After(n, m, sched).tail| == m
    ensures var observe := (s: State, c: Choice) => Label(s, c, lk);
            var es := Events(Next, observe, Init(n, m), sched);
            Legal(FREE, es) && Run(FREE, es) == Abs(After(n, m, sched), lk) && Fair(es)
  {
    var inv := (s: State) => Inv(s) && |s.pc| == n && |s.tail| == m;
    var observe := (s: State, c: Choice) => Label(s, c, lk);
    var abs := (s: State) => Abs(s, lk);
    forall s, c: Choice | inv(s)
      ensures inv(Next(s, c)) && Allowed(abs(s), observe(s, c)) && abs(Next(s, c)) == Apply(abs(s), observe(s, c))
    {
      NextKeepsInv(s, c);
      NextRefines(s, c, lk);
    }
    InvAtFirst(n, m);
    RunRefines(Next, observe, inv, abs, Init(n, m), sched);
    FirstComeFirstServed(Events(Next, observe, Init(n, m), sched));
  }

  lemma InvAtFirst(n: nat, m: nat)
    ensures Inv(Init(n, m))
  {
  }

  lemma MutualExclusion(n: nat, m: nat, sched: seq<Choice>, t: nat, u: nat)
    requires t < n && u < n && |After(n, m, sched).pc| == n
    requires Holds(After(n, m, sched).pc[t]) && Holds(After(n, m, sched).pc[u])
    requires After(n, m, sched).pc[t].lk == After(n, m, sched).pc[u].lk
    ensures t == u
  {
    RunIsFair(n, m, sched, 0);
    OwnerIsFront(After(n, m, sched), t);
    OwnerIsFront(After(n, m, sched), u);
  }

  /**
   * Over any run the nodes wander from thread to thread and from lock to lock, but each of the `n + m` has exactly
   * one owner at any time.
   */
  lemma {:induction false} NodesStayPartition(n: nat, m: nat, sched: seq<Choice>)
    ensures var s := After(n, m, sched); Shape(s) && |s.pc| == n && |s.tail| == m
    ensures multiset(Owners(After(n, m, sched))) == multiset(seq(n + m, i => i))
  {
    if sched == [] {
      assert Owners(Init(n, m)) == seq(n + m, i => i);
    } else {
      NodesStayPartition(n, m, sched[..|sched| - 1]);
      NodesConserved(After(n, m, sched[..|sched| - 1]), sched[|sched| - 1]);
    }
  }

  /** How far a thread is from finishing the call it is in. */
  function Rank(p: PC): nat {
    match p
    case Idle => 0
    case Exchange => 1
    case Unlock(_) => 2
    case Critical(_) => 3
    case Spin(_) => 4
    case Swap(_) => 5
    case SetLocked(_) => 6
  }

  function Measure(s: State): nat {
    Total(Rank, s.pc)
  }

  predicate Starts(s: State, c: Choice) {
    c.t < |s.pc| && s.pc[c.t].Idle?
  }

  /** An `Acquire` of lock `lk` makes its exchange on that lock's tail. */
  lemma AcquireBegins(s: State, t: nat, lk: nat)
    requires Shape(s) && t < |s.pc| && s.pc[t].Idle? && lk < |s.tail|
    ensures var c := Choice(t, lk);
            var r := Next(Next(s, c), c);
            && Next(s, c).pc[t] == SetLocked(lk) && r.pc[t] == Swap(lk) && Label(r, c, lk) == Enqueue(t)
            && Next(r, c).tail == s.tail[lk := s.my[t]] && Next(r, c).arrivals[lk] == s.arrivals[lk] + [t]
  {
  }

  /** A step of a thread inside a call that is not a failed spin brings the locks closer to rest. */
  lemma MeasureFalls(s: State, c: Choice)
    requires Shape(s) && !Starts(s, c) && Next(s, c) != s
    ensures Measure(Next(s, c)) < Measure(s)
  {
    var r := Next(s, c);
    assert r.pc == s.pc[c.t := r.pc[c.t]];
    TotalFalls(Rank, s.pc, c.t, r.pc[c.t]);
  }

  /** While any call is in progress, some thread in a call can take a step that is not a failed spin. */
  lemma NoDeadlock(s: State, u: nat) returns (c: Choice)
    requires Inv(s) && u < |s.pc| && !s.pc[u].Idle?
    ensures c.t < |s.pc| && !Starts(s, c) && Next(s, c) != s
  {
    c := Choice(u, 0);
    if Queued(s.pc[u]) {
      OwnerIsFront(s, u);
      c := Choice(s.arrivals[s.pc[u].lk][s.served[s.pc[u].lk]], 0);
      OwnerIsFront(s, c.t);
    }
    assert Prepared(s, c.t);
    assert Next(s, c).pc[c.t] != s.pc[c.t];
  }

  /**
   * After any run, let the calls in progress go on without new ones: only `Measure` many steps other
   * than failed spins are left, and where none is left every call has returned.
   */
  lemma CallsReturn(n: nat, m: nat, sched: seq<Choice>, more: seq<Choice>)
    requires Productive(Next, Starts, After(n, m, sched), more)
    ensures var r := Exec(Next, After(n, m, sched), more);
            && |more| + Measure(r) <= Measure(After(n, m, sched))
            && ((forall c: Choice | c.t < |r.pc| :: Starts(r, c) || Next(r, c) == r) ==>
                  forall t: nat | t < |r.pc| :: r.pc[t].Idle?)
  {
    RunIsFair(n, m, sched, 0);
    forall s, c: Choice | Inv(s) ensures Inv(Next(s, c)) { NextKeepsInv(s, c); }
    forall s, c: Choice | Inv(s) && !Starts(s, c) && Next(s, c) != s ensures Measure(Next(s, c)) < Measure(s) {
      MeasureFalls(s, c);
    }
    ProductiveRunsEnd(Next, Starts, Inv, Measure, After(n, m, sched), more);
    var r := Exec(Next, After(n, m, sched), more);
    if u: nat :| u < |r.pc| && !r.pc[u].Idle? {
      var c := NoDeadlock(r, u);
    }
  }

  /** The nodes thread `t` is about to use and the lock of its call exist. */
  predicate Safe(s: State, t: nat)
    requires Shape(s) && t < |s.pc|
  {
    && Known(s, s.pc[t])
    && (s.pc[t].SetLocked? || s.pc[t].Unlock? ==> 0 <= s.my[t] < |s.locked|)
    && (s.pc[t].Spin? ==> 0 <= s.pred[t] < |s.locked|)
  }

  lemma NodesExist(s: State, t: nat)
    requires Inv(s) && t < |s.pc|
    ensures Safe(s, t)
  {
    assert Prepared(s, t) && 0 <= Own(s, t) < |s.locked|;
    if Queued(s.pc[t]) { MyNode(s, t); }
  }

  /** The lock objects, the nodes of threads and locks, and the two thread-local pointers of each thread. */
  class ClhLocks {
    var locked: seq<bool>
    var tail: seq<int>
    var my: seq<int>
    var pred: seq<int>
    var pc: seq<PC>
    ghost var arrivals: seq<seq<nat>>
    ghost var served: seq<nat>
    ghost var ticket: seq<nat>

    ghost function Snapshot(): State
      reads this
    {
      State(locked, tail, my, pred, pc, arrivals, served, ticket)
    }

    ghost predicate Valid()
      reads this
    {
      Inv(Snapshot())
    }

    constructor (n: nat, m: nat)
      ensures Valid() && Snapshot() == Init(n, m)
    {
      locked, tail := seq(n + m, i => false), seq(m, i => n + i);
      my, pred, pc := seq(n, i => i), seq(n, i => NULL), seq(n, i => Idle);
      arrivals, served, ticket := seq(m, i => []), seq(m, i => 0), seq(n, i => 0);
      new;
      InvAtFirst(n, m);
      hide Inv;
    }

    /** One step of `Acquire` on lock `lk` by thread `t`. */
    method AcquireStep(t: nat, lk: nat)
      requires Valid() && t < |pc| && lk < |tail| && (pc[t].Idle? || (On(pc[t], lk) && !Holds(pc[t])))
      modifies this
      ensures Valid() && Snapshot() == Next(old(Snapshot()), Choice(t, lk))
    {
      NodesExist(Snapshot(), t);
      NextKeepsInv(Snapshot(), Choice(t, lk));
      assert Shape(Snapshot());
      hide Inv;
      match pc[t] {
        case Idle => pc := pc[t := SetLocked(lk)];
        case SetLocked(_) =>
          locked := locked[my[t] := true];
          pc := pc[t := Swap(lk)];
        case Swap(_) =>
          var last := tail[lk];
          tail := tail[lk := my[t]];
          pred := pred[t := last];
          ticket, arrivals := ticket[t := |arrivals[lk]|], arrivals[lk := arrivals[lk] + [t]];
          pc := pc[t := Spin(lk)];
        case Spin(_) =>
          if !locked[pred[t]] {
            pc := pc[t := Critical(lk)];
          }
      }
    }

    /** One step of `Release` by thread `t`; the choice of a lock plays no role. */
    method ReleaseStep(t: nat, ghost c: Choice)
      requires Valid() && t < |pc| && (Holds(pc[t]) || pc[t].Exchange?) && c.t == t
      modifies this
      ensures Valid() && Snapshot() == Next(old(Snapshot()), c)
    {
      NodesExist(Snapshot(), t);
      NextKeepsInv(Snapshot(), c);
      assert Shape(Snapshot());
      hide Inv;
      match pc[t] {
        case Critical(lk) => pc := pc[t := Unlock(lk)];
        case Unlock(lk) =>
          locked := locked[my[t] := false];
          served := served[lk := served[lk] + 1];
          pc := pc[t := Exchange];
        case Exchange =>
          var node := my[t];
          my := my[t := pred[t]];
          pred := pred[t := node];
          pc := pc[t := Idle];
      }
    }
  }
}
