/**
 * The K42 variant of the MCS lock, src/k42.h: the lock's own head is a queue node, other nodes are
 * allocated and deleted.
 */
module K42 {
  import opened FifoLock
  import opened Runs
  import opened Sums

  /** The address of the lock's own node; the nodes that `Acquire` allocates have positive addresses. */
  const HEAD := 0

  /** A live queue node. */
  datatype Cell = Cell(next: int, locked: bool)

  /** Where a thread is; one constructor per atomic access, carrying the live locals (`node` is the thread's node). */
  datatype PC =
    | Idle
    // Acquire
    | Clear(node: int)
    | Swap(node: int)
    | Test(node: int, pred: int)
    | SetLocked(node: int, pred: int)
    | Link(node: int, pred: int)
    | Spin(node: int)
    | Check(node: int)
    | ClearHead(node: int)
    | CasTail(node: int)
    | AwaitLink(node: int)
    | Forward(node: int, succ: int)
    | Delete(node: int)
    // Release
    | Critical
    | LoadHead
    | CasHead
    | AwaitHead
    | Wake(succ: int)

  /**
   * `heap` holds exactly the nodes that are allocated and not yet deleted; `fault` records any access to
   * another address, and any second deletion. `owner`, the thread that last allocated an address, is history;
   * `arrivals`, `served` and `ticket` are history as for MCS.
   */
  datatype State = State(
    tail: int, headNext: int, heap: map<int, Cell>, fault: bool, pc: seq<PC>,
    owner: map<int, nat>, arrivals: seq<nat>, served: nat, ticket: seq<nat>)
  {
    function Goto(t: nat, p: PC): State
      requires t < |pc|
    {
      this.(pc := pc[t := p])
    }

    /** A store to the `next` of the lock or of a live node. */
    function StoreNext(p: int, v: int): (r: State)
      ensures r.pc == pc
    {
      if p == HEAD then this.(headNext := v)
      else if p in heap then this.(heap := heap[p := heap[p].(next := v)])
      else this.(fault := true)
    }

    function StoreLocked(p: int, v: bool): (r: State)
      ensures r.pc == pc
    {
      if p in heap then this.(heap := heap[p := heap[p].(locked := v)]) else this.(fault := true)
    }

    function Free(p: int): (r: State)
      ensures r.pc == pc
    {
      if p in heap then this.(heap := heap - {p}) else this.(fault := true)
    }
  }

  /** The scheduler picks the thread and, for an allocation, any address not in use: addresses may be used again. */
  datatype Choice = Choice(t: nat, addr: int)

  function Init(n: nat): State {
    State(NULL, NULL, map[], false, seq(n, i => Idle), map[], [], 0, seq(n, i => 0))
  }

  predicate Shape(s: State) {
    |s.ticket| == |s.pc|
  }

  function Acquire(s: State, c: Choice): State
    requires Shape(s) && c.t < |s.pc|
  {
    var t := c.t;
    match s.pc[t]
    case Idle =>
      if c.addr > 0 && c.addr !in s.heap
      then s.(heap := s.heap[c.addr := Cell(NULL, false)], owner := s.owner[c.addr := t]).Goto(t, Clear(c.addr))
      else s
    case Clear(node) => s.StoreNext(node, NULL).Goto(t, Swap(node))
    case Swap(node) =>
      s.(tail := node, arrivals := s.arrivals + [t], ticket := s.ticket[t := |s.arrivals|]).Goto(t, Test(node, s.tail))
    case Test(node, pred) => s.Goto(t, if pred == NULL then Check(node) else SetLocked(node, pred))
    case SetLocked(node, pred) => s.StoreLocked(node, true).Goto(t, Link(node, pred))
    case Link(node, pred) => s.StoreNext(pred, node).Goto(t, Spin(node))
    case Spin(node) =>
      if node !in s.heap then s.(fault := true) else if s.heap[node].locked then s else s.Goto(t, Check(node))
    case _ => s
  }

  /** `Acquire` once the thread has the lock: its node is replaced by the lock's own and deleted. */
  function Convert(s: State, t: nat): State
    requires Shape(s) && t < |s.pc|
  {
    match s.pc[t]
    case Check(node) =>
      if node !in s.heap then s.(fault := true)
      else s.Goto(t, if s.heap[node].next == NULL then ClearHead(node) else Forward(node, s.heap[node].next))
    case ClearHead(node) => s.StoreNext(HEAD, NULL).Goto(t, CasTail(node))
    case CasTail(node) => if s.tail == node then s.(tail := HEAD).Goto(t, Delete(node)) else s.Goto(t, AwaitLink(node))
    case AwaitLink(node) =>
      if node !in s.heap then s.(fault := true)
      else if s.heap[node].next == NULL then s else s.Goto(t, Forward(node, s.heap[node].next))
    case Forward(node, succ) => s.StoreNext(HEAD, succ).Goto(t, Delete(node))
    case Delete(node) => s.Free(node).Goto(t, Critical)
    case _ => s
  }

  function Release(s: State, t: nat): State
    requires Shape(s) && t < |s.pc|
  {
    match s.pc[t]
    case Critical => s.Goto(t, LoadHead)
    case LoadHead => s.Goto(t, if s.headNext == NULL then CasHead else Wake(s.headNext))
    case CasHead => if s.tail == HEAD then s.(tail := NULL, served := s.served + 1).Goto(t, Idle)
        else s.Goto(t, AwaitHead)
    case AwaitHead => if s.headNext == NULL then s else s.Goto(t, Wake(s.headNext))
    case Wake(succ) => s.StoreLocked(succ, false).(served := s.served + 1).Goto(t, Idle)
    case _ => s
  }

  predicate Acquiring(p: PC) {
    p.Idle? || p.Clear? || p.Swap? || p.Test? || p.SetLocked? || p.Link? || p.Spin?
  }

  predicate Converting(p: PC) {
    p.Check? || p.ClearHead? || p.CasTail? || p.AwaitLink? || p.Forward? || p.Delete?
  }

  /** One atomic step; a failed spin leaves the state as it was. */
  function Next(s: State, c: Choice): State {
    if !Shape(s) || c.t >= |s.pc| then s
    else if Acquiring(s.pc[c.t]) then Acquire(s, c)
    else if Converting(s.pc[c.t]) then Convert(s, c.t)
    else Release(s, c.t)
  }

  /** Queue at the exchange, enter once the lock is known to be held, leave on handing over. */
  function Label(s: State, c: Choice): Event {
    if !Shape(s) || c.t >= |s.pc| then Tau else
    match s.pc[c.t]
    case Swap(_) => Enqueue(c.t)
    case Test(_, pred) => if pred == NULL then Enter(c.t) else Tau
    case Spin(node) => if node in s.heap && !s.heap[node].locked then Enter(c.t) else Tau
    case CasHead => if s.tail == HEAD then Exit(c.t) else Tau
    case Wake(_) => Exit(c.t)
    case _ => Tau
  }

  predicate Queued(p: PC) {
    !p.Idle? && !p.Clear? && !p.Swap?
  }

  /** Between having the lock and handing it over. */
  predicate Holds(p: PC) {
    !Acquiring(p)
  }

  predicate Unlinked(p: PC) {
    p.Test? || p.SetLocked? || p.Link?
  }

  predicate HasNode(p: PC) {
    !p.Idle? && !p.Critical? && !p.LoadHead? && !p.CasHead? && !p.AwaitHead? && !p.Wake?
  }

  /** The node that stands for a queued thread: its own until it is forwarded, then the lock's. */
  function Stand(p: PC): int {
    if HasNode(p) && !p.Delete? then p.node else HEAD
  }

  function NextOf(s: State, p: int): int {
    if p == HEAD then s.headNext else if p in s.heap then s.heap[p].next else NULL
  }

  ghost predicate At(s: State, k: nat)
    requires Shape(s)
  {
    k < |s.arrivals| && s.arrivals[k] < |s.pc| && s.ticket[s.arrivals[k]] == k && Queued(s.pc[s.arrivals[k]])
  }

  /** Thread `t` is queued at its ticket, and the nodes and its program counter say so. */
  ghost predicate Local(s: State, t: nat)
    requires Shape(s) && t < |s.pc|
  {
    var k, p := s.ticket[t], s.pc[t];
    && s.served <= k < |s.arrivals|
    && s.arrivals[k] == t
    && (if k + 1 == |s.arrivals| then s.tail == Stand(p) && NextOf(s, Stand(p)) == NULL
        else
          var u := s.arrivals[k + 1];
          && u < |s.pc|
          && if Unlinked(s.pc[u]) then NextOf(s, Stand(p)) == NULL && s.pc[u].pred == Stand(p)
             else HasNode(s.pc[u]) && NextOf(s, Stand(p)) == s.pc[u].node)
    && (if k > s.served then !Holds(p) && (p.Test? ==> p.pred != NULL)
        else (p.Test? ==> p.pred == NULL) && !p.SetLocked? && !p.Link?)
    && (p.CasTail? ==> s.headNext == NULL)
    && (p.AwaitLink? || p.AwaitHead? ==> k + 1 < |s.arrivals|)
    && (p.Forward? ==> NextOf(s, p.node) == p.succ != NULL)
    && (p.Wake? ==> s.headNext == p.succ != NULL)
  }

  /** Thread `t`'s node, if it has one, is live and its own. */
  ghost predicate Private(s: State, t: nat)
    requires Shape(s) && t < |s.pc|
  {
    var p := s.pc[t];
    HasNode(p) ==>
      && p.node > 0 && p.node in s.heap && p.node in s.owner && s.owner[p.node] == t
      && (p.Swap? ==> s.heap[p.node].next == NULL)
      && (p.Link? ==> s.heap[p.node].locked)
      && (p.Spin? ==> s.heap[p.node].locked == (s.ticket[t] > s.served))
  }

  /** Every live node belongs to the thread that allocated it. */
  ghost predicate Owned(s: State, a: int)
    requires Shape(s)
  {
    a in s.heap ==>
      && a in s.owner
      && var t := s.owner[a];
         a > 0 && t < |s.pc| && HasNode(s.pc[t]) && s.pc[t].node == a
  }

  ghost predicate Inv(s: State) {
    && Shape(s)
    && !s.fault
    && s.served <= |s.arrivals|
    && (s.served == |s.arrivals| ==> s.tail == NULL)
    && (forall k {:trigger At(s, k)} :: s.served <= k < |s.arrivals| ==> At(s, k))
    && (forall t {:trigger Local(s, t)} :: 0 <= t < |s.pc| && Queued(s.pc[t]) ==> Local(s, t))
    && (forall t {:trigger Private(s, t)} :: 0 <= t < |s.pc| ==> Private(s, t))
    && (forall a {:trigger Owned(s, a)} :: Owned(s, a))
  }

  /** A thread, its neighbours in the queue, and the last thread. */
  lemma Neighbours(s: State, t: nat)
    requires Inv(s) && t < |s.pc|
    ensures Private(s, t)
    ensures Queued(s.pc[t]) ==> Local(s, t)
    ensures Queued(s.pc[t]) && s.ticket[t] + 1 < |s.arrivals| ==>
              At(s, s.ticket[t] + 1) && Private(s, s.arrivals[s.ticket[t] + 1])
    ensures Queued(s.pc[t]) && s.served < s.ticket[t] ==>
              At(s, s.ticket[t] - 1) && Local(s, s.arrivals[s.ticket[t] - 1]) && Private(s, s.arrivals[s.ticket[t] - 1])
  {
    assert Private(s, t);
    if Queued(s.pc[t]) {
      assert Local(s, t);
      if s.ticket[t] + 1 < |s.arrivals| { assert At(s, s.ticket[t] + 1) && Private(s, s.arrivals[s.ticket[t] + 1]); }
      if s.served < s.ticket[t] {
        assert At(s, s.ticket[t] - 1) && Local(s, s.arrivals[s.ticket[t] - 1]);
        assert Private(s, s.arrivals[s.ticket[t] - 1]);
      }
    }
  }

  lemma LastQueued(s: State)
    requires Inv(s) && s.served < |s.arrivals|
    ensures At(s, |s.arrivals| - 1) && Local(s, s.arrivals[|s.arrivals| - 1])
        && Private(s, s.arrivals[|s.arrivals| - 1])
    ensures s.tail == Stand(s.pc[s.arrivals[|s.arrivals| - 1]])
  {
    assert At(s, |s.arrivals| - 1) && Local(s, s.arrivals[|s.arrivals| - 1])
        && Private(s, s.arrivals[|s.arrivals| - 1]);
  }

  /** No access to freed memory and no double deletion: every address a step uses is live. */
  lemma NextIsSafe(s: State, c: Choice)
    requires Inv(s) && c.t < |s.pc|
    ensures !Next(s, c).fault
  {
    Neighbours(s, c.t);
  }

  /** What another thread's step must leave alone for `u` to stay where it is. */
  ghost predicate SameFor(s: State, r: State, u: nat)
    requires Shape(s) && Shape(r) && |r.pc| == |s.pc| && u < |s.pc| && Queued(s.pc[u])
  {
    var k := s.ticket[u];
    && r.served == s.served && r.arrivals == s.arrivals && r.tail == s.tail
    && r.ticket[u] == k && r.pc[u] == s.pc[u]
    && NextOf(r, Stand(s.pc[u])) == NextOf(s, Stand(s.pc[u])) && (s.pc[u].Forward? ==>
        NextOf(r, s.pc[u].node) == NextOf(s, s.pc[u].node))
    && (k <= s.served ==> r.headNext == s.headNext)
    && (k + 1 < |s.arrivals| && s.arrivals[k + 1] < |s.pc| ==>
          var p, q := s.pc[s.arrivals[k + 1]], r.pc[s.arrivals[k + 1]];
          && Unlinked(q) == Unlinked(p) && (Unlinked(p) ==> q.pred == p.pred)
          && (HasNode(p) ==> HasNode(q) && q.node == p.node))
  }

  lemma Frame(s: State, r: State, u: nat)
    requires Shape(s) && Shape(r) && |r.pc| == |s.pc| && u < |s.pc| && Queued(s.pc[u])
    requires Local(s, u) && SameFor(s, r, u)
    ensures Local(r, u)
  {
  }

  lemma PrepareKeepsOther(s: State, c: Choice, u: nat)
    requires Inv(s) && c.t < |s.pc| && !Queued(s.pc[c.t]) && !s.pc[c.t].Swap?
    requires u < |s.pc| && Queued(s.pc[u])
    ensures Local(Acquire(s, c), u)
  {
    Neighbours(s, c.t);
    Neighbours(s, u);
    Frame(s, Acquire(s, c), u);
  }

  /** The steps of `Acquire` before the exchange. */
  lemma PrepareKeepsInv(s: State, c: Choice)
    requires Inv(s) && c.t < |s.pc| && !Queued(s.pc[c.t]) && !s.pc[c.t].Swap?
    ensures Inv(Acquire(s, c))
  {
    var r := Acquire(s, c);
    Neighbours(s, c.t);
    forall k: nat | r.served <= k < |r.arrivals| ensures At(r, k) { assert At(s, k); }
    forall u: nat | u < |r.pc| && Queued(r.pc[u]) ensures Local(r, u) { PrepareKeepsOther(s, c, u); }
    forall u: nat | u < |r.pc| ensures Private(r, u) { assert Private(s, u); }
    forall a ensures Owned(r, a) { assert Owned(s, a); }
  }

  lemma SwapKeepsOther(s: State, c: Choice, u: nat)
    requires Inv(s) && c.t < |s.pc| && s.pc[c.t].Swap? && u < |s.pc| && u != c.t && Queued(s.pc[u])
    ensures Local(Acquire(s, c), u)
  {
    Neighbours(s, c.t);
    Neighbours(s, u);
    LastQueued(s);
  }

  lemma SwapKeepsInv(s: State, c: Choice)
    requires Inv(s) && c.t < |s.pc| && s.pc[c.t].Swap?
    ensures Inv(Acquire(s, c))
  {
    var r := Acquire(s, c);
    Neighbours(s, c.t);
    if s.served < |s.arrivals| { LastQueued(s); }
    forall k: nat | r.served <= k < |r.arrivals| ensures At(r, k) { if k < |s.arrivals| { assert At(s, k); } }
    forall u: nat | u < |r.pc| && Queued(r.pc[u]) ensures Local(r, u) { if u != c.t { SwapKeepsOther(s, c, u); } }
    forall u: nat | u < |r.pc| ensures Private(r, u) { assert Private(s, u); }
    forall a ensures Owned(r, a) { assert Owned(s, a); }
  }

  lemma MoveKeepsOwn(s: State, c: Choice)
    requires Inv(s) && c.t < |s.pc| && Unlinked(s.pc[c.t]) && !s.pc[c.t].Link?
    ensures Local(Acquire(s, c), c.t)
  {
    Neighbours(s, c.t);
  }

  lemma MoveKeepsOther(s: State, c: Choice, u: nat)
    requires Inv(s) && c.t < |s.pc| && Unlinked(s.pc[c.t]) && !s.pc[c.t].Link?
    requires u < |s.pc| && Queued(s.pc[u]) && u != c.t
    ensures Local(Acquire(s, c), u)
  {
    Neighbours(s, c.t);
    Neighbours(s, u);
    Frame(s, Acquire(s, c), u);
  }

  /** The test of the predecessor, and the store to the thread's own `locked`. */
  lemma MoveKeepsInv(s: State, c: Choice)
    requires Inv(s) && c.t < |s.pc| && Unlinked(s.pc[c.t]) && !s.pc[c.t].Link?
    ensures Inv(Acquire(s, c))
  {
    var r := Acquire(s, c);
    Neighbours(s, c.t);
    forall k: nat | r.served <= k < |r.arrivals| ensures At(r, k) { assert At(s, k); }
    forall u: nat | u < |r.pc| && Queued(r.pc[u]) ensures Local(r, u) {
      if u == c.t { MoveKeepsOwn(s, c); } else { MoveKeepsOther(s, c, u); }
    }
    forall u: nat | u < |r.pc| ensures Private(r, u) { assert Private(s, u); }
    forall a ensures Owned(r, a) { assert Owned(s, a); }
  }

  lemma LinkKeepsPred(s: State, c: Choice, u: nat)
    requires Inv(s) && c.t < |s.pc| && s.pc[c.t].Link? && u < |s.pc| && Queued(s.pc[u])
    requires s.ticket[u] + 1 == s.ticket[c.t]
    ensures Local(Acquire(s, c), u)
  {
    assert Local(s, u);
    Neighbours(s, c.t);
    LinkSetsNext(s, c);
    hide Inv, NextOf;
  }

  lemma LinkSetsNext(s: State, c: Choice)
    requires Shape(s) && c.t < |s.pc| && s.pc[c.t].Link?
    requires s.pc[c.t].pred == HEAD || s.pc[c.t].pred in s.heap
    ensures var r, p := Acquire(s, c), s.pc[c.t];
            && NextOf(r, p.pred) == p.node && (forall a | a != p.pred :: NextOf(r, a) == NextOf(s, a))
            && r.headNext == (if p.pred == HEAD then p.node else s.headNext)
            && r.pc == s.pc[c.t := Spin(p.node)]
  {
  }

  lemma LinkKeepsOther(s: State, c: Choice, u: nat)
    requires Inv(s) && c.t < |s.pc| && s.pc[c.t].Link? && u < |s.pc| && u != c.t && Queued(s.pc[u])
    ensures Local(Acquire(s, c), u)
  {
    Neighbours(s, u);
    if s.ticket[u] + 1 == s.ticket[c.t] {
      LinkKeepsPred(s, c, u);
    } else {
      assert NextOf(Acquire(s, c), Stand(s.pc[u])) == NextOf(s, Stand(s.pc[u])) by { Neighbours(s, c.t); }
      LinkKeepsFar(s, c, u);
    }
  }

  lemma LinkKeepsFar(s: State, c: Choice, u: nat)
    requires Inv(s) && c.t < |s.pc| && s.pc[c.t].Link? && u < |s.pc| && u != c.t && Queued(s.pc[u])
    requires s.ticket[u] + 1 != s.ticket[c.t] && Local(s, u)
    requires NextOf(Acquire(s, c), Stand(s.pc[u])) == NextOf(s, Stand(s.pc[u]))
    ensures Local(Acquire(s, c), u)
  {
    Neighbours(s, c.t);
    Frame(s, Acquire(s, c), u);
  }

  lemma LinkKeepsOwn(s: State, c: Choice)
    requires Inv(s) && c.t < |s.pc| && s.pc[c.t].Link?
    ensures Local(Acquire(s, c), c.t)
  {
    Neighbours(s, c.t);
    LinkKeepsNext(s, c);
    hide Inv, NextOf;
  }

  lemma LinkKeepsNext(s: State, c: Choice)
    requires Shape(s) && c.t < |s.pc| && s.pc[c.t].Link? && Private(s, c.t)
    requires s.pc[c.t].pred == HEAD || (s.pc[c.t].pred in s.heap && s.pc[c.t].pred != s.pc[c.t].node)
    ensures var r, node := Acquire(s, c), s.pc[c.t].node;
            NextOf(r, node) == NextOf(s, node) && node in r.heap && r.heap[node].locked == s.heap[node].locked
  {
  }

  lemma LinkKeepsInv(s: State, c: Choice)
    requires Inv(s) && c.t < |s.pc| && s.pc[c.t].Link?
    ensures Inv(Acquire(s, c))
  {
    var r := Acquire(s, c);
    Neighbours(s, c.t);
    forall k: nat | r.served <= k < |r.arrivals| ensures At(r, k) { assert At(s, k); }
    forall u: nat | u < |r.pc| && Queued(r.pc[u]) ensures Local(r, u) {
      if u == c.t { LinkKeepsOwn(s, c); } else { LinkKeepsOther(s, c, u); }
    }
    LinkKeepsNodes(s, c);
  }

  lemma LinkKeepsNodes(s: State, c: Choice)
    requires Inv(s) && c.t < |s.pc| && s.pc[c.t].Link?
    ensures Shape(Acquire(s, c)) && |Acquire(s, c).pc| == |s.pc|
    ensures forall u: nat {:trigger Private(Acquire(s, c), u)} | u < |s.pc| :: Private(Acquire(s, c), u)
    ensures forall a {:trigger Owned(Acquire(s, c), a)} :: Owned(Acquire(s, c), a)
  {
    var r := Acquire(s, c);
    Neighbours(s, c.t);
    forall u: nat | u < |r.pc| ensures Private(r, u) { assert Private(s, u) && Owned(s, s.pc[c.t].pred); }
    forall a ensures Owned(r, a) { assert Owned(s, a); }
  }

  lemma SpinKeepsInv(s: State, c: Choice)
    requires Inv(s) && c.t < |s.pc| && s.pc[c.t].Spin?
    ensures Inv(Acquire(s, c))
  {
    var r := Acquire(s, c);
    Neighbours(s, c.t);
    forall k: nat | r.served <= k < |r.arrivals| ensures At(r, k) { assert At(s, k); }
    forall u: nat | u < |r.pc| && Queued(r.pc[u]) ensures Local(r, u) {
      Neighbours(s, u);
      if u != c.t { Frame(s, r, u); }
    }
    forall u: nat | u < |r.pc| ensures Private(r, u) { assert Private(s, u); }
    forall a ensures Owned(r, a) { assert Owned(s, a); }
  }

  /** A CAS on `tail` succeeds only when nobody has queued behind the holder. */
  lemma Alone(s: State, t: nat)
    requires Inv(s) && t < |s.pc|
    requires (s.pc[t].CasTail? && s.tail == s.pc[t].node) || (s.pc[t].CasHead? && s.tail == HEAD)
    ensures s.served + 1 == |s.arrivals| && s.ticket[t] == s.served
    ensures forall u: nat | u < |s.pc| && u != t :: !Queued(s.pc[u])
  {
    Neighbours(s, t);
    LastQueued(s);
    forall u: nat | u < |s.pc| && u != t ensures !Queued(s.pc[u]) {
      assert Queued(s.pc[u]) ==> Local(s, u);
    }
  }

  lemma ConvertLeavesAlone(s: State, t: nat, u: nat)
    requires Inv(s) && t < |s.pc| && Converting(s.pc[t]) && u < |s.pc| && u != t && Queued(s.pc[u])
    requires !(s.pc[t].CasTail? && s.tail == s.pc[t].node)
    ensures Shape(Convert(s, t)) && |Convert(s, t).pc| == |s.pc| && SameFor(s, Convert(s, t), u)
  {
    Neighbours(s, t);
    Neighbours(s, u);
  }

  lemma ConvertKeepsOther(s: State, t: nat, u: nat)
    requires Inv(s) && t < |s.pc| && Converting(s.pc[t]) && u < |s.pc| && u != t && Queued(s.pc[u])
    requires !(s.pc[t].CasTail? && s.tail == s.pc[t].node)
    ensures Local(Convert(s, t), u)
  {
    hide Convert;
    assert Local(s, u);
    ConvertLeavesAlone(s, t, u);
    Frame(s, Convert(s, t), u);
  }

  lemma ConvertKeepsOwn(s: State, t: nat)
    requires Inv(s) && t < |s.pc| && Converting(s.pc[t])
    ensures Local(Convert(s, t), t)
  {
    if s.pc[t].CasTail? && s.tail == s.pc[t].node { Alone(s, t); }
    Neighbours(s, t);
  }

  lemma ConvertKeepsInv(s: State, t: nat)
    requires Inv(s) && t < |s.pc| && Converting(s.pc[t])
    ensures Inv(Convert(s, t))
  {
    var r := Convert(s, t);
    Neighbours(s, t);
    if s.pc[t].CasTail? && s.tail == s.pc[t].node { Alone(s, t); }
    forall k: nat | r.served <= k < |r.arrivals| ensures At(r, k) { assert At(s, k); }
    forall u: nat | u < |r.pc| && Queued(r.pc[u]) ensures Local(r, u) {
      if u == t {
        ConvertKeepsOwn(s, t);
      } else if !(s.pc[t].CasTail? && s.tail == s.pc[t].node) {
        ConvertKeepsOther(s, t, u);
      }
    }
    ConvertKeepsNodes(s, t);
  }

  lemma ConvertKeepsNodes(s: State, t: nat)
    requires Inv(s) && t < |s.pc| && Converting(s.pc[t])
    ensures Shape(Convert(s, t)) && |Convert(s, t).pc| == |s.pc|
    ensures forall u: nat {:trigger Private(Convert(s, t), u)} | u < |s.pc| :: Private(Convert(s, t), u)
    ensures forall a {:trigger Owned(Convert(s, t), a)} :: Owned(Convert(s, t), a)
  {
    var r := Convert(s, t);
    Neighbours(s, t);
    forall u: nat | u < |r.pc| ensures Private(r, u) { assert Private(s, u); }
    forall a ensures Owned(r, a) { assert Owned(s, a); }
  }

  lemma WakeKeepsOther(s: State, t: nat, u: nat)
    requires Inv(s) && t < |s.pc| && s.pc[t].Wake? && u < |s.pc| && u != t && Queued(s.pc[u])
    ensures Local(Release(s, t), u)
  {
    Neighbours(s, t);
    Neighbours(s, u);
  }

  lemma ReleaseKeepsOther(s: State, t: nat, u: nat)
    requires Inv(s) && t < |s.pc| && Holds(s.pc[t]) && !Converting(s.pc[t]) && u < |s.pc| && u != t && Queued(s.pc[u])
    requires !(s.pc[t].CasHead? && s.tail == HEAD)
    ensures Local(Release(s, t), u)
  {
    if s.pc[t].Wake? {
      WakeKeepsOther(s, t, u);
    } else {
      Neighbours(s, t);
      Neighbours(s, u);
      Frame(s, Release(s, t), u);
    }
  }

  lemma ReleaseKeepsPrivate(s: State, t: nat, u: nat)
    requires Inv(s) && t < |s.pc| && Holds(s.pc[t]) && !Converting(s.pc[t]) && u < |s.pc|
    ensures Private(Release(s, t), u)
  {
    Neighbours(s, t);
    Neighbours(s, u);
    if s.pc[t].CasHead? && s.tail == HEAD { Alone(s, t); }
    hide Inv;
  }

  lemma ReleaseKeepsOwn(s: State, t: nat)
    requires Inv(s) && t < |s.pc| && Holds(s.pc[t]) && !Converting(s.pc[t]) && Queued(Release(s, t).pc[t])
    ensures Local(Release(s, t), t)
  {
    Neighbours(s, t);
    if s.pc[t].CasHead? { LastQueued(s); }
  }

  lemma ReleaseKeepsQueue(s: State, t: nat)
    requires Inv(s) && t < |s.pc| && Holds(s.pc[t]) && !Converting(s.pc[t])
    ensures var r := Release(s, t);
            && Shape(r) && !r.fault && |r.pc| == |s.pc| && r.served <= |r.arrivals|
            && (r.served == |r.arrivals| ==> r.tail == NULL)
            && (forall k: nat | r.served <= k < |r.arrivals| :: At(r, k))
            && (forall a :: Owned(r, a))
            && (forall u: nat | u < |s.pc| && u != t && Queued(r.pc[u]) :: Queued(s.pc[u]))
  {
    var r := Release(s, t);
    Neighbours(s, t);
    if s.pc[t].CasHead? && s.tail == HEAD { Alone(s, t); }
    forall k: nat | r.served <= k < |r.arrivals| ensures At(r, k) { assert At(s, k); }
    forall a ensures Owned(r, a) { assert Owned(s, a); }
  }

  lemma ReleaseKeepsInv(s: State, t: nat)
    requires Inv(s) && t < |s.pc| && Holds(s.pc[t]) && !Converting(s.pc[t])
    ensures Inv(Release(s, t))
  {
    hide Release;
    var r := Release(s, t);
    ReleaseKeepsQueue(s, t);
    if s.pc[t].CasHead? && s.tail == HEAD { Alone(s, t); }
    forall u: nat | u < |r.pc| && Queued(r.pc[u]) ensures Local(r, u) {
      if u == t {
        ReleaseKeepsOwn(s, t);
      } else if !(s.pc[t].CasHead? && s.tail == HEAD) {
        ReleaseKeepsOther(s, t, u);
      }
    }
    forall u: nat | u < |r.pc| ensures Private(r, u) { ReleaseKeepsPrivate(s, t, u); }
  }

  /** Every atomic step, whatever the scheduler picks, keeps the invariant. */
  lemma NextKeepsInv(s: State, c: Choice)
    requires Inv(s)
    ensures Inv(Next(s, c))
  {
    if c.t < |s.pc| {
      var p := s.pc[c.t];
      if p.Swap? { SwapKeepsInv(s, c); }
      else if p.Link? { LinkKeepsInv(s, c); }
      else if p.Spin? { SpinKeepsInv(s, c); }
      else if Unlinked(p) { MoveKeepsInv(s, c); }
      else if Acquiring(p) { PrepareKeepsInv(s, c); }
      else if Converting(p) { ConvertKeepsInv(s, c.t); }
      else { ReleaseKeepsInv(s, c.t); }
    }
  }

  /** The abstract lock a state stands for. */
  function Abs(s: State): Lock {
    Lock(s.arrivals, s.served,
         s.served < |s.arrivals| && s.arrivals[s.served] < |s.pc| && Holds(s.pc[s.arrivals[s.served]]))
  }

  lemma OwnerIsFront(s: State, t: nat)
    requires Inv(s) && t < |s.pc| && Queued(s.pc[t])
    ensures s.served <= s.ticket[t] < |s.arrivals| && s.arrivals[s.ticket[t]] == t && At(s, s.served)
    ensures Abs(s).held <==> Holds(s.pc[s.arrivals[s.served]])
    ensures Holds(s.pc[t]) ==> s.ticket[t] == s.served
  {
    assert Local(s, t) && At(s, s.served);
  }

  lemma SwapRefines(s: State, c: Choice)
    requires Inv(s) && c.t < |s.pc| && s.pc[c.t].Swap?
    ensures c.t !in Abs(s).Queue()
    ensures Abs(Next(s, c)) == Apply(Abs(s), Enqueue(c.t))
  {
    forall k: nat | s.served <= k < |s.arrivals| ensures s.arrivals[k] != c.t { assert At(s, k); }
    if s.served < |s.arrivals| { assert At(s, s.served); }
  }

  lemma LeaveRefines(s: State, c: Choice)
    requires Inv(s) && c.t < |s.pc| && Label(s, c).Exit?
    ensures Allowed(Abs(s), Label(s, c))
    ensures Abs(Next(s, c)) == Apply(Abs(s), Label(s, c))
  {
    OwnerIsFront(s, c.t);
    if s.served + 1 < |s.arrivals| {
      assert At(s, s.served + 1);
      OwnerIsFront(s, s.arrivals[s.served + 1]);
    }
  }

  lemma EnterRefines(s: State, c: Choice)
    requires Inv(s) && c.t < |s.pc| && Queued(s.pc[c.t]) && Acquiring(s.pc[c.t])
    ensures Allowed(Abs(s), Label(s, c))
    ensures Abs(Next(s, c)) == Apply(Abs(s), Label(s, c))
  {
    OwnerIsFront(s, c.t);
    assert Local(s, c.t) && Private(s, c.t);
  }

  lemma HoldRefines(s: State, c: Choice)
    requires Inv(s) && c.t < |s.pc| && Holds(s.pc[c.t]) && !Label(s, c).Exit?
    ensures Allowed(Abs(s), Label(s, c))
    ensures Abs(Next(s, c)) == Apply(Abs(s), Label(s, c))
  {
    OwnerIsFront(s, c.t);
    assert Private(s, c.t);
  }

  /** Every atomic step is an enqueue, an entry, an exit or a stutter of the abstract lock. */
  lemma NextRefines(s: State, c: Choice)
    requires Inv(s)
    ensures Allowed(Abs(s), Label(s, c))
    ensures Abs(Next(s, c)) == Apply(Abs(s), Label(s, c))
  {
    if s.served < |s.arrivals| { assert At(s, s.served); }
    if c.t < |s.pc| {
      if s.pc[c.t].Swap? {
        SwapRefines(s, c);
      } else if Label(s, c).Exit? {
        LeaveRefines(s, c);
      } else if Queued(s.pc[c.t]) {
        if Holds(s.pc[c.t]) { HoldRefines(s, c); } else { EnterRefines(s, c); }
      }
    }
  }

  /** The states of all runs of `n` threads. */
  ghost function After(n: nat, sched: seq<Choice>): State {
    Exec(Next, Init(n), sched)
  }

  lemma AcquireMovesOne(s: State, c: Choice)
    requires Shape(s) && c.t < |s.pc|
    ensures |Acquire(s, c).pc| == |s.pc|
    ensures forall u | 0 <= u < |s.pc| && u != c.t :: Acquire(s, c).pc[u] == s.pc[u]
  {
    hide State.StoreNext, State.StoreLocked;
  }

  lemma SameThreads(s: State, c: Choice)
    ensures |Next(s, c).pc| == |s.pc|
  {
    if Shape(s) && c.t < |s.pc| {
      AcquireMovesOne(s, c);
      assert |Convert(s, c.t).pc| == |Release(s, c.t).pc| == |s.pc|;
    }
  }

  /** Over every schedule of any number of threads, the lock behaves as the abstract FIFO lock. */
  lemma RunIsFair(n: nat, sched: seq<Choice>)
    ensures Inv(After(n, sched)) && |After(n, sched).pc| == n
    ensures Legal(FREE, Events(Next, Label, Init(n), sched))
    ensures Run(FREE, Events(Next, Label, Init(n), sched)) == Abs(After(n, sched))
    ensures Fair(Events(Next, Label, Init(n), sched))
  {
    var inv := (s: State) => Inv(s) && |s.pc| == n;
    forall s, c: Choice | inv(s)
      ensures inv(Next(s, c)) && Allowed(Abs(s), Label(s, c)) && Abs(Next(s, c)) == Apply(Abs(s), Label(s, c))
    {
      NextKeepsInv(s, c);
      NextRefines(s, c);
      SameThreads(s, c);
    }
    RunRefines(Next, Label, inv, Abs, Init(n), sched);
    FirstComeFirstServed(Events(Next, Label, Init(n), sched));
  }

  lemma MutualExclusion(n: nat, sched: seq<Choice>, t: nat, u: nat)
    requires |After(n, sched).pc| == n && t < n && u < n
    requires Holds(After(n, sched).pc[t]) && Holds(After(n, sched).pc[u])
    ensures t == u
  {
    RunIsFair(n, sched);
    OwnerIsFront(After(n, sched), t);
    OwnerIsFront(After(n, sched), u);
  }

  /** The live nodes are those of the threads inside `Acquire`, one each. */
  ghost predicate NodesMatch(s: State) {
    && (forall a :: a in s.heap ==> exists t: nat | t < |s.pc| :: HasNode(s.pc[t]) && s.pc[t].node == a)
    && (forall t: nat | t < |s.pc| && HasNode(s.pc[t]) :: s.pc[t].node in s.heap)
    && (forall t: nat, u: nat | t < |s.pc| && u < |s.pc| && HasNode(s.pc[t]) && HasNode(s.pc[u]) && t != u ::
          s.pc[t].node != s.pc[u].node)
  }

  lemma InvNodesMatch(s: State)
    requires Inv(s)
    ensures NodesMatch(s)
  {
    forall a | a in s.heap ensures exists t: nat | t < |s.pc| :: HasNode(s.pc[t]) && s.pc[t].node == a {
      assert Owned(s, a);
    }
    forall t: nat | t < |s.pc| && HasNode(s.pc[t]) ensures s.pc[t].node in s.heap { assert Private(s, t); }
    forall t: nat, u: nat | t < |s.pc| && u < |s.pc| && HasNode(s.pc[t]) && HasNode(s.pc[u]) && t != u
      ensures s.pc[t].node != s.pc[u].node
    {
      assert Private(s, t) && Private(s, u);
    }
  }

  lemma PredIsLive(s: State, t: nat)
    requires Inv(s) && t < |s.pc| && Unlinked(s.pc[t]) && s.pc[t].pred != NULL
    ensures s.pc[t].pred == HEAD || s.pc[t].pred in s.heap
  {
    Neighbours(s, t);
  }

  /**
   * Node lifetime over any run, with addresses reused at will: no access to a node that is not live, no
   * second deletion, every live node belongs to exactly one thread inside `Acquire`, and no thread that
   * is about to link in has a predecessor that is deleted.
   */
  lemma NodesOutliveUse(n: nat, sched: seq<Choice>)
    ensures var s := After(n, sched);
      && |s.pc| == n && !s.fault && NodesMatch(s)
      && (forall t: nat | t < n && Unlinked(s.pc[t]) && s.pc[t].pred != NULL ::
            s.pc[t].pred == HEAD || s.pc[t].pred in s.heap)
  {
    RunIsFair(n, sched);
    var s := After(n, sched);
    InvNodesMatch(s);
    forall t: nat | t < n && Unlinked(s.pc[t]) && s.pc[t].pred != NULL
      ensures s.pc[t].pred == HEAD || s.pc[t].pred in s.heap
    {
      PredIsLive(s, t);
    }
  }

  /**
   * The holder's store of null to the lock's `next` (src/k42.h:58) destroys no waiter's link: at that moment
   * no thread has linked or is about to link to the lock's node, every link of the queue being in a thread's node.
   */
  lemma ClearingLosesNoLink(s: State, t: nat)
    requires Inv(s) && t < |s.pc| && s.pc[t].ClearHead?
    ensures forall u: nat | u < |s.pc| && Unlinked(s.pc[u]) :: s.pc[u].pred != HEAD
    ensures forall u: nat | u < |s.pc| && Queued(s.pc[u]) :: Stand(s.pc[u]) != HEAD
    ensures Next(s, Choice(t, 0)).heap == s.heap
  {
    Neighbours(s, t);
    forall u: nat | u < |s.pc| && Queued(s.pc[u])
      ensures Stand(s.pc[u]) != HEAD && (Unlinked(s.pc[u]) ==> s.pc[u].pred != HEAD)
    {
      OwnerIsFront(s, u);
      OwnerIsFront(s, t);
      Neighbours(s, u);
    }
  }

  /** How far a thread is from finishing the call it is in. */
  function Rank(p: PC): nat {
    match p
    case Idle => 0
    case Wake(_) => 1
    case AwaitHead => 2
    case CasHead => 3
    case LoadHead => 4
    case Critical => 5
    case Delete(_) => 6
    case Forward(_, _) => 7
    case AwaitLink(_) => 8
    case CasTail(_) => 9
    case ClearHead(_) => 10
    case Check(_) => 11
    case Spin(_) => 12
    case Link(_, _) => 13
    case SetLocked(_, _) => 14
    case Test(_, _) => 15
    case Swap(_) => 16
    case Clear(_) => 17
  }

  function Measure(s: State): nat {
    Total(Rank, s.pc)
  }

  predicate Starts(s: State, c: Choice) {
    c.t < |s.pc| && s.pc[c.t].Idle?
  }

  /** The step would be a failed spin. */
  predicate Spinning(s: State, t: nat)
    requires t < |s.pc|
  {
    var p := s.pc[t];
    (p.Spin? && p.node in s.heap && s.heap[p.node].locked) ||
    (p.AwaitLink? && p.node in s.heap && s.heap[p.node].next == NULL) ||
    (p.AwaitHead? && s.headNext == NULL)
  }

  lemma RankFalls(s: State, c: Choice)
    requires Inv(s) && c.t < |s.pc| && !Starts(s, c) && !Spinning(s, c.t)
    ensures |Next(s, c).pc| == |s.pc| && Next(s, c).pc == s.pc[c.t := Next(s, c).pc[c.t]]
    ensures Rank(Next(s, c).pc[c.t]) < Rank(s.pc[c.t])
  {
    assert Private(s, c.t);
  }

  lemma SpinningStays(s: State, c: Choice)
    requires Shape(s) && c.t < |s.pc| && Spinning(s, c.t)
    ensures Next(s, c) == s
  {
  }

  /** A step of a thread inside a call that is not a failed spin brings the lock closer to rest. */
  lemma MeasureFalls(s: State, c: Choice)
    requires Inv(s) && !Starts(s, c) && Next(s, c) != s
    ensures Measure(Next(s, c)) < Measure(s)
  {
    if Spinning(s, c.t) { SpinningStays(s, c); }
    RankFalls(s, c);
    var r := Next(s, c);
    assert r.pc == s.pc[c.t := r.pc[c.t]];
    TotalFalls(Rank, s.pc, c.t, r.pc[c.t]);
  }

  /** While any call is in progress, some thread in a call can take a step that is not a failed spin. */
  lemma NoDeadlock(s: State, u: nat) returns (c: Choice)
    requires Inv(s) && u < |s.pc| && !s.pc[u].Idle?
    ensures c.t < |s.pc| && !Starts(s, c) && Next(s, c) != s
  {
    c := Choice(u, 0);
    if Queued(s.pc[u]) {
      OwnerIsFront(s, u);
      c := Choice(s.arrivals[s.served], 0);
      Neighbours(s, c.t);
      if Spinning(s, c.t) { c := Choice(s.arrivals[s.served + 1], 0); }
    }
    RankFalls(s, c);
  }

  /**
   * After any run, let the calls in progress go on without new ones: only `Measure` many steps other
   * than failed spins are left, and where none is left every call has returned and no node is allocated.
   */
  lemma CallsReturn(n: nat, sched: seq<Choice>, more: seq<Choice>)
    requires Productive(Next, Starts, After(n, sched), more)
    ensures var r := Exec(Next, After(n, sched), more);
            && |more| + Measure(r) <= Measure(After(n, sched))
            && ((forall c: Choice | c.t < |r.pc| :: Starts(r, c) || Next(r, c) == r) ==>
                r.heap == map[] && forall t: nat | t < |r.pc| :: r.pc[t].Idle?)
  {
    RunIsFair(n, sched);
    forall s, c: Choice | Inv(s) ensures Inv(Next(s, c)) { NextKeepsInv(s, c); }
    forall s, c: Choice | Inv(s) && !Starts(s, c) && Next(s, c) != s ensures Measure(Next(s, c)) < Measure(s) {
      MeasureFalls(s, c);
    }
    ProductiveRunsEnd(Next, Starts, Inv, Measure, After(n, sched), more);
    var r := Exec(Next, After(n, sched), more);
    if u: nat :| u < |r.pc| && !r.pc[u].Idle? {
      var c := NoDeadlock(r, u);
    } else {
      forall a ensures a !in r.heap { assert Owned(r, a); }
    }
  }

  /** The addresses thread `t` is about to use are live. */
  predicate Safe(s: State, t: nat)
    requires t < |s.pc|
  {
    var p := s.pc[t];
    && (HasNode(p) ==> p.node > 0 && p.node in s.heap)
    && (p.Link? ==> p.pred == HEAD || p.pred in s.heap)
    && (p.Wake? ==> p.succ > 0 && p.succ in s.heap)
  }

  lemma AddressesAreLive(s: State, t: nat)
    requires Inv(s) && t < |s.pc|
    ensures Safe(s, t)
  {
    Neighbours(s, t);
  }

  /** The lock object with its node, the allocated nodes and where each thread is. */
  class K42Lock {
    var tail: int
    var headNext: int
    var heap: map<int, Cell>
    var pc: seq<PC>
    ghost var owner: map<int, nat>
    ghost var arrivals: seq<nat>
    ghost var served: nat
    ghost var ticket: seq<nat>

    ghost function Snapshot(): State
      reads this
    {
      State(tail, headNext, heap, false, pc, owner, arrivals, served, ticket)
    }

    ghost predicate Valid()
      reads this
    {
      Inv(Snapshot())
    }

    constructor (n: nat)
      ensures Valid() && Snapshot() == Init(n)
    {
      tail, headNext, heap := NULL, NULL, map[];
      pc := seq(n, i => Idle);
      owner, arrivals, served, ticket := map[], [], 0, seq(n, i => 0);
    }

    /** `predecessor->next.store(node)` and the like. */
    method StoreNext(p: int, v: int)
      requires p == HEAD || p in heap
      modifies this`headNext, this`heap
      ensures Snapshot() == old(Snapshot()).StoreNext(p, v)
    {
      if p == HEAD {
        headNext := v;
      } else {
        heap := heap[p := heap[p].(next := v)];
      }
    }

    /** One step of `Acquire` by thread `t` until it has the lock; `addr` is what `new` returns. */
    method AcquireStep(t: nat, addr: int, ghost c: Choice)
      requires Shape(Snapshot()) && t < |pc| && Safe(Snapshot(), t) && Acquiring(pc[t]) && c == Choice(t, addr)
      requires pc[t].Idle? ==> addr > 0 && addr !in heap
      modifies this
      ensures Snapshot() == Acquire(old(Snapshot()), c)
    {
      match pc[t] {
        case Idle =>
          heap := heap[addr := Cell(NULL, false)];
          owner := owner[addr := t];
          pc := pc[t := Clear(addr)];
        case Clear(node) =>
          StoreNext(node, NULL);
          pc := pc[t := Swap(node)];
        case Swap(node) =>
          var pred := tail;
          tail := node;
          ticket, arrivals := ticket[t := |arrivals|], arrivals + [t];
          pc := pc[t := Test(node, pred)];
        case Test(node, pred) => pc := pc[t := if pred != NULL then SetLocked(node, pred) else Check(node)];
        case SetLocked(node, pred) =>
          heap := heap[node := heap[node].(locked := true)];
          pc := pc[t := Link(node, pred)];
        case Link(node, pred) =>
          StoreNext(pred, node);
          pc := pc[t := Spin(node)];
        case Spin(node) =>
          if !heap[node].locked {
            pc := pc[t := Check(node)];
          }
      }
    }

    /** One step of `Acquire` by the thread that has the lock: its node gives way to the lock's own and is deleted. */
    method ConvertStep(t: nat)
      requires Shape(Snapshot()) && t < |pc| && Safe(Snapshot(), t) && Converting(pc[t])
      modifies this
      ensures Snapshot() == Convert(old(Snapshot()), t)
    {
      match pc[t] {
        case Check(node) =>
          var successor := heap[node].next;
          pc := pc[t := if successor == NULL then ClearHead(node) else Forward(node, successor)];
        case ClearHead(node) =>
          headNext := NULL;
          pc := pc[t := CasTail(node)];
        case CasTail(node) =>
          if tail == node {
            tail := HEAD;
            pc := pc[t := Delete(node)];
          } else {
            pc := pc[t := AwaitLink(node)];
          }
        case AwaitLink(node) =>
          var successor := heap[node].next;
          if successor != NULL {
            pc := pc[t := Forward(node, successor)];
          }
        case Forward(node, successor) =>
          headNext := successor;
          pc := pc[t := Delete(node)];
        case Delete(node) =>
          heap := heap - {node};
          pc := pc[t := Critical];
      }
    }

    /** One step of `Release` by thread `t`. */
    method ReleaseStep(t: nat)
      requires Shape(Snapshot()) && t < |pc| && Safe(Snapshot(), t) && Holds(pc[t]) && !Converting(pc[t])
      modifies this
      ensures Snapshot() == Release(old(Snapshot()), t)
    {
      match pc[t] {
        case Critical => pc := pc[t := LoadHead];
        case LoadHead => pc := pc[t := if headNext != NULL then Wake(headNext) else CasHead];
        case CasHead =>
          if tail == HEAD {
            tail := NULL;
            served := served + 1;
            pc := pc[t := Idle];
          } else {
            pc := pc[t := AwaitHead];
          }
        case AwaitHead =>
          if headNext != NULL {
            pc := pc[t := Wake(headNext)];
          }
        case Wake(successor) =>
          heap := heap[successor := heap[successor].(locked := false)];
          served := served + 1;
          pc := pc[t := Idle];
      }
    }

    /** One atomic step of thread `t`; `addr` is any unused address, for when the step allocates. */
    method Step(t: nat, addr: int)
      requires Valid() && t < |pc|
      requires pc[t].Idle? ==> addr > 0 && addr !in heap
      modifies this
      ensures Valid() && Snapshot() == Next(old(Snapshot()), Choice(t, addr))
    {
      AddressesAreLive(Snapshot(), t);
      NextKeepsInv(Snapshot(), Choice(t, addr));
      if Acquiring(pc[t]) {
        AcquireStep(t, addr, Choice(t, addr));
      } else if Converting(pc[t]) {
        ConvertStep(t);
      } else {
        ReleaseStep(t);
      }
    }
  }
}
