/** The Hemlock lock, src/hem.h: one `Grant` word per thread serves every lock the thread ever releases. */
module Hem {
  import opened FifoLock
  import opened Runs
  import opened Sums

  /**
   * Where a thread is; one constructor per atomic access, `lk` is the lock of the call and the rest are live
   * locals.
   */
  datatype PC =
    | Idle
    // Acquire
    | CheckGrant(lk: nat)
    | Swap(lk: nat)
    | Test(lk: nat, pred: int)
    | Await(lk: nat, pred: int)
    | Clear(lk: nat, pred: int)
    | CheckTail(lk: nat)
    // Release
    | CheckFree(lk: nat)
    | Cas(lk: nat)
    | CheckSeen(lk: nat, v: int)
    | Give(lk: nat)
    | Drain(lk: nat)

  /**
   * `tail` is per lock, `grant` per thread. `fault` records a failed assertion. `held` says which locks a
   * thread may release; it and the last three fields, indexed by lock, are history: who exchanged on the
   * lock's tail, how many of those have left, and each thread's last arrival number there.
   */
  datatype State = State(
    tail: seq<int>, grant: seq<int>, pc: seq<PC>, fault: bool, held: seq<set<nat>>,
    arrivals: seq<seq<nat>>, served: seq<nat>, ticket: seq<seq<int>>)
  {
    function Goto(t: nat, p: PC): State
      requires t < |pc|
    {
      this.(pc := pc[t := p])
    }

    function Assert(ok: bool): State {
      this.(fault := fault || !ok)
    }

    /** Thread `t` gives up lock `lk`. */
    function Leave(t: nat, lk: nat): State
      requires t < |held| && lk < |served|
    {
      this.(held := held[t := held[t] - {lk}], served := served[lk := served[lk] + 1])
    }
  }

  /** The scheduler picks the thread and, if it is idle, the call it makes: any lock, but no held one again. */
  datatype Choice = Choice(t: nat, lk: nat, release: bool)

  function Init(n: nat, m: nat): State {
    State(seq(m, i => NULL), seq(n, i => NULL), seq(n, i => Idle), false, seq(n, i => {}),
          seq(m, i => []), seq(m, i => 0), seq(m, i => seq(n, j => 0)))
  }

  predicate Shape(s: State) {
    && |s.grant| == |s.held| == |s.pc|
    && |s.tail| == |s.arrivals| == |s.served| == |s.ticket|
    && forall lk {:trigger s.ticket[lk]} | 0 <= lk < |s.ticket| :: |s.ticket[lk]| == |s.pc|
  }

  predicate Known(s: State, p: PC) {
    p.Idle? || p.lk < |s.tail|
  }

  /** One atomic step; a failed spin, or a call the caller may not make, leaves the state as it was. */
  function Next(s: State, c: Choice): State {
    if !Shape(s) || c.t >= |s.pc| || !Known(s, s.pc[c.t]) then s else
    var t := c.t;
    match s.pc[t]
    case Idle =>
      if c.release && c.lk in s.held[t] then s.Goto(t, CheckFree(c.lk))
      else if !c.release && c.lk < |s.tail| && c.lk !in s.held[t] then s.Goto(t, CheckGrant(c.lk))
      else s
    case CheckGrant(lk) => s.Assert(s.grant[t] == NULL).Goto(t, Swap(lk))
    case Swap(lk) =>
      s.(tail := s.tail[lk := t], arrivals := s.arrivals[lk := s.arrivals[lk] + [t]],
         ticket := s.ticket[lk := s.ticket[lk][t := |s.arrivals[lk]|]]).Goto(t, Test(lk, s.tail[lk]))
    case Test(lk, pred) => s.Goto(t, if pred == NULL then CheckTail(lk) else Await(lk, pred))
    case Await(lk, pred) => if 0 <= pred < |s.grant| && s.grant[pred] == lk then s.Goto(t, Clear(lk, pred)) else s
    case Clear(lk, pred) => s.(grant := Put(s.grant, pred, NULL)).Goto(t, CheckTail(lk))
    case CheckTail(lk) => s.Assert(s.tail[lk] != NULL).(held := s.held[t := s.held[t] + {lk}]).Goto(t, Idle)
    case CheckFree(lk) => s.Assert(s.grant[t] == NULL).Goto(t, Cas(lk))
    case Cas(lk) =>
      if s.tail[lk] == t then s.(tail := s.tail[lk := NULL]).Leave(t, lk).Goto(t, CheckSeen(lk, t))
      else s.Goto(t, CheckSeen(lk, s.tail[lk]))
    case CheckSeen(lk, v) => s.Assert(v != NULL).Goto(t, if v == t then Idle else Give(lk))
    case Give(lk) => s.(grant := s.grant[t := lk]).Leave(t, lk).Goto(t, Drain(lk))
    case Drain(lk) => if s.grant[t] == NULL then s.Goto(t, Idle) else s
  }

  /** What the step means for lock `lk`: queue at the exchange, enter when the wait is over, leave on giving up. */
  function Label(s: State, c: Choice, lk: nat): Event {
    if !Shape(s) || c.t >= |s.pc| || s.pc[c.t].Idle? || s.pc[c.t].lk != lk || lk >= |s.tail| then Tau else
    match s.pc[c.t]
    case Swap(_) => Enqueue(c.t)
    case Test(_, pred) => if pred == NULL then Enter(c.t) else Tau
    case Await(_, pred) => if 0 <= pred < |s.grant| && s.grant[pred] == lk then Enter(c.t) else Tau
    case Cas(_) => if s.tail[lk] == c.t then Exit(c.t) else Tau
    case Give(_) => Exit(c.t)
    case _ => Tau
  }

  predicate Waits(s: State, lk: nat, t: nat)
    requires t < |s.pc|
  {
    (s.pc[t].Test? || s.pc[t].Await?) && s.pc[t].lk == lk
  }

  predicate Holds(s: State, lk: nat, t: nat)
    requires t < |s.pc| && t < |s.held|
  {
    lk in s.held[t] || ((s.pc[t].Clear? || s.pc[t].CheckTail?) && s.pc[t].lk == lk)
  }

  predicate Queued(s: State, lk: nat, t: nat)
    requires t < |s.pc| && t < |s.held|
  {
    Waits(s, lk, t) || Holds(s, lk, t)
  }

  /** Lock `lk` has just been given up by `p`, whose `Grant` says so and stays so until the successor clears it. */
  ghost predicate Given(s: State, lk: nat, p: int)
    requires Shape(s) && lk < |s.tail|
  {
    && 0 <= p < |s.pc| && s.pc[p] == Drain(lk) && s.grant[p] == lk
    && 0 < s.served[lk] <= |s.arrivals[lk]| && s.arrivals[lk][s.served[lk] - 1] == p
  }

  ghost predicate At(s: State, lk: nat, k: nat)
    requires Shape(s) && lk < |s.tail|
  {
    k < |s.arrivals[lk]| && s.arrivals[lk][k] < |s.pc| && s.ticket[lk][s.arrivals[lk][k]] == k
        && Queued(s, lk, s.arrivals[lk][k])
  }

  /** Thread `t` is queued for `lk` at its ticket, and the words of the lock and its predecessor say so. */
  ghost predicate Local(s: State, lk: nat, t: nat)
    requires Shape(s) && lk < |s.tail| && t < |s.pc|
  {
    var k := s.ticket[lk][t];
    && s.served[lk] <= k < |s.arrivals[lk]|
    && s.arrivals[lk][k] == t
    && (k > s.served[lk] ==> Waits(s, lk, t))
    && (Waits(s, lk, t) ==>
          if k > s.served[lk] then s.pc[t].pred == s.arrivals[lk][k - 1]
          else (s.pc[t].Test? && s.pc[t].pred == NULL) || Given(s, lk, s.pc[t].pred))
    && (s.pc[t].Clear? && s.pc[t].lk == lk ==> Given(s, lk, s.pc[t].pred))
    && (lk in s.held[t] && (s.pc[t].CheckSeen? || s.pc[t].Give?) && s.pc[t].lk == lk ==> k + 1 < |s.arrivals[lk]|)
  }

  /**
   * The call thread `t` is in fits the locks it holds, and its `Grant` is set only while its successor has
   * yet to see it.
   */
  ghost predicate Single(s: State, t: nat)
    requires Shape(s) && t < |s.pc|
  {
    var p := s.pc[t];
    && Known(s, p) && (forall lk | lk in s.held[t] :: lk < |s.tail|)
    && (match p
        case Idle => true
        case CheckFree(lk) => lk in s.held[t]
        case Cas(lk) => lk in s.held[t]
        case Give(lk) => lk in s.held[t]
        case CheckSeen(lk, v) => v != NULL && (lk in s.held[t] <==> v != t)
        case _ => p.lk !in s.held[t])
    && (s.grant[t] != NULL ==>
          && p.Drain? && s.grant[t] == p.lk && Given(s, p.lk, t)
          && s.served[p.lk] < |s.arrivals[p.lk]|
          && var w := s.arrivals[p.lk][s.served[p.lk]];
             w < |s.pc| && (Waits(s, p.lk, w) || s.pc[w].Clear?) && s.pc[w].lk == p.lk && s.pc[w].pred == t)
  }

  ghost predicate TailAt(s: State, lk: nat)
    requires Shape(s) && lk < |s.tail|
  {
    && s.served[lk] <= |s.arrivals[lk]|
    && s.tail[lk] == if s.served[lk] == |s.arrivals[lk]| then NULL else s.arrivals[lk][|s.arrivals[lk]| - 1]
  }

  ghost predicate Inv(s: State) {
    && Shape(s)
    && !s.fault
    && (forall lk {:trigger TailAt(s, lk)} :: 0 <= lk < |s.tail| ==> TailAt(s, lk))
    && (forall lk, k {:trigger At(s, lk, k)} ::
          0 <= lk < |s.tail| && s.served[lk] <= k < |s.arrivals[lk]| ==> At(s, lk, k))
    && (forall lk, t {:trigger Local(s, lk, t)} :: 0 <= lk < |s.tail| && 0 <= t < |s.pc| && Queued(s, lk, t) ==>
        Local(s, lk, t))
    && (forall t {:trigger Single(s, t)} :: 0 <= t < |s.pc| ==> Single(s, t))
  }

  /** No assertion of the code fails. */
  lemma NextIsSafe(s: State, c: Choice)
    requires Inv(s) && c.t < |s.pc|
    ensures !Next(s, c).fault
  {
    assert Single(s, c.t);
    if !s.pc[c.t].Idle? {
      assert TailAt(s, s.pc[c.t].lk);
      if s.pc[c.t].CheckTail? { assert Local(s, s.pc[c.t].lk, c.t); }
    }
  }

  /** What the invariant says about a queued thread, its neighbours in the queue, and the front. */
  lemma Around(s: State, lk: nat, t: nat)
    requires Inv(s) && lk < |s.tail| && t < |s.pc|
    ensures TailAt(s, lk) && Single(s, t)
    ensures s.served[lk] < |s.arrivals[lk]| ==>
              At(s, lk, s.served[lk]) && At(s, lk, |s.arrivals[lk]| - 1) &&
              Local(s, lk, s.arrivals[lk][|s.arrivals[lk]| - 1])
    ensures Queued(s, lk, t) ==> Local(s, lk, t)
    ensures Queued(s, lk, t) && s.ticket[lk][t] + 1 < |s.arrivals[lk]| ==> At(s, lk, s.ticket[lk][t] + 1)
    ensures Queued(s, lk, t) && s.served[lk] < s.ticket[lk][t] ==> At(s, lk, s.ticket[lk][t] - 1)
  {
    assert TailAt(s, lk) && Single(s, t);
    if s.served[lk] < |s.arrivals[lk]| {
      assert At(s, lk, s.served[lk]) && At(s, lk, |s.arrivals[lk]| - 1);
      assert Local(s, lk, s.arrivals[lk][|s.arrivals[lk]| - 1]);
    }
    if Queued(s, lk, t) {
      assert Local(s, lk, t);
      if s.ticket[lk][t] + 1 < |s.arrivals[lk]| { assert At(s, lk, s.ticket[lk][t] + 1); }
      if s.served[lk] < s.ticket[lk][t] { assert At(s, lk, s.ticket[lk][t] - 1); }
    }
  }

  /** A step that touches no queue: only thread `t` moves, staying queued for the same locks. */
  ghost predicate Moved(s: State, r: State, t: nat)
    requires Shape(s) && t < |s.pc|
  {
    && Shape(r) && |r.pc| == |s.pc| && r.tail == s.tail && r.arrivals == s.arrivals && r.served == s.served
        && r.ticket == s.ticket
    && (forall u | 0 <= u < |s.pc| && u != t :: r.pc[u] == s.pc[u] && r.held[u] == s.held[u])
    && (forall lk :: 0 <= lk < |s.tail| ==> Queued(r, lk, t) == Queued(s, lk, t))
  }

  lemma MovedKeepsQueues(s: State, r: State, t: nat)
    requires Inv(s) && t < |s.pc| && Moved(s, r, t)
    ensures forall lk {:trigger TailAt(r, lk)} :: 0 <= lk < |r.tail| ==> TailAt(r, lk)
    ensures forall lk, k {:trigger At(r, lk, k)} :: 0 <= lk < |r.tail| && r.served[lk] <= k < |r.arrivals[lk]| ==>
        At(r, lk, k)
  {
    forall lk: nat | lk < |r.tail| ensures TailAt(r, lk) { assert TailAt(s, lk); }
    forall lk: nat, k: nat | lk < |r.tail| && r.served[lk] <= k < |r.arrivals[lk]| ensures At(r, lk, k) {
      assert At(s, lk, k);
    }
  }

  lemma SwapKeepsLocal(s: State, c: Choice, l: nat, u: nat)
    requires Inv(s) && c.t < |s.pc| && s.pc[c.t].Swap? && l < |s.tail| && u < |s.pc| && Queued(Next(s, c), l, u)
    ensures Shape(Next(s, c)) && |Next(s, c).tail| == |s.tail| && |Next(s, c).pc| == |s.pc| && Local(Next(s, c), l, u)
  {
    assert Single(s, c.t);
    if l == s.pc[c.t].lk { Around(s, l, c.t); }
    Around(s, l, u);
    hide Inv, Single;
  }

  lemma SwapKeepsSingle(s: State, c: Choice, u: nat)
    requires Inv(s) && c.t < |s.pc| && s.pc[c.t].Swap? && u < |s.pc|
    ensures Shape(Next(s, c)) && |Next(s, c).pc| == |s.pc| && Single(Next(s, c), u)
  {
    assert Single(s, c.t) && Single(s, u);
    Around(s, s.pc[c.t].lk, c.t);
  }

  lemma SwapKeepsInv(s: State, c: Choice)
    requires Inv(s) && c.t < |s.pc| && s.pc[c.t].Swap?
    ensures Inv(Next(s, c))
  {
    assert Single(s, c.t);
    var r, t, lk := Next(s, c), c.t, s.pc[c.t].lk;
    Around(s, lk, t);
    forall l: nat | l < |r.tail| ensures TailAt(r, l) { assert TailAt(s, l); }
    forall l: nat, k: nat | l < |r.tail| && r.served[l] <= k < |r.arrivals[l]| ensures At(r, l, k) {
      if l != lk || k < |s.arrivals[lk]| { assert At(s, l, k); }
    }
    forall l: nat, u: nat | l < |r.tail| && u < |r.pc| && Queued(r, l, u) ensures Local(r, l, u) {
      SwapKeepsLocal(s, c, l, u);
    }
    forall u: nat | u < |r.pc| ensures Single(r, u) { SwapKeepsSingle(s, c, u); }
  }

  /** The steps that store to no `Grant` and keep every thread queued where it is. */
  predicate Quiet(s: State, c: Choice) {
    && Shape(s) && c.t < |s.pc| && Known(s, s.pc[c.t])
    && match s.pc[c.t]
       case Swap(_) => false
       case Clear(_, _) => false
       case Cas(lk) => s.tail[lk] != c.t
       case Give(_) => false
       case _ => true
  }

  lemma QuietMoves(s: State, c: Choice)
    requires Inv(s) && c.t < |s.pc| && Quiet(s, c)
    ensures Moved(s, Next(s, c), c.t) && Next(s, c).grant == s.grant
  {
    assert Single(s, c.t);
  }

  lemma QuietKeepsOther(s: State, c: Choice, l: nat, u: nat)
    requires Inv(s) && c.t < |s.pc| && Quiet(s, c) && l < |s.tail| && u < |s.pc| && u != c.t && Queued(s, l, u)
    requires Moved(s, Next(s, c), c.t) && Next(s, c).grant == s.grant
    ensures Local(Next(s, c), l, u)
  {
    assert Local(s, l, u) && Single(s, c.t);
  }

  lemma QuietKeepsOwn(s: State, c: Choice, l: nat)
    requires Inv(s) && c.t < |s.pc| && Quiet(s, c) && l < |s.tail| && Queued(s, l, c.t)
    requires Moved(s, Next(s, c), c.t)
    ensures Local(Next(s, c), l, c.t)
  {
    Around(s, l, c.t);
    if s.pc[c.t].Await? && 0 <= s.pc[c.t].pred < |s.pc| { assert Single(s, s.pc[c.t].pred); }
  }

  lemma QuietKeepsSingle(s: State, c: Choice, u: nat)
    requires Inv(s) && c.t < |s.pc| && Quiet(s, c) && u < |s.pc|
    requires Moved(s, Next(s, c), c.t) && Next(s, c).grant == s.grant
    ensures Single(Next(s, c), u)
  {
    assert Single(s, u) && Single(s, c.t);
    if s.pc[c.t].Cas? { Around(s, s.pc[c.t].lk, c.t); }
    if s.pc[c.t].Test? { assert Local(s, s.pc[c.t].lk, c.t); }
    if s.pc[c.t].CheckTail? { assert Local(s, s.pc[c.t].lk, c.t); }
  }

  lemma QuietKeepsInv(s: State, c: Choice)
    requires Inv(s) && c.t < |s.pc| && Quiet(s, c)
    ensures Inv(Next(s, c))
  {
    var r := Next(s, c);
    QuietMoves(s, c);
    MovedKeepsQueues(s, r, c.t);
    NextIsSafe(s, c);
    forall l: nat, u: nat | l < |r.tail| && u < |r.pc| && Queued(r, l, u) ensures Local(r, l, u) {
      if u == c.t { QuietKeepsOwn(s, c, l); } else { QuietKeepsOther(s, c, l, u); }
    }
    forall u: nat | u < |r.pc| ensures Single(r, u) { QuietKeepsSingle(s, c, u); }
  }

  /** The successor clears its predecessor's `Grant`. */
  lemma ClearKeepsLocal(s: State, c: Choice, l: nat, u: nat)
    requires Inv(s) && c.t < |s.pc| && s.pc[c.t].Clear? && l < |s.tail| && u < |s.pc| && Queued(Next(s, c), l, u)
    requires Moved(s, Next(s, c), c.t)
    ensures Local(Next(s, c), l, u)
  {
    assert Single(s, c.t) && Local(s, s.pc[c.t].lk, c.t);
    assert Local(s, l, u);
  }

  lemma ClearKeepsSingle(s: State, c: Choice, u: nat)
    requires Inv(s) && c.t < |s.pc| && s.pc[c.t].Clear? && u < |s.pc|
    requires Moved(s, Next(s, c), c.t)
    ensures Single(Next(s, c), u)
  {
    assert Single(s, c.t) && Local(s, s.pc[c.t].lk, c.t) && Single(s, u);
    assert Single(s, s.pc[c.t].pred);
  }

  lemma ClearMoves(s: State, c: Choice)
    requires Inv(s) && c.t < |s.pc| && s.pc[c.t].Clear?
    ensures Moved(s, Next(s, c), c.t)
  {
    assert Single(s, c.t);
  }

  lemma ClearKeepsInv(s: State, c: Choice)
    requires Inv(s) && c.t < |s.pc| && s.pc[c.t].Clear?
    ensures Inv(Next(s, c))
  {
    var r := Next(s, c);
    ClearMoves(s, c);
    MovedKeepsQueues(s, r, c.t);
    NextIsSafe(s, c);
    forall l: nat, u: nat | l < |r.tail| && u < |r.pc| && Queued(r, l, u) ensures Local(r, l, u) {
      ClearKeepsLocal(s, c, l, u);
    }
    forall u: nat | u < |r.pc| ensures Single(r, u) { ClearKeepsSingle(s, c, u); }
  }

  /** Thread `t` stops being queued for `lk`: by the CAS when nobody waits, else by the store to its `Grant`. */
  predicate Leaves(s: State, c: Choice) {
    Shape(s) && c.t < |s.pc| && Known(s, s.pc[c.t]) &&
    ((s.pc[c.t].Cas? && s.tail[s.pc[c.t].lk] == c.t) || s.pc[c.t].Give?)
  }

  lemma LeaveFromFront(s: State, c: Choice)
    requires Inv(s) && c.t < |s.pc| && Leaves(s, c)
    ensures var lk := s.pc[c.t].lk;
      && lk in s.held[c.t] && s.ticket[lk][c.t] == s.served[lk] < |s.arrivals[lk]|
      && s.arrivals[lk][s.served[lk]] == c.t
      && (s.pc[c.t].Cas? <==> s.served[lk] + 1 == |s.arrivals[lk]|)
      && s.grant[c.t] == NULL
  {
    assert Single(s, c.t);
    Around(s, s.pc[c.t].lk, c.t);
  }

  lemma LeaveKeepsShape(s: State, c: Choice)
    requires Inv(s) && c.t < |s.pc| && Leaves(s, c)
    ensures var r := Next(s, c); Shape(r) && |r.tail| == |s.tail| && |r.pc| == |s.pc| && r.fault == s.fault
    ensures forall l {:trigger TailAt(Next(s, c), l)} :: 0 <= l < |s.tail| ==> TailAt(Next(s, c), l)
  {
    LeaveFromFront(s, c);
    forall l: nat | l < |s.tail| ensures TailAt(Next(s, c), l) { assert TailAt(s, l); }
  }

  lemma LeaveKeepsAt(s: State, c: Choice, l: nat, k: nat)
    requires Inv(s) && c.t < |s.pc| && Leaves(s, c) && Shape(Next(s, c)) && l < |s.tail|
        && |Next(s, c).tail| == |s.tail|
    requires Next(s, c).served[l] <= k < |Next(s, c).arrivals[l]|
    ensures At(Next(s, c), l, k)
  {
    LeaveFromFront(s, c);
    assert At(s, l, k);
  }

  lemma LeaveKeepsLocal(s: State, c: Choice, l: nat, u: nat)
    requires Inv(s) && c.t < |s.pc| && Leaves(s, c) && Shape(Next(s, c)) && l < |s.tail|
        && |Next(s, c).tail| == |s.tail|
    requires u < |s.pc| == |Next(s, c).pc| && Queued(Next(s, c), l, u)
    ensures Local(Next(s, c), l, u)
  {
    LeaveFromFront(s, c);
    Around(s, l, u);
  }

  lemma LeaveKeepsSingle(s: State, c: Choice, u: nat)
    requires Inv(s) && c.t < |s.pc| && Leaves(s, c) && Shape(Next(s, c)) && |Next(s, c).tail| == |s.tail|
    requires u < |s.pc| == |Next(s, c).pc|
    ensures Single(Next(s, c), u)
  {
    LeaveFromFront(s, c);
    assert Single(s, u) && Single(s, c.t);
    Around(s, s.pc[c.t].lk, c.t);
    if s.pc[c.t].Give? { assert Local(s, s.pc[c.t].lk, s.arrivals[s.pc[c.t].lk][s.served[s.pc[c.t].lk] + 1]); }
  }

  lemma LeaveKeepsInv(s: State, c: Choice)
    requires Inv(s) && c.t < |s.pc| && Leaves(s, c)
    ensures Inv(Next(s, c))
  {
    var r := Next(s, c);
    LeaveKeepsShape(s, c);
    forall l: nat, k: nat | l < |r.tail| && r.served[l] <= k < |r.arrivals[l]| ensures At(r, l, k) {
      LeaveKeepsAt(s, c, l, k);
    }
    forall l: nat, u: nat | l < |r.tail| && u < |r.pc| && Queued(r, l, u) ensures Local(r, l, u) {
      LeaveKeepsLocal(s, c, l, u);
    }
    forall u: nat | u < |r.pc| ensures Single(r, u) { LeaveKeepsSingle(s, c, u); }
  }

  /** Every atomic step, whatever the scheduler and the callers do, keeps the invariant. */
  lemma NextKeepsInv(s: State, c: Choice)
    requires Inv(s)
    ensures Inv(Next(s, c))
  {
    if c.t < |s.pc| {
      assert Single(s, c.t);
      if s.pc[c.t].Swap? { SwapKeepsInv(s, c); }
      else if s.pc[c.t].Clear? { ClearKeepsInv(s, c); }
      else if Leaves(s, c) { LeaveKeepsInv(s, c); }
      else { QuietKeepsInv(s, c); }
    }
  }

  /** The abstract lock that the state holds for lock `lk`. */
  function Abs(s: State, lk: nat): Lock {
    if !Shape(s) || lk >= |s.tail| then FREE
    else
      Lock(s.arrivals[lk], s.served[lk],
           s.served[lk] < |s.arrivals[lk]| && s.arrivals[lk][s.served[lk]] < |s.pc|
               && Holds(s, lk, s.arrivals[lk][s.served[lk]]))
  }

  lemma OwnerIsFront(s: State, lk: nat, t: nat)
    requires Inv(s) && lk < |s.tail| && t < |s.pc| && Queued(s, lk, t)
    ensures s.served[lk] <= s.ticket[lk][t] < |s.arrivals[lk]| && s.arrivals[lk][s.ticket[lk][t]] == t
        && At(s, lk, s.served[lk])
    ensures Abs(s, lk).held <==> Holds(s, lk, s.arrivals[lk][s.served[lk]])
    ensures Holds(s, lk, t) ==> s.ticket[lk][t] == s.served[lk]
  {
    assert Local(s, lk, t) && At(s, lk, s.served[lk]) && Single(s, t);
  }

  lemma SwapRefines(s: State, c: Choice, lk: nat)
    requires Inv(s) && c.t < |s.pc| && Label(s, c, lk).Enqueue?
    ensures Abs(s, lk).Valid() && c.t !in Abs(s, lk).Queue()
    ensures Abs(Next(s, c), lk) == Apply(Abs(s, lk), Label(s, c, lk))
  {
    assert Single(s, c.t) && TailAt(s, lk);
    forall k: nat | s.served[lk] <= k < |s.arrivals[lk]| ensures s.arrivals[lk][k] != c.t { assert At(s, lk, k); }
    if s.served[lk] < |s.arrivals[lk]| { assert At(s, lk, s.served[lk]); }
  }

  lemma LeaveRefines(s: State, c: Choice, lk: nat)
    requires Inv(s) && c.t < |s.pc| && Label(s, c, lk).Exit?
    ensures Allowed(Abs(s, lk), Label(s, c, lk))
    ensures Abs(Next(s, c), lk) == Apply(Abs(s, lk), Label(s, c, lk))
  {
    assert Single(s, c.t);
    LeaveFromFront(s, c);
    OwnerIsFront(s, lk, c.t);
    if s.served[lk] + 1 < |s.arrivals[lk]| {
      assert At(s, lk, s.served[lk] + 1);
      OwnerIsFront(s, lk, s.arrivals[lk][s.served[lk] + 1]);
    }
  }

  lemma EnterRefines(s: State, c: Choice, lk: nat)
    requires Inv(s) && c.t < |s.pc| && Label(s, c, lk).Enter?
    ensures Allowed(Abs(s, lk), Label(s, c, lk))
    ensures Abs(Next(s, c), lk) == Apply(Abs(s, lk), Label(s, c, lk))
  {
    assert Single(s, c.t) && TailAt(s, lk);
    Around(s, lk, c.t);
    OwnerIsFront(s, lk, c.t);
    if s.pc[c.t].Await? { assert Single(s, s.pc[c.t].pred); }
  }

  /** Steps that mean nothing for `lk`: local moves, and every step of a call on another lock. */
  lemma TauRefines(s: State, c: Choice, lk: nat)
    requires Inv(s) && c.t < |s.pc| && Label(s, c, lk).Tau? && lk < |s.tail|
    ensures Abs(s, lk).Valid()
    ensures Abs(Next(s, c), lk) == Abs(s, lk)
  {
    assert Single(s, c.t) && TailAt(s, lk);
    if s.served[lk] < |s.arrivals[lk]| { assert At(s, lk, s.served[lk]); }
    TauKeepsHolder(s, c, lk);
  }

  lemma TauKeepsHolder(s: State, c: Choice, lk: nat)
    requires Inv(s) && c.t < |s.pc| && Label(s, c, lk).Tau? && lk < |s.tail|
    ensures var r := Next(s, c); Shape(r) && |r.tail| == |s.tail| && |r.pc| == |s.pc|
    ensures var r := Next(s, c); r.served[lk] == s.served[lk] && r.arrivals[lk] == s.arrivals[lk]
    ensures forall u: nat | u < |s.pc| :: Holds(Next(s, c), lk, u) == Holds(s, lk, u)
  {
    assert Single(s, c.t);
  }

  /** For each lock, every atomic step is an enqueue, an entry, an exit or a stutter of the abstract lock. */
  lemma NextRefines(s: State, c: Choice, lk: nat)
    requires Inv(s)
    ensures Allowed(Abs(s, lk), Label(s, c, lk))
    ensures Abs(Next(s, c), lk) == Apply(Abs(s, lk), Label(s, c, lk))
  {
    SameSizes(s, c);
    if c.t < |s.pc| && lk < |s.tail| {
      match Label(s, c, lk)
      case Enqueue(_) => SwapRefines(s, c, lk);
      case Enter(_) => EnterRefines(s, c, lk);
      case Exit(_) => LeaveRefines(s, c, lk);
      case Tau => TauRefines(s, c, lk);
    } else if lk < |s.tail| {
      assert TailAt(s, lk);
    }
  }

  lemma SameSizes(s: State, c: Choice)
    ensures |Next(s, c).pc| == |s.pc| && |Next(s, c).tail| == |s.tail|
  {
  }

  /** The states of all runs of `n` threads over `m` locks. */
  ghost function After(n: nat, m: nat, sched: seq<Choice>): State {
    Exec(Next, Init(n, m), sched)
  }

  /**
   * Over every schedule of any number of threads nesting any number of locks, each single lock behaves as
   * the abstract FIFO lock, and no assertion of the code ever fails.
   */
  lemma RunIsFair(n: nat, m: nat, sched: seq<Choice>, lk: nat)
    ensures Inv(After(n, m, sched)) && |After(n, m, sched).pc| == n && |After(n, m, sched).tail| == m
    ensures !After(n, m, sched).fault
    ensures var observe := (s: State, c: Choice) => Label(s, c, lk);
            var es := Events(Next, observe, Init(n, m), sched);
            Legal(FREE, es) && Run(FREE, es) == Abs(After(n, m, sched), lk) && Fair(es)
  {
    var inv := (s: State) => Inv(s) && |s.pc| == n && |s.tail| == m;
    var observe := (s: State, c: Choice) => Label(s, c, lk);
    var abs := (s: State) => Abs(s, lk);
    forall s, c: Choice | inv(s)
      ensures inv(Next(s, c)) && Allowed(abs(s), observe(s, c)) && abs(Next(s, c)) == Apply(abs(s), observe(s, c))
    {
      NextKeepsInv(s, c);
      NextRefines(s, c, lk);
      SameSizes(s, c);
    }
    RunRefines(Next, observe, inv, abs, Init(n, m), sched);
    FirstComeFirstServed(Events(Next, observe, Init(n, m), sched));
  }

  /** No two threads hold the same lock, whatever other locks they hold. */
  lemma MutualExclusion(n: nat, m: nat, sched: seq<Choice>, lk: nat, t: nat, u: nat)
    requires lk < m && t < n && u < n && |After(n, m, sched).pc| == n && |After(n, m, sched).held| == n
    requires Holds(After(n, m, sched), lk, t) && Holds(After(n, m, sched), lk, u)
    ensures t == u
  {
    RunIsFair(n, m, sched, lk);
    OwnerIsFront(After(n, m, sched), lk, t);
    OwnerIsFront(After(n, m, sched), lk, u);
  }

  /**
   * The one `Grant` word suffices for all locks: it is set only while its thread is at the end of releasing
   * the lock it names; exactly one thread may then clear it, the next in that lock's queue; and that thread's
   * next step is not a failed spin.
   */
  lemma GrantHasOneReader(s: State, t: nat) returns (w: nat)
    requires Inv(s) && t < |s.pc| && s.grant[t] != NULL
    ensures w < |s.pc| && s.pc[t].Drain? && s.grant[t] == s.pc[t].lk < |s.tail|
    ensures var lk := s.pc[t].lk; s.served[lk] < |s.arrivals[lk]| && w == s.arrivals[lk][s.served[lk]]
    ensures forall c: Choice | c.t < |s.pc| && |Next(s, c).grant| == |s.grant|
        && Next(s, c).grant[t] != s.grant[t] :: c.t == w
    ensures Next(s, Choice(w, 0, false)) != s && Clears(s, t, w)
  {
    assert Single(s, t);
    var lk := s.pc[t].lk;
    w := s.arrivals[lk][s.served[lk]];
    assert Single(s, w) && At(s, lk, s.served[lk]);
    forall c: Choice | c.t < |s.pc| && |Next(s, c).grant| == |s.grant|
        && Next(s, c).grant[t] != s.grant[t] ensures c.t == w {
      OnlySuccessorClears(s, t, c);
    }
    assert Next(s, Choice(w, 0, false)).pc[w] != s.pc[w];
  }

  lemma OnlySuccessorClears(s: State, t: nat, c: Choice)
    requires Inv(s) && t < |s.pc| && s.grant[t] != NULL && c.t < |s.pc|
    requires |Next(s, c).grant| == |s.grant| && Next(s, c).grant[t] != s.grant[t]
    ensures s.pc[t].Drain? && s.pc[t].lk < |s.tail|
    ensures var lk := s.pc[t].lk; s.served[lk] < |s.arrivals[lk]| && s.arrivals[lk][s.served[lk]] == c.t
  {
    assert Single(s, t) && Single(s, c.t);
    if s.pc[c.t].Clear? {
      OwnerIsFront(s, s.pc[c.t].lk, c.t);
      assert Local(s, s.pc[c.t].lk, c.t);
    }
  }

  /** How far a thread is from finishing the call it is in. */
  function Rank(p: PC): nat {
    match p
    case Idle => 0
    case CheckTail(_) => 1
    case Clear(_, _) => 2
    case Await(_, _) => 3
    case Test(_, _) => 4
    case Swap(_) => 5
    case CheckGrant(_) => 6
    case Drain(_) => 1
    case Give(_) => 2
    case CheckSeen(_, _) => 3
    case Cas(_) => 4
    case CheckFree(_) => 5
  }

  /** Thread `t`'s `Grant` stays set, for the same lock, over the whole schedule. */
  ghost predicate StaysSet(s: State, t: nat, sched: seq<Choice>) {
    t < |Exec(Next, s, sched).grant| && Exec(Next, s, sched).grant[t] != NULL &&
    (sched != [] ==> StaysSet(s, t, sched[..|sched| - 1]))
  }

  function StepsOf(w: nat, sched: seq<Choice>): nat {
    if sched == [] then 0
    else StepsOf(w, sched[..|sched| - 1]) + if sched[|sched| - 1].t == w then 1 else 0
  }

  /** Thread `w` is the one that is to clear thread `t`'s `Grant`. */
  ghost predicate Clears(s: State, t: nat, w: nat) {
    && Shape(s) && t < |s.pc| && w < |s.pc| && s.grant[t] != NULL && s.pc[t].Drain? && s.pc[t].lk < |s.tail|
    && var lk := s.pc[t].lk;
       s.served[lk] < |s.arrivals[lk]| && w == s.arrivals[lk][s.served[lk]] && 2 <= Rank(s.pc[w]) <= 4
  }

  lemma OthersWaitForClear(s: State, t: nat, w: nat, c: Choice)
    requires Inv(s) && Clears(s, t, w) && c.t != w && t < |Next(s, c).grant| && Next(s, c).grant[t] != NULL
    ensures Clears(Next(s, c), t, w) && Next(s, c).pc[w] == s.pc[w]
  {
    assert Single(s, t) && Single(s, w);
    if c.t < |s.pc| {
      assert Single(s, c.t);
      if Leaves(s, c) { LeaveFromFront(s, c); }
    }
  }

  lemma StepTowardsClear(s: State, t: nat, w: nat, c: Choice)
    requires Inv(s) && Clears(s, t, w) && t < |Next(s, c).grant| && Next(s, c).grant[t] != NULL
    ensures Clears(Next(s, c), t, w)
    ensures Rank(Next(s, c).pc[w]) + (if c.t == w then 1 else 0) == Rank(s.pc[w])
  {
    if c.t == w {
      assert Single(s, t) && Single(s, w);
      OwnerIsFront(s, s.pc[t].lk, w);
      assert Local(s, s.pc[t].lk, w);
    } else {
      hide Next;
      OthersWaitForClear(s, t, w, c);
    }
  }

  /**
   * A release does not wait for anybody: whatever all threads do, the one reader of the `Grant` word takes at
   * most two steps while it is set, and each of its steps leads to the one that clears it.
   */
  lemma {:induction false} GrantSoonCleared(s: State, t: nat, w: nat, sched: seq<Choice>)
    requires Inv(s) && Clears(s, t, w) && StaysSet(s, t, sched)
    ensures var r := Exec(Next, s, sched);
            Inv(r) && Clears(r, t, w) && StepsOf(w, sched) + Rank(r.pc[w]) == Rank(s.pc[w]) && StepsOf(w, sched) <= 2
  {
    if sched != [] {
      var before, c := sched[..|sched| - 1], sched[|sched| - 1];
      GrantSoonCleared(s, t, w, before);
      NextKeepsInv(Exec(Next, s, before), c);
      StepTowardsClear(Exec(Next, s, before), t, w, c);
    }
  }

  function Measure(s: State): nat {
    Total(Rank, s.pc)
  }

  predicate Starts(s: State, c: Choice) {
    c.t < |s.pc| && s.pc[c.t].Idle?
  }

  predicate Releasing(p: PC) {
    p.CheckFree? || p.Cas? || p.CheckSeen? || p.Give? || p.Drain?
  }

  lemma AcquireFalls(s: State, c: Choice)
    requires Shape(s) && c.t < |s.pc| && !s.pc[c.t].Idle? && !Releasing(s.pc[c.t]) && Next(s, c) != s
    ensures |Next(s, c).pc| == |s.pc| && Next(s, c).pc == s.pc[c.t := Next(s, c).pc[c.t]]
    ensures Rank(Next(s, c).pc[c.t]) < Rank(s.pc[c.t])
  {
  }

  lemma ReleaseFalls(s: State, c: Choice)
    requires Shape(s) && c.t < |s.pc| && Releasing(s.pc[c.t]) && Next(s, c) != s
    ensures |Next(s, c).pc| == |s.pc| && Next(s, c).pc == s.pc[c.t := Next(s, c).pc[c.t]]
    ensures Rank(Next(s, c).pc[c.t]) < Rank(s.pc[c.t])
  {
  }

  /**
   * A thread may acquire any lock that it does not hold, whatever others it holds, and its third step is the exchange
   * on that lock's tail.
   */
  lemma AcquireBegins(s: State, t: nat, lk: nat)
    requires Shape(s) && t < |s.pc| && s.pc[t].Idle? && lk < |s.tail| && lk !in s.held[t]
    ensures var c := Choice(t, lk, false);
            var r := Next(Next(s, c), c);
            && Next(s, c).pc[t] == CheckGrant(lk) && r.pc[t] == Swap(lk) && r.held == s.held
            && Label(r, c, lk) == Enqueue(t)
            && Next(r, c).tail[lk] == t && Next(r, c).arrivals[lk] == s.arrivals[lk] + [t]
  {
  }

  /** And it may release any lock that it holds, in any order. */
  lemma ReleaseBegins(s: State, t: nat, lk: nat)
    requires Shape(s) && t < |s.pc| && s.pc[t].Idle? && lk < |s.tail| && lk in s.held[t]
    ensures var c := Choice(t, lk, true);
            Next(s, c).pc[t] == CheckFree(lk) && Next(Next(s, c), c).pc[t] == Cas(lk) && Next(s, c).held == s.held
  {
  }

  /** An `Acquire` returns with its lock held, a `Release` with its lock given up; all other locks stay as they are. */
  lemma CallsTakeEffect(s: State, c: Choice)
    requires Inv(s) && c.t < |s.pc| && !s.pc[c.t].Idle?
    ensures |Next(s, c).pc| == |s.pc| == |Next(s, c).held|
    ensures var lk, before, after := s.pc[c.t].lk, s.held[c.t], Next(s, c).held[c.t];
            && after - {lk} == before - {lk}
            && (Next(s, c).pc[c.t].Idle? ==> (lk in after <==> !Releasing(s.pc[c.t])))
    ensures forall u | 0 <= u < |s.pc| && u != c.t :: Next(s, c).held[u] == s.held[u]
  {
    assert Single(s, c.t);
  }

  /** A step of a thread inside a call that is not a failed spin brings the locks closer to rest. */
  lemma MeasureFalls(s: State, c: Choice)
    requires Shape(s) && !Starts(s, c) && Next(s, c) != s
    ensures Measure(Next(s, c)) < Measure(s)
  {
    var r, t := Next(s, c), c.t;
    if Releasing(s.pc[t]) { ReleaseFalls(s, c); } else { AcquireFalls(s, c); }
    assert r.pc == s.pc[t := r.pc[t]];
    TotalFalls(Rank, s.pc, t, r.pc[t]);
  }

  /** No thread inside a call can take a step that is not a failed spin. */
  ghost predicate AtRest(s: State) {
    forall c: Choice | c.t < |s.pc| :: Starts(s, c) || Next(s, c) == s
  }

  lemma RestIsIdleOrWait(s: State, t: nat)
    requires Inv(s) && t < |s.pc| && AtRest(s)
    ensures s.pc[t].Idle? || s.pc[t].Await?
  {
    var c := Choice(t, 0, false);
    assert Starts(s, c) || Next(s, c) == s;
    assert Single(s, t);
    if s.pc[t].Drain? && s.grant[t] != NULL {
      var w := GrantHasOneReader(s, t);
    }
    assert s.pc[t].Idle? || Next(s, c).pc[t] == s.pc[t];
  }

  /** A thread then still in a call waits for a lock that another thread holds, which waits itself or makes no call. */
  lemma RestWaitsForHolder(s: State, t: nat) returns (h: nat)
    requires Inv(s) && t < |s.pc| && AtRest(s) && !s.pc[t].Idle?
    ensures s.pc[t].Await? && h < |s.pc| && h != t && s.pc[t].lk in s.held[h] && (s.pc[h].Idle? || s.pc[h].Await?)
  {
    RestIsIdleOrWait(s, t);
    var lk := s.pc[t].lk;
    assert Single(s, t);
    OwnerIsFront(s, lk, t);
    h := s.arrivals[lk][s.served[lk]];
    RestIsIdleOrWait(s, h);
    assert At(s, lk, s.served[lk]) && Local(s, lk, h);
    if s.pc[h].Await? {
      var c := Choice(h, 0, false);
      assert Starts(s, c) || Next(s, c) == s;
    }
  }

  /** Every thread asks only for locks greater than all that it holds. */
  ghost predicate Ascending(s: State) {
    && |s.held| == |s.pc|
    && forall t: nat, lk: nat | t < |s.pc| && s.pc[t].Await? && lk in s.held[t] :: lk < s.pc[t].lk
  }

  /** If locks are acquired in ascending order, nobody waits for nothing but other waiters: somebody may release. */
  lemma {:induction false} OrderedWaitsEnd(s: State, t: nat) returns (h: nat)
    requires Inv(s) && t < |s.pc| && AtRest(s) && Ascending(s) && !s.pc[t].Idle?
    ensures h < |s.pc| && s.pc[h].Idle? && s.held[h] != {}
    decreases |s.tail| - s.pc[t].lk
  {
    assert Single(s, t);
    h := RestWaitsForHolder(s, t);
    if !s.pc[h].Idle? {
      assert Single(s, h);
      h := OrderedWaitsEnd(s, h);
    }
  }

  /**
   * After any run, let the calls in progress go on without new ones: only `Measure` many steps other than
   * failed spins are left, and where none is left no thread is in `Release`, and a thread is in `Acquire` only
   * to wait for a lock that is held. So a deadlock can only be one of nested acquisitions.
   */
  lemma CallsEndOrWait(n: nat, m: nat, sched: seq<Choice>, more: seq<Choice>)
    requires Productive(Next, Starts, After(n, m, sched), more)
    ensures var r := Exec(Next, After(n, m, sched), more);
            && |more| + Measure(r) <= Measure(After(n, m, sched))
            && |r.pc| == |r.held| == n
            && (AtRest(r) ==> forall t: nat | t < n && !r.pc[t].Idle? ::
                  r.pc[t].Await? && exists h: nat | h < n && h != t :: r.pc[t].lk in r.held[h])
  {
    RunIsFair(n, m, sched, 0);
    var inv := (s: State) => Inv(s) && |s.pc| == n;
    forall s, c: Choice | inv(s) ensures inv(Next(s, c)) { NextKeepsInv(s, c); SameSizes(s, c); }
    forall s, c: Choice | inv(s) && !Starts(s, c) && Next(s, c) != s ensures Measure(Next(s, c)) < Measure(s) {
      MeasureFalls(s, c);
    }
    ProductiveRunsEnd(Next, Starts, inv, Measure, After(n, m, sched), more);
    var r := Exec(Next, After(n, m, sched), more);
    if AtRest(r) {
      forall t: nat | t < n && !r.pc[t].Idle?
        ensures r.pc[t].Await? && exists h: nat | h < n && h != t :: r.pc[t].lk in r.held[h]
      {
        var h := RestWaitsForHolder(r, t);
      }
    }
  }

  /** The pointers thread `t` is about to follow are threads, its lock exists, and the assertion it is at holds. */
  predicate Safe(s: State, t: nat)
    requires Shape(s) && t < |s.pc|
  {
    var p := s.pc[t];
    && Known(s, p)
    && (p.Await? || p.Clear? ==> 0 <= p.pred < |s.pc|)
    && (p.CheckGrant? || p.CheckFree? ==> s.grant[t] == NULL)
    && (p.CheckTail? ==> s.tail[p.lk] != NULL)
    && (p.CheckSeen? ==> p.v != NULL)
  }

  lemma StepIsSafe(s: State, t: nat)
    requires Inv(s) && t < |s.pc|
    ensures Safe(s, t)
  {
    assert Single(s, t);
    var p := s.pc[t];
    if p.Await? || p.Clear? || p.CheckTail? {
      assert Local(s, p.lk, t) && TailAt(s, p.lk);
      if s.served[p.lk] < s.ticket[p.lk][t] { assert At(s, p.lk, s.ticket[p.lk][t] - 1); }
    }
  }

  /** The threads' `Grant` words and the locks' tails, with where each thread is. */
  class HemLocks {
    var tail: seq<int>
    var grant: seq<int>
    var pc: seq<PC>
    ghost var held: seq<set<nat>>
    ghost var arrivals: seq<seq<nat>>
    ghost var served: seq<nat>
    ghost var ticket: seq<seq<int>>

    ghost function Snapshot(): State
      reads this
    {
      State(tail, grant, pc, false, held, arrivals, served, ticket)
    }

    ghost predicate Valid()
      reads this
    {
      Inv(Snapshot())
    }

    constructor (n: nat, m: nat)
      ensures Valid() && Snapshot() == Init(n, m)
    {
      tail, grant, pc := seq(m, i => NULL), seq(n, i => NULL), seq(n, i => Idle);
      held := seq(n, i => {});
      arrivals, served, ticket := seq(m, i => []), seq(m, i => 0), seq(m, i => seq(n, j => 0));
    }

    /** Thread `t` calls `Acquire` of a lock it does not hold. */
    method Call(t: nat, lk: nat)
      requires Valid() && t < |pc| && pc[t].Idle? && lk < |tail| && lk !in held[t]
      modifies this`pc
      ensures Valid() && Snapshot() == Next(old(Snapshot()), Choice(t, lk, false))
    {
      NextKeepsInv(Snapshot(), Choice(t, lk, false));
      pc := pc[t := CheckGrant(lk)];
    }

    /** Thread `t` calls `Release` of a lock it holds. */
    method CallRelease(t: nat, lk: nat)
      requires Valid() && t < |pc| && pc[t].Idle? && lk in held[t]
      modifies this`pc
      ensures Valid() && Snapshot() == Next(old(Snapshot()), Choice(t, lk, true))
    {
      NextKeepsInv(Snapshot(), Choice(t, lk, true));
      pc := pc[t := CheckFree(lk)];
    }

    /** One step of `Acquire` by thread `t`. */
    method AcquireStep(t: nat, ghost c: Choice)
      requires Shape(Snapshot()) && t < |pc| && Safe(Snapshot(), t) && c.t == t
      requires pc[t].CheckGrant? || pc[t].Swap? || pc[t].Test? || pc[t].Await? || pc[t].Clear? || pc[t].CheckTail?
      modifies this
      ensures Snapshot() == Next(old(Snapshot()), c)
    {
      match pc[t] {
        case CheckGrant(lk) =>
          assert grant[t] == NULL;
          pc := pc[t := Swap(lk)];
        case Swap(lk) =>
          var pred := tail[lk];
          tail := tail[lk := t];
          ticket := ticket[lk := ticket[lk][t := |arrivals[lk]|]];
          arrivals := arrivals[lk := arrivals[lk] + [t]];
          pc := pc[t := Test(lk, pred)];
        case Test(lk, pred) => pc := pc[t := if pred != NULL then Await(lk, pred) else CheckTail(lk)];
        case Await(lk, pred) =>
          if grant[pred] == lk {
            pc := pc[t := Clear(lk, pred)];
          }
        case Clear(lk, pred) =>
          grant := grant[pred := NULL];
          pc := pc[t := CheckTail(lk)];
        case CheckTail(lk) =>
          assert tail[lk] != NULL;
          held := held[t := held[t] + {lk}];
          pc := pc[t := Idle];
      }
    }

    /** One step of `Release` by thread `t`. */
    method ReleaseStep(t: nat, ghost c: Choice)
      requires Shape(Snapshot()) && t < |pc| && Safe(Snapshot(), t) && c.t == t
      requires pc[t].CheckFree? || pc[t].Cas? || pc[t].CheckSeen? || pc[t].Give? || pc[t].Drain?
      modifies this
      ensures Snapshot() == Next(old(Snapshot()), c)
    {
      match pc[t] {
        case CheckFree(lk) =>
          assert grant[t] == NULL;
          pc := pc[t := Cas(lk)];
        case Cas(lk) =>
          var v := tail[lk];
          if v == t {
            tail := tail[lk := NULL];
            held, served := held[t := held[t] - {lk}], served[lk := served[lk] + 1];
          }
          pc := pc[t := CheckSeen(lk, v)];
        case CheckSeen(lk, v) =>
          assert v != NULL;
          pc := pc[t := if v != t then Give(lk) else Idle];
        case Give(lk) =>
          grant := grant[t := lk];
          held, served := held[t := held[t] - {lk}], served[lk := served[lk] + 1];
          pc := pc[t := Drain(lk)];
        case Drain(lk) =>
          if grant[t] == NULL {
            pc := pc[t := Idle];
          }
      }
    }

    /** One atomic step of the call thread `t` is in. */
    method Step(t: nat)
      requires Valid() && t < |pc| && !pc[t].Idle?
      modifies this
      ensures Valid() && Snapshot() == Next(old(Snapshot()), Choice(t, 0, false))
    {
      ghost var c := Choice(t, 0, false);
      StepIsSafe(Snapshot(), t);
      NextKeepsInv(Snapshot(), c);
      if pc[t].CheckFree? || pc[t].Cas? || pc[t].CheckSeen? || pc[t].Give? || pc[t].Drain? {
        ReleaseStep(t, c);
      } else {
        AcquireStep(t, c);
      }
    }
  }
}
