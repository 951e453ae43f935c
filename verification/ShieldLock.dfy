/**
 * The shield over a spin lock, inc/shielding_hash.h over any of the locks: any number of threads, each with its own
 * count, calling LS_ACQUIRE and LS_RELEASE on one lock whenever they like. The shield is what keeps a thread
 * from calling the lock out of turn, which the lock itself does not notice.
 */
module ShieldLock {
  import opened ShieldDepth
  import opened ShieldSpec

  /** Where a thread is in the lock; `Left` when the lock is free for others, but `Release` has not returned. */
  datatype Phase = Out | Entering | In | Leaving | Left

  /**
   * A lock for `n` threads: its atomic steps `next`, each a step of the thread that the choice names, its states
   * from `initial` on, which satisfy `inv`, and what is left to do for the calls in progress.
   */
  datatype Protocol<!S, !C> = Protocol(
    n: nat, next: (S, C) -> S, thread: C -> nat, phase: (S, nat) -> Phase,
    initial: S, inv: S -> bool, measure: S -> nat)

  predicate Follows(f: Phase, g: Phase) {
    match f
    case Out => g.Out? || g.Entering?
    case Entering => g.Entering? || g.In?
    case In => g.In? || g.Leaving?
    case Leaving => !g.Entering? && !g.In?
    case Left => g.Left? || g.Out?
  }

  predicate Holds(f: Phase) {
    f.In? || f.Leaving?
  }

  ghost predicate Moves<S, C>(p: Protocol<S, C>, s: S, c: C) {
    forall u | 0 <= u < p.n ::
      if u == p.thread(c) then Follows(p.phase(s, u), p.phase(p.next(s, c), u))
      else p.phase(p.next(s, c), u) == p.phase(s, u)
  }

  ghost predicate Exclusive<S, C>(p: Protocol<S, C>, s: S) {
    forall t, u | 0 <= t < u < p.n :: !Holds(p.phase(s, t)) || !Holds(p.phase(s, u))
  }

  /** The lock excludes, and a step leads a thread on in its own call, or between two calls into the next. */
  ghost predicate Sound<S(!new), C(!new)>(p: Protocol<S, C>) {
    && p.inv(p.initial) && (forall t | 0 <= t < p.n :: p.phase(p.initial, t).Out?)
    && (forall s, c {:trigger p.next(s, c)} :: p.inv(s) ==> p.inv(p.next(s, c)) && Moves(p, s, c))
    && (forall s {:trigger p.inv(s)} :: p.inv(s) ==> Exclusive(p, s))
  }

  /** Only thread `t`, if any, is inside the lock. */
  ghost predicate Alone<S, C>(p: Protocol<S, C>, s: S, t: nat) {
    t < p.n && forall u | 0 <= u < p.n && u != t :: p.phase(s, u).Out?
  }

  /** The choice begins a call, or brings a call that meets no other thread nearer to its end. */
  predicate Advances<S, C>(p: Protocol<S, C>, s: S, t: nat, c: C) {
    && p.thread(c) == t
    && match p.phase(s, t)
       case Out => p.phase(p.next(s, c), t).Entering?
       case In => p.phase(p.next(s, c), t).Leaving?
       case _ => p.measure(p.next(s, c)) < p.measure(s)
  }

  /** A thread that meets no other can always go on. */
  ghost predicate Live<S(!new), C(!new)>(p: Protocol<S, C>) {
    forall s, t {:trigger Alone(p, s, t)} :: p.inv(s) && Alone(p, s, t) ==> exists c :: Advances(p, s, t, c)
  }

  /** Where a thread is in LS_ACQUIRE or LS_RELEASE. */
  datatype Stage =
    | Outside
    /** in `lock_fn`, and then before `IncrementRef` */
    | Locking
    | Recording
    /** in `unlock_fn`, and, if the lock is not reentrant, then before `DecrementRef` */
    | Unlocking
    | Erasing

  /** The lock's address. */
  const THE_LOCK := 1

  /**
   * `held` is each thread's lock table. `misused` says that some thread called `lock_fn` within a call or
   * while holding the lock, or `unlock_fn` without holding it.
   */
  datatype State<S> = State(lock: S, held: seq<Counts>, stage: seq<Stage>, reentrant: bool, misused: bool) {
    function Go(t: nat, g: Stage): State<S>
      requires t < |stage|
    {
      this.(stage := stage[t := g])
    }

    function SetHeld(t: nat, m: Counts): State<S>
      requires t < |held|
    {
      this.(held := held[t := m])
    }
  }

  /** The scheduler makes a choice for the lock and so picks a thread, and, should that be outside, its call. */
  datatype Choice<C> = Choice(step: C, acquire: bool)

  function Init<S, C>(p: Protocol<S, C>, reentrant: bool): State<S> {
    State(p.initial, seq(p.n, i => map[]), seq(p.n, i => Outside), reentrant, false)
  }

  predicate Shape<S, C>(p: Protocol<S, C>, s: State<S>) {
    |s.held| == |s.stage| == p.n
  }

  /** LS_ACQUIRE up to a call of `lock_fn`. */
  function BeginAcquire<S, C>(p: Protocol<S, C>, s: State<S>, t: nat): State<S>
    requires Shape(p, s) && t < p.n
  {
    match StatusOf(s.held[t], Acquire(THE_LOCK, s.reentrant))
    case AcquireNow => s.Go(t, Locking).(misused := s.misused || !p.phase(s.lock, t).Out?)
    case SkipAcquisition => s.SetHeld(t, Increment(s.held[t], THE_LOCK))
    case _ => s
  }

  /** LS_RELEASE up to a call of `unlock_fn`. */
  function BeginRelease<S, C>(p: Protocol<S, C>, s: State<S>, t: nat): State<S>
    requires Shape(p, s) && t < p.n
  {
    var misused := s.misused || !p.phase(s.lock, t).In?;
    match StatusOf(s.held[t], Release(THE_LOCK, s.reentrant))
    case ReleaseNow =>
      (if s.reentrant then s.SetHeld(t, Decrement(s.held[t], THE_LOCK)) else s).Go(t, Unlocking).(misused := misused)
    case SkipRelease => s.SetHeld(t, Decrement(s.held[t], THE_LOCK))
    case _ => s
  }

  /** One step of a thread; inside `lock_fn` and `unlock_fn` it is one step of the lock, or the return from it. */
  function Next<S, C>(p: Protocol<S, C>, s: State<S>, c: Choice<C>): State<S> {
    var t := p.thread(c.step);
    if !Shape(p, s) || t >= p.n then s else
    match s.stage[t]
    case Outside => if c.acquire then BeginAcquire(p, s, t) else BeginRelease(p, s, t)
    case Locking => if p.phase(s.lock, t).In? then s.Go(t, Recording) else s.(lock := p.next(s.lock, c.step))
    case Recording => s.SetHeld(t, Increment(s.held[t], THE_LOCK)).Go(t, Outside)
    case Unlocking =>
      if p.phase(s.lock, t).Out? then s.Go(t, if s.reentrant then Outside else Erasing)
      else s.(lock := p.next(s.lock, c.step))
    case Erasing => s.SetHeld(t, Decrement(s.held[t], THE_LOCK)).Go(t, Outside)
  }

  function Run<S, C>(p: Protocol<S, C>, s: State<S>, sched: seq<Choice<C>>): State<S> {
    if sched == [] then s else Next(p, Run(p, s, sched[..|sched| - 1]), sched[|sched| - 1])
  }

  /** All states that the threads can reach. */
  function After<S, C>(p: Protocol<S, C>, reentrant: bool, sched: seq<Choice<C>>): State<S> {
    Run(p, Init(p, reentrant), sched)
  }

  /** How often the thread is recorded as holding the lock. */
  function Times<S>(s: State<S>, t: nat): nat
    requires t < |s.held|
  {
    Count(s.held[t], THE_LOCK)
  }

  /** The count of a thread, its stage and its phase in the lock agree. */
  ghost predicate Agrees<S, C>(p: Protocol<S, C>, s: State<S>, t: nat)
    requires Shape(p, s) && t < p.n
  {
    var f, n := p.phase(s.lock, t), Times(s, t);
    && Positive(s.held[t])
    && (!s.reentrant ==> n <= 1)
    && match s.stage[t]
       case Outside => if n > 0 then f.In? else f.Out?
       case Locking => n == 0 && (f.Out? || f.Entering? || f.In?)
       case Recording => n == 0 && f.In?
       case Unlocking => n == (if s.reentrant then 0 else 1) && !f.Entering?
       case Erasing => !s.reentrant && n == 1 && f.Out?
  }

  ghost predicate Inv<S, C>(p: Protocol<S, C>, s: State<S>) {
    && Shape(p, s) && p.inv(s.lock) && !s.misused
    && forall t {:trigger Agrees(p, s, t)} :: 0 <= t < p.n ==> Agrees(p, s, t)
  }

  /** A step concerns one thread. */
  ghost predicate OthersStay<S, C>(p: Protocol<S, C>, s: State<S>, r: State<S>, t: nat) {
    && Shape(p, s) && Shape(p, r) && r.reentrant == s.reentrant
    && forall u | 0 <= u < p.n && u != t ::
         r.stage[u] == s.stage[u] && r.held[u] == s.held[u] && p.phase(r.lock, u) == p.phase(s.lock, u)
  }

  lemma NextAgrees<S(!new), C(!new)>(p: Protocol<S, C>, s: State<S>, c: Choice<C>)
    requires Sound(p) && Shape(p, s) && p.inv(s.lock) && !s.misused && p.thread(c.step) < p.n
    requires Agrees(p, s, p.thread(c.step))
    ensures OthersStay(p, s, Next(p, s, c), p.thread(c.step)) && p.inv(Next(p, s, c).lock)
    ensures Agrees(p, Next(p, s, c), p.thread(c.step)) && !Next(p, s, c).misused
  {
    assert Moves(p, s.lock, c.step);
  }

  /** Every step of any thread keeps counts, stages and phases in agreement. */
  lemma NextKeepsInv<S(!new), C(!new)>(p: Protocol<S, C>, s: State<S>, c: Choice<C>)
    requires Sound(p) && Inv(p, s)
    ensures Inv(p, Next(p, s, c)) && OthersStay(p, s, Next(p, s, c), p.thread(c.step))
  {
    var r, t := Next(p, s, c), p.thread(c.step);
    if t < p.n {
      assert Agrees(p, s, t);
      NextAgrees(p, s, c);
      forall u: nat | u < p.n && u != t ensures Agrees(p, r, u) { assert Agrees(p, s, u); }
    }
  }

  lemma {:induction false} RunKeepsInv<S(!new), C(!new)>(p: Protocol<S, C>, s: State<S>, sched: seq<Choice<C>>)
    requires Sound(p) && Inv(p, s)
    ensures Inv(p, Run(p, s, sched)) && Run(p, s, sched).reentrant == s.reentrant
  {
    if sched != [] {
      RunKeepsInv(p, s, sched[..|sched| - 1]);
      NextKeepsInv(p, Run(p, s, sched[..|sched| - 1]), sched[|sched| - 1]);
    }
  }

  /** Through the shield, whatever calls the threads make, the lock is never called out of turn. */
  lemma NeverMisused<S(!new), C(!new)>(p: Protocol<S, C>, reentrant: bool, sched: seq<Choice<C>>)
    requires Sound(p)
    ensures var r := After(p, reentrant, sched); Inv(p, r) && !r.misused && r.reentrant == reentrant
  {
    var s := Init(p, reentrant);
    forall t: nat | t < p.n ensures Agrees(p, s, t) {}
    RunKeepsInv(p, s, sched);
  }

  /** The calls that thread `t` has made so far, the one in progress included. */
  function CallsOf<S, C>(p: Protocol<S, C>, reentrant: bool, sched: seq<Choice<C>>, t: nat): seq<Op> {
    if sched == [] then []
    else
      var before, c := sched[..|sched| - 1], sched[|sched| - 1];
      var s := After(p, reentrant, before);
      CallsOf(p, reentrant, before, t) +
      if p.thread(c.step) == t && Shape(p, s) && t < p.n && s.stage[t].Outside?
      then [if c.acquire then Acquire(THE_LOCK, reentrant) else Release(THE_LOCK, reentrant)] else []
  }

  /** The thread's table is what its calls lead to, a call in progress being recorded on its way in or out. */
  ghost predicate Recorded<S>(s: State<S>, t: nat, ops: seq<Op>)
    requires t < |s.held| == |s.stage|
  {
    if s.stage[t].Outside? then s.held[t] == ShieldSpec.Run(ops)
    else
      && ops != []
      && var before, op := ShieldSpec.Run(ops[..|ops| - 1]), ops[|ops| - 1];
         if s.stage[t].Locking? || s.stage[t].Recording?
         then op == Acquire(THE_LOCK, s.reentrant) && s.held[t] == before
         else op == Release(THE_LOCK, s.reentrant) && s.held[t] == if s.reentrant then ShieldSpec.Run(ops) else before
  }

  lemma BeginRecords<S, C>(p: Protocol<S, C>, s: State<S>, t: nat, acquire: bool, ops: seq<Op>)
    requires Shape(p, s) && t < p.n && s.stage[t].Outside? && Recorded(s, t, ops)
    ensures var op := if acquire then Acquire(THE_LOCK, s.reentrant) else Release(THE_LOCK, s.reentrant);
            Recorded(if acquire then BeginAcquire(p, s, t) else BeginRelease(p, s, t), t, ops + [op])
  {
    var op := if acquire then Acquire(THE_LOCK, s.reentrant) else Release(THE_LOCK, s.reentrant);
    assert (ops + [op])[..|ops|] == ops;
  }

  lemma EndRecords<S, C>(p: Protocol<S, C>, s: State<S>, c: Choice<C>, ops: seq<Op>)
    requires Shape(p, s) && p.thread(c.step) < p.n && Agrees(p, s, p.thread(c.step))
    requires !s.stage[p.thread(c.step)].Outside? && Recorded(s, p.thread(c.step), ops)
    ensures Recorded(Next(p, s, c), p.thread(c.step), ops)
  {
  }

  /** Over every run, each thread's count is the outcome of the calls that it has made. */
  lemma {:induction false} CountsAreCalls<S(!new), C(!new)>(
    p: Protocol<S, C>, reentrant: bool, sched: seq<Choice<C>>, t: nat)
    requires Sound(p) && t < p.n
    ensures Shape(p, After(p, reentrant, sched))
    ensures Recorded(After(p, reentrant, sched), t, CallsOf(p, reentrant, sched, t))
    ensures Flagged(CallsOf(p, reentrant, sched, t), THE_LOCK, reentrant)
  {
    NeverMisused(p, reentrant, sched);
    if sched != [] {
      var before, c := sched[..|sched| - 1], sched[|sched| - 1];
      CountsAreCalls(p, reentrant, before, t);
      NeverMisused(p, reentrant, before);
      var s, ops := After(p, reentrant, before), CallsOf(p, reentrant, before, t);
      NextKeepsInv(p, s, c);
      if p.thread(c.step) != t || !s.stage[t].Outside? {
        assert CallsOf(p, reentrant, sched, t) == ops;
      }
      if p.thread(c.step) == t {
        assert Agrees(p, s, t);
        if s.stage[t].Outside? { BeginRecords(p, s, t, c.acquire, ops); } else { EndRecords(p, s, c, ops); }
      }
    }
  }

  /** By its calls, and between two of them, the thread is in its critical section. */
  predicate Owns<S, C>(p: Protocol<S, C>, reentrant: bool, sched: seq<Choice<C>>, t: nat) {
    var s := After(p, reentrant, sched);
    Shape(p, s) && t < p.n && s.stage[t].Outside? && Depth(CallsOf(p, reentrant, sched, t), THE_LOCK) > 0
  }

  lemma OwnerHolds<S(!new), C(!new)>(p: Protocol<S, C>, reentrant: bool, sched: seq<Choice<C>>, t: nat)
    requires Sound(p) && Owns(p, reentrant, sched, t)
    ensures Times(After(p, reentrant, sched), t) == Depth(CallsOf(p, reentrant, sched, t), THE_LOCK)
    ensures p.phase(After(p, reentrant, sched).lock, t).In?
  {
    CountsAreCalls(p, reentrant, sched, t);
    CountIsDepth(CallsOf(p, reentrant, sched, t), THE_LOCK);
    NeverMisused(p, reentrant, sched);
    assert Agrees(p, After(p, reentrant, sched), t);
  }

  /**
   * Reentrant mutual exclusion: at most one thread has made more acquisitions than releases, and it holds the lock
   * underneath. (On a reentrant lock `Depth` is that surplus, on another one it tells whether the last call was an
   * acquisition.)
   */
  lemma OneOwner<S(!new), C(!new)>(p: Protocol<S, C>, reentrant: bool, sched: seq<Choice<C>>, t: nat, u: nat)
    requires Sound(p) && Owns(p, reentrant, sched, t) && Owns(p, reentrant, sched, u)
    ensures t == u && p.phase(After(p, reentrant, sched).lock, t).In?
    ensures var ops := CallsOf(p, reentrant, sched, t);
            if reentrant then Surplus(ops, THE_LOCK) > 0 else Taken(ops, THE_LOCK)
  {
    OwnerHolds(p, reentrant, sched, t);
    OwnerHolds(p, reentrant, sched, u);
    CountsAreCalls(p, reentrant, sched, t);
    var ops := CallsOf(p, reentrant, sched, t);
    if reentrant { ReentrantDepth(ops, THE_LOCK); } else { PlainDepth(ops, THE_LOCK); }
    NeverMisused(p, reentrant, sched);
    assert Exclusive(p, After(p, reentrant, sched).lock);
  }

  /** On a lock that is not reentrant: the thread has handed the lock over, but its count is not erased yet. */
  predicate HandedOver<S, C>(p: Protocol<S, C>, s: State<S>, t: nat)
    requires Shape(p, s) && t < p.n
  {
    (s.stage[t].Unlocking? || s.stage[t].Erasing?) && !Holds(p.phase(s.lock, t))
  }

  /** At most one thread has a positive count, but for threads that have just handed the lock over. */
  lemma OnePositiveCount<S(!new), C(!new)>(p: Protocol<S, C>, reentrant: bool, sched: seq<Choice<C>>, t: nat, u: nat)
    requires Sound(p) && Shape(p, After(p, reentrant, sched)) && t < p.n && u < p.n && t != u
    requires Times(After(p, reentrant, sched), t) > 0 && Times(After(p, reentrant, sched), u) > 0
    ensures !reentrant
    ensures HandedOver(p, After(p, reentrant, sched), t) || HandedOver(p, After(p, reentrant, sched), u)
  {
    var s := After(p, reentrant, sched);
    NeverMisused(p, reentrant, sched);
    assert Agrees(p, s, t) && Agrees(p, s, u) && Exclusive(p, s.lock);
  }

  /** Thread `t`, alone in the lock, takes one more step. */
  lemma StepAlone<S(!new), C(!new)>(p: Protocol<S, C>, reentrant: bool, sched: seq<Choice<C>>, t: nat, acquire: bool)
    returns (more: seq<Choice<C>>, c: C)
    requires Sound(p) && Live(p) && Alone(p, After(p, reentrant, sched).lock, t)
    ensures var s, r := After(p, reentrant, sched), After(p, reentrant, more);
            && Advances(p, s.lock, t, c) && r == Next(p, s, Choice(c, acquire))
            && Inv(p, s) && Inv(p, r) && OthersStay(p, s, r, t) && Alone(p, r.lock, t)
  {
    hide Sound, Next;
    var s := After(p, reentrant, sched);
    NeverMisused(p, reentrant, sched);
    c :| Advances(p, s.lock, t, c);
    more := sched + [Choice(c, acquire)];
    assert more[..|more| - 1] == sched;
    NextKeepsInv(p, s, Choice(c, acquire));
  }

  /** Inside `lock_fn`, it gets the lock. */
  lemma {:induction false} GetsIn<S(!new), C(!new)>(p: Protocol<S, C>, reentrant: bool, sched: seq<Choice<C>>, t: nat)
    returns (more: seq<Choice<C>>)
    requires Sound(p) && Live(p) && Inv(p, After(p, reentrant, sched)) && Alone(p, After(p, reentrant, sched).lock, t)
    requires After(p, reentrant, sched).stage[t].Locking? && p.phase(After(p, reentrant, sched).lock, t).Entering?
    ensures var s, r := After(p, reentrant, sched), After(p, reentrant, more);
            && Inv(p, r) && OthersStay(p, s, r, t) && Alone(p, r.lock, t)
            && r.stage[t].Locking? && p.phase(r.lock, t).In?
    decreases p.measure(After(p, reentrant, sched).lock)
  {
    var s := After(p, reentrant, sched);
    var c;
    more, c := StepAlone(p, reentrant, sched, t, true);
    assert Moves(p, s.lock, c);
    if !p.phase(After(p, reentrant, more).lock, t).In? {
      more := GetsIn(p, reentrant, more, t);
    }
  }

  /** Inside `unlock_fn`, it gives the lock back. */
  lemma {:induction false} GetsOut<S(!new), C(!new)>(p: Protocol<S, C>, reentrant: bool, sched: seq<Choice<C>>, t: nat)
    returns (more: seq<Choice<C>>)
    requires Sound(p) && Live(p) && Inv(p, After(p, reentrant, sched)) && Alone(p, After(p, reentrant, sched).lock, t)
    requires After(p, reentrant, sched).stage[t].Unlocking?
    requires var f := p.phase(After(p, reentrant, sched).lock, t); f.Leaving? || f.Left?
    ensures var s, r := After(p, reentrant, sched), After(p, reentrant, more);
            && Inv(p, r) && OthersStay(p, s, r, t) && Alone(p, r.lock, t)
            && r.stage[t].Unlocking? && p.phase(r.lock, t).Out?
    decreases p.measure(After(p, reentrant, sched).lock)
  {
    var s := After(p, reentrant, sched);
    var c;
    more, c := StepAlone(p, reentrant, sched, t, true);
    assert Moves(p, s.lock, c);
    if !p.phase(After(p, reentrant, more).lock, t).Out? {
      more := GetsOut(p, reentrant, more, t);
    }
  }

  /** An LS_ACQUIRE that meets no other thread counts the lock. */
  lemma AcquiresAlone<S(!new), C(!new)>(p: Protocol<S, C>, reentrant: bool, sched: seq<Choice<C>>, t: nat)
    returns (more: seq<Choice<C>>)
    requires Sound(p) && Live(p) && Alone(p, After(p, reentrant, sched).lock, t)
    requires Inv(p, After(p, reentrant, sched))
    requires After(p, reentrant, sched).stage[t].Outside? && Times(After(p, reentrant, sched), t) == 0
    ensures var s, r := After(p, reentrant, sched), After(p, reentrant, more);
            && Inv(p, r) && OthersStay(p, s, r, t) && Alone(p, r.lock, t) && r.stage[t].Outside? && Times(r, t) == 1
  {
    assert Agrees(p, After(p, reentrant, sched), t);
    var c;
    more, c := StepAlone(p, reentrant, sched, t, true);
    more, c := StepAlone(p, reentrant, more, t, true);
    more := GetsIn(p, reentrant, more, t);
    assert Agrees(p, After(p, reentrant, more), t);
    more, c := StepAlone(p, reentrant, more, t, true);
    more, c := StepAlone(p, reentrant, more, t, true);
  }

  /** An LS_RELEASE on a lock that is not reentrant hands it over before it erases the count. */
  lemma HandsOverAlone<S(!new), C(!new)>(p: Protocol<S, C>, sched: seq<Choice<C>>, t: nat)
    returns (more: seq<Choice<C>>)
    requires Sound(p) && Live(p) && Alone(p, After(p, false, sched).lock, t) && Inv(p, After(p, false, sched))
    requires After(p, false, sched).stage[t].Outside? && Times(After(p, false, sched), t) == 1
    ensures var s, r := After(p, false, sched), After(p, false, more);
            && Inv(p, r) && OthersStay(p, s, r, t) && Times(r, t) == 1
            && forall u | 0 <= u < p.n :: p.phase(r.lock, u).Out?
  {
    NeverMisused(p, false, sched);
    assert Agrees(p, After(p, false, sched), t);
    var c;
    more, c := StepAlone(p, false, sched, t, false);
    more, c := StepAlone(p, false, more, t, false);
    more := GetsOut(p, false, more, t);
    NeverMisused(p, false, more);
    assert Agrees(p, After(p, false, more), t);
  }

  ghost predicate OneCounted<S>(s: State<S>) {
    forall t, u | 0 <= t < u < |s.held| :: Times(s, t) == 0 || Times(s, u) == 0
  }

  lemma CountsOverlap<S(!new), C(!new)>(p: Protocol<S, C>) returns (sched: seq<Choice<C>>)
    requires Sound(p) && Live(p) && p.n >= 2
    ensures !OneCounted(After(p, false, sched))
  {
    NeverMisused(p, false, []);
    sched := AcquiresAlone(p, false, [], 0);
    sched := HandsOverAlone(p, sched, 0);
    sched := AcquiresAlone(p, false, sched, 1);
    var s := After(p, false, sched);
    assert Times(s, 0) == 1 && Times(s, 1) == 1;
  }

  lemma ReentrantOneCounted<S(!new), C(!new)>(p: Protocol<S, C>, sched: seq<Choice<C>>)
    requires Sound(p)
    ensures OneCounted(After(p, true, sched))
  {
    NeverMisused(p, true, sched);
    var s := After(p, true, sched);
    forall t, u | 0 <= t < u < |s.held| ensures Times(s, t) == 0 || Times(s, u) == 0 {
      if Times(s, t) > 0 && Times(s, u) > 0 { OnePositiveCount(p, true, sched, t, u); }
    }
  }

  /** At most one of several threads has a positive count in every reachable state exactly if the lock is reentrant. */
  lemma OneCountedIffReentrant<S(!new), C(!new)>(p: Protocol<S, C>, reentrant: bool)
    requires Sound(p) && Live(p) && p.n >= 2
    ensures (forall sched: seq<Choice<C>> :: OneCounted(After(p, reentrant, sched))) <==> reentrant
  {
    if reentrant {
      forall sched: seq<Choice<C>> ensures OneCounted(After(p, reentrant, sched)) {
        ReentrantOneCounted(p, sched);
      }
    } else {
      var sched := CountsOverlap(p);
      assert !OneCounted(After(p, reentrant, sched));
    }
  }
}
