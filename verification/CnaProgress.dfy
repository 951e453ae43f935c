/** Every call of the NUMA-aware lock returns. */
module CnaProgress {
  import opened Runs
  import opened Sums
  import opened CnaModel
  import opened CnaSteps
  import opened CnaRuns

  /** How far a thread is from finishing the call it is in; the traversal is bounded by the number of threads. */
  function Rank(s: State, t: nat): nat
    requires t < |s.pc|
  {
    var n := |s.pc|;
    match s.pc[t]
    case Idle => 0
    case GrantSec(_) => 1
    case GrantJoined(_) => 1
    case GrantFirst(_) => 1
    case Pass(_, _) => 1
    case PassLoad(_) => 2
    case SetTail(_, _) => 3
    case Cut(_, _) => 4
    case SpliceOld(_, _, _, _) => 5
    case SpliceNew(_, _, _) => 5
    case SpliceLoad(_, _, _) => 6
    case SpliceTest(_, _, _) => 7
    case LoadFirst => 2
    case Join(_, _) => 2
    case LoadTail(_) => 3
    case LoadHead => 4
    case CheckSec => 5
    case Scan(_, _, _, _) => 8 + if s.scan <= n then n - s.scan else 0
    case Second(_, _) => n + 9
    case First => n + 10
    case Decide => n + 11
    case AwaitNext => n + 12
    case CasNull => n + 13
    case CasSec(_) => n + 13
    case LoadSec => n + 14
    case CheckSpin => n + 15
    case LoadNext => n + 16
    case Critical => n + 17
    case Wait => n + 18
    case Link(_) => n + 19
    case SetSocket(_) => n + 20
    case Test(_) => n + 21
    case Swap => n + 22
    case ResetSpin => n + 23
    case ResetNext => n + 24
  }

  function Ranks(s: State): seq<nat> {
    seq(|s.pc|, i requires 0 <= i < |s.pc| => Rank(s, i))
  }

  function Measure(s: State): nat {
    Sum(Ranks(s))
  }

  predicate Starts(s: State, c: Choice) {
    c.t < |s.pc| && s.pc[c.t].Idle?
  }

  lemma OrderBounded(s: State)
    requires Inv(s)
    ensures |s.order| <= |s.pc|
  {
    forall i: nat, j: nat | i < j < |s.order| ensures s.order[i] != s.order[j] { Distinct(s, i, j); }
    DistinctBounded(s.order, |s.pc|);
  }

  /** The step would be a failed spin. */
  predicate Spinning(s: State, t: nat)
    requires Shape(s) && t < |s.pc|
  {
    (s.pc[t].Wait? && s.spin[t].Zero?) || (s.pc[t].AwaitNext? && s.next[t] == NULL)
  }

  /** Thread `t` alone has moved, and is closer to the end of its call. */
  ghost predicate Closer(s: State, r: State, t: nat)
    requires t < |s.pc|
  {
    |r.pc| == |s.pc| && r.pc == s.pc[t := r.pc[t]] && Rank(r, t) < Rank(s, t)
  }

  lemma ArriveFalls(s: State, c: Choice)
    requires Shape(s) && c.t < |s.pc| && Entering(s.pc[c.t]) && !Starts(s, c) && !Spinning(s, c.t)
    ensures Closer(s, Arrive(s, c), c.t) && Arrive(s, c).scan == s.scan
  {
  }

  lemma LeaveFalls(s: State, c: Choice)
    requires Shape(s) && c.t < |s.pc| && Leaving(s.pc[c.t]) && !Spinning(s, c.t)
    ensures Closer(s, Leave(s, c), c.t)
  {
  }

  /** Each step of the walk along the main queue gets closer to its end, though others may append to it. */
  lemma TraverseFalls(s: State, c: Choice)
    requires Inv(s) && c.t < |s.pc| && c.t == s.holder && Traversing(s.pc[c.t])
    ensures Closer(s, Traverse(s, c), c.t)
  {
    OrderBounded(s);
  }

  lemma SpliceFalls(s: State, t: nat)
    requires Shape(s) && t < |s.pc| && Splicing(s.pc[t])
    ensures Closer(s, Splice(s, t), t)
  {
  }

  lemma HandOverLoadFalls(s: State, t: nat)
    requires Shape(s) && t < |s.pc| && (HandOverLoad(s.pc[t]) || s.pc[t].Join?)
    ensures Closer(s, HandOver(s, t), t)
  {
  }

  lemma GrantFalls(s: State, t: nat)
    requires Shape(s) && t < |s.pc|
    requires s.pc[t].GrantSec? || s.pc[t].GrantJoined? || s.pc[t].GrantFirst? || s.pc[t].Pass?
    ensures Closer(s, HandOver(s, t), t)
  {
  }

  lemma HandOverFalls(s: State, t: nat)
    requires Shape(s) && t < |s.pc| && Holds(s.pc[t])
    requires !Leaving(s.pc[t]) && !Traversing(s.pc[t]) && !Splicing(s.pc[t])
    ensures Closer(s, HandOver(s, t), t)
  {
    if HandOverLoad(s.pc[t]) || s.pc[t].Join? { HandOverLoadFalls(s, t); } else { GrantFalls(s, t); }
  }

  lemma RankFalls(s: State, c: Choice)
    requires Inv(s) && c.t < |s.pc| && !Starts(s, c) && !Spinning(s, c.t)
    ensures Closer(s, Next(s, c), c.t)
    ensures c.t != s.holder ==> Next(s, c).scan == s.scan
  {
    if Entering(s.pc[c.t]) {
      ArriveFalls(s, c);
    } else {
      OnlyHolderReleases(s, c.t);
      if Leaving(s.pc[c.t]) { LeaveFalls(s, c); }
      else if Traversing(s.pc[c.t]) { TraverseFalls(s, c); }
      else if Splicing(s.pc[c.t]) { SpliceFalls(s, c.t); }
      else { HandOverFalls(s, c.t); }
    }
  }

  lemma SpinningStays(s: State, c: Choice)
    requires Shape(s) && c.t < |s.pc| && Spinning(s, c.t)
    ensures Next(s, c) == s
  {
  }

  lemma SumFalls(s: State, r: State, t: nat)
    requires Inv(s) && t < |s.pc| && Closer(s, r, t) && (t != s.holder ==> r.scan == s.scan)
    ensures Measure(r) < Measure(s)
  {
    forall u: nat | u < |s.pc| && u != t ensures Rank(r, u) == Rank(s, u) { assert Placed(s, u); }
    assert Ranks(r) == Ranks(s)[t := Rank(r, t)];
    SumUpdate(Ranks(s), t, Rank(r, t));
  }

  /** A step of a thread inside a call that is not a failed spin brings the lock closer to rest. */
  lemma MeasureFalls(s: State, c: Choice)
    requires Inv(s) && !Starts(s, c) && Next(s, c) != s
    ensures Measure(Next(s, c)) < Measure(s)
  {
    if Spinning(s, c.t) { SpinningStays(s, c); }
    RankFalls(s, c);
    SumFalls(s, Next(s, c), c.t);
  }

  /** While any call is in progress, some thread in a call can take a step that is not a failed spin. */
  lemma NoDeadlock(s: State, u: nat) returns (c: Choice)
    requires Inv(s) && u < |s.pc| && !s.pc[u].Idle?
    ensures c.t < |s.pc| && !Starts(s, c) && Next(s, c) != s
  {
    c := Choice(u, 0, false);
    assert Placed(s, u);
    if Arriving(s.pc[u]) || Holds(s.pc[u]) {
      c := Choice(s.holder, 0, false);
      if s.pc[s.holder].AwaitNext? && s.next[s.holder] == NULL {
        assert Waiting(s, s.split);
        c := Choice(s.order[s.split], 0, false);
      }
    }
    RankFalls(s, c);
  }

  /**
   * After any run, let the calls in progress go on without new ones: only `Measure` many steps other
   * than failed spins are left, and where none is left every call has returned.
   */
  lemma CallsReturn(n: nat, sched: seq<Choice>, more: seq<Choice>)
    requires Productive(Next, Starts, After(n, sched), more)
    ensures var r := Exec(Next, After(n, sched), more);
            && |more| + Measure(r) <= Measure(After(n, sched))
            && ((forall c: Choice | c.t < |r.pc| :: Starts(r, c) || Next(r, c) == r) ==>
                forall t: nat | t < |r.pc| :: r.pc[t].Idle?)
  {
    RunKeepsInv(n, sched);
    forall s, c: Choice | Inv(s) ensures Inv(Next(s, c)) { NextKeepsInv(s, c); }
    forall s, c: Choice | Inv(s) && !Starts(s, c) && Next(s, c) != s ensures Measure(Next(s, c)) < Measure(s) {
      MeasureFalls(s, c);
    }
    ProductiveRunsEnd(Next, Starts, Inv, Measure, After(n, sched), more);
    var r := Exec(Next, After(n, sched), more);
    if u: nat :| u < |r.pc| && !r.pc[u].Idle? {
      var c := NoDeadlock(r, u);
    }
  }
}
