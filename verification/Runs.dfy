/**
 * Whole runs of a lock protocol. A protocol is a step function `next`: one atomic access of one thread,
 * chosen by a scheduler. A schedule is any sequence of choices, so it covers every interleaving.
 */
module Runs {
  import opened FifoLock

  const NULL := -1

  /** A store through a pointer: `cells` is one field of all nodes, `p` the address. */
  function Put<T>(cells: seq<T>, p: int, v: T): (r: seq<T>)
    ensures |r| == |cells|
  {
    if 0 <= p < |cells| then cells[p := v] else cells
  }

  ghost function Exec<S, C>(next: (S, C) -> S, s: S, sched: seq<C>): S {
    if sched == [] then s else next(Exec(next, s, sched[..|sched| - 1]), sched[|sched| - 1])
  }

  /** What an observer of the run sees, `observe` telling what each step means. */
  ghost function Events<S, C>(next: (S, C) -> S, observe: (S, C) -> Event, s: S, sched: seq<C>): seq<Event> {
    if sched == [] then []
    else
      var before := sched[..|sched| - 1];
      Events(next, observe, s, before) + [observe(Exec(next, s, before), sched[|sched| - 1])]
  }

  ghost predicate Keeps<S(!new), C(!new)>(next: (S, C) -> S, inv: S -> bool) {
    forall s, c {:trigger next(s, c)} :: inv(s) ==> inv(next(s, c))
  }

  lemma {:induction false} InvariantHolds<S(!new), C(!new)>(next: (S, C) -> S, inv: S -> bool, s: S, sched: seq<C>)
    requires inv(s) && Keeps(next, inv)
    ensures inv(Exec(next, s, sched))
  {
    if sched != [] {
      InvariantHolds(next, inv, s, sched[..|sched| - 1]);
    }
  }

  /** Every step from an invariant state is the abstract step its observe names. */
  ghost predicate Refines<S(!new), C(!new)>(
    next: (S, C) -> S, observe: (S, C) -> Event, inv: S -> bool, abs: S -> Lock)
  {
    forall s, c {:trigger next(s, c)} :: inv(s) ==>
      Allowed(abs(s), observe(s, c)) && abs(next(s, c)) == Apply(abs(s), observe(s, c))
  }

  /** `ok` holds before every step of the run. */
  ghost predicate Throughout<S, C>(next: (S, C) -> S, ok: S -> bool, s: S, sched: seq<C>) {
    forall k | 0 <= k < |sched| :: ok(Exec(next, s, sched[..k]))
  }

  /** Step-by-step refinement carries over to whole runs, for as long as `ok` holds. */
  lemma {:induction false} RunRefinesWhile<S(!new), C(!new)>(
    next: (S, C) -> S, observe: (S, C) -> Event, inv: S -> bool, ok: S -> bool, abs: S -> Lock, s: S, sched: seq<C>)
    requires inv(s) && abs(s) == FREE && Throughout(next, ok, s, sched)
    requires forall s, c {:trigger next(s, c)} :: inv(s) && ok(s) ==>
        inv(next(s, c)) && Allowed(abs(s), observe(s, c)) && abs(next(s, c)) == Apply(abs(s), observe(s, c))
    ensures inv(Exec(next, s, sched))
    ensures Legal(FREE, Events(next, observe, s, sched))
    ensures Run(FREE, Events(next, observe, s, sched)) == abs(Exec(next, s, sched))
  {
    if sched != [] {
      var before := sched[..|sched| - 1];
      forall k | 0 <= k < |before| ensures ok(Exec(next, s, before[..k])) { assert before[..k] == sched[..k]; }
      RunRefinesWhile(next, observe, inv, ok, abs, s, before);
      var es := Events(next, observe, s, sched);
      assert es[..|es| - 1] == Events(next, observe, s, before);
    }
  }

  lemma RunRefines<S(!new), C(!new)>(
    next: (S, C) -> S, observe: (S, C) -> Event, inv: S -> bool, abs: S -> Lock, s: S, sched: seq<C>)
    requires inv(s) && Keeps(next, inv) && Refines(next, observe, inv, abs) && abs(s) == FREE
    ensures inv(Exec(next, s, sched))
    ensures Legal(FREE, Events(next, observe, s, sched))
    ensures Run(FREE, Events(next, observe, s, sched)) == abs(Exec(next, s, sched))
  {
    RunRefinesWhile(next, observe, inv, s => true, abs, s, sched);
  }

  /** First come, first served, never two at a time: what a legal trace of the abstract lock guarantees. */
  ghost predicate Fair(es: seq<Event>) {
    Enters(es) <= Enqueues(es) && Exits(es) <= Enters(es) && |Enters(es)| <= |Exits(es)| + 1
  }

  /** Every step of the schedule continues a call (`starts` tells those that begin one) and is no failed spin. */
  ghost predicate Productive<S, C>(next: (S, C) -> S, starts: (S, C) -> bool, s: S, sched: seq<C>) {
    sched == [] ||
    var before := sched[..|sched| - 1];
    var r := Exec(next, s, before);
    Productive(next, starts, s, before) && !starts(r, sched[|sched| - 1]) && next(r, sched[|sched| - 1]) != r
  }

  ghost predicate Falls<S(!new), C(!new)>(
    next: (S, C) -> S, starts: (S, C) -> bool, inv: S -> bool, measure: S -> nat)
  {
    forall s, c {:trigger next(s, c)} :: inv(s) && !starts(s, c) && next(s, c) != s ==> measure(next(s, c)) < measure(s)
  }

  /** Once no call starts any more, only `measure(s)` steps other than failed spins are left. */
  lemma {:induction false} ProductiveRunsEnd<S(!new), C(!new)>(
    next: (S, C) -> S, starts: (S, C) -> bool, inv: S -> bool, measure: S -> nat, s: S, sched: seq<C>)
    requires inv(s) && Keeps(next, inv) && Falls(next, starts, inv, measure)
    requires Productive(next, starts, s, sched)
    ensures inv(Exec(next, s, sched))
    ensures |sched| + measure(Exec(next, s, sched)) <= measure(s)
  {
    if sched != [] {
      ProductiveRunsEnd(next, starts, inv, measure, s, sched[..|sched| - 1]);
    }
  }
}
