/** How long a waiter of the NUMA-aware lock can be passed over, as `keep_lock_local` really decides. */
module CnaBound {
  import opened Runs
  import opened Sums
  import opened CnaModel
  import opened CnaSteps
  import opened CnaRuns
  import opened CnaFairness
  import opened CnaRandom

  predicate Decides(s: State, c: Choice) {
    c.t < |s.pc| && s.pc[c.t].Decide?
  }

  /** How often each thread has called `keep_lock_local`. */
  ghost function Calls(s: State, sched: seq<Choice>): (ks: seq<nat>)
    ensures |ks| == |s.pc|
  {
    if sched == [] then seq(|s.pc|, i => 0)
    else
      var before, c := sched[..|sched| - 1], sched[|sched| - 1];
      var ks := Calls(s, before);
      if c.t < |ks| && Decides(Exec(Next, s, before), c) then ks[c.t := ks[c.t] + 1] else ks
  }

  /** The decisions of the schedule are those of the threads' generators, `seeds` being their seeds in `s`. */
  ghost predicate Generated(s: State, seeds: seq<nat>, sched: seq<Choice>) {
    sched == [] ||
    var before, c := sched[..|sched| - 1], sched[|sched| - 1];
    && Generated(s, seeds, before)
    && (Decides(Exec(Next, s, before), c) && c.t < |seeds| && c.t < |s.pc| ==>
          c.keep == Keep(seeds[c.t], Calls(s, before)[c.t] + 1))
  }

  function LetGoesOf(seeds: seq<nat>, ks: seq<nat>): seq<nat>
    requires |seeds| == |ks|
  {
    seq(|ks|, i requires 0 <= i < |ks| => LetGoes(seeds[i], ks[i]))
  }

  lemma OneMoreCall(seeds: seq<nat>, ks: seq<nat>, t: nat)
    requires |seeds| == |ks| && t < |ks|
    ensures Sum(LetGoesOf(seeds, ks[t := ks[t] + 1])) ==
              Sum(LetGoesOf(seeds, ks)) + if Keep(seeds[t], ks[t] + 1) then 0 else 1
  {
    hide Keep;
    var k := ks[t] + 1;
    assert LetGoesOf(seeds, ks[t := k]) == LetGoesOf(seeds, ks)[t := LetGoes(seeds[t], k)];
    SumUpdate(LetGoesOf(seeds, ks), t, LetGoes(seeds[t], k));
  }

  /** The lock is let go as often as the threads' generators say. */
  lemma {:induction false} DrawsAreLetGoes(s: State, seeds: seq<nat>, sched: seq<Choice>)
    requires Inv(s) && |seeds| == |s.pc| && Generated(s, seeds, sched)
    ensures Inv(Exec(Next, s, sched)) && |Exec(Next, s, sched).pc| == |s.pc|
    ensures Draws(s, sched) == Sum(LetGoesOf(seeds, Calls(s, sched)))
  {
    hide Next, Inv, Keep;
    if sched == [] {
      Zeros(LetGoesOf(seeds, Calls(s, [])));
    } else {
      var before, c := sched[..|sched| - 1], sched[|sched| - 1];
      DrawsAreLetGoes(s, seeds, before);
      var r := Exec(Next, s, before);
      NextKeepsInv(r, c);
      SameThreads(r, c);
      if Decides(r, c) { OneMoreCall(seeds, Calls(s, before), c.t); }
    }
  }

  lemma {:induction false} Zeros(ws: seq<nat>)
    requires forall i | 0 <= i < |ws| :: ws[i] == 0
    ensures Sum(ws) == 0
  {
    if ws != [] { Zeros(ws[1..]); }
  }

  /** Whatever thread makes them, of so many calls at least that many let the lock go. */
  lemma {:induction false} CallsBounded(seeds: seq<nat>, ks: seq<nat>)
    requires |seeds| == |ks|
    ensures Sum(ks) <= PERIOD * Sum(LetGoesOf(seeds, ks)) + (PERIOD - 1) * |ks|
  {
    if ks != [] {
      CallsBounded(seeds[1..], ks[1..]);
      assert LetGoesOf(seeds, ks)[1..] == LetGoesOf(seeds[1..], ks[1..]);
      LetGoesOften(seeds[0], ks[0]);
    }
  }

  /** The holder has decided how to hand the lock over. */
  predicate Committed(s: State) {
    0 <= s.holder < |s.pc| && Holds(s.pc[s.holder]) && !Leaving(s.pc[s.holder]) && !s.pc[s.holder].GrantSec?
  }

  function One(b: bool): nat {
    if b then 1 else 0
  }

  /** The step from `s` to `r` has decided on each service that it made, unless the step has just decided. */
  predicate Accounted(s: State, c: Choice, r: State) {
    && s.served <= r.served
    && |r.served| - |s.served| + One(Committed(r))
         <= One(Committed(s)) + One(Decides(s, c)) + One(r.served != s.served && Turn(s) == 0)
  }

  lemma ArriveAccounted(s: State, c: Choice)
    requires Inv(s) && s.holder != NULL && c.t < |s.pc| && Entering(s.pc[c.t])
    ensures Accounted(s, c, Arrive(s, c))
  {
    ArriveKeepsOrder(s, c);
    ArriveMovesOne(s, c);
    ArriveStaysOut(s, c);
  }

  lemma ArriveStaysOut(s: State, c: Choice)
    requires Shape(s) && c.t < |s.pc| && Entering(s.pc[c.t])
    ensures |Arrive(s, c).pc| == |s.pc| && (Entering(Arrive(s, c).pc[c.t]) || Arrive(s, c).pc[c.t].Critical?)
  {
  }

  lemma LeaveAccounted(s: State, c: Choice)
    requires Inv(s) && s.order != [] && c.t < |s.pc| && c.t == s.holder && Leaving(s.pc[c.t])
    ensures Accounted(s, c, Leave(s, c))
  {
    LeaveKeepsOrder(s, c);
    LeaveDecides(s, c);
  }

  lemma LeaveDecides(s: State, c: Choice)
    requires Shape(s) && c.t < |s.pc| && Leaving(s.pc[c.t])
    ensures |Leave(s, c).pc| == |s.pc|
    ensures var p := Leave(s, c).pc[c.t]; s.pc[c.t].Decide? || Entering(p) || Leaving(p) || p.GrantSec?
  {
  }

  lemma HandOverAccounted(s: State, c: Choice)
    requires Shape(s) && Members(s) && c.t < |s.pc| && c.t == s.holder && HolderLinks(s) && HolderLocals(s)
    requires Holds(s.pc[c.t]) && !Leaving(s.pc[c.t]) && !Traversing(s.pc[c.t]) && !Splicing(s.pc[c.t])
    requires forall u | 0 <= u < |s.pc| && Holds(s.pc[u]) :: u == s.holder
    ensures Accounted(s, c, HandOver(s, c.t))
  {
    HandOverServes(s, c.t);
    HandOverMovesOne(s, c.t);
  }

  lemma HandOverMovesOne(s: State, t: nat)
    requires Shape(s) && t < |s.pc|
    ensures |HandOver(s, t).pc| == |s.pc|
    ensures forall u | 0 <= u < |s.pc| && u != t :: HandOver(s, t).pc[u] == s.pc[u]
    ensures s.pc[t].GrantSec? ==> HandOver(s, t).pc[t].Idle?
  {
  }

  /** Every service of a waiter has been decided on before, or is one of the front when the main queue is empty. */
  lemma ServiceIsDecided(s: State, c: Choice)
    requires Inv(s) && s.order != []
    ensures Accounted(s, c, Next(s, c))
  {
    if c.t < |s.pc| {
      if Entering(s.pc[c.t]) {
        ArriveAccounted(s, c);
      } else {
        forall u: nat | u < |s.pc| && Holds(s.pc[u]) ensures u == s.holder { OnlyHolderReleases(s, u); }
        if Leaving(s.pc[c.t]) {
          LeaveAccounted(s, c);
        } else if Traversing(s.pc[c.t]) {
          TraverseKeepsOrder(s, c);
        } else if Splicing(s.pc[c.t]) {
          SpliceKeepsOrder(s, c.t);
        } else {
          HandOverAccounted(s, c);
        }
      }
    }
  }

  /** Until thread `t` is served, there are hardly more services than decisions and services of the front. */
  lemma {:induction false} ServicesAreDecided(s: State, t: nat, x: nat, i: nat, sched: seq<Choice>)
    requires Inv(s) && WaitsAt(s, t, x, i)
    ensures var r := Exec(Next, s, sched);
            && |r.pc| == |s.pc| && s.served <= r.served
            && (ServedSince(s, r, x) ||
                |r.served| - |s.served| + One(Committed(r))
                  <= One(Committed(s)) + Sum(Calls(s, sched)) + FrontServices(s, sched))
  {
    hide Next, Inv, Committed;
    if sched == [] {
      Zeros(Calls(s, []));
    } else {
      var before, c := sched[..|sched| - 1], sched[|sched| - 1];
      var r := Exec(Next, s, before);
      ServicesAreDecided(s, t, x, i, before);
      var j := MovesUp(s, t, x, i, before);
      SameThreads(r, c);
      ServedOn(s, r, c, x);
      if !ServedSince(s, r, x) { ServiceIsDecided(r, c); }
      var ks := Calls(s, before);
      if c.t < |ks| { SumUpdate(ks, c.t, ks[c.t] + 1); }
    }
  }

  /**
   * With the threads' own decisions, a thread that has `i` waiters before it, among `n` threads, is served within
   * so many handovers, on whatever sockets the others run and whatever the seeds.
   */
  lemma ServedInTime(n: nat, sched: seq<Choice>, seeds: seq<nat>, i: nat, more: seq<Choice>)
    requires |seeds| == n && i < |After(n, sched).order| && Generated(After(n, sched), seeds, more)
    requires var s := After(n, sched);
             |Exec(Next, s, more).served| - |s.served| > PERIOD * (i + 1) + (PERIOD - 1) * n + i + 1
    ensures var s := After(n, sched);
            && Members(s) && Shape(s)
            && ServedSince(s, Exec(Next, s, more), s.ticket[s.order[i]])
  {
    hide Next, Inv, Committed;
    var s := After(n, sched);
    RunKeepsInv(n, sched);
    WaitsAtPosition(s, i);
    var t, x := s.order[i], s.ticket[s.order[i]];
    var j := MovesUp(s, t, x, i, more);
    DrawsLeadToService(s, more);
    DrawsAreLetGoes(s, seeds, more);
    CallsBounded(seeds, Calls(s, more));
    ServicesAreDecided(s, t, x, i, more);
  }

  lemma WaitsAtPosition(s: State, i: nat)
    requires Inv(s) && i < |s.order|
    ensures Members(s) && Shape(s) && WaitsAt(s, s.order[i], s.ticket[s.order[i]], i)
  {
  }
}
