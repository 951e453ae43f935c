/** Long-term fairness of the NUMA-aware lock: `keep_lock_local` decides how long a waiter may be passed over. */
module CnaFairness {
  import opened Runs
  import opened CnaModel
  import opened CnaSteps
  import opened CnaRuns

  /** The way to hand over to the waiter that has waited longest, whatever its socket. */
  predicate InOrder(p: PC) {
    p.CheckSec? || p.LoadHead? || p.LoadTail? || p.Join? || p.GrantJoined? || p.LoadFirst? || p.GrantFirst?
  }

  predicate HandsOverInOrder(s: State) {
    0 <= s.holder < |s.pc| && InOrder(s.pc[s.holder])
  }

  /** The position in the waiting order of the thread that a handover would serve. */
  function Turn(s: State): nat {
    if 0 <= s.holder < |s.pc| && s.pc[s.holder].Pass? then s.split else 0
  }

  /** The waiter at position `k` has been given the lock. */
  ghost predicate Granted(s: State, r: State, k: nat)
    requires Shape(s) && Members(s)
  {
    && k < |s.order| && r.holder == s.order[k] && r.order == Without(s.order, k)
    && r.served == s.served + [s.ticket[s.order[k]]] && r.ticket == s.ticket
  }

  /** The lock stays with the holder, and the waiting order at most grows at its end. */
  ghost predicate Kept(s: State, r: State)
    requires Shape(s) && Members(s) && Shape(r)
  {
    && r.holder == s.holder && r.served == s.served && |r.pc| == |s.pc|
    && s.order <= r.order && forall i | 0 <= i < |s.order| :: r.ticket[s.order[i]] == s.ticket[s.order[i]]
  }

  lemma ArriveKeepsOrder(s: State, c: Choice)
    requires Inv(s) && s.holder != NULL && c.t < |s.pc| && Entering(s.pc[c.t])
    ensures Shape(Arrive(s, c)) && Kept(s, Arrive(s, c))
  {
    assert Placed(s, c.t);
    if s.pc[c.t].Swap? {
      SwapStep(s, c);
      NotWaiting(s, c.t);
    }
  }

  lemma LeaveKeepsOrder(s: State, c: Choice)
    requires Inv(s) && c.t < |s.pc| && c.t == s.holder && Leaving(s.pc[c.t])
    ensures Shape(Leave(s, c)) && (s.order != [] ==> Kept(s, Leave(s, c)))
  {
    if s.order != [] { Around(s, |s.order| - 1); }
  }

  lemma TraverseKeepsOrder(s: State, c: Choice)
    requires Shape(s) && Members(s) && c.t < |s.pc| && Traversing(s.pc[c.t])
    requires s.split < |s.order|
    ensures Shape(Traverse(s, c)) && Kept(s, Traverse(s, c))
  {
  }

  lemma SpliceKeepsOrder(s: State, t: nat)
    requires Shape(s) && Members(s) && t < |s.pc| && Splicing(s.pc[t])
    ensures Shape(Splice(s, t)) && Kept(s, Splice(s, t))
  {
  }

  lemma HandOverServes(s: State, t: nat)
    requires Shape(s) && Members(s) && t < |s.pc| && t == s.holder && HolderLinks(s) && HolderLocals(s)
    requires Holds(s.pc[t]) && !Leaving(s.pc[t]) && !Traversing(s.pc[t]) && !Splicing(s.pc[t])
    ensures var r := HandOver(s, t);
            && Shape(r) && if r.served == s.served then Kept(s, r) else Granted(s, r, Turn(s))
  {
  }

  /** While anybody waits, a step keeps the waiting order or serves the thread whose turn it is. */
  lemma OrderStep(s: State, c: Choice)
    requires Inv(s) && s.order != []
    ensures var r := Next(s, c);
            && Shape(r) && if r.served == s.served then Kept(s, r) else Granted(s, r, Turn(s))
  {
    if c.t < |s.pc| {
      if Entering(s.pc[c.t]) {
        ArriveKeepsOrder(s, c);
      } else {
        OnlyHolderReleases(s, c.t);
        if Leaving(s.pc[c.t]) {
          LeaveKeepsOrder(s, c);
        } else if Traversing(s.pc[c.t]) {
          TraverseKeepsOrder(s, c);
        } else if Splicing(s.pc[c.t]) {
          SpliceKeepsOrder(s, c.t);
        } else {
          HandOverServes(s, c.t);
        }
      }
    }
  }

  /** Thread `t` waits at position `i` since its exchange number `x`. */
  ghost predicate WaitsAt(s: State, t: nat, x: nat, i: nat) {
    |s.ticket| == |s.pc| && i < |s.order| && s.order[i] == t < |s.pc| && s.ticket[t] == x
  }

  /** Nobody falls back in the waiting order, and everybody behind the one that is served moves up. */
  lemma PositionStep(s: State, c: Choice, t: nat, x: nat, i: nat)
    requires Inv(s) && WaitsAt(s, t, x, i)
    ensures var r, k := Next(s, c), Turn(s);
            if r.served == s.served then WaitsAt(r, t, x, i)
            else if i == k then r.served == s.served + [x]
            else WaitsAt(r, t, x, if k < i then i - 1 else i)
  {
    OrderStep(s, c);
    PositionAfter(s, Next(s, c), t, x, i);
  }

  lemma PositionAfter(s: State, r: State, t: nat, x: nat, i: nat)
    requires Shape(s) && Members(s) && Shape(r) && WaitsAt(s, t, x, i) && |r.pc| == |s.pc|
    requires if r.served == s.served then Kept(s, r) else Granted(s, r, Turn(s))
    ensures if r.served == s.served then WaitsAt(r, t, x, i)
            else if i == Turn(s) then r.served == s.served + [x]
            else WaitsAt(r, t, x, if Turn(s) < i then i - 1 else i)
  {
  }

  /** The step serves the thread that has waited longest. */
  predicate ServesFront(s: State, c: Choice) {
    Next(s, c).served != s.served && Turn(s) == 0
  }

  ghost function FrontServices(s: State, sched: seq<Choice>): nat {
    if sched == [] then 0
    else
      var before := sched[..|sched| - 1];
      FrontServices(s, before) + if ServesFront(Exec(Next, s, before), sched[|sched| - 1]) then 1 else 0
  }

  ghost predicate ServedSince(s: State, r: State, x: nat) {
    s.served <= r.served && exists k | |s.served| <= k < |r.served| :: r.served[k] == x
  }

  lemma ServedOn(s: State, r: State, c: Choice, x: nat)
    requires Inv(r) && s.served <= r.served
    ensures s.served <= Next(r, c).served
    ensures ServedSince(s, r, x) ==> ServedSince(s, Next(r, c), x)
    ensures Next(r, c).served == r.served + [x] ==> ServedSince(s, Next(r, c), x)
  {
    StepLogs(r, c);
    var n := Next(r, c);
    if ServedSince(s, r, x) {
      var k :| |s.served| <= k < |r.served| && r.served[k] == x;
      assert n.served[k] == x;
    }
    if n.served == r.served + [x] { assert n.served[|r.served|] == x; }
  }

  lemma MovesUpStep(s: State, r: State, c: Choice, t: nat, x: nat, k: nat) returns (j: nat)
    requires Inv(r) && s.served <= r.served && (ServedSince(s, r, x) || WaitsAt(r, t, x, k))
    ensures var n := Next(r, c);
            && s.served <= n.served && (ServedSince(s, r, x) ==> ServedSince(s, n, x))
            && (ServedSince(s, n, x) || (WaitsAt(n, t, x, j) && j + (if ServesFront(r, c) then 1 else 0) <= k))
  {
    ServedOn(s, r, c, x);
    j := k;
    if !ServedSince(s, r, x) {
      PositionStep(r, c, t, x, k);
      if Next(r, c).served != r.served && Turn(r) < k { j := k - 1; }
    }
  }

  /** A waiter moves up at least as often as the front of the order is served, until it is served itself. */
  lemma {:induction false} MovesUp(s: State, t: nat, x: nat, i: nat, sched: seq<Choice>) returns (j: nat)
    requires Inv(s) && WaitsAt(s, t, x, i)
    ensures var r := Exec(Next, s, sched);
            && Inv(r) && s.served <= r.served
            && (ServedSince(s, r, x) || (WaitsAt(r, t, x, j) && j + FrontServices(s, sched) <= i))
  {
    if sched == [] {
      j := i;
    } else {
      var before, c := sched[..|sched| - 1], sched[|sched| - 1];
      j := MovesUp(s, t, x, i, before);
      NextKeepsInv(Exec(Next, s, before), c);
      j := MovesUpStep(s, Exec(Next, s, before), c, t, x, j);
    }
  }

  /** `keep_lock_local` has answered that the lock need not stay on the socket. */
  predicate LetsGo(s: State, c: Choice) {
    c.t < |s.pc| && s.pc[c.t].Decide? && !c.keep
  }

  ghost function Draws(s: State, sched: seq<Choice>): nat {
    if sched == [] then 0
    else
      var before := sched[..|sched| - 1];
      Draws(s, before) + if LetsGo(Exec(Next, s, before), sched[|sched| - 1]) then 1 else 0
  }

  lemma InOrderMoves(s: State, c: Choice)
    requires Shape(s) && Members(s) && c.t < |s.pc| && c.t == s.holder && HolderLinks(s) && HolderLocals(s)
    requires InOrder(s.pc[c.t])
    ensures Next(s, c).served != s.served || HandsOverInOrder(Next(s, c))
  {
  }

  lemma InOrderWaits(s: State, c: Choice)
    requires Inv(s) && HandsOverInOrder(s) && (c.t >= |s.pc| || c.t != s.holder)
    ensures HandsOverInOrder(Next(s, c))
  {
    if c.t < |s.pc| {
      if Entering(s.pc[c.t]) {
        ArriveKeepsOrder(s, c);
        ArriveMovesOne(s, c);
      } else {
        OnlyHolderReleases(s, c.t);
      }
    }
  }

  lemma ArriveMovesOne(s: State, c: Choice)
    requires Shape(s) && c.t < |s.pc|
    ensures |Arrive(s, c).pc| == |s.pc| && forall u | 0 <= u < |s.pc| && u != c.t :: Arrive(s, c).pc[u] == s.pc[u]
  {
  }

  lemma DecidesInOrder(s: State, c: Choice)
    requires Shape(s) && LetsGo(s, c) && c.t == s.holder
    ensures !HandsOverInOrder(s) && HandsOverInOrder(Next(s, c))
  {
  }

  /** On that answer, and whenever no waiter of the holder's socket is found, the front is served next. */
  lemma InOrderServesFront(s: State, c: Choice)
    requires Inv(s)
    ensures LetsGo(s, c) ==> !HandsOverInOrder(s) && HandsOverInOrder(Next(s, c))
    ensures HandsOverInOrder(s) ==> ServesFront(s, c) || HandsOverInOrder(Next(s, c))
  {
    hide Next;
    if LetsGo(s, c) {
      OnlyHolderReleases(s, c.t);
      DecidesInOrder(s, c);
    }
    if HandsOverInOrder(s) {
      if c.t == s.holder { InOrderMoves(s, c); } else { InOrderWaits(s, c); }
    }
  }

  lemma {:induction false} DrawsLeadToService(s: State, sched: seq<Choice>)
    requires Inv(s)
    ensures var r := Exec(Next, s, sched);
            && Inv(r)
            && Draws(s, sched) <= FrontServices(s, sched) + if HandsOverInOrder(r) then 1 else 0
  {
    if sched != [] {
      var before, c := sched[..|sched| - 1], sched[|sched| - 1];
      DrawsLeadToService(s, before);
      NextKeepsInv(Exec(Next, s, before), c);
      InOrderServesFront(Exec(Next, s, before), c);
    }
  }

  /**
   * Nobody is passed over for ever: once `keep_lock_local` has let the lock go more than `i + 1` times, a
   * thread that had `i` waiters before it has got the lock, on whatever sockets the others run.
   */
  lemma NoStarvation(n: nat, sched: seq<Choice>, i: nat, more: seq<Choice>)
    requires i < |After(n, sched).order| && Draws(After(n, sched), more) > i + 1
    ensures var s := After(n, sched);
            && Members(s) && Shape(s)
            && ServedSince(s, Exec(Next, s, more), s.ticket[s.order[i]])
  {
    var s := After(n, sched);
    RunKeepsInv(n, sched);
    var j := MovesUp(s, s.order[i], s.ticket[s.order[i]], i, more);
    DrawsLeadToService(s, more);
  }
}
