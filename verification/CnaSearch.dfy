/** What `find_successor` finds, also for a holder that never recorded its socket and asks for it anew. */
module CnaSearch {
  import opened Runs
  import opened CnaModel
  import opened CnaSteps

  /** From the first look at a waiter's socket to the handover to a local waiter. */
  predicate Searching(s: State) {
    0 <= s.holder < |s.pc| && (s.pc[s.holder].Second? || s.pc[s.holder].Scan? || Bound(s.pc[s.holder]))
  }

  /** A local waiter has been found. */
  predicate Bound(p: PC) {
    Splicing(p) || p.PassLoad? || p.Pass?
  }

  /** The thread found. */
  function Chosen(p: PC): int
    requires Bound(p)
  {
    match p
    case SpliceTest(_, _, cur) => cur
    case SpliceLoad(_, _, cur) => cur
    case SpliceOld(_, _, cur, _) => cur
    case SpliceNew(_, _, cur) => cur
    case Cut(_, cur) => cur
    case SetTail(_, cur) => cur
    case PassLoad(succ) => succ
    case Pass(succ, _) => succ
  }

  /** The socket searched for: a local of the walk, and from then on the socket of the thread found. */
  function Sought(s: State): int
    requires Searching(s)
  {
    match s.pc[s.holder]
    case Second(sock, _) => sock
    case Scan(sock, _, _, _) => sock
    case p => Get(s.socket, Chosen(p))
  }

  /** The socket that `find_successor` starts with: the recorded one, else that of the CPU it runs on. */
  function MySocket(s: State, c: Choice): int
    requires Shape(s) && c.t < |s.pc|
  {
    if s.socket[c.t] == -1 then c.socket else s.socket[c.t]
  }

  lemma SearchStarts(s: State, c: Choice)
    requires Inv(s) && c.t < |s.pc| && c.t == s.holder && s.pc[c.t].First?
    ensures Searching(Next(s, c)) && Next(s, c).holder == s.holder && Sought(Next(s, c)) == MySocket(s, c)
  {
  }

  lemma ChosenWaits(s: State)
    requires Shape(s) && Members(s) && 0 <= s.holder < |s.pc| && HolderLocals(s) && Bound(s.pc[s.holder])
    ensures 0 <= Chosen(s.pc[s.holder]) < |s.pc| && s.pc[Chosen(s.pc[s.holder])].Wait?
  {
  }

  lemma OwnSearchStep(s: State, c: Choice)
    requires Shape(s) && c.t < |s.pc| && c.t == s.holder && Searching(s)
    requires Searching(Next(s, c)) && Next(s, c).holder == s.holder
    ensures Sought(Next(s, c)) == Sought(s)
  {
  }

  lemma OtherSearchStep(s: State, c: Choice)
    requires Shape(s) && c.t < |s.pc| && Entering(s.pc[c.t]) && Searching(s) && c.t != s.holder
    requires Bound(s.pc[s.holder]) ==>
      0 <= Chosen(s.pc[s.holder]) < |s.pc| && s.pc[Chosen(s.pc[s.holder])].Wait?
    requires Next(s, c).holder == s.holder && Searching(Next(s, c))
    ensures Sought(Next(s, c)) == Sought(s)
  {
  }

  /** No step of any thread changes what is searched for. */
  lemma SoughtStays(s: State, c: Choice)
    requires Inv(s) && Searching(s) && Searching(Next(s, c)) && Next(s, c).holder == s.holder
    ensures Sought(Next(s, c)) == Sought(s)
  {
    if Bound(s.pc[s.holder]) { ChosenWaits(s); }
    if c.t < |s.pc| {
      if c.t == s.holder {
        OwnSearchStep(s, c);
      } else {
        assert Placed(s, c.t);
        OtherSearchStep(s, c);
      }
    }
  }

  /** The search goes on over the whole schedule. */
  ghost predicate SearchesOn(s: State, sched: seq<Choice>) {
    var r := Exec(Next, s, sched);
    Searching(r) && r.holder == s.holder && (sched != [] ==> SearchesOn(s, sched[..|sched| - 1]))
  }

  lemma {:induction false} SoughtOverSearch(s: State, sched: seq<Choice>)
    requires Inv(s) && SearchesOn(s, sched)
    ensures Inv(Exec(Next, s, sched)) && Searching(s) && Sought(Exec(Next, s, sched)) == Sought(s)
  {
    if sched != [] {
      var before, c := sched[..|sched| - 1], sched[|sched| - 1];
      SoughtOverSearch(s, before);
      NextKeepsInv(Exec(Next, s, before), c);
      SoughtStays(Exec(Next, s, before), c);
    }
  }

  /** The thread `w` has waited longest of those that wait on socket `sock`. */
  ghost predicate OldestOn(s: State, w: int, sock: int)
    requires Shape(s) && Members(s)
  {
    exists k | 0 <= k < |s.order| ::
      w == s.order[k] && s.socket[w] == sock && forall i | 0 <= i < k :: s.socket[s.order[i]] != sock
  }

  lemma FoundIsOldest(s: State, c: Choice)
    requires Inv(s) && Searching(s) && Next(s, c).holder != s.holder
    ensures OldestOn(s, Next(s, c).holder, Sought(s))
  {
    if c.t < |s.pc| {
      assert Placed(s, c.t);
      if Entering(s.pc[c.t]) {
        if s.pc[c.t].Swap? { SwapStep(s, c); }
        assert false;
      } else {
        OnlyHolderReleases(s, c.t);
        assert s.pc[c.t].Pass? && Next(s, c).holder == s.order[s.split];
      }
    }
  }

  /**
   * Whoever gets the lock from `find_successor` is the oldest waiter of the socket it was called for, whatever
   * all threads did in between, and also if the holder's own socket was never recorded.
   */
  lemma FoundOnMySocket(s: State, first: Choice, sched: seq<Choice>, last: Choice)
    requires Inv(s) && first.t < |s.pc| && first.t == s.holder && s.pc[first.t].First?
    requires SearchesOn(Next(s, first), sched)
    requires Next(Exec(Next, Next(s, first), sched), last).holder != s.holder
    ensures var r := Exec(Next, Next(s, first), sched);
            Shape(r) && Members(r) && OldestOn(r, Next(r, last).holder, MySocket(s, first))
  {
    SearchStarts(s, first);
    NextKeepsInv(s, first);
    SoughtOverSearch(Next(s, first), sched);
    FoundIsOldest(Exec(Next, Next(s, first), sched), last);
  }
}
