/** A linked waiter of the holder's socket is not passed by: `find_successor` finds it, whatever all threads do. */
module CnaLocal {
  import opened Runs
  import opened CnaModel
  import opened CnaSteps
  import opened CnaSearch

  /** The waiter at position `k` of the main queue is on socket `m`, and it and all before it there are linked. */
  ghost predicate LinkedLocal(s: State, m: int, k: nat)
    requires Shape(s) && Members(s)
  {
    && s.split <= k < |s.order| && s.socket[s.order[k]] == m
    && forall i | s.split <= i <= k :: s.pc[s.order[i]].Wait?
  }

  /** The holder is on its way to a waiter of socket `m`, from the critical section on. */
  ghost predicate Heading(s: State, m: int, k: nat) {
    && Shape(s) && Members(s) && 0 <= s.holder < |s.pc|
    && var p := s.pc[s.holder];
       if Bound(p) then Sought(s) == m
       else
         && LinkedLocal(s, m, k)
         && if p.Second? then p.sock == m
            else if p.Scan? then p.sock == m && p.cur != NULL
            else (p.Critical? || p.LoadNext? || p.Decide? || p.First?) && (s.socket[s.holder] in {-1, m})
  }

  /** If it is a step of the holder before the walk, it decides to keep the lock local, and is made on socket `m`. */
  predicate Steered(s: State, c: Choice, m: int)
    requires Shape(s)
  {
    c.t < |s.pc| && c.t == s.holder ==>
      (s.pc[c.t].Decide? ==> c.keep) && (s.pc[c.t].First? ==> MySocket(s, c) == m)
  }

  lemma OthersSeenStep(s: State, c: Choice)
    requires Inv(s) && c.t < |s.pc| && c.t != s.holder && s.holder != NULL
    ensures Next(s, c) == s || HolderSees(s, Next(s, c))
  {
    assert Placed(s, c.t);
    var r := Arrive(s, c);
    if s.pc[c.t].Swap? {
      SwapStep(s, c);
      OthersSeen(s, r, c.t);
    } else if !Arriving(s.pc[c.t]) {
      ResetSteps(s, c);
      OthersSeen(s, r, c.t);
    } else {
      var i :| 0 <= i < |s.order| && s.order[i] == c.t;
      Around(s, i);
      if Unlinked(s.pc[c.t]) {
        var i0 := Position(s, c.t);
        WaiterSteps(s, c, i0);
        OthersSeen(s, r, c.t);
      }
    }
  }

  lemma OthersKeepHeading(s: State, r: State, m: int, k: nat)
    requires Heading(s, m, k) && HolderSees(s, r)
    requires Bound(s.pc[s.holder]) ==>
      0 <= Chosen(s.pc[s.holder]) < |s.pc| && s.pc[Chosen(s.pc[s.holder])].Wait? && Chosen(s.pc[s.holder]) in s.order
    ensures Heading(r, m, k)
  {
  }

  lemma LeaveHeads(s: State, c: Choice, m: int, k: nat)
    requires Heading(s, m, k) && Steered(s, c, m) && c.t == s.holder && HolderLinks(s)
    requires s.pc[c.t].Critical? || s.pc[c.t].LoadNext? || s.pc[c.t].Decide?
    ensures Next(s, c).holder == s.holder && Heading(Next(s, c), m, k)
  {
  }

  lemma FirstHeads(s: State, c: Choice, m: int, k: nat)
    requires Heading(s, m, k) && Steered(s, c, m) && c.t == s.holder && HolderLinks(s) && s.pc[c.t].First?
    ensures Next(s, c).holder == s.holder && Heading(Next(s, c), m, k)
  {
  }

  lemma SecondHeads(s: State, c: Choice, m: int, k: nat)
    requires Heading(s, m, k) && c.t == s.holder && HolderLocals(s) && s.pc[c.t].Second?
    requires s.split + 1 < |s.order| ==> ChainAt(s, s.split)
    ensures Next(s, c).holder == s.holder && Heading(Next(s, c), m, k)
    ensures Searching(Next(s, c))
  {
  }

  lemma ScanHeads(s: State, c: Choice, m: int, k: nat)
    requires Heading(s, m, k) && c.t == s.holder && HolderLocals(s) && s.pc[c.t].Scan?
    requires s.scan + 1 < |s.order| ==> ChainAt(s, s.scan)
    ensures Next(s, c).holder == s.holder && Heading(Next(s, c), m, k)
    ensures Searching(Next(s, c))
  {
  }

  lemma BoundGoesOn(s: State, c: Choice)
    requires Shape(s) && Members(s) && c.t < |s.pc| && c.t == s.holder && HolderLocals(s) && Bound(s.pc[c.t])
    ensures s.pc[c.t].Pass? || (Searching(Next(s, c)) && Next(s, c).holder == s.holder && Bound(Next(s, c).pc[c.t]))
    ensures s.pc[c.t].Pass? ==> Next(s, c).holder == s.order[s.split] != s.holder
  {
  }

  lemma SameMembers(s: State, c: Choice)
    requires Inv(s)
    ensures Shape(Next(s, c)) && Members(Next(s, c))
  {
    NextKeepsInv(s, c);
  }

  lemma OwnStepHeads(s: State, c: Choice, m: int, k: nat)
    requires Inv(s) && Heading(s, m, k) && Steered(s, c, m) && c.t == s.holder
    ensures if Next(s, c).holder == s.holder then Heading(Next(s, c), m, k) else s.pc[c.t].Pass?
    ensures Searching(s) && Next(s, c).holder == s.holder ==> Searching(Next(s, c))
  {
    hide Next;
    var p := s.pc[c.t];
    if Bound(p) {
      BoundGoesOn(s, c);
      SameMembers(s, c);
      if Next(s, c).holder == s.holder { SoughtStays(s, c); }
    } else if p.First? {
      FirstHeads(s, c, m, k);
    } else if p.Second? {
      if s.split + 1 < |s.order| { Around(s, s.split); }
      SecondHeads(s, c, m, k);
    } else if p.Scan? {
      if s.scan + 1 < |s.order| { Around(s, s.scan); }
      ScanHeads(s, c, m, k);
    } else {
      LeaveHeads(s, c, m, k);
    }
  }

  lemma OthersStepHeads(s: State, c: Choice, m: int, k: nat)
    requires Inv(s) && Heading(s, m, k) && c.t != s.holder
    ensures Next(s, c).holder == s.holder && Heading(Next(s, c), m, k)
    ensures Searching(s) ==> Searching(Next(s, c))
  {
    if c.t < |s.pc| {
      OthersSeenStep(s, c);
      if Bound(s.pc[s.holder]) { ChosenWaits(s); }
      if Next(s, c) != s { OthersKeepHeading(s, Next(s, c), m, k); }
    }
  }

  /** No step of any thread leads astray: the holder stays on its way, or hands over to the oldest waiter of `m`. */
  lemma HeadingStep(s: State, c: Choice, m: int, k: nat)
    requires Inv(s) && Heading(s, m, k) && Steered(s, c, m)
    ensures if Next(s, c).holder == s.holder then Heading(Next(s, c), m, k) else OldestOn(s, Next(s, c).holder, m)
    ensures Next(s, c).holder != s.holder ==> Searching(s) && Sought(s) == m
    ensures Searching(s) && Next(s, c).holder == s.holder ==> Searching(Next(s, c))
  {
    if c.t == s.holder {
      OwnStepHeads(s, c, m, k);
      if Next(s, c).holder != s.holder { FoundIsOldest(s, c); }
    } else {
      OthersStepHeads(s, c, m, k);
    }
  }

  /** The lock does not change hands during the run. */
  ghost predicate Stays(s: State, sched: seq<Choice>) {
    Exec(Next, s, sched).holder == s.holder && (sched != [] ==> Stays(s, sched[..|sched| - 1]))
  }

  /** Every step of thread `h` in the run is made on socket `m` and, should it decide, keeps the lock local. */
  ghost predicate KeepsOn(h: int, m: int, sched: seq<Choice>) {
    forall i | 0 <= i < |sched| && sched[i].t == h :: sched[i].keep && sched[i].socket == m
  }

  lemma KeepsSteered(s: State, m: int, k: nat, c: Choice)
    requires Heading(s, m, k) && (Searching(s) || (c.t == s.holder ==> c.keep && c.socket == m))
    ensures Steered(s, c, m)
  {
  }

  lemma {:induction false} HeadsOn(s: State, m: int, k: nat, sched: seq<Choice>)
    requires Inv(s) && Heading(s, m, k) && Stays(s, sched)
    requires Searching(s) || KeepsOn(s.holder, m, sched)
    ensures var r := Exec(Next, s, sched);
            Inv(r) && Heading(r, m, k) && (Searching(s) ==> Searching(r))
  {
    hide Next, Inv, Heading, Sought;
    if sched != [] {
      var before, c := sched[..|sched| - 1], sched[|sched| - 1];
      HeadsOn(s, m, k, before);
      NextKeepsInv(Exec(Next, s, before), c);
      KeepsSteered(Exec(Next, s, before), m, k, c);
      HeadingStep(Exec(Next, s, before), c, m, k);
    }
  }

  lemma SearchHeads(s: State, first: Choice, k: nat)
    requires Inv(s) && first.t < |s.pc| && first.t == s.holder && s.pc[first.t].First?
    requires LinkedLocal(s, MySocket(s, first), k)
    ensures var r := Next(s, first);
            Inv(r) && Heading(r, MySocket(s, first), k) && Searching(r) && r.holder == s.holder
  {
    SearchStarts(s, first);
    NextKeepsInv(s, first);
    FirstHeads(s, first, MySocket(s, first), k);
  }

  /**
   * From the moment that `find_successor` starts: if some waiter of the socket that it looks for is linked, and all
   * before it in the main queue are, then the lock goes to the oldest waiter of that socket, over every schedule.
   */
  lemma LinkedLocalServed(s: State, first: Choice, k: nat, sched: seq<Choice>, last: Choice)
    requires Inv(s) && first.t < |s.pc| && first.t == s.holder && s.pc[first.t].First?
    requires LinkedLocal(s, MySocket(s, first), k) && Stays(Next(s, first), sched)
    requires Next(Exec(Next, Next(s, first), sched), last).holder != s.holder
    ensures var r := Exec(Next, Next(s, first), sched);
            Shape(r) && Members(r) && OldestOn(r, Next(r, last).holder, MySocket(s, first))
  {
    var m, s1 := MySocket(s, first), Next(s, first);
    SearchHeads(s, first, k);
    hide Next, Inv, Heading, Sought;
    HeadsOn(s1, m, k, sched);
    KeepsSteered(Exec(Next, s1, sched), m, k, last);
    HeadingStep(Exec(Next, s1, sched), last, m, k);
  }

  /** The same from the critical section or anywhere before `find_successor`, if the holder keeps to one socket. */
  lemma KeptLocalServed(s: State, m: int, k: nat, sched: seq<Choice>, last: Choice)
    requires Inv(s) && Heading(s, m, k) && Stays(s, sched) && KeepsOn(s.holder, m, sched + [last])
    requires Next(Exec(Next, s, sched), last).holder != s.holder
    ensures var r := Exec(Next, s, sched);
            Inv(r) && Searching(r) && Sought(r) == m && OldestOn(r, Next(r, last).holder, m)
  {
    hide Next, Inv, Sought;
    assert forall i | 0 <= i < |sched| :: (sched + [last])[i] == sched[i];
    assert (sched + [last])[|sched|] == last;
    HeadsOn(s, m, k, sched);
    KeepsSteered(Exec(Next, s, sched), m, k, last);
    HeadingStep(Exec(Next, s, sched), last, m, k);
  }
}
