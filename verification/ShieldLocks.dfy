/** Every lock of the repository does what the shield needs of it: `Sound`, and `Live` for a thread on its own. */
module ShieldLocks {
  import opened ShieldLock
  import Abql
  import Clh
  import CnaModel
  import CnaProgress
  import CnaRuns
  import CnaSteps
  import Hem
  import Int32
  import K42
  import Mcs
  import Ticket

  // MCS

  function McsPhase(s: Mcs.State, t: nat): Phase {
    if t >= |s.pc| then Out else
    match s.pc[t]
    case Idle => Out
    case Critical => In
    case p => if Mcs.Rank(p) > Mcs.Rank(Mcs.Critical) then Entering else Leaving
  }

  ghost function McsLock(n: nat): Protocol<Mcs.State, nat> {
    Protocol(n, Mcs.Next, (t: nat) => t, McsPhase, Mcs.Init(n), s => Mcs.Inv(s) && |s.pc| == n, Mcs.Measure)
  }

  lemma McsMovesOne(s: Mcs.State, t: nat)
    requires Mcs.Shape(s) && t < |s.pc|
    ensures var r := Mcs.Next(s, t); |r.pc| == |s.pc| && r.pc == s.pc[t := r.pc[t]]
  {
  }

  lemma McsFollows(s: Mcs.State, t: nat)
    requires Mcs.Shape(s) && t < |s.pc|
    ensures Follows(McsPhase(s, t), McsPhase(Mcs.Next(s, t), t))
  {
  }

  lemma McsMoves(n: nat, s: Mcs.State, t: nat)
    requires Mcs.Inv(s) && |s.pc| == n
    ensures Mcs.Inv(Mcs.Next(s, t)) && |Mcs.Next(s, t).pc| == n && Moves(McsLock(n), s, t)
  {
    if t < n {
      hide Mcs.Next;
      Mcs.NextKeepsInv(s, t);
      McsMovesOne(s, t);
      McsFollows(s, t);
    }
  }

  lemma McsIsSound(n: nat)
    ensures Sound(McsLock(n)) && Live(McsLock(n))
  {
    var p := McsLock(n);
    forall s, t: nat | p.inv(s) ensures p.inv(p.next(s, t)) && Moves(p, s, t) {
      McsMoves(n, s, t);
    }
    forall s | p.inv(s) ensures Exclusive(p, s) {
      forall t, u | 0 <= t < u < n ensures !Mcs.Holds(s.pc[t]) || !Mcs.Holds(s.pc[u]) {
        assert Mcs.Holds(s.pc[t]) ==> Mcs.Local(s, t);
        assert Mcs.Holds(s.pc[u]) ==> Mcs.Local(s, u);
      }
    }
    forall s, t: nat | p.inv(s) && Alone(p, s, t) ensures exists c :: Advances(p, s, t, c) {
      if !s.pc[t].Idle? && !s.pc[t].Critical? {
        var u := Mcs.NoDeadlock(s, t);
        assert p.phase(s, u) != Out;
        Mcs.MeasureFalls(s, t);
      }
      assert Advances(p, s, t, t);
    }
  }

  // CLH, one lock of it

  function ClhPhase(s: Clh.State, t: nat): Phase {
    if t >= |s.pc| then Out else
    match s.pc[t]
    case Idle => Out
    case SetLocked(_) => Entering
    case Swap(_) => Entering
    case Spin(_) => Entering
    case Critical(_) => In
    case Unlock(_) => Leaving
    case Exchange => Left
  }

  function ClhNext(s: Clh.State, c: Clh.Choice): Clh.State {
    Clh.Next(s, c.(lk := 0))
  }

  ghost function ClhLock(n: nat): Protocol<Clh.State, Clh.Choice> {
    Protocol(n, ClhNext, (c: Clh.Choice) => c.t, ClhPhase, Clh.Init(n, 1),
             s => Clh.Inv(s) && |s.pc| == n && |s.tail| == 1, Clh.Measure)
  }

  lemma ClhMoves(n: nat, s: Clh.State, c: Clh.Choice)
    requires Clh.Shape(s) && |s.pc| == n
    ensures Moves(ClhLock(n), s, c)
  {
  }

  lemma ClhExcludes(n: nat, s: Clh.State)
    requires Clh.Inv(s) && |s.pc| == n && |s.tail| == 1
    ensures Exclusive(ClhLock(n), s)
  {
    forall t, u | 0 <= t < u < n ensures !Clh.Holds(s.pc[t]) || !Clh.Holds(s.pc[u]) {
      if Clh.Holds(s.pc[t]) { Clh.OwnerIsFront(s, t); }
      if Clh.Holds(s.pc[u]) { Clh.OwnerIsFront(s, u); }
    }
  }

  lemma ClhLockPlaysNoRole(s: Clh.State, c: Clh.Choice)
    requires Clh.Shape(s) && c.t < |s.pc| && !s.pc[c.t].Idle?
    ensures Clh.Next(s, c) == ClhNext(s, c)
  {
  }

  lemma ClhBegins(s: Clh.State, c: Clh.Choice)
    requires Clh.Shape(s) && |s.tail| == 1 && c.t < |s.pc| && s.pc[c.t].Idle?
    ensures ClhPhase(ClhNext(s, c), c.t).Entering?
  {
  }

  lemma ClhReleases(s: Clh.State, c: Clh.Choice)
    requires Clh.Shape(s) && c.t < |s.pc| && Clh.Known(s, s.pc[c.t]) && s.pc[c.t].Critical?
    ensures ClhPhase(ClhNext(s, c), c.t).Leaving?
  {
  }

  lemma ClhGoesOn(n: nat, s: Clh.State, t: nat)
    requires Clh.Inv(s) && |s.pc| == n && |s.tail| == 1 && Alone(ClhLock(n), s, t)
    ensures exists c :: Advances(ClhLock(n), s, t, c)
  {
    hide Clh.Next, ClhNext;
    var c := Clh.Choice(t, 0);
    if s.pc[t].Idle? {
      ClhBegins(s, c);
    } else {
      c := Clh.NoDeadlock(s, t);
      assert ClhPhase(s, c.t) != Out;
      ClhLockPlaysNoRole(s, c);
      Clh.MeasureFalls(s, c);
      assert Clh.Prepared(s, t);
      if s.pc[t].Critical? { ClhReleases(s, c); }
    }
    assert Advances(ClhLock(n), s, t, c);
  }

  lemma ClhIsSound(n: nat)
    ensures Sound(ClhLock(n)) && Live(ClhLock(n))
  {
    hide Clh.Next, ClhPhase;
    var p := ClhLock(n);
    forall s, c: Clh.Choice | p.inv(s) ensures p.inv(p.next(s, c)) && Moves(p, s, c) {
      Clh.NextKeepsInv(s, c.(lk := 0));
      ClhMoves(n, s, c);
    }
    forall s | p.inv(s) ensures Exclusive(p, s) { ClhExcludes(n, s); }
    forall s, t: nat | p.inv(s) && Alone(p, s, t) ensures exists c :: Advances(p, s, t, c) { ClhGoesOn(n, s, t); }
    Clh.InvAtFirst(n, 1);
    ClhOutAtFirst(n);
  }

  lemma ClhOutAtFirst(n: nat)
    ensures forall t | 0 <= t < n :: ClhPhase(Clh.Init(n, 1), t).Out?
  {
  }

  // The ticket lock

  function TicketPhase(s: Ticket.State, t: nat): Phase {
    if t >= |s.pc| then Out else
    match s.pc[t]
    case Idle => Out
    case Draw => Entering
    case Spin(_) => Entering
    case Critical => In
    case Bump => Leaving
  }

  ghost function TicketLock(n: nat): Protocol<Ticket.State, nat> {
    Protocol(n, Ticket.Next, (t: nat) => t, TicketPhase, Ticket.Init(n), s => Ticket.Inv(s) && |s.pc| == n,
             Ticket.Measure)
  }

  lemma TicketMoves(n: nat, s: Ticket.State, t: nat)
    requires Ticket.Shape(s) && |s.pc| == n
    ensures Moves(TicketLock(n), s, t)
  {
  }

  lemma TicketIsSound(n: nat)
    requires n <= Int32.TWO_TO_THE_32
    ensures Sound(TicketLock(n)) && Live(TicketLock(n))
  {
    var p := TicketLock(n);
    forall s, t: nat | p.inv(s) ensures p.inv(p.next(s, t)) && Moves(p, s, t) {
      Ticket.OutstandingBounded(s);
      if t < n { Ticket.NextKeepsInv(s, t); }
      TicketMoves(n, s, t);
    }
    forall s | p.inv(s) ensures Exclusive(p, s) {
      forall t, u | 0 <= t < u < n ensures !Ticket.Holds(s.pc[t]) || !Ticket.Holds(s.pc[u]) {
        assert Ticket.Holds(s.pc[t]) ==> Ticket.Local(s, t);
        assert Ticket.Holds(s.pc[u]) ==> Ticket.Local(s, u);
      }
    }
    forall s, t: nat | p.inv(s) && Alone(p, s, t) ensures exists c :: Advances(p, s, t, c) {
      if !s.pc[t].Idle? {
        Ticket.OutstandingBounded(s);
        var u := Ticket.NoDeadlock(s, t);
        assert p.phase(s, u) != Out;
        Ticket.MeasureFalls(s, t);
      }
      assert Advances(p, s, t, t);
    }
  }

  // The array lock, until its counter runs over

  function AbqlPhase(s: Abql.State, t: nat): Phase {
    if t >= |s.pc| then Out else
    match s.pc[t]
    case Idle => Out
    case Draw => Entering
    case Spin(_) => Entering
    case Critical(_) => In
    case ClearFlag(_) => Leaving
    case WakeNext(_) => Leaving
  }

  ghost function AbqlLock(n: nat): Protocol<Abql.State, nat> {
    Protocol(n, Abql.Next, (t: nat) => t, AbqlPhase, Abql.Init(n),
             s => Abql.Running(s, n) && Abql.Exclusive(s), Abql.Measure)
  }

  lemma AbqlMoves(n: nat, s: Abql.State, t: nat)
    requires Abql.Shape(s) && |s.pc| == n
    ensures Moves(AbqlLock(n), s, t)
  {
  }

  lemma AbqlExcludes(s: Abql.State)
    requires Abql.Inv(s)
    ensures Abql.Exclusive(s)
  {
    forall t, u | 0 <= t < u < |s.pc| ensures !Abql.Holds(s.pc[t]) || !Abql.Holds(s.pc[u]) {
      assert Abql.Holds(s.pc[t]) ==> Abql.Local(s, t);
      assert Abql.Holds(s.pc[u]) ==> Abql.Local(s, u);
    }
  }

  lemma AbqlIsSound(n: nat)
    requires n <= Abql.MAX_THREADS
    ensures Sound(AbqlLock(n))
  {
    var p := AbqlLock(n);
    forall s, t: nat | p.inv(s) ensures p.inv(p.next(s, t)) && Moves(p, s, t) {
      if Abql.Inv(s) { Abql.OutstandingBounded(s); }
      Abql.StaysRunning(s, n, t);
      if Abql.Inv(Abql.Next(s, t)) { AbqlExcludes(Abql.Next(s, t)); }
      AbqlMoves(n, s, t);
    }
    AbqlExcludes(p.initial);
  }

  // CNA

  function CnaPhase(s: CnaModel.State, t: nat): Phase {
    if t >= |s.pc| || s.pc[t].Idle? then Out
    else if CnaModel.Entering(s.pc[t]) then Entering
    else if s.pc[t].Critical? then In
    else Leaving
  }

  ghost function CnaLock(n: nat): Protocol<CnaModel.State, CnaModel.Choice> {
    Protocol(n, CnaModel.Next, (c: CnaModel.Choice) => c.t, CnaPhase, CnaModel.Init(n),
             s => CnaModel.Inv(s) && |s.pc| == n, CnaProgress.Measure)
  }

  predicate CnaFollows(s: CnaModel.State, r: CnaModel.State, t: nat)
    requires t < |s.pc|
  {
    |r.pc| == |s.pc| && r.pc == s.pc[t := r.pc[t]] && Follows(CnaPhase(s, t), CnaPhase(r, t))
  }

  lemma CnaArriveFollows(s: CnaModel.State, c: CnaModel.Choice)
    requires CnaModel.Shape(s) && c.t < |s.pc| && CnaModel.Entering(s.pc[c.t])
    ensures CnaFollows(s, CnaModel.Arrive(s, c), c.t)
  {
  }

  lemma CnaLeaveFollows(s: CnaModel.State, c: CnaModel.Choice)
    requires CnaModel.Shape(s) && c.t < |s.pc| && CnaModel.Leaving(s.pc[c.t])
    ensures CnaFollows(s, CnaModel.Leave(s, c), c.t)
  {
  }

  lemma CnaTraverseFollows(s: CnaModel.State, c: CnaModel.Choice)
    requires CnaModel.Shape(s) && c.t < |s.pc| && CnaModel.Traversing(s.pc[c.t])
    ensures CnaFollows(s, CnaModel.Traverse(s, c), c.t)
  {
  }

  lemma CnaSpliceFollows(s: CnaModel.State, c: CnaModel.Choice)
    requires CnaModel.Shape(s) && c.t < |s.pc| && CnaModel.Splicing(s.pc[c.t])
    ensures CnaFollows(s, CnaModel.Splice(s, c.t), c.t)
  {
  }

  predicate CnaGrants(p: CnaModel.PC) {
    p.Pass? || p.GrantSec? || p.GrantJoined? || p.GrantFirst?
  }

  lemma CnaGrantFollows(s: CnaModel.State, t: nat)
    requires CnaModel.Shape(s) && t < |s.pc| && CnaGrants(s.pc[t])
    ensures var r := CnaModel.HandOver(s, t); |r.pc| == |s.pc| && r.pc == s.pc[t := CnaModel.Idle]
  {
  }

  lemma CnaJoinFollows(s: CnaModel.State, t: nat)
    requires CnaModel.Shape(s) && t < |s.pc| && !CnaModel.Entering(s.pc[t]) && !CnaModel.Leaving(s.pc[t])
    requires !CnaGrants(s.pc[t])
    ensures CnaFollows(s, CnaModel.HandOver(s, t), t)
  {
  }

  lemma CnaHandOverFollows(s: CnaModel.State, c: CnaModel.Choice)
    requires CnaModel.Shape(s) && c.t < |s.pc| && !CnaModel.Entering(s.pc[c.t]) && !CnaModel.Leaving(s.pc[c.t])
    ensures CnaFollows(s, CnaModel.HandOver(s, c.t), c.t)
  {
    hide CnaModel.HandOver;
    if CnaGrants(s.pc[c.t]) { CnaGrantFollows(s, c.t); } else { CnaJoinFollows(s, c.t); }
  }

  lemma CnaMoves(n: nat, s: CnaModel.State, c: CnaModel.Choice)
    requires CnaModel.Shape(s) && |s.pc| == n
    ensures |CnaModel.Next(s, c).pc| == n && Moves(CnaLock(n), s, c)
  {
    if c.t < n {
      hide CnaModel.Arrive, CnaModel.Leave, CnaModel.Traverse, CnaModel.Splice, CnaModel.HandOver;
      if CnaModel.Entering(s.pc[c.t]) {
        CnaArriveFollows(s, c);
      } else if CnaModel.Leaving(s.pc[c.t]) {
        CnaLeaveFollows(s, c);
      } else {
        if CnaModel.Traversing(s.pc[c.t]) { CnaTraverseFollows(s, c); }
        if CnaModel.Splicing(s.pc[c.t]) { CnaSpliceFollows(s, c); }
        CnaHandOverFollows(s, c);
      }
    }
  }

  lemma CnaExcludes(n: nat, s: CnaModel.State)
    requires CnaModel.Inv(s) && |s.pc| == n
    ensures Exclusive(CnaLock(n), s)
  {
    forall t, u | 0 <= t < u < n ensures !CnaModel.Holds(s.pc[t]) || !CnaModel.Holds(s.pc[u]) {
      if CnaModel.Holds(s.pc[t]) { CnaSteps.OnlyHolderReleases(s, t); }
      if CnaModel.Holds(s.pc[u]) { CnaSteps.OnlyHolderReleases(s, u); }
    }
  }

  lemma CnaGoesOn(n: nat, s: CnaModel.State, t: nat)
    requires CnaModel.Inv(s) && |s.pc| == n && Alone(CnaLock(n), s, t)
    ensures exists c :: Advances(CnaLock(n), s, t, c)
  {
    var c := CnaModel.Choice(t, 0, false);
    if !s.pc[t].Idle? {
      c := CnaProgress.NoDeadlock(s, t);
      assert CnaPhase(s, c.t) != Out;
      CnaProgress.MeasureFalls(s, c);
    }
    assert Advances(CnaLock(n), s, t, c);
  }

  lemma CnaIsSound(n: nat)
    ensures Sound(CnaLock(n)) && Live(CnaLock(n))
  {
    hide CnaModel.Inv, CnaModel.Next, CnaPhase;
    var p := CnaLock(n);
    forall s, c: CnaModel.Choice | p.inv(s) ensures p.inv(p.next(s, c)) && Moves(p, s, c) {
      CnaSteps.NextKeepsInv(s, c);
      InvShape(s);
      CnaMoves(n, s, c);
    }
    forall s | p.inv(s) ensures Exclusive(p, s) { CnaExcludes(n, s); }
    forall s, t: nat | p.inv(s) && Alone(p, s, t) ensures exists c :: Advances(p, s, t, c) { CnaGoesOn(n, s, t); }
    CnaAtFirst(n);
  }

  lemma InvShape(s: CnaModel.State)
    requires CnaModel.Inv(s)
    ensures CnaModel.Shape(s)
  {
  }

  lemma CnaAtFirst(n: nat)
    ensures CnaModel.Inv(CnaModel.Init(n)) && |CnaModel.Init(n).pc| == n
    ensures forall t | 0 <= t < n :: CnaPhase(CnaModel.Init(n), t).Out?
  {
  }

  // K42

  function K42Phase(s: K42.State, t: nat): Phase {
    if t >= |s.pc| || s.pc[t].Idle? then Out
    else if K42.Acquiring(s.pc[t]) || K42.Converting(s.pc[t]) then Entering
    else if s.pc[t].Critical? then In
    else Leaving
  }

  ghost function K42Lock(n: nat): Protocol<K42.State, K42.Choice> {
    Protocol(n, K42.Next, (c: K42.Choice) => c.t, K42Phase, K42.Init(n), s => K42.Inv(s) && |s.pc| == n, K42.Measure)
  }

  lemma K42AcquireFollows(s: K42.State, c: K42.Choice)
    requires K42.Shape(s) && c.t < |s.pc| && K42.Acquiring(s.pc[c.t])
    ensures Follows(K42Phase(s, c.t), K42Phase(K42.Acquire(s, c), c.t))
  {
  }

  lemma K42ConvertFollows(s: K42.State, t: nat)
    requires K42.Shape(s) && t < |s.pc| && K42.Converting(s.pc[t])
    ensures var r := K42.Convert(s, t);
            |r.pc| == |s.pc| && r.pc == s.pc[t := r.pc[t]] && Follows(K42Phase(s, t), K42Phase(r, t))
  {
  }

  lemma K42ReleaseMovesOne(s: K42.State, t: nat)
    requires K42.Shape(s) && t < |s.pc|
    ensures |K42.Release(s, t).pc| == |s.pc|
    ensures forall u | 0 <= u < |s.pc| && u != t :: K42.Release(s, t).pc[u] == s.pc[u]
  {
  }

  lemma K42ReleaseFollows(s: K42.State, t: nat)
    requires K42.Shape(s) && t < |s.pc| && !K42.Acquiring(s.pc[t]) && !K42.Converting(s.pc[t])
    ensures Follows(K42Phase(s, t), K42Phase(K42.Release(s, t), t))
  {
  }

  lemma K42Moves(n: nat, s: K42.State, c: K42.Choice)
    requires K42.Shape(s) && |s.pc| == n
    ensures |K42.Next(s, c).pc| == n && Moves(K42Lock(n), s, c)
  {
    if c.t < n {
      hide K42.Acquire, K42.Convert, K42.Release;
      K42.AcquireMovesOne(s, c);
      K42ReleaseMovesOne(s, c.t);
      if K42.Acquiring(s.pc[c.t]) { K42AcquireFollows(s, c); }
      else if K42.Converting(s.pc[c.t]) { K42ConvertFollows(s, c.t); }
      else { K42ReleaseFollows(s, c.t); }
    }
  }

  lemma K42Excludes(n: nat, s: K42.State)
    requires K42.Inv(s) && |s.pc| == n
    ensures Exclusive(K42Lock(n), s)
  {
    forall t, u | 0 <= t < u < n ensures !K42.Holds(s.pc[t]) || !K42.Holds(s.pc[u]) {
      if K42.Holds(s.pc[t]) { K42.OwnerIsFront(s, t); }
      if K42.Holds(s.pc[u]) { K42.OwnerIsFront(s, u); }
    }
  }

  /** There is always an address left to allocate. */
  lemma {:induction false} FreshAddress(used: set<int>) returns (a: int)
    ensures a > 0 && forall b | b in used :: b < a
  {
    if b :| b in used {
      a := FreshAddress(used - {b});
      a := if b < a then a else b + 1;
      forall x | x in used ensures x < a { assert x == b || x in used - {b}; }
    } else {
      a := 1;
    }
  }

  lemma K42GoesOn(n: nat, s: K42.State, t: nat)
    requires K42.Inv(s) && |s.pc| == n && Alone(K42Lock(n), s, t)
    ensures exists c :: Advances(K42Lock(n), s, t, c)
  {
    var addr := FreshAddress(s.heap.Keys);
    var c := K42.Choice(t, addr);
    if !s.pc[t].Idle? {
      c := K42.NoDeadlock(s, t);
      assert K42Phase(s, c.t) != Out;
      K42.MeasureFalls(s, c);
    }
    assert Advances(K42Lock(n), s, t, c);
  }

  lemma K42IsSound(n: nat)
    ensures Sound(K42Lock(n)) && Live(K42Lock(n))
  {
    hide K42.Next, K42Phase;
    var p := K42Lock(n);
    forall s, c: K42.Choice | p.inv(s) ensures p.inv(p.next(s, c)) && Moves(p, s, c) {
      K42.NextKeepsInv(s, c);
      K42Moves(n, s, c);
    }
    forall s | p.inv(s) ensures Exclusive(p, s) { K42Excludes(n, s); }
    forall s, t: nat | p.inv(s) && Alone(p, s, t) ensures exists c :: Advances(p, s, t, c) { K42GoesOn(n, s, t); }
    K42AtFirst(n);
  }

  lemma K42AtFirst(n: nat)
    ensures K42.Inv(K42.Init(n)) && |K42.Init(n).pc| == n
    ensures forall t | 0 <= t < n :: K42Phase(K42.Init(n), t).Out?
  {
  }

  // Hemlock, one lock of it

  function HemPhase(s: Hem.State, t: nat): Phase {
    if t >= |s.pc| || t >= |s.held| then Out
    else if s.pc[t].Idle? then (if 0 in s.held[t] then In else Out)
    else if !Hem.Releasing(s.pc[t]) then Entering
    else if 0 in s.held[t] then Leaving
    else Left
  }

  function HemNext(s: Hem.State, c: Hem.Choice): Hem.State {
    Hem.Next(s, c.(lk := 0))
  }

  ghost function HemLock(n: nat): Protocol<Hem.State, Hem.Choice> {
    Protocol(n, HemNext, (c: Hem.Choice) => c.t, HemPhase, Hem.Init(n, 1),
             s => Hem.Inv(s) && |s.pc| == n && |s.tail| == 1, Hem.Measure)
  }

  predicate HemStays(s: Hem.State, r: Hem.State, t: nat) {
    && |s.held| == |s.pc| == |r.pc| == |r.held|
    && forall u | 0 <= u < |s.pc| && u != t :: r.pc[u] == s.pc[u] && r.held[u] == s.held[u]
  }

  lemma HemAcquireStays(s: Hem.State, c: Hem.Choice)
    requires Hem.Shape(s) && c.t < |s.pc| && !Hem.Releasing(s.pc[c.t])
    ensures HemStays(s, HemNext(s, c), c.t)
  {
  }

  lemma HemReleaseStays(s: Hem.State, c: Hem.Choice)
    requires Hem.Shape(s) && c.t < |s.pc| && Hem.Releasing(s.pc[c.t])
    ensures HemStays(s, HemNext(s, c), c.t)
  {
  }

  lemma HemFollows(s: Hem.State, c: Hem.Choice)
    requires Hem.Shape(s) && c.t < |s.pc| && Hem.Single(s, c.t) && |s.tail| == 1
    ensures Follows(HemPhase(s, c.t), HemPhase(HemNext(s, c), c.t))
  {
  }

  lemma HemMoves(n: nat, s: Hem.State, c: Hem.Choice)
    requires Hem.Inv(s) && |s.pc| == n && |s.tail| == 1
    ensures Moves(HemLock(n), s, c)
  {
    if c.t < n {
      hide HemNext;
      assert Hem.Single(s, c.t);
      if Hem.Releasing(s.pc[c.t]) { HemReleaseStays(s, c); } else { HemAcquireStays(s, c); }
      HemFollows(s, c);
    }
  }

  lemma HemExcludes(n: nat, s: Hem.State)
    requires Hem.Inv(s) && |s.pc| == n && |s.tail| == 1
    ensures Exclusive(HemLock(n), s)
  {
    forall t, u | 0 <= t < u < n ensures !Holds(HemPhase(s, t)) || !Holds(HemPhase(s, u)) {
      if Hem.Holds(s, 0, t) { Hem.OwnerIsFront(s, 0, t); }
      if Hem.Holds(s, 0, u) { Hem.OwnerIsFront(s, 0, u); }
    }
  }

  /** A thread that meets no other does not wait. */
  lemma HemMovesOn(s: Hem.State, t: nat, c: Hem.Choice)
    requires Hem.Inv(s) && t < |s.pc| && !s.pc[t].Idle? && |s.tail| == 1
    requires c.t == t && forall u | 0 <= u < |s.pc| && u != t :: s.pc[u].Idle? && 0 !in s.held[u]
    ensures Hem.Next(s, c) != s
  {
    assert Hem.Single(s, t);
    if Hem.Next(s, c) == s {
      forall d: Hem.Choice | d.t < |s.pc| ensures Hem.Starts(s, d) || Hem.Next(s, d) == s {}
      var h := Hem.RestWaitsForHolder(s, t);
    }
  }

  lemma HemBegins(s: Hem.State, t: nat)
    requires Hem.Shape(s) && t < |s.pc| && s.pc[t].Idle? && |s.tail| == 1
    ensures var q := HemPhase(HemNext(s, Hem.Choice(t, 0, 0 in s.held[t])), t);
            if 0 in s.held[t] then q.Leaving? else q.Entering?
  {
  }

  lemma HemGoesOn(n: nat, s: Hem.State, t: nat)
    requires Hem.Inv(s) && |s.pc| == n && |s.tail| == 1 && Alone(HemLock(n), s, t)
    ensures exists c :: Advances(HemLock(n), s, t, c)
  {
    hide Hem.Next;
    var c := Hem.Choice(t, 0, 0 in s.held[t]);
    if s.pc[t].Idle? {
      HemBegins(s, t);
    } else {
      forall u | 0 <= u < n && u != t ensures s.pc[u].Idle? && 0 !in s.held[u] { assert HemPhase(s, u).Out?; }
      HemMovesOn(s, t, c);
      Hem.MeasureFalls(s, c);
    }
    assert Advances(HemLock(n), s, t, c);
  }

  lemma HemIsSound(n: nat)
    ensures Sound(HemLock(n)) && Live(HemLock(n))
  {
    hide Hem.Next, HemPhase;
    var p := HemLock(n);
    forall s, c: Hem.Choice | p.inv(s) ensures p.inv(p.next(s, c)) && Moves(p, s, c) {
      Hem.NextKeepsInv(s, c.(lk := 0));
      Hem.SameSizes(s, c.(lk := 0));
      HemMoves(n, s, c);
    }
    forall s | p.inv(s) ensures Exclusive(p, s) { HemExcludes(n, s); }
    forall s, t: nat | p.inv(s) && Alone(p, s, t) ensures exists c :: Advances(p, s, t, c) { HemGoesOn(n, s, t); }
    HemAtFirst(n);
  }

  lemma HemAtFirst(n: nat)
    ensures Hem.Inv(Hem.Init(n, 1)) && |Hem.Init(n, 1).pc| == n && |Hem.Init(n, 1).tail| == 1
    ensures forall t | 0 <= t < n :: HemPhase(Hem.Init(n, 1), t).Out?
  {
  }
}
