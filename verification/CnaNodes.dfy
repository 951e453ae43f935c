/**
 * The NUMA-aware lock on threads that stay on their node: what is recorded is where they run, and so the order of
 * service is one of nodes.
 */
module CnaNodes {
  import opened Runs
  import opened CnaModel
  import opened CnaSteps
  import opened CnaRuns
  import opened CnaSearch
  import opened CnaLocal

  /** Every step of every thread is made on that thread's node. */
  ghost predicate OnNodes(node: nat -> nat, sched: seq<Choice>) {
    forall i | 0 <= i < |sched| :: sched[i].socket == node(sched[i].t)
  }

  /** The step is the exchange on `tail`, which draws a ticket. */
  predicate Draws(s: State, c: Choice) {
    c.t < |s.pc| && s.pc[c.t].Swap?
  }

  /** Who drew each ticket. */
  ghost function Drawers(n: nat, sched: seq<Choice>): seq<nat> {
    if sched == [] then []
    else
      var before, c := sched[..|sched| - 1], sched[|sched| - 1];
      Drawers(n, before) + if Draws(After(n, before), c) then [c.t] else []
  }

  ghost predicate ThreadAt(node: nat -> nat, s: State, who: seq<nat>, t: nat)
    requires Shape(s) && t < |s.pc|
  {
    && (s.socket[t] == -1 || s.socket[t] == node(t))
    && (s.pc[t].Link? || s.pc[t].Wait? ==> s.socket[t] == node(t))
    && (Arriving(s.pc[t]) || Holds(s.pc[t]) ==> s.ticket[t] < |who| && who[s.ticket[t]] == t)
  }

  ghost predicate TicketAt(node: nat -> nat, s: State, who: seq<nat>, x: nat)
    requires x < |who| && x < |s.sockets|
  {
    s.sockets[x] == -1 || s.sockets[x] == node(who[x])
  }

  /** Recorded sockets are the nodes of the threads. */
  ghost predicate NodesRecorded(node: nat -> nat, s: State, who: seq<nat>) {
    && Shape(s) && |who| == |s.sockets|
    && (forall t {:trigger ThreadAt(node, s, who, t)} :: 0 <= t < |s.pc| ==> ThreadAt(node, s, who, t))
    && (forall x {:trigger TicketAt(node, s, who, x)} :: 0 <= x < |who| ==> TicketAt(node, s, who, x))
  }

  /** A step that leaves sockets and tickets alone. */
  ghost predicate SameSockets(s: State, r: State, t: nat)
    requires Shape(s) && t < |s.pc|
  {
    && Shape(r) && |r.pc| == |s.pc| && r.socket == s.socket && r.sockets == s.sockets && r.ticket == s.ticket
    && (forall u | 0 <= u < |s.pc| && u != t :: r.pc[u] == s.pc[u])
    && !r.pc[t].Link? && (r.pc[t].Wait? ==> s.pc[t].Link? || s.pc[t].Wait?)
    && (Arriving(r.pc[t]) || Holds(r.pc[t]) ==> Arriving(s.pc[t]) || Holds(s.pc[t]))
  }

  lemma SameSocketsKeepNodes(node: nat -> nat, s: State, r: State, who: seq<nat>, t: nat)
    requires NodesRecorded(node, s, who) && t < |s.pc| && SameSockets(s, r, t)
    ensures NodesRecorded(node, r, who)
  {
    forall u: nat | u < |r.pc| ensures ThreadAt(node, r, who, u) { assert ThreadAt(node, s, who, u); }
    forall x: nat | x < |who| ensures TicketAt(node, r, who, x) { assert TicketAt(node, s, who, x); }
  }

  lemma ArriveKeepsSockets(s: State, c: Choice)
    requires Shape(s) && c.t < |s.pc| && Entering(s.pc[c.t])
    requires !s.pc[c.t].Swap? && !s.pc[c.t].SetSocket? && !s.pc[c.t].ResetSpin?
    ensures SameSockets(s, Arrive(s, c), c.t)
  {
  }

  lemma LeaveKeepsSockets(s: State, c: Choice)
    requires Shape(s) && c.t < |s.pc| && Leaving(s.pc[c.t])
    ensures SameSockets(s, Leave(s, c), c.t)
  {
  }

  lemma TraverseKeepsSockets(s: State, c: Choice)
    requires Shape(s) && c.t < |s.pc| && Traversing(s.pc[c.t])
    ensures SameSockets(s, Traverse(s, c), c.t)
  {
  }

  lemma SpliceKeepsSockets(s: State, t: nat)
    requires Shape(s) && t < |s.pc| && Splicing(s.pc[t])
    ensures SameSockets(s, Splice(s, t), t)
  {
  }

  lemma HandOverKeepsSockets(s: State, t: nat)
    requires Shape(s) && t < |s.pc| && Holds(s.pc[t]) && !Leaving(s.pc[t]) && !Traversing(s.pc[t]) && !Splicing(s.pc[t])
    requires Shape(HandOver(s, t))
    ensures SameSockets(s, HandOver(s, t), t)
  {
  }

  lemma ResetKeepsNodes(node: nat -> nat, s: State, who: seq<nat>, c: Choice)
    requires NodesRecorded(node, s, who) && c.t < |s.pc| && s.pc[c.t].ResetSpin?
    ensures NodesRecorded(node, Arrive(s, c), who)
  {
    var r := Arrive(s, c);
    forall u: nat | u < |r.pc| ensures ThreadAt(node, r, who, u) { assert ThreadAt(node, s, who, u); }
    forall x: nat | x < |who| ensures TicketAt(node, r, who, x) { assert TicketAt(node, s, who, x); }
  }

  lemma SetSocketKeepsNodes(node: nat -> nat, s: State, who: seq<nat>, c: Choice)
    requires NodesRecorded(node, s, who) && c.t < |s.pc| && s.pc[c.t].SetSocket? && c.socket == node(c.t)
    ensures NodesRecorded(node, Arrive(s, c), who)
  {
    var r := Arrive(s, c);
    assert ThreadAt(node, s, who, c.t);
    forall u: nat | u < |r.pc| ensures ThreadAt(node, r, who, u) { assert ThreadAt(node, s, who, u); }
    forall x: nat | x < |who| ensures TicketAt(node, r, who, x) { assert TicketAt(node, s, who, x); }
  }

  lemma SwapKeepsNodes(node: nat -> nat, s: State, who: seq<nat>, c: Choice)
    requires NodesRecorded(node, s, who) && c.t < |s.pc| && s.pc[c.t].Swap? && Shape(Arrive(s, c))
    ensures NodesRecorded(node, Arrive(s, c), who + [c.t])
  {
    var r := Arrive(s, c);
    forall u: nat | u < |r.pc| ensures ThreadAt(node, r, who + [c.t], u) { assert ThreadAt(node, s, who, u); }
    forall x: nat | x < |who| + 1 ensures TicketAt(node, r, who + [c.t], x) {
      if x < |who| { assert TicketAt(node, s, who, x); }
    }
  }

  /** Every step of a thread on its node keeps the record right. */
  lemma NextKeepsNodes(node: nat -> nat, s: State, who: seq<nat>, c: Choice)
    requires Inv(s) && NodesRecorded(node, s, who) && c.socket == node(c.t)
    ensures NodesRecorded(node, Next(s, c), who + if Draws(s, c) then [c.t] else [])
  {
    NextKeepsInv(s, c);
    if c.t < |s.pc| {
      var p := s.pc[c.t];
      if p.Swap? {
        SwapKeepsNodes(node, s, who, c);
      } else {
        assert who + [] == who;
        if p.SetSocket? {
          SetSocketKeepsNodes(node, s, who, c);
        } else if p.ResetSpin? {
          ResetKeepsNodes(node, s, who, c);
        } else {
          StepKeepsSockets(s, c);
          SameSocketsKeepNodes(node, s, Next(s, c), who, c.t);
        }
      }
    } else {
      assert who + [] == who;
    }
  }

  lemma StepKeepsSockets(s: State, c: Choice)
    requires Inv(s) && c.t < |s.pc| && !s.pc[c.t].Swap? && !s.pc[c.t].SetSocket? && !s.pc[c.t].ResetSpin?
    ensures SameSockets(s, Next(s, c), c.t)
  {
    hide Arrive, Leave, Traverse, Splice, HandOver;
    if Entering(s.pc[c.t]) { ArriveKeepsSockets(s, c); }
    else if Leaving(s.pc[c.t]) { LeaveKeepsSockets(s, c); }
    else if Traversing(s.pc[c.t]) { TraverseKeepsSockets(s, c); }
    else if Splicing(s.pc[c.t]) { SpliceKeepsSockets(s, c.t); }
    else {
      NextKeepsInv(s, c);
      HandOverKeepsSockets(s, c.t);
    }
  }

  /** A running `find_successor` looks for the holder's node. */
  ghost predicate SeeksNode(node: nat -> nat, s: State) {
    Searching(s) ==> Sought(s) == node(s.holder)
  }

  lemma LeaveSeeksNot(s: State, c: Choice)
    requires Shape(s) && c.t < |s.pc| && c.t == s.holder && (Entering(s.pc[c.t]) || Leaving(s.pc[c.t]))
    requires !s.pc[c.t].Swap?
    ensures !Searching(Next(s, c))
  {
  }

  lemma GrantSeeksNot(s: State, t: nat)
    requires Shape(s) && t < |s.pc| && t == s.holder
    requires s.pc[t].GrantSec? || s.pc[t].GrantJoined? || s.pc[t].GrantFirst? || s.pc[t].Pass?
    requires forall u | 0 <= u < |s.pc| && u != t :: Entering(s.pc[u])
    ensures !Searching(HandOver(s, t))
  {
  }

  lemma JoinSeeksNot(s: State, t: nat)
    requires Shape(s) && t < |s.pc| && t == s.holder
    requires s.pc[t].CheckSec? || s.pc[t].LoadHead? || s.pc[t].LoadTail? || s.pc[t].Join? || s.pc[t].LoadFirst?
    ensures !Searching(HandOver(s, t))
  {
  }

  lemma HandOverSeeksNot(s: State, c: Choice)
    requires Shape(s) && c.t < |s.pc| && c.t == s.holder && Holds(s.pc[c.t]) && !Leaving(s.pc[c.t])
    requires !s.pc[c.t].First? && !Searching(s)
    requires forall u | 0 <= u < |s.pc| && u != s.holder :: Entering(s.pc[u])
    ensures !Searching(Next(s, c))
  {
    hide HandOver;
    var p := s.pc[c.t];
    if p.GrantSec? || p.GrantJoined? || p.GrantFirst? { GrantSeeksNot(s, c.t); } else { JoinSeeksNot(s, c.t); }
  }

  lemma SearchBegins(s: State, c: Choice)
    requires Inv(s) && Searching(Next(s, c)) && !Searching(s)
    ensures c.t < |s.pc| && c.t == s.holder && s.pc[c.t].First?
  {
    if c.t < |s.pc| {
      assert Placed(s, c.t);
      forall u: nat | u < |s.pc| && u != s.holder ensures Entering(s.pc[u]) { assert Placed(s, u); }
      if s.holder == NULL {
        FreeSeeksNot(s, c);
      } else if c.t != s.holder {
        OthersSeenStep(s, c);
      } else if Entering(s.pc[c.t]) || Leaving(s.pc[c.t]) {
        LeaveSeeksNot(s, c);
      } else if !s.pc[c.t].First? {
        HandOverSeeksNot(s, c);
      }
    }
  }

  lemma FreeSeeksNot(s: State, c: Choice)
    requires Shape(s) && s.holder == NULL && c.t < |s.pc| && Entering(s.pc[c.t])
    ensures !Searching(Next(s, c))
  {
  }

  lemma OnlyPassEnds(s: State, c: Choice)
    requires Shape(s) && c.t < |s.pc| && c.t == s.holder && Searching(s) && Next(s, c).holder != s.holder
    ensures s.pc[c.t].Pass?
  {
  }

  /** After a handover nobody searches yet. */
  lemma NewHolderSeeksNot(s: State, c: Choice)
    requires Inv(s) && Searching(s) && Next(s, c).holder != s.holder
    ensures !Searching(Next(s, c))
  {
    if c.t < |s.pc| {
      if c.t != s.holder {
        OthersSeenStep(s, c);
      } else {
        OnlyPassEnds(s, c);
        forall u: nat | u < |s.pc| && u != c.t ensures Entering(s.pc[u]) { assert Placed(s, u); }
        GrantSeeksNot(s, c.t);
      }
    }
  }

  lemma NextSeeksNode(node: nat -> nat, s: State, who: seq<nat>, c: Choice)
    requires Inv(s) && NodesRecorded(node, s, who) && SeeksNode(node, s) && c.socket == node(c.t)
    ensures SeeksNode(node, Next(s, c))
  {
    hide Inv, Next, Sought;
    if Searching(Next(s, c)) {
      if !Searching(s) {
        SearchBegins(s, c);
        SearchStarts(s, c);
        assert ThreadAt(node, s, who, c.t);
      } else if Next(s, c).holder == s.holder {
        SoughtStays(s, c);
      } else {
        NewHolderSeeksNot(s, c);
      }
    }
  }

  /**
   * Service number `k`, if it was of a thread that found the lock free and so recorded no socket, came after all with
   * smaller tickets and before all with larger ones.
   */
  ghost predicate InTurn(s: State, k: nat)
    requires Members(s) && |s.ticket| == |s.pc|
  {
    k < |s.served| && s.served[k] < |s.sockets| &&
    (s.sockets[s.served[k]] == -1 ==>
       && (forall j | 0 <= j < k :: s.served[j] < s.served[k])
       && (forall j | k < j < |s.served| :: s.served[k] < s.served[j])
       && (forall i | 0 <= i < |s.order| :: s.served[k] < s.ticket[s.order[i]]))
  }

  ghost predicate FreeInTurn(s: State) {
    && Members(s) && |s.ticket| == |s.pc|
    && forall k {:trigger InTurn(s, k)} :: 0 <= k < |s.served| ==> InTurn(s, k)
  }

  /** Nobody is served, and whoever queues does so with a new ticket. */
  ghost predicate NoService(s: State, r: State)
    requires Members(s) && |s.ticket| == |s.pc|
  {
    && Members(r) && |r.ticket| == |r.pc| && r.served == s.served && |s.pc| == |r.pc|
    && |s.sockets| <= |r.sockets|
    && (forall x | 0 <= x < |s.sockets| && r.sockets[x] == -1 :: s.sockets[x] == -1)
    && s.order <= r.order
    && (forall i | 0 <= i < |s.order| :: r.ticket[s.order[i]] == s.ticket[s.order[i]])
    && (forall i | |s.order| <= i < |r.order| :: r.ticket[r.order[i]] >= |s.sockets|)
  }

  lemma NoServiceInTurn(s: State, r: State)
    requires FreeInTurn(s) && NoService(s, r)
    ensures FreeInTurn(r)
  {
    forall k: nat | k < |r.served| ensures InTurn(r, k) { assert InTurn(s, k); }
  }

  lemma ServiceInTurn(s: State, r: State, word: Word)
    requires Inv(s) && FreeInTurn(s) && Served(s, r, word)
    ensures FreeInTurn(r)
  {
    Around(s, s.split);
    forall i | 0 <= i < |r.order| ensures r.order[i] < |r.pc| && r.order[i] != r.holder {
      Distinct(s, if i < s.split then i else i + 1, s.split);
    }
    forall k: nat | k < |r.served| ensures InTurn(r, k) {
      if k < |s.served| { assert InTurn(s, k); }
    }
  }

  lemma FreeServiceInTurn(s: State, c: Choice)
    requires Inv(s) && FreeInTurn(s) && c.t < |s.pc| && s.pc[c.t].Swap? && s.holder == NULL
    ensures FreeInTurn(Arrive(s, c))
  {
    var r := Arrive(s, c);
    forall k: nat | k < |r.served| ensures InTurn(r, k) { if k < |s.served| { assert InTurn(s, k); } }
  }

  lemma JoinedServesNot(s: State, r: State, t: nat)
    requires Shape(s) && Members(s) && t < |s.pc| && t !in s.order && Joined(s, r, t)
    ensures NoService(s, r)
  {
  }

  lemma OutsideServesNot(s: State, r: State, t: nat)
    requires Shape(s) && Members(s) && t < |s.pc| && Outside(s, r, t)
    ensures NoService(s, r)
  {
  }

  lemma SteppedServesNot(s: State, r: State, t: nat)
    requires Shape(s) && Members(s) && t < |s.pc| && Stepped(s, r, t)
    ensures NoService(s, r)
  {
  }

  lemma SameQueuesServesNot(s: State, r: State)
    requires Shape(s) && Members(s) && SameQueues(s, r)
    ensures NoService(s, r)
  {
  }

  lemma ArriveServesNot(s: State, c: Choice)
    requires Inv(s) && c.t < |s.pc| && Entering(s.pc[c.t]) && !(s.pc[c.t].Swap? && s.holder == NULL)
    ensures NoService(s, Arrive(s, c))
  {
    assert Placed(s, c.t);
    var r := Arrive(s, c);
    if s.pc[c.t].Swap? {
      SwapStep(s, c);
      NotWaiting(s, c.t);
      JoinedServesNot(s, r, c.t);
    } else if !Arriving(s.pc[c.t]) {
      ResetSteps(s, c);
      OutsideServesNot(s, r, c.t);
    } else if c.t == s.holder {
      EnterHolder(s, c);
      SameQueuesServesNot(s, r);
    } else {
      WaiterServesNot(s, c);
    }
  }

  lemma WaiterServesNot(s: State, c: Choice)
    requires Inv(s) && c.t < |s.pc| && Arriving(s.pc[c.t]) && c.t != s.holder
    ensures NoService(s, Arrive(s, c))
  {
    assert Placed(s, c.t);
    var i :| 0 <= i < |s.order| && s.order[i] == c.t;
    Around(s, i);
    if Unlinked(s.pc[c.t]) {
      var i0 := Position(s, c.t);
      WaiterSteps(s, c, i0);
      SteppedServesNot(s, Arrive(s, c), c.t);
    }
  }

  lemma LeaveServesNot(s: State, c: Choice)
    requires Shape(s) && Members(s) && c.t < |s.pc| && c.t == s.holder && Leaving(s.pc[c.t])
    ensures NoService(s, Leave(s, c))
  {
  }

  lemma WalkServesNot(s: State, c: Choice)
    requires Shape(s) && Members(s) && c.t < |s.pc| && c.t == s.holder && Traversing(s.pc[c.t])
    ensures NoService(s, Traverse(s, c))
  {
  }

  lemma SpliceServesNot(s: State, t: nat)
    requires Shape(s) && Members(s) && t < |s.pc| && t == s.holder && Splicing(s.pc[t])
    ensures NoService(s, Splice(s, t))
  {
  }

  predicate Granting(p: PC) {
    p.GrantSec? || p.GrantJoined? || p.GrantFirst? || p.Pass?
  }

  lemma LoadServesNot(s: State, t: nat)
    requires Shape(s) && Members(s) && t < |s.pc| && t == s.holder && Holds(s.pc[t]) && !Leaving(s.pc[t])
    requires !Granting(s.pc[t])
    ensures NoService(s, HandOver(s, t))
  {
  }

  /** A step serves nobody, or the first waiter of the main queue, or a thread that finds the lock free. */
  lemma NextInTurn(s: State, c: Choice)
    requires Inv(s) && FreeInTurn(s)
    ensures FreeInTurn(Next(s, c))
  {
    hide Arrive, Leave, Traverse, Splice, HandOver, FreeInTurn;
    if c.t < |s.pc| {
      var p := s.pc[c.t];
      if Entering(p) {
        if p.Swap? && s.holder == NULL {
          FreeServiceInTurn(s, c);
        } else {
          ArriveServesNot(s, c);
          NoServiceInTurn(s, Next(s, c));
        }
      } else {
        OnlyHolderReleases(s, c.t);
        if Granting(p) {
          GrantServes(s, c.t);
          ServiceInTurn(s, Next(s, c), if p.Pass? then p.word else One);
        } else {
          if Leaving(p) { LeaveServesNot(s, c); }
          else if Traversing(p) { WalkServesNot(s, c); }
          else if Splicing(p) { SpliceServesNot(s, c.t); }
          else { LoadServesNot(s, c.t); }
          NoServiceInTurn(s, Next(s, c));
        }
      }
    }
  }

  /** What holds after every run of threads that stay on their nodes. */
  ghost predicate NodeInv(node: nat -> nat, s: State, who: seq<nat>) {
    Inv(s) && NodesRecorded(node, s, who) && SeeksNode(node, s) && FreeInTurn(s)
  }

  lemma {:induction false} RunKeepsNodes(node: nat -> nat, n: nat, sched: seq<Choice>)
    requires OnNodes(node, sched)
    ensures NodeInv(node, After(n, sched), Drawers(n, sched)) && |After(n, sched).pc| == n
  {
    hide Inv, Next, NodesRecorded, SeeksNode, FreeInTurn;
    RunKeepsInv(n, sched);
    if sched == [] {
      NodesAtFirst(node, n);
    } else {
      var before, c := sched[..|sched| - 1], sched[|sched| - 1];
      assert forall i | 0 <= i < |before| :: before[i] == sched[i];
      RunKeepsNodes(node, n, before);
      NextKeepsNodes(node, After(n, before), Drawers(n, before), c);
      NextSeeksNode(node, After(n, before), Drawers(n, before), c);
      NextInTurn(After(n, before), c);
    }
  }

  lemma NodesAtFirst(node: nat -> nat, n: nat)
    ensures NodesRecorded(node, Init(n), []) && SeeksNode(node, Init(n)) && FreeInTurn(Init(n))
  {
  }
}
