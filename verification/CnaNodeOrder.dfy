/** The order of service of the NUMA-aware lock, in terms of the nodes that the threads run on. */
module CnaNodeOrder {
  import opened Runs
  import opened CnaModel
  import opened CnaSteps
  import opened CnaRuns
  import opened CnaSearch
  import opened CnaLocal
  import opened CnaNodes

  /** What is recorded is the truth: a waiter's socket is its node, and a ticket's that of the thread that drew it. */
  lemma SocketsAreNodes(node: nat -> nat, n: nat, sched: seq<Choice>)
    requires OnNodes(node, sched)
    ensures var s, who := After(n, sched), Drawers(n, sched);
      && Shape(s) && |s.pc| == n && |who| == |s.sockets|
      && (forall t: nat | t < n && (s.pc[t].Link? || s.pc[t].Wait?) :: s.socket[t] == node(t))
      && (forall x: nat | x < |who| && s.sockets[x] != -1 :: s.sockets[x] == node(who[x]))
      && (forall t: nat | t < n && (Arriving(s.pc[t]) || Holds(s.pc[t])) ::
            s.ticket[t] < |who| && who[s.ticket[t]] == t)
  {
    RunKeepsNodes(node, n, sched);
    var s, who := After(n, sched), Drawers(n, sched);
    forall t: nat | t < n
      ensures s.pc[t].Link? || s.pc[t].Wait? ==> s.socket[t] == node(t)
      ensures Arriving(s.pc[t]) || Holds(s.pc[t]) ==> s.ticket[t] < |who| && who[s.ticket[t]] == t
    {
      assert ThreadAt(node, s, who, t);
    }
    forall x: nat | x < |who| && s.sockets[x] != -1 ensures s.sockets[x] == node(who[x]) {
      assert TicketAt(node, s, who, x);
    }
  }

  lemma ServedInNodeOrder(node: nat -> nat, s: State, who: seq<nat>, i: nat, j: nat)
    requires NodeInv(node, s, who) && i < j < |s.served|
    ensures s.served[i] < |who| && s.served[j] < |who|
    ensures node(who[s.served[i]]) == node(who[s.served[j]]) ==> s.served[i] < s.served[j]
  {
    assert InTurn(s, i) && InTurn(s, j);
    assert TicketAt(node, s, who, s.served[i]) && TicketAt(node, s, who, s.served[j]);
  }

  lemma WaiterInNodeOrder(node: nat -> nat, s: State, who: seq<nat>, i: nat, k: nat)
    requires NodeInv(node, s, who) && i < |s.order| && k < |s.served|
    ensures s.served[k] < |who| && s.order[i] < |s.ticket|
    ensures node(who[s.served[k]]) == node(s.order[i]) ==> s.served[k] < s.ticket[s.order[i]]
  {
    assert InTurn(s, k) && TicketAt(node, s, who, s.served[k]);
    assert NotOvertaken(s, i, s.served[k]) && ThreadAt(node, s, who, s.order[i]);
  }

  /**
   * No thread is ever overtaken by a later arrival from its own node, recorded or not: over any run the threads of
   * one node enter in the order of their exchanges on `tail`, and who of them still waits queued after all of those.
   */
  lemma NoOvertakingOnNode(node: nat -> nat, n: nat, sched: seq<Choice>)
    requires OnNodes(node, sched)
    ensures var s, es, who := After(n, sched), Entries(n, sched), Drawers(n, sched);
      && Members(s) && |s.ticket| == |s.pc| && (forall k | 0 <= k < |es| :: es[k] < |who|)
      && (forall i, j | 0 <= i < j < |es| && node(who[es[i]]) == node(who[es[j]]) :: es[i] < es[j])
      && (forall i, k | 0 <= i < |s.order| && 0 <= k < |es| && node(who[es[k]]) == node(s.order[i]) ::
            es[k] < s.ticket[s.order[i]])
  {
    RunKeepsNodes(node, n, sched);
    EntriesAreGrants(n, sched);
    var s, es, who := After(n, sched), Entries(n, sched), Drawers(n, sched);
    EntriesInNodeOrder(node, s, es, who);
  }

  lemma EntriesInNodeOrder(node: nat -> nat, s: State, es: seq<nat>, who: seq<nat>)
    requires NodeInv(node, s, who) && EntriesMatch(s, es)
    ensures forall k | 0 <= k < |es| :: es[k] < |who|
    ensures forall i, j | 0 <= i < j < |es| && node(who[es[i]]) == node(who[es[j]]) :: es[i] < es[j]
    ensures forall i, k | 0 <= i < |s.order| && 0 <= k < |es| && node(who[es[k]]) == node(s.order[i]) ::
              es[k] < s.ticket[s.order[i]]
  {
    hide Inv, NodesRecorded, SeeksNode;
    HasDrawer(node, s, who);
    forall k: nat | k < |es| ensures es[k] < |who| { assert es[k] == s.served[k] && InTurn(s, k); }
    forall i: nat, j: nat | i < j < |es| && node(who[es[i]]) == node(who[es[j]]) ensures es[i] < es[j] {
      ServedInNodeOrder(node, s, who, i, j);
    }
    forall i: nat, k: nat | i < |s.order| && k < |es| && node(who[es[k]]) == node(s.order[i])
      ensures es[k] < s.ticket[s.order[i]]
    {
      WaiterInNodeOrder(node, s, who, i, k);
    }
  }

  lemma HasDrawer(node: nat -> nat, s: State, who: seq<nat>)
    requires NodesRecorded(node, s, who)
    ensures |who| == |s.sockets|
  {
  }

  /** No thread of the holder's node is ever in the secondary queue. */
  lemma SecondaryOffNode(node: nat -> nat, n: nat, sched: seq<Choice>)
    requires OnNodes(node, sched)
    ensures var s := After(n, sched);
      s.holder != NULL ==>
        && 0 <= s.holder < n && s.split <= |s.order|
        && forall i | 0 <= i < s.split :: node(s.order[i]) != node(s.holder)
  {
    RunKeepsNodes(node, n, sched);
    var s, who := After(n, sched), Drawers(n, sched);
    if s.holder != NULL {
      forall i: nat | i < s.split ensures node(s.order[i]) != node(s.holder) { SecondaryRemote(node, s, who, i); }
    }
  }

  lemma SecondaryRemote(node: nat -> nat, s: State, who: seq<nat>, i: nat)
    requires NodeInv(node, s, who) && s.holder != NULL && i < s.split
    ensures s.order[i] < |s.pc| && 0 <= s.holder < |s.pc| && node(s.order[i]) != node(s.holder)
  {
    assert Waiting(s, i) && ThreadAt(node, s, who, s.order[i]) && ThreadAt(node, s, who, s.holder);
  }

  /** Thread `w` has waited longest of those that wait on node `m`. */
  ghost predicate OldestOnNode(node: nat -> nat, s: State, w: int, m: int) {
    exists k :: 0 <= k < |s.order| && w == s.order[k] && node(s.order[k]) == m
        && forall i | 0 <= i < k :: node(s.order[i]) != m
  }

  lemma ServedIsOldest(node: nat -> nat, s: State, who: seq<nat>, r: State, word: Word)
    requires NodeInv(node, s, who) && Served(s, r, word)
    requires s.split > 0 ==> s.pc[s.holder].Pass?
    ensures r.holder == s.order[s.split] && OldestOnNode(node, s, r.holder, node(s.order[s.split]))
    ensures s.split > 0 ==> node(s.order[s.split]) == node(s.holder)
  {
    var w := s.order[s.split];
    assert ThreadAt(node, s, who, w);
    forall i | 0 <= i < s.split ensures node(s.order[i]) != node(w) {
      assert Waiting(s, i) && ThreadAt(node, s, who, s.order[i]);
    }
    if s.split > 0 { assert Searching(s) && Sought(s) == s.socket[w]; }
  }

  lemma HandoverServes(s: State, c: Choice)
    requires Inv(s) && s.holder != NULL && Next(s, c).holder != s.holder && Next(s, c).holder != NULL
    ensures c.t < |s.pc| && c.t == s.holder && Granting(s.pc[c.t])
    ensures Served(s, Next(s, c), if s.pc[c.t].Pass? then s.pc[c.t].word else One)
    ensures s.split > 0 ==> s.pc[c.t].Pass?
  {
    if c.t < |s.pc| {
      assert Placed(s, c.t);
      if c.t != s.holder { OthersSeenStep(s, c); } else { OnlyGrantsEnd(s, c); GrantServes(s, c.t); }
    }
  }

  lemma OnlyGrantsEnd(s: State, c: Choice)
    requires Shape(s) && Members(s) && c.t < |s.pc| && c.t == s.holder && HolderLinks(s) && HolderLocals(s)
    requires Next(s, c).holder != s.holder && Next(s, c).holder != NULL && !s.pc[c.t].Swap?
    ensures Granting(s.pc[c.t]) && (s.split > 0 ==> s.pc[c.t].Pass?)
  {
  }

  /** Whenever the lock changes hands, it goes to the oldest waiter of all, or to the oldest on the holder's node. */
  lemma OldestServedByNode(node: nat -> nat, n: nat, sched: seq<Choice>, c: Choice)
    requires OnNodes(node, sched)
    requires var s := After(n, sched);
             s.holder != NULL && Next(s, c).holder != s.holder && Next(s, c).holder != NULL
    ensures var s, w := After(n, sched), Next(After(n, sched), c).holder;
      && 0 <= s.holder < n && 0 <= w < n && s.order != []
      && OldestOnNode(node, s, w, node(w)) && (w == s.order[0] || node(w) == node(s.holder))
  {
    RunKeepsNodes(node, n, sched);
    var s := After(n, sched);
    HandoverServes(s, c);
    ServedIsOldest(node, s, Drawers(n, sched), Next(s, c), if s.pc[c.t].Pass? then s.pc[c.t].word else One);
    assert Waiting(s, s.split);
  }

  /** The waiter at position `k` of the main queue is on node `m`, and it and all before it there are linked. */
  ghost predicate LinkedOnNode(node: nat -> nat, s: State, m: int, k: nat) {
    s.split <= k < |s.order| && node(s.order[k]) == m &&
    forall i | s.split <= i <= k :: s.order[i] < |s.pc| && s.pc[s.order[i]].Wait?
  }

  lemma HeadingOnNode(node: nat -> nat, s: State, who: seq<nat>, k: nat)
    requires NodeInv(node, s, who) && 0 <= s.holder < |s.pc| && LinkedOnNode(node, s, node(s.holder), k)
    requires var p := s.pc[s.holder]; p.Critical? || p.LoadNext? || p.Decide? || p.First?
    ensures Heading(s, node(s.holder), k)
  {
    assert ThreadAt(node, s, who, s.holder) && ThreadAt(node, s, who, s.order[k]);
  }

  lemma {:induction false} ExecAll(s: State, a: seq<Choice>, b: seq<Choice>)
    ensures Exec(Next, s, a + b) == Exec(Next, Exec(Next, s, a), b)
  {
    if b == [] {
      assert a + b == a;
    } else {
      ExecAll(s, a, b[..|b| - 1]);
      assert (a + b)[..|a + b| - 1] == a + b[..|b| - 1];
    }
  }

  lemma OnNodesParts(node: nat -> nat, sched: seq<Choice>, more: seq<Choice>, last: Choice, h: nat)
    requires OnNodes(node, sched + more + [last]) && (last.t == h ==> last.keep)
    requires forall i | 0 <= i < |more| && more[i].t == h :: more[i].keep
    ensures OnNodes(node, sched) && OnNodes(node, sched + more) && KeepsOn(h, node(h), more + [last])
  {
    var all := sched + more + [last];
    assert forall i | 0 <= i < |sched| :: all[i] == sched[i];
    assert forall i | 0 <= i < |sched + more| :: all[i] == (sched + more)[i];
    assert forall i | 0 <= i < |more + [last]| :: all[|sched| + i] == (more + [last])[i];
  }

  /**
   * The point of the lock: if a waiter on the holder's node is linked in the main queue, with all before it there, and
   * the holder in its critical section or just leaving it, then, unless `keep_lock_local` lets the lock go, the next
   * to get the lock is the oldest waiter on that node, whatever all threads do in between.
   */
  lemma LocalServedByNode(node: nat -> nat, n: nat, sched: seq<Choice>, k: nat, more: seq<Choice>, last: Choice)
    requires OnNodes(node, sched + more + [last])
    requires var s := After(n, sched);
      && 0 <= s.holder < |s.pc| && LinkedOnNode(node, s, node(s.holder), k) && Stays(s, more)
      && (var p := s.pc[s.holder]; p.Critical? || p.LoadNext? || p.Decide? || p.First?)
      && (forall i | 0 <= i < |more| && more[i].t == s.holder :: more[i].keep)
      && (last.t == s.holder ==> last.keep)
      && Next(Exec(Next, s, more), last).holder != s.holder
    ensures var s, r := After(n, sched), After(n, sched + more);
      r == Exec(Next, s, more) && OldestOnNode(node, r, Next(r, last).holder, node(s.holder))
  {
    hide Next, Inv, Sought, NodesRecorded, SeeksNode, FreeInTurn, Heading, OldestOn;
    var s, r := After(n, sched), After(n, sched + more);
    OnNodesParts(node, sched, more, last, s.holder);
    RunKeepsNodes(node, n, sched);
    RunKeepsNodes(node, n, sched + more);
    ExecAll(Init(n), sched, more);
    HeadingOnNode(node, s, Drawers(n, sched), k);
    KeptLocalServed(s, node(s.holder), k, more, last);
    LocalIsOldest(node, r, Drawers(n, sched + more), last, node(s.holder));
  }

  lemma LocalIsOldest(node: nat -> nat, s: State, who: seq<nat>, c: Choice, m: int)
    requires NodeInv(node, s, who) && Searching(s) && Sought(s) == m && Next(s, c).holder != s.holder
    requires OldestOn(s, Next(s, c).holder, m)
    ensures OldestOnNode(node, s, Next(s, c).holder, m)
  {
    HandoverServes(s, c);
    assert s.pc[c.t].Pass?;
    ServedIsOldest(node, s, who, Next(s, c), s.pc[c.t].word);
    assert ThreadAt(node, s, who, s.order[s.split]);
  }
}
