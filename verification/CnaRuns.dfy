/** What holds over whole runs of the NUMA-aware lock: mutual exclusion and the order of service. */
module CnaRuns {
  import opened Runs
  import opened CnaModel
  import opened CnaSteps

  /** The states of all runs of `n` threads. */
  ghost function After(n: nat, sched: seq<Choice>): State {
    Exec(Next, Init(n), sched)
  }

  lemma RunKeepsInv(n: nat, sched: seq<Choice>)
    ensures Inv(After(n, sched)) && |After(n, sched).pc| == n
  {
    var inv := (s: State) => Inv(s) && |s.pc| == n;
    forall s, c: Choice | inv(s) ensures inv(Next(s, c)) { NextKeepsInv(s, c); SameThreads(s, c); }
    InvariantHolds(Next, inv, Init(n), sched);
  }

  lemma SameThreads(s: State, c: Choice)
    ensures |Next(s, c).pc| == |s.pc|
  {
  }

  /** In every reachable state at most one thread is in the critical section or releasing it. */
  lemma MutualExclusion(n: nat, sched: seq<Choice>, t: nat, u: nat)
    requires |After(n, sched).pc| == n && t < n && u < n
    requires Holds(After(n, sched).pc[t]) && Holds(After(n, sched).pc[u])
    ensures t == u
  {
    RunKeepsInv(n, sched);
    OnlyHolderReleases(After(n, sched), t);
    OnlyHolderReleases(After(n, sched), u);
  }

  lemma OrderIsWaiters(s: State)
    requires Inv(s)
    ensures forall t: nat | t < |s.pc| :: t in s.order <==> Arriving(s.pc[t]) && t != s.holder
    ensures forall i, j | 0 <= i < j < |s.order| :: s.order[i] != s.order[j]
  {
    forall t: nat | t < |s.pc| ensures t in s.order <==> Arriving(s.pc[t]) && t != s.holder {
      assert Placed(s, t);
      if !Arriving(s.pc[t]) || t == s.holder { NotWaiting(s, t); }
    }
    forall i: nat, j: nat | i < j < |s.order| ensures s.order[i] != s.order[j] { Distinct(s, i, j); }
  }

  /** The holder's `spin` and the nodes record the first `split` waiters as a linked secondary queue. */
  ghost predicate SecRecorded(s: State)
    requires Shape(s) && Members(s) && 0 <= s.holder < |s.pc|
  {
    && s.spin[s.holder] == (if s.split > 0 then Sec(s.order[0]) else One)
    && (s.split > 0 ==> s.secTail[s.order[0]] == s.order[s.split - 1] && s.next[s.order[s.split - 1]] == NULL)
    && forall i | 0 <= i < s.split - 1 :: s.next[s.order[i]] == s.order[i + 1]
  }

  /** The holder is not just changing the record of the secondary queue, nor past its last use of it. */
  predicate Steady(p: PC) {
    !p.Test? && !p.Cut? && !p.SetTail? && !p.GrantSec? && !p.GrantJoined?
  }

  /**
   * The main queue is linked from the holder, as long as that has not taken its successor out, to the last
   * thread, which is at `tail`; a link may still be missing whose thread is about to write it.
   */
  ghost predicate MainRecorded(s: State)
    requires Shape(s) && Members(s) && 0 <= s.holder < |s.pc|
  {
    && (forall i | s.split <= i < |s.order| - 1 :: Linked(s, s.order[i], s.order[i + 1]))
    && (s.split < |s.order| ==>
          var last := s.order[|s.order| - 1];
          s.tail == last && s.next[last] == NULL)
    && (Attached(s.pc[s.holder]) ==>
          if s.split < |s.order| then Linked(s, s.holder, s.order[s.split])
          else s.tail == s.holder && s.next[s.holder] == NULL)
  }

  lemma HolderRecords(s: State)
    requires Inv(s) && s.holder != NULL
    ensures MainRecorded(s) && (Steady(s.pc[s.holder]) ==> SecRecorded(s))
  {
    forall i: nat | s.split <= i < |s.order| - 1 ensures Linked(s, s.order[i], s.order[i + 1]) { Around(s, i); }
    forall i: nat | i < s.split - 1 ensures s.next[s.order[i]] == s.order[i + 1] { Around(s, i); }
  }

  /**
   * Splitting and splicing lose nobody: the two queues hold exactly the threads that queued and do not
   * hold the lock, each once. The main queue is linked up to `tail`; the holder's `spin` names the secondary
   * queue's head, whose `secTail` names its last node, and all its links are in place, but for the few steps
   * that change them.
   */
  lemma QueuesHoldWaiters(n: nat, sched: seq<Choice>)
    ensures var s := After(n, sched);
      && |s.pc| == n && Shape(s) && Members(s)
      && (forall t: nat | t < n :: t in s.order <==> Arriving(s.pc[t]) && t != s.holder)
      && (forall i, j | 0 <= i < j < |s.order| :: s.order[i] != s.order[j])
      && (s.holder == NULL ==> s.order == [] && s.tail == NULL)
      && (s.holder != NULL ==> 0 <= s.holder < n && MainRecorded(s) && (Steady(s.pc[s.holder]) ==> SecRecorded(s)))
  {
    RunKeepsInv(n, sched);
    var s := After(n, sched);
    OrderIsWaiters(s);
    if s.holder != NULL { HolderRecords(s); }
  }

  /**
   * In every reachable state the secondary queue followed by the main queue is sorted by the order of the
   * exchanges on `tail`, and no thread of the holder's socket, or of the socket the lock is about to stay on,
   * is in the secondary queue.
   */
  lemma QueuesAreOrdered(n: nat, sched: seq<Choice>)
    ensures var s := After(n, sched);
      && Shape(s) && Members(s)
      && (forall i, j | 0 <= i < j < |s.order| :: s.ticket[s.order[i]] < s.ticket[s.order[j]])
      && (s.holder != NULL ==> 0 <= s.holder < |s.pc| && SecRemote(s))
  {
    RunKeepsInv(n, sched);
    var s := After(n, sched);
    forall i, j | 0 <= i < j < |s.order| ensures s.ticket[s.order[i]] < s.ticket[s.order[j]] { assert Before(s, i, j); }
  }

  /** The waiting thread `w` has waited longest of all, or longest of those on its socket, the holder's. */
  ghost predicate Oldest(s: State, w: int)
    requires Shape(s) && Members(s) && 0 <= s.holder < |s.pc|
  {
    exists k | 0 <= k < |s.order| ::
      && w == s.order[k]
      && (k > 0 ==> s.socket[s.holder] != -1 ==> s.socket[w] == s.socket[s.holder])
      && forall i | 0 <= i < k :: s.socket[s.order[i]] != s.socket[w] && s.pc[s.order[i]].Wait?
  }

  /** Whenever the lock changes hands, it goes to the oldest waiter or to the oldest of the holder's socket. */
  lemma OldestServed(s: State, c: Choice)
    requires Inv(s) && c.t < |s.pc| && s.holder != NULL && Next(s, c).holder != s.holder && Next(s, c).holder != NULL
    ensures Oldest(s, Next(s, c).holder)
  {
    assert Placed(s, c.t);
    var p := s.pc[c.t];
    if Entering(p) {
      assert Next(s, c) == Arrive(s, c);
      if p.Swap? { SwapStep(s, c); }
      assert false;
    } else {
      OnlyHolderReleases(s, c.t);
      assert s.split < |s.order| && Next(s, c).holder == s.order[s.split];
      forall i: nat | i < s.split ensures s.pc[s.order[i]].Wait? { assert Waiting(s, i); }
    }
  }

  /**
   * What the step means to an observer: a thread queues at the exchange and enters on reaching the critical
   * section.
   */
  predicate Enters(s: State, c: Choice) {
    c.t < |s.pc| && !s.pc[c.t].Critical? && |Next(s, c).pc| == |s.pc| && Next(s, c).pc[c.t].Critical?
  }

  /** The tickets of the threads that entered the critical section during the run, in order of entry. */
  ghost function Entries(n: nat, sched: seq<Choice>): seq<nat> {
    if sched == [] then []
    else
      var before, c := sched[..|sched| - 1], sched[|sched| - 1];
      var s := After(n, before);
      Entries(n, before) + if Enters(s, c) && |s.ticket| == |s.pc| then [s.ticket[c.t]] else []
  }

  /** The holder has been granted the lock but has not noticed yet. */
  predicate Unnoticed(s: State) {
    0 <= s.holder < |s.pc| && Arriving(s.pc[s.holder])
  }

  /** A step either lets the holder enter, or grants the lock anew, or leaves the log of grants alone. */
  ghost predicate Logs(s: State, c: Choice, r: State) {
    if Enters(s, c) then Unnoticed(s) && !Unnoticed(r) && c.t == s.holder && r.served == s.served
    else if r.served == s.served then Unnoticed(r) == Unnoticed(s)
    else s.served < r.served && |r.served| == |s.served| + 1 && !Unnoticed(s) && Unnoticed(r)
  }

  lemma ArriveLogs(s: State, c: Choice)
    requires Inv(s) && c.t < |s.pc| && Entering(s.pc[c.t])
    ensures Logs(s, c, Next(s, c))
  {
    assert Placed(s, c.t);
    if s.pc[c.t].Swap? && s.holder != NULL { SwapStep(s, c); }
    if Arriving(s.pc[c.t]) && c.t != s.holder {
      var i :| 0 <= i < |s.order| && s.order[i] == c.t;
      assert Waiting(s, i);
    }
  }

  lemma LeaveLogs(s: State, c: Choice)
    requires Shape(s) && c.t < |s.pc| && c.t == s.holder && Leaving(s.pc[c.t])
    ensures Leave(s, c).served == s.served && !Unnoticed(Leave(s, c))
  {
  }

  lemma TraverseLogs(s: State, c: Choice)
    requires Shape(s) && c.t < |s.pc| && c.t == s.holder && Traversing(s.pc[c.t])
    ensures Traverse(s, c).served == s.served && !Unnoticed(Traverse(s, c))
  {
  }

  lemma SpliceLogs(s: State, t: nat)
    requires Shape(s) && t < |s.pc| && t == s.holder && Splicing(s.pc[t])
    ensures Splice(s, t).served == s.served && !Unnoticed(Splice(s, t))
  {
  }

  lemma GrantLogs(s: State, t: nat)
    requires Inv(s) && t < |s.pc| && t == s.holder && Holds(s.pc[t])
    ensures var r := HandOver(s, t);
      if r.served == s.served then !Unnoticed(r) || r == s
      else s.served < r.served && |r.served| == |s.served| + 1 && Unnoticed(r)
  {
    forall i: nat | i < |s.order| ensures s.order[i] < |s.pc| && Arriving(s.pc[s.order[i]]) { assert Waiting(s, i); }
    HandOverLogs(s, t);
  }

  lemma HandOverLogs(s: State, t: nat)
    requires Shape(s) && Members(s) && t < |s.pc| && t == s.holder && Holds(s.pc[t])
    requires HolderLinks(s) && HolderLocals(s)
    requires forall i | 0 <= i < |s.order| :: s.order[i] < |s.pc| && Arriving(s.pc[s.order[i]])
    ensures var r := HandOver(s, t);
      if r.served == s.served then !Unnoticed(r) || r == s
      else s.served < r.served && |r.served| == |s.served| + 1 && Unnoticed(r)
  {
  }

  lemma ReleaseLogs(s: State, c: Choice)
    requires Inv(s) && c.t < |s.pc| && Holds(s.pc[c.t])
    ensures Logs(s, c, Next(s, c))
  {
    OnlyHolderReleases(s, c.t);
    assert !Enters(s, c) by { NothingEnters(s, c); }
    if Leaving(s.pc[c.t]) {
      LeaveLogs(s, c);
    } else if Traversing(s.pc[c.t]) {
      TraverseLogs(s, c);
    } else if Splicing(s.pc[c.t]) {
      SpliceLogs(s, c.t);
    } else {
      GrantLogs(s, c.t);
    }
  }

  lemma NothingEnters(s: State, c: Choice)
    requires c.t < |s.pc| && Holds(s.pc[c.t])
    ensures !Enters(s, c)
  {
  }

  lemma StepLogs(s: State, c: Choice)
    requires Inv(s)
    ensures Logs(s, c, Next(s, c))
  {
    if c.t < |s.pc| {
      if Entering(s.pc[c.t]) { ArriveLogs(s, c); } else { ReleaseLogs(s, c); }
    }
  }

  /** The tickets logged as granted are those that entered, and perhaps one more that has not noticed yet. */
  ghost predicate EntriesMatch(s: State, entries: seq<nat>) {
    (Unnoticed(s) ==> s.served != []) &&
    entries == if Unnoticed(s) then s.served[..|s.served| - 1] else s.served
  }

  /** The last grant is the holder's. */
  ghost predicate LastGrant(s: State) {
    |s.ticket| == |s.pc| && (Unnoticed(s) ==> s.served != [] && s.served[|s.served| - 1] == s.ticket[s.holder])
  }

  lemma RunStepLogs(n: nat, sched: seq<Choice>)
    requires sched != []
    ensures var before, c := sched[..|sched| - 1], sched[|sched| - 1];
      LastGrant(After(n, before)) && Logs(After(n, before), c, After(n, sched))
  {
    RunKeepsInv(n, sched[..|sched| - 1]);
    StepLogs(After(n, sched[..|sched| - 1]), sched[|sched| - 1]);
  }

  lemma StepMatches(s: State, c: Choice, r: State, before: seq<nat>)
    requires EntriesMatch(s, before) && LastGrant(s) && Logs(s, c, r)
    ensures EntriesMatch(r, before + if Enters(s, c) && |s.ticket| == |s.pc| then [s.ticket[c.t]] else [])
  {
  }

  lemma {:induction false} EntriesAreGrants(n: nat, sched: seq<Choice>)
    ensures EntriesMatch(After(n, sched), Entries(n, sched))
  {
    if sched != [] {
      var before, c := sched[..|sched| - 1], sched[|sched| - 1];
      EntriesAreGrants(n, before);
      RunStepLogs(n, sched);
      StepMatches(After(n, before), c, After(n, sched), Entries(n, before));
    }
  }

  /**
   * No thread is ever overtaken by a later arrival on its own socket: over any run, among the threads that
   * recorded the same socket, those that entered did so in the order of their exchanges on `tail`, and
   * whoever of that socket still waits queued after all of them.
   */
  lemma NoOvertakingOnSocket(n: nat, sched: seq<Choice>)
    ensures Inv(After(n, sched))
    ensures SocketFifo(Entries(n, sched), After(n, sched).sockets)
    ensures var s, es := After(n, sched), Entries(n, sched);
      forall i, k | 0 <= i < |s.order| && 0 <= k < |es| && s.sockets[es[k]] == s.socket[s.order[i]] ::
        es[k] < s.ticket[s.order[i]]
  {
    RunKeepsInv(n, sched);
    EntriesAreGrants(n, sched);
    EntriesInOrder(After(n, sched), Entries(n, sched));
  }

  lemma EntriesInOrder(s: State, es: seq<nat>)
    requires Shape(s) && Members(s) && LogInv(s) && EntriesMatch(s, es)
    ensures SocketFifo(es, s.sockets)
    ensures forall i, k | 0 <= i < |s.order| && 0 <= k < |es| && s.sockets[es[k]] == s.socket[s.order[i]] ::
              es[k] < s.ticket[s.order[i]]
  {
    forall i: nat, k: nat | i < |s.order| && k < |es| && s.sockets[es[k]] == s.socket[s.order[i]]
      ensures es[k] < s.ticket[s.order[i]]
    {
      assert es[k] == s.served[k];
      assert NotOvertaken(s, i, s.served[k]);
    }
  }
}
