/** Every step of the NUMA-aware lock keeps its invariant. */
module CnaSteps {
  import opened Runs
  import opened CnaModel

  /** What the invariant says about position `i` and its neighbours. */
  lemma Around(s: State, i: nat)
    requires Inv(s) && i < |s.order|
    ensures Waiting(s, i)
    ensures i + 1 < |s.order| ==> Waiting(s, i + 1) && ChainAt(s, i)
    ensures 0 < i ==> Waiting(s, i - 1) && ChainAt(s, i - 1)
  {
    assert Waiting(s, i);
    if i + 1 < |s.order| { assert Waiting(s, i + 1) && ChainAt(s, i); }
    if 0 < i { assert Waiting(s, i - 1) && ChainAt(s, i - 1); }
  }

  lemma Distinct(s: State, i: nat, j: nat)
    requires Inv(s) && i < |s.order| && j < |s.order| && i != j
    ensures s.order[i] != s.order[j]
  {
    assert if i < j then Before(s, i, j) else Before(s, j, i);
  }

  /** The holder has moved, and perhaps stored to its own spin word or to a `secTail`. */
  ghost predicate SameQueues(s: State, r: State)
    requires Shape(s)
  {
    && r == s.(pc := r.pc, scan := r.scan, spin := r.spin, secTail := r.secTail)
    && |r.pc| == |r.spin| == |r.secTail| == |s.pc|
    && (forall u | 0 <= u < |s.pc| && u != s.holder :: r.pc[u] == s.pc[u] && r.spin[u] == s.spin[u])
    && 0 <= s.holder < |s.pc| && Holds(r.pc[s.holder])
  }

  lemma FrameQueues(s: State, r: State)
    requires Inv(s) && SameQueues(s, r)
    ensures QueueInv(r) && LogInv(r)
    ensures forall u {:trigger Placed(r, u)} :: 0 <= u < |r.pc| ==> Placed(r, u)
  {
    forall i: nat | i < |r.order| ensures Waiting(r, i) { Around(s, i); }
    forall i: nat, j: nat | i < j < |r.order| ensures Before(r, i, j) { assert Before(s, i, j); }
    forall i: nat | i < |r.order| - 1 ensures ChainAt(r, i) { Around(s, i); }
    forall u: nat | u < |r.pc| ensures Placed(r, u) { assert Placed(s, u); }
    forall i: nat, k: nat | i < |r.order| && k < |r.served| ensures NotOvertaken(r, i, r.served[k]) {
      assert NotOvertaken(s, i, s.served[k]) && Waiting(s, i);
    }
  }

  lemma FrameHolder(s: State, r: State)
    requires Shape(s) && Members(s) && SameQueues(s, r) && HolderLinks(s) && SecRemote(s)
    requires r.spin == s.spin && r.secTail == s.secTail
    requires var p, q := s.pc[s.holder], r.pc[s.holder];
             && (Attached(q) ==> Attached(p)) && p.Cut? == q.Cut? && p.SetTail? == q.SetTail?
             && !p.Test? && !q.GrantSec? && !q.GrantJoined? && !p.GrantSec? && !p.GrantJoined?
             && (Ready(q) || q.AwaitNext? || Found(q) ==> s.split < |s.order|)
             && (Ready(q) ==> s.next[s.holder] != NULL)
    ensures HolderLinks(r)
    ensures Found(r.pc[s.holder]) == Found(s.pc[s.holder]) ==> SecRemote(r)
  {
  }

  lemma QuietKeepsInv(s: State, r: State)
    requires Inv(s) && SameQueues(s, r)
    requires HolderLinks(r) && SecRemote(r) && HolderLocals(r)
    ensures Inv(r)
  {
    FrameQueues(s, r);
  }

  lemma LeaveLocals(s: State, c: Choice)
    requires Shape(s) && c.t < |s.pc| && c.t == s.holder && Members(s) && HolderLinks(s) && HolderLocals(s)
    requires Leaving(s.pc[c.t]) && Leave(s, c) != s && Holds(Leave(s, c).pc[c.t])
    requires s.tail != c.t || !(s.pc[c.t].CasNull? || s.pc[c.t].CasSec?)
    ensures SameQueues(s, Leave(s, c)) && HolderLocals(Leave(s, c))
  {
  }

  lemma LeaveLinks(s: State, c: Choice)
    requires Shape(s) && c.t < |s.pc| && c.t == s.holder && Members(s) && HolderLinks(s) && SecRemote(s)
    requires Leaving(s.pc[c.t]) && Leave(s, c) != s && SameQueues(s, Leave(s, c))
    requires s.tail != c.t || !(s.pc[c.t].CasNull? || s.pc[c.t].CasSec?)
    ensures HolderLinks(Leave(s, c)) && SecRemote(Leave(s, c))
  {
    FrameHolder(s, Leave(s, c));
  }

  lemma LeaveKeepsInv(s: State, c: Choice)
    requires Inv(s) && c.t < |s.pc| && c.t == s.holder && Leaving(s.pc[c.t])
    requires s.tail != c.t || !(s.pc[c.t].CasNull? || s.pc[c.t].CasSec?)
    ensures Inv(Leave(s, c))
  {
    if Leave(s, c) != s {
      LeaveLocals(s, c);
      LeaveLinks(s, c);
      QuietKeepsInv(s, Leave(s, c));
    }
  }

  lemma FirstLocals(s: State, c: Choice)
    requires Shape(s) && c.t < |s.pc| && c.t == s.holder && Members(s) && HolderLinks(s)
    requires s.pc[c.t].First? && Waiting(s, s.split)
    ensures SameQueues(s, Traverse(s, c)) && HolderLocals(Traverse(s, c))
  {
  }

  lemma SecondLocals(s: State, c: Choice)
    requires Shape(s) && c.t < |s.pc| && c.t == s.holder && Members(s) && HolderLocals(s) && s.pc[c.t].Second?
    requires s.split + 1 < |s.order| ==> Waiting(s, s.split + 1) && ChainAt(s, s.split)
    requires s.next[s.order[|s.order| - 1]] == NULL
    ensures SameQueues(s, Traverse(s, c)) && HolderLocals(Traverse(s, c))
  {
  }

  lemma ScanOn(s: State, c: Choice)
    requires Shape(s) && c.t < |s.pc| && c.t == s.holder && Members(s) && HolderLocals(s) && s.pc[c.t].Scan?
    requires s.pc[c.t].cur != NULL && s.socket[s.pc[c.t].cur] != s.pc[c.t].sock
    requires s.scan + 1 < |s.order| ==> Waiting(s, s.scan + 1) && ChainAt(s, s.scan)
    requires s.next[s.order[|s.order| - 1]] == NULL
    ensures SameQueues(s, Traverse(s, c)) && HolderLocals(Traverse(s, c))
  {
  }

  lemma ScanEnds(s: State, c: Choice)
    requires Shape(s) && c.t < |s.pc| && c.t == s.holder && Members(s) && HolderLocals(s) && s.pc[c.t].Scan?
    requires s.pc[c.t].cur == NULL || s.socket[s.pc[c.t].cur] == s.pc[c.t].sock
    ensures SameQueues(s, Traverse(s, c)) && HolderLocals(Traverse(s, c))
  {
  }

  lemma TraverseLocals(s: State, c: Choice)
    requires Inv(s) && c.t < |s.pc| && c.t == s.holder && Traversing(s.pc[c.t])
    ensures SameQueues(s, Traverse(s, c)) && HolderLocals(Traverse(s, c))
  {
    Around(s, s.split);
    match s.pc[c.t]
    case First => FirstLocals(s, c);
    case Second(_, _) => SecondLocals(s, c);
    case Scan(sock, _, _, cur) =>
      if cur != NULL { Around(s, s.scan); }
      if cur == NULL || s.socket[cur] == sock { ScanEnds(s, c); } else { ScanOn(s, c); }
  }

  lemma TraverseRemote(s: State, c: Choice)
    requires Shape(s) && c.t < |s.pc| && c.t == s.holder && Members(s) && HolderLinks(s) && SecRemote(s)
    requires Traversing(s.pc[c.t])
    ensures SecRemote(Traverse(s, c))
  {
  }

  lemma TraverseKeepsInv(s: State, c: Choice)
    requires Inv(s) && c.t < |s.pc| && c.t == s.holder && Traversing(s.pc[c.t])
    ensures Inv(Traverse(s, c))
  {
    TraverseLocals(s, c);
    FrameHolder(s, Traverse(s, c));
    TraverseRemote(s, c);
    QuietKeepsInv(s, Traverse(s, c));
  }

  lemma SpliceLoadsLocals(s: State, t: nat)
    requires Shape(s) && t < |s.pc| && t == s.holder && Members(s) && HolderLinks(s) && HolderLocals(s)
    requires s.pc[t].SpliceTest? || s.pc[t].SpliceLoad?
    ensures SameQueues(s, Splice(s, t)) && HolderLocals(Splice(s, t))
  {
  }

  lemma SpliceLoadsKeepInv(s: State, t: nat)
    requires Inv(s) && t < |s.pc| && t == s.holder
    requires s.pc[t].SpliceTest? || s.pc[t].SpliceLoad?
    ensures Inv(Splice(s, t))
  {
    SpliceLoadsLocals(s, t);
    FrameHolder(s, Splice(s, t));
    QuietKeepsInv(s, Splice(s, t));
  }

  predicate HandOverLoad(p: PC) {
    p.PassLoad? || p.CheckSec? || p.LoadHead? || p.LoadTail? || p.LoadFirst?
  }

  lemma HandOverLocals(s: State, t: nat)
    requires Shape(s) && t < |s.pc| && t == s.holder && Members(s) && HolderLinks(s) && HolderLocals(s)
    requires HandOverLoad(s.pc[t])
    ensures SameQueues(s, HandOver(s, t)) && HolderLocals(HandOver(s, t))
  {
  }

  lemma HandOverLinks(s: State, t: nat)
    requires Shape(s) && t < |s.pc| && t == s.holder && Members(s) && HolderLinks(s) && SecRemote(s)
    requires HandOverLoad(s.pc[t]) && SameQueues(s, HandOver(s, t))
    ensures HolderLinks(HandOver(s, t)) && SecRemote(HandOver(s, t))
  {
    FrameHolder(s, HandOver(s, t));
  }

  lemma HandOverLoadsKeepInv(s: State, t: nat)
    requires Inv(s) && t < |s.pc| && t == s.holder && HandOverLoad(s.pc[t])
    ensures Inv(HandOver(s, t))
  {
    HandOverLocals(s, t);
    HandOverLinks(s, t);
    QuietKeepsInv(s, HandOver(s, t));
  }

  /** A store of the holder that rearranges the queues but not who is waiting. */
  ghost predicate SameWaiters(s: State, r: State)
    requires Shape(s) && Shape(r)
  {
    && r == s.(tail := r.tail, next := r.next, spin := r.spin, secTail := r.secTail, pc := r.pc, split := r.split)
    && |r.pc| == |s.pc| && 0 <= s.holder < |s.pc| && Holds(r.pc[s.holder])
    && (forall u | 0 <= u < |s.pc| && u != s.holder :: r.pc[u] == s.pc[u] && r.spin[u] == s.spin[u])
    && (forall u: nat | u < |s.pc| && u !in s.order :: r.next[u] == s.next[u])
    && (forall i | 0 <= i < r.split :: s.order[i] < |s.pc| && s.pc[s.order[i]].Wait?)
    && (forall i {:trigger ChainAt(r, i)} :: 0 <= i < |r.order| - 1 ==> ChainAt(r, i))
    && (r.split < |r.order| ==>
          var last := r.order[|r.order| - 1];
          r.tail == last && last < |r.pc| && r.next[last] == NULL)
  }

  lemma StoreKeepsInv(s: State, r: State)
    requires Inv(s) && Shape(r) && SameWaiters(s, r) && Members(r)
    requires HolderLinks(r) && SecRemote(r) && HolderLocals(r)
    ensures Inv(r)
  {
    forall i: nat | i < |r.order| ensures Waiting(r, i) { assert Waiting(s, i); }
    forall i: nat, j: nat | i < j < |r.order| ensures Before(r, i, j) { assert Before(s, i, j); }
    forall u: nat | u < |r.pc| ensures Placed(r, u) {
      assert Placed(s, u);
      if u in s.order { var i :| 0 <= i < |s.order| && s.order[i] == u; assert Waiting(s, i); }
    }
    forall i: nat, k: nat | i < |r.order| && k < |r.served| ensures NotOvertaken(r, i, r.served[k]) {
      assert NotOvertaken(s, i, s.served[k]);
      assert Waiting(s, i);
    }
  }

  /** Only the link of position `j` has been rewritten, to `v`. */
  ghost predicate Relinked(s: State, r: State, j: nat, v: int)
    requires Shape(s) && Shape(r) && j < |s.order| && Members(s)
  {
    && r.order == s.order && |r.pc| == |s.pc| && r.next == s.next[s.order[j] := v]
    && forall u | 0 <= u < |s.pc| && u != s.holder :: r.pc[u] == s.pc[u]
  }

  /** Rewriting one link keeps all other links, and the last one if it is not the last node's. */
  lemma RelinkKeepsChain(s: State, r: State, j: nat, v: int)
    requires Inv(s) && Shape(r) && j < |s.order| && Relinked(s, r, j, v)
    requires forall i | 0 <= i < |s.order| - 1 && i != j && i + 1 == s.split && i + 1 != r.split :: ChainAt(r, i)
    requires j + 1 < |s.order| && (j + 1 == r.split || (s.pc[s.order[j + 1]].Wait? && v == s.order[j + 1]))
    ensures forall i {:trigger ChainAt(r, i)} :: 0 <= i < |r.order| - 1 ==> ChainAt(r, i)
    ensures r.next[r.order[|r.order| - 1]] == s.next[s.order[|s.order| - 1]]
    ensures forall u: nat | u < |s.pc| && u !in s.order :: r.next[u] == s.next[u]
  {
    forall i: nat | i < |r.order| - 1 ensures ChainAt(r, i) {
      Around(s, i);
      if i != j { Distinct(s, i, j); }
    }
    Distinct(s, |s.order| - 1, j);
  }

  lemma SpliceOldChain(s: State, t: nat)
    requires Inv(s) && t < |s.pc| && t == s.holder && s.pc[t].SpliceOld?
    ensures var r := Splice(s, t);
            && Shape(r) && r.order == s.order && r.order != []
            && (forall i {:trigger ChainAt(r, i)} :: 0 <= i < |r.order| - 1 ==> ChainAt(r, i))
            && r.order[|r.order| - 1] < |s.pc|
            && r.next[r.order[|r.order| - 1]] == s.next[s.order[|s.order| - 1]]
            && forall u: nat | u < |s.pc| && u !in s.order :: r.next[u] == s.next[u]
  {
    Around(s, s.split - 1);
    RelinkKeepsChain(s, Splice(s, t), s.split - 1, s.order[s.split]);
  }

  lemma SpliceOldStores(s: State, t: nat)
    requires Inv(s) && t < |s.pc| && t == s.holder && s.pc[t].SpliceOld?
    ensures Shape(Splice(s, t)) && SameWaiters(s, Splice(s, t))
  {
    SpliceOldChain(s, t);
    LastAtTail(s);
    SpliceOldSameWaiters(s, Splice(s, t));
  }

  lemma SpliceOldSameWaiters(s: State, r: State)
    requires Shape(s) && Members(s) && 0 <= s.holder < |s.pc| && s.pc[s.holder].SpliceOld? && HolderLocals(s)
    requires r == Splice(s, s.holder) && Shape(r) && s.tail == s.order[|s.order| - 1]
    requires forall i | 0 <= i < s.split :: s.pc[s.order[i]].Wait?
    requires forall i {:trigger ChainAt(r, i)} :: 0 <= i < |r.order| - 1 ==> ChainAt(r, i)
    requires r.next[r.order[|r.order| - 1]] == NULL
    requires forall u: nat | u < |s.pc| && u !in s.order :: r.next[u] == s.next[u]
    ensures SameWaiters(s, r)
  {
  }

  lemma WaitersWait(s: State)
    requires Inv(s)
    ensures forall i | 0 <= i < s.split :: 0 <= s.order[i] < |s.pc| && s.pc[s.order[i]].Wait?
  {
    forall i | 0 <= i < s.split ensures 0 <= s.order[i] < |s.pc| && s.pc[s.order[i]].Wait? { assert Waiting(s, i); }
  }

  lemma SpliceOldHolder(s: State, t: nat)
    requires Shape(s) && t < |s.pc| && t == s.holder && Members(s) && HolderLinks(s) && SecRemote(s) && HolderLocals(s)
    requires s.pc[t].SpliceOld? && Linked(s, t, s.order[s.split]) && s.order[s.split - 1] != t
    ensures HolderLinks(Splice(s, t)) && SecRemote(Splice(s, t)) && HolderLocals(Splice(s, t))
  {
  }

  lemma SpliceOldKeepsInv(s: State, t: nat)
    requires Inv(s) && t < |s.pc| && t == s.holder && s.pc[t].SpliceOld?
    ensures Inv(Splice(s, t))
  {
    assert s.order[s.split - 1] != t by { Around(s, s.split - 1); }
    SpliceOldHolder(s, t);
    SpliceOldStores(s, t);
    StoreKeepsInv(s, Splice(s, t));
  }

  lemma SpliceNewHolder(s: State, t: nat)
    requires Shape(s) && t < |s.pc| && t == s.holder && Members(s) && HolderLinks(s) && SecRemote(s) && HolderLocals(s)
    requires s.pc[t].SpliceNew?
    ensures SameQueues(s, Splice(s, t))
    ensures HolderLinks(Splice(s, t)) && SecRemote(Splice(s, t)) && HolderLocals(Splice(s, t))
  {
  }

  lemma SpliceNewKeepsInv(s: State, t: nat)
    requires Inv(s) && t < |s.pc| && t == s.holder && s.pc[t].SpliceNew?
    ensures Inv(Splice(s, t))
  {
    SpliceNewHolder(s, t);
    QuietKeepsInv(s, Splice(s, t));
  }

  lemma CutBoundary(s: State, t: nat)
    requires Inv(s) && t < |s.pc| && t == s.holder && s.pc[t].Cut?
    ensures Shape(Splice(s, t))
    ensures s.split > 0 ==> ChainAt(Splice(s, t), s.split - 1)
  {
    if s.split > 0 {
      Around(s, s.split);
      Distinct(s, s.split - 1, s.scan - 1);
    }
  }

  lemma CutStores(s: State, t: nat)
    requires Inv(s) && t < |s.pc| && t == s.holder && s.pc[t].Cut?
    ensures Shape(Splice(s, t)) && SameWaiters(s, Splice(s, t))
  {
    var r := Splice(s, t);
    CutBoundary(s, t);
    RelinkKeepsChain(s, r, s.scan - 1, NULL);
    LastAtTail(s);
    CutSameWaiters(s, r);
  }

  lemma LastAtTail(s: State)
    requires Inv(s)
    ensures forall i | 0 <= i < s.split :: s.order[i] < |s.pc| && s.pc[s.order[i]].Wait?
    ensures s.split < |s.order| ==>
              var last := s.order[|s.order| - 1];
              s.tail == last && last < |s.pc| && s.next[last] == NULL
  {
    WaitersWait(s);
  }

  lemma CutSameWaiters(s: State, r: State)
    requires Shape(s) && Members(s) && 0 <= s.holder < |s.pc| && s.pc[s.holder].Cut? && HolderLocals(s)
    requires r == Splice(s, s.holder) && Shape(r) && s.tail == s.order[|s.order| - 1]
    requires forall i | 0 <= i < s.split :: s.pc[s.order[i]].Wait?
    requires forall i {:trigger ChainAt(r, i)} :: 0 <= i < |r.order| - 1 ==> ChainAt(r, i)
    requires r.next[r.order[|r.order| - 1]] == NULL
    requires forall u: nat | u < |s.pc| && u !in s.order :: r.next[u] == s.next[u]
    ensures SameWaiters(s, r)
  {
  }

  lemma CutHolder(s: State, t: nat)
    requires Shape(s) && t < |s.pc| && t == s.holder && Members(s) && HolderLinks(s) && SecRemote(s) && HolderLocals(s)
    requires s.pc[t].Cut? && s.order[s.scan - 1] != t
    ensures Shape(Splice(s, t))
    ensures HolderLinks(Splice(s, t)) && SecRemote(Splice(s, t)) && HolderLocals(Splice(s, t))
  {
  }

  lemma CutKeepsInv(s: State, t: nat)
    requires Inv(s) && t < |s.pc| && t == s.holder && s.pc[t].Cut?
    ensures Inv(Splice(s, t))
  {
    Around(s, s.scan - 1);
    CutStores(s, t);
    CutHolder(s, t);
    StoreKeepsInv(s, Splice(s, t));
  }

  lemma SetTailHolder(s: State, t: nat)
    requires Shape(s) && t < |s.pc| && t == s.holder && Members(s) && HolderLinks(s) && SecRemote(s) && HolderLocals(s)
    requires s.pc[t].SetTail?
    ensures SameQueues(s, Splice(s, t))
    ensures HolderLinks(Splice(s, t)) && SecRemote(Splice(s, t)) && HolderLocals(Splice(s, t))
  {
  }

  lemma SetTailKeepsInv(s: State, t: nat)
    requires Inv(s) && t < |s.pc| && t == s.holder && s.pc[t].SetTail?
    ensures Inv(Splice(s, t))
  {
    SetTailHolder(s, t);
    QuietKeepsInv(s, Splice(s, t));
  }

  lemma JoinStep(s: State, t: nat)
    requires Inv(s) && t < |s.pc| && t == s.holder && s.pc[t].Join?
    ensures Shape(HandOver(s, t)) && s.split < |s.order| && s.pc[s.order[s.split]].Wait?
    ensures Relinked(s, HandOver(s, t), s.split - 1, s.order[s.split])
  {
    Around(s, s.split);
  }

  lemma JoinStores(s: State, t: nat)
    requires Inv(s) && t < |s.pc| && t == s.holder && s.pc[t].Join?
    ensures Shape(HandOver(s, t)) && SameWaiters(s, HandOver(s, t))
  {
    hide LogInv, Placed, SecRemote;
    JoinStep(s, t);
    RelinkKeepsChain(s, HandOver(s, t), s.split - 1, s.order[s.split]);
  }

  lemma JoinHolder(s: State, t: nat)
    requires Shape(s) && t < |s.pc| && t == s.holder && Members(s) && HolderLinks(s) && HolderLocals(s)
    requires s.pc[t].Join? && Waiting(s, 0)
    ensures HolderLinks(HandOver(s, t)) && SecRemote(HandOver(s, t)) && HolderLocals(HandOver(s, t))
  {
  }

  lemma JoinKeepsInv(s: State, t: nat)
    requires Inv(s) && t < |s.pc| && t == s.holder && s.pc[t].Join?
    ensures Inv(HandOver(s, t))
  {
    Around(s, 0);
    JoinStores(s, t);
    JoinHolder(s, t);
    StoreKeepsInv(s, HandOver(s, t));
  }

  lemma CasSecHolder(s: State, c: Choice)
    requires Shape(s) && c.t < |s.pc| && c.t == s.holder && Members(s) && HolderLinks(s) && HolderLocals(s)
    requires s.pc[c.t].CasSec? && s.tail == c.t && s.split == |s.order| && Waiting(s, 0)
    ensures Shape(Leave(s, c))
    ensures HolderLinks(Leave(s, c)) && SecRemote(Leave(s, c)) && HolderLocals(Leave(s, c))
  {
  }

  lemma CasSecStores(s: State, c: Choice)
    requires Inv(s) && c.t < |s.pc| && c.t == s.holder && s.pc[c.t].CasSec? && s.tail == c.t
    ensures s.split == |s.order| && Shape(Leave(s, c)) && SameWaiters(s, Leave(s, c))
  {
    hide LogInv, Placed, SecRemote;
    var r := Leave(s, c);
    WaitersWait(s);
    forall i: nat | i < |r.order| - 1 ensures ChainAt(r, i) { CasSecChain(s, r, i); }
  }

  lemma CasSecChain(s: State, r: State, i: nat)
    requires Inv(s) && Shape(r) && s.split == |s.order| && i < |s.order| - 1 && 0 <= s.holder < |s.pc|
    requires |r.pc| == |s.pc| && r.order == s.order && r.next == s.next && r.split == 0
    requires forall u | 0 <= u < |s.pc| && u != s.holder :: r.pc[u] == s.pc[u]
    ensures ChainAt(r, i)
  {
    Around(s, i);
  }

  lemma CasSecKeepsInv(s: State, c: Choice)
    requires Inv(s) && c.t < |s.pc| && c.t == s.holder && s.pc[c.t].CasSec? && s.tail == c.t
    ensures Inv(Leave(s, c))
  {
    CasSecStores(s, c);
    assert Waiting(s, 0);
    CasSecHolder(s, c);
    StoreKeepsInv(s, Leave(s, c));
  }

  lemma CasNullKeepsInv(s: State, c: Choice)
    requires Inv(s) && c.t < |s.pc| && c.t == s.holder && s.pc[c.t].CasNull? && s.tail == c.t
    ensures Inv(Leave(s, c))
  {
    var r := Leave(s, c);
    forall u: nat | u < |r.pc| ensures Placed(r, u) { assert Placed(s, u); }
  }

  lemma WithoutContains(order: seq<nat>, k: nat, u: nat)
    requires k < |order| && u in order && u != order[k]
    ensures u in Without(order, k)
  {
    var i :| 0 <= i < |order| && order[i] == u;
    assert Without(order, k)[if i < k then i else i - 1] == u;
  }

  /** The holder leaves and the first waiter of the main queue takes over with `word` as its spin word. */
  ghost predicate Served(s: State, r: State, word: Word)
    requires Shape(s) && Members(s)
  {
    && 0 <= s.holder < |s.pc| && Holds(s.pc[s.holder]) && s.split < |s.order|
    && var w := s.order[s.split];
    && r == s.(spin := s.spin[w := word], pc := s.pc[s.holder := Idle], holder := w,
               order := Without(s.order, s.split), served := s.served + [s.ticket[w]])
    && s.pc[w].Wait?
    && word == (if s.split > 0 then Sec(s.order[0]) else One)
    && (s.split > 0 ==> s.next[s.order[s.split - 1]] == NULL && s.secTail[s.order[0]] == s.order[s.split - 1])
    && (forall i | 0 <= i < s.split :: s.socket[s.order[i]] != s.socket[w])
  }

  lemma ServeKeepsWaiting(s: State, r: State, word: Word, i: nat)
    requires Inv(s) && Served(s, r, word) && i < |r.order|
    ensures Shape(r) && Waiting(r, i)
  {
    var j := if i < s.split then i else i + 1;
    Around(s, j);
    Distinct(s, j, s.split);
  }

  lemma ServeKeepsChain(s: State, r: State, word: Word, i: nat)
    requires Inv(s) && Served(s, r, word) && i < |r.order| - 1
    ensures Shape(r) && ChainAt(r, i)
  {
    var j := if i < s.split then i else i + 1;
    Around(s, j);
    if i + 1 != s.split { Distinct(s, j + 1, s.split); }
  }

  lemma ServeKeepsQueue(s: State, r: State, word: Word)
    requires Inv(s) && Served(s, r, word)
    ensures Shape(r) && QueueInv(r)
  {
    var k := s.split;
    forall i: nat | i < |r.order| ensures Waiting(r, i) { ServeKeepsWaiting(s, r, word, i); }
    forall i: nat | i < |r.order| ensures r.order[i] < |r.pc| && r.order[i] != r.holder { assert Waiting(r, i); }
    forall i: nat, j: nat | i < j < |r.order| ensures Before(r, i, j) {
      assert Before(s, if i < k then i else i + 1, if j < k then j else j + 1);
    }
    forall i: nat | i < |r.order| - 1 ensures ChainAt(r, i) { ServeKeepsChain(s, r, word, i); }
  }

  lemma ServeKeepsLinks(s: State, r: State, word: Word)
    requires Shape(s) && Members(s) && Served(s, r, word) && Shape(r) && Members(r)
    requires s.split + 1 < |s.order| ==> ChainAt(s, s.split)
    requires s.split + 1 == |s.order| ==> s.tail == s.order[s.split] && s.next[s.order[s.split]] == NULL
    requires s.split + 1 < |s.order| ==> s.order[s.split + 1] != s.holder
    ensures HolderLinks(r)
  {
  }

  lemma ServeKeepsHolder(s: State, r: State, word: Word)
    requires Inv(s) && Served(s, r, word) && Shape(r) && QueueInv(r)
    ensures HolderInv(r)
  {
    Around(s, s.split);
    ServeKeepsLinks(s, r, word);
  }

  lemma ServeKeepsPlaced(s: State, r: State, word: Word, u: nat)
    requires Inv(s) && Served(s, r, word) && Shape(r) && u < |s.pc|
    ensures Placed(r, u)
  {
    assert Placed(s, u);
    Around(s, s.split);
    if u in s.order && u != r.holder { WithoutContains(s.order, s.split, u); }
  }

  lemma ServeKeepsLog(s: State, r: State, word: Word)
    requires Inv(s) && Served(s, r, word) && Shape(r)
    ensures LogInv(r)
  {
    hide HolderInv, Placed;
    var k, n := s.split, |s.served|;
    Around(s, k);
    forall i: nat | i < n ensures s.served[i] < s.ticket[s.order[k]] ||
                                  s.sockets[s.served[i]] != s.sockets[s.ticket[s.order[k]]] {
      assert NotOvertaken(s, k, s.served[i]);
    }
    forall i: nat, j: nat | i < |r.order| && j < |r.served| ensures NotOvertaken(r, i, r.served[j]) {
      var i' := if i < k then i else i + 1;
      Around(s, i');
      Distinct(s, i', k);
      if j < n { assert NotOvertaken(s, i', s.served[j]); } else if k < i' { assert Before(s, k, i'); }
    }
  }

  lemma ServeKeepsInv(s: State, r: State, word: Word)
    requires Inv(s) && Served(s, r, word)
    ensures Inv(r)
  {
    ServeKeepsQueue(s, r, word);
    ServeKeepsHolder(s, r, word);
    forall u: nat | u < |r.pc| ensures Placed(r, u) { ServeKeepsPlaced(s, r, word, u); }
    ServeKeepsLog(s, r, word);
  }

  lemma GrantServes(s: State, t: nat)
    requires Inv(s) && t < |s.pc| && t == s.holder
    requires s.pc[t].GrantSec? || s.pc[t].GrantJoined? || s.pc[t].GrantFirst? || s.pc[t].Pass?
    ensures Served(s, HandOver(s, t), if s.pc[t].Pass? then s.pc[t].word else One)
  {
    Around(s, s.split);
  }

  lemma GrantKeepsInv(s: State, t: nat)
    requires Inv(s) && t < |s.pc| && t == s.holder
    requires s.pc[t].GrantSec? || s.pc[t].GrantJoined? || s.pc[t].GrantFirst? || s.pc[t].Pass?
    ensures Inv(HandOver(s, t))
  {
    assert Shape(s);
    hide Inv, HandOver;
    GrantServes(s, t);
    ServeKeepsInv(s, HandOver(s, t), if s.pc[t].Pass? then s.pc[t].word else One);
  }

  /** A thread outside the queues changes only its own node. */
  ghost predicate Outside(s: State, r: State, t: nat)
    requires Shape(s) && t < |s.pc|
  {
    && r == s.(next := r.next, spin := r.spin, socket := r.socket, pc := r.pc) && Shape(r) && |r.pc| == |s.pc|
    && (forall u | 0 <= u < |s.pc| && u != t ::
          r.next[u] == s.next[u] && r.spin[u] == s.spin[u] && r.socket[u] == s.socket[u] && r.pc[u] == s.pc[u])
    && Entering(s.pc[t]) && !Arriving(s.pc[t]) && Entering(r.pc[t]) && !Arriving(r.pc[t])
    && Placed(r, t)
  }

  /** A step of another thread: the holder, its sockets and the waiters it has already seen stay as they are. */
  ghost predicate HolderSees(s: State, r: State)
    requires Shape(s) && Members(s) && 0 <= s.holder < |s.pc|
  {
    && Shape(r) && Members(r) && |r.pc| == |s.pc| && r.holder == s.holder && r.split == s.split && r.scan == s.scan
    && s.order <= r.order
    && r.pc[s.holder] == s.pc[s.holder] && r.spin[s.holder] == s.spin[s.holder]
        && r.socket[s.holder] == s.socket[s.holder]
    && (forall i | 0 <= i < |s.order| && s.pc[s.order[i]].Wait? ::
          r.pc[s.order[i]].Wait? && r.socket[s.order[i]] == s.socket[s.order[i]])
    && (forall i | 0 <= i < s.split :: s.pc[s.order[i]].Wait?)
  }

  lemma HolderKeepsLocals(s: State, r: State)
    requires Shape(s) && Members(s) && 0 <= s.holder < |s.pc| && HolderSees(s, r) && HolderLocals(s)
    ensures HolderLocals(r)
  {
    if Splicing(s.pc[s.holder]) { HolderKeepsFound(s, r); }
  }

  lemma HolderKeepsFound(s: State, r: State)
    requires Shape(s) && Members(s) && 0 <= s.holder < |s.pc| && HolderSees(s, r) && HolderLocals(s)
    requires Splicing(s.pc[s.holder])
    ensures HolderLocals(r)
  {
  }

  lemma HolderKeepsRemote(s: State, r: State)
    requires Shape(s) && Members(s) && 0 <= s.holder < |s.pc| && HolderSees(s, r) && SecRemote(s) && HolderLocals(s)
    ensures SecRemote(r)
  {
  }

  lemma OutsideKeepsHolder(s: State, r: State, t: nat)
    requires Shape(s) && t < |s.pc| && Outside(s, r, t) && 0 <= s.holder < |s.pc| && t != s.holder
    requires Members(s) && (forall i | 0 <= i < |s.order| :: s.order[i] != t) && HolderSees(s, r)
    requires HolderLinks(s)
    ensures HolderLinks(r)
  {
  }

  lemma NotWaiting(s: State, t: nat)
    requires Inv(s) && t < |s.pc| && (!Arriving(s.pc[t]) || t == s.holder)
    ensures t !in s.order
  {
    forall i: nat | i < |s.order| ensures s.order[i] != t { assert Waiting(s, i); }
  }

  lemma OutsideKeepsQueue(s: State, r: State, t: nat)
    requires Inv(s) && t < |s.pc| && t != s.holder && Outside(s, r, t)
    ensures QueueInv(r)
  {
    NotWaiting(s, t);
    forall i: nat | i < |r.order| ensures Waiting(r, i) { assert Waiting(s, i); }
    forall i: nat, j: nat | i < j < |r.order| ensures Before(r, i, j) { assert Before(s, i, j); }
    forall i: nat | i < |r.order| - 1 ensures ChainAt(r, i) { Around(s, i); }
  }

  lemma OutsideKeepsLog(s: State, r: State, t: nat)
    requires Inv(s) && t < |s.pc| && t != s.holder && Outside(s, r, t)
    ensures LogInv(r)
  {
    forall i: nat, k: nat | i < |r.order| && k < |r.served| ensures NotOvertaken(r, i, r.served[k]) {
      assert NotOvertaken(s, i, s.served[k]);
      assert Waiting(s, i);
    }
  }

  lemma OthersSeen(s: State, r: State, t: nat)
    requires Inv(s) && t < |s.pc| && t != s.holder && s.holder != NULL
    requires Outside(s, r, t) || Joined(s, r, t) || Stepped(s, r, t)
    ensures HolderSees(s, r)
  {
    if !Stepped(s, r, t) { NotWaiting(s, t); }
    forall i | 0 <= i < s.split ensures s.pc[s.order[i]].Wait? { assert Waiting(s, i); }
  }

  lemma OutsideKeepsInv(s: State, r: State, t: nat)
    requires Inv(s) && t < |s.pc| && t != s.holder && Outside(s, r, t)
    ensures Inv(r)
  {
    NotWaiting(s, t);
    OutsideKeepsQueue(s, r, t);
    OutsideKeepsLog(s, r, t);
    if s.holder != NULL {
      OthersSeen(s, r, t);
      OutsideKeepsHolder(s, r, t);
      HolderKeepsLocals(s, r);
      HolderKeepsRemote(s, r);
    }
    forall u: nat | u < |r.pc| ensures Placed(r, u) { assert Placed(s, u); }
  }

  lemma ResetSteps(s: State, c: Choice)
    requires Shape(s) && c.t < |s.pc| && Placed(s, c.t)
    requires s.pc[c.t].Idle? || s.pc[c.t].ResetNext? || s.pc[c.t].ResetSpin?
    ensures Outside(s, Arrive(s, c), c.t)
  {
  }

  lemma ResetKeepsInv(s: State, c: Choice)
    requires Inv(s) && c.t < |s.pc|
    requires s.pc[c.t].Idle? || s.pc[c.t].ResetNext? || s.pc[c.t].ResetSpin?
    ensures Inv(Arrive(s, c))
  {
    assert Placed(s, c.t);
    ResetSteps(s, c);
    OutsideKeepsInv(s, Arrive(s, c), c.t);
  }

  /** The exchange on a free lock. */
  lemma SwapFreeKeepsInv(s: State, c: Choice)
    requires Inv(s) && c.t < |s.pc| && s.pc[c.t].Swap? && s.holder == NULL
    ensures Inv(Arrive(s, c))
  {
    var r := Arrive(s, c);
    assert Placed(s, c.t);
    forall u: nat | u < |r.pc| ensures Placed(r, u) { assert Placed(s, u); }
  }

  /** The exchange behind other threads: `t` becomes the last of the main queue. */
  ghost predicate Joined(s: State, r: State, t: nat)
    requires Shape(s) && t < |s.pc|
  {
    && r == s.(tail := t, ticket := s.ticket[t := |s.sockets|], sockets := s.sockets + [-1],
               pc := s.pc[t := Test(s.tail)], order := s.order + [t])
    && s.pc[t].Swap? && 0 <= s.holder < |s.pc| && s.holder != t
    && s.next[t] == NULL && s.spin[t].Zero? && s.socket[t] == -1
  }

  lemma SwapStep(s: State, c: Choice)
    requires Inv(s) && c.t < |s.pc| && s.pc[c.t].Swap? && s.holder != NULL
    ensures Joined(s, Arrive(s, c), c.t)
    ensures s.tail == if s.split < |s.order| then s.order[|s.order| - 1] else s.holder
  {
    assert Placed(s, c.t);
    if s.order != [] { Around(s, |s.order| - 1); }
  }

  lemma SwapKeepsQueue(s: State, r: State, t: nat)
    requires Inv(s) && t < |s.pc| && Joined(s, r, t)
    ensures Shape(r) && QueueInv(r) && forall i | 0 <= i < |s.order| :: s.order[i] != t
  {
    forall i: nat | i < |s.order| ensures s.order[i] != t { assert Waiting(s, i); }
    forall i: nat | i < |r.order| ensures Waiting(r, i) { if i < |s.order| { assert Waiting(s, i); } }
    forall i: nat, j: nat | i < j < |r.order| ensures Before(r, i, j) {
      assert Waiting(s, i);
      if j < |s.order| { assert Before(s, i, j); }
    }
    forall i: nat | i < |r.order| - 1 ensures ChainAt(r, i) { Around(s, i); }
  }

  lemma SwapKeepsHolder(s: State, r: State, t: nat)
    requires Shape(s) && t < |s.pc| && Joined(s, r, t) && Shape(r)
    requires Members(s) && forall i | 0 <= i < |s.order| :: s.order[i] != t
    requires s.tail == if s.split < |s.order| then s.order[|s.order| - 1] else s.holder
    requires HolderSees(s, r) && HolderLinks(s)
    ensures HolderLinks(r)
  {
  }

  lemma SwapKeepsLog(s: State, r: State, t: nat)
    requires Inv(s) && t < |s.pc| && Joined(s, r, t) && Shape(r)
    requires forall i | 0 <= i < |s.order| :: s.order[i] != t
    ensures LogInv(r)
  {
    forall i: nat, k: nat | i < |r.order| && k < |r.served| ensures NotOvertaken(r, i, r.served[k]) {
      if i < |s.order| { assert NotOvertaken(s, i, s.served[k]) && Waiting(s, i); }
    }
  }

  lemma SwapKeepsInv(s: State, c: Choice)
    requires Inv(s) && c.t < |s.pc| && s.pc[c.t].Swap?
    ensures Inv(Arrive(s, c))
  {
    var r, t := Arrive(s, c), c.t;
    if s.holder == NULL {
      SwapFreeKeepsInv(s, c);
    } else {
      SwapStep(s, c);
      SwapKeepsQueue(s, r, t);
      OthersSeen(s, r, t);
      SwapKeepsHolder(s, r, t);
      HolderKeepsLocals(s, r);
      HolderKeepsRemote(s, r);
      SwapKeepsLog(s, r, t);
      forall u: nat | u < |r.pc| ensures Placed(r, u) { assert Placed(s, u); }
    }
  }

  /** A waiting thread gets one step closer to being linked in. */
  ghost predicate Stepped(s: State, r: State, t: nat)
    requires Shape(s) && t < |s.pc|
  {
    && |r.pc| == |s.pc| && |r.socket| == |s.socket| && |s.socket| == |s.pc|
    && r == s.(next := r.next, socket := r.socket, sockets := r.sockets, pc := s.pc[t := r.pc[t]])
    && Unlinked(s.pc[t]) && s.ticket[t] < |s.sockets| && s.holder != t
    && (match s.pc[t]
        case Test(prev) => r.pc[t] == SetSocket(prev) && r.next == s.next && r.socket == s.socket
            && r.sockets == s.sockets
        case SetSocket(prev) =>
          r.pc[t] == Link(prev) && r.next == s.next && r.socket == s.socket[t := r.socket[t]] && r.socket[t] != -1 &&
          r.sockets == s.sockets[s.ticket[t] := r.socket[t]]
        case Link(prev) =>
          0 <= prev < |s.pc| && r.pc[t] == Wait && r.next == s.next[prev := t] && r.socket == s.socket &&
          s.socket[t] != -1 && r.sockets == s.sockets
        case _ => false)
  }

  /** Where an unlinked thread stands: behind the thread it is about to link to. */
  lemma Position(s: State, t: nat) returns (i: nat)
    requires Inv(s) && t < |s.pc| && Unlinked(s.pc[t]) && s.holder != t
    ensures s.split <= i < |s.order| && s.order[i] == t && Waiting(s, i) && s.holder != NULL
    ensures s.pc[t].prev == if i == s.split then s.holder else s.order[i - 1]
    ensures i == s.split ==> Attached(s.pc[s.holder]) && !Ready(s.pc[s.holder])
  {
    assert Placed(s, t);
    i :| 0 <= i < |s.order| && s.order[i] == t;
    Around(s, i);
  }

  lemma StepKeepsLog(s: State, r: State, t: nat)
    requires Inv(s) && t < |s.pc| && Stepped(s, r, t) && Shape(r)
    ensures LogInv(r)
    ensures s.holder != NULL && s.ticket[s.holder] < s.ticket[t]
  {
    var i0 := Position(s, t);
    forall k: nat | k < |s.served| ensures s.served[k] < s.ticket[t] {
      assert NotOvertaken(s, i0, s.served[k]);
    }
    forall i: nat, k: nat | i < |r.order| && k < |r.served| ensures NotOvertaken(r, i, r.served[k]) {
      assert NotOvertaken(s, i, s.served[k]);
      if i != i0 { Distinct(s, i, i0); }
    }
  }

  lemma StepKeepsWaiting(s: State, r: State, t: nat, i: nat)
    requires Inv(s) && t < |s.pc| && Stepped(s, r, t) && Shape(r) && i < |r.order|
    ensures Waiting(r, i)
  {
    var i0 := Position(s, t);
    assert Waiting(s, i);
    if i < i0 { assert Before(s, i, i0); }
    if i0 < i { assert Before(s, i0, i); }
  }

  lemma StepKeepsChain(s: State, r: State, t: nat, i: nat)
    requires Inv(s) && t < |s.pc| && Stepped(s, r, t) && Shape(r) && i < |r.order| - 1
    ensures ChainAt(r, i)
  {
    var i0 := Position(s, t);
    Around(s, i);
    Around(s, i0);
    if i + 1 != i0 { Distinct(s, i + 1, i0); }
    if s.split < i0 && i != i0 - 1 { Distinct(s, i, i0 - 1); }
  }

  lemma StepKeepsQueue(s: State, r: State, t: nat)
    requires Inv(s) && t < |s.pc| && Stepped(s, r, t) && Shape(r)
    ensures QueueInv(r)
  {
    var i0 := Position(s, t);
    forall i: nat | i < |r.order| ensures Waiting(r, i) { StepKeepsWaiting(s, r, t, i); }
    forall i: nat, j: nat | i < j < |r.order| ensures Before(r, i, j) { assert Before(s, i, j); }
    forall i: nat | i < |r.order| - 1 ensures ChainAt(r, i) { StepKeepsChain(s, r, t, i); }
    Around(s, |s.order| - 1);
    if s.split < i0 { Distinct(s, |s.order| - 1, i0 - 1); }
  }

  lemma StepKeepsLinks(s: State, r: State, t: nat, i0: nat)
    requires Shape(s) && t < |s.pc| && 0 <= s.holder < |s.pc| && Members(s) && Stepped(s, r, t) && Shape(r)
        && HolderSees(s, r)
    requires s.split <= i0 < |s.order| && s.order[i0] == t && HolderLinks(s)
    requires s.pc[t].prev == if i0 == s.split then s.holder else s.order[i0 - 1]
    requires i0 == s.split ==> Attached(s.pc[s.holder]) && !Ready(s.pc[s.holder])
    requires s.split < i0 ==> s.order[i0 - 1] != s.holder && s.order[s.split] != t
    requires 0 < s.split ==> s.order[s.split - 1] != s.holder && (s.split < i0 ==>
        s.order[s.split - 1] != s.order[i0 - 1])
    ensures HolderLinks(r)
  {
  }

  lemma StepKeepsLinksAt(s: State, r: State, t: nat)
    requires Inv(s) && t < |s.pc| && Stepped(s, r, t) && Shape(r) && s.holder != NULL && HolderSees(s, r)
    ensures HolderLinks(r)
  {
    var i0 := Position(s, t);
    if s.split < i0 { Around(s, i0); Distinct(s, s.split, i0); }
    if 0 < s.split {
      Around(s, s.split - 1);
      if s.split < i0 { Distinct(s, s.split - 1, i0 - 1); }
    }
    StepKeepsLinks(s, r, t, i0);
  }

  lemma StepKeepsHolder(s: State, r: State, t: nat)
    requires Inv(s) && t < |s.pc| && Stepped(s, r, t) && Shape(r) && QueueInv(r)
    ensures HolderInv(r)
  {
    StepKeepsLog(s, r, t);
    OthersSeen(s, r, t);
    StepKeepsLinksAt(s, r, t);
    HolderKeepsLocals(s, r);
    HolderKeepsRemote(s, r);
  }

  lemma StepKeepsPlaced(s: State, r: State, t: nat, u: nat)
    requires Inv(s) && t < |s.pc| && Stepped(s, r, t) && Shape(r) && u < |s.pc|
    ensures Placed(r, u)
  {
    var i0 := Position(s, t);
    Around(s, i0);
    assert Placed(s, u) && Placed(s, t);
  }

  lemma StepKeepsInv(s: State, r: State, t: nat)
    requires Inv(s) && t < |s.pc| && Stepped(s, r, t) && Shape(r)
    ensures Inv(r)
  {
    StepKeepsQueue(s, r, t);
    StepKeepsHolder(s, r, t);
    StepKeepsLog(s, r, t);
    forall u: nat | u < |r.pc| ensures Placed(r, u) { StepKeepsPlaced(s, r, t, u); }
  }

  lemma WaiterSteps(s: State, c: Choice, i: nat)
    requires Shape(s) && c.t < |s.pc| && c.t != s.holder && i < |s.order| && s.order[i] == c.t
    requires Waiting(s, i) && Unlinked(s.pc[c.t]) && 0 <= s.pc[c.t].prev < |s.pc|
    ensures Stepped(s, Arrive(s, c), c.t) && Shape(Arrive(s, c))
  {
  }

  lemma WaiterKeepsInv(s: State, c: Choice)
    requires Inv(s) && c.t < |s.pc| && c.t != s.holder && Arriving(s.pc[c.t])
    ensures Inv(Arrive(s, c))
  {
    assert Placed(s, c.t);
    var i :| 0 <= i < |s.order| && s.order[i] == c.t;
    Around(s, i);
    if Unlinked(s.pc[c.t]) {
      var i0 := Position(s, c.t);
      WaiterSteps(s, c, i0);
      StepKeepsInv(s, Arrive(s, c), c.t);
    }
  }

  lemma EnterHolder(s: State, c: Choice)
    requires Shape(s) && Members(s) && c.t < |s.pc| && c.t == s.holder && Arriving(s.pc[c.t])
    requires HolderLinks(s) && SecRemote(s) && (s.pc[c.t].Test? || s.pc[c.t].Wait?)
    ensures SameQueues(s, Arrive(s, c))
    ensures HolderLinks(Arrive(s, c)) && SecRemote(Arrive(s, c)) && HolderLocals(Arrive(s, c))
  {
  }

  /** The holder takes note that it holds the lock. */
  lemma EnterKeepsInv(s: State, c: Choice)
    requires Inv(s) && c.t < |s.pc| && c.t == s.holder && Arriving(s.pc[c.t])
    ensures Inv(Arrive(s, c))
  {
    EnterHolder(s, c);
    QuietKeepsInv(s, Arrive(s, c));
  }

  lemma OnlyHolderReleases(s: State, t: nat)
    requires Inv(s) && t < |s.pc| && Holds(s.pc[t])
    ensures t == s.holder
  {
    assert Placed(s, t);
  }

  lemma ArriveStepKeepsInv(s: State, c: Choice)
    requires Inv(s) && c.t < |s.pc| && Entering(s.pc[c.t])
    ensures Inv(Arrive(s, c))
  {
    if s.pc[c.t].Swap? {
      SwapKeepsInv(s, c);
    } else if !Arriving(s.pc[c.t]) {
      ResetKeepsInv(s, c);
    } else if c.t == s.holder {
      EnterKeepsInv(s, c);
    } else {
      WaiterKeepsInv(s, c);
    }
  }

  lemma LeaveStepKeepsInv(s: State, c: Choice)
    requires Inv(s) && c.t < |s.pc| && Leaving(s.pc[c.t])
    ensures Inv(Leave(s, c))
  {
    OnlyHolderReleases(s, c.t);
    if s.tail == c.t && s.pc[c.t].CasNull? {
      CasNullKeepsInv(s, c);
    } else if s.tail == c.t && s.pc[c.t].CasSec? {
      CasSecKeepsInv(s, c);
    } else {
      LeaveKeepsInv(s, c);
    }
  }

  lemma SpliceStoreKeepsInv(s: State, t: nat)
    requires Inv(s) && t < |s.pc| && t == s.holder && (s.pc[t].SpliceOld? || s.pc[t].SpliceNew?)
    ensures Inv(Splice(s, t))
  {
    if s.pc[t].SpliceOld? { SpliceOldKeepsInv(s, t); } else { SpliceNewKeepsInv(s, t); }
  }

  lemma SpliceEndKeepsInv(s: State, t: nat)
    requires Inv(s) && t < |s.pc| && t == s.holder && (s.pc[t].Cut? || s.pc[t].SetTail?)
    ensures Inv(Splice(s, t))
  {
    if s.pc[t].Cut? { CutKeepsInv(s, t); } else { SetTailKeepsInv(s, t); }
  }

  lemma SpliceStepKeepsInv(s: State, t: nat)
    requires Inv(s) && t < |s.pc| && Splicing(s.pc[t])
    ensures Inv(Splice(s, t))
  {
    OnlyHolderReleases(s, t);
    if s.pc[t].SpliceTest? || s.pc[t].SpliceLoad? {
      SpliceLoadsKeepInv(s, t);
    } else if s.pc[t].Cut? || s.pc[t].SetTail? {
      SpliceEndKeepsInv(s, t);
    } else {
      SpliceStoreKeepsInv(s, t);
    }
  }

  lemma HandOverStepKeepsInv(s: State, t: nat)
    requires Inv(s) && t < |s.pc| && Holds(s.pc[t])
    requires !Leaving(s.pc[t]) && !Traversing(s.pc[t]) && !Splicing(s.pc[t])
    ensures Inv(HandOver(s, t))
  {
    OnlyHolderReleases(s, t);
    if s.pc[t].Join? {
      JoinKeepsInv(s, t);
    } else if HandOverLoad(s.pc[t]) {
      HandOverLoadsKeepInv(s, t);
    } else {
      GrantKeepsInv(s, t);
    }
  }

  /** Every atomic step, whatever the scheduler picks, keeps the invariant. */
  lemma NextKeepsInv(s: State, c: Choice)
    requires Inv(s)
    ensures Inv(Next(s, c))
  {
    if c.t < |s.pc| {
      if Entering(s.pc[c.t]) {
        ArriveStepKeepsInv(s, c);
      } else if Leaving(s.pc[c.t]) {
        LeaveStepKeepsInv(s, c);
      } else if Traversing(s.pc[c.t]) {
        OnlyHolderReleases(s, c.t);
        TraverseKeepsInv(s, c);
      } else if Splicing(s.pc[c.t]) {
        SpliceStepKeepsInv(s, c.t);
      } else {
        HandOverStepKeepsInv(s, c.t);
      }
    }
  }
}
