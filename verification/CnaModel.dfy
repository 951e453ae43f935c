/** The compact NUMA-aware lock, src/cna.h: a main and a secondary queue threaded through one set of nodes. */
module CnaModel {
  import opened Runs

  /** The `spin` word: 0 while waiting, 1 for a grant without secondary queue, else the secondary queue's head. */
  datatype Word = Zero | One | Sec(head: int)

  /** Where a thread is; one constructor per atomic access, carrying the live locals. */
  datatype PC =
    | Idle
    // Acquire
    | ResetNext
    | ResetSpin
    | Swap
    | Test(prev: int)
    | SetSocket(prev: int)
    | Link(prev: int)
    | Wait
    | Critical
    // Release
    | LoadNext
    | CheckSpin
    | CasNull
    | LoadSec
    | CasSec(head: int)
    | GrantSec(head: int)
    | AwaitNext
    | Decide
    // find_successor
    | First
    | Second(sock: int, secHead: int)
    | Scan(sock: int, secHead: int, last: int, cur: int)
    | SpliceTest(secHead: int, last: int, cur: int)
    | SpliceLoad(secHead: int, last: int, cur: int)
    | SpliceOld(secHead: int, last: int, cur: int, head: int)
    | SpliceNew(secHead: int, last: int, cur: int)
    | Cut(last: int, cur: int)
    | SetTail(last: int, cur: int)
    // handing over
    | PassLoad(succ: int)
    | Pass(succ: int, word: Word)
    | CheckSec
    | LoadHead
    | LoadTail(head: int)
    | Join(head: int, first: int)
    | GrantJoined(head: int)
    | LoadFirst
    | GrantFirst(first: int)

  /**
   * Thread `t` owns node `t`. The fields from `holder` on are history: `order` lists the waiting
   * threads, the first `split` of them being the secondary queue and the rest the main queue, `scan`
   * is the position the holder's traversal has reached, `ticket` numbers the exchanges on `tail`,
   * `sockets` holds the socket recorded for each ticket, and `served` the tickets that got the lock.
   */
  datatype State = State(
    tail: int, next: seq<int>, spin: seq<Word>, socket: seq<int>, secTail: seq<int>, pc: seq<PC>,
    holder: int, order: seq<nat>, split: nat, scan: nat, ticket: seq<nat>, sockets: seq<int>, served: seq<nat>)
  {
    function Goto(t: nat, p: PC): State
      requires t < |pc|
    {
      this.(pc := pc[t := p])
    }

    /** Thread `w` becomes the holder; it is no longer waiting. */
    function Serve(w: int, rest: seq<nat>): State
      requires 0 <= w < |ticket|
    {
      this.(holder := w, order := rest, served := served + [ticket[w]])
    }
  }

  /** The scheduler picks the thread, the socket it runs on and the outcome of `keep_lock_local`. */
  datatype Choice = Choice(t: nat, socket: nat, keep: bool)

  function Init(n: nat): State {
    State(NULL, seq(n, i => NULL), seq(n, i => Zero), seq(n, i => -1), seq(n, i => NULL), seq(n, i => Idle),
          NULL, [], 0, 0, seq(n, i => 0), [], [])
  }

  predicate Shape(s: State) {
    |s.next| == |s.spin| == |s.socket| == |s.secTail| == |s.ticket| == |s.pc| &&
    s.split <= |s.order|
  }

  ghost predicate Members(s: State) {
    forall i | 0 <= i < |s.order| :: s.order[i] < |s.pc| && s.order[i] != s.holder
  }

  /** A load through a pointer; the pointers the protocol follows are shown to be nodes. */
  function Get(cells: seq<int>, p: int): int {
    if 0 <= p < |cells| then cells[p] else NULL
  }

  /** `Acquire`. */
  function Arrive(s: State, c: Choice): State
    requires Shape(s) && c.t < |s.pc|
  {
    var t := c.t;
    match s.pc[t]
    case Idle => s.Goto(t, ResetNext)
    case ResetNext => s.(next := s.next[t := NULL]).Goto(t, ResetSpin)
    case ResetSpin => s.(socket := s.socket[t := -1], spin := s.spin[t := Zero]).Goto(t, Swap)
    case Swap =>
      var r := s.(tail := t, ticket := s.ticket[t := |s.sockets|], sockets := s.sockets + [-1]).Goto(t, Test(s.tail));
      if s.tail == NULL then r.Serve(t, []).(split := 0) else r.(order := s.order + [t])
    case Test(prev) =>
      if prev == NULL then s.(spin := s.spin[t := One]).Goto(t, Critical) else s.Goto(t, SetSocket(prev))
    case SetSocket(prev) =>
      s.(socket := s.socket[t := c.socket], sockets := Put(s.sockets, s.ticket[t], c.socket)).Goto(t, Link(prev))
    case Link(prev) => s.(next := Put(s.next, prev, t)).Goto(t, Wait)
    case _ => if s.spin[t].Zero? then s else s.Goto(t, Critical)
  }

  /** `Release` up to the choice of a successor. */
  function Leave(s: State, c: Choice): State
    requires Shape(s) && c.t < |s.pc|
  {
    var t := c.t;
    match s.pc[t]
    case Critical => s.Goto(t, LoadNext)
    case LoadNext => s.Goto(t, if s.next[t] == NULL then CheckSpin else Decide)
    case CheckSpin => s.Goto(t, if s.spin[t].One? then CasNull else LoadSec)
    case CasNull =>
      if s.tail == t then s.(tail := NULL, holder := NULL).Goto(t, Idle) else s.Goto(t, AwaitNext)
    case LoadSec => s.Goto(t, CasSec(Pointer(s.spin[t])))
    case CasSec(head) =>
      if s.tail == t then s.(tail := Get(s.secTail, head), split := 0).Goto(t, GrantSec(head))
      else s.Goto(t, AwaitNext)
    case AwaitNext => if s.next[t] == NULL then s else s.Goto(t, Decide)
    case _ => s.Goto(t, if c.keep then First else CheckSec)
  }

  function Pointer(w: Word): int {
    if w.Sec? then w.head else NULL
  }

  /** `find_successor` while it only reads: the walk along the main queue. */
  function Traverse(s: State, c: Choice): State
    requires Shape(s) && c.t < |s.pc|
  {
    var t := c.t;
    match s.pc[t]
    case First =>
      var next := s.next[t];
      var mine := if s.socket[t] == -1 then c.socket else s.socket[t];
      s.Goto(t, if Get(s.socket, next) == mine then PassLoad(next) else Second(mine, next))
    case Second(sock, secHead) =>
      s.(scan := s.split + 1).Goto(t, Scan(sock, secHead, secHead, Get(s.next, secHead)))
    case Scan(sock, secHead, last, cur) =>
      if cur == NULL then s.Goto(t, CheckSec)
      else if Get(s.socket, cur) == sock then s.Goto(t, SpliceTest(secHead, last, cur))
      else s.(scan := s.scan + 1).Goto(t, Scan(sock, secHead, cur, Get(s.next, cur)))
    case _ => s
  }

  /** `find_successor` once it has found a local waiter: the remote prefix joins the secondary queue. */
  function Splice(s: State, t: nat): State
    requires Shape(s) && t < |s.pc|
  {
    match s.pc[t]
    case SpliceTest(secHead, last, cur) =>
      s.Goto(t, if s.spin[t].Sec? then SpliceLoad(secHead, last, cur) else SpliceNew(secHead, last, cur))
    case SpliceLoad(secHead, last, cur) => s.Goto(t, SpliceOld(secHead, last, cur, Pointer(s.spin[t])))
    case SpliceOld(secHead, last, cur, head) =>
      s.(next := Put(s.next, Get(s.secTail, head), secHead)).Goto(t, Cut(last, cur))
    case SpliceNew(secHead, last, cur) => s.(spin := s.spin[t := Sec(secHead)]).Goto(t, Cut(last, cur))
    case Cut(last, cur) =>
      s.(next := Put(s.next, last, NULL), split := if s.scan <= |s.order| then s.scan else s.split)
       .Goto(t, SetTail(last, cur))
    case SetTail(last, cur) => s.(secTail := Put(s.secTail, Pointer(s.spin[t]), last)).Goto(t, PassLoad(cur))
    case _ => s
  }

  function Without(order: seq<nat>, k: nat): seq<nat>
    requires k < |order|
  {
    order[..k] + order[k + 1..]
  }

  /** The ways `Release` ends when somebody waits: each gives the lock to one waiting thread. */
  function HandOver(s: State, t: nat): State
    requires Shape(s) && t < |s.pc|
  {
    match s.pc[t]
    case PassLoad(succ) => s.Goto(t, Pass(succ, s.spin[t]))
    case Pass(succ, word) =>
      var r := s.(spin := Put(s.spin, succ, word)).Goto(t, Idle);
      if 0 <= succ < |s.pc| && s.split < |s.order|
      then r.Serve(succ, Without(s.order, s.split)) else r
    case CheckSec => s.Goto(t, if s.spin[t].Sec? then LoadHead else LoadFirst)
    case LoadHead => s.Goto(t, LoadTail(Pointer(s.spin[t])))
    case LoadTail(head) => s.Goto(t, Join(head, s.next[t]))
    case Join(head, first) =>
      s.(next := Put(s.next, Get(s.secTail, head), first), split := 0).Goto(t, GrantJoined(head))
    case GrantJoined(head) => Grant(s, t, head)
    case LoadFirst => s.Goto(t, GrantFirst(s.next[t]))
    case GrantFirst(first) => Grant(s, t, first)
    case GrantSec(head) => Grant(s, t, head)
    case _ => s
  }

  function Grant(s: State, t: nat, w: int): State
    requires Shape(s) && t < |s.pc|
  {
    var r := s.(spin := Put(s.spin, w, One)).Goto(t, Idle);
    if 0 <= w < |s.pc| && s.order != [] then r.Serve(w, Without(s.order, 0)).(split := 0) else r
  }

  predicate Entering(p: PC) {
    p.Idle? || p.ResetNext? || p.ResetSpin? || p.Swap? || Arriving(p)
  }

  predicate Leaving(p: PC) {
    p.Critical? || p.LoadNext? || p.CheckSpin? || p.CasNull? || p.LoadSec? || p.CasSec? || p.AwaitNext? || p.Decide?
  }

  predicate Traversing(p: PC) {
    p.First? || p.Second? || p.Scan?
  }

  predicate Splicing(p: PC) {
    p.SpliceTest? || p.SpliceLoad? || p.SpliceOld? || p.SpliceNew? || p.Cut? || p.SetTail?
  }

  /** One atomic step; a failed spin leaves the state as it was. */
  function Next(s: State, c: Choice): State {
    if !Shape(s) || c.t >= |s.pc| then s
    else if Entering(s.pc[c.t]) then Arrive(s, c)
    else if Leaving(s.pc[c.t]) then Leave(s, c)
    else if Traversing(s.pc[c.t]) then Traverse(s, c)
    else if Splicing(s.pc[c.t]) then Splice(s, c.t)
    else HandOver(s, c.t)
  }

  /** Queued by the exchange, and not yet holding the lock. */
  predicate Arriving(p: PC) {
    p.Test? || p.SetSocket? || p.Link? || p.Wait?
  }

  /** Inside the critical section or releasing it. */
  predicate Holds(p: PC) {
    !Entering(p)
  }

  /** Queued, but the predecessor's `next` does not say so yet. */
  predicate Unlinked(p: PC) {
    (p.Test? && p.prev != NULL) || p.SetSocket? || p.Link?
  }

  /** `u` follows `p` in a queue: `p`'s link names it, or `u` is about to write that link. */
  ghost predicate Linked(s: State, p: nat, u: nat)
    requires Shape(s) && p < |s.pc| && u < |s.pc|
  {
    if Unlinked(s.pc[u]) then s.next[p] == NULL && s.pc[u].prev == p else s.next[p] == u
  }

  /** The thread at position `i` of the waiting order is waiting. */
  ghost predicate Waiting(s: State, i: nat)
    requires Shape(s)
  {
    && i < |s.order|
    && var t := s.order[i];
    && t < |s.pc| && t != s.holder && s.spin[t].Zero?
    && (Unlinked(s.pc[t]) || s.pc[t].Wait?)
    && (i < s.split ==> s.pc[t].Wait?)
    && s.ticket[t] < |s.sockets| && s.sockets[s.ticket[t]] == s.socket[t]
    && (s.pc[t].Wait? || s.pc[t].Link? ==> s.socket[t] != -1)
  }

  /** Neighbours in the same queue are linked. */
  ghost predicate ChainAt(s: State, i: nat)
    requires Shape(s)
  {
    i + 1 < |s.order| && s.order[i] < |s.pc| && s.order[i + 1] < |s.pc| &&
    (i + 1 != s.split ==> Linked(s, s.order[i], s.order[i + 1]))
  }

  /** Ticket `x` was served without passing over a waiter of its own socket. */
  ghost predicate NotOvertaken(s: State, i: nat, x: nat)
    requires Shape(s)
  {
    && i < |s.order| && s.order[i] < |s.pc| && x < |s.sockets|
    && (x < s.ticket[s.order[i]] || (s.pc[s.order[i]].Wait? && s.sockets[x] != s.socket[s.order[i]]))
  }

  /** Among tickets of one socket the lock is granted in the order of the exchanges. */
  ghost predicate SocketFifo(served: seq<nat>, sockets: seq<int>) {
    && (forall i | 0 <= i < |served| :: served[i] < |sockets|)
    && (forall i, j | 0 <= i < j < |served| && sockets[served[i]] == sockets[served[j]] :: served[i] < served[j])
  }

  ghost predicate Before(s: State, i: nat, j: nat)
    requires Shape(s)
  {
    i < |s.order| && j < |s.order| && s.order[i] < |s.pc| && s.order[j] < |s.pc| &&
    s.ticket[s.order[i]] < s.ticket[s.order[j]]
  }

  /** The waiting order: sorted by arrival, both queues linked, the main queue ending at `tail`. */
  ghost predicate QueueInv(s: State)
    requires Shape(s)
  {
    && Members(s)
    && (forall i {:trigger Waiting(s, i)} :: 0 <= i < |s.order| ==> Waiting(s, i))
    && (forall i, j {:trigger Before(s, i, j)} :: 0 <= i < j < |s.order| ==> Before(s, i, j))
    && (forall i {:trigger ChainAt(s, i)} :: 0 <= i < |s.order| - 1 ==> ChainAt(s, i))
    && (s.split < |s.order| ==>
          var last := s.order[|s.order| - 1];
          s.tail == last && last < |s.pc| && s.next[last] == NULL)
  }

  /** The holder's `next` is still the entry to the main queue. */
  predicate Attached(p: PC) {
    !p.SetTail? && !p.PassLoad? && !p.Pass? && !p.GrantSec? && !p.GrantJoined?
  }

  /** The release path on which the main queue is known to be non-empty and linked. */
  predicate Ready(p: PC) {
    p.Decide? || p.First? || p.Second? || p.Scan? || p.SpliceTest? || p.SpliceLoad? || p.SpliceOld? ||
    p.SpliceNew? || p.Cut? || p.CheckSec? || p.LoadHead? || p.LoadTail? || p.Join? || p.LoadFirst? || p.GrantFirst?
  }

  /** The successor has been found on the holder's socket. */
  predicate Found(p: PC) {
    p.SetTail? || p.PassLoad? || p.Pass?
  }

  /** How the holder's place in the two queues is recorded in the nodes. */
  ghost predicate HolderLinks(s: State)
    requires Shape(s) && 0 <= s.holder < |s.pc|
    requires Members(s)
  {
    var h := s.holder;
    var p := s.pc[h];
    && (Attached(p) ==>
          if s.split < |s.order| then Linked(s, h, s.order[s.split]) else s.tail == h && s.next[h] == NULL)
    && (!Attached(p) || Ready(p) || p.AwaitNext? ==> s.split < |s.order|)
    && (Ready(p) ==> s.next[h] != NULL)
    && (s.split > 0 ==> s.next[s.order[s.split - 1]] == if p.Cut? then s.order[s.split] else NULL)
    && (s.split > 0 && !p.SetTail? ==> s.secTail[s.order[0]] == s.order[s.split - 1])
    && (if p.Test? then s.spin[h].Zero? && s.split == 0 && p.prev == NULL
        else if p.GrantSec? || p.GrantJoined? then s.split == 0 && p.head == s.order[0]
        else s.spin[h] == if s.split > 0 || p.Cut? then Sec(s.order[0]) else One)
  }

  /** Waiters of the secondary queue never run on the socket the lock stays on. */
  ghost predicate SecRemote(s: State)
    requires Shape(s) && 0 <= s.holder < |s.pc|
    requires Members(s)
  {
    var h := s.holder;
    if Found(s.pc[h]) then
      s.split < |s.order| &&
      (s.socket[h] != -1 ==> s.socket[s.order[s.split]] == s.socket[h]) &&
      forall i | 0 <= i < s.split :: s.socket[s.order[i]] != s.socket[s.order[s.split]]
    else
      (s.split > 0 ==> s.socket[h] != -1) &&
      forall i | 0 <= i < s.split :: s.socket[s.order[i]] != s.socket[h]
  }

  /** The traversal has seen `split..scan`, all linked and none on socket `sock`. */
  ghost predicate Scanned(s: State, sock: int, secHead: int, last: int)
    requires Shape(s) && 0 <= s.holder < |s.pc|
    requires Members(s)
  {
    && s.split < s.scan <= |s.order| && secHead == s.order[s.split] && last == s.order[s.scan - 1]
    && (s.socket[s.holder] != -1 ==> sock == s.socket[s.holder])
    && forall i | s.split <= i < s.scan :: s.pc[s.order[i]].Wait? && s.socket[s.order[i]] != sock
  }

  ghost predicate FoundAt(s: State, secHead: int, last: int, cur: int)
    requires Shape(s) && 0 <= s.holder < |s.pc|
    requires Members(s)
  {
    && s.scan < |s.order| && cur == s.order[s.scan] && s.pc[s.order[s.scan]].Wait?
    && Scanned(s, s.socket[s.order[s.scan]], secHead, last)
  }

  /** The holder's locals name the nodes they are meant to. */
  ghost predicate HolderLocals(s: State)
    requires Shape(s) && 0 <= s.holder < |s.pc|
    requires Members(s)
  {
    match s.pc[s.holder]
    case CasNull => s.split == 0
    case LoadSec => s.split > 0
    case CasSec(head) => s.split > 0 && head == s.order[0]
    case Second(sock, secHead) =>
      && s.split < |s.order| && secHead == s.order[s.split] && s.pc[s.order[s.split]].Wait?
      && (s.socket[s.holder] != -1 ==> sock == s.socket[s.holder]) && s.socket[s.order[s.split]] != sock
    case Scan(sock, secHead, last, cur) =>
      && Scanned(s, sock, secHead, last)
      && (cur != NULL ==> s.scan < |s.order| && cur == s.order[s.scan] && s.pc[s.order[s.scan]].Wait?)
    case SpliceTest(secHead, last, cur) => FoundAt(s, secHead, last, cur)
    case SpliceLoad(secHead, last, cur) => FoundAt(s, secHead, last, cur) && s.split > 0
    case SpliceOld(secHead, last, cur, head) => FoundAt(s, secHead, last, cur) && s.split > 0 && head == s.order[0]
    case SpliceNew(secHead, last, cur) => FoundAt(s, secHead, last, cur) && s.split == 0
    case Cut(last, cur) => FoundAt(s, if s.split < |s.order| then s.order[s.split] else NULL, last, cur)
    case SetTail(last, cur) =>
      0 < s.split < |s.order| && last == s.order[s.split - 1] && cur == s.order[s.split] && s.pc[s.order[s.split]].Wait?
    case PassLoad(succ) => s.split < |s.order| && succ == s.order[s.split] && s.pc[s.order[s.split]].Wait?
    case Pass(succ, word) =>
      s.split < |s.order| && succ == s.order[s.split] && s.pc[s.order[s.split]].Wait? && word == s.spin[s.holder]
    case LoadHead => s.split > 0
    case LoadTail(head) => s.split > 0 && head == s.order[0]
    case Join(head, first) => 0 < s.split < |s.order| && head == s.order[0] && first == s.order[s.split]
    case GrantJoined(_) => s.order != [] && s.pc[s.order[0]].Wait?
    case GrantSec(_) => s.order != [] && s.pc[s.order[0]].Wait?
    case LoadFirst => s.split == 0
    case GrantFirst(first) => s.split == 0 && s.order != [] && first == s.order[0]
    case _ => true
  }

  ghost predicate HolderInv(s: State)
    requires Shape(s) && QueueInv(s)
  {
    if s.holder == NULL then s.order == [] && s.tail == NULL
    else
      && 0 <= s.holder < |s.pc|
      && (Holds(s.pc[s.holder]) || s.pc[s.holder].Test? || s.pc[s.holder].Wait?)
      && s.served != [] && s.served[|s.served| - 1] == s.ticket[s.holder]
      && s.ticket[s.holder] < |s.sockets| && s.sockets[s.ticket[s.holder]] == s.socket[s.holder]
      && HolderLinks(s) && SecRemote(s) && HolderLocals(s)
  }

  /** Every thread but the holder is outside, about to queue with a node that is reset, or waiting in the order. */
  ghost predicate Placed(s: State, t: nat)
    requires Shape(s) && t < |s.pc|
  {
    && (t != s.holder ==> !Holds(s.pc[t]) && (Arriving(s.pc[t]) ==> t in s.order))
    && (s.pc[t].ResetSpin? || s.pc[t].Swap? ==> s.next[t] == NULL)
    && (s.pc[t].Swap? ==> s.spin[t].Zero? && s.socket[t] == -1)
  }

  ghost predicate LogInv(s: State)
    requires Shape(s)
  {
    && SocketFifo(s.served, s.sockets)
    && (forall i, k {:trigger NotOvertaken(s, i, s.served[k])} ::
          0 <= i < |s.order| && 0 <= k < |s.served| ==> NotOvertaken(s, i, s.served[k]))
  }

  ghost predicate Inv(s: State) {
    && Shape(s)
    && QueueInv(s)
    && HolderInv(s)
    && (forall t {:trigger Placed(s, t)} :: 0 <= t < |s.pc| ==> Placed(s, t))
    && LogInv(s)
  }
}
