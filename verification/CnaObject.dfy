/** The NUMA-aware lock as an object. */
module CnaObject {
  import opened Runs
  import opened CnaModel
  import opened CnaSteps

  predicate IsNode(s: State, p: int) {
    0 <= p < |s.pc|
  }

  /** Every pointer thread `t` is about to follow points to a node. */
  predicate Safe(s: State, t: nat)
    requires Shape(s) && t < |s.pc|
  {
    match s.pc[t]
    case SetSocket(_) => s.ticket[t] < |s.sockets|
    case Link(prev) => IsNode(s, prev)
    case LoadSec => s.spin[t].Sec?
    case CasSec(head) => IsNode(s, head)
    case First => IsNode(s, s.next[t])
    case Second(_, secHead) => IsNode(s, secHead)
    case Scan(_, _, _, cur) => cur == NULL || IsNode(s, cur)
    case SpliceLoad(_, _, _) => s.spin[t].Sec?
    case SpliceOld(_, _, _, head) => IsNode(s, head) && IsNode(s, s.secTail[head])
    case Cut(last, _) => IsNode(s, last) && s.scan <= |s.order|
    case SetTail(_, _) => s.spin[t].Sec? && IsNode(s, s.spin[t].head)
    case Pass(succ, _) => IsNode(s, succ) && s.split < |s.order|
    case LoadHead => s.spin[t].Sec?
    case Join(head, _) => IsNode(s, head) && IsNode(s, s.secTail[head])
    case GrantSec(head) => IsNode(s, head) && s.order != []
    case GrantJoined(head) => IsNode(s, head) && s.order != []
    case GrantFirst(first) => IsNode(s, first) && s.order != []
    case _ => true
  }

  lemma HolderSafe(s: State)
    requires Shape(s) && Members(s) && 0 <= s.holder < |s.pc| && HolderLinks(s) && HolderLocals(s)
    requires Holds(s.pc[s.holder])
    ensures Safe(s, s.holder)
  {
  }

  /** No step follows a null or wild pointer, and the secondary queue's head is read only when there is one. */
  lemma PointersAreNodes(s: State, t: nat)
    requires Inv(s) && t < |s.pc|
    ensures Safe(s, t)
  {
    if Holds(s.pc[t]) {
      OnlyHolderReleases(s, t);
      HolderSafe(s);
    } else if Unlinked(s.pc[t]) && t != s.holder {
      var i := Position(s, t);
      if s.split < i { assert Waiting(s, i - 1); }
    }
  }

  /** The lock object: the shared word, the nodes of all threads and where each thread is. */
  class CnaLock {
    var tail: int
    var next: seq<int>
    var spin: seq<Word>
    var socket: seq<int>
    var secTail: seq<int>
    var pc: seq<PC>
    ghost var holder: int
    ghost var order: seq<nat>
    ghost var split: nat
    ghost var scan: nat
    ghost var ticket: seq<nat>
    ghost var sockets: seq<int>
    ghost var served: seq<nat>

    ghost function Snapshot(): State
      reads this
    {
      State(tail, next, spin, socket, secTail, pc, holder, order, split, scan, ticket, sockets, served)
    }

    ghost predicate Valid()
      reads this
    {
      Inv(Snapshot())
    }

    constructor (n: nat)
      ensures Valid() && Snapshot() == Init(n)
    {
      tail := NULL;
      next, spin, socket := seq(n, i => NULL), seq(n, i => Zero), seq(n, i => -1);
      secTail, pc := seq(n, i => NULL), seq(n, i => Idle);
      holder, order, split, scan := NULL, [], 0, 0;
      ticket, sockets, served := seq(n, i => 0), [], [];
    }

    ghost predicate Ready(t: nat)
      reads this
    {
      Shape(Snapshot()) && t < |pc| && Safe(Snapshot(), t)
    }

    ghost method Grant(w: nat, rest: seq<nat>)
      requires w < |ticket|
      modifies this`holder, this`order, this`served
      ensures holder == w && order == rest && served == old(served) + [ticket[w]]
    {
      holder, order, served := w, rest, served + [ticket[w]];
    }

    /** One step of `Acquire` by thread `t` up to the exchange on `tail`. */
    method EnqueueStep(t: nat, ghost c: Choice)
      requires Ready(t) && Entering(pc[t]) && !Arriving(pc[t]) && c.t == t
      modifies this
      ensures Snapshot() == Arrive(old(Snapshot()), c)
    {
      match pc[t] {
        case Idle => pc := pc[t := ResetNext];
        case ResetNext => next := next[t := NULL]; pc := pc[t := ResetSpin];
        case ResetSpin =>
          socket := socket[t := -1];
          spin := spin[t := Zero];
          pc := pc[t := Swap];
        case Swap =>
          var prev := tail;
          tail := t;
          ticket, sockets := ticket[t := |sockets|], sockets + [-1];
          if prev == NULL {
            Grant(t, []);
            split := 0;
          } else {
            order := order + [t];
          }
          pc := pc[t := Test(prev)];
      }
    }

    /** One step of `Acquire` by thread `t` after the exchange; it runs on socket `sock`. */
    method AwaitStep(t: nat, sock: nat, ghost c: Choice)
      requires Ready(t) && Arriving(pc[t]) && c.t == t && c.socket == sock
      modifies this
      ensures Snapshot() == Arrive(old(Snapshot()), c)
    {
      match pc[t] {
        case Test(prev) =>
          if prev == NULL {
            spin := spin[t := One];
            pc := pc[t := Critical];
          } else {
            pc := pc[t := SetSocket(prev)];
          }
        case SetSocket(prev) =>
          socket := socket[t := sock];
          sockets := sockets[ticket[t] := sock];
          pc := pc[t := Link(prev)];
        case Link(prev) =>
          next := next[prev := t];
          pc := pc[t := Wait];
        case Wait =>
          if !spin[t].Zero? {
            pc := pc[t := Critical];
          }
      }
    }

    /**
     * One step of `Release` by thread `t` up to the choice of a successor; `keep` is the outcome of
     * `keep_lock_local`.
     */
    method ReleaseStep(t: nat, keep: bool, ghost c: Choice)
      requires Ready(t) && Leaving(pc[t]) && c.t == t && c.keep == keep
      modifies this
      ensures Snapshot() == Leave(old(Snapshot()), c)
    {
      match pc[t] {
        case Critical => pc := pc[t := LoadNext];
        case LoadNext => pc := pc[t := if next[t] != NULL then Decide else CheckSpin];
        case CheckSpin => pc := pc[t := if spin[t] == One then CasNull else LoadSec];
        case CasNull =>
          if tail == t {
            tail := NULL;
            holder := NULL;
            pc := pc[t := Idle];
          } else {
            pc := pc[t := AwaitNext];
          }
        case LoadSec => pc := pc[t := CasSec(spin[t].head)];
        case CasSec(head) =>
          if tail == t {
            tail := secTail[head];
            split := 0;
            pc := pc[t := GrantSec(head)];
          } else {
            pc := pc[t := AwaitNext];
          }
        case AwaitNext =>
          if next[t] != NULL {
            pc := pc[t := Decide];
          }
        case Decide => pc := pc[t := if keep then First else CheckSec];
      }
    }

    /** One step of `find_successor` by thread `t`, running on socket `sock`, while it walks along the main queue. */
    method TraverseStep(t: nat, sock: nat, ghost c: Choice)
      requires Ready(t) && Traversing(pc[t]) && c.t == t && c.socket == sock
      modifies this
      ensures Snapshot() == Traverse(old(Snapshot()), c)
    {
      match pc[t] {
        case First =>
          var first := next[t];
          var mySocket := if socket[t] == -1 then sock else socket[t];
          pc := pc[t := if socket[first] == mySocket then PassLoad(first) else Second(mySocket, first)];
        case Second(mySocket, secHead) =>
          scan := split + 1;
          pc := pc[t := Scan(mySocket, secHead, secHead, next[secHead])];
        case Scan(mySocket, secHead, last, cur) =>
          if cur == NULL {
            pc := pc[t := CheckSec];
          } else if socket[cur] == mySocket {
            pc := pc[t := SpliceTest(secHead, last, cur)];
          } else {
            scan := scan + 1;
            pc := pc[t := Scan(mySocket, secHead, cur, next[cur])];
          }
      }
    }

    /** One step of `find_successor` by thread `t` once a local waiter is found. */
    method SpliceStep(t: nat)
      requires Ready(t) && Splicing(pc[t])
      modifies this
      ensures Snapshot() == Splice(old(Snapshot()), t)
    {
      match pc[t] {
        case SpliceTest(secHead, last, cur) =>
          pc := pc[t := if spin[t].Sec? then SpliceLoad(secHead, last, cur) else SpliceNew(secHead, last, cur)];
        case SpliceLoad(secHead, last, cur) => pc := pc[t := SpliceOld(secHead, last, cur, spin[t].head)];
        case SpliceOld(secHead, last, cur, head) =>
          next := next[secTail[head] := secHead];
          pc := pc[t := Cut(last, cur)];
        case SpliceNew(secHead, last, cur) =>
          spin := spin[t := Sec(secHead)];
          pc := pc[t := Cut(last, cur)];
        case Cut(last, cur) =>
          next := next[last := NULL];
          split := scan;
          pc := pc[t := SetTail(last, cur)];
        case SetTail(last, cur) =>
          secTail := secTail[spin[t].head := last];
          pc := pc[t := PassLoad(cur)];
      }
    }

    /** One step of the end of `Release`, where thread `t` gives the lock to a waiting thread. */
    method HandOverStep(t: nat)
      requires Ready(t) && Holds(pc[t])
      requires !Leaving(pc[t]) && !Traversing(pc[t]) && !Splicing(pc[t])
      modifies this
      ensures Snapshot() == HandOver(old(Snapshot()), t)
    {
      match pc[t] {
        case PassLoad(succ) => pc := pc[t := Pass(succ, spin[t])];
        case Pass(succ, word) =>
          spin := spin[succ := word];
          Grant(succ, Without(order, split));
          pc := pc[t := Idle];
        case CheckSec => pc := pc[t := if spin[t].Sec? then LoadHead else LoadFirst];
        case LoadHead => pc := pc[t := LoadTail(spin[t].head)];
        case LoadTail(head) => pc := pc[t := Join(head, next[t])];
        case Join(head, first) =>
          next := next[secTail[head] := first];
          split := 0;
          pc := pc[t := GrantJoined(head)];
        case LoadFirst => pc := pc[t := GrantFirst(next[t])];
        case GrantJoined(head) => GrantOne(t, head);
        case GrantFirst(first) => GrantOne(t, first);
        case GrantSec(head) => GrantOne(t, head);
      }
    }

    /** The store of 1 to the `spin` of the thread that is to go on. */
    method GrantOne(t: nat, w: nat)
      requires t < |pc| && |pc| == |spin| == |ticket| && w < |pc| && order != []
      modifies this
      ensures Snapshot() == old(Snapshot()).(
                spin := old(spin)[w := One], pc := old(pc)[t := Idle], holder := w,
                order := Without(old(order), 0), split := 0, served := old(served) + [old(ticket)[w]])
    {
      spin := spin[w := One];
      Grant(w, Without(order, 0));
      split := 0;
      pc := pc[t := Idle];
    }

    /** One atomic step of thread `t`, running on socket `sock`; `keep` is the outcome of `keep_lock_local`. */
    method Step(t: nat, sock: nat, keep: bool)
      requires Valid() && t < |pc|
      modifies this
      ensures Valid() && Snapshot() == Next(old(Snapshot()), Choice(t, sock, keep))
    {
      ghost var c := Choice(t, sock, keep);
      PointersAreNodes(Snapshot(), t);
      NextKeepsInv(Snapshot(), c);
      if Arriving(pc[t]) {
        AwaitStep(t, sock, c);
      } else if Entering(pc[t]) {
        EnqueueStep(t, c);
      } else if Leaving(pc[t]) {
        ReleaseStep(t, keep, c);
      } else if Traversing(pc[t]) {
        TraverseStep(t, sock, c);
      } else if Splicing(pc[t]) {
        SpliceStep(t);
      } else {
        HandOverStep(t);
      }
    }
  }
}
