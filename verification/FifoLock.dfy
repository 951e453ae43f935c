/** The abstract first-come-first-served lock that every FIFO queue lock of the repository refines. */
module FifoLock {

  /** What one atomic step of a concrete lock means to an observer. */
  datatype Event = Tau | Enqueue(t: nat) | Enter(t: nat) | Exit(t: nat)

  /** `arrivals` is every thread that ever queued, in order; the first `served` of them have left. */
  datatype Lock = Lock(arrivals: seq<nat>, served: nat, held: bool) {
    predicate Valid() {
      served <= |arrivals| && (held ==> served < |arrivals|)
    }

    /** The threads still queued, the holder (if any) first. */
    function Queue(): seq<nat>
      requires Valid()
    {
      arrivals[served..]
    }
  }

  const FREE := Lock([], 0, false)

  /** A thread may queue once, the front may enter an empty lock, and only the holder may leave. */
  predicate Allowed(a: Lock, e: Event) {
    a.Valid() &&
    match e
    case Tau => true
    case Enqueue(t) => t !in a.Queue()
    case Enter(t) => !a.held && a.Queue() != [] && a.Queue()[0] == t
    case Exit(t) => a.held && a.Queue()[0] == t
  }

  function Apply(a: Lock, e: Event): Lock {
    match e
    case Tau => a
    case Enqueue(t) => a.(arrivals := a.arrivals + [t])
    case Enter(_) => a.(held := true)
    case Exit(_) => a.(served := a.served + 1, held := false)
  }

  function Run(a: Lock, es: seq<Event>): Lock {
    if es == [] then a else Apply(Run(a, es[..|es| - 1]), es[|es| - 1])
  }

  /** Every event of the trace was allowed in the state it happened in. */
  predicate Legal(a: Lock, es: seq<Event>) {
    es == [] || (Legal(a, es[..|es| - 1]) && Allowed(Run(a, es[..|es| - 1]), es[|es| - 1]))
  }

  function Enqueues(es: seq<Event>): seq<nat> {
    if es == [] then []
    else Enqueues(es[..|es| - 1]) + (if es[|es| - 1].Enqueue? then [es[|es| - 1].t] else [])
  }

  function Enters(es: seq<Event>): seq<nat> {
    if es == [] then []
    else Enters(es[..|es| - 1]) + (if es[|es| - 1].Enter? then [es[|es| - 1].t] else [])
  }

  function Exits(es: seq<Event>): seq<nat> {
    if es == [] then []
    else Exits(es[..|es| - 1]) + (if es[|es| - 1].Exit? then [es[|es| - 1].t] else [])
  }

  lemma {:induction false} RunLogs(es: seq<Event>)
    requires Legal(FREE, es)
    ensures Run(FREE, es).Valid()
    ensures Run(FREE, es).arrivals == Enqueues(es)
    ensures Exits(es) == Enqueues(es)[..Run(FREE, es).served]
    ensures Enters(es) == Enqueues(es)[..Run(FREE, es).served + if Run(FREE, es).held then 1 else 0]
  {
    if es != [] {
      RunLogs(es[..|es| - 1]);
    }
  }

  /**
   * Mutual exclusion and FIFO order of a whole run: threads enter in exactly the order in which they
   * queued, they leave in the order in which they entered, and at most one entry is not yet left.
   */
  lemma FirstComeFirstServed(es: seq<Event>)
    requires Legal(FREE, es)
    ensures Enters(es) <= Enqueues(es)
    ensures Exits(es) <= Enters(es)
    ensures |Enters(es)| <= |Exits(es)| + 1
  {
    RunLogs(es);
  }
}
