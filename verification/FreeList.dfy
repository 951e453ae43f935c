/** The free list of hash entries, src/shielding_hash.cpp: a fixed pool, with the heap as a fallback. */
module FreeList {
  import opened UtHash

  ghost predicate FreeLinked(xs: seq<Entry>, i: nat)
    requires i < |xs|
    reads xs`freeNext
  {
    xs[i].freeNext == At(xs, i + 1)
  }

  /** The entries `xs` hang together by `next`, the last one ending the list. */
  ghost predicate FreeListed(xs: seq<Entry>)
    reads xs`freeNext
  {
    forall i {:trigger FreeLinked(xs, i)} | 0 <= i < |xs| :: FreeLinked(xs, i)
  }

  /** The free list is acyclic. */
  lemma {:induction false} FreeDistinct(xs: seq<Entry>, i: nat, j: nat)
    requires FreeListed(xs) && i < j < |xs|
    ensures xs[i] != xs[j]
    decreases |xs| - j
  {
    assert FreeLinked(xs, i) && FreeLinked(xs, j);
    if j + 1 < |xs| { FreeDistinct(xs, i + 1, j + 1); }
  }

  lemma FreeTail(xs: seq<Entry>)
    requires FreeListed(xs) && xs != []
    ensures xs[0].freeNext == At(xs[1..], 0) && FreeListed(xs[1..]) && xs[0] !in xs[1..]
  {
    var ys := xs[1..];
    assert FreeLinked(xs, 0);
    forall i | 0 <= i < |ys| ensures FreeLinked(ys, i) && ys[i] != xs[0] {
      assert FreeLinked(xs, i + 1);
      FreeDistinct(xs, 0, i + 1);
    }
  }

  class Pool {
    /** `freelist_pool`. */
    const entries: seq<Entry>
    var head: Entry?
    var initialized: bool
    ghost var free: seq<Entry>

    /** Free entries are entries of the pool, none of which is ever marked as coming from the heap. */
    ghost predicate Valid()
      reads this, free`freeNext, entries`dynamicallyAllocated
    {
      && Distinct(entries)
      && head == At(free, 0)
      && FreeListed(free)
      && (forall x | x in free :: x in entries)
      && (initialized ==> forall i | 0 <= i < |entries| :: !entries[i].dynamicallyAllocated)
      && (!initialized ==> free == [])
    }

    constructor (entries: seq<Entry>)
      requires Distinct(entries)
      ensures Valid() && this.entries == entries && !initialized
    {
      this.entries := entries;
      head, initialized, free := null, false, [];
    }

    /** `init_freelist`: the first call puts the whole pool into the list, any further call does nothing. */
    method Init()
      requires Valid() && entries != []
      modifies this, entries
      ensures Valid() && initialized
      ensures old(initialized) ==> free == old(free) && unchanged(entries)
      ensures !old(initialized) ==> free == entries
    {
      if initialized { return; }
      for i := 0 to |entries|
        modifies entries
      {
        entries[i].Clear();
      }
      for i := 0 to |entries| - 1
        modifies entries
        invariant forall j | 0 <= j < i :: !entries[j].dynamicallyAllocated && entries[j].freeNext == entries[j + 1]
      {
        entries[i].freeNext := entries[i + 1];
        entries[i].dynamicallyAllocated := false;
      }
      entries[|entries| - 1].freeNext := null;
      entries[|entries| - 1].dynamicallyAllocated := false;
      head, free, initialized := entries[0], entries, true;
      forall i | 0 <= i < |free| ensures FreeLinked(free, i) {}
    }

    /** `freelist_pop`: the first free entry, or a new one from the heap when there is none. */
    method Pop() returns (e: Entry)
      requires Valid() && entries != []
      modifies this, free`dynamicallyAllocated, if initialized then [] else entries
      ensures Valid() && initialized
      ensures var had := if old(initialized) then old(free) else entries;
              if had == [] then free == [] && fresh(e) && e.dynamicallyAllocated
              else e == had[0] && free == had[1..] && !e.dynamicallyAllocated && e !in free
    {
      if !initialized {
        Init();
      }
      if head != null {
        e := head;
        assert free[0] in free;
        FreeTail(free);
        head, free := head.freeNext, free[1..];
        e.dynamicallyAllocated := false;
      } else {
        e := new Entry();
        e.dynamicallyAllocated := true;
        e.freeNext := null;
      }
    }

    /** `freelist_push`: an entry of the pool becomes the first free one, a heap entry is given back to the heap. */
    method Push(e: Entry)
      requires Valid() && initialized && e !in free && (e in entries || e.dynamicallyAllocated)
      modifies this`head, this`free, e`lockPtr, e`recCount, e`freeNext
      ensures Valid() && initialized
      ensures free == if e.dynamicallyAllocated then old(free) else [e] + old(free)
    {
      if e.dynamicallyAllocated { return; }
      e.lockPtr := 0;
      e.recCount := 0;
      e.freeNext := head;
      ghost var was := free;
      head, free := e, [e] + free;
      forall i | 0 <= i < |free| ensures FreeLinked(free, i) {
        if i > 0 { assert free[i] == was[i - 1] && old(FreeLinked(was, i - 1)); }
      }
    }
  }
}
