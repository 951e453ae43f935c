/**
 * The hybrid shield, src/shielding_hash.cpp and inc/shielding_hash.h: four slots at first, then, for good, a
 * hash table whose entries come from a pool.
 */
module ShieldHash {
  import opened ShieldSpec
  import opened ShieldDepth
  import opened LockSlots
  import opened UtHash
  import opened FreeList

  ghost predicate NodeCount(byKey: map<nat, Entry>, nodes: set<Entry>, m: Counts, l: nat)
    reads nodes`recCount
  {
    l in byKey && byKey[l] in nodes && l in m && byKey[l].recCount == m[l]
  }

  /** The hash entries hold exactly the locks of `m` with their counts. */
  ghost predicate NodesHold(byKey: map<nat, Entry>, nodes: set<Entry>, m: Counts)
    reads nodes`recCount
  {
    m.Keys == byKey.Keys &&
    forall l {:trigger NodeCount(byKey, nodes, m, l)} | l in m :: NodeCount(byKey, nodes, m, l)
  }

  /** A hash entry comes from the heap, or from the pool and is not free. */
  ghost predicate InUse(entries: seq<Entry>, free: seq<Entry>, x: Entry)
    reads x`dynamicallyAllocated
  {
    if x.dynamicallyAllocated then x !in entries && x !in free else x in entries && x !in free
  }

  ghost predicate Accounted(free: seq<Entry>, nodes: set<Entry>, e: Entry) {
    e in free || e in nodes
  }

  /** The free list and the pool entries in the hash table partition the pool; heap entries are never in the list. */
  ghost predicate Conserved(entries: seq<Entry>, free: seq<Entry>, nodes: set<Entry>)
    reads nodes`dynamicallyAllocated
  {
    && (forall x {:trigger InUse(entries, free, x)} | x in nodes :: InUse(entries, free, x))
    && (forall e {:trigger Accounted(free, nodes, e)} | e in entries :: Accounted(free, nodes, e))
  }

  /** A popped entry, filled in for the lock `l`, held `n` times. */
  method NewNode(pool: Pool, l: nat, n: nat) returns (e: Entry)
    requires pool.Valid() && pool.initialized && pool.entries != []
    modifies pool, pool.free
    ensures pool.Valid() && pool.initialized && e.lockPtr == l && e.recCount == n
    ensures if old(pool.free) == [] then pool.free == [] && fresh(e) && e.dynamicallyAllocated
            else
              e == old(pool.free)[0] && pool.free == old(pool.free)[1..] && !e.dynamicallyAllocated && e !in pool.free
  {
    e := pool.Pop();
    e.lockPtr := l;
    e.recCount := n;
  }

  lemma ApartFromFree(entries: seq<Entry>, free: seq<Entry>, nodes: set<Entry>)
    requires Conserved(entries, free, nodes)
    ensures forall x | x in nodes :: x !in free
  {
    forall x | x in nodes ensures x !in free { assert InUse(entries, free, x); }
  }

  /** What became of the first free entry, or of a new one, when the hash table got `e`. */
  ghost predicate Popped(entries: seq<Entry>, free: seq<Entry>, free': seq<Entry>, e: Entry)
    reads e`dynamicallyAllocated
  {
    if free == [] then free' == [] && e.dynamicallyAllocated && e !in entries
    else e == free[0] && free' == free[1..] && !e.dynamicallyAllocated && e in entries && e !in free'
  }

  lemma PopConserves(entries: seq<Entry>, free: seq<Entry>, nodes: set<Entry>, free': seq<Entry>, e: Entry)
    requires Conserved(entries, free, nodes) && Popped(entries, free, free', e)
    ensures Conserved(entries, free', nodes + {e})
  {
    forall x | x in nodes + {e} ensures InUse(entries, free', x) {
      if x != e { assert InUse(entries, free, x); }
    }
    forall x | x in entries ensures Accounted(free', nodes + {e}, x) {
      assert Accounted(free, nodes, x);
    }
  }

  lemma AddHolds(byKey: map<nat, Entry>, nodes: set<Entry>, m: Counts, e: Entry)
    requires NodesHold(byKey, nodes, m) && e.lockPtr !in m
    ensures NodesHold(byKey[e.lockPtr := e], nodes + {e}, m[e.lockPtr := e.recCount])
  {
    var byKey', nodes', m' := byKey[e.lockPtr := e], nodes + {e}, m[e.lockPtr := e.recCount];
    forall l | l in m' ensures NodeCount(byKey', nodes', m', l) {
      if l != e.lockPtr { assert NodeCount(byKey, nodes, m, l); }
    }
  }

  /** Hash mode: `freelist_pop` and HASH_ADD_PTR for the lock `l`, held `n` times. */
  method AddNode(table: Table, pool: Pool, l: nat, n: nat) returns (e: Entry)
    requires table.Valid() && pool.Valid() && pool.initialized && pool.entries != []
    requires Conserved(pool.entries, pool.free, table.view.nodes)
    requires l !in table.view.byKey
    modifies pool, pool.free, table, table.hash.tbl.buckets,
             table.view.nodes`next, table.view.nodes`hhPrev, table.view.nodes`hhNext
    ensures table.Valid() && pool.Valid() && pool.initialized && e.lockPtr == l && e.recCount == n
    ensures table.view.nodes == old(table.view.nodes) + {e} && table.view.byKey == old(table.view.byKey)[l := e]
    ensures Popped(pool.entries, old(pool.free), pool.free, e)
    ensures old(pool.free) == [] ==> fresh(e)
    ensures fresh(table.hash.tbl.buckets) || table.hash.tbl.buckets == old(table.hash.tbl.buckets)
  {
    ApartFromFree(pool.entries, pool.free, table.view.nodes);
    e := NewNode(pool, l, n);
    table.Add(e);
  }

  /** The same, seen as the lock counts `m`. */
  method AddLock(table: Table, pool: Pool, l: nat, n: nat, ghost m: Counts)
    requires table.Valid() && pool.Valid() && pool.initialized && pool.entries != []
    requires Conserved(pool.entries, pool.free, table.view.nodes)
    requires NodesHold(table.view.byKey, table.view.nodes, m) && l !in m
    modifies pool, pool.free, table, table.hash.tbl.buckets,
             table.view.nodes`next, table.view.nodes`hhPrev, table.view.nodes`hhNext
    ensures table.Valid() && pool.Valid() && pool.initialized
    ensures Conserved(pool.entries, pool.free, table.view.nodes)
    ensures NodesHold(table.view.byKey, table.view.nodes, m[l := n])
    ensures pool.free == if old(pool.free) == [] then [] else old(pool.free)[1..]
    ensures fresh(table.hash.tbl.buckets) || table.hash.tbl.buckets == old(table.hash.tbl.buckets)
    ensures forall x | x in table.view.nodes && x !in old(table.view.nodes) :: fresh(x) || x in pool.entries
    ensures forall x | x in table.view.nodes && x !in old(table.view.nodes) && fresh(x) :: old(pool.free) == []
  {
    ghost var free, nodes, byKey := pool.free, table.view.nodes, table.view.byKey;
    ApartFromFree(pool.entries, free, nodes);
    var e := AddNode(table, pool, l, n);
    PopConserves(pool.entries, free, nodes, pool.free, e);
    AddHolds(byKey, nodes, m, e);
  }

  lemma SetHolds(byKey: map<nat, Entry>, nodes: set<Entry>, m: Counts, l: nat, n: nat)
    requires l in m && m.Keys == byKey.Keys && byKey[l] in nodes && byKey[l].recCount == n
    requires forall k | k in m && k != l :: NodeCount(byKey, nodes, m, k)
    ensures NodesHold(byKey, nodes, m[l := n])
  {
    forall k | k in m ensures NodeCount(byKey, nodes, m[l := n], k) {
      if k != l { assert NodeCount(byKey, nodes, m, k); }
    }
  }

  /** `entry->rec_count` of the lock `l` becomes `n`. */
  method SetCount(table: Table, e: Entry, l: nat, n: nat, ghost m: Counts)
    requires table.Valid() && l in m && NodesHold(table.view.byKey, table.view.nodes, m) && e == table.view.byKey[l]
    modifies e`recCount
    ensures table.Valid() && NodesHold(table.view.byKey, table.view.nodes, m[l := n])
  {
    ghost var byKey, nodes := table.view.byKey, table.view.nodes;
    assert NodeCount(byKey, nodes, m, l);
    forall k | k in m && k != l ensures byKey[k] != e && NodeCount(byKey, nodes, m, k) {
      assert NodeCount(byKey, nodes, m, k);
      assert byKey[k].lockPtr == k && byKey[l].lockPtr == l;
    }
    e.recCount := n;
    forall k | k in m && k != l ensures NodeCount(byKey, nodes, m, k) {
      assert old(NodeCount(byKey, nodes, m, k));
    }
    SetHolds(byKey, nodes, m, l, n);
  }

  /** What became of an entry that left the hash table. */
  ghost predicate Pushed(free: seq<Entry>, free': seq<Entry>, e: Entry)
    reads e`dynamicallyAllocated
  {
    free' == if e.dynamicallyAllocated then free else [e] + free
  }

  lemma PushConserves(entries: seq<Entry>, free: seq<Entry>, nodes: set<Entry>, free': seq<Entry>, e: Entry)
    requires Conserved(entries, free, nodes) && e in nodes && Pushed(free, free', e)
    ensures Conserved(entries, free', nodes - {e})
  {
    assert InUse(entries, free, e);
    forall x | x in nodes - {e} ensures InUse(entries, free', x) {
      assert InUse(entries, free, x);
    }
    forall x | x in entries ensures Accounted(free', nodes - {e}, x) {
      assert Accounted(free, nodes, x);
      assert x == e ==> free'[0] == x;
    }
  }

  lemma DropHolds(byKey: map<nat, Entry>, nodes: set<Entry>, m: Counts, l: nat)
    requires NodesHold(byKey, nodes, m) && l in m && Keyed(nodes, byKey)
    ensures NodesHold(byKey - {l}, nodes - {byKey[l]}, m - {l})
  {
    var byKey', nodes', m' := byKey - {l}, nodes - {byKey[l]}, m - {l};
    forall k | k in m' ensures NodeCount(byKey', nodes', m', k) {
      assert NodeCount(byKey, nodes, m, k) && byKey[k].lockPtr == k && byKey[l].lockPtr == l;
    }
  }

  /** Hash mode: HASH_DEL and `freelist_push`. */
  method RemoveNode(table: Table, pool: Pool, e: Entry)
    requires table.Valid() && pool.Valid() && pool.initialized && e in table.view.nodes
    requires Conserved(pool.entries, pool.free, table.view.nodes)
    modifies pool`head, pool`free, e`lockPtr, e`recCount, e`freeNext, table, table.hash.tbl.buckets,
             table.view.nodes`prev, table.view.nodes`next, table.view.nodes`hhPrev, table.view.nodes`hhNext
    ensures table.Valid() && pool.Valid() && pool.initialized
    ensures table.view.nodes == old(table.view.nodes) - {e}
    ensures table.view.byKey == old(table.view.byKey) - {old(e.lockPtr)}
    ensures Pushed(old(pool.free), pool.free, e)
    ensures table.hash.tbl.buckets == old(table.hash.tbl.buckets)
  {
    ApartFromFree(pool.entries, pool.free, table.view.nodes);
    assert InUse(pool.entries, pool.free, e);
    table.Delete(e);
    pool.Push(e);
  }

  /** The same, seen as the lock counts `m`. */
  method RemoveLock(table: Table, pool: Pool, e: Entry, l: nat, ghost m: Counts)
    requires table.Valid() && pool.Valid() && pool.initialized
    requires Conserved(pool.entries, pool.free, table.view.nodes)
    requires NodesHold(table.view.byKey, table.view.nodes, m) && l in m && e == table.view.byKey[l]
    modifies pool`head, pool`free, e`lockPtr, e`recCount, e`freeNext, table, table.hash.tbl.buckets,
             table.view.nodes`prev, table.view.nodes`next, table.view.nodes`hhPrev, table.view.nodes`hhNext
    ensures table.Valid() && pool.Valid() && pool.initialized
    ensures Conserved(pool.entries, pool.free, table.view.nodes)
    ensures NodesHold(table.view.byKey, table.view.nodes, m - {l})
    ensures table.view.nodes == old(table.view.nodes) - {e}
    ensures table.hash.tbl.buckets == old(table.hash.tbl.buckets)
  {
    ghost var free, nodes, byKey := pool.free, table.view.nodes, table.view.byKey;
    assert NodeCount(byKey, nodes, m, l);
    DropHolds(byKey, nodes, m, l);
    PushConserves(pool.entries, free, nodes, if e.dynamicallyAllocated then free else [e] + free, e);
    RemoveNode(table, pool, e);
  }

  /** Hash mode: table, pool and their entries hold the lock counts `m`. */
  ghost predicate HashReady(table: Table, pool: Pool, m: Counts)
    reads table, table.hash.tbl.buckets, table.view.nodes,
          pool, pool.free`freeNext, pool.entries`dynamicallyAllocated
  {
    && table.Valid() && pool.Valid() && pool.initialized && pool.entries != []
    && Conserved(pool.entries, pool.free, table.view.nodes)
    && NodesHold(table.view.byKey, table.view.nodes, m)
  }

  /** The free list is full and the hash table is empty. */
  lemma ReadyAtFirst(table: Table, pool: Pool)
    requires table.Valid() && pool.Valid() && pool.initialized && pool.entries != []
    requires table.view.nodes == {} && table.view.byKey == map[] && pool.free == pool.entries
    ensures HashReady(table, pool, map[])
  {
    forall e | e in pool.entries ensures Accounted(pool.free, {}, e) {}
  }

  /**
   * The move from the slots to the hash table in `IncrementRef`. It takes its entries from the pool, which
   * is large enough, never from the heap.
   */
  method Migrate(lockTable: array<Slot>, table: Table, pool: Pool, ghost m: Counts)
    requires lockTable.Length == MAX_LOCKS && Holds(lockTable[..], m)
    requires table.Valid() && table.view.nodes == {} && table.view.byKey == map[]
    requires pool.Valid() && !pool.initialized && |pool.entries| >= MAX_LOCKS
    modifies pool, pool.entries, table, table.hash.tbl.buckets
    ensures HashReady(table, pool, m)
    ensures forall x | x in table.view.nodes :: x in pool.entries
    ensures pool.free == pool.entries[MAX_LOCKS..]
    ensures fresh(table.hash.tbl.buckets) || table.hash.tbl.buckets == old(table.hash.tbl.buckets)
  {
    hide Represents;
    pool.Init();
    ReadyAtFirst(table, pool);
    ghost var done: Counts := map[];
    ghost var slots := lockTable[..];
    for i := 0 to MAX_LOCKS
      invariant HashReady(table, pool, done) && Holds(slots[..i], done)
      invariant lockTable[..] == slots
      invariant pool.free == pool.entries[i..]
      invariant forall x | x in table.view.nodes :: x in pool.entries
      invariant fresh(table.hash.tbl.buckets) || table.hash.tbl.buckets == old(table.hash.tbl.buckets)
    {
      NextSlotIsNew(slots, i, done);
      AppendHolds(slots[..i], slots[i], done);
      AddLock(table, pool, lockTable[i].lockPtr, lockTable[i].recCount, done);
      done := done[slots[i].lockPtr := slots[i].recCount];
      assert slots[..i + 1] == slots[..i] + [slots[i]];
    }
    assert slots[..MAX_LOCKS] == slots;
    HoldsUnique(slots, done, m);
  }

  /** The result of `lookup`. */
  datatype Ref = Null | InSlot(slot: nat) | InNode(node: Entry)

  predicate FourOrMore(m: Counts) {
    |m| >= 4
  }

  lemma OneMoreLock(m: Counts, l: nat, n: nat)
    requires l !in m && |m| == n < 4
    ensures FourOrMore(Increment(m, l)) <==> n == 3
  {
  }

  /** At some point of the sequence the thread held four locks. */
  predicate HeldFour(ops: seq<Op>) {
    ops != [] && (HeldFour(ops[..|ops| - 1]) || FourOrMore(ShieldSpec.Run(ops)))
  }

  /** The thread-local state. `lock_fn` and `unlock_fn` are logged in `calls`. */
  class HashShield {
    const lockTable: array<Slot>
    const table: Table
    const pool: Pool
    var lockCount: nat
    var calls: seq<Call>
    ghost var counts: Counts

    /** A count of five locks marks hash mode, which is never left; with four slots full the move is made at once. */
    ghost predicate Valid()
      reads this, lockTable, table, table.hash.tbl.buckets,
            table.view.nodes, pool, pool.free`freeNext, pool.entries`dynamicallyAllocated
    {
      && lockTable.Length == MAX_LOCKS && Positive(counts)
      && if lockCount <= MAX_LOCKS then
           && lockCount < MAX_LOCKS && Holds(lockTable[..lockCount], counts)
           && table.Valid() && table.view.nodes == {} && table.view.byKey == map[]
           && pool.Valid() && !pool.initialized && |pool.entries| >= MAX_LOCKS
         else
           lockCount == MAX_LOCKS + 1 && HashReady(table, pool, counts)
    }

    /** The pool has a compile-time size, 10 in the C++ version and 20 in the C version. */
    constructor (pool: Pool)
      requires pool.Valid() && !pool.initialized && |pool.entries| >= MAX_LOCKS
      ensures Valid() && counts == map[] && calls == [] && this.pool == pool
      ensures fresh(lockTable) && fresh(table) && fresh(table.hash.tbl.buckets)
    {
      lockTable := new Slot[MAX_LOCKS](_ => Slot(0, 0));
      table := new Table();
      this.pool := pool;
      lockCount, calls, counts := 0, [], map[];
    }

    predicate Hashed()
      reads this
    {
      lockCount > 4
    }

    /** In array mode there are less than four locks. */
    lemma FewInSlots()
      requires Valid() && !Hashed()
      ensures |counts| == lockCount && !FourOrMore(counts)
    {
      HoldsSize(lockTable[..lockCount], counts);
    }

    ghost predicate RefersTo(entry: Ref, l: nat)
      reads this, lockTable, table
    {
      match entry
      case Null => l !in counts
      case InSlot(i) => lockCount <= MAX_LOCKS && i < lockCount <= lockTable.Length && l in counts
          && lockTable[i] == Slot(l, counts[l])
      case InNode(e) =>
        l in counts && lockCount > MAX_LOCKS && l in table.view.byKey && e == table.view.byKey[l]
            && e in table.view.nodes
    }

    /** `lookup`. */
    method Lookup(l: nat) returns (entry: Ref)
      requires Valid()
      ensures Valid() && RefersTo(entry, l) && (entry.Null? <==> l !in counts)
      ensures Footprint() == old(Footprint()) && Hashed() == old(Hashed())
    {
      if lockCount <= MAX_LOCKS {
        var i := FindSlot(lockTable, lockCount, l, counts);
        entry := if i == -1 then Null else InSlot(i);
      } else {
        var e := table.Find(l);
        entry := if e == null then Null else InNode(e);
      }
    }

    /** Everything that an operation may change, but for new entries and buckets. */
    ghost function Footprint(): set<object>
      reads this, table
    {
      {this, lockTable, table, table.hash.tbl.buckets, pool} + table.view.nodes + set x | x in pool.entries
    }

    /** `IncrementRef` for a lock in slot `i`. */
    method BumpSlot(l: nat, i: nat)
      requires Valid() && RefersTo(InSlot(i), l)
      modifies this`counts, lockTable
      ensures Valid() && counts == Increment(old(counts), l)
    {
      ghost var slots := lockTable[..lockCount];
      BumpHolds(slots, i, counts);
      lockTable[i] := lockTable[i].(recCount := lockTable[i].recCount + 1);
      counts := Increment(counts, l);
      assert lockTable[..lockCount] == slots[i := slots[i].(recCount := slots[i].recCount + 1)];
    }

    /** `IncrementRef` for a lock in the hash entry `e`. */
    method BumpNode(l: nat, e: Entry)
      requires Valid() && RefersTo(InNode(e), l)
      modifies this`counts, e`recCount
      ensures Valid() && counts == Increment(old(counts), l)
    {
      assert NodeCount(table.view.byKey, table.view.nodes, counts, l);
      SetCount(table, e, l, e.recCount + 1, counts);
      counts := Increment(counts, l);
    }

    /** `IncrementRef` for a new lock in array mode; the fourth lock brings on the move to the hash table. */
    method AppendSlot(l: nat)
      requires Valid() && l !in counts && lockCount < MAX_LOCKS
      modifies this`counts, this`lockCount, lockTable, pool, pool.entries, table, table.hash.tbl.buckets
      ensures Valid() && counts == Increment(old(counts), l)
      ensures Hashed() <==> FourOrMore(counts)
      ensures fresh(Footprint() - old(Footprint()))
    {
      hide Represents, FourOrMore;
      FewInSlots();
      OneMoreLock(counts, l, lockCount);
      ghost var slots := lockTable[..lockCount];
      AppendHolds(slots, Slot(l, 1), counts);
      lockTable[lockCount] := Slot(l, 1);
      lockCount := lockCount + 1;
      counts := Increment(counts, l);
      assert lockTable[..lockCount] == slots + [Slot(l, 1)];
      if lockCount == MAX_LOCKS {
        assert lockTable[..] == lockTable[..lockCount];
        Migrate(lockTable, table, pool, counts);
        lockCount := lockCount + 1;
      }
    }

    /** `IncrementRef` for a new lock in hash mode. */
    method AppendNode(l: nat)
      requires Valid() && l !in counts && lockCount > MAX_LOCKS
      modifies this`counts, pool, pool.entries, table, table.hash.tbl.buckets, table.view.nodes
      ensures Valid() && counts == Increment(old(counts), l)
      ensures fresh(Footprint() - old(Footprint()))
    {
      hide Represents, Conserved;
      assert forall i | 0 <= i < |pool.free| :: pool.free[i] in pool.entries;
      AddLock(table, pool, l, 1, counts);
      counts := Increment(counts, l);
    }

    /** `IncrementRef`, `entry` being null or where the lock is. */
    method IncrementRef(l: nat, entry: Ref)
      requires Valid() && (entry.Null? || RefersTo(entry, l))
      modifies Footprint()
      ensures Valid() && counts == Increment(old(counts), l) && calls == old(calls)
      ensures Hashed() <==> old(Hashed()) || FourOrMore(counts)
      ensures fresh(Footprint() - old(Footprint()))
    {
      hide HashReady, Holds, Represents;
      var found := entry;
      if found.Null? {
        found := Lookup(l);
      }
      match found {
        case Null =>
          if lockCount < MAX_LOCKS { AppendSlot(l); } else { AppendNode(l); }
        case InSlot(i) =>
          BumpSlot(l, i);
          FewInSlots();
        case InNode(e) => BumpNode(l, e);
      }
    }

    /** `DecrementRef` for a lock in slot `i`; the last slot moves into the place of a lock that is let go. */
    method DropSlot(l: nat, i: nat) returns (left: int)
      requires Valid() && RefersTo(InSlot(i), l)
      modifies this`counts, this`lockCount, lockTable
      ensures Valid() && counts == Decrement(old(counts), l)
      ensures left == old(counts)[l] - 1 && !Hashed() && !FourOrMore(counts)
    {
      ghost var slots := lockTable[..lockCount];
      var val := lockTable[i].recCount;
      if val > 1 {
        UpdateHolds(slots, i, val - 1, counts);
        lockTable[i] := lockTable[i].(recCount := lockTable[i].recCount - 1);
        counts := Decrement(counts, l);
        assert lockTable[..lockCount] == slots[i := slots[i].(recCount := val - 1)];
        left := val - 1;
      } else {
        DeleteHolds(slots, i, counts);
        lockCount := lockCount - 1;
        lockTable[i] := lockTable[lockCount];
        counts := Decrement(counts, l);
        assert lockTable[..lockCount] == slots[i := slots[|slots| - 1]][..|slots| - 1];
        left := 0;
      }
      FewInSlots();
    }

    /** `DecrementRef` for a lock in the hash entry `e`. */
    method DropNode(l: nat, e: Entry) returns (left: int)
      requires Valid() && RefersTo(InNode(e), l)
      modifies this`counts, pool, e, table, table.hash.tbl.buckets, table.view.nodes
      ensures Valid() && counts == Decrement(old(counts), l)
      ensures left == old(counts)[l] - 1
      ensures Footprint() <= old(Footprint())
    {
      hide Represents, Conserved;
      assert NodeCount(table.view.byKey, table.view.nodes, counts, l);
      var val := e.recCount;
      if val > 1 {
        SetCount(table, e, l, val - 1, counts);
        left := val - 1;
      } else {
        RemoveLock(table, pool, e, l, counts);
        left := 0;
      }
      counts := Decrement(counts, l);
    }

    /** `DecrementRef`: the count that is left, or -1 for a lock that is not held. */
    method DecrementRef(l: nat, entry: Ref) returns (left: int)
      requires Valid() && (entry.Null? || RefersTo(entry, l))
      modifies Footprint()
      ensures Valid() && counts == Decrement(old(counts), l) && calls == old(calls)
      ensures left == if l in old(counts) then old(counts)[l] - 1 else -1
      ensures Hashed() <==> old(Hashed()) || FourOrMore(counts)
      ensures Footprint() <= old(Footprint())
    {
      hide HashReady, Holds, Represents;
      var found := entry;
      if found.Null? {
        found := Lookup(l);
      }
      match found {
        case Null =>
          assert counts - {l} == counts;
          left := -1;
          if !Hashed() { FewInSlots(); }
        case InSlot(i) => left := DropSlot(l, i);
        case InNode(e) => left := DropNode(l, e);
      }
    }

    /** What both operations know at first. */
    lemma AtFirst()
      requires Valid()
      ensures Positive(counts) && this in Footprint() && (!Hashed() ==> !FourOrMore(counts))
    {
      if !Hashed() { FewInSlots(); }
    }

    /** A call of `lock_fn` or `unlock_fn`; `entry`, if not null, still refers to lock `l`. */
    method CallThrough(call: Call, ghost entry: Ref, ghost l: nat)
      requires Valid() && (entry.Null? || RefersTo(entry, l))
      modifies this`calls
      ensures Valid() && calls == old(calls) + [call] && Footprint() == old(Footprint())
      ensures Hashed() == old(Hashed()) && (entry.Null? || RefersTo(entry, l))
    {
      calls := calls + [call];
    }

    /** LS_ACQUIRE. After UnbalancedLock the C++ version aborts; the C version goes on. */
    method Acquire(l: nat, reentrant: bool) returns (st: Status)
      requires Valid()
      modifies Footprint()
      ensures Valid() && counts == After(old(counts), Op.Acquire(l, reentrant))
      ensures Answers(st, Op.Acquire(l, reentrant), Count(old(counts), l))
      ensures calls == old(calls) + CallsOf(old(counts), Op.Acquire(l, reentrant))
      ensures Hashed() <==> old(Hashed()) || FourOrMore(counts)
      ensures fresh(Footprint() - old(Footprint()))
    {
      hide Valid, Hashed, RefersTo, FourOrMore, After, CallsOf, StatusOf, Answers;
      AtFirst();
      AcquireCases(counts, l, reentrant);
      assert calls + [] == calls;
      var entry := Lookup(l);
      if entry.Null? {
        CallThrough(Lock(l), entry, l);
        IncrementRef(l, entry);
        return AcquireNow;
      }
      if reentrant {
        IncrementRef(l, entry);
        return SkipAcquisition;
      }
      st := UnbalancedLock;
    }

    /** LS_RELEASE. After UnbalancedUnlock the C++ version aborts; the C version goes on. */
    method Release(l: nat, reentrant: bool) returns (st: Status)
      requires Valid()
      modifies Footprint()
      ensures Valid() && counts == After(old(counts), Op.Release(l, reentrant))
      ensures Answers(st, Op.Release(l, reentrant), Count(old(counts), l))
      ensures calls == old(calls) + CallsOf(old(counts), Op.Release(l, reentrant))
      ensures Hashed() <==> old(Hashed()) || FourOrMore(counts)
      ensures fresh(Footprint() - old(Footprint()))
    {
      hide Valid, Hashed, RefersTo, FourOrMore, After, CallsOf, StatusOf, Answers;
      AtFirst();
      ReleaseCases(counts, l, reentrant);
      assert calls + [] == calls;
      var entry := Lookup(l);
      if entry.Null? {
        return UnbalancedUnlock;
      }
      var left;
      if reentrant {
        left := DecrementRef(l, entry);
        if left == 0 {
          CallThrough(Unlock(l), Null, l);
          return ReleaseNow;
        }
        return SkipRelease;
      }
      CallThrough(Unlock(l), entry, l);
      left := DecrementRef(l, entry);
      st := ReleaseNow;
    }

    /** LS_ACQUIRE or LS_RELEASE. */
    method Do(op: Op) returns (st: Status)
      requires Valid()
      modifies Footprint()
      ensures Valid() && counts == After(old(counts), op)
      ensures st == StatusOf(old(counts), op) && calls == old(calls) + CallsOf(old(counts), op)
      ensures Hashed() <==> old(Hashed()) || FourOrMore(counts)
      ensures fresh(Footprint() - old(Footprint()))
    {
      assert Positive(counts);
      hide *;
      ghost var was := counts;
      match op {
        case Acquire(l, reentrant) => st := Acquire(l, reentrant);
        case Release(l, reentrant) => st := Release(l, reentrant);
      }
      StatusAnswers(was, op, st);
    }

    /**
     * Any sequence of operations of a thread that holds no lock yet: statuses, calls underneath and final
     * counts are those of the map. (The C++ version stops at the first unbalanced operation.)
     */
    method Run(ops: seq<Op>) returns (sts: seq<Status>)
      requires Valid() && counts == map[] && calls == []
      modifies Footprint()
      ensures Valid() && counts == ShieldSpec.Run(ops) && calls == Calls(ops) && sts == Statuses(ops)
      ensures Answered(ops, sts)
      ensures Hashed() <==> old(Hashed()) || HeldFour(ops)
    {
      hide HashReady, Holds, Represents, Positive, FourOrMore, Hashed, Answered;
      sts := [];
      for k := 0 to |ops|
        invariant Valid() && fresh(Footprint() - old(Footprint()))
        invariant Hashed() <==> old(Hashed()) || HeldFour(ops[..k])
        invariant counts == ShieldSpec.Run(ops[..k]) && calls == Calls(ops[..k]) && sts == Statuses(ops[..k])
      {
        assert ops[..k + 1][..k] == ops[..k];
        var st := Do(ops[k]);
        sts := sts + [st];
      }
      assert ops[..|ops|] == ops;
      StatusesAnswer(ops);
    }
  }
}
