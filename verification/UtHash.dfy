/**
 * The part of uthash that the lock shields use, inc/uthash.h: bucket chains and an insertion-order list,
 * both threaded through the entries, and bucket doubling.
 */
module UtHash {
  import opened Bits

  /** A shield entry (inc/shielding_hash.h) with its hash handle; the key is its lock pointer. */
  class Entry {
    var lockPtr: nat
    var recCount: nat
    // UT_hash_handle
    var hashv: nat
    var prev: Entry?
    var next: Entry?
    var hhPrev: Entry?
    var hhNext: Entry?
    // free list
    var freeNext: Entry?
    var dynamicallyAllocated: bool

    constructor ()
      ensures lockPtr == 0 && recCount == 0 && freeNext == null && !dynamicallyAllocated
    {
      lockPtr, recCount, hashv := 0, 0, 0;
      prev, next, hhPrev, hhNext, freeNext := null, null, null, null, null;
      dynamicallyAllocated := false;
    }

    /** memset(0). */
    method Clear()
      modifies this
      ensures lockPtr == 0 && recCount == 0 && freeNext == null && !dynamicallyAllocated
    {
      lockPtr, recCount, hashv := 0, 0, 0;
      prev, next, hhPrev, hhNext, freeNext := null, null, null, null, null;
      dynamicallyAllocated := false;
    }
  }

  /** UT_hash_bucket. */
  datatype Bucket = Bucket(head: Entry?, count: nat, expandMult: nat)

  const INITIAL_NUM_BUCKETS := 32
  const INITIAL_NUM_BUCKETS_LOG2 := 5
  const BKT_CAPACITY_THRESH := 10

  /** HASH_FUNCTION of inc/shielding_hash.h: the low halves of the pointer and of its upper bits, combined. */
  function HashPtr(k: nat): nat {
    Xor((k / 16) % 0x1_0000_0000, k % 0x1_0000_0000)
  }

  lemma HashPtrLow(k: nat)
    requires k < 0x1_0000_0000
    ensures HashPtr(k) == Xor(k / 16, k)
  {
    hide Xor;
    assert k % 0x1_0000_0000 == k;
    assert k / 16 % 0x1_0000_0000 == k / 16;
  }

  lemma FourthTwice(n: nat)
    ensures n / 4 / 4 == n / 16
  {
  }

  lemma XorShift(a: nat, b: nat)
    ensures Xor(a, b) / 16 == Xor(a / 16, b / 16)
  {
    hide Xor;
    XorFourth(a, b);
    XorFourth(a / 4, b / 4);
    FourthTwice(a);
    FourthTwice(b);
    FourthTwice(Xor(a, b));
  }

  /** Two locks within 32 bits of address space never have the same hash value. */
  lemma {:induction false} HashPtrDistinct(k: nat, l: nat)
    requires k < 0x1_0000_0000 && l < 0x1_0000_0000 && HashPtr(k) == HashPtr(l)
    ensures k == l
    decreases k + l
  {
    if k > 0 || l > 0 {
      hide HashPtr, Xor;
      HashPtrLow(k);
      HashPtrLow(l);
      HashPtrLow(k / 16);
      HashPtrLow(l / 16);
      XorShift(k / 16, k);
      XorShift(l / 16, l);
      HashPtrDistinct(k / 16, l / 16);
      XorCancels(k / 16, k);
      XorCancels(l / 16, l);
    }
  }

  ghost predicate IsPow2(n: nat) {
    exists k: nat :: n == Pow2(k)
  }

  /** HASH_TO_BKT: the remainder, as tables have sizes that are powers of two. */
  function ToBkt(hashv: nat, numBuckets: nat): (r: nat)
    requires numBuckets > 0
    ensures r < numBuckets
    ensures IsPow2(numBuckets) ==> r == hashv % numBuckets
  {
    assert IsPow2(numBuckets) ==> And(hashv, numBuckets - 1) == hashv % numBuckets by {
      if k: nat :| numBuckets == Pow2(k) { MaskIsMod(hashv, k); }
    }
    And(hashv, numBuckets - 1)
  }

  ghost predicate Distinct(xs: seq<Entry>) {
    forall i, j | 0 <= i < j < |xs| :: xs[i] != xs[j]
  }

  function At(xs: seq<Entry>, i: int): Entry? {
    if 0 <= i < |xs| then xs[i] else null
  }

  /** A sequence without its element number `p`. */
  function Drop<T>(xs: seq<T>, p: nat): seq<T>
    requires p < |xs|
  {
    xs[..p] + xs[p + 1..]
  }

  /** Entry `i` of the chain `c` is one of `xs` and points to its neighbours. */
  ghost predicate HhLinked(c: seq<Entry>, i: nat, xs: set<Entry>)
    requires i < |c|
    reads xs`hhPrev, xs`hhNext
  {
    c[i] in xs && c[i].hhPrev == At(c, i - 1) && c[i].hhNext == At(c, i + 1)
  }

  /** The entries `c`, all among `xs`, form a bucket chain. */
  ghost predicate Chained(c: seq<Entry>, xs: set<Entry>)
    reads xs`hhPrev, xs`hhNext
  {
    forall i {:trigger HhLinked(c, i, xs)} | 0 <= i < |c| :: HhLinked(c, i, xs)
  }

  /** A linked chain visits no entry twice. */
  lemma {:induction false} ChainDistinct(c: seq<Entry>, xs: set<Entry>, i: nat, j: nat)
    requires Chained(c, xs) && i < j < |c|
    ensures c[i] != c[j]
  {
    assert HhLinked(c, i, xs) && HhLinked(c, j, xs);
    if i > 0 { ChainDistinct(c, xs, i - 1, j - 1); }
  }

  lemma ChainHasOnce(c: seq<Entry>, xs: set<Entry>, p: nat)
    requires Chained(c, xs) && p < |c|
    ensures forall i | 0 <= i < |c| && i != p :: c[i] != c[p]
  {
    forall i | 0 <= i < |c| && i != p ensures c[i] != c[p] {
      if i < p { ChainDistinct(c, xs, i, p); } else { ChainDistinct(c, xs, p, i); }
    }
  }

  ghost predicate BucketOk(b: Bucket, c: seq<Entry>, xs: set<Entry>)
    reads xs`hhPrev, xs`hhNext
  {
    b.head == At(c, 0) && b.count == |c| && Chained(c, xs)
  }

  /** Every bucket heads its chain and knows its length. */
  ghost predicate Threaded(bs: seq<Bucket>, chains: seq<seq<Entry>>, xs: set<Entry>)
    reads xs`hhPrev, xs`hhNext
  {
    |bs| == |chains| && forall b | 0 <= b < |bs| :: BucketOk(bs[b], chains[b], xs)
  }

  /** Entry `i` of chain `b` belongs there. */
  ghost predicate Belongs(chains: seq<seq<Entry>>, b: nat, i: nat, xs: set<Entry>)
    requires b < |chains| && i < |chains[b]|
    reads xs`hashv
  {
    chains[b][i] in xs && ToBkt(chains[b][i].hashv, |chains|) == b
  }

  /** The chain that the entry's hash value selects has it. */
  ghost predicate HasPlace(chains: seq<seq<Entry>>, x: Entry)
    requires |chains| > 0
    reads x`hashv
  {
    x in chains[ToBkt(x.hashv, |chains|)]
  }

  /** The chains partition the entries `xs` by hash value. */
  ghost predicate Placed(chains: seq<seq<Entry>>, xs: set<Entry>)
    reads xs`hashv
  {
    && |chains| > 0
    && (forall b, i {:trigger Belongs(chains, b, i, xs)} | 0 <= b < |chains| && 0 <= i < |chains[b]| ::
          Belongs(chains, b, i, xs))
    && (forall x {:trigger HasPlace(chains, x)} | x in xs :: HasPlace(chains, x))
  }

  /** Each entry is in exactly the chain that the remainder of its hash value selects. */
  ghost predicate ByRemainder(chains: seq<seq<Entry>>, xs: set<Entry>)
    reads xs`hashv
  {
    |chains| > 0 && forall x, b | x in xs && 0 <= b < |chains| :: x in chains[b] <==> b == x.hashv % |chains|
  }

  lemma PlacedByRemainder(chains: seq<seq<Entry>>, xs: set<Entry>)
    requires Placed(chains, xs) && IsPow2(|chains|)
    ensures ByRemainder(chains, xs)
  {
    forall x, b | x in xs && 0 <= b < |chains| ensures x in chains[b] <==> b == x.hashv % |chains| {
      assert HasPlace(chains, x);
      if x in chains[b] {
        var i :| 0 <= i < |chains[b]| && chains[b][i] == x;
        assert Belongs(chains, b, i, xs);
      }
    }
  }

  /** `e` goes in front of the chain `c`, whose first entry is `first`. */
  method LinkFront(e: Entry, first: Entry?, ghost c: seq<Entry>, ghost xs: set<Entry>)
    requires Chained(c, xs) && first == At(c, 0) && e !in xs
    modifies e`hhNext, e`hhPrev, xs`hhPrev
    ensures Chained([e] + c, xs + {e})
    ensures forall x | x in xs && x != first :: x.hhPrev == old(x.hhPrev)
  {
    if c != [] {
      ChainHasOnce(c, xs, 0);
      assert HhLinked(c, 0, xs);
    }
    e.hhNext := first;
    e.hhPrev := null;
    if first != null {
      first.hhPrev := e;
    }
    ghost var d := [e] + c;
    forall i | 0 <= i < |d| ensures HhLinked(d, i, xs + {e}) {
      if i > 0 {
        assert d[i] == c[i - 1] && old(HhLinked(c, i - 1, xs));
      }
    }
  }

  lemma ChainsApart(chains: seq<seq<Entry>>, xs: set<Entry>, b: nat, d: nat, x: Entry)
    requires Placed(chains, xs) && b < |chains| && d < |chains| && b != d && x in chains[d]
    ensures x in xs && x !in chains[b]
  {
    var i :| 0 <= i < |chains[d]| && chains[d][i] == x;
    assert Belongs(chains, d, i, xs);
    forall j | 0 <= j < |chains[b]| ensures chains[b][j] != x {
      assert Belongs(chains, b, j, xs);
    }
  }

  lemma FirstApart(chains: seq<seq<Entry>>, xs: set<Entry>, bkt: nat)
    requires Placed(chains, xs) && bkt < |chains|
    ensures forall b, x | 0 <= b < |chains| && b != bkt && x in chains[b] :: x != At(chains[bkt], 0)
  {
    forall b, x | 0 <= b < |chains| && b != bkt && x in chains[b] ensures x != At(chains[bkt], 0) {
      assert chains[bkt] != [] ==> chains[bkt][0] in chains[bkt];
      ChainsApart(chains, xs, bkt, b, x);
    }
  }

  /** `e` becomes the first of the chain of bucket `bkt`, whose multiplier becomes `mult`. */
  method PushFront(a: array<Bucket>, bkt: nat, e: Entry, mult: nat, ghost chains: seq<seq<Entry>>, ghost xs: set<Entry>)
    requires Threaded(a[..], chains, xs) && Placed(chains, xs) && e !in xs && bkt < a.Length
    modifies a, e`hhNext, e`hhPrev, xs`hhPrev
    ensures a[..] == old(a[..])[bkt := Bucket(e, old(a[bkt]).count + 1, mult)]
    ensures Threaded(a[..], chains[bkt := [e] + chains[bkt]], xs + {e})
  {
    ghost var bs, c := a[..], chains[bkt];
    assert BucketOk(bs[bkt], c, xs);
    var first := a[bkt].head;
    FirstApart(chains, xs, bkt);
    assert forall b | 0 <= b < |bs| :: BucketOk(bs[b], chains[b], xs);
    a[bkt] := Bucket(e, a[bkt].count + 1, mult);
    LinkFront(e, first, c, xs);
    ghost var after, ds := a[..], chains[bkt := [e] + c];
    assert after == bs[bkt := Bucket(e, |c| + 1, mult)];
    assert BucketOk(after[bkt], ds[bkt], xs + {e});
    forall b | 0 <= b < |after| && b != bkt ensures BucketOk(after[b], ds[b], xs + {e}) {
      assert old(BucketOk(bs[b], chains[b], xs));
      forall i | 0 <= i < |ds[b]| ensures HhLinked(ds[b], i, xs + {e}) {
        assert old(HhLinked(chains[b], i, xs)) && chains[b][i] in chains[b];
      }
    }
  }

  lemma PushPlaces(chains: seq<seq<Entry>>, xs: set<Entry>, e: Entry)
    requires Placed(chains, xs) && e !in xs
    ensures var bkt := ToBkt(e.hashv, |chains|);
            Placed(chains[bkt := [e] + chains[bkt]], xs + {e})
  {
    var bkt := ToBkt(e.hashv, |chains|);
    var ds := chains[bkt := [e] + chains[bkt]];
    forall b, i | 0 <= b < |ds| && 0 <= i < |ds[b]| ensures Belongs(ds, b, i, xs + {e}) {
      if b != bkt { assert Belongs(chains, b, i, xs); } else if i > 0 { assert Belongs(chains, b, i - 1, xs); }
    }
    forall x | x in xs + {e} ensures HasPlace(ds, x) {
      if x != e { assert HasPlace(chains, x); } else { assert ds[bkt][0] == e; }
    }
  }

  /** The same, for the bucket that `e` hashes to. */
  method PushHashed(a: array<Bucket>, bkt: nat, e: Entry, mult: nat, ghost chains: seq<seq<Entry>>,
      ghost xs: set<Entry>)
    requires Threaded(a[..], chains, xs) && Placed(chains, xs) && e !in xs && 0 < a.Length
        && bkt == ToBkt(e.hashv, a.Length)
    modifies a, e`hhNext, e`hhPrev, xs`hhPrev
    ensures a[..] == old(a[..])[bkt := Bucket(e, old(a[bkt]).count + 1, mult)]
    ensures Threaded(a[..], chains[bkt := [e] + chains[bkt]], xs + {e})
    ensures Placed(chains[bkt := [e] + chains[bkt]], xs + {e})
  {
    PushFront(a, bkt, e, mult, chains, xs);
    PushPlaces(chains, xs, e);
  }

  /** The link part of HASH_DEL_IN_BKT: `e`, number `p` of the chain `c`, leaves it. */
  method UnlinkChain(e: Entry, ghost c: seq<Entry>, ghost p: nat, ghost xs: set<Entry>)
    requires Chained(c, xs) && p < |c| && c[p] == e
    modifies xs`hhPrev, xs`hhNext
    ensures Chained(Drop(c, p), xs - {e})
    ensures forall x | x in xs && x !in c :: x.hhPrev == old(x.hhPrev) && x.hhNext == old(x.hhNext)
  {
    ChainHasOnce(c, xs, p);
    assert HhLinked(c, p, xs);
    if p > 0 {
      ChainHasOnce(c, xs, p - 1);
      assert HhLinked(c, p - 1, xs);
    }
    if p + 1 < |c| {
      ChainHasOnce(c, xs, p + 1);
      assert HhLinked(c, p + 1, xs);
    }
    if e.hhPrev != null {
      e.hhPrev.hhNext := e.hhNext;
    }
    if e.hhNext != null {
      e.hhNext.hhPrev := e.hhPrev;
    }
    ghost var d := Drop(c, p);
    forall i | 0 <= i < |d| ensures HhLinked(d, i, xs - {e}) {
      var k := if i < p then i else i + 1;
      assert d[i] == c[k] && old(HhLinked(c, k, xs)) && old(HhLinked(c, p, xs));
    }
  }

  /** HASH_DEL_IN_BKT. */
  method RemoveFrom(a: array<Bucket>, bkt: nat, e: Entry, ghost p: nat, ghost chains: seq<seq<Entry>>,
      ghost xs: set<Entry>)
    requires Threaded(a[..], chains, xs) && Placed(chains, xs) && bkt < a.Length && p < |chains[bkt]|
        && chains[bkt][p] == e
    modifies a, xs`hhPrev, xs`hhNext
    ensures forall b | 0 <= b < a.Length :: a[b].expandMult == old(a[b].expandMult)
    ensures Threaded(a[..], chains[bkt := Drop(chains[bkt], p)], xs - {e})
  {
    ghost var bs, c := a[..], chains[bkt];
    assert BucketOk(bs[bkt], c, xs);
    forall b, x | 0 <= b < |chains| && b != bkt && x in chains[b] ensures x in xs && x !in c {
      ChainsApart(chains, xs, bkt, b, x);
    }
    assert forall b | 0 <= b < |bs| :: BucketOk(bs[b], chains[b], xs);
    ChainHasOnce(c, xs, p);
    assert HhLinked(c, p, xs);
    a[bkt] := a[bkt].(count := a[bkt].count - 1, head := if a[bkt].head == e then e.hhNext else a[bkt].head);
    UnlinkChain(e, c, p, xs);
    ghost var after, ds := a[..], chains[bkt := Drop(c, p)];
    assert BucketOk(after[bkt], ds[bkt], xs - {e});
    forall b | 0 <= b < |after| && b != bkt ensures BucketOk(after[b], ds[b], xs - {e}) {
      assert after[b] == bs[b] && ds[b] == chains[b] && c[p] in c;
      assert old(BucketOk(bs[b], chains[b], xs));
      forall i | 0 <= i < |ds[b]| ensures HhLinked(ds[b], i, xs - {e}) {
        assert old(HhLinked(chains[b], i, xs)) && chains[b][i] in chains[b];
      }
    }
  }

  lemma DropPlaces(chains: seq<seq<Entry>>, xs: set<Entry>, bkt: nat, p: nat)
    requires Placed(chains, xs) && bkt < |chains| && p < |chains[bkt]|
    requires forall i | 0 <= i < |chains[bkt]| && i != p :: chains[bkt][i] != chains[bkt][p]
    ensures Placed(chains[bkt := Drop(chains[bkt], p)], xs - {chains[bkt][p]})
  {
    var c := chains[bkt];
    var ds, e, d := chains[bkt := Drop(c, p)], c[p], Drop(c, p);
    forall b, i | 0 <= b < |ds| && 0 <= i < |ds[b]|
      ensures Belongs(ds, b, i, xs - {e})
    {
      var k := if b == bkt && i >= p then i + 1 else i;
      assert ds[b][i] == chains[b][k] && Belongs(chains, b, k, xs);
      if b != bkt { assert Belongs(chains, bkt, p, xs); }
    }
    forall x | x in xs - {e} ensures HasPlace(ds, x) {
      var b := ToBkt(x.hashv, |ds|);
      assert HasPlace(chains, x);
      if b == bkt {
        var i :| 0 <= i < |c| && c[i] == x;
        assert d[if i < p then i else i - 1] == x;
      }
    }
  }

  function SumLengths(chains: seq<seq<Entry>>): nat {
    if chains == [] then 0 else |chains[0]| + SumLengths(chains[1..])
  }

  lemma {:induction false} SumLengthsUpdate(chains: seq<seq<Entry>>, b: nat, c: seq<Entry>)
    requires b < |chains|
    ensures SumLengths(chains[b := c]) == SumLengths(chains) - |chains[b]| + |c|
  {
    if b == 0 {
      assert chains[b := c][1..] == chains[1..];
    } else {
      SumLengthsUpdate(chains[1..], b - 1, c);
      assert chains[b := c][1..] == chains[1..][b - 1 := c];
    }
  }

  lemma {:induction false} SumLengthsPrefix(chains: seq<seq<Entry>>, i: nat)
    requires i < |chains|
    ensures SumLengths(chains[..i + 1]) == SumLengths(chains[..i]) + |chains[i]|
  {
    if i == 0 {
      assert chains[..1][1..] == [] && chains[..0] == [];
    } else {
      SumLengthsPrefix(chains[1..], i - 1);
      assert chains[..i + 1][1..] == chains[1..][..i];
      assert chains[..i][1..] == chains[1..][..i - 1];
    }
  }

  /** How many entries sit deeper in their chain than `ideal`. */
  function Excess(chains: seq<seq<Entry>>, ideal: nat): nat {
    if chains == [] then 0 else Over(|chains[0]|, ideal) + Excess(chains[1..], ideal)
  }

  function Over(n: nat, ideal: nat): nat {
    if n > ideal then n - ideal else 0
  }

  lemma {:induction false} ExcessUpdate(chains: seq<seq<Entry>>, b: nat, c: seq<Entry>, ideal: nat)
    requires b < |chains|
    ensures Excess(chains[b := c], ideal) == Excess(chains, ideal) - Over(|chains[b]|, ideal) + Over(|c|, ideal)
  {
    if b == 0 {
      assert chains[b := c][1..] == chains[1..];
    } else {
      ExcessUpdate(chains[1..], b - 1, c, ideal);
      assert chains[b := c][1..] == chains[1..][b - 1 := c];
    }
  }

  /**
   * The multiplier that a doubling gives a bucket of `count` entries: none up to the ideal length, else how
   * often the ideal length fits into the count, rounded up, but one less for the first entry beyond it and
   * for an ideal length of one.
   */
  function MultFor(count: nat, ideal: nat): nat
    requires ideal > 0
  {
    if count <= ideal then 0
    else if ideal == 1 || count == ideal + 1 then CeilDiv(count, ideal) - 1
    else CeilDiv(count, ideal)
  }

  /** The multiplier is the one that a chain of this length must get. */
  predicate Fits(count: nat, mult: nat, ideal: nat) {
    ideal > 0 && mult == MultFor(count, ideal)
  }

  /** So it bounds the chain from both sides by multiples of the ideal length. */
  lemma MultBoundsCount(count: nat, mult: nat, ideal: nat)
    requires Fits(count, mult, ideal)
    ensures mult == 0 <==> count <= ideal
    ensures mult > 0 ==> (mult - 1) * ideal < count <= (mult + 1) * ideal
  {
    CeilDivBounds(count, ideal);
    var q := CeilDiv(count, ideal);
    assert (q - 2) * ideal == q * ideal - ideal - ideal && (q - 1) * ideal == q * ideal - ideal;
    assert (q + 1) * ideal == q * ideal + ideal;
    if count > ideal { CeilDivIs(count, ideal, q, 2); }
  }

  ghost predicate Bounded(bs: seq<Bucket>, ideal: nat) {
    forall b | 0 <= b < |bs| :: Fits(bs[b].count, bs[b].expandMult, ideal)
  }

  lemma BoundedUpdate(bs: seq<Bucket>, bkt: nat, b: Bucket, ideal: nat)
    requires Bounded(bs, ideal) && bkt < |bs| && Fits(b.count, b.expandMult, ideal)
    ensures Bounded(bs[bkt := b], ideal)
  {
  }

  lemma {:induction false} CeilDivBounds(n: nat, d: nat)
    requires d > 0
    ensures n <= CeilDiv(n, d) * d < n + d
  {
    if n > d {
      CeilDivBounds(n - d, d);
      var q := CeilDiv(n - d, d);
      assert (1 + q) * d == d + q * d;
    }
  }

  /** `q` rows and no fewer than `m` hold `n` items. */
  lemma CeilDivIs(n: nat, d: nat, q: nat, m: nat)
    requires d > 0 && n <= q * d && m > 0 && (m - 1) * d < n
    ensures m <= CeilDiv(n, d) <= q
  {
    CeilDivBounds(n, d);
    var r := CeilDiv(n, d);
    assert (m - 1 - r) * d == (m - 1) * d - r * d && (r - q) * d == r * d - q * d;
    MulAtLeast(m - 1 - r, d);
    MulAtLeast(r - q, d);
  }

  /** Raising the multiplier when the longer chain exceeds `mult * ideal` gives it the right one. */
  lemma RaisedMultFits(count: nat, mult: nat, ideal: nat)
    requires Fits(count, mult, ideal)
    ensures Fits(count + 1, if count + 1 > ideal && count + 1 > mult * ideal then mult + 1 else mult, ideal)
  {
    var q := CeilDiv(count, ideal);
    CeilDivBounds(count, ideal);
    assert (q + 1) * ideal == q * ideal + ideal && (q - 1) * ideal == q * ideal - ideal;
    if count + 1 > q * ideal {
      CeilDivIs(count + 1, ideal, q + 1, q + 1);
    } else {
      CeilDivIs(count + 1, ideal, q, q);
    }
  }

  /** The statistics of HASH_EXPAND_BUCKETS for an entry that joins a chain of `count` entries. */
  method CountEntry(count: nat, mult: nat, ideal: nat, nonideal: nat) returns (mult': nat, nonideal': nat)
    requires Fits(count, mult, ideal)
    ensures Fits(count + 1, mult', ideal)
    ensures nonideal' == nonideal - Over(count, ideal) + Over(count + 1, ideal)
  {
    RaisedMultFits(count, mult, ideal);
    mult', nonideal' := mult, nonideal;
    if count + 1 > ideal {
      nonideal' := nonideal' + 1;
      if count + 1 > mult * ideal {
        mult' := mult' + 1;
      }
    }
  }

  /** One round of the inner loop of HASH_EXPAND_BUCKETS: `e` moves to its new bucket. */
  method MoveEntry(news: array<Bucket>, e: Entry, ideal: nat, nonideal: nat, ghost ds: seq<seq<Entry>>,
      ghost done: set<Entry>)
    returns (nonideal': nat, ghost ds': seq<seq<Entry>>)
    requires Threaded(news[..], ds, done) && Placed(ds, done) && e !in done && ideal > 0
    requires Bounded(news[..], ideal) && nonideal == Excess(ds, ideal)
    modifies news, e`hhNext, e`hhPrev, done`hhPrev
    ensures Threaded(news[..], ds', done + {e}) && Placed(ds', done + {e})
    ensures Bounded(news[..], ideal) && nonideal' == Excess(ds', ideal)
    ensures |ds'| == |ds| && SumLengths(ds') == SumLengths(ds) + 1
  {
    var bkt := ToBkt(e.hashv, news.Length);
    assert BucketOk(news[..][bkt], ds[bkt], done);
    assert Fits(news[..][bkt].count, news[..][bkt].expandMult, ideal);
    ghost var c := [e] + ds[bkt];
    var mult;
    mult, nonideal' := CountEntry(news[bkt].count, news[bkt].expandMult, ideal, nonideal);
    ExcessUpdate(ds, bkt, c, ideal);
    SumLengthsUpdate(ds, bkt, c);
    BoundedUpdate(news[..], bkt, Bucket(e, news[bkt].count + 1, mult), ideal);
    PushHashed(news, bkt, e, mult, ds, done);
    ds' := ds[bkt := c];
  }

  /** Where entry `k` of the old chain `b` is when the expansion has reached position `j` of chain `i`. */
  ghost predicate PendingAt(cs: seq<seq<Entry>>, b: nat, k: nat, i: nat, j: nat, done: set<Entry>, xs: set<Entry>)
    requires b < |cs| && k < |cs[b]|
    reads xs`hhNext
  {
    if b < i || (b == i && k < j) then cs[b][k] in done
    else cs[b][k] in xs && cs[b][k] !in done && cs[b][k].hhNext == At(cs[b], k + 1)
  }

  ghost predicate Pending(cs: seq<seq<Entry>>, i: nat, j: nat, done: set<Entry>, xs: set<Entry>)
    reads xs`hhNext
  {
    done <= xs &&
    forall b, k {:trigger PendingAt(cs, b, k, i, j, done, xs)} | 0 <= b < |cs| && 0 <= k < |cs[b]| ::
      PendingAt(cs, b, k, i, j, done, xs)
  }

  lemma OtherEntry(cs: seq<seq<Entry>>, xs: set<Entry>, b: nat, k: nat, i: nat, j: nat)
    requires Placed(cs, xs) && i < |cs| && j < |cs[i]| && b < |cs| && k < |cs[b]| && (b != i || k != j)
    requires forall d | 0 <= d < |cs| :: Distinct(cs[d])
    ensures cs[b][k] != cs[i][j]
  {
    if b == i {
      assert Distinct(cs[i]);
    } else {
      assert Belongs(cs, b, k, xs) && Belongs(cs, i, j, xs);
    }
  }

  lemma PendingNextChain(cs: seq<seq<Entry>>, i: nat, done: set<Entry>, xs: set<Entry>)
    requires i < |cs| && Pending(cs, i, |cs[i]|, done, xs)
    ensures Pending(cs, i + 1, 0, done, xs)
  {
    var n := i + 1;
    forall b, k | 0 <= b < |cs| && 0 <= k < |cs[b]| ensures PendingAt(cs, b, k, n, 0, done, xs) {
      assert PendingAt(cs, b, k, i, |cs[i]|, done, xs);
    }
  }

  /** The inner loop of HASH_EXPAND_BUCKETS over the old chain `i`, which starts at `first`. */
  method MoveChain(first: Entry?, news: array<Bucket>, ideal: nat, nonideal: nat,
    ghost cs: seq<seq<Entry>>, ghost i: nat, ghost xs: set<Entry>, ghost ds: seq<seq<Entry>>, ghost done: set<Entry>)
    returns (nonideal': nat, ghost ds': seq<seq<Entry>>, ghost done': set<Entry>)
    requires i < |cs| && first == At(cs[i], 0) && Pending(cs, i, 0, done, xs) && Placed(cs, xs) && ideal > 0
    requires forall d | 0 <= d < |cs| :: Distinct(cs[d])
    requires Threaded(news[..], ds, done) && Placed(ds, done)
    requires Bounded(news[..], ideal) && nonideal == Excess(ds, ideal)
    modifies news, xs`hhPrev, xs`hhNext
    ensures Pending(cs, i, |cs[i]|, done', xs) && SumLengths(ds') == SumLengths(ds) + |cs[i]|
    ensures |ds'| == |ds| && Threaded(news[..], ds', done') && Placed(ds', done')
    ensures Bounded(news[..], ideal) && nonideal' == Excess(ds', ideal)
  {
    nonideal', ds', done' := nonideal, ds, done;
    var thh := first;
    ghost var j := 0;
    while thh != null
      invariant 0 <= j <= |cs[i]| && thh == At(cs[i], j)
      invariant Pending(cs, i, j, done', xs)
      invariant |ds'| == |ds| && Threaded(news[..], ds', done') && Placed(ds', done')
      invariant Bounded(news[..], ideal) && nonideal' == Excess(ds', ideal)
      invariant SumLengths(ds') == SumLengths(ds) + j
      decreases |cs[i]| - j
    {
      assert PendingAt(cs, i, j, i, j, done', xs);
      var nxt := thh.hhNext;
      label Before:
      nonideal', ds' := MoveEntry(news, thh, ideal, nonideal', ds', done');
      ghost var was, at := done', j;
      done', j := done' + {thh}, j + 1;
      forall b, k | 0 <= b < |cs| && 0 <= k < |cs[b]| ensures PendingAt(cs, b, k, i, j, done', xs) {
        assert old@Before(PendingAt(cs, b, k, i, at, was, xs));
        if b != i || k != at { OtherEntry(cs, xs, b, k, i, at); }
      }
      thh := nxt;
    }
  }

  /** The loops of HASH_EXPAND_BUCKETS: every entry of the old buckets moves to the new ones. */
  method Rehash(olds: array<Bucket>, news: array<Bucket>, ideal: nat, ghost cs: seq<seq<Entry>>, ghost xs: set<Entry>)
    returns (nonideal: nat, ghost ds: seq<seq<Entry>>)
    requires Threaded(olds[..], cs, xs) && Placed(cs, xs) && ideal > 0
    requires news != olds && news.Length > 0 && forall b | 0 <= b < news.Length :: news[b] == Bucket(null, 0, 0)
    modifies news, xs`hhPrev, xs`hhNext
    ensures Threaded(news[..], ds, xs) && Placed(ds, xs) && |ds| == news.Length
    ensures IsPow2(news.Length) ==> ByRemainder(ds, xs)
    ensures SumLengths(ds) == SumLengths(cs)
    ensures Bounded(news[..], ideal) && nonideal == Excess(ds, ideal)
  {
    NothingMoved(olds[..], cs, xs);
    nonideal, ds := 0, seq(news.Length, i => []);
    EmptyTable(news[..], ds, ideal);
    ghost var done: set<Entry> := {};
    ghost var bs := olds[..];
    for i := 0 to olds.Length
      invariant Pending(cs, i, 0, done, xs)
      invariant olds[..] == bs
      invariant |ds| == news.Length && Threaded(news[..], ds, done) && Placed(ds, done)
      invariant Bounded(news[..], ideal) && nonideal == Excess(ds, ideal)
      invariant SumLengths(ds) == SumLengths(cs[..i])
    {
      nonideal, ds, done := MoveChain(olds[i].head, news, ideal, nonideal, cs, i, xs, ds, done);
      SumLengthsPrefix(cs, i);
      PendingNextChain(cs, i, done, xs);
    }
    AllMoved(cs, xs, done);
    if IsPow2(news.Length) { PlacedByRemainder(ds, xs); }
  }

  lemma NothingMoved(bs: seq<Bucket>, cs: seq<seq<Entry>>, xs: set<Entry>)
    requires Threaded(bs, cs, xs)
    ensures Pending(cs, 0, 0, {}, xs)
    ensures forall b | 0 <= b < |cs| :: bs[b].head == At(cs[b], 0)
    ensures forall b | 0 <= b < |cs| :: Distinct(cs[b])
  {
    forall b | 0 <= b < |cs| ensures bs[b].head == At(cs[b], 0) && Distinct(cs[b]) {
      assert BucketOk(bs[b], cs[b], xs);
      forall i, j | 0 <= i < j < |cs[b]| ensures cs[b][i] != cs[b][j] { ChainDistinct(cs[b], xs, i, j); }
    }
    forall b, k | 0 <= b < |cs| && 0 <= k < |cs[b]| ensures PendingAt(cs, b, k, 0, 0, {}, xs) {
      assert BucketOk(bs[b], cs[b], xs) && HhLinked(cs[b], k, xs);
    }
  }

  lemma AllMoved(cs: seq<seq<Entry>>, xs: set<Entry>, done: set<Entry>)
    requires Placed(cs, xs) && Pending(cs, |cs|, 0, done, xs)
    ensures done == xs && cs[..|cs|] == cs
  {
    forall x | x in xs ensures x in done {
      var b := ToBkt(x.hashv, |cs|);
      assert HasPlace(cs, x);
      var k :| 0 <= k < |cs[b]| && cs[b][k] == x;
      assert PendingAt(cs, b, k, |cs|, 0, done, xs);
    }
  }

  lemma EmptyTable(bs: seq<Bucket>, ds: seq<seq<Entry>>, ideal: nat)
    requires |bs| == |ds| > 0
    requires forall b | 0 <= b < |bs| :: bs[b] == Bucket(null, 0, 0)
    requires ds == seq(|ds|, i => [])
    ensures Threaded(bs, ds, {}) && Placed(ds, {})
    ensures ideal > 0 ==> Bounded(bs, ideal)
    ensures Excess(ds, ideal) == SumLengths(ds) == 0
  {
    EmptyChains(|ds|, ideal);
  }

  lemma {:induction false} EmptyChains(n: nat, ideal: nat)
    ensures SumLengths(seq(n, i => [])) == 0 && Excess(seq(n, i => []), ideal) == 0
  {
    if n > 0 {
      EmptyChains(n - 1, ideal);
      ghost var s: seq<seq<Entry>> := seq(n, i => []);
      assert s[1..] == seq(n - 1, i => []);
    }
  }

  ghost predicate Linked(xs: seq<Entry>, i: nat)
    requires i < |xs|
    reads xs`prev, xs`next
  {
    xs[i].prev == At(xs, i - 1) && xs[i].next == At(xs, i + 1)
  }

  /** The entries `xs` form the insertion-order list. */
  ghost predicate Listed(xs: seq<Entry>)
    reads xs`prev, xs`next
  {
    forall i {:trigger Linked(xs, i)} | 0 <= i < |xs| :: Linked(xs, i)
  }

  lemma {:induction false} ListDistinct(xs: seq<Entry>, i: nat, j: nat)
    requires Listed(xs) && i < j < |xs|
    ensures xs[i] != xs[j]
  {
    assert Linked(xs, i) && Linked(xs, j);
    if i > 0 { ListDistinct(xs, i - 1, j - 1); }
  }

  lemma ListHasOnce(xs: seq<Entry>, p: nat)
    requires Listed(xs) && p < |xs|
    ensures forall i | 0 <= i < |xs| && i != p :: xs[i] != xs[p]
  {
    forall i | 0 <= i < |xs| && i != p ensures xs[i] != xs[p] {
      if i < p { ListDistinct(xs, i, p); } else { ListDistinct(xs, p, i); }
    }
  }

  /** HASH_APPEND_LIST, for the list `xs` with last entry `tail`. */
  method AppendList(e: Entry, tail: Entry, ghost xs: seq<Entry>)
    requires Listed(xs) && xs != [] && tail == xs[|xs| - 1] && e !in xs
    modifies e`prev, e`next, xs`next
    ensures Listed(xs + [e])
  {
    ListHasOnce(xs, |xs| - 1);
    e.next := null;
    e.prev := tail;
    tail.next := e;
    ghost var ys := xs + [e];
    forall i | 0 <= i < |ys| ensures Linked(ys, i) {
      if i < |xs| { assert ys[i] == xs[i] && old(Linked(xs, i)); }
    }
  }

  /** The list part of HASH_DELETE_HH, for an entry that is not the only one; returns the new head. */
  method UnlinkList(e: Entry, head: Entry?, ghost xs: seq<Entry>, ghost p: nat) returns (head': Entry?)
    requires Listed(xs) && p < |xs| && xs[p] == e && head == xs[0]
    modifies xs`prev, xs`next
    ensures Listed(Drop(xs, p)) && head' == At(Drop(xs, p), 0)
  {
    ListHasOnce(xs, p);
    assert Linked(xs, p);
    if p > 0 { ListHasOnce(xs, p - 1); }
    if p + 1 < |xs| { ListHasOnce(xs, p + 1); }
    head' := head;
    if e.prev != null {
      e.prev.next := e.next;
    } else {
      head' := e.next;
    }
    if e.next != null {
      e.next.prev := e.prev;
    }
    ghost var d := Drop(xs, p);
    forall i | 0 <= i < |d| ensures Linked(d, i) {
      var k := if i < p then i else i + 1;
      assert d[i] == xs[k] && old(Linked(xs, k)) && old(Linked(xs, p));
    }
  }

  /** The entry is found under its own key, with the hash value of that key. */
  ghost predicate HasKey(byKey: map<nat, Entry>, x: Entry)
    reads x`lockPtr, x`hashv
  {
    x.lockPtr in byKey && byKey[x.lockPtr] == x && x.hashv == HashPtr(x.lockPtr)
  }

  /** `byKey` is the table seen as a map: the entries `xs` by their keys. */
  ghost predicate Keyed(xs: set<Entry>, byKey: map<nat, Entry>)
    reads xs`lockPtr, xs`hashv
  {
    && (forall k {:trigger k in byKey} | k in byKey :: byKey[k] in xs && byKey[k].lockPtr == k)
    && (forall x {:trigger HasKey(byKey, x)} | x in xs :: HasKey(byKey, x))
  }

  lemma AddKeyed(xs: set<Entry>, byKey: map<nat, Entry>, e: Entry)
    requires Keyed(xs, byKey) && e !in xs && e.lockPtr !in byKey && e.hashv == HashPtr(e.lockPtr)
    ensures Keyed(xs + {e}, byKey[e.lockPtr := e])
  {
    var after := byKey[e.lockPtr := e];
    forall x | x in xs + {e} ensures HasKey(after, x) {
      if x != e { assert HasKey(byKey, x); }
    }
  }

  /** How many rows of `d` places `n` items need: the quotient, rounded up. */
  function CeilDiv(n: nat, d: nat): (r: nat)
    requires d > 0
    ensures n > 0 ==> r > 0
  {
    if n == 0 then 0 else if n <= d then 1 else 1 + CeilDiv(n - d, d)
  }

  lemma {:induction false} CeilDivIsQuotient(n: nat, d: nat)
    requires d > 0
    ensures CeilDiv(n, d) == n / d + if n % d != 0 then 1 else 0
  {
    var q, r := n / d, n % d;
    assert n == q * d + r;
    if n > d {
      CeilDivIsQuotient(n - d, d);
      assert (q - 1) * d == q * d - d;
      MulAtLeast(q, d);
      ModUnique(n - d, d, q - 1, r);
    } else if n == d {
      ModUnique(n, d, 1, 0);
    } else {
      ModUnique(n, d, 0, n);
    }
  }

  /** The ideal chain length for `n` items in `d` buckets, by shift and mask as in HASH_EXPAND_BUCKETS. */
  method IdealChain(n: nat, k: nat, d: nat) returns (ideal: nat)
    requires d == Pow2(k)
    ensures ideal == CeilDiv(n, d)
  {
    ShiftIsDiv(n, k);
    MaskIsMod(n, k);
    CeilDivIsQuotient(n, d);
    ideal := ShiftRight(n, k) + if And(n, d - 1) != 0 then 1 else 0;
  }

  method NewBuckets(n: nat) returns (a: array<Bucket>)
    ensures fresh(a) && a.Length == n && forall b | 0 <= b < n :: a[b] == Bucket(null, 0, 0)
  {
    a := new Bucket[n](_ => Bucket(null, 0, 0));
  }

  /** UT_hash_table. */
  datatype HashTable = HashTable(
    buckets: array<Bucket>, numBuckets: nat, log2NumBuckets: nat, numItems: nat, tail: Entry?,
    idealChainMaxlen: nat, nonidealItems: nat, ineffExpands: nat, noexpand: bool)

  /** What HASH_FSCK checks of the buckets, and that each entry is in the bucket of its hash value. */
  ghost predicate BucketsOk(t: HashTable, chains: seq<seq<Entry>>, nodes: set<Entry>)
    reads t.buckets, nodes`hhPrev, nodes`hhNext, nodes`hashv
  {
    && t.numBuckets == |chains|
    && Threaded(t.buckets[..], chains, nodes)
    && Placed(chains, nodes)
    && SumLengths(chains) == t.numItems
  }

  /** The table's size is a power of two, whose logarithm it keeps. */
  predicate SizeOk(t: HashTable) {
    t.numBuckets == Pow2(t.log2NumBuckets)
  }

  /** What a bucket doubling does to the table. */
  ghost predicate Doubled(t: HashTable, t': HashTable, chains': seq<seq<Entry>>)
    reads t'.buckets
  {
    && t'.numBuckets == 2 * t.numBuckets > 0
    && t'.log2NumBuckets == t.log2NumBuckets + 1
    && t'.numItems == t.numItems && t'.tail == t.tail
    && t'.idealChainMaxlen == CeilDiv(t.numItems, 2 * t.numBuckets)
    && t'.nonidealItems == Excess(chains', t'.idealChainMaxlen)
    && Bounded(t'.buckets[..], t'.idealChainMaxlen)
    && t'.ineffExpands == (if t'.nonidealItems > t.numItems / 2 then t.ineffExpands + 1 else 0)
    && t'.noexpand == (t.noexpand || t'.ineffExpands > 1)
  }

  /** HASH_EXPAND_BUCKETS, but for the computation of the ideal chain length. */
  method ExpandTo(t: HashTable, ideal: nat, ghost chains: seq<seq<Entry>>, ghost nodes: set<Entry>)
    returns (t': HashTable, ghost chains': seq<seq<Entry>>)
    requires BucketsOk(t, chains, nodes) && t.numItems > 0
    requires ideal == CeilDiv(t.numItems, 2 * t.numBuckets)
    modifies nodes`hhPrev, nodes`hhNext
    ensures BucketsOk(t', chains', nodes) && fresh(t'.buckets)
    ensures Doubled(t, t', chains')
  {
    var news := NewBuckets(t.numBuckets * 2);
    var nonideal;
    nonideal, chains' := Rehash(t.buckets, news, ideal, chains, nodes);
    ShiftIsDiv(t.numItems, 1);
    var ineffExpands := if nonideal > ShiftRight(t.numItems, 1) then t.ineffExpands + 1 else 0;
    t' := HashTable(news, t.numBuckets * 2, t.log2NumBuckets + 1, t.numItems, t.tail,
                    ideal, nonideal, ineffExpands, t.noexpand || ineffExpands > 1);
  }

  /** HASH_EXPAND_BUCKETS. */
  method Expand(t: HashTable, ghost chains: seq<seq<Entry>>, ghost nodes: set<Entry>)
    returns (t': HashTable, ghost chains': seq<seq<Entry>>)
    requires BucketsOk(t, chains, nodes) && SizeOk(t) && t.numItems > 0
    modifies nodes`hhPrev, nodes`hhNext
    ensures BucketsOk(t', chains', nodes) && ByRemainder(chains', nodes) && fresh(t'.buckets)
    ensures Doubled(t, t', chains')
  {
    var ideal := IdealChain(t.numItems, t.log2NumBuckets + 1, t.numBuckets * 2);
    t', chains' := ExpandTo(t, ideal, chains, nodes);
    assert t'.numBuckets == Pow2(t.log2NumBuckets + 1);
    PlacedByRemainder(chains', nodes);
  }

  lemma SizeDoubles(t: HashTable, t': HashTable)
    requires SizeOk(t) && t'.numBuckets == 2 * t.numBuckets && t'.log2NumBuckets == t.log2NumBuckets + 1
    ensures SizeOk(t')
  {
  }

  /** HASH_MAKE_TABLE, for the first item `e`. */
  method MakeTable(e: Entry) returns (t: HashTable, ghost chains: seq<seq<Entry>>)
    ensures BucketsOk(t, chains, {}) && SizeOk(t) && fresh(t.buckets) && t.tail == e && t.numItems == 0
    ensures t.numBuckets == 32 && t.idealChainMaxlen == t.nonidealItems == t.ineffExpands == 0
    ensures !t.noexpand && forall b | 0 <= b < t.buckets.Length :: t.buckets[b] == Bucket(null, 0, 0)
  {
    var buckets := NewBuckets(INITIAL_NUM_BUCKETS);
    t := HashTable(buckets, INITIAL_NUM_BUCKETS, INITIAL_NUM_BUCKETS_LOG2, 0, e, 0, 0, 0, false);
    chains := seq(INITIAL_NUM_BUCKETS, i => []);
    EmptyTable(buckets[..], chains, 0);
    assert Pow2(5) == 32 by { assert Pow2(2) == 4 && Pow2(3) == 8 && Pow2(4) == 16; }
  }

  /** HASH_ADD_TO_BKT, in a table that already counts the new item `e`. */
  method AddToBkt(t: HashTable, bkt: nat, e: Entry, ghost chains: seq<seq<Entry>>, ghost nodes: set<Entry>)
    returns (t': HashTable, ghost chains': seq<seq<Entry>>)
    requires t.numItems > 0 && BucketsOk(t.(numItems := t.numItems - 1), chains, nodes) && SizeOk(t)
    requires e !in nodes && bkt == ToBkt(e.hashv, t.numBuckets)
    modifies t.buckets, e`hhPrev, e`hhNext, nodes`hhPrev, nodes`hhNext
    ensures BucketsOk(t', chains', nodes + {e}) && (fresh(t'.buckets) || t'.buckets == t.buckets)
    ensures if old(t.buckets[bkt].count) + 1 >= 10 * (old(t.buckets[bkt].expandMult) + 1) && !t.noexpand
            then Doubled(t, t', chains')
            else t' == t && chains' == chains[bkt := [e] + chains[bkt]]
  {
    var mult := t.buckets[bkt].expandMult;
    PushHashed(t.buckets, bkt, e, mult, chains, nodes);
    SumLengthsUpdate(chains, bkt, [e] + chains[bkt]);
    t', chains' := t, chains[bkt := [e] + chains[bkt]];
    if t.buckets[bkt].count >= (mult + 1) * BKT_CAPACITY_THRESH && !t.noexpand {
      t', chains' := Expand(t, chains', nodes + {e});
    }
  }

  /** HASH_ADD_TO_TABLE. */
  method AddToTable(t: HashTable, e: Entry, ghost chains: seq<seq<Entry>>, ghost nodes: set<Entry>)
    returns (t': HashTable, ghost chains': seq<seq<Entry>>)
    requires BucketsOk(t, chains, nodes) && SizeOk(t) && e !in nodes
    modifies t.buckets, e`hhPrev, e`hhNext, nodes`hhPrev, nodes`hhNext
    ensures BucketsOk(t', chains', nodes + {e}) && SizeOk(t') && (fresh(t'.buckets) || t'.buckets == t.buckets)
    ensures t'.numItems == t.numItems + 1 && t'.tail == t.tail
  {
    t' := t.(numItems := t.numItems + 1);
    ghost var was := t';
    t', chains' := AddToBkt(t', ToBkt(e.hashv, t.numBuckets), e, chains, nodes);
    if t' != was { SizeDoubles(was, t'); }
  }

  ghost predicate IsItem(xs: seq<Entry>, x: Entry) {
    x in xs
  }

  ghost predicate SameEntries(xs: seq<Entry>, ns: set<Entry>) {
    (forall x {:trigger IsItem(xs, x)} | x in ns :: IsItem(xs, x)) && (forall i | 0 <= i < |xs| :: xs[i] in ns)
  }

  lemma AppendSame(xs: seq<Entry>, ns: set<Entry>, e: Entry)
    requires SameEntries(xs, ns)
    ensures SameEntries(xs + [e], ns + {e})
  {
    forall x | x in ns + {e} ensures IsItem(xs + [e], x) {
      if x != e { assert IsItem(xs, x); } else { assert (xs + [e])[|xs|] == e; }
    }
  }

  /** The insertion-order list of all items. */
  ghost predicate ItemsOk(head: Entry?, items: seq<Entry>, nodes: set<Entry>)
    reads items`prev, items`next
  {
    SameEntries(items, nodes) && Listed(items) && head == At(items, 0)
  }

  /** The header that exists while there are items. */
  ghost predicate HeaderOk(t: HashTable, chains: seq<seq<Entry>>, items: seq<Entry>, nodes: set<Entry>)
    reads t.buckets, nodes`hhPrev, nodes`hhNext, nodes`hashv
  {
    items != [] ==>
      BucketsOk(t, chains, nodes) && SizeOk(t) && t.numItems == |items| && t.tail == items[|items| - 1]
  }

  /** HASH_ADD_KEYPTR_BYHASHVALUE up to the bucket, in a table that has items: `e` becomes the last one. */
  method ExtendList(head: Entry?, tail: Entry, e: Entry,
    ghost items: seq<Entry>, ghost nodes: set<Entry>, ghost byKey: map<nat, Entry>)
    requires items != [] && ItemsOk(head, items, nodes) && Keyed(nodes, byKey) && tail == items[|items| - 1]
    requires e !in nodes && e.lockPtr !in byKey
    modifies e`hashv, e`prev, e`next, items`next
    ensures ItemsOk(head, items + [e], nodes + {e}) && Keyed(nodes + {e}, byKey[e.lockPtr := e])
  {
    e.hashv := HashPtr(e.lockPtr);
    AppendList(e, tail, items);
    AppendSame(items, nodes, e);
    AddKeyed(nodes, byKey, e);
  }

  /** HASH_ADD_KEYPTR_BYHASHVALUE up to the bucket, for the first item. */
  method StartList(e: Entry, ghost byKey: map<nat, Entry>) returns (t: HashTable, ghost chains: seq<seq<Entry>>)
    requires byKey == map[]
    modifies e`hashv, e`prev, e`next
    ensures ItemsOk(e, [e], {e}) && Keyed({e}, byKey[e.lockPtr := e]) && t.tail == e
    ensures BucketsOk(t, chains, {}) && SizeOk(t) && fresh(t.buckets) && t.numItems == 0
  {
    e.hashv := HashPtr(e.lockPtr);
    e.next, e.prev := null, null;
    t, chains := MakeTable(e);
    assert Linked([e], 0);
  }

  /** HASH_ADD_KEYPTR_BYHASHVALUE for the first item. */
  method AddFirst(e: Entry, ghost byKey: map<nat, Entry>) returns (t: HashTable, ghost chains: seq<seq<Entry>>)
    requires byKey == map[]
    modifies e`hashv, e`prev, e`next, e`hhPrev, e`hhNext
    ensures ItemsOk(e, [e], {e}) && Keyed({e}, byKey[e.lockPtr := e])
    ensures HeaderOk(t, chains, [e], {e}) && fresh(t.buckets)
  {
    t, chains := StartList(e, byKey);
    t, chains := AddToTable(t, e, chains, {});
    assert {} + {e} == {e};
  }

  /** HASH_ADD_KEYPTR_BYHASHVALUE in a table that has items. */
  method AddNext(head: Entry?, t: HashTable, e: Entry,
    ghost items: seq<Entry>, ghost nodes: set<Entry>, ghost byKey: map<nat, Entry>, ghost chains: seq<seq<Entry>>)
    returns (t': HashTable, ghost chains': seq<seq<Entry>>)
    requires ItemsOk(head, items, nodes) && Keyed(nodes, byKey) && HeaderOk(t, chains, items, nodes)
    requires head != null && e !in nodes && e.lockPtr !in byKey
    modifies t.buckets, e`hashv, e`prev, e`next, e`hhPrev, e`hhNext, items`next, nodes`hhPrev, nodes`hhNext
    ensures ItemsOk(head, items + [e], nodes + {e}) && Keyed(nodes + {e}, byKey[e.lockPtr := e])
    ensures HeaderOk(t', chains', items + [e], nodes + {e})
    ensures fresh(t'.buckets) || t'.buckets == t.buckets
  {
    ExtendList(head, t.tail, e, items, nodes, byKey);
    t', chains' := AddToTable(t.(tail := e), e, chains, nodes);
  }

  lemma NoItems(nodes: set<Entry>, byKey: map<nat, Entry>)
    requires SameEntries([], nodes) && Keyed(nodes, byKey)
    ensures nodes == {} && byKey == map[]
  {
    forall x | x in nodes ensures IsItem([], x) {}
  }

  /**
   * The table as a value: its items in the order of their insertion, as a set and by key, and the chain of
   * each bucket.
   */
  datatype View = View(items: seq<Entry>, nodes: set<Entry>, byKey: map<nat, Entry>, chains: seq<seq<Entry>>)

  /** `lock_hash`, the first item, and the header found through it, which exists exactly while there is an item. */
  datatype LockHash = LockHash(head: Entry?, tbl: HashTable)

  ghost predicate Represents(h: LockHash, v: View)
    reads h.tbl.buckets, v.nodes`lockPtr, v.nodes`hashv, v.nodes`prev, v.nodes`next, v.nodes`hhPrev, v.nodes`hhNext
  {
    SameEntries(v.items, v.nodes) && ItemsOk(h.head, v.items, v.nodes) && Keyed(v.nodes, v.byKey)
        && HeaderOk(h.tbl, v.chains, v.items, v.nodes)
  }

  /** HASH_ADD_KEYPTR_BYHASHVALUE: a new item with a fresh key goes to the end of the list. */
  method Insert(h: LockHash, e: Entry, ghost v: View) returns (h': LockHash, ghost v': View)
    requires Represents(h, v) && e !in v.nodes && e.lockPtr !in v.byKey
    modifies h.tbl.buckets, e`hashv, e`prev, e`next, e`hhPrev, e`hhNext, v.items`next, v.nodes`hhPrev, v.nodes`hhNext
    ensures Represents(h', v')
    ensures v' == View(v.items + [e], v.nodes + {e}, v.byKey[e.lockPtr := e], v'.chains)
    ensures fresh(h'.tbl.buckets) || h'.tbl.buckets == h.tbl.buckets
  {
    var t;
    ghost var chains;
    if h.head == null {
      NoItems(v.nodes, v.byKey);
      t, chains := AddFirst(e, v.byKey);
      h' := LockHash(e, t);
    } else {
      t, chains := AddNext(h.head, h.tbl, e, v.items, v.nodes, v.byKey, v.chains);
      h' := LockHash(h.head, t);
    }
    v' := View(v.items + [e], v.nodes + {e}, v.byKey[e.lockPtr := e], chains);
    assert h.head == null ==> v'.items == [e] && v'.nodes == {e};
  }

  /**
   * The list and the chains hold the same entries: each is in exactly one chain, that of its key's hash
   * value, and every key of the table leads to exactly one of them.
   */
  lemma ListAndChainsAgree(h: LockHash, v: View, x: Entry)
    requires Represents(h, v) && v.items != []
    ensures x in v.items <==> x in v.nodes
    ensures x in v.items ==>
              && |v.chains| == h.tbl.numBuckets > 0
              && forall b | 0 <= b < |v.chains| :: x in v.chains[b] <==> b == HashPtr(x.lockPtr) % h.tbl.numBuckets
    ensures forall b | 0 <= b < |v.chains| && x in v.chains[b] :: x in v.items
    ensures x in v.items <==> x.lockPtr in v.byKey && v.byKey[x.lockPtr] == x
  {
    assert IsPow2(h.tbl.numBuckets);
    if x in v.nodes { assert IsItem(v.items, x) && HasKey(v.byKey, x) && HasPlace(v.chains, x); }
    forall b | 0 <= b < |v.chains| && x in v.chains[b] ensures x in v.nodes && b == ToBkt(x.hashv, |v.chains|) {
      var i :| 0 <= i < |v.chains[b]| && v.chains[b][i] == x;
      assert Belongs(v.chains, b, i, v.nodes) && HasKey(v.byKey, x) && IsItem(v.items, x);
    }
  }

  lemma DropSame(xs: seq<Entry>, ns: set<Entry>, p: nat)
    requires SameEntries(xs, ns) && Listed(xs) && p < |xs|
    ensures SameEntries(Drop(xs, p), ns - {xs[p]})
  {
    ListHasOnce(xs, p);
    var d := Drop(xs, p);
    forall x | x in ns - {xs[p]} ensures IsItem(d, x) {
      assert IsItem(xs, x);
      var i :| 0 <= i < |xs| && xs[i] == x;
      assert d[if i < p then i else i - 1] == x;
    }
    forall i | 0 <= i < |d| ensures d[i] in ns - {xs[p]} {
      assert d[i] == xs[if i < p then i else i + 1];
    }
  }

  lemma DropKeyed(xs: set<Entry>, byKey: map<nat, Entry>, e: Entry)
    requires Keyed(xs, byKey) && e in xs
    ensures Keyed(xs - {e}, byKey - {e.lockPtr})
  {
    assert HasKey(byKey, e);
    var after := byKey - {e.lockPtr};
    forall x | x in xs - {e} ensures HasKey(after, x) {
      assert HasKey(byKey, x);
    }
  }

  /** The bucket part of HASH_DELETE_HH, in a table that counts `e` no more. */
  method DelFromBkt(t: HashTable, e: Entry, ghost chains: seq<seq<Entry>>, ghost nodes: set<Entry>)
    returns (ghost chains': seq<seq<Entry>>)
    requires BucketsOk(t.(numItems := t.numItems + 1), chains, nodes) && e in nodes
    modifies t.buckets, nodes`hhPrev, nodes`hhNext
    ensures BucketsOk(t, chains', nodes - {e})
  {
    var bkt := ToBkt(e.hashv, t.numBuckets);
    assert HasPlace(chains, e);
    ghost var p :| 0 <= p < |chains[bkt]| && chains[bkt][p] == e;
    assert BucketOk(t.buckets[..][bkt], chains[bkt], nodes);
    ChainHasOnce(chains[bkt], nodes, p);
    RemoveFrom(t.buckets, bkt, e, p, chains, nodes);
    DropPlaces(chains, nodes, bkt, p);
    SumLengthsUpdate(chains, bkt, Drop(chains[bkt], p));
    chains' := chains[bkt := Drop(chains[bkt], p)];
  }

  /** HASH_DELETE_HH in a table with other items; `e` is number `p`. */
  method DeleteOne(head: Entry, t: HashTable, e: Entry, ghost p: nat,
    ghost items: seq<Entry>, ghost nodes: set<Entry>, ghost byKey: map<nat, Entry>, ghost chains: seq<seq<Entry>>)
    returns (head': Entry?, t': HashTable, ghost chains': seq<seq<Entry>>)
    requires ItemsOk(head, items, nodes) && Keyed(nodes, byKey) && HeaderOk(t, chains, items, nodes)
    requires |items| > 1 && p < |items| && items[p] == e
    modifies t.buckets, items`prev, items`next, nodes`hhPrev, nodes`hhNext
    ensures ItemsOk(head', Drop(items, p), nodes - {e}) && Keyed(nodes - {e}, byKey - {e.lockPtr})
    ensures HeaderOk(t', chains', Drop(items, p), nodes - {e}) && t'.buckets == t.buckets
  {
    ListHasOnce(items, p);
    assert Linked(items, p);
    var tail := if e == t.tail then e.prev else t.tail;
    DropSame(items, nodes, p);
    DropKeyed(nodes, byKey, e);
    head' := UnlinkList(e, head, items, p);
    t' := t.(tail := tail, numItems := t.numItems - 1);
    chains' := DelFromBkt(t', e, chains, nodes);
  }

  /** The list without its entry `e`, the others in their order. */
  ghost function Without(xs: seq<Entry>, e: Entry): seq<Entry> {
    if xs == [] then [] else if xs[0] == e then xs[1..] else [xs[0]] + Without(xs[1..], e)
  }

  lemma {:induction false} DropIsWithout(xs: seq<Entry>, p: nat)
    requires p < |xs| && forall i | 0 <= i < |xs| && i != p :: xs[i] != xs[p]
    ensures Drop(xs, p) == Without(xs, xs[p])
  {
    if p == 0 {
      assert Drop(xs, 0) == xs[1..];
    } else {
      DropIsWithout(xs[1..], p - 1);
      assert Drop(xs, p) == [xs[0]] + Drop(xs[1..], p - 1);
    }
  }

  /** HASH_DELETE_HH. */
  method Remove(h: LockHash, e: Entry, ghost v: View) returns (h': LockHash, ghost v': View)
    requires Represents(h, v) && e in v.nodes
    modifies h.tbl.buckets, v.items`prev, v.items`next, v.nodes`hhPrev, v.nodes`hhNext
    ensures Represents(h', v') && h'.tbl.buckets == h.tbl.buckets
    ensures v' == View(Without(v.items, e), v.nodes - {e}, v.byKey - {e.lockPtr}, v'.chains)
  {
    assert IsItem(v.items, e) && HasKey(v.byKey, e);
    ghost var p :| 0 <= p < |v.items| && v.items[p] == e;
    ListHasOnce(v.items, p);
    DropIsWithout(v.items, p);
    assert Linked(v.items, p);
    ghost var chains := v.chains;
    if e.prev == null && e.next == null {
      DropSame(v.items, v.nodes, p);
      DropKeyed(v.nodes, v.byKey, e);
      h' := h.(head := null);
    } else {
      var head, t;
      head, t, chains := DeleteOne(h.head, h.tbl, e, p, v.items, v.nodes, v.byKey, chains);
      h' := LockHash(head, t);
    }
    v' := View(Without(v.items, e), v.nodes - {e}, v.byKey - {e.lockPtr}, chains);
  }

  /** The table object. */
  class Table {
    var hash: LockHash
    ghost var view: View

    ghost predicate Valid()
      reads this, hash.tbl.buckets, view.nodes`lockPtr, view.nodes`hashv,
            view.nodes`prev, view.nodes`next, view.nodes`hhPrev, view.nodes`hhNext
    {
      Represents(hash, view)
    }

    constructor ()
      ensures Valid() && view == View([], {}, map[], []) && fresh(hash.tbl.buckets)
    {
      var none := new Bucket[0];
      hash := LockHash(null, HashTable(none, 0, 0, 0, null, 0, 0, 0, false));
      view := View([], {}, map[], []);
    }

    /** HASH_FIND_PTR: the item with key `k`, if there is one. */
    method Find(k: nat) returns (r: Entry?)
      requires Valid()
      ensures r == if k in view.byKey then view.byKey[k] else null
    {
      r := null;
      if hash.head != null {
        var hashv := HashPtr(k);
        var bkt := ToBkt(hashv, hash.tbl.numBuckets);
        ghost var c := view.chains[bkt];
        ghost var i := 0;
        assert k in view.byKey ==> HasKey(view.byKey, view.byKey[k]) && HasPlace(view.chains, view.byKey[k]);
        assert BucketOk(hash.tbl.buckets[..][bkt], c, view.nodes);
        r := hash.tbl.buckets[bkt].head;
        while r != null
          invariant 0 <= i <= |c| && r == At(c, i)
          invariant forall j | 0 <= j < i :: c[j].lockPtr != k
          decreases |c| - i
        {
          assert HhLinked(c, i, view.nodes) && HasKey(view.byKey, r);
          if r.hashv == hashv && r.lockPtr == k {
            return;
          }
          r := r.hhNext;
          i := i + 1;
        }
      } else {
        NoItems(view.nodes, view.byKey);
      }
    }

    /** One bucket of HASH_FSCK: its chain's back links are right, and how long it is. */
    method FsckBucket(b: nat) returns (ok: bool, count: nat)
      requires Valid() && hash.head != null && b < hash.tbl.numBuckets
      ensures ok && count == hash.tbl.buckets[b].count == |view.chains[b]|
    {
      ghost var c := view.chains[b];
      assert BucketOk(hash.tbl.buckets[..][b], c, view.nodes);
      ok, count := true, 0;
      var thh, prev := hash.tbl.buckets[b].head, null;
      while thh != null
        invariant count <= |c| && thh == At(c, count) && prev == At(c, count - 1) && ok
        decreases |c| - count
      {
        assert HhLinked(c, count, view.nodes);
        ok := ok && prev == thh.hhPrev;
        count := count + 1;
        prev := thh;
        thh := thh.hhNext;
      }
    }

    /** HASH_FSCK, which finds nothing to report. */
    method Fsck() returns (ok: bool)
      requires Valid()
      ensures ok
    {
      ok := true;
      if hash.head != null {
        var count := 0;
        for b := 0 to hash.tbl.numBuckets
          invariant ok && count == SumLengths(view.chains[..b])
        {
          var bktOk, bktCount := FsckBucket(b);
          count := count + bktCount;
          ok := ok && bktOk && hash.tbl.buckets[b].count == bktCount;
          SumLengthsPrefix(view.chains, b);
        }
        assert view.chains[..|view.chains|] == view.chains;
        ok := ok && count == hash.tbl.numItems;
        count := 0;
        var thh, prev := hash.head, null;
        while thh != null
          invariant count <= |view.items| && thh == At(view.items, count) && prev == At(view.items, count - 1) && ok
          decreases |view.items| - count
        {
          assert Linked(view.items, count);
          ok := ok && prev == thh.prev;
          count := count + 1;
          prev := thh;
          thh := thh.next;
        }
        ok := ok && count == hash.tbl.numItems;
      }
    }

    /** HASH_ADD_PTR: a new item with a fresh key goes to the end of the list. */
    method Add(e: Entry)
      requires Valid() && e !in view.nodes && e.lockPtr !in view.byKey
      modifies this, hash.tbl.buckets, e`hashv, e`prev, e`next, e`hhPrev, e`hhNext,
               view.nodes`next, view.nodes`hhPrev, view.nodes`hhNext
      ensures Valid() && view.items == old(view.items) + [e] && view.nodes == old(view.nodes) + {e}
      ensures view.byKey == old(view.byKey)[e.lockPtr := e]
      ensures fresh(hash.tbl.buckets) || hash.tbl.buckets == old(hash.tbl.buckets)
    {
      hash, view := Insert(hash, e, view);
    }

    /** HASH_DEL: the item `e` leaves the table; with the last one the header goes too. */
    method Delete(e: Entry)
      requires Valid() && e in view.nodes
      modifies this, hash.tbl.buckets, view.nodes`prev, view.nodes`next, view.nodes`hhPrev, view.nodes`hhNext
      ensures Valid() && view.items == Without(old(view.items), e) && view.nodes == old(view.nodes) - {e}
      ensures view.byKey == old(view.byKey) - {e.lockPtr} && hash.tbl.buckets == old(hash.tbl.buckets)
    {
      hash, view := Remove(hash, e, view);
    }
  }
}
