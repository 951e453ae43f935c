/** Sums of natural-number weights, the measures of the progress proofs. */
module Sums {

  function Sum(ws: seq<nat>): nat {
    if ws == [] then 0 else ws[0] + Sum(ws[1..])
  }

  lemma {:induction false} SumUpdate(ws: seq<nat>, i: nat, w: nat)
    requires i < |ws|
    ensures Sum(ws[i := w]) == Sum(ws) - ws[i] + w
  {
    if i == 0 {
      assert ws[i := w][1..] == ws[1..];
    } else {
      SumUpdate(ws[1..], i - 1, w);
      assert ws[i := w][1..] == ws[1..][i - 1 := w];
    }
  }

  /** The measure of threads at program counters `pc`, each weighed by how far it is from the end of its call. */
  function Total<P>(rank: P -> nat, pc: seq<P>): nat {
    Sum(seq(|pc|, i requires 0 <= i < |pc| => rank(pc[i])))
  }

  lemma TotalFalls<P>(rank: P -> nat, pc: seq<P>, t: nat, p: P)
    requires t < |pc| && rank(p) < rank(pc[t])
    ensures Total(rank, pc[t := p]) < Total(rank, pc)
  {
    var ws := seq(|pc|, i requires 0 <= i < |pc| => rank(pc[i]));
    var r := pc[t := p];
    assert seq(|r|, i requires 0 <= i < |r| => rank(r[i])) == ws[t := rank(p)];
    SumUpdate(ws, t, rank(p));
  }

  /** Pigeonhole: distinct numbers below `n` are at most `n` many. */
  lemma {:induction false} DistinctBounded(xs: seq<nat>, n: nat)
    requires forall i | 0 <= i < |xs| :: xs[i] < n
    requires forall i, j | 0 <= i < j < |xs| :: xs[i] != xs[j]
    ensures |xs| <= n
  {
    if xs != [] {
      assert xs[0] < n;
      if k :| 0 <= k < |xs| && xs[k] == n - 1 {
        DistinctBounded(xs[..k] + xs[k + 1..], n - 1);
      } else {
        DistinctBounded(xs, n - 1);
      }
    }
  }
}
