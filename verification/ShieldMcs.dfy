/**
 * Why a lock needs the shield, src/mcs.h: the MCS lock does not notice a call out of turn. `ShieldLock.NeverMisused`
 * says that there is none through the shield.
 */
module ShieldMcs {
  import opened Runs
  import Mcs

  /** Nobody holds the lock, nobody can get it, and whoever still comes queues behind somebody and waits. */
  ghost predicate Lost(s: Mcs.State) {
    && Mcs.Shape(s) && s.tail != NULL
    && forall u {:trigger Stuck(s, u)} :: 0 <= u < |s.pc| ==> Stuck(s, u)
  }

  ghost predicate Stuck(s: Mcs.State, u: nat)
    requires Mcs.Shape(s) && u < |s.pc|
  {
    && !Mcs.Holds(s.pc[u])
    && (s.pc[u].Test? ==> s.pc[u].prev != NULL)
    && (s.pc[u].Swap? || Mcs.Queued(s.pc[u]) ==> s.locked[u])
  }

  lemma StaysLost(s: Mcs.State, t: nat)
    requires Lost(s)
    ensures Lost(Mcs.Next(s, t))
  {
    if t < |s.pc| {
      assert Stuck(s, t);
      var r := Mcs.Next(s, t);
      forall u: nat | u < |r.pc| ensures Stuck(r, u) { assert Stuck(s, u); }
    }
  }

  /** The holder, whether others wait or not, is about to run `lock_fn` again. */
  lemma ReentryIsLost(s: Mcs.State, t: nat)
    requires Mcs.Inv(s) && t < |s.pc| && s.pc[t].Critical?
    ensures Lost(s.Set(t, Mcs.ClearNext))
  {
    var r := s.Set(t, Mcs.ClearNext);
    Mcs.Neighbours(s, t);
    forall u: nat | u < |r.pc| ensures Stuck(r, u) {
      Mcs.Neighbours(s, u);
      assert u != t ==> Mcs.Queued(s.pc[u]) ==> s.ticket[u] != s.ticket[t];
    }
  }

  /**
   * Why that matters: if a thread that holds the lock called `lock_fn` again, which the shield never lets it do,
   * no thread would ever get the lock again, in whatever way they all go on.
   */
  lemma ReentryHangs(s: Mcs.State, t: nat, sched: seq<nat>)
    requires Mcs.Inv(s) && t < |s.pc| && s.pc[t].Critical?
    ensures var r := Exec(Mcs.Next, s.Set(t, Mcs.ClearNext), sched);
            |r.pc| == |s.pc| && forall u: nat | u < |r.pc| :: !Mcs.Holds(r.pc[u])
  {
    ReentryIsLost(s, t);
    var inv := (r: Mcs.State) => Lost(r) && |r.pc| == |s.pc|;
    forall r, u: nat | inv(r) ensures inv(Mcs.Next(r, u)) { StaysLost(r, u); }
    InvariantHolds(Mcs.Next, inv, s.Set(t, Mcs.ClearNext), sched);
    var r := Exec(Mcs.Next, s.Set(t, Mcs.ClearNext), sched);
    forall u: nat | u < |r.pc| ensures !Mcs.Holds(r.pc[u]) { assert Stuck(r, u); }
  }
}
