/** What the invariant says about every reachable state of the pools. */
module PoolSafety {
  import opened Common
  import opened Tally
  import opened Pools
  import opened PoolInvariant

  /** stat never shows more idle and busy tabs than exist, nor more tabs than the pool may have. */
  lemma StatBounds(s: State, p: nat)
    requires Reachable(s) && p < |s.pools|
    ensures 0 <= s.pools[p].busy
    ensures |s.pools[p].free| + s.pools[p].busy <= s.pools[p].created <= s.pools[p].size
  {
    InvReachable(s);
    assert CountsAt(s, p);
    SumMonotone(Leasing(p), Holding(p), s.clients);
    SumNatural(Leasing(p), s.clients);
  }

  /** Every unit of `created` is an idle tab or in some client's hands. */
  lemma Conservation(s: State, p: nat)
    requires Reachable(s) && p < |s.pools|
    ensures s.pools[p].created == |s.pools[p].free| + Sum(Holding(p), s.clients)
    ensures s.pools[p].retired == Sum(RetiredOf(p), s.pages)
  {
    InvReachable(s);
    assert CountsAt(s, p);
  }

  /** The send in release, made while p.mu is held, always finds room. */
  lemma SendNeverBlocks(s: State, c: nat)
    requires Inv(s) && c < |s.clients| && s.clients[c].Return?
    ensures Enabled(s, c, Go)
  {
    var p := s.clients[c].p;
    assert Typed(s, c) && CountsAt(s, p);
    SumAtLeast(Holding(p), s.clients, c);
  }

  /** No lost wakeup: whoever waits on a channel that is still open has nothing to take and no slot to fill. */
  lemma NoLostWakeup(s: State, c: nat)
    requires Reachable(s) && c < |s.clients| && s.clients[c].Blocked?
    ensures s.clients[c].p < |s.pools|
    ensures var pool := s.pools[s.clients[c].p];
            pool.free != [] || pool.created < pool.size ==> s.clients[c].e < pool.epoch
  {
    InvReachable(s);
    assert WaitsAt(s, c) && CountsAt(s, s.clients[c].p);
  }

  ghost predicate Idling(s: State, g: nat) {
    exists p :: 0 <= p < |s.pools| && g in s.pools[p].free
  }

  /** A tab is in exactly one place: retired, idle, or in a client's hands. */
  lemma OnePlace(s: State, g: nat)
    requires Reachable(s) && g < |s.pages|
    ensures s.pages[g].retired || Idling(s, g) || InHand(s, g)
    ensures !(s.pages[g].retired && Idling(s, g))
    ensures !(s.pages[g].retired && InHand(s, g))
    ensures !(Idling(s, g) && InHand(s, g))
  {
    InvReachable(s);
    assert OwnedAt(s, g);
    if Idling(s, g) {
      var p :| 0 <= p < |s.pools| && g in s.pools[p].free;
      assert IdleAt(s, p);
    }
    if InHand(s, g) {
      var c :| 0 <= c < |s.clients| && PageOf(s.clients[c]) == Some(g);
      assert HeldAt(s, c);
    }
  }

  /** No tab is leased twice, whichever generations the two clients came through. */
  lemma OneLease(s: State, c: nat, d: nat)
    requires Reachable(s) && c < |s.clients| && d < |s.clients|
    requires PageOf(s.clients[c]).Some? && PageOf(s.clients[c]) == PageOf(s.clients[d])
    ensures c == d
  {
    InvReachable(s);
    assert Apart(s, c, d);
  }

  /**
   A tab in a client's hands, and every idle tab, belongs to the generation it is filed
   under, even if currentPool has replaced that generation in the meantime.
   */
  lemma OwnGeneration(s: State, p: nat, g: nat)
    requires Reachable(s) && p < |s.pools|
    requires g in s.pools[p].free || exists c :: 0 <= c < |s.clients| && PageOf(s.clients[c]) == Some(g) && s.clients[c].p == p
    ensures g < |s.pages| && s.pages[g].owner == p
  {
    InvReachable(s);
    assert IdleAt(s, p);
    if g !in s.pools[p].free {
      var c :| 0 <= c < |s.clients| && PageOf(s.clients[c]) == Some(g) && s.clients[c].p == p;
      assert HeldAt(s, c);
    }
  }

  /** Retirement is final, and a tab never changes its generation. */
  lemma {:induction false} RetiredForever(s: State, es: seq<Event>, g: nat)
    requires Inv(s) && Runs(s, es) && g < |s.pages|
    ensures g < |After(s, es).pages|
    ensures After(s, es).pages[g].owner == s.pages[g].owner
    ensures s.pages[g].retired ==> After(s, es).pages[g].retired
    decreases |es|
  {
    if es != [] {
      var next := Perform(s, es[0]);
      InvPerform(s, es[0]);
      assert g < |next.pages|;
      RetiredForever(next, es[1..], g);
    }
  }
}
