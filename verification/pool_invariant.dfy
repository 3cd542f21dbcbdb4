/** What every action of a client and every event of the environment keeps in the pools. */
module PoolInvariant {
  import opened Common
  import opened Tally
  import opened Pools

  // ---- references ----

  ghost predicate Refs(s: State) {
    && s.current < |s.pools|
    && (forall p :: 0 <= p < |s.pools| ==> s.pools[p].size >= 1)
    && (forall c :: 0 <= c < |s.clients| ==> Typed(s, c))
  }

  lemma NextTyped(s: State, c: nat, ch: Choice)
    requires Refs(s) && Idle(s) && Enabled(s, c, ch)
    ensures Typed(Step(s, c, ch), c)
  {
    if s.clients[c].Look? && s.pools[s.clients[c].p].free != [] {
      assert IdleAt(s, s.clients[c].p);
      assert s.pools[s.clients[c].p].free[0] in s.pools[s.clients[c].p].free;
    }
  }

  lemma RefsStep(s: State, c: nat, ch: Choice)
    requires Refs(s) && Idle(s) && Enabled(s, c, ch)
    ensures Refs(Step(s, c, ch))
  {
    var s' := Step(s, c, ch);
    NextTyped(s, c, ch);
    forall d | 0 <= d < |s'.clients| ensures Typed(s', d) {
      assert Typed(s, c) && Typed(s, d);
    }
  }

  // ---- conservation of tabs ----

  /** Accounts for one unit of `created`: a tab in its hands, or a reserved creation slot. */
  predicate Holds(pc: PC, p: nat) {
    PoolOf(pc) == Some(p) && !pc.Top? && !pc.Look? && !pc.Blocked?
  }

  function Holding(p: nat): PC -> int { (pc: PC) => Bit(Holds(pc, p)) }

  function Leasing(p: nat): PC -> int { (pc: PC) => Bit(pc.Leased? && pc.p == p) }

  function RetiredOf(p: nat): Page -> int { (g: Page) => Bit(g.owner == p && g.retired) }

  ghost predicate Counts(s: State) {
    forall p :: 0 <= p < |s.pools| ==> CountsAt(s, p)
  }

  ghost predicate CountsAt(s: State, p: nat)
    requires p < |s.pools|
  {
    var pool := s.pools[p];
    && pool.created == |pool.free| + Sum(Holding(p), s.clients)
    && pool.created <= pool.size
    && pool.busy == Sum(Leasing(p), s.clients)
    && pool.retired == Sum(RetiredOf(p), s.pages)
  }

  /** Nobody is in a generation that does not exist yet. */
  lemma NobodyIn(s: State, p: nat)
    requires Refs(s) && Owned(s) && p >= |s.pools|
    ensures Sum(Holding(p), s.clients) == 0
    ensures Sum(Leasing(p), s.clients) == 0
    ensures Sum(RetiredOf(p), s.pages) == 0
  {
    forall c | 0 <= c < |s.clients| ensures !Holds(s.clients[c], p) && PoolOf(s.clients[c]) != Some(p) {
      assert Typed(s, c);
    }
    SumZero(Holding(p), s.clients);
    SumZero(Leasing(p), s.clients);
    forall g | 0 <= g < |s.pages| ensures s.pages[g].owner != p {
      assert OwnedAt(s, g);
    }
    SumZero(RetiredOf(p), s.pages);
  }

  /** How a client's action moves the weights of generation p. */
  lemma Weights(s: State, c: nat, ch: Choice, p: nat)
    requires Enabled(s, c, ch) && p < |s.pools|
    ensures var pool, pool' := s.pools[p], NextPools(s, c, ch)[p];
            var pc, pc' := s.clients[c], NextPC(s, c, ch);
            && pool'.created - |pool'.free| - pool.created + |pool.free| == Holding(p)(pc') - Holding(p)(pc)
            && pool'.busy - pool.busy == Leasing(p)(pc') - Leasing(p)(pc)
  {
  }

  lemma RetiredCount(s: State, c: nat, ch: Choice, p: nat)
    requires Refs(s) && Held(s) && Enabled(s, c, ch) && p < |s.pools|
    ensures Sum(RetiredOf(p), NextPages(s, c, ch)) - Sum(RetiredOf(p), s.pages)
            == NextPools(s, c, ch)[p].retired - s.pools[p].retired
  {
    var pc, pages' := s.clients[c], NextPages(s, c, ch);
    assert Typed(s, c) && HeldAt(s, c);
    if pc.Opening? && ch.Go? {
      SumAppend(RetiredOf(p), s.pages, pages'[|s.pages|]);
    } else if PageOf(pc).Some? {
      var g := PageOf(pc).value;
      assert pages' == s.pages[g := pages'[g]];
      SumUpdate(RetiredOf(p), s.pages, g, pages'[g]);
    }
  }

  lemma CreatedFits(s: State, c: nat, ch: Choice, p: nat)
    requires Counts(s) && Enabled(s, c, ch) && p < |s.pools|
    ensures NextPools(s, c, ch)[p].created <= NextPools(s, c, ch)[p].size
  {
    assert CountsAt(s, p);
  }

  lemma CountsStep(s: State, c: nat, ch: Choice)
    requires Refs(s) && Counts(s) && Held(s) && Owned(s) && Enabled(s, c, ch)
    ensures Counts(Step(s, c, ch))
  {
    var s' := Step(s, c, ch);
    assert Typed(s, c);
    forall p | 0 <= p < |s'.pools| ensures CountsAt(s', p) {
      SumUpdate(Holding(p), s.clients, c, s'.clients[c]);
      SumUpdate(Leasing(p), s.clients, c, s'.clients[c]);
      if p < |s.pools| {
        assert CountsAt(s, p);
        Weights(s, c, ch, p);
        RetiredCount(s, c, ch, p);
        CreatedFits(s, c, ch, p);
      } else {
        NobodyIn(s, p);
      }
    }
  }

  // ---- wakeups ----

  /** A client that waits on the current channel has nothing to take. */
  ghost predicate WaitsAt(s: State, c: nat)
    requires c < |s.clients|
  {
    s.clients[c].Blocked? ==>
      && s.clients[c].p < |s.pools|
      && var pool, e := s.pools[s.clients[c].p], s.clients[c].e;
         e <= pool.epoch && (e == pool.epoch ==> pool.free == [] && pool.created == pool.size)
  }

  ghost predicate Waits(s: State) {
    forall c :: 0 <= c < |s.clients| ==> Typed(s, c) && WaitsAt(s, c)
  }

  lemma WaitsStep(s: State, c: nat, ch: Choice)
    requires Refs(s) && Idle(s) && Counts(s) && Waits(s) && Enabled(s, c, ch)
    ensures Waits(Step(s, c, ch))
  {
    var s' := Step(s, c, ch);
    RefsStep(s, c, ch);
    forall d | 0 <= d < |s'.clients| ensures Typed(s', d) && WaitsAt(s', d) {
      assert Typed(s, d) && WaitsAt(s, d) && Typed(s, c);
      if d != c && s.clients[d].Blocked? {
        StaysBlocked(s, c, ch, s.clients[d].p, s.clients[d].e);
      } else if s.clients[c].Look? {
        assert CountsAt(s, s.clients[c].p);
      }
    }
  }

  lemma StaysBlocked(s: State, c: nat, ch: Choice, p: nat, e: nat)
    requires Enabled(s, c, ch) && p < |s.pools| && e <= s.pools[p].epoch
    requires e == s.pools[p].epoch ==> s.pools[p].free == [] && s.pools[p].created == s.pools[p].size
    ensures var pool := NextPools(s, c, ch)[p];
            e <= pool.epoch && (e == pool.epoch ==> pool.free == [] && pool.created == pool.size)
  {
  }

  // ---- ownership of tabs ----

  /** A tab in a client's hands: it belongs to the client's generation, is not idle and not retired. */
  ghost predicate HeldAt(s: State, c: nat)
    requires c < |s.clients|
  {
    var pc := s.clients[c];
    PageOf(pc).Some? ==>
      var g := PageOf(pc).value;
      && g < |s.pages|
      && s.pages[g].owner == pc.p && pc.p < |s.pools|
      && !s.pages[g].retired
      && g !in s.pools[pc.p].free
      && (pc.Register? ==> g !in s.pools[pc.p].pages)
  }

  /** No tab is in the hands of two clients. */
  ghost predicate Apart(s: State, c: nat, d: nat)
    requires c < |s.clients| && d < |s.clients|
  {
    c != d && PageOf(s.clients[c]).Some? ==> PageOf(s.clients[c]) != PageOf(s.clients[d])
  }

  ghost predicate Held(s: State) {
    && (forall c :: 0 <= c < |s.clients| ==> HeldAt(s, c))
    && (forall c, d :: 0 <= c < |s.clients| && 0 <= d < |s.clients| ==> Apart(s, c, d))
  }

  /** The tabs listed under sq belong to generation p and work. */
  ghost predicate Proper(pages: seq<Page>, sq: seq<nat>, p: nat) {
    Distinct(sq) && forall g :: g in sq ==> g < |pages| && pages[g].owner == p && !pages[g].retired
  }

  /** The idle tabs of a generation are its own, in working order and listed once. */
  ghost predicate IdleAt(s: State, p: nat)
    requires p < |s.pools|
  {
    Proper(s.pages, s.pools[p].free, p) && Proper(s.pages, s.pools[p].pages, p)
  }

  ghost predicate Idle(s: State) {
    forall p :: 0 <= p < |s.pools| ==> IdleAt(s, p)
  }

  /** No tab is lost: it is retired, idle in its own generation, or in a client's hands. */
  ghost predicate OwnedAt(s: State, g: nat)
    requires g < |s.pages|
  {
    && s.pages[g].owner < |s.pools|
    && (s.pages[g].retired || g in s.pools[s.pages[g].owner].free || InHand(s, g))
  }

  ghost predicate InHand(s: State, g: nat) {
    exists c :: 0 <= c < |s.clients| && PageOf(s.clients[c]) == Some(g)
  }

  ghost predicate Owned(s: State) {
    forall g :: 0 <= g < |s.pages| ==> OwnedAt(s, g)
  }

  lemma {:induction false} WithoutKeeps(s: seq<nat>, g: nat)
    requires Distinct(s)
    ensures Distinct(Without(s, g))
    ensures forall x :: x in Without(s, g) <==> x in s && x != g
  {
    if s != [] {
      var rest := s[1..];
      WithoutKeeps(rest, g);
      if s[0] != g {
        assert s == [s[0]] + rest;
        assert s[0] !in rest;
      } else {
        assert s == [g] + rest && g !in rest;
      }
    }
  }

  lemma HeldSelf(s: State, c: nat, ch: Choice)
    requires Refs(s) && Held(s) && Idle(s) && Enabled(s, c, ch)
    ensures HeldAt(Step(s, c, ch), c)
  {
    var s', pc := Step(s, c, ch), s.clients[c];
    assert Typed(s, c) && HeldAt(s, c);
    if PoolOf(pc).Some? {
      assert IdleAt(s, pc.p);
      if Takes(s.pools[pc.p], pc) {
        FirstIsTaken(s.pools[pc.p].free);
      }
    }
  }

  lemma FirstIsTaken(free: seq<nat>)
    requires free != [] && Distinct(free)
    ensures free[0] !in free[1..] && Distinct(free[1..])
    ensures forall g :: g in free <==> g == free[0] || g in free[1..]
  {
    assert free == [free[0]] + free[1..];
  }

  lemma OthersUnlisted(s: State, c: nat, ch: Choice, p: nat, g: nat)
    requires Refs(s) && Idle(s) && Enabled(s, c, ch) && p < |s.pools|
    requires PageOf(s.clients[c]) != Some(g) && g !in s.pools[p].pages
    ensures g !in Step(s, c, ch).pools[p].pages
  {
    var pc := s.clients[c];
    assert IdleAt(s, p);
    if pc.Unpool? {
      WithoutKeeps(s.pools[p].pages, pc.g);
    }
  }

  lemma HeldOther(s: State, c: nat, ch: Choice, d: nat)
    requires Refs(s) && Held(s) && Idle(s) && Enabled(s, c, ch)
    requires d < |s.clients| && d != c
    ensures HeldAt(Step(s, c, ch), d)
  {
    assert Typed(s, d) && HeldAt(s, d) && Apart(s, d, c);
    if PageOf(s.clients[d]).Some? {
      var p, g := s.clients[d].p, PageOf(s.clients[d]).value;
      if s.clients[d].Register? {
        OthersUnlisted(s, c, ch, p, g);
      }
    }
  }

  lemma ApartOther(s: State, c: nat, ch: Choice, d: nat)
    requires Refs(s) && Held(s) && Idle(s) && Enabled(s, c, ch)
    requires d < |s.clients| && d != c
    ensures Apart(Step(s, c, ch), c, d) && Apart(Step(s, c, ch), d, c)
  {
    var pc := s.clients[c];
    assert Typed(s, c) && HeldAt(s, d) && Apart(s, c, d) && Apart(s, d, c);
    if PoolOf(pc).Some? {
      assert IdleAt(s, pc.p);
    }
  }

  lemma HeldStep(s: State, c: nat, ch: Choice)
    requires Refs(s) && Held(s) && Idle(s) && Enabled(s, c, ch)
    ensures Held(Step(s, c, ch))
  {
    var s' := Step(s, c, ch);
    HeldSelf(s, c, ch);
    forall d | 0 <= d < |s'.clients| && d != c
      ensures HeldAt(s', d) && Apart(s', c, d) && Apart(s', d, c)
    {
      HeldOther(s, c, ch, d);
      ApartOther(s, c, ch, d);
    }
    forall d, e | 0 <= d < |s'.clients| && 0 <= e < |s'.clients| ensures Apart(s', d, e) {
      if d != c && e != c {
        assert Apart(s, d, e);
      }
    }
  }

  lemma IdleStep(s: State, c: nat, ch: Choice)
    requires Refs(s) && Held(s) && Idle(s) && Enabled(s, c, ch)
    ensures Idle(Step(s, c, ch))
  {
    var s' := Step(s, c, ch);
    forall p | 0 <= p < |s'.pools| ensures IdleAt(s', p) {
      FreeStep(s, c, ch, p);
      ListStep(s, c, ch, p);
    }
  }

  lemma FreeStep(s: State, c: nat, ch: Choice, p: nat)
    requires Refs(s) && Held(s) && Idle(s) && Enabled(s, c, ch) && p < |NextPools(s, c, ch)|
    ensures Proper(NextPages(s, c, ch), NextPools(s, c, ch)[p].free, p)
  {
    var pc := s.clients[c];
    assert Typed(s, c) && HeldAt(s, c);
    if p < |s.pools| {
      assert IdleAt(s, p);
      if pc.Look? && Takes(s.pools[p], pc) {
        FirstIsTaken(s.pools[p].free);
      }
    }
  }

  lemma ListStep(s: State, c: nat, ch: Choice, p: nat)
    requires Refs(s) && Held(s) && Idle(s) && Enabled(s, c, ch) && p < |NextPools(s, c, ch)|
    ensures Proper(NextPages(s, c, ch), NextPools(s, c, ch)[p].pages, p)
  {
    var pc := s.clients[c];
    assert Typed(s, c) && HeldAt(s, c);
    if p < |s.pools| {
      assert IdleAt(s, p);
      if pc.Unpool? {
        WithoutKeeps(s.pools[p].pages, pc.g);
      }
    }
  }

  lemma OwnedStep(s: State, c: nat, ch: Choice)
    requires Refs(s) && Held(s) && Idle(s) && Owned(s) && Enabled(s, c, ch)
    ensures Owned(Step(s, c, ch))
  {
    var s' := Step(s, c, ch);
    forall g | 0 <= g < |s'.pages| ensures OwnedAt(s', g) {
      OwnedAtStep(s, c, ch, g);
    }
  }

  lemma OwnedAtStep(s: State, c: nat, ch: Choice, g: nat)
    requires Refs(s) && Held(s) && Idle(s) && Owned(s) && Enabled(s, c, ch) && g < |NextPages(s, c, ch)|
    ensures OwnedAt(Step(s, c, ch), g)
  {
    var s', pc := Step(s, c, ch), s.clients[c];
    assert Typed(s, c) && HeldAt(s, c);
    if g == |s.pages| {
      assert PageOf(s'.clients[c]) == Some(g);
    } else {
      assert OwnedAt(s, g);
      if PageOf(pc) == Some(g) {
        assert PageOf(s'.clients[c]) == Some(g) || pc.Return? || pc.Unpool?;
      } else if InHand(s, g) {
        var d :| 0 <= d < |s.clients| && PageOf(s.clients[d]) == Some(g);
        assert s'.clients[d] == s.clients[d];
      } else if !s.pages[g].retired && PoolOf(pc) == Some(s.pages[g].owner) && Takes(s.pools[pc.p], pc) {
        assert IdleAt(s, pc.p);
        FirstIsTaken(s.pools[pc.p].free);
        assert g in s'.pools[pc.p].free || PageOf(s'.clients[c]) == Some(g);
      }
    }
  }

  // ---- all of it ----

  ghost predicate Inv(s: State) {
    Refs(s) && Counts(s) && Waits(s) && Held(s) && Idle(s) && Owned(s)
  }

  lemma InvInit(s: State)
    requires Init(s)
    ensures Inv(s)
  {
    SumZero(Holding(0), s.clients);
    SumZero(Leasing(0), s.clients);
    assert CountsAt(s, 0) && IdleAt(s, 0);
  }

  lemma InvMove(s: State, c: nat, ch: Choice)
    requires Inv(s) && Enabled(s, c, ch)
    ensures Inv(Step(s, c, ch))
  {
    RefsStep(s, c, ch);
    CountsStep(s, c, ch);
    WaitsStep(s, c, ch);
    HeldStep(s, c, ch);
    IdleStep(s, c, ch);
    OwnedStep(s, c, ch);
  }

  /** The environment's events touch neither the counters nor who has which tab. */
  lemma InvEnvironment(s: State, e: Event)
    requires Inv(s) && Possible(s, e) && !e.Move?
    ensures Inv(Perform(s, e))
  {
    var s' := Perform(s, e);
    forall c | 0 <= c < |s'.clients| ensures Typed(s', c) && WaitsAt(s', c) && HeldAt(s', c) {
      assert Typed(s, c) && WaitsAt(s, c) && HeldAt(s, c);
    }
    forall c, d | 0 <= c < |s'.clients| && 0 <= d < |s'.clients| ensures Apart(s', c, d) {
      assert Apart(s, c, d);
    }
    forall p | 0 <= p < |s'.pools| ensures CountsAt(s', p) && IdleAt(s', p) {
      assert CountsAt(s, p) && IdleAt(s, p);
      if e.Die? {
        SumUpdate(RetiredOf(p), s.pages, e.g, s'.pages[e.g]);
      }
    }
    forall g | 0 <= g < |s'.pages| ensures OwnedAt(s', g) {
      assert OwnedAt(s, g);
    }
  }

  lemma InvPerform(s: State, e: Event)
    requires Inv(s) && Possible(s, e)
    ensures Inv(Perform(s, e))
  {
    if e.Move? {
      InvMove(s, e.c, e.ch);
    } else {
      InvEnvironment(s, e);
    }
  }

  lemma {:induction false} InvRuns(s: State, es: seq<Event>)
    requires Inv(s) && Runs(s, es)
    ensures Inv(After(s, es))
    decreases |es|
  {
    if es != [] {
      InvPerform(s, es[0]);
      InvRuns(Perform(s, es[0]), es[1..]);
    }
  }

  lemma InvReachable(s: State)
    requires Reachable(s)
    ensures Inv(s)
  {
    var s0, es :| Init(s0) && Runs(s0, es) && After(s0, es) == s;
    InvInit(s0);
    InvRuns(s0, es);
  }
}
