/** No client of the pools waits for ever. */
module PoolProgress {
  import opened Tally
  import opened Pools
  import opened PoolInvariant
  import opened PoolSafety

  ghost predicate AllEnded(s: State) {
    forall c :: 0 <= c < |s.clients| ==> s.clients[c].Ended?
  }

  /** Client c can move without its context ending and without an operation failing. */
  ghost predicate CanMove(s: State, c: nat) {
    exists ch :: Enabled(s, c, ch) && !ch.Fail?
  }

  lemma Unblocked(s: State, c: nat)
    requires Inv(s) && c < |s.clients| && !s.clients[c].Ended? && !s.clients[c].Blocked?
    ensures CanMove(s, c)
  {
    assert Typed(s, c);
    if s.clients[c].Return? {
      SendNeverBlocks(s, c);
    }
    var ch := if s.clients[c].Leased? then GiveBack(true) else Go;
    assert Enabled(s, c, ch) && !ch.Fail?;
  }

  /**
   While some client has not finished, some client can move. A waiter whose channel is
   still open faces a full pool without idle tabs, so somebody has one of its tabs in hand.
   */
  lemma Progress(s: State, c: nat) returns (d: nat)
    requires Inv(s) && c < |s.clients| && !s.clients[c].Ended?
    ensures CanMove(s, d)
  {
    d := c;
    if s.clients[c].Blocked? {
      var p := s.clients[c].p;
      assert Typed(s, c) && WaitsAt(s, c) && CountsAt(s, p);
      if s.clients[c].e < s.pools[p].epoch {
        assert Enabled(s, c, Go) && !Go.Fail?;
      } else {
        d := SumWitness(Holding(p), s.clients);
        Unblocked(s, d);
      }
    } else {
      Unblocked(s, c);
    }
  }

  // ---- a bound on the work ----

  /** How many notifications a client may still cause, besides those of the tabs that exist. */
  function Budget(): PC -> int {
    (pc: PC) =>
      match pc
      case Start | Top(_) | Look(_) | Blocked(_, _) | Took(_, _) => 2
      case Retire(_, _, again) => if again then 2 else 1
      case Unpool(_, _, again) => if again then 2 else 1
      case Ended => 0
      case _ => 1
  }

  function Created(): Pool -> int { (pool: Pool) => pool.created }

  /** Falls with every notification and never rises. */
  function Notifications(s: State): int {
    Sum(Budget(), s.clients) + Sum(Created(), s.pools)
  }

  predicate Woken(pools: seq<Pool>, pc: PC) {
    pc.Blocked? && pc.p < |pools| && pc.e < pools[pc.p].epoch
  }

  const MAX_RANK := 16

  /** Falls with every action of a client that notifies nobody. */
  function Rank(pools: seq<Pool>): PC -> int {
    (pc: PC) =>
      match pc
      case Start => 16
      case Blocked(_, _) => if Woken(pools, pc) then 15 else 1
      case Top(_) => 14
      case Look(_) => 13
      case Took(_, _) => 12
      case Numbering(_) => 12
      case Opening(_) => 11
      case Unreserve(_) => 10
      case Register(_, _) => 10
      case Marking(_, _) => 9
      case Leased(_, _) => 8
      case Released(_, _, _) => 7
      case Parking(_, _) => 6
      case Return(_, _) => 5
      case Retire(_, _, _) => 4
      case Unpool(_, _, _) => 3
      case Ended => 0
  }

  function Ranks(s: State): int { Sum(Rank(s.pools), s.clients) }

  /** An upper bound of the actions the clients can still take. */
  function Work(s: State): int {
    Notifications(s) * (MAX_RANK * |s.clients| + 1) + Ranks(s)
  }

  lemma RanksBounded(s: State)
    ensures 0 <= Ranks(s) <= MAX_RANK * |s.clients|
  {
    SumNatural(Rank(s.pools), s.clients);
    SumBounded(Rank(s.pools), s.clients, MAX_RANK);
  }

  lemma CreatedChange(s: State, c: nat, ch: Choice)
    requires Enabled(s, c, ch)
    ensures var pc := s.clients[c];
            Sum(Created(), NextPools(s, c, ch)) - Sum(Created(), s.pools)
            == if PoolOf(pc).None? then 0 else Bit(Reserves(s.pools[pc.p], pc)) - Bit(pc.Unreserve? || pc.Unpool?)
  {
    var pc, pools' := s.clients[c], NextPools(s, c, ch);
    if pc.Start? && ch.Replace? {
      SumAppend(Created(), s.pools, NewPool(ch.size));
    } else if PoolOf(pc).Some? {
      SumUpdate(Created(), s.pools, pc.p, pools'[pc.p]);
    }
  }

  lemma NotificationsFall(s: State, c: nat, ch: Choice)
    requires Enabled(s, c, ch)
    ensures Notifications(Step(s, c, ch)) <= Notifications(s) - Bit(Notifies(s.clients[c]))
  {
    CreatedChange(s, c, ch);
    SumUpdate(Budget(), s.clients, c, NextPC(s, c, ch));
    BudgetChange(s, c, ch);
  }

  lemma BudgetChange(s: State, c: nat, ch: Choice)
    requires Enabled(s, c, ch)
    ensures var pc := s.clients[c];
            var made := if PoolOf(pc).None? then 0 else Bit(Reserves(s.pools[pc.p], pc)) - Bit(pc.Unreserve? || pc.Unpool?);
            Budget()(NextPC(s, c, ch)) + made <= Budget()(pc) - Bit(Notifies(pc))
  {
  }

  /** Without a notification the others keep their rank, and the acting client's falls. */
  lemma RanksFall(s: State, c: nat, ch: Choice)
    requires Refs(s) && Waits(s) && Enabled(s, c, ch) && !Notifies(s.clients[c])
    ensures Ranks(Step(s, c, ch)) < Ranks(s)
  {
    var s' := Step(s, c, ch);
    forall d | 0 <= d < |s'.clients| ensures Rank(s'.pools)(s'.clients[d]) <= Rank(s.pools)(s'.clients[d]) {
      if d != c {
        assert Typed(s, d);
        SameEpochs(s, c, ch, s.clients[d]);
      } else {
        OwnRank(s, c, ch);
      }
    }
    SumMonotone(Rank(s'.pools), Rank(s.pools), s'.clients);
    SumUpdate(Rank(s.pools), s.clients, c, s'.clients[c]);
    OwnRank(s, c, ch);
  }

  lemma SameEpochs(s: State, c: nat, ch: Choice, pc: PC)
    requires Enabled(s, c, ch) && !Notifies(s.clients[c])
    requires PoolOf(pc).Some? ==> PoolOf(pc).value < |s.pools|
    ensures Woken(NextPools(s, c, ch), pc) == Woken(s.pools, pc)
  {
  }

  lemma OwnRank(s: State, c: nat, ch: Choice)
    requires Refs(s) && Waits(s) && Enabled(s, c, ch) && !Notifies(s.clients[c])
    ensures var pc' := NextPC(s, c, ch);
            && Rank(NextPools(s, c, ch))(pc') <= Rank(s.pools)(pc')
            && Rank(s.pools)(pc') < Rank(s.pools)(s.clients[c])
  {
    assert WaitsAt(s, c);
  }

  /** Every action of a client uses up work. */
  lemma WorkFalls(s: State, c: nat, ch: Choice)
    requires Inv(s) && Enabled(s, c, ch)
    ensures Work(Step(s, c, ch)) < Work(s)
  {
    var s' := Step(s, c, ch);
    var k := MAX_RANK * |s.clients| + 1;
    NotificationsFall(s, c, ch);
    RanksBounded(s);
    RanksBounded(s');
    if Notifies(s.clients[c]) {
      Scaled(Notifications(s'), Notifications(s) - 1, k);
      assert (Notifications(s) - 1) * k == Notifications(s) * k - k;
    } else {
      RanksFall(s, c, ch);
      Scaled(Notifications(s'), Notifications(s), k);
    }
  }

  lemma Scaled(a: int, b: int, k: nat)
    requires a <= b
    ensures a * k <= b * k
  {
  }

  /** The environment's events leave the work as it is. */
  lemma WorkKept(s: State, e: Event)
    requires Possible(s, e) && !e.Move?
    ensures Work(Perform(s, e)) == Work(s)
  {
    var s' := Perform(s, e);
    if !e.Die? {
      SumUpdate(Created(), s.pools, e.p, s'.pools[e.p]);
    }
    forall d | 0 <= d < |s.clients| ensures Rank(s'.pools)(s.clients[d]) == Rank(s.pools)(s.clients[d]) {
    }
    SumMonotone(Rank(s'.pools), Rank(s.pools), s.clients);
    SumMonotone(Rank(s.pools), Rank(s'.pools), s.clients);
  }

  function Moves(es: seq<Event>): nat {
    if es == [] then 0 else Bit(es[0].Move?) + Moves(es[1..])
  }

  lemma WorkIsNatural(s: State)
    requires Inv(s)
    ensures 0 <= Work(s)
  {
    RanksBounded(s);
    SumNatural(Budget(), s.clients);
    CreatedNatural(s, |s.pools|);
    assert s.pools[..|s.pools|] == s.pools;
    Scaled(0, Notifications(s), MAX_RANK * |s.clients| + 1);
  }

  lemma {:induction false} CreatedNatural(s: State, n: nat)
    requires Inv(s) && n <= |s.pools|
    ensures 0 <= Sum(Created(), s.pools[..n])
  {
    if n > 0 {
      assert s.pools[..n][..n - 1] == s.pools[..n - 1];
      CreatedNatural(s, n - 1);
      assert CountsAt(s, n - 1);
      SumNatural(Holding(n - 1), s.clients);
    }
  }

  /** In a run the clients act at most Work times, whatever Chrome does in between. */
  lemma {:induction false} WorkBoundsRuns(s: State, es: seq<Event>)
    requires Inv(s) && Runs(s, es)
    ensures Moves(es) + Work(After(s, es)) <= Work(s)
    decreases |es|
  {
    if es != [] {
      var next := Perform(s, es[0]);
      InvPerform(s, es[0]);
      if es[0].Move? {
        WorkFalls(s, es[0].c, es[0].ch);
      } else {
        WorkKept(s, es[0]);
      }
      WorkBoundsRuns(next, es[1..]);
    }
  }

  lemma NotificationsAtStart(s: State)
    requires Init(s)
    ensures Notifications(s) <= 2 * |s.clients|
  {
    SumBounded(Budget(), s.clients, 2);
    assert s.pools == [] + [s.pools[0]];
    SumAppend(Created(), [], s.pools[0]);
  }

  lemma WorkAtMost(s: State, m: int)
    requires Notifications(s) <= m
    ensures Work(s) <= m * (MAX_RANK * |s.clients| + 1) + MAX_RANK * |s.clients|
  {
    RanksBounded(s);
    Scaled(Notifications(s), m, MAX_RANK * |s.clients| + 1);
  }

  lemma MovesAtMostWork(s: State, es: seq<Event>)
    requires Init(s) && Runs(s, es)
    ensures Moves(es) <= Work(s)
  {
    InvInit(s);
    InvRuns(s, es);
    WorkBoundsRuns(s, es);
    WorkIsNatural(After(s, es));
  }

  /** A bound in the number of clients alone: 2N notifications, between them 16N actions. */
  lemma EveryRunIsFinite(s: State, es: seq<Event>)
    requires Init(s) && Runs(s, es)
    ensures var n := |s.clients|; Moves(es) <= 2 * n * (MAX_RANK * n + 1) + MAX_RANK * n
  {
    NotificationsAtStart(s);
    WorkAtMost(s, 2 * |s.clients|);
    MovesAtMostWork(s, es);
  }

  /** When no client can move any more, every client has finished and no tab is missing. */
  lemma MaximalRunsServeAll(s: State, es: seq<Event>)
    requires Init(s) && Runs(s, es)
    requires forall c :: !CanMove(After(s, es), c)
    ensures AllEnded(After(s, es))
    ensures forall p :: 0 <= p < |After(s, es).pools| ==> At(After(s, es), p)
  {
    InvInit(s);
    InvRuns(s, es);
    var last := After(s, es);
    if !AllEnded(last) {
      var c :| 0 <= c < |last.clients| && !last.clients[c].Ended?;
      var d := Progress(last, c);
    }
    forall p | 0 <= p < |last.pools| ensures At(last, p) {
      assert CountsAt(last, p);
      SumZero(Holding(p), last.clients);
      SumZero(Leasing(p), last.clients);
    }
  }

  /** At rest, the tabs of a generation are exactly its idle tabs. */
  ghost predicate At(s: State, p: nat)
    requires p < |s.pools|
  {
    s.pools[p].created == |s.pools[p].free| && s.pools[p].busy == 0
  }
}
