/** Which tabs are used again: what acquire and release test of a tab, over whole runs. */
module PoolReuse {
  import opened Common
  import opened Pools
  import opened PoolInvariant
  import opened PoolProgress
  import opened PoolSafety

  // ---- a condemned tab never comes back ----

  /** Retired, or in the hands of a client whose only way on is to retire it. */
  ghost predicate Condemned(s: State, g: nat) {
    && g < |s.pages|
    && (s.pages[g].retired || exists c :: 0 <= c < |s.clients| && Condemns(s.clients[c], g))
  }

  predicate Condemns(pc: PC, g: nat) {
    match pc
    case Released(_, g', healthy) => g' == g && !healthy
    case Retire(_, g', _) => g' == g
    case Unpool(_, g', _) => g' == g
    case _ => false
  }

  predicate Uses(pc: PC, g: nat) { (pc.Marking? || pc.Leased?) && pc.g == g }

  lemma CondemnedStep(s: State, e: Event, g: nat)
    requires Inv(s) && Possible(s, e) && Condemned(s, g)
    ensures Condemned(Perform(s, e), g)
  {
    var s' := Perform(s, e);
    if !s.pages[g].retired {
      var c :| 0 <= c < |s.clients| && Condemns(s.clients[c], g);
      if !(e.Move? && e.c == c && s.clients[c].Unpool?) {
        assert Condemns(s'.clients[c], g);
      }
    }
  }

  /** A condemned tab is not idle in any generation, and no client is given it. */
  lemma CondemnedIsOut(s: State, g: nat)
    requires Inv(s) && Condemned(s, g)
    ensures !Idling(s, g)
    ensures forall d :: 0 <= d < |s.clients| ==> !Uses(s.clients[d], g)
  {
    if p :| 0 <= p < |s.pools| && g in s.pools[p].free {
      assert IdleAt(s, p);
    }
    forall d | 0 <= d < |s.clients| ensures !Uses(s.clients[d], g) {
      assert HeldAt(s, d);
      if c :| 0 <= c < |s.clients| && Condemns(s.clients[c], g) {
        assert Apart(s, c, d) && HeldAt(s, c);
      }
    }
    if c :| 0 <= c < |s.clients| && Condemns(s.clients[c], g) {
      assert HeldAt(s, c);
    }
  }

  /** Once condemned, a tab stays out of circulation for good, whatever happens. */
  lemma {:induction false} CondemnedForever(s: State, es: seq<Event>, g: nat)
    requires Inv(s) && Runs(s, es) && Condemned(s, g)
    ensures Condemned(After(s, es), g) && !Idling(After(s, es), g)
    ensures forall d :: 0 <= d < |After(s, es).clients| ==> !Uses(After(s, es).clients[d], g)
    decreases |es|
  {
    if es == [] {
      CondemnedIsOut(s, g);
    } else {
      CondemnedStep(s, es[0], g);
      InvPerform(s, es[0]);
      CondemnedForever(Perform(s, es[0]), es[1..], g);
    }
  }

  predicate Done(s: State, c: nat) { c < |s.clients| && s.clients[c].Ended? }

  lemma CondemnedAtRest(s: State, g: nat)
    requires Condemned(s, g) && forall d :: 0 <= d < |s.clients| ==> Done(s, d)
    ensures s.pages[g].retired
  {
    if c :| 0 <= c < |s.clients| && Condemns(s.clients[c], g) {
      assert !Done(s, c);
    }
  }

  // ---- the tests ----

  /** The test at this point of acquire or release, and whether the tab passes it. */
  predicate Passes(s: State, c: nat, ch: Choice)
    requires Enabled(s, c, ch)
  {
    match s.clients[c]
    case Took(_, g) => s.pages[g].alive
    case Leased(_, _) => ch.healthy
    case Released(_, g, _) => s.pages[g].alive
    case Parking(_, g) => ch.Go? && s.pages[g].alive
    case _ => true
  }

  /** Client c passes every test it makes during these events. */
  predicate PassesAll(s: State, es: seq<Event>, c: nat)
    requires Runs(s, es)
    decreases |es|
  {
    es != [] ==>
    && (es[0].Move? && es[0].c == c ==> Passes(s, c, es[0].ch))
    && PassesAll(Perform(s, es[0]), es[1..], c)
  }

  /** At some moment of the run client c puts tab g among the idle tabs of generation p. */
  predicate PutsBack(s: State, es: seq<Event>, c: nat, p: nat, g: nat)
    requires Runs(s, es)
    decreases |es|
  {
    es != [] &&
    ((es[0].Move? && es[0].c == c && s.clients[c] == Return(p, g)) || PutsBack(Perform(s, es[0]), es[1..], c, p, g))
  }

  /** A tab that fails a test is condemned. */
  lemma FailingCondemns(s: State, c: nat, ch: Choice)
    requires Inv(s) && Enabled(s, c, ch) && !Passes(s, c, ch)
    ensures PageOf(s.clients[c]).Some? && Condemned(Step(s, c, ch), PageOf(s.clients[c]).value)
  {
    assert Typed(s, c);
    assert Condemns(Step(s, c, ch).clients[c], PageOf(s.clients[c]).value);
  }

  /** On the way back with tab g, all tests passed so far. */
  predicate GivingBack(pc: PC, p: nat, g: nat) {
    pc == Leased(p, g) || pc == Released(p, g, true) || pc == Parking(p, g) || pc == Return(p, g)
  }

  /** Client c is about to retire tab g, or is done. */
  predicate Scrapping(pc: PC, p: nat, g: nat) {
    pc == Released(p, g, false) || pc == Retire(p, g, false) || pc == Unpool(p, g, false)
  }

  lemma GiveBackStep(s: State, e: Event, c: nat, p: nat, g: nat)
    requires Inv(s) && Possible(s, e) && c < |s.clients| && GivingBack(s.clients[c], p, g)
    ensures var pc' := Perform(s, e).clients[c];
            if !(e.Move? && e.c == c) then pc' == s.clients[c]
            else if !Passes(s, c, e.ch) then Scrapping(pc', p, g)
            else if s.clients[c].Return? then pc'.Ended?
            else GivingBack(pc', p, g) && !pc'.Leased?
  {}

  lemma {:induction false} EndedForever(s: State, es: seq<Event>, c: nat, p: nat, g: nat)
    requires Runs(s, es) && Done(s, c)
    ensures Done(After(s, es), c) && PassesAll(s, es, c) && !PutsBack(s, es, c, p, g)
    decreases |es|
  {
    if es != [] {
      EndedForever(Perform(s, es[0]), es[1..], c, p, g);
    }
  }

  lemma {:induction false} ScrapIsRetired(s: State, es: seq<Event>, c: nat, p: nat, g: nat)
    requires Inv(s) && Runs(s, es) && c < |s.clients| && Scrapping(s.clients[c], p, g) && Done(After(s, es), c)
    ensures g < |After(s, es).pages| && After(s, es).pages[g].retired && !PutsBack(s, es, c, p, g)
    decreases |es|
  {
    assert HeldAt(s, c);
    var next := Perform(s, es[0]);
    InvPerform(s, es[0]);
    if es[0].Move? && es[0].c == c && s.clients[c].Unpool? {
      RetiredForever(next, es[1..], g);
      EndedForever(next, es[1..], c, p, g);
    } else {
      ScrapIsRetired(next, es[1..], c, p, g);
    }
  }

  lemma {:induction false} GiveBackEnds(s: State, es: seq<Event>, c: nat, p: nat, g: nat)
    requires Inv(s) && Runs(s, es) && c < |s.clients| && GivingBack(s.clients[c], p, g) && Done(After(s, es), c)
    ensures PutsBack(s, es, c, p, g) <==> PassesAll(s, es, c)
    ensures g < |After(s, es).pages|
    ensures !PassesAll(s, es, c) ==> After(s, es).pages[g].retired
    decreases |es|
  {
    assert HeldAt(s, c);
    var next := Perform(s, es[0]);
    InvPerform(s, es[0]);
    GiveBackStep(s, es[0], c, p, g);
    RetiredForever(s, es, g);
    if Scrapping(next.clients[c], p, g) {
      ScrapIsRetired(next, es[1..], c, p, g);
    } else if next.clients[c].Ended? {
      EndedForever(next, es[1..], c, p, g);
    } else {
      GiveBackEnds(next, es[1..], c, p, g);
    }
  }

  // ---- what becomes of a released tab ----

  /**
   A client that has given its tab back has put it among the idle tabs exactly when the tab
   passed every test: it was reported healthy, was alive, was parked, and was still alive.
   Otherwise the tab is retired.
   */
  lemma ReleaseReturnsExactly(s: State, es: seq<Event>, c: nat, p: nat, g: nat)
    requires Reachable(s) && Runs(s, es) && c < |s.clients| && s.clients[c] == Leased(p, g) && Done(After(s, es), c)
    ensures PutsBack(s, es, c, p, g) <==> PassesAll(s, es, c)
    ensures !PassesAll(s, es, c) ==> g < |After(s, es).pages| && After(s, es).pages[g].retired
  {
    InvReachable(s);
    GiveBackEnds(s, es, c, p, g);
  }

  /** A tab that failed a test is never idle or leased again, and at rest it is retired. */
  lemma FailedTabsStayOut(s: State, c: nat, ch: Choice, es: seq<Event>)
    requires Reachable(s) && Enabled(s, c, ch) && !Passes(s, c, ch) && Runs(Step(s, c, ch), es)
    ensures PageOf(s.clients[c]).Some?
    ensures var g, s' := PageOf(s.clients[c]).value, After(Step(s, c, ch), es);
            && !Idling(s', g)
            && (forall d :: 0 <= d < |s'.clients| ==> !Uses(s'.clients[d], g))
            && ((forall d :: 0 <= d < |s'.clients| ==> Done(s', d)) ==> g < |s'.pages| && s'.pages[g].retired)
  {
    InvReachable(s);
    InvMove(s, c, ch);
    FailingCondemns(s, c, ch);
    var g, s' := PageOf(s.clients[c]).value, After(Step(s, c, ch), es);
    CondemnedForever(Step(s, c, ch), es, g);
    if forall d :: 0 <= d < |s'.clients| ==> Done(s', d) {
      CondemnedAtRest(s', g);
    }
  }

  /** A tab reported broken is out for good, and retired once its client has ended. */
  lemma BrokenTabsAreRetired(s: State, c: nat, p: nat, g: nat, es: seq<Event>)
    requires Reachable(s) && c < |s.clients| && s.clients[c] == Leased(p, g) && Enabled(s, c, GiveBack(false))
    requires Runs(Step(s, c, GiveBack(false)), es)
    ensures var s' := After(Step(s, c, GiveBack(false)), es);
            && !Idling(s', g)
            && (forall d :: 0 <= d < |s'.clients| ==> !Uses(s'.clients[d], g))
            && (Done(s', c) ==> g < |s'.pages| && s'.pages[g].retired)
  {
    FailedTabsStayOut(s, c, GiveBack(false), es);
    InvReachable(s);
    InvMove(s, c, GiveBack(false));
    if Done(After(Step(s, c, GiveBack(false)), es), c) {
      ScrapIsRetired(Step(s, c, GiveBack(false)), es, c, p, g);
    }
  }

  // ---- where an idle tab comes from ----

  /** Client c gave tab g back as healthy, and from then on it passed every test until it was idle. */
  predicate Earns(s: State, es: seq<Event>, c: nat, p: nat, g: nat)
    requires Runs(s, es)
    decreases |es|
  {
    es != [] &&
    ((es[0] == Move(c, GiveBack(true)) && s.clients[c] == Leased(p, g) && PutsBack(s, es, c, p, g) && PassesAll(s, es, c))
     || Earns(Perform(s, es[0]), es[1..], c, p, g))
  }

  /** The same, seen from the middle of the release. */
  predicate EarnsOn(s: State, es: seq<Event>, c: nat, p: nat, g: nat)
    requires Runs(s, es)
  {
    && c < |s.clients| && GivingBack(s.clients[c], p, g) && !s.clients[c].Leased?
    && PutsBack(s, es, c, p, g) && PassesAll(s, es, c)
  }

  /** The one way into the idle tabs is the end of a release. */
  lemma IdleOnlyByReturn(s: State, e: Event, g: nat)
    requires Inv(s) && Possible(s, e) && Idling(Perform(s, e), g) && !Idling(s, g)
    ensures e.Move? && s.clients[e.c].Return? && s.clients[e.c].g == g
  {
    var s' := Perform(s, e);
    var p :| 0 <= p < |s'.pools| && g in s'.pools[p].free;
    if p < |s.pools| {
      assert g !in s.pools[p].free;
    }
  }

  /** In the middle of its release a client has just passed a test, or has not moved. */
  lemma CameFrom(s: State, e: Event, c: nat, p: nat, g: nat)
    requires Possible(s, e) && c < |s.clients|
    requires var pc' := Perform(s, e).clients[c]; GivingBack(pc', p, g) && !pc'.Leased?
    ensures GivingBack(s.clients[c], p, g)
    ensures e.Move? && e.c == c ==> Passes(s, c, e.ch)
    ensures s.clients[c].Leased? ==> e == Move(c, GiveBack(true))
  {}

  lemma EarnsEarlier(s: State, es: seq<Event>, c: nat, p: nat, g: nat)
    requires Runs(s, es) && es != [] && EarnsOn(Perform(s, es[0]), es[1..], c, p, g)
    ensures EarnsOn(s, es, c, p, g) || Earns(s, es, c, p, g)
  {
    CameFrom(s, es[0], c, p, g);
    assert PutsBack(s, es, c, p, g) && PassesAll(s, es, c);
  }

  /** A tab that was not idle and is idle now was given back healthy and passed every test since. */
  lemma {:induction false} IdleIsEarned(s: State, es: seq<Event>, g: nat)
    requires Inv(s) && Runs(s, es) && Idling(After(s, es), g) && !Idling(s, g)
    ensures exists c, p :: EarnsOn(s, es, c, p, g) || Earns(s, es, c, p, g)
    decreases |es|
  {
    var next, rest := Perform(s, es[0]), es[1..];
    InvPerform(s, es[0]);
    if Idling(next, g) {
      IdleOnlyByReturn(s, es[0], g);
      var c := es[0].c;
      EndedForever(next, rest, c, s.clients[c].p, g);
      assert EarnsOn(s, es, c, s.clients[c].p, g);
    } else {
      IdleIsEarned(next, rest, g);
      var c, p :| EarnsOn(next, rest, c, p, g) || Earns(next, rest, c, p, g);
      if EarnsOn(next, rest, c, p, g) {
        EarnsEarlier(s, es, c, p, g);
      }
      assert EarnsOn(s, es, c, p, g) || Earns(s, es, c, p, g);
    }
  }

  /** Every idle tab was given back healthy by some client and passed all tests of its release. */
  lemma IdleTabsPassedAllTests(s0: State, es: seq<Event>, g: nat)
    requires Init(s0) && Runs(s0, es) && Idling(After(s0, es), g)
    ensures exists c, p :: Earns(s0, es, c, p, g)
  {
    InvInit(s0);
    IdleIsEarned(s0, es, g);
    var c, p :| EarnsOn(s0, es, c, p, g) || Earns(s0, es, c, p, g);
    assert Earns(s0, es, c, p, g);
  }

  // ---- where a leased tab comes from ----

  /** Client c opened tab g itself, or took it from the idle tabs and found it alive. */
  predicate Finds(s: State, es: seq<Event>, c: nat, g: nat)
    requires Runs(s, es)
    decreases |es|
  {
    es != [] &&
    ((es[0] == Move(c, Go) && ((s.clients[c].Register? && s.clients[c].g == g)
                               || (s.clients[c].Took? && s.clients[c].g == g && s.pages[g].alive)))
     || Finds(Perform(s, es[0]), es[1..], c, g))
  }

  /** Nobody gets an idle tab that had died when it was looked at. */
  lemma {:induction false} LeasedTabsWereAlive(s: State, es: seq<Event>, c: nat, g: nat)
    requires Runs(s, es) && c < |s.clients| && c < |After(s, es).clients|
    requires Uses(After(s, es).clients[c], g) && !Uses(s.clients[c], g)
    ensures Finds(s, es, c, g)
    decreases |es|
  {
    var next := Perform(s, es[0]);
    if !Uses(next.clients[c], g) {
      LeasedTabsWereAlive(next, es[1..], c, g);
    }
  }

  /** A tab that was taken from the idle ones goes to the client exactly when it is alive. */
  lemma TakenIsLeasedExactly(s: State, c: nat, p: nat, g: nat)
    requires Reachable(s) && c < |s.clients| && s.clients[c] == Took(p, g)
    ensures Enabled(s, c, Go)
    ensures Step(s, c, Go).clients[c] == Marking(p, g) <==> s.pages[g].alive
    ensures Condemned(Step(s, c, Go), g) <==> !s.pages[g].alive
  {
    InvReachable(s);
    assert Typed(s, c) && HeldAt(s, c);
    InvMove(s, c, Go);
    var s' := Step(s, c, Go);
    if s.pages[g].alive {
      assert Uses(s'.clients[c], g);
      if Condemned(s', g) {
        CondemnedIsOut(s', g);
      }
    } else {
      FailingCondemns(s, c, Go);
    }
  }

  // ---- who ends without a tab ----

  /** On the way to a tab, or with one. */
  predicate Acquiring(pc: PC) {
    match pc
    case Released(_, _, _) | Parking(_, _) | Return(_, _) | Unreserve(_) | Ended => false
    case Retire(_, _, again) => again
    case Unpool(_, _, again) => again
    case _ => true
  }

  /** Client c is refused here: an operation of its own fails, its context ends, or its generation was stopped. */
  predicate RefusedAt(s: State, e: Event, c: nat)
    requires Possible(s, e)
  {
    e.Move? && e.c == c && (e.ch.Fail? || ((s.clients[c].Top? || s.clients[c].Blocked?) && !s.pools[s.clients[c].p].running))
  }

  predicate Refused(s: State, es: seq<Event>, c: nat)
    requires Runs(s, es)
    decreases |es|
  {
    es != [] && (RefusedAt(s, es[0], c) || Refused(Perform(s, es[0]), es[1..], c))
  }

  /** Client c was given a tab and gave it back. */
  predicate Served(es: seq<Event>, c: nat) {
    exists i :: 0 <= i < |es| && es[i].Move? && es[i].c == c && es[i].ch.GiveBack?
  }

  /** A client ends without having had a tab only if it was refused: dead and missing tabs are no reason. */
  lemma {:induction false} ServedOrRefused(s: State, es: seq<Event>, c: nat)
    requires Runs(s, es) && c < |s.clients| && Acquiring(s.clients[c]) && Done(After(s, es), c)
    ensures Served(es, c) || Refused(s, es, c)
    decreases |es|
  {
    var next, rest := Perform(s, es[0]), es[1..];
    if Acquiring(next.clients[c]) {
      ServedOrRefused(next, rest, c);
      if i :| 0 <= i < |rest| && rest[i].Move? && rest[i].c == c && rest[i].ch.GiveBack? {
        assert es[i + 1] == rest[i];
      }
    }
  }

  lemma {:induction false} SameClients(s: State, es: seq<Event>)
    requires Runs(s, es)
    ensures |After(s, es).clients| == |s.clients|
    decreases |es|
  {
    if es != [] {
      SameClients(Perform(s, es[0]), es[1..]);
    }
  }

  /** A run that cannot go on and refused nobody has given every client its tab. */
  lemma EveryoneIsServed(s0: State, es: seq<Event>, c: nat)
    requires Init(s0) && Runs(s0, es) && c < |s0.clients| && !Refused(s0, es, c)
    requires forall d :: !CanMove(After(s0, es), d)
    ensures Served(es, c)
  {
    MaximalRunsServeAll(s0, es);
    SameClients(s0, es);
    ServedOrRefused(s0, es, c);
  }

  // ---- what a sweep reaches ----

  ghost predicate Registering(s: State, p: nat, g: nat) {
    exists c :: 0 <= c < |s.clients| && s.clients[c] == Register(p, g)
  }

  ghost predicate ListedAt(s: State, p: nat, g: nat)
    requires g < |s.pages|
  {
    s.pages[g].owner == p && !s.pages[g].retired && !Registering(s, p, g) ==> p < |s.pools| && g in s.pools[p].pages
  }

  /** The list of a generation has every working tab of it that its client has registered. */
  ghost predicate Listed(s: State, p: nat) {
    forall g :: 0 <= g < |s.pages| ==> ListedAt(s, p, g)
  }

  lemma ListedTabStep(s: State, e: Event, p: nat, g: nat)
    requires Inv(s) && Possible(s, e) && e != CloseAll(p) && g < |s.pages| && ListedAt(s, p, g)
    ensures ListedAt(Perform(s, e), p, g)
  {
    var s' := Perform(s, e);
    assert OwnedAt(s, g);
    if e.Move? {
      assert Typed(s, e.c) && HeldAt(s, e.c);
      if s.clients[e.c].Unpool? {
        assert IdleAt(s, s.clients[e.c].p);
        WithoutKeeps(s.pools[s.clients[e.c].p].pages, s.clients[e.c].g);
      }
    }
    if c :| 0 <= c < |s.clients| && s.clients[c] == Register(p, g) {
      assert s'.clients[c] == Register(p, g) || (e.Move? && e.c == c);
    }
  }

  lemma ListedStep(s: State, e: Event, p: nat)
    requires Inv(s) && Possible(s, e) && e != CloseAll(p) && Listed(s, p)
    ensures Listed(Perform(s, e), p)
  {
    var s' := Perform(s, e);
    forall g | 0 <= g < |s'.pages| ensures ListedAt(s', p, g) {
      if g < |s.pages| {
        ListedTabStep(s, e, p, g);
      } else {
        assert s'.clients[e.c] == Register(s'.pages[g].owner, g);
      }
    }
  }

  lemma {:induction false} ListedRuns(s: State, es: seq<Event>, p: nat)
    requires Inv(s) && Runs(s, es) && CloseAll(p) !in es && Listed(s, p)
    ensures Listed(After(s, es), p)
    decreases |es|
  {
    if es != [] {
      ListedStep(s, es[0], p);
      InvPerform(s, es[0]);
      ListedRuns(Perform(s, es[0]), es[1..], p);
    }
  }

  /** Until a generation is swept, its list has exactly its working tabs, so that the sweep reaches them all. */
  lemma SweepReachesAll(s0: State, es: seq<Event>, p: nat, g: nat)
    requires Init(s0) && Runs(s0, es) && CloseAll(p) !in es && p < |After(s0, es).pools|
    ensures var s := After(s0, es);
            g in s.pools[p].pages
            <==> g < |s.pages| && s.pages[g].owner == p && !s.pages[g].retired && !Registering(s, p, g)
  {
    InvInit(s0);
    InvRuns(s0, es);
    ListedRuns(s0, es, p);
    var s := After(s0, es);
    assert IdleAt(s, p);
    assert g < |s.pages| ==> ListedAt(s, p, g);
    if c :| 0 <= c < |s.clients| && s.clients[c] == Register(p, g) {
      assert HeldAt(s, c);
    }
  }

  // ---- the current generation ----

  lemma {:induction false} CurrentIsNewest(s: State, es: seq<Event>)
    requires Runs(s, es) && s.current == |s.pools| - 1
    ensures After(s, es).current == |After(s, es).pools| - 1
    decreases |es|
  {
    if es != [] {
      CurrentIsNewest(Perform(s, es[0]), es[1..]);
    }
  }

  /** A client starts in the newest generation, which is its own when it has just replaced the old one. */
  lemma StartsInTheNewest(s: State, c: nat, ch: Choice)
    requires Reachable(s) && Enabled(s, c, ch) && s.clients[c].Start? && !ch.Fail?
    ensures var s' := Step(s, c, ch);
            && s'.clients[c] == Top(|s'.pools| - 1) && s'.current == |s'.pools| - 1
            && |s'.pools| == if ch.Replace? then |s.pools| + 1 else |s.pools|
  {
    var s0, es :| Init(s0) && Runs(s0, es) && After(s0, es) == s;
    CurrentIsNewest(s0, es);
  }
}
