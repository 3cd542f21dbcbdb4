/** Every thread of the session manager finishes, so every session it closes gives its tab back. */
module SessionProgress {
  import opened Common
  import opened Tally
  import opened SessionLease

  /** A thread that has not ended can act. */
  lemma NobodyBlocks(s: State, c: nat) returns (ch: Choice)
    requires Inv(s) && c < |s.threads| && !s.threads[c].Ended?
    ensures Enabled(s, c, ch)
  {
    var t := s.threads[c];
    ch := if t.Reaping? then Expired([]) else Go;
    assert ObjectsAt(s, c);
    if t.Shutting? && t.todo != [] {
      assert Times(t.todo, t.todo[0]) == Times(t.todo[1..], t.todo[0]) + 1;
      TimesNatural(t.todo[1..], t.todo[0]);
      assert Ahead(t.todo[0])(t) > 0;
    } else if t.Releasing? {
      assert Underway(t.o)(t) > 0;
    }
  }

  lemma {:induction false} TimesNatural(os: seq<nat>, o: nat)
    ensures 0 <= Times(os, o)
  {
    if os != [] {
      TimesNatural(os[1..], o);
    }
  }

  /** What a thread may still have to do, besides closing the sessions that are registered. */
  function Effort(): Thread -> int {
    (t: Thread) =>
      match t
      case Opening => 6
      case Acquiring(_) => 5
      case Inserting(_, _) => 4
      case Closing(_) => 2
      case Reaping => 2
      case Shutting(todo) => 1 + 3 * |todo|
      case Parking(_, todo) => 3 + 3 * |todo|
      case Releasing(_, todo) => 2 + 3 * |todo|
      case Ended => 0
  }

  function Work(s: State): int { Sum(Effort(), s.threads) + 3 * |s.sessions| }

  function Elements(ids: seq<nat>): set<nat> { set id | id in ids }

  lemma {:induction false} DistinctCount(ids: seq<nat>)
    requires Distinct(ids)
    ensures |Elements(ids)| == |ids|
  {
    if ids != [] {
      var init, last := ids[..|ids| - 1], ids[|ids| - 1];
      DistinctCount(init);
      assert last !in Elements(init) && ids == init + [last];
      assert Elements(ids) == Elements(init) + {last};
    }
  }

  lemma SizeWithout(m: map<nat, nat>, ids: set<nat>)
    requires ids <= m.Keys
    ensures |m - ids| == |m| - |ids|
  {
    assert (m - ids).Keys == m.Keys - ids;
    assert |m - ids| == |(m - ids).Keys| && |m| == |m.Keys|;
  }

  /** How an action changes the number of registered sessions. */
  lemma SessionsChange(s: State, c: nat, ch: Choice)
    requires Inv(s) && Enabled(s, c, ch)
    ensures var t, n, n' := s.threads[c], |s.sessions|, |NextSessions(s, c, ch)|;
            n' == match t
                  case Inserting(_, _) => n + 1
                  case Closing(id) => if id in s.sessions then n - 1 else n
                  case Reaping => n - |ch.ids|
                  case _ => n
  {
    var t := s.threads[c];
    assert IdsAt(s, c);
    if t.Inserting? {
      assert NextSessions(s, c, ch).Keys == s.sessions.Keys + {t.id};
    } else if t.Closing? {
      assert NextSessions(s, c, ch).Keys == s.sessions.Keys - {t.id};
    } else if t.Reaping? {
      DistinctCount(ch.ids);
      SizeWithout(s.sessions, Elements(ch.ids));
      assert NextSessions(s, c, ch) == s.sessions - Elements(ch.ids);
    }
  }

  /** Every action uses up work, whatever is closed or found idle. */
  lemma WorkFalls(s: State, c: nat, ch: Choice)
    requires Inv(s) && Enabled(s, c, ch)
    ensures Work(Step(s, c, ch)) < Work(s)
  {
    SumUpdate(Effort(), s.threads, c, NextThread(s, c, ch));
    SessionsChange(s, c, ch);
  }

  lemma {:induction false} WorkBoundsRuns(s: State, es: seq<Event>)
    requires Inv(s) && Runs(s, es)
    ensures |es| + Work(After(s, es)) <= Work(s)
    decreases |es|
  {
    if es != [] {
      InvStep(s, es[0].c, es[0].ch);
      WorkFalls(s, es[0].c, es[0].ch);
      WorkBoundsRuns(Step(s, es[0].c, es[0].ch), es[1..]);
    }
  }

  /** A run of n threads has at most 6 n actions. */
  lemma EveryRunIsFinite(s: State, es: seq<Event>)
    requires Init(s) && Runs(s, es)
    ensures |es| <= 6 * |s.threads|
  {
    InvInit(s);
    WorkBoundsRuns(s, es);
    WorkIsNatural(After(s, es));
    SumBounded(Effort(), s.threads, 6);
  }

  lemma WorkIsNatural(s: State)
    ensures 0 <= Work(s)
  {
    SumNatural(Effort(), s.threads);
  }

  /** A run that cannot go on has ended every thread, and every session is still open or was released exactly once. */
  lemma MaximalRunsRelease(s: State, es: seq<Event>, o: nat)
    requires Init(s) && Runs(s, es) && o < |After(s, es).objs|
    requires forall c, ch :: !Enabled(After(s, es), c, ch)
    ensures forall c :: 0 <= c < |After(s, es).threads| ==> After(s, es).threads[c].Ended?
    ensures After(s, es).objs[o].released == if Mapped(After(s, es), o) then 0 else 1
  {
    InvInit(s);
    InvRuns(s, es);
    var last := After(s, es);
    forall c | 0 <= c < |last.threads| ensures last.threads[c].Ended? {
      if !last.threads[c].Ended? {
        var ch := NobodyBlocks(last, c);
      }
    }
    assert Reachable(last);
    ReleasedExactlyOnce(last, o);
  }
}
