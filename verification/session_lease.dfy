/**
 The life of a session's tab lease (internal/session/session.go): any number of threads
 open, close and reap sessions at the same time. Each session's release function gives a
 tab back to its pool and may be called once only.
 */
module SessionLease {
  import opened Common
  import opened Tally

  /** A Session object; `released` counts the calls of its release function. */
  datatype Session = Session(closing: bool, released: nat)

  datatype Thread =
    | Opening                           // 136-142: the limit is checked, an id is taken
    | Acquiring(id: nat)                // a tab is leased
    | Inserting(id: nat, o: nat)        // 153-155
    | Closing(id: nat)                  // 171-178: looks the id up and removes it
    | Reaping                           // 194-208: removes the expired sessions
    | Shutting(todo: seq<nat>)          // close() on each: tests and sets `closing`
    | Parking(o: nat, todo: seq<nat>)   // navigates the tab away
    | Releasing(o: nat, todo: seq<nat>) // calls release
    | Ended

  datatype State = State(max: nat, threads: seq<Thread>, nextId: nat, sessions: map<nat, nat>, objs: seq<Session>)

  datatype Choice =
    | Go
    | Fail                   // no tab is available
    | Expired(ids: seq<nat>) // the sessions a reaper finds idle for too long

  predicate Enabled(s: State, c: nat, ch: Choice) {
    && c < |s.threads|
    && match s.threads[c]
       case Acquiring(_) => ch.Go? || ch.Fail?
       case Reaping => ch.Expired? && Distinct(ch.ids) && forall id :: id in ch.ids ==> id in s.sessions
       case Shutting(todo) => ch.Go? && (todo != [] ==> todo[0] < |s.objs|)
       case Releasing(o, _) => ch.Go? && o < |s.objs|
       case Ended => false
       case _ => ch.Go?
  }

  function ObjectsOf(sessions: map<nat, nat>, ids: seq<nat>): seq<nat>
    requires forall id :: id in ids ==> id in sessions
  {
    seq(|ids|, i requires 0 <= i < |ids| => sessions[ids[i]])
  }

  function NextThread(s: State, c: nat, ch: Choice): Thread
    requires Enabled(s, c, ch)
  {
    match s.threads[c]
    case Opening => if |s.sessions| >= s.max then Ended else Acquiring(s.nextId + 1)
    case Acquiring(id) => if ch.Fail? then Ended else Inserting(id, |s.objs|)
    case Inserting(id, o) => Ended
    case Closing(id) => if id in s.sessions then Shutting([s.sessions[id]]) else Ended
    case Reaping => Shutting(ObjectsOf(s.sessions, ch.ids))
    case Shutting(todo) =>
      if todo == [] then Ended
      else if s.objs[todo[0]].closing then Shutting(todo[1..])
      else Parking(todo[0], todo[1..])
    case Parking(o, todo) => Releasing(o, todo)
    case Releasing(o, todo) => Shutting(todo)
  }

  function NextSessions(s: State, c: nat, ch: Choice): map<nat, nat>
    requires Enabled(s, c, ch)
  {
    match s.threads[c]
    case Inserting(id, o) => s.sessions[id := o]
    case Closing(id) => s.sessions - {id}
    case Reaping => s.sessions - (set id | id in ch.ids)
    case _ => s.sessions
  }

  function NextObjs(s: State, c: nat, ch: Choice): seq<Session>
    requires Enabled(s, c, ch)
  {
    match s.threads[c]
    case Acquiring(_) => if ch.Go? then s.objs + [Session(false, 0)] else s.objs
    case Shutting(todo) => if todo != [] then s.objs[todo[0] := s.objs[todo[0]].(closing := true)] else s.objs
    case Releasing(o, _) => s.objs[o := s.objs[o].(released := s.objs[o].released + 1)]
    case _ => s.objs
  }

  function Step(s: State, c: nat, ch: Choice): State
    requires Enabled(s, c, ch)
  {
    State(
      s.max,
      s.threads[c := NextThread(s, c, ch)],
      if s.threads[c].Opening? && |s.sessions| < s.max then s.nextId + 1 else s.nextId,
      NextSessions(s, c, ch),
      NextObjs(s, c, ch))
  }

  datatype Event = Event(c: nat, ch: Choice)

  predicate Init(s: State) {
    && (forall c :: 0 <= c < |s.threads| ==>
          s.threads[c].Opening? || s.threads[c].Closing? || s.threads[c].Reaping?)
    && s.nextId == 0 && s.sessions == map[] && s.objs == []
  }

  predicate Runs(s: State, es: seq<Event>)
    decreases |es|
  {
    es == [] || (Enabled(s, es[0].c, es[0].ch) && Runs(Step(s, es[0].c, es[0].ch), es[1..]))
  }

  function After(s: State, es: seq<Event>): State
    requires Runs(s, es)
    decreases |es|
  {
    if es == [] then s else After(Step(s, es[0].c, es[0].ch), es[1..])
  }

  ghost predicate Reachable(s: State) {
    exists s0, es :: Init(s0) && Runs(s0, es) && After(s0, es) == s
  }

  // ---- where a session is ----

  function Times(os: seq<nat>, o: nat): nat {
    if os == [] then 0 else Times(os[1..], o) + Bit(os[0] == o)
  }

  /** Still to be registered, or still to be shut. */
  function Ahead(o: nat): Thread -> int {
    (t: Thread) =>
      match t
      case Inserting(_, o') => Bit(o' == o)
      case Shutting(todo) => Times(todo, o)
      case Parking(_, todo) => Times(todo, o)
      case Releasing(_, todo) => Times(todo, o)
      case _ => 0
  }

  /** Being shut: `closing` is set and release not called yet. */
  function Underway(o: nat): Thread -> int {
    (t: Thread) =>
      match t
      case Parking(o', _) => Bit(o' == o)
      case Releasing(o', _) => Bit(o' == o)
      case _ => 0
  }

  ghost predicate Mapped(s: State, o: nat) {
    exists id :: id in s.sessions && s.sessions[id] == o
  }

  /** Every object is registered once, or ahead of one thread once, or closing; and closing ends in one release. */
  ghost predicate PlacedAt(s: State, o: nat)
    requires o < |s.objs|
  {
    && Bit(Mapped(s, o)) + Sum(Ahead(o), s.threads) + Bit(s.objs[o].closing) == 1
    && Bit(s.objs[o].closing) == Sum(Underway(o), s.threads) + s.objs[o].released
  }

  /** The ids that openers carry are new and differ. */
  predicate IdsAt(s: State, c: nat)
    requires c < |s.threads|
  {
    var t := s.threads[c];
    t.Acquiring? || t.Inserting? ==> t.id <= s.nextId && t.id !in s.sessions
  }

  predicate IdsApart(s: State, c: nat, d: nat)
    requires c < |s.threads| && d < |s.threads|
  {
    var t, u := s.threads[c], s.threads[d];
    c != d && (t.Acquiring? || t.Inserting?) && (u.Acquiring? || u.Inserting?) ==> t.id != u.id
  }

  ghost predicate ObjectsAt(s: State, c: nat)
    requires c < |s.threads|
  {
    forall o :: o >= |s.objs| ==> Ahead(o)(s.threads[c]) == 0 && Underway(o)(s.threads[c]) == 0
  }

  ghost predicate Inv(s: State) {
    && (forall id :: id in s.sessions ==> id <= s.nextId && s.sessions[id] < |s.objs|)
    && (forall a, b :: a in s.sessions && b in s.sessions && a != b ==> s.sessions[a] != s.sessions[b])
    && (forall c :: 0 <= c < |s.threads| ==> IdsAt(s, c) && ObjectsAt(s, c))
    && (forall c, d :: 0 <= c < |s.threads| && 0 <= d < |s.threads| ==> IdsApart(s, c, d))
    && (forall o :: 0 <= o < |s.objs| ==> PlacedAt(s, o))
  }

  lemma {:induction false} TimesOfObjects(sessions: map<nat, nat>, ids: seq<nat>, o: nat)
    requires forall id :: id in ids ==> id in sessions
    requires Distinct(ids)
    requires forall a, b :: a in sessions && b in sessions && a != b ==> sessions[a] != sessions[b]
    ensures Times(ObjectsOf(sessions, ids), o) == Bit(exists id :: id in ids && sessions[id] == o)
  {
    if ids != [] {
      var rest := ids[1..];
      assert ids == [ids[0]] + rest;
      TimesOfObjects(sessions, rest, o);
      assert ObjectsOf(sessions, ids)[1..] == ObjectsOf(sessions, rest);
      assert ids[0] !in rest;
    }
  }

  lemma TimesOfOne(o': nat, o: nat)
    ensures Times([o'], o) == Bit(o' == o)
  {
    assert [o'][1..] == [];
  }

  lemma MappedMoves(s: State, c: nat, ch: Choice, o: nat)
    requires Inv(s) && Enabled(s, c, ch) && o < |s.objs|
    ensures var s', t := Step(s, c, ch), s.threads[c];
            Mapped(s', o) <==>
              if t.Inserting? && t.o == o then true
              else if t.Closing? && t.id in s.sessions && s.sessions[t.id] == o then false
              else if t.Reaping? && (exists id :: id in ch.ids && s.sessions[id] == o) then false
              else Mapped(s, o)
  {
    var s', t := Step(s, c, ch), s.threads[c];
    assert IdsAt(s, c);
    if t.Inserting? && t.o == o {
      assert s'.sessions[t.id] == o;
    } else if Mapped(s, o) {
      var id :| id in s.sessions && s.sessions[id] == o;
      assert id in s'.sessions ==> s'.sessions[id] == o;
    }
  }

  /** A session that is still ahead of a thread is not registered and not closing. */
  lemma AheadIsAlone(s: State, c: nat, o: nat)
    requires Inv(s) && c < |s.threads| && o < |s.objs| && Ahead(o)(s.threads[c]) > 0
    ensures !Mapped(s, o) && !s.objs[o].closing && Ahead(o)(s.threads[c]) == 1
  {
    assert PlacedAt(s, o);
    SumAtLeast(Ahead(o), s.threads, c);
  }

  /** What an action does to the places of one session: it moves, and closing pays for the release. */
  lemma Balance(s: State, c: nat, ch: Choice, o: nat)
    requires Inv(s) && Enabled(s, c, ch) && o < |s.objs|
    ensures var s', t, t' := Step(s, c, ch), s.threads[c], NextThread(s, c, ch);
            var closed := Bit(s'.objs[o].closing) - Bit(s.objs[o].closing);
            && Bit(Mapped(s', o)) - Bit(Mapped(s, o)) + Ahead(o)(t') - Ahead(o)(t) + closed == 0
            && Underway(o)(t') - Underway(o)(t) + s'.objs[o].released - s.objs[o].released == closed
  {
    var t := s.threads[c];
    MappedMoves(s, c, ch, o);
    if Ahead(o)(t) > 0 {
      AheadIsAlone(s, c, o);
    }
    if t.Reaping? {
      ReapBalance(s, c, ch, o);
    } else if t.Closing? && t.id in s.sessions {
      TimesOfOne(s.sessions[t.id], o);
    } else if t.Shutting? && t.todo != [] {
      assert Times(t.todo, o) == Times(t.todo[1..], o) + Bit(t.todo[0] == o);
      assert Ahead(t.todo[0])(t) > 0;
      AheadIsAlone(s, c, t.todo[0]);
    }
  }

  lemma ReapBalance(s: State, c: nat, ch: Choice, o: nat)
    requires Inv(s) && Enabled(s, c, ch) && o < |s.objs| && s.threads[c].Reaping?
    ensures Ahead(o)(NextThread(s, c, ch)) == Bit(Mapped(s, o)) - Bit(Mapped(Step(s, c, ch), o))
  {
    TimesOfObjects(s.sessions, ch.ids, o);
    MappedMoves(s, c, ch, o);
  }

  lemma PlacedStep(s: State, c: nat, ch: Choice, o: nat)
    requires Inv(s) && Enabled(s, c, ch) && o < |NextObjs(s, c, ch)|
    ensures PlacedAt(Step(s, c, ch), o)
  {
    var s' := Step(s, c, ch);
    SumUpdate(Ahead(o), s.threads, c, s'.threads[c]);
    SumUpdate(Underway(o), s.threads, c, s'.threads[c]);
    if o < |s.objs| {
      assert PlacedAt(s, o);
      Balance(s, c, ch, o);
    } else {
      forall d | 0 <= d < |s.threads| ensures Ahead(o)(s.threads[d]) == 0 && Underway(o)(s.threads[d]) == 0 {
        assert ObjectsAt(s, d);
      }
      SumZero(Ahead(o), s.threads);
      SumZero(Underway(o), s.threads);
      assert !Mapped(s', o);
    }
  }

  lemma ObjectsSelf(s: State, c: nat, ch: Choice)
    requires Inv(s) && Enabled(s, c, ch)
    ensures ObjectsAt(Step(s, c, ch), c)
  {
    var s', t := Step(s, c, ch), s.threads[c];
    assert ObjectsAt(s, c);
    forall o | o >= |s'.objs| ensures Ahead(o)(s'.threads[c]) == 0 && Underway(o)(s'.threads[c]) == 0 {
      NothingBeyond(s, c, ch, o);
    }
  }

  lemma NothingBeyond(s: State, c: nat, ch: Choice, o: nat)
    requires Inv(s) && Enabled(s, c, ch) && o >= |NextObjs(s, c, ch)|
    ensures Ahead(o)(NextThread(s, c, ch)) == 0 && Underway(o)(NextThread(s, c, ch)) == 0
  {
    var t := s.threads[c];
    assert ObjectsAt(s, c);
    assert Ahead(o)(t) == 0 && Underway(o)(t) == 0;
    if t.Reaping? {
      TimesOfObjects(s.sessions, ch.ids, o);
      assert forall id :: id in ch.ids ==> s.sessions[id] < |s.objs|;
    } else if t.Closing? && t.id in s.sessions {
      TimesOfOne(s.sessions[t.id], o);
    } else if t.Shutting? && t.todo != [] {
      assert Times(t.todo, o) == Times(t.todo[1..], o) + Bit(t.todo[0] == o);
    }
  }

  lemma SessionsStep(s: State, c: nat, ch: Choice)
    requires Inv(s) && Enabled(s, c, ch)
    ensures var s' := Step(s, c, ch);
            && (forall id :: id in s'.sessions ==> id <= s'.nextId && s'.sessions[id] < |s'.objs|)
            && (forall a, b :: a in s'.sessions && b in s'.sessions && a != b ==> s'.sessions[a] != s'.sessions[b])
  {
    var t := s.threads[c];
    assert IdsAt(s, c) && ObjectsAt(s, c);
    if t.Inserting? {
      var o := t.o;
      assert Ahead(o)(t) == 1;
      AheadIsAlone(s, c, o);
    }
  }

  lemma IdsStep(s: State, c: nat, ch: Choice, d: nat)
    requires Inv(s) && Enabled(s, c, ch) && d < |s.threads|
    ensures IdsAt(Step(s, c, ch), d)
    ensures IdsApart(Step(s, c, ch), c, d) && IdsApart(Step(s, c, ch), d, c)
  {
    assert IdsAt(s, c) && IdsAt(s, d) && IdsApart(s, c, d) && IdsApart(s, d, c);
  }

  lemma InvStep(s: State, c: nat, ch: Choice)
    requires Inv(s) && Enabled(s, c, ch)
    ensures Inv(Step(s, c, ch))
  {
    var s' := Step(s, c, ch);
    SessionsStep(s, c, ch);
    forall d | 0 <= d < |s'.threads| ensures IdsAt(s', d) && ObjectsAt(s', d) {
      IdsStep(s, c, ch, d);
      if d == c {
        ObjectsSelf(s, c, ch);
      } else {
        assert ObjectsAt(s, d);
      }
    }
    forall d, e | 0 <= d < |s'.threads| && 0 <= e < |s'.threads| ensures IdsApart(s', d, e) {
      if d == c {
        IdsStep(s, c, ch, e);
      } else if e == c {
        IdsStep(s, c, ch, d);
      } else {
        assert IdsApart(s, d, e);
      }
    }
    forall o | 0 <= o < |s'.objs| ensures PlacedAt(s', o) {
      PlacedStep(s, c, ch, o);
    }
  }

  lemma {:induction false} InvRuns(s: State, es: seq<Event>)
    requires Inv(s) && Runs(s, es)
    ensures Inv(After(s, es))
    decreases |es|
  {
    if es != [] {
      InvStep(s, es[0].c, es[0].ch);
      InvRuns(Step(s, es[0].c, es[0].ch), es[1..]);
    }
  }

  lemma InvInit(s: State)
    requires Init(s)
    ensures Inv(s)
  {}

  lemma InvReachable(s: State)
    requires Reachable(s)
    ensures Inv(s)
  {
    var s0, es :| Init(s0) && Runs(s0, es) && After(s0, es) == s;
    InvRuns(s0, es);
  }

  /** Whatever Close and Reap do at the same time, a session's release runs at most once. */
  lemma ReleasedAtMostOnce(s: State, o: nat)
    requires Reachable(s) && o < |s.objs|
    ensures s.objs[o].released <= 1
    ensures Mapped(s, o) ==> s.objs[o].released == 0 && !s.objs[o].closing
  {
    InvReachable(s);
    assert PlacedAt(s, o);
    SumIsNatural(s, o);
  }

  lemma SumIsNatural(s: State, o: nat)
    ensures 0 <= Sum(Ahead(o), s.threads) && 0 <= Sum(Underway(o), s.threads)
  {
    SumNatural(Ahead(o), s.threads);
    SumNatural(Underway(o), s.threads);
  }

  /** When all threads are done, every session is either still open or its release ran exactly once. */
  lemma ReleasedExactlyOnce(s: State, o: nat)
    requires Reachable(s) && o < |s.objs|
    requires forall c :: 0 <= c < |s.threads| ==> s.threads[c].Ended?
    ensures s.objs[o].released == if Mapped(s, o) then 0 else 1
  {
    InvReachable(s);
    assert PlacedAt(s, o);
    SumZero(Ahead(o), s.threads);
    SumZero(Underway(o), s.threads);
  }

  // ---- the session limit ----

  /** Openers between the check of the limit and the insertion. */
  function Pending(): Thread -> int { (t: Thread) => Bit(t.Acquiring? || t.Inserting?) }

  /**
   The limit is exceeded by no more than the number of Opens that passed the check
   together: Open is safe exactly as long as no two of them overlap there.
   */
  lemma {:induction false} SessionsBounded(s: State, es: seq<Event>, slack: nat)
    requires Runs(s, es) && |s.sessions| + Sum(Pending(), s.threads) <= s.max + slack
    requires OverlapsAtMost(s, es, slack + 1)
    ensures |After(s, es).sessions| + Sum(Pending(), After(s, es).threads) <= s.max + slack
    decreases |es|
  {
    if es != [] {
      var c, ch := es[0].c, es[0].ch;
      var next := Step(s, c, ch);
      SumUpdate(Pending(), s.threads, c, next.threads[c]);
      SessionsBounded(next, es[1..], slack);
    }
  }

  /** At no time in the run are more than n Opens between check and insertion. */
  predicate OverlapsAtMost(s: State, es: seq<Event>, n: nat)
    requires Runs(s, es)
    decreases |es|
  {
    Sum(Pending(), s.threads) <= n
    && (es != [] ==> OverlapsAtMost(Step(s, es[0].c, es[0].ch), es[1..], n))
  }

  lemma {:induction false} OverlapsWeaken(s: State, es: seq<Event>, m: nat, n: nat)
    requires Runs(s, es) && OverlapsAtMost(s, es, m) && m <= n
    ensures OverlapsAtMost(s, es, n)
    decreases |es|
  {
    if es != [] {
      OverlapsWeaken(Step(s, es[0].c, es[0].ch), es[1..], m, n);
    }
  }

  // ---- an overrun of every limit ----

  /** The sessions with the ids 1 to n. */
  function Numbered(n: nat): map<nat, nat> {
    if n == 0 then map[] else Numbered(n - 1)[n := n - 1]
  }

  lemma {:induction false} NumberedIds(n: nat)
    ensures |Numbered(n)| == n && forall id :: id in Numbered(n) ==> id <= n
  {
    if n > 0 {
      NumberedIds(n - 1);
      assert Numbered(n).Keys == Numbered(n - 1).Keys + {n};
    }
  }

  function Fresh(m: nat): seq<Session> { seq(m, i => Session(false, 0)) }

  /** max + 1 threads: k have opened a session, the next two stand at a and b, the rest have not begun. */
  function Pair(max: nat, k: nat, a: Thread, b: Thread, nextId: nat, n: nat, m: nat): State {
    State(max, seq(max + 1, i => if i < k then Ended else if i == k then a else if i == k + 1 then b else Opening),
          nextId, Numbered(n), Fresh(m))
  }

  /** k sessions are open and nobody is at work. */
  function Opened(max: nat, k: nat): State { Pair(max, k, Opening, Opening, k, k, k) }

  lemma PairPending(max: nat, k: nat, a: Thread, b: Thread, nextId: nat, n: nat, m: nat)
    requires k < max
    ensures Sum(Pending(), Pair(max, k, a, b, nextId, n, m).threads) == Pending()(a) + Pending()(b)
  {
    var ts := Opened(max, k).threads;
    SumZero(Pending(), ts);
    SumUpdate(Pending(), ts, k, a);
    SumUpdate(Pending(), ts[k := a], k + 1, b);
    assert ts[k := a][k + 1 := b] == Pair(max, k, a, b, nextId, n, m).threads;
  }

  lemma OpenFirst(max: nat, k: nat)
    requires k < max
    ensures Enabled(Opened(max, k), k, Go) && Step(Opened(max, k), k, Go) == Pair(max, k, Acquiring(k + 1), Opening, k + 1, k, k)
  {
    NumberedIds(k);
  }

  lemma OpenSecond(max: nat, k: nat)
    requires k < max
    ensures var s := Pair(max, k, Acquiring(k + 1), Opening, k + 1, k, k);
            Enabled(s, k + 1, Go) && Step(s, k + 1, Go) == Pair(max, k, Acquiring(k + 1), Acquiring(k + 2), k + 2, k, k)
  {
    NumberedIds(k);
  }

  lemma LeaseFirst(max: nat, k: nat, b: Thread, nextId: nat)
    requires k < max
    ensures var s := Pair(max, k, Acquiring(k + 1), b, nextId, k, k);
            Enabled(s, k, Go) && Step(s, k, Go) == Pair(max, k, Inserting(k + 1, k), b, nextId, k, k + 1)
  {
    assert Fresh(k) + [Session(false, 0)] == Fresh(k + 1);
  }

  lemma InsertFirst(max: nat, k: nat, b: Thread, nextId: nat)
    requires k < max
    ensures var s := Pair(max, k, Inserting(k + 1, k), b, nextId, k, k + 1);
            Enabled(s, k, Go) && Step(s, k, Go) == Pair(max, k, Ended, b, nextId, k + 1, k + 1)
  {}

  lemma LeaseSecond(max: nat, k: nat)
    requires k < max
    ensures var s := Pair(max, k, Ended, Acquiring(k + 2), k + 2, k + 1, k + 1);
            Enabled(s, k + 1, Go) && Step(s, k + 1, Go) == Pair(max, k, Ended, Inserting(k + 2, k + 1), k + 2, k + 1, k + 2)
  {
    assert Fresh(k + 1) + [Session(false, 0)] == Fresh(k + 2);
  }

  lemma InsertSecond(max: nat, k: nat)
    requires k < max
    ensures var s := Pair(max, k, Ended, Inserting(k + 2, k + 1), k + 2, k + 1, k + 2);
            Enabled(s, k + 1, Go) && Step(s, k + 1, Go) == Pair(max, k, Ended, Ended, k + 2, k + 2, k + 2)
  {}

  /** A run prolonged at its front by one action. */
  lemma Prepend(s: State, c: nat, next: State, es: seq<Event>, n: nat) returns (all: seq<Event>)
    requires Enabled(s, c, Go) && next == Step(s, c, Go) && Runs(next, es) && OverlapsAtMost(next, es, n)
    requires Sum(Pending(), s.threads) <= n
    ensures Runs(s, all) && After(s, all) == After(next, es) && OverlapsAtMost(s, all, n)
  {
    all := [Event(c, Go)] + es;
    assert all[1..] == es;
  }

  /** Two Opens that have both passed the check insert one session each. */
  lemma BothInsert(max: nat, k: nat) returns (es: seq<Event>)
    requires k < max
    ensures var s := Pair(max, k, Acquiring(k + 1), Acquiring(k + 2), k + 2, k, k);
            Runs(s, es) && OverlapsAtMost(s, es, 2) && |After(s, es).sessions| == k + 2
  {
    var s1 := Pair(max, k, Inserting(k + 1, k), Acquiring(k + 2), k + 2, k, k + 1);
    var s2 := Pair(max, k, Ended, Acquiring(k + 2), k + 2, k + 1, k + 1);
    es := SecondInserts(max, k);
    PairPending(max, k, Inserting(k + 1, k), Acquiring(k + 2), k + 2, k, k + 1);
    InsertFirst(max, k, Acquiring(k + 2), k + 2);
    es := Prepend(s1, k, s2, es, 2);
    PairPending(max, k, Acquiring(k + 1), Acquiring(k + 2), k + 2, k, k);
    LeaseFirst(max, k, Acquiring(k + 2), k + 2);
    es := Prepend(Pair(max, k, Acquiring(k + 1), Acquiring(k + 2), k + 2, k, k), k, s1, es, 2);
  }

  lemma SecondInserts(max: nat, k: nat) returns (es: seq<Event>)
    requires k < max
    ensures var s := Pair(max, k, Ended, Acquiring(k + 2), k + 2, k + 1, k + 1);
            Runs(s, es) && OverlapsAtMost(s, es, 2) && |After(s, es).sessions| == k + 2
  {
    var s3 := Pair(max, k, Ended, Inserting(k + 2, k + 1), k + 2, k + 1, k + 2);
    var s4 := Pair(max, k, Ended, Ended, k + 2, k + 2, k + 2);
    NumberedIds(k + 2);
    PairPending(max, k, Ended, Ended, k + 2, k + 2, k + 2);
    PairPending(max, k, Ended, Inserting(k + 2, k + 1), k + 2, k + 1, k + 2);
    InsertSecond(max, k);
    es := Prepend(s3, k + 1, s4, [], 2);
    PairPending(max, k, Ended, Acquiring(k + 2), k + 2, k + 1, k + 1);
    LeaseSecond(max, k);
    es := Prepend(Pair(max, k, Ended, Acquiring(k + 2), k + 2, k + 1, k + 1), k + 1, s3, es, 2);
  }

  /** With one place left, two Opens pass the check together. */
  lemma LastTwo(max: nat) returns (es: seq<Event>)
    requires max >= 1
    ensures var s := Opened(max, max - 1); Runs(s, es) && OverlapsAtMost(s, es, 2) && |After(s, es).sessions| == max + 1
  {
    var k := max - 1;
    var s1 := Pair(max, k, Acquiring(k + 1), Opening, k + 1, k, k);
    es := BothInsert(max, k);
    PairPending(max, k, Acquiring(k + 1), Opening, k + 1, k, k);
    OpenSecond(max, k);
    es := Prepend(s1, k + 1, Pair(max, k, Acquiring(k + 1), Acquiring(k + 2), k + 2, k, k), es, 2);
    PairPending(max, k, Opening, Opening, k, k, k);
    OpenFirst(max, k);
    es := Prepend(Opened(max, k), k, s1, es, 2);
  }

  /** One session after the other up to one place, then two at once. */
  lemma {:induction false} Overrun(max: nat, k: nat) returns (es: seq<Event>)
    requires k < max
    ensures var s := Opened(max, k); Runs(s, es) && OverlapsAtMost(s, es, 2) && |After(s, es).sessions| == max + 1
    decreases max - k
  {
    if k == max - 1 {
      es := LastTwo(max);
    } else {
      es := Overrun(max, k + 1);
      es := OpensAlone(max, k, es);
    }
  }

  lemma OpensAlone(max: nat, k: nat, rest: seq<Event>) returns (es: seq<Event>)
    requires k + 1 < max
    requires Runs(Opened(max, k + 1), rest) && OverlapsAtMost(Opened(max, k + 1), rest, 2)
    ensures var s := Opened(max, k);
            Runs(s, es) && OverlapsAtMost(s, es, 2) && After(s, es) == After(Opened(max, k + 1), rest)
  {
    var s1 := Pair(max, k, Acquiring(k + 1), Opening, k + 1, k, k);
    var s2 := Pair(max, k, Inserting(k + 1, k), Opening, k + 1, k, k + 1);
    assert Pair(max, k, Ended, Opening, k + 1, k + 1, k + 1).threads == Opened(max, k + 1).threads;
    InsertFirst(max, k, Opening, k + 1);
    PairPending(max, k, Inserting(k + 1, k), Opening, k + 1, k, k + 1);
    es := Prepend(s2, k, Opened(max, k + 1), rest, 2);
    LeaseFirst(max, k, Opening, k + 1);
    PairPending(max, k, Acquiring(k + 1), Opening, k + 1, k, k);
    es := Prepend(s1, k, s2, es, 2);
    OpenFirst(max, k);
    PairPending(max, k, Opening, Opening, k, k, k);
    es := Prepend(Opened(max, k), k, s1, es, 2);
  }

  /** Every limit but zero can be exceeded, with no more than two Opens overlapping. */
  lemma LimitCanBeExceeded(max: nat) returns (s: State, es: seq<Event>)
    requires max >= 1
    ensures Init(s) && s.max == max && Runs(s, es) && OverlapsAtMost(s, es, 2) && |After(s, es).sessions| == max + 1
  {
    s := Opened(max, 0);
    es := Overrun(max, 0);
  }

  /** A limit of zero lets nobody in. */
  lemma {:induction false} NothingOpens(s: State, es: seq<Event>)
    requires Runs(s, es) && s.max == 0 && s.sessions == map[] && Sum(Pending(), s.threads) <= 0
    ensures After(s, es).sessions == map[]
    decreases |es|
  {
    if es != [] {
      var c, ch := es[0].c, es[0].ch;
      var next := Step(s, c, ch);
      SumUpdate(Pending(), s.threads, c, next.threads[c]);
      SumAtLeast(Pending(), s.threads, c);
      NothingOpens(next, es[1..]);
    }
  }

  /** A limit holds in every run in which at most n Opens overlap exactly when n is at most one, or the limit is zero. */
  lemma LimitHoldsExactly(max: nat, n: nat)
    ensures (forall s, es :: Init(s) && s.max == max && Runs(s, es) && OverlapsAtMost(s, es, n) ==> |After(s, es).sessions| <= max)
            <==> n <= 1 || max == 0
  {
    if n <= 1 || max == 0 {
      forall s, es | Init(s) && s.max == max && Runs(s, es) && OverlapsAtMost(s, es, n) ensures |After(s, es).sessions| <= max {
        SumZero(Pending(), s.threads);
        if max == 0 {
          NothingOpens(s, es);
        } else {
          OverlapsWeaken(s, es, n, 1);
          SessionsBounded(s, es, 0);
          SumNatural(Pending(), After(s, es).threads);
        }
      }
    } else {
      var s, es := LimitCanBeExceeded(max);
      OverlapsWeaken(s, es, 2, n);
      assert Init(s) && s.max == max && Runs(s, es) && OverlapsAtMost(s, es, n);
    }
  }
}
