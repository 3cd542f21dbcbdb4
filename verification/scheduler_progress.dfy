/** Every caller of the scheduler finishes. */
module SchedulerProgress {
  import opened Common
  import opened Tally
  import opened Scheduler
  import opened SchedulerTally
  import opened SchedulerInvariant

  /** Caller c can move without its context ending; time may pass first. */
  ghost predicate CanMove(cfg: Config, s: State, c: nat) {
    exists ch, t :: Enabled(cfg, s, c, ch, t) && !ch.Cancel?
  }

  ghost predicate AllEnded(s: State) {
    forall c :: 0 <= c < |s.callers| ==> Ended(s.callers[c].pc)
  }

  /** What an action that never waits does next. */
  lemma Moves(cfg: Config, s: State, c: nat, ch: Choice, t: Time)
    requires Enabled(cfg, s, c, ch, t) && !ch.Cancel?
    ensures CanMove(cfg, s, c)
  {
  }

  /** A caller that is not at a select and not inside Do's receives can always move. */
  lemma Unblocked(cfg: Config, s: State, c: nat)
    requires Inv(cfg, s) && c < |s.callers| && !Ended(s.callers[c].pc)
    requires !s.callers[c].pc.Follow? && !s.callers[c].pc.TokenWait? && !s.callers[c].pc.SlotWait?
    ensures CanMove(cfg, s, c)
  {
    var pc := s.callers[c].pc;
    assert RefsAt(s, c) && CallAt(s, c);
    SumAtLeast(Of(Slots), s.callers, c);
    if HostOf(pc).Some? {
      assert CountersAt(s, pc.h);
      SumAtLeast(Of(Tokens(pc.h)), s.callers, c);
    }
    var ch := if pc.Decide? then Pick(0) else if pc.Running? then Answer(Ret("", None)) else Go;
    var t := if pc.Sleep? && pc.until > s.now then pc.until else s.now;
    Moves(cfg, s, c, ch, t);
  }

  /** Whoever waits for a slot can take one, or some holder of a slot can move. */
  lemma SlotProgress(cfg: Config, s: State, c: nat) returns (d: nat)
    requires Inv(cfg, s) && c < |s.callers| && s.callers[c].pc.SlotWait?
    ensures CanMove(cfg, s, d)
  {
    assert RefsAt(s, c);
    if s.slots < cfg.Slots() {
      d := c;
      Moves(cfg, s, c, Go, s.now);
    } else {
      d := SumWitness(Of(Slots), s.callers);
      Unblocked(cfg, s, d);
    }
  }

  /** Whoever waits for a token can take it, or its holder is not stuck. */
  lemma TokenProgress(cfg: Config, s: State, c: nat) returns (d: nat)
    requires Inv(cfg, s) && c < |s.callers| && s.callers[c].pc.TokenWait?
    ensures CanMove(cfg, s, d)
  {
    var h := s.callers[c].pc.h;
    assert RefsAt(s, c) && CountersAt(s, h);
    if !s.objs[h].token {
      d := c;
      Moves(cfg, s, c, Go, s.now);
    } else {
      d := SumWitness(Of(Tokens(h)), s.callers);
      if s.callers[d].pc.SlotWait? {
        d := SlotProgress(cfg, s, d);
      } else {
        Unblocked(cfg, s, d);
      }
    }
  }

  /** A leader that has not returned is not stuck. */
  lemma LeaderProgress(cfg: Config, s: State, c: nat) returns (d: nat)
    requires Inv(cfg, s) && c < |s.callers| && !Ended(s.callers[c].pc) && !s.callers[c].pc.Follow?
    ensures CanMove(cfg, s, d)
  {
    var pc := s.callers[c].pc;
    if pc.SlotWait? {
      d := SlotProgress(cfg, s, c);
    } else if pc.TokenWait? {
      d := TokenProgress(cfg, s, c);
    } else {
      d := c;
      Unblocked(cfg, s, c);
    }
  }

  /**
   No deadlock: while some caller has not finished, some caller can move without any
   context ending. Followers wait for leaders, token waiters for token holders, and
   those at most for slot holders, who never wait for another caller.
   */
  lemma Progress(cfg: Config, s: State, c: nat) returns (d: nat)
    requires Inv(cfg, s) && c < |s.callers| && !Ended(s.callers[c].pc)
    ensures CanMove(cfg, s, d)
  {
    var pc := s.callers[c].pc;
    if pc.Follow? {
      assert RefsAt(s, c) && FollowAt(s, c) && RefsAt(s, pc.leader) && CallAt(s, pc.leader);
      if s.calls[pc.leader].done {
        d := c;
        Moves(cfg, s, c, Go, s.now);
      } else {
        d := LeaderProgress(cfg, s, pc.leader);
      }
    } else {
      d := LeaderProgress(cfg, s, c);
    }
  }

  /** Every step, cancelled or not, uses up some of the work that is left. */
  lemma WorkFalls(cfg: Config, s: State, c: nat, ch: Choice, t: Time)
    requires Enabled(cfg, s, c, ch, t)
    ensures Total(Work, Step(cfg, s, c, ch, t).callers) < Total(Work, s.callers)
  {
    Kinds(cfg, s, c, ch, t);
    SumUpdate(Of(Work), s.callers, c, Step(cfg, s, c, ch, t).callers[c]);
  }

  lemma {:induction false} InitialWork(cs: seq<Caller>)
    requires forall c :: 0 <= c < |cs| ==> cs[c].pc == Ready
    ensures Total(Work, cs) == 28 * |cs|
  {
    if cs != [] {
      InitialWork(cs[..|cs| - 1]);
    }
  }

  lemma {:induction false} WorkBoundsRuns(cfg: Config, s: State, es: seq<Event>)
    requires Runs(cfg, s, es)
    ensures |es| + Total(Work, After(cfg, s, es).callers) <= Total(Work, s.callers)
    decreases |es|
  {
    if es != [] {
      WorkFalls(cfg, s, es[0].c, es[0].ch, es[0].t);
      WorkBoundsRuns(cfg, Step(cfg, s, es[0].c, es[0].ch, es[0].t), es[1..]);
    }
  }

  /** No run is longer than 28 actions per caller, whatever the environment does. */
  lemma EveryRunIsFinite(cfg: Config, s: State, es: seq<Event>)
    requires Init(s) && Runs(cfg, s, es)
    ensures |es| <= 28 * |s.callers|
  {
    InitialWork(s.callers);
    WorkBoundsRuns(cfg, s, es);
  }

  /** A run that cannot be prolonged without a cancellation has served every caller. */
  lemma MaximalRunsServeAll(cfg: Config, s: State, es: seq<Event>)
    requires Init(s) && Runs(cfg, s, es)
    requires forall c :: !CanMove(cfg, After(cfg, s, es), c)
    ensures AllEnded(After(cfg, s, es))
  {
    InvInit(cfg, s);
    InvRuns(cfg, s, es);
    var last := After(cfg, s, es);
    if !AllEnded(last) {
      var c :| 0 <= c < |last.callers| && !Ended(last.callers[c].pc);
      var d := Progress(cfg, last, c);
    }
  }

  /** From every reachable state all callers can be served without cancelling anybody. */
  lemma {:induction false} Completes(cfg: Config, s: State) returns (es: seq<Event>)
    requires Inv(cfg, s)
    ensures Runs(cfg, s, es) && AllEnded(After(cfg, s, es))
    ensures forall e :: e in es ==> !e.ch.Cancel?
    decreases Total(Work, s.callers)
  {
    if AllEnded(s) {
      es := [];
    } else {
      var c :| 0 <= c < |s.callers| && !Ended(s.callers[c].pc);
      var d := Progress(cfg, s, c);
      var ch, t :| Enabled(cfg, s, d, ch, t) && !ch.Cancel?;
      var next := Step(cfg, s, d, ch, t);
      InvStep(cfg, s, d, ch, t);
      WorkFalls(cfg, s, d, ch, t);
      var rest := Completes(cfg, next);
      es := [Event(d, ch, t)] + rest;
      assert es[1..] == rest;
    }
  }

  lemma TotalsAtRest(s: State)
    requires AllEnded(s)
    ensures forall t :: t != Leaders && t != Followers && t != Succeeded ==> Total(t, s.callers) == 0
  {
    forall t | t != Leaders && t != Followers && t != Succeeded ensures Total(t, s.callers) == 0 {
      SumZero(Of(t), s.callers);
    }
  }

  lemma ObjectAtRest(cfg: Config, s: State, h: nat)
    requires Counters(cfg, s) && AllEnded(s) && h < |s.objs|
    ensures !s.objs[h].token && s.objs[h].queued == 0 && s.objs[h].inflight == 0
  {
    TotalsAtRest(s);
    assert CountersAt(s, h);
  }

  lemma NothingInflight(s: State)
    requires Dedupe(s) && AllEnded(s)
    ensures s.inflight.Keys == {}
  {
    assert forall k :: k in s.inflight ==> LeadsKey(s, k);
  }

  lemma CountersAtRest(cfg: Config, s: State)
    requires Counters(cfg, s) && AllEnded(s)
    ensures s.slots == 0 && s.stats.queued == 0 && s.stats.running == 0
    ensures s.stats.total == s.stats.completed + s.stats.failed + s.stats.timedOut
  {
    TotalsAtRest(s);
  }

  /** When all callers have finished, every slot, token and registration is given back. */
  lemma Quiescent(cfg: Config, s: State)
    requires Reachable(cfg, s) && AllEnded(s)
    ensures s.slots == 0 && s.inflight.Keys == {}
    ensures forall h :: 0 <= h < |s.objs| ==> !s.objs[h].token && s.objs[h].queued == 0 && s.objs[h].inflight == 0
    ensures s.stats.queued == 0 && s.stats.running == 0
    ensures s.stats.total == s.stats.completed + s.stats.failed + s.stats.timedOut
  {
    InvReachable(cfg, s);
    CountersAtRest(cfg, s);
    NothingInflight(s);
    forall h | 0 <= h < |s.objs|
      ensures !s.objs[h].token && s.objs[h].queued == 0 && s.objs[h].inflight == 0
    {
      ObjectAtRest(cfg, s, h);
    }
  }
}
