/** What a host shows of its runs: the last one that was recorded. */
module SchedulerLastRun {
  import opened Common
  import opened Scheduler
  import opened SchedulerInvariant
  import opened SchedulerReturns

  /** The caller of run k has not recorded it yet. */
  predicate Pending(s: State, k: nat)
    requires k < |s.runs|
  {
    var run := s.runs[k];
    run.caller < |s.callers| && var pc := s.callers[run.caller].pc; pc.Running? || pc.Finished? || pc.Record?
  }

  /** Run k is the last on object h that was recorded, and the object shows it. */
  predicate ShownBy(s: State, h: nat, k: nat)
    requires h < |s.objs|
  {
    && k < |s.runs| && s.runs[k].host == h && !Pending(s, k)
    && s.runs[k].caller < |s.callers| && s.callers[s.runs[k].caller].key == s.objs[h].lastUrl
    && s.runs[k].finish.Some? && s.objs[h].lastAt.Some? && s.runs[k].finish.value.end <= s.objs[h].lastAt.value
    && forall j :: k < j < |s.runs| && s.runs[j].host == h ==> Pending(s, j)
  }

  ghost predicate ShowsLast(s: State, h: nat)
    requires h < |s.objs|
  {
    if s.objs[h].lastAt.None? then forall k :: 0 <= k < |s.runs| && s.runs[k].host == h ==> Pending(s, k)
    else exists k :: ShownBy(s, h, k)
  }

  ghost predicate NoneFollowsPending(s: State) {
    forall j, k :: 0 <= j < k < |s.runs| && s.runs[j].host == s.runs[k].host ==> !Pending(s, j)
  }

  ghost predicate RunsAreLogged(s: State) {
    forall c :: 0 <= c < |s.callers| && InRun(s.callers[c].pc) ==> Ran(s, c)
  }

  ghost predicate Shows(s: State) {
    NoneFollowsPending(s) && RunsAreLogged(s) && forall h :: 0 <= h < |s.objs| ==> ShowsLast(s, h)
  }

  /** A caller that enters a run finds no pending run on its object. */
  lemma NothingPending(cfg: Config, s: State, c: nat, k: nat)
    requires Inv(cfg, s) && c < |s.callers| && s.callers[c].pc.Enter? && k < |s.runs| && s.runs[k].host == s.callers[c].pc.h
    ensures !Pending(s, k)
  {
    assert LoggedAt(s, k);
    if Pending(s, k) {
      OneHolder(cfg, s, s.runs[k].host, c, s.runs[k].caller);
    }
  }

  /** Whether a run is pending changes only when its caller records it. */
  lemma PendingStep(cfg: Config, s: State, e: Event, k: nat)
    requires Inv(cfg, s) && Enabled(cfg, s, e.c, e.ch, e.t) && k < |s.runs|
    ensures var s' := Step(cfg, s, e.c, e.ch, e.t);
            && k < |s'.runs| && s'.runs[k].host == s.runs[k].host && s'.runs[k].caller == s.runs[k].caller
            && (Pending(s', k) <==> Pending(s, k) && !(s.runs[k].caller == e.c && s.callers[e.c].pc.Record?))
            && (!Pending(s, k) ==> s'.runs[k] == s.runs[k])
  {
    assert LoggedAt(s, k);
  }

  lemma PendingOn(cfg: Config, s: State, e: Event, h: nat, k: nat)
    requires Inv(cfg, s) && Enabled(cfg, s, e.c, e.ch, e.t) && k < |NextRuns(s, e.c, e.ch, e.t)| && NextRuns(s, e.c, e.ch, e.t)[k].host == h
    requires !(s.callers[e.c].pc.Record? && s.callers[e.c].pc.h == h)
    ensures Pending(Step(cfg, s, e.c, e.ch, e.t), k) <==> k >= |s.runs| || Pending(s, k)
  {
    if k < |s.runs| {
      PendingStep(cfg, s, e, k);
      assert LoggedAt(s, k);
    }
  }

  lemma ObjectKept(s: State, e: Event, h: nat)
    requires e.c < |s.callers| && Typed(s, e.c) && h < |s.objs| && !(s.callers[e.c].pc.Record? && s.callers[e.c].pc.h == h)
    ensures var objs' := NextObjs(s, e.c, e.ch, e.t);
            h < |objs'| && objs'[h].lastAt == s.objs[h].lastAt && objs'[h].lastUrl == s.objs[h].lastUrl
  {}

  lemma ShownByStep(cfg: Config, s: State, e: Event, h: nat, k: nat)
    requires Inv(cfg, s) && Enabled(cfg, s, e.c, e.ch, e.t) && h < |s.objs| && ShownBy(s, h, k)
    requires !(s.callers[e.c].pc.Record? && s.callers[e.c].pc.h == h)
    ensures h < |NextObjs(s, e.c, e.ch, e.t)| && ShownBy(Step(cfg, s, e.c, e.ch, e.t), h, k)
  {
    var s' := Step(cfg, s, e.c, e.ch, e.t);
    ObjectKept(s, e, h);
    PendingStep(cfg, s, e, k);
    forall j | k < j < |s'.runs| && s'.runs[j].host == h ensures Pending(s', j) {
      PendingOn(cfg, s, e, h, j);
      if j < |s.runs| {
        PendingStep(cfg, s, e, j);
      }
    }
  }

  lemma ShowsLastStep(cfg: Config, s: State, e: Event, h: nat)
    requires Inv(cfg, s) && Enabled(cfg, s, e.c, e.ch, e.t) && h < |s.objs| && ShowsLast(s, h)
    requires !(s.callers[e.c].pc.Record? && s.callers[e.c].pc.h == h)
    ensures h < |NextObjs(s, e.c, e.ch, e.t)| && ShowsLast(Step(cfg, s, e.c, e.ch, e.t), h)
  {
    var s' := Step(cfg, s, e.c, e.ch, e.t);
    ObjectKept(s, e, h);
    if s.objs[h].lastAt.None? {
      forall k | 0 <= k < |s'.runs| && s'.runs[k].host == h ensures Pending(s', k) {
        PendingOn(cfg, s, e, h, k);
        if k < |s.runs| {
          PendingStep(cfg, s, e, k);
        }
      }
    } else {
      var k :| ShownBy(s, h, k);
      ShownByStep(cfg, s, e, h, k);
    }
  }

  lemma ShowsRecorded(cfg: Config, s: State, e: Event)
    requires Inv(cfg, s) && Shows(s) && Enabled(cfg, s, e.c, e.ch, e.t) && s.callers[e.c].pc.Record?
    ensures ShowsLast(Step(cfg, s, e.c, e.ch, e.t), s.callers[e.c].pc.h)
  {
    var k :| 0 <= k < |s.runs| && s.runs[k].caller == e.c;
    assert LoggedAt(s, k);
    PendingStep(cfg, s, e, k);
    assert Pending(s, k);
    assert ShownBy(Step(cfg, s, e.c, e.ch, e.t), s.callers[e.c].pc.h, k);
  }

  lemma NewObjectShowsNothing(cfg: Config, s: State, e: Event, h: nat)
    requires Inv(cfg, s) && Enabled(cfg, s, e.c, e.ch, e.t) && |s.objs| <= h < |NextObjs(s, e.c, e.ch, e.t)|
    ensures ShowsLast(Step(cfg, s, e.c, e.ch, e.t), h)
  {
    forall k | 0 <= k < |s.runs| ensures s.runs[k].host != h {
      assert LoggedAt(s, k);
    }
  }

  lemma OrderStep(cfg: Config, s: State, e: Event)
    requires Inv(cfg, s) && NoneFollowsPending(s) && Enabled(cfg, s, e.c, e.ch, e.t)
    ensures NoneFollowsPending(Step(cfg, s, e.c, e.ch, e.t))
  {
    var s' := Step(cfg, s, e.c, e.ch, e.t);
    forall j, k | 0 <= j < k < |s'.runs| && s'.runs[j].host == s'.runs[k].host ensures !Pending(s', j) {
      PendingStep(cfg, s, e, j);
      if k < |s.runs| {
        PendingStep(cfg, s, e, k);
      } else {
        NothingPending(cfg, s, e.c, j);
      }
    }
  }

  lemma LogsStep(cfg: Config, s: State, e: Event)
    requires RunsAreLogged(s) && Enabled(cfg, s, e.c, e.ch, e.t)
    ensures RunsAreLogged(Step(cfg, s, e.c, e.ch, e.t))
  {
    var s' := Step(cfg, s, e.c, e.ch, e.t);
    forall c | 0 <= c < |s'.callers| && InRun(s'.callers[c].pc) ensures Ran(s', c) {
      RanStep(cfg, s, e.c, e.ch, e.t, c);
    }
  }

  lemma ShowsStep(cfg: Config, s: State, e: Event)
    requires Inv(cfg, s) && Shows(s) && Enabled(cfg, s, e.c, e.ch, e.t)
    ensures Shows(Step(cfg, s, e.c, e.ch, e.t))
  {
    var s' := Step(cfg, s, e.c, e.ch, e.t);
    OrderStep(cfg, s, e);
    LogsStep(cfg, s, e);
    forall h | 0 <= h < |s'.objs| ensures ShowsLast(s', h) {
      if h >= |s.objs| {
        NewObjectShowsNothing(cfg, s, e, h);
      } else if s.callers[e.c].pc.Record? && s.callers[e.c].pc.h == h {
        ShowsRecorded(cfg, s, e);
      } else {
        ShowsLastStep(cfg, s, e, h);
      }
    }
  }

  lemma {:induction false} ShowsRuns(cfg: Config, s: State, es: seq<Event>)
    requires Inv(cfg, s) && Shows(s) && Runs(cfg, s, es)
    ensures Shows(After(cfg, s, es))
    decreases |es|
  {
    if es != [] {
      InvStep(cfg, s, es[0].c, es[0].ch, es[0].t);
      ShowsStep(cfg, s, es[0]);
      ShowsRuns(cfg, Step(cfg, s, es[0].c, es[0].ch, es[0].t), es[1..]);
    }
  }

  lemma ShowsAfter(cfg: Config, s0: State, es: seq<Event>)
    requires Init(s0) && Runs(cfg, s0, es)
    ensures Shows(After(cfg, s0, es))
  {
    InvInit(cfg, s0);
    ShowsRuns(cfg, s0, es);
  }

  /** Every host shows the key and a time of the last run that was recorded on it, and none when there was no such run. */
  lemma LastRunIsShown(cfg: Config, s: State, h: nat)
    requires Reachable(cfg, s) && h < |s.objs|
    ensures ShowsLast(s, h)
  {
    var s0, es :| Init(s0) && Runs(cfg, s0, es) && After(cfg, s0, es) == s;
    ShowsAfter(cfg, s0, es);
  }
}
