/** From hostState objects to host names: with at most 1024 names, what holds per object holds per name. */
module SchedulerNames {
  import opened Scheduler
  import opened SchedulerTally
  import opened SchedulerSafety

  function Names(cs: seq<Caller>): set<string> {
    set c | 0 <= c < |cs| :: cs[c].host
  }

  /** Two callers for one host name never hold a token at the same time. */
  ghost predicate OnePerName(s: State) {
    forall c: nat, d: nat ::
      c < d < |s.callers| && s.callers[c].host == s.callers[d].host ==>
        !(HoldsToken(s.callers[c].pc) && HoldsToken(s.callers[d].pc))
  }

  /** Two callers for one host name are never inside fn at the same time. */
  ghost predicate OneRunPerName(s: State) {
    forall c: nat, d: nat ::
      c < d < |s.callers| && s.callers[c].host == s.callers[d].host ==> !(s.callers[c].pc.Running? && s.callers[d].pc.Running?)
  }

  predicate SameName(s: State, j: nat, k: nat)
    requires j < |s.runs| && k < |s.runs|
  {
    var c, d := s.runs[j].caller, s.runs[k].caller;
    c < |s.callers| && d < |s.callers| && s.callers[c].host == s.callers[d].host
  }

  /** Run j ended at least the gap before run k began. */
  predicate Clear(cfg: Config, s: State, j: nat, k: nat)
    requires j < |s.runs| && k < |s.runs|
  {
    s.runs[j].finish.Some? && s.runs[j].finish.value.end + cfg.Gap() <= s.runs[k].start
  }

  /** Any two runs for one host name are the gap apart, end to start. */
  ghost predicate SpacedByName(cfg: Config, s: State) {
    forall j: nat, k: nat :: j < k < |s.runs| && SameName(s, j, k) ==> Clear(cfg, s, j, k)
  }

  // ---- up to 1024 names ----

  /** No entry was ever pruned: each caller's object is the one registered for its name. */
  ghost predicate Registered(s: State) {
    && Fit(s.hosts, s.objs)
    && s.hosts.Keys <= Names(s.callers)
    && (forall c :: 0 <= c < |s.callers| ==> RegisteredAt(s, c))
    && (forall k :: 0 <= k < |s.runs| ==> RanAt(s, k))
  }

  /** The object of a run is the one registered for its caller's name. */
  ghost predicate RanAt(s: State, k: nat)
    requires k < |s.runs|
  {
    var run := s.runs[k];
    run.caller < |s.callers| && s.callers[run.caller].host in s.hosts && s.hosts[s.callers[run.caller].host] == run.host
  }

  ghost predicate RegisteredAt(s: State, c: nat)
    requires c < |s.callers|
  {
    var me := s.callers[c];
    HostOf(me.pc).Some? ==> me.host in s.hosts && On(me.pc, s.hosts[me.host])
  }

  lemma NamesKept(cs: seq<Caller>, c: nat, pc: PC)
    requires c < |cs|
    ensures Names(cs[c := cs[c].(pc := pc)]) == Names(cs)
  {
    var cs' := cs[c := cs[c].(pc := pc)];
    forall n | n in Names(cs) ensures n in Names(cs') {
      var d :| 0 <= d < |cs| && cs[d].host == n;
      assert cs'[d].host == n;
    }
  }

  /** With at most 1024 names around, nothing is pruned. */
  lemma NothingPruned(s: State, c: nat, t: Time)
    requires Registered(s) && |Names(s.callers)| <= HOST_LIMIT
    requires c < |s.callers|
    ensures HostsAfter(s.hosts, s.objs, s.callers[c].host, t)
            == s.hosts[s.callers[c].host := HostIndex(s.hosts, s.objs, s.callers[c].host)]
  {
    var name := s.callers[c].host;
    if name !in s.hosts {
      var grown := s.hosts[name := |s.objs|];
      assert name in Names(s.callers);
      assert |Names(s.callers)| == |grown.Keys| + |Names(s.callers) - grown.Keys|;
      assert |grown| == |grown.Keys|;
    }
  }

  lemma RegisteredLead(cfg: Config, s: State, c: nat, ch: Choice, t: Time)
    requires Registered(s) && |Names(s.callers)| <= HOST_LIMIT && Enabled(cfg, s, c, ch, t)
    requires s.callers[c].pc.Lead?
    ensures RegisteredAt(Step(cfg, s, c, ch, t), c)
  {
    NothingPruned(s, c, t);
  }

  lemma RegisteredSelf(cfg: Config, s: State, c: nat, ch: Choice, t: Time)
    requires Registered(s) && Enabled(cfg, s, c, ch, t)
    requires !s.callers[c].pc.Lead?
    ensures RegisteredAt(Step(cfg, s, c, ch, t), c)
  {
    assert RegisteredAt(s, c);
  }

  lemma RegisteredStep(cfg: Config, s: State, c: nat, ch: Choice, t: Time)
    requires Registered(s) && |Names(s.callers)| <= HOST_LIMIT && Enabled(cfg, s, c, ch, t)
    ensures Registered(Step(cfg, s, c, ch, t))
    ensures Names(Step(cfg, s, c, ch, t).callers) == Names(s.callers)
  {
    var s' := Step(cfg, s, c, ch, t);
    NamesKept(s.callers, c, s'.callers[c].pc);
    NothingPruned(s, c, t);
    assert s.callers[c].host in Names(s.callers);
    forall d | 0 <= d < |s'.callers| ensures RegisteredAt(s', d) {
      if d != c {
        assert RegisteredAt(s, d);
      } else if s.callers[c].pc.Lead? {
        RegisteredLead(cfg, s, c, ch, t);
      } else {
        RegisteredSelf(cfg, s, c, ch, t);
      }
    }
    forall k | 0 <= k < |s'.runs| ensures RanAt(s', k) {
      RanStep(cfg, s, c, ch, t, k);
    }
  }

  lemma RanStep(cfg: Config, s: State, c: nat, ch: Choice, t: Time, k: nat)
    requires Registered(s) && |Names(s.callers)| <= HOST_LIMIT && Enabled(cfg, s, c, ch, t)
    requires k < |NextRuns(s, c, ch, t)|
    ensures RanAt(Step(cfg, s, c, ch, t), k)
  {
    NothingPruned(s, c, t);
    if k < |s.runs| {
      assert RanAt(s, k);
    } else {
      assert RegisteredAt(s, c);
    }
  }

  lemma {:induction false} RegisteredRuns(cfg: Config, s: State, es: seq<Event>)
    requires Runs(cfg, s, es) && Registered(s) && |Names(s.callers)| <= HOST_LIMIT
    ensures Registered(After(cfg, s, es)) && Names(After(cfg, s, es).callers) == Names(s.callers)
    decreases |es|
  {
    if es != [] {
      RegisteredStep(cfg, s, es[0].c, es[0].ch, es[0].t);
      RegisteredRuns(cfg, Step(cfg, s, es[0].c, es[0].ch, es[0].t), es[1..]);
    }
  }

  lemma {:induction false} NamesRuns(cfg: Config, s: State, es: seq<Event>)
    requires Runs(cfg, s, es)
    ensures Names(After(cfg, s, es).callers) == Names(s.callers)
    decreases |es|
  {
    if es != [] {
      var s' := Step(cfg, s, es[0].c, es[0].ch, es[0].t);
      NamesKept(s.callers, es[0].c, s'.callers[es[0].c].pc);
      NamesRuns(cfg, s', es[1..]);
    }
  }

  lemma ReachableRegistered(cfg: Config, s: State)
    requires Reachable(cfg, s) && |Names(s.callers)| <= HOST_LIMIT
    ensures Registered(s)
  {
    var s0, es :| Init(s0) && Runs(cfg, s0, es) && After(cfg, s0, es) == s;
    NamesRuns(cfg, s0, es);
    RegisteredRuns(cfg, s0, es);
  }

  lemma OnePerNameWithin(cfg: Config, s: State)
    requires Reachable(cfg, s) && |Names(s.callers)| <= HOST_LIMIT
    ensures OnePerName(s)
  {
    ReachableRegistered(cfg, s);
    forall c: nat, d: nat | c < d < |s.callers| && s.callers[c].host == s.callers[d].host
      ensures !(HoldsToken(s.callers[c].pc) && HoldsToken(s.callers[d].pc))
    {
      assert RegisteredAt(s, c) && RegisteredAt(s, d);
      OneAtName(cfg, s, c, d);
    }
  }

  lemma OneAtName(cfg: Config, s: State, c: nat, d: nat)
    requires Reachable(cfg, s) && c < d < |s.callers| && s.callers[c].host == s.callers[d].host
    requires RegisteredAt(s, c) && RegisteredAt(s, d)
    ensures !(HoldsToken(s.callers[c].pc) && HoldsToken(s.callers[d].pc))
  {
    if HoldsToken(s.callers[c].pc) && HoldsToken(s.callers[d].pc) {
      TokenExclusion(cfg, s, s.hosts[s.callers[c].host], c, d);
    }
  }

  /** The promise of the package, per host name: no two runs together, and the gap between any two. */
  lemma RunsPerNameWithin(cfg: Config, s: State)
    requires Reachable(cfg, s) && |Names(s.callers)| <= HOST_LIMIT
    ensures OneRunPerName(s) && SpacedByName(cfg, s)
  {
    OnePerNameWithin(cfg, s);
    ReachableRegistered(cfg, s);
    forall j: nat, k: nat | j < k < |s.runs| && SameName(s, j, k) ensures Clear(cfg, s, j, k) {
      assert RanAt(s, j) && RanAt(s, k);
      HostGap(cfg, s, j, k);
    }
  }
}
