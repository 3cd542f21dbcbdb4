/** What the invariant says about every reachable state of the scheduler. */
module SchedulerSafety {
  import opened Common
  import opened Tally
  import opened Scheduler
  import opened SchedulerTally
  import opened SchedulerInvariant

  ghost function Inside(s: State): set<nat> {
    set c: nat | c < |s.callers| && s.callers[c].pc.Running?
  }

  lemma {:induction false} InsideIsCounted(cs: seq<Caller>, inside: set<nat>)
    requires inside == set c: nat | c < |cs| && cs[c].pc.Running?
    ensures |inside| <= Total(Slots, cs)
  {
    if cs != [] {
      var n := |cs| - 1;
      var rest := set c: nat | c < n && cs[..n][c].pc.Running?;
      InsideIsCounted(cs[..n], rest);
      assert inside == if cs[n].pc.Running? then rest + {n} else rest;
    }
  }

  /** At most MaxSlots callers are inside fn. */
  lemma SlotExclusion(cfg: Config, s: State)
    requires Reachable(cfg, s)
    ensures |Inside(s)| <= cfg.Slots()
  {
    InvReachable(cfg, s);
    InsideIsCounted(s.callers, Inside(s));
  }

  /** At most one caller per hostState object is between taking and returning its token. */
  lemma TokenExclusion(cfg: Config, s: State, h: nat, c: nat, d: nat)
    requires Reachable(cfg, s)
    requires c < |s.callers| && HoldsToken(s.callers[c].pc) && On(s.callers[c].pc, h)
    requires d < |s.callers| && HoldsToken(s.callers[d].pc) && On(s.callers[d].pc, h)
    ensures c == d
  {
    InvReachable(cfg, s);
    OneHolder(cfg, s, h, c, d);
  }

  /** Per key one leader is registered, and inflight names exactly that leader. */
  lemma OneLeaderPerKey(cfg: Config, s: State, c: nat)
    requires Reachable(cfg, s) && c < |s.callers|
    ensures IsListed(s.callers[c].pc) <==> (s.callers[c].key in s.inflight && s.inflight[s.callers[c].key] == c)
  {
    InvReachable(cfg, s);
    assert ListedAt(s, c);
    if s.callers[c].key in s.inflight {
      assert LeadsKey(s, s.callers[c].key);
    }
  }

  /**
   A follower that was woken returns exactly what the leader of the call it joined
   returned, and leader and follower asked for the same key.
   */
  lemma FollowersShareTheResult(cfg: Config, s: State, c: nat)
    requires Reachable(cfg, s) && c < |s.callers| && s.callers[c].pc.Shared?
    ensures var l := s.callers[c].pc.leader;
            && l < |s.callers| && l != c
            && s.callers[l].key == s.callers[c].key
            && s.callers[l].pc == Returned(s.callers[c].pc.r)
  {
    InvReachable(cfg, s);
    assert FollowAt(s, c);
  }

  /** Followers never run fn themselves. */
  lemma FollowersDoNotRun(cfg: Config, s: State, c: nat, k: nat)
    requires Reachable(cfg, s) && c < |s.callers| && IsFollower(s.callers[c].pc) && k < |s.runs|
    ensures s.runs[k].caller != c
  {
    InvReachable(cfg, s);
    assert LoggedAt(s, k);
  }

  /** The call record of a leader carries what the leader returns, on every exit path. */
  lemma RecordIsTheReturn(cfg: Config, s: State, c: nat)
    requires Reachable(cfg, s) && c < |s.callers| && s.callers[c].pc.Returned?
    ensures c in s.calls && s.calls[c] == Call(true, s.callers[c].pc.r)
  {
    InvReachable(cfg, s);
    assert RefsAt(s, c) && CallAt(s, c);
  }

  /**
   fn runs at most once per caller, only for leaders, and a caller whose fn has returned
   returns that result and no other.
   */
  lemma OneRunPerLeader(cfg: Config, s: State, k: nat)
    requires Reachable(cfg, s) && k < |s.runs|
    ensures var run := s.runs[k];
            && run.caller < |s.callers| && IsLeader(s.callers[run.caller].pc)
            && (forall j :: 0 <= j < |s.runs| && s.runs[j].caller == run.caller ==> j == k)
            && (s.callers[run.caller].pc.Returned? ==>
                  run.finish.Some? && run.finish.value.ret == s.callers[run.caller].pc.r)
  {
    InvReachable(cfg, s);
    assert LoggedAt(s, k);
  }

  /** Any two runs on one object: the earlier one ended at least HostGap before the later one began. */
  lemma HostGap(cfg: Config, s: State, j: nat, k: nat)
    requires Reachable(cfg, s) && j < k < |s.runs| && s.runs[j].host == s.runs[k].host
    ensures s.runs[j].finish.Some?
    ensures s.runs[j].finish.value.end + cfg.Gap() <= s.runs[k].start
  {
    InvReachable(cfg, s);
    assert Spaced(cfg, s.runs[j], s.runs[k]);
  }

  /**
   The counters of Snapshot: every registered call is completed, failed, timed out or still
   uncounted; completed are the leaders whose result carries no error; queued and running are the callers at those points and the sums over all objects.
   */
  lemma Accounting(cfg: Config, s: State)
    requires Reachable(cfg, s)
    ensures s.stats.total == s.stats.completed + s.stats.failed + s.stats.timedOut + Total(Uncounted, s.callers)
    ensures s.stats.total == Total(Leaders, s.callers) && s.stats.shared == Total(Followers, s.callers)
    ensures s.stats.queued == Total(Queued, s.callers) == SumOver(FieldQueued, s.objs)
    ensures s.stats.running == Total(Count.Inside, s.callers) == SumOver(FieldInflight, s.objs)
    ensures s.stats.completed == Total(Succeeded, s.callers)
    ensures s.stats.completed + s.stats.failed == SumOver(FieldTotal, s.objs)
  {
    InvReachable(cfg, s);
  }

  // ---- the host map is bounded ----

  /** A host stays registered exactly when it already was or the map had room for it. */
  lemma RegisteredIffRoom(hosts: map<string, nat>, objs: seq<HostState>, name: string, now: Time)
    requires Fit(hosts, objs)
    ensures name in HostsAfter(hosts, objs, name, now) <==> name in hosts || |hosts| < HOST_LIMIT
    ensures |hosts| <= HOST_LIMIT ==> |HostsAfter(hosts, objs, name, now)| <= HOST_LIMIT
  {
    if name !in hosts {
      var grown := hosts[name := |objs|];
      assert grown.Keys == hosts.Keys + {name};
      assert |grown| == |grown.Keys| == |hosts| + 1;
      if |hosts| >= HOST_LIMIT {
        var after := HostsAfter(hosts, objs, name, now);
        assert name !in after;
        KeysWithin(after, hosts);
      }
    }
  }

  lemma KeysWithin(a: map<string, nat>, b: map<string, nat>)
    requires a.Keys <= b.Keys
    ensures |a| <= |b|
  {
    assert |b.Keys| == |a.Keys| + |b.Keys - a.Keys|;
  }

  lemma {:induction false} HostsBoundedRuns(cfg: Config, s: State, es: seq<Event>)
    requires Runs(cfg, s, es) && |s.hosts| <= HOST_LIMIT
    ensures |After(cfg, s, es).hosts| <= HOST_LIMIT
    decreases |es|
  {
    if es != [] {
      var c, t := es[0].c, es[0].t;
      RegisteredIffRoom(s.hosts, s.objs, s.callers[c].host, t);
      HostsBoundedRuns(cfg, Step(cfg, s, c, es[0].ch, t), es[1..]);
    }
  }

  lemma HostsBounded(cfg: Config, s: State)
    requires Reachable(cfg, s)
    ensures |s.hosts| <= HOST_LIMIT
  {
    var s0, es :| Init(s0) && Runs(cfg, s0, es) && After(cfg, s0, es) == s;
    HostsBoundedRuns(cfg, s0, es);
  }

  // ---- which hosts are pruned ----

  /**
   A host that is registered already loses its entry when another is added exactly when the map
   was full and the host has nobody queued or running and was not used within the hour.
   */
  lemma PrunedExactly(hosts: map<string, nat>, objs: seq<HostState>, name: string, now: Time, n: string)
    requires Fit(hosts, objs) && name !in hosts && n in hosts
    ensures var after, o := HostsAfter(hosts, objs, name, now), objs[hosts[n]];
            && (n in after ==> after[n] == hosts[n])
            && (n !in after <==> |hosts| >= 1024 && o.inflight == 0 && o.queued == 0
                                 && (o.usedAt.None? || o.usedAt.value + 3_600_000 < now))
  {
    var grown := hosts[name := |objs|];
    assert grown.Keys == hosts.Keys + {name};
    assert |grown| == |grown.Keys| == |hosts| + 1;
  }

  /** A host keeps its entry and its object while a caller is queued for it or running on it. */
  lemma BusyHostsStay(cfg: Config, s: State, e: Event, name: string, d: nat)
    requires Reachable(cfg, s) && Enabled(cfg, s, e.c, e.ch, e.t) && name in s.hosts && d < |s.callers|
    requires On(s.callers[d].pc, s.hosts[name]) && (IsQueued(s.callers[d].pc) || IsInside(s.callers[d].pc))
    ensures name in NextHosts(s, e.c, e.t) && NextHosts(s, e.c, e.t)[name] == s.hosts[name]
  {
    InvReachable(cfg, s);
    var h := s.hosts[name];
    assert CountersAt(s, h);
    SumAtLeast(Of(QueuedOn(h)), s.callers, d);
    SumAtLeast(Of(InsideOn(h)), s.callers, d);
  }

  /** The entry of a host was used at this time or later. */
  ghost predicate UsedSince(s: State, name: string, since: Time) {
    && since <= s.now && name in s.hosts && s.hosts[name] < |s.objs|
    && s.objs[s.hosts[name]].usedAt.Some? && since <= s.objs[s.hosts[name]].usedAt.value
  }

  lemma UsedStep(cfg: Config, s: State, e: Event, name: string, since: Time)
    requires Enabled(cfg, s, e.c, e.ch, e.t) && UsedSince(s, name, since) && e.t <= since + 3_600_000
    ensures UsedSince(Step(cfg, s, e.c, e.ch, e.t), name, since)
    ensures NextHosts(s, e.c, e.t)[name] == s.hosts[name]
  {}

  lemma {:induction false} TimeRises(cfg: Config, s: State, es: seq<Event>)
    requires Runs(cfg, s, es)
    ensures s.now <= After(cfg, s, es).now
    decreases |es|
  {
    if es != [] {
      TimeRises(cfg, Step(cfg, s, es[0].c, es[0].ch, es[0].t), es[1..]);
    }
  }

  lemma {:induction false} UsedHostsStay(cfg: Config, s: State, es: seq<Event>, name: string, since: Time)
    requires Runs(cfg, s, es) && UsedSince(s, name, since) && After(cfg, s, es).now <= since + 3_600_000
    ensures var after := After(cfg, s, es).hosts; name in after && after[name] == s.hosts[name]
    decreases |es|
  {
    if es != [] {
      TimeRises(cfg, Step(cfg, s, es[0].c, es[0].ch, es[0].t), es[1..]);
      UsedStep(cfg, s, es[0], name, since);
      UsedHostsStay(cfg, Step(cfg, s, es[0].c, es[0].ch, es[0].t), es[1..], name, since);
    }
  }

  /** Whoever asks for a registered host within an hour of its last use gets the same object. */
  lemma AskedHostsStay(cfg: Config, s: State, c: nat, t: Time, es: seq<Event>)
    requires Enabled(cfg, s, c, Go, t) && s.callers[c].pc.Lead? && s.callers[c].host in NextHosts(s, c, t)
    requires Runs(cfg, Step(cfg, s, c, Go, t), es) && After(cfg, Step(cfg, s, c, Go, t), es).now <= t + 3_600_000
    ensures var name, after := s.callers[c].host, After(cfg, Step(cfg, s, c, Go, t), es).hosts;
            name in after && NextPC(cfg, s, c, Go, t) == Hosted(after[name])
  {
    UsedHostsStay(cfg, Step(cfg, s, c, Go, t), es, s.callers[c].host, t);
  }

  // ---- how long a caller has to sleep ----

  /** The pause ends exactly when the gap and the jitter have passed since the last run, and not later. */
  lemma PauseIsExact(cfg: Config, last: Option<Time>, j: nat, now: Time)
    ensures last.None? || cfg.gap <= 0 ==> Pause(cfg, last, j, now) == 0
    ensures last.Some? && cfg.gap > 0 ==>
              var due := last.value + cfg.gap + j;
              now + Pause(cfg, last, j, now) == if due <= now then now else due
  {}

  function LongestPause(cfg: Config): int { cfg.Gap() + if cfg.jitter > 0 then cfg.jitter - 1 else 0 }

  predicate Patient(cfg: Config, pc: PC, now: Time) {
    && (pc.Cool? ==> pc.wait <= LongestPause(cfg))
    && (pc.Sleep? ==> pc.until <= now + LongestPause(cfg))
  }

  ghost predicate AllPatient(cfg: Config, s: State) {
    forall c :: 0 <= c < |s.callers| ==> Patient(cfg, s.callers[c].pc, s.now)
  }

  lemma PatientStep(cfg: Config, s: State, e: Event)
    requires Inv(cfg, s) && AllPatient(cfg, s) && Enabled(cfg, s, e.c, e.ch, e.t)
    ensures AllPatient(cfg, Step(cfg, s, e.c, e.ch, e.t))
  {
    assert RefsAt(s, e.c) && PacedAt(cfg, s, e.c);
  }

  lemma {:induction false} PatientRuns(cfg: Config, s: State, es: seq<Event>)
    requires Inv(cfg, s) && AllPatient(cfg, s) && Runs(cfg, s, es)
    ensures AllPatient(cfg, After(cfg, s, es))
    decreases |es|
  {
    if es != [] {
      InvStep(cfg, s, es[0].c, es[0].ch, es[0].t);
      PatientStep(cfg, s, es[0]);
      PatientRuns(cfg, Step(cfg, s, es[0].c, es[0].ch, es[0].t), es[1..]);
    }
  }

  lemma PatientAfter(cfg: Config, s0: State, es: seq<Event>)
    requires Init(s0) && Runs(cfg, s0, es)
    ensures AllPatient(cfg, After(cfg, s0, es))
  {
    InvInit(cfg, s0);
    PatientRuns(cfg, s0, es);
  }

  /** Nobody is made to sleep longer than the gap and the largest jitter. */
  lemma SleepIsBounded(cfg: Config, s: State, c: nat)
    requires Reachable(cfg, s) && c < |s.callers| && s.callers[c].pc.Sleep?
    ensures s.callers[c].pc.until - s.now <= cfg.Gap() + if cfg.jitter > 0 then cfg.jitter - 1 else 0
  {
    var s0, es :| Init(s0) && Runs(cfg, s0, es) && After(cfg, s0, es) == s;
    PatientAfter(cfg, s0, es);
    assert Patient(cfg, s.callers[c].pc, s.now);
  }
}
