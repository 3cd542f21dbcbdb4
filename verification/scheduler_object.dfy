/**
 The Scheduler object: the sections of `Do` that hold `s.mu`, as methods on the fields they
 update. Each is proved to change the fields exactly as the transition system's step does.
 */
module SchedulerObject {
  import opened Common
  import opened Scheduler
  import opened SchedulerInvariant
  import opened SchedulerTally

  datatype HostStats = HostStats(queued: int, running: int, total: int, lastAt: Option<Time>, lastUrl: string, cooldown: Time)

  datatype Snapshot = Snapshot(slots: int, stats: Stats, hosts: map<string, HostStats>)

  /** The cooldown a host still owes at `now`, jitter aside. */
  function Cooldown(cfg: Config, o: HostState, now: Time): Time {
    if o.lastAt.Some? && cfg.gap - (now - o.lastAt.value) > 0 then cfg.gap - (now - o.lastAt.value) else 0
  }

  function StatsOf(cfg: Config, o: HostState, now: Time): HostStats {
    HostStats(o.queued, o.inflight, o.total, o.lastAt, o.lastUrl, Cooldown(cfg, o, now))
  }

  /** The cooldown that is shown is the pause that a caller would be told, jitter aside. */
  lemma CooldownIsThePause(cfg: Config, o: HostState, now: Time)
    requires o.lastAt.Some? ==> o.lastAt.value <= now
    ensures Cooldown(cfg, o, now) == Pause(cfg, o.lastAt, 0, now)
  {}

  /** What is shown for a host are the callers queued for its object and inside fn on it. */
  lemma HostStatsCountCallers(cfg: Config, s: State, name: string, now: Time)
    requires Reachable(cfg, s) && name in s.hosts
    ensures s.hosts[name] < |s.objs|
    ensures var h := s.hosts[name];
            && StatsOf(cfg, s.objs[h], now).queued == Total(QueuedOn(h), s.callers)
            && StatsOf(cfg, s.objs[h], now).running == Total(InsideOn(h), s.callers)
  {
    InvReachable(cfg, s);
    assert CountersAt(s, s.hosts[name]);
  }

  /** The points of Do that call mark(hs, queued, running) on object h. */
  predicate Marks(pc: PC, h: nat, queued: int, running: int) {
    HostOf(pc) == Some(h) && QueuedBy(pc) == queued && RunningBy(pc) == running && (queued != 0 || running != 0)
  }

  class Pacer {
    const cfg: Config
    var objs: seq<HostState>
    var hosts: map<string, nat>
    var inflight: map<string, nat>
    var calls: map<nat, Call>
    var stats: Stats

    constructor (o: Config)
      ensures cfg == o && objs == [] && hosts == map[] && inflight == map[] && calls == map[]
      ensures stats == Stats(0, 0, 0, 0, 0, 0, 0)
    {
      cfg := o;
      objs, hosts, inflight, calls := [], map[], map[], map[];
      stats := Stats(0, 0, 0, 0, 0, 0, 0);
    }

    /** What the transition system calls this object's fields. */
    ghost predicate Shows(s: State)
      reads this
    {
      s.objs == objs && s.hosts == hosts && s.inflight == inflight && s.calls == calls && s.stats == stats
    }

    /** Lines 95-109: coalesce with the call in flight for this key, or lead a new one. */
    method Join(key: string, c: nat) returns (leader: Option<nat>)
      modifies this
      ensures leader == if key in old(inflight) then Some(old(inflight)[key]) else None
      ensures forall s :: old(Shows(s)) && c < |s.callers| && s.callers[c].pc.Ready? && s.callers[c].key == key
                && Typed(s, c)
                ==> inflight == NextInflight(s, c) && calls == NextCalls(s, c) && stats == NextStats(s, c)
      ensures objs == old(objs) && hosts == old(hosts)
    {
      if key in inflight {
        stats := stats.(shared := stats.shared + 1);
        leader := Some(inflight[key]);
      } else {
        calls := calls[c := Call(false, Ret("", None))];
        inflight := inflight[key := c];
        stats := stats.(total := stats.total + 1);
        leader := None;
      }
    }

    /** hostState: the object of a host name, created and registered on first use. */
    method HostState(name: string, now: Time) returns (h: nat)
      requires Fit(hosts, objs)
      modifies this
      ensures h == HostIndex(old(hosts), old(objs), name) && h < |objs|
      ensures hosts == HostsAfter(old(hosts), old(objs), name, now)
      ensures objs == ObjsAfter(old(hosts), old(objs), name, now)
      ensures Fit(hosts, objs)
      ensures inflight == old(inflight) && calls == old(calls) && stats == old(stats)
    {
      if name in hosts {
        h := hosts[name];
      } else {
        h := |objs|;
        objs := objs + [NEW_HOST];
        hosts := hosts[name := h];
        PruneLocked(now);
      }
      objs := objs[h := objs[h].(usedAt := Some(now))];
    }

    /** pruneLocked: walks the map in any order and drops the stale entries. */
    method PruneLocked(now: Time)
      requires Fit(hosts, objs)
      modifies this`hosts
      ensures hosts == Pruned(old(hosts), objs, now)
    {
      if |hosts| <= HOST_LIMIT {
        return;
      }
      var todo := hosts.Keys;
      while todo != {}
        invariant todo <= old(hosts).Keys
        invariant hosts == map n | n in old(hosts) && (n in todo || !Stale(objs[old(hosts)[n]], now)) :: old(hosts)[n]
        decreases |todo|
      {
        var k :| k in todo;
        if Stale(objs[hosts[k]], now) {
          hosts := hosts - {k};
        }
        todo := todo - {k};
      }
    }

    /** mark: the counters of one host and of the scheduler move together. */
    method Mark(h: nat, queued: int, running: int)
      requires h < |objs|
      modifies this`objs, this`stats
      ensures objs == old(objs)[h := old(objs)[h].(queued := old(objs)[h].queued + queued,
                                                   inflight := old(objs)[h].inflight + running)]
      ensures stats == old(stats).(queued := old(stats).queued + queued, running := old(stats).running + running)
      ensures forall s: State, c: nat, ch: Choice, t: Time :: old(Shows(s)) && Enabled(cfg, s, c, ch, t)
                && Marks(s.callers[c].pc, h, queued, running)
                ==> objs == NextObjs(s, c, ch, t) && stats == NextStats(s, c)
    {
      objs := objs[h := objs[h].(queued := objs[h].queued + queued, inflight := objs[h].inflight + running)];
      stats := stats.(queued := stats.queued + queued, running := stats.running + running);
    }

    /** hostWait: how long the caller has to sleep; after that long the gap has passed. */
    method HostWait(h: nat, j: int, now: Time) returns (wait: Time)
      requires h < |objs| && 0 <= j
      ensures wait == Pause(cfg, objs[h].lastAt, j, now)
      ensures objs[h].lastAt.Some? && cfg.gap > 0 ==> objs[h].lastAt.value + cfg.gap <= now + wait
    {
      var last := objs[h].lastAt;
      if last.None? || cfg.gap <= 0 {
        return 0;
      }
      var target := cfg.gap + j;
      var elapsed := now - last.value;
      if elapsed < target {
        return target - elapsed;
      }
      return 0;
    }

    method CountTimeout()
      modifies this`stats
      ensures stats == old(stats).(timedOut := old(stats).timedOut + 1)
      ensures forall s: State, c: nat :: old(Shows(s)) && c < |s.callers| && s.callers[c].pc.Timeout? ==> stats == NextStats(s, c)
    {
      stats := stats.(timedOut := stats.timedOut + 1);
    }

    /** Lines 163-172: the end of a run, for the host and for the totals. */
    method RecordRun(h: nat, key: string, r: Ret, now: Time)
      requires h < |objs|
      modifies this`objs, this`stats
      ensures objs == old(objs)[h := NextObj(old(objs)[h], Record(h, r), Go, key, now)]
      ensures stats == if r.err.Some? then old(stats).(failed := old(stats).failed + 1)
                       else old(stats).(completed := old(stats).completed + 1)
      ensures forall s: State, c: nat :: old(Shows(s)) && Enabled(cfg, s, c, Go, now)
                && s.callers[c].pc == Record(h, r) && s.callers[c].key == key
                ==> objs == NextObjs(s, c, Go, now) && stats == NextStats(s, c)
    {
      objs := objs[h := objs[h].(lastAt := Some(now), lastUrl := key, total := objs[h].total + 1)];
      if r.err.Some? {
        stats := stats.(failed := stats.failed + 1);
      } else {
        stats := stats.(completed := stats.completed + 1);
      }
    }

    /** The deferred clean-up: the key is free for a new call. */
    method Leave(key: string)
      modifies this`inflight
      ensures inflight == old(inflight) - {key}
      ensures forall s: State, c: nat :: old(Shows(s)) && c < |s.callers| && s.callers[c].pc.Unlist? && s.callers[c].key == key
                ==> inflight == NextInflight(s, c)
    {
      inflight := inflight - {key};
    }

    /** Snapshot: every registered host with its counters, read under one lock. */
    method TakeSnapshot(now: Time) returns (snap: Snapshot)
      requires Fit(hosts, objs)
      ensures snap.slots == cfg.Slots() && snap.stats == stats
      ensures snap.hosts.Keys == hosts.Keys
      ensures forall n :: n in hosts ==> snap.hosts[n] == StatsOf(cfg, objs[hosts[n]], now)
    {
      var out: map<string, HostStats> := map[];
      var todo := hosts.Keys;
      while todo != {}
        invariant todo <= hosts.Keys
        invariant out.Keys == hosts.Keys - todo
        invariant forall n :: n in out ==> out[n] == StatsOf(cfg, objs[hosts[n]], now)
        decreases |todo|
      {
        var n :| n in todo;
        var o := objs[hosts[n]];
        var cooldown := 0;
        if o.lastAt.Some? {
          var left := cfg.gap - (now - o.lastAt.value);
          if left > 0 {
            cooldown := left;
          }
        }
        out := out[n := HostStats(o.queued, o.inflight, o.total, o.lastAt, o.lastUrl, cooldown)];
        todo := todo - {n};
      }
      snap := Snapshot(cfg.Slots(), stats, out);
    }
  }
}
