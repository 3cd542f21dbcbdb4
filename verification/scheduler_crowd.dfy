/** What happens beyond 1024 host names: a crowd that fills the host map, and two callers of one more host. */
module SchedulerCrowd {
  import opened Common
  import opened Scheduler
  import opened SchedulerTally
  import opened SchedulerNames

  /** A run prolonged by one action. */
  lemma {:induction false} AppendEvent(cfg: Config, s: State, es: seq<Event>, e: Event)
    requires Runs(cfg, s, es) && Enabled(cfg, After(cfg, s, es), e.c, e.ch, e.t)
    ensures Runs(cfg, s, es + [e])
    ensures After(cfg, s, es + [e]) == Step(cfg, After(cfg, s, es), e.c, e.ch, e.t)
    decreases |es|
  {
    if es == [] {
      assert (es + [e])[1..] == [];
    } else {
      assert (es + [e])[1..] == es[1..] + [e];
      AppendEvent(cfg, Step(cfg, s, es[0].c, es[0].ch, es[0].t), es[1..], e);
    }
  }

  lemma ReachableStep(cfg: Config, s: State, c: nat, ch: Choice, t: Time)
    requires Reachable(cfg, s) && Enabled(cfg, s, c, ch, t)
    ensures Reachable(cfg, Step(cfg, s, c, ch, t))
  {
    var s0, es :| Init(s0) && Runs(cfg, s0, es) && After(cfg, s0, es) == s;
    AppendEvent(cfg, s0, es, Event(c, ch, t));
  }

  /** Distinct names and keys: the string of n letters. */
  function Word(n: nat): string { seq(n, i => 'x') }

  /** 1024 callers for different hosts, then two callers for one more host. */
  function Member(i: nat): Caller {
    Caller(Word(if i > HOST_LIMIT then HOST_LIMIT else i), Word(i), Ready)
  }

  function Crowd(n: nat): seq<Caller> { seq(n, i requires 0 <= i < n => Member(i)) }

  lemma MemberNames(cs: seq<Caller>)
    requires forall i :: 0 <= i < |cs| ==> cs[i].host == Member(i).host
    ensures |Names(cs)| <= HOST_LIMIT + 1
  {
    var words := set i | 0 <= i < HOST_LIMIT + 1 :: Word(i);
    WordCount(HOST_LIMIT + 1);
    forall n | n in Names(cs) ensures n in words {
      var i :| 0 <= i < |cs| && cs[i].host == n;
      assert n == Word(if i > HOST_LIMIT then HOST_LIMIT else i);
    }
    assert |words| == |Names(cs)| + |words - Names(cs)|;
  }

  lemma {:induction false} WordCount(n: nat)
    ensures |set i | 0 <= i < n :: Word(i)| <= n
  {
    if n > 0 {
      WordCount(n - 1);
      var less := set i | 0 <= i < n - 1 :: Word(i);
      assert (set i | 0 <= i < n :: Word(i)) == less + {Word(n - 1)};
    }
  }

  /** A caller that can enter through hostState with a key and a host of its own. */
  ghost predicate IsNew(s: State, c: nat)
    requires c < |s.callers|
  {
    s.callers[c].pc.Ready? && s.callers[c].key !in s.inflight && s.callers[c].host !in s.hosts
  }

  /** A caller whose key and host are new has led its call through hostState. */
  ghost predicate Entered(s: State, s': State, c: nat)
    requires c < |s.callers| && Fit(s.hosts, s.objs)
  {
    var me := s.callers[c];
    && s'.now == s.now
    && s'.callers == s.callers[c := me.(pc := Hosted(|s.objs|))]
    && s'.objs == s.objs + [NEW_HOST.(usedAt := Some(s.now))]
    && s'.hosts == HostsAfter(s.hosts, s.objs, me.host, s.now)
    && s'.inflight.Keys == s.inflight.Keys + {me.key}
  }

  lemma TakeLead(cfg: Config, s: State, c: nat) returns (s': State)
    requires Reachable(cfg, s) && Fit(s.hosts, s.objs)
    requires c < |s.callers| && s.callers[c].pc.Ready? && s.callers[c].key !in s.inflight
    ensures Reachable(cfg, s') && s'.now == s.now && s'.objs == s.objs && s'.hosts == s.hosts
    ensures s'.callers == s.callers[c := s.callers[c].(pc := Lead)]
    ensures s'.inflight.Keys == s.inflight.Keys + {s.callers[c].key}
  {
    ReachableStep(cfg, s, c, Go, s.now);
    s' := Step(cfg, s, c, Go, s.now);
  }

  lemma AskHost(cfg: Config, s: State, c: nat) returns (s': State)
    requires Reachable(cfg, s) && Fit(s.hosts, s.objs)
    requires c < |s.callers| && s.callers[c].pc.Lead? && s.callers[c].host !in s.hosts
    ensures Reachable(cfg, s') && s'.now == s.now && s'.inflight == s.inflight
    ensures s'.objs == s.objs + [NEW_HOST.(usedAt := Some(s.now))]
    ensures s'.hosts == HostsAfter(s.hosts, s.objs, s.callers[c].host, s.now)
    ensures s'.callers == s.callers[c := s.callers[c].(pc := Hosted(|s.objs|))]
  {
    ReachableStep(cfg, s, c, Go, s.now);
    s' := Step(cfg, s, c, Go, s.now);
  }

  lemma Enters(cfg: Config, s: State, c: nat) returns (s': State)
    requires Reachable(cfg, s) && Fit(s.hosts, s.objs)
    requires c < |s.callers| && IsNew(s, c)
    ensures Reachable(cfg, s') && Entered(s, s', c)
  {
    s' := TakeLead(cfg, s, c);
    s' := AskHost(cfg, s', c);
  }

  /** It queues for the token of its object. */
  lemma Queue(cfg: Config, s: State, c: nat) returns (s': State)
    requires Reachable(cfg, s) && Fit(s.hosts, s.objs)
    requires c < |s.callers| && s.callers[c].pc.Hosted? && s.callers[c].pc.h < |s.objs|
    ensures var h := s.callers[c].pc.h;
            && Reachable(cfg, s') && s'.now == s.now && s'.inflight == s.inflight && s'.hosts == s.hosts
            && s'.objs == s.objs[h := s.objs[h].(queued := s.objs[h].queued + 1)]
            && s'.callers == s.callers[c := s.callers[c].(pc := TokenWait(h))]
  {
    ReachableStep(cfg, s, c, Go, s.now);
    s' := Step(cfg, s, c, Go, s.now);
  }

  /** It takes the token. */
  lemma TakeToken(cfg: Config, s: State, c: nat) returns (s': State)
    requires Reachable(cfg, s) && Fit(s.hosts, s.objs)
    requires c < |s.callers| && s.callers[c].pc.TokenWait? && s.callers[c].pc.h < |s.objs|
    requires !s.objs[s.callers[c].pc.h].token
    ensures var h := s.callers[c].pc.h;
            && Reachable(cfg, s') && s'.now == s.now && s'.inflight == s.inflight && s'.hosts == s.hosts
            && s'.objs == s.objs[h := s.objs[h].(token := true)]
            && s'.callers == s.callers[c := s.callers[c].(pc := Gated(h))]
  {
    ReachableStep(cfg, s, c, Go, s.now);
    s' := Step(cfg, s, c, Go, s.now);
  }

  /** The first k of the crowd have been through hostState, at time 0; the rest have not called Do. */
  ghost predicate Filled(s: State, k: nat) {
    && s.now == 0
    && k <= |s.callers|
    && (forall i :: 0 <= i < |s.callers| ==> FilledAt(s.callers, k, i))
    && |s.objs| == |s.hosts| == k
    && (forall h :: 0 <= h < k ==> s.objs[h].usedAt == Some(0))
    && s.hosts.Keys == Words(k)
    && Fit(s.hosts, s.objs)
    && s.inflight.Keys == Words(k)
  }

  ghost predicate FilledAt(cs: seq<Caller>, k: nat, i: nat)
    requires i < |cs|
  {
    cs[i] == Member(i).(pc := if i < k then Hosted(i) else Ready)
  }

  function Words(k: nat): set<string> { set i | 0 <= i < k :: Word(i) }

  lemma WordsGrow(k: nat)
    ensures Words(k + 1) == Words(k) + {Word(k)}
    ensures forall n :: n >= k ==> Word(n) !in Words(k)
  {
    forall n | n >= k ensures Word(n) !in Words(k) {
      assert forall i :: 0 <= i < k ==> |Word(i)| < |Word(n)|;
    }
  }

  lemma NextIsNew(s: State, k: nat)
    requires Filled(s, k) && k < |s.callers|
    ensures s.callers[k] == Member(k) && Word(k) !in s.inflight && Word(k) !in s.hosts
    ensures |s.objs| == k && s.now == 0
  {
    assert FilledAt(s.callers, k, k);
    WordsGrow(k);
  }

  lemma FilledCallers(cs: seq<Caller>, cs': seq<Caller>, k: nat, k': nat)
    requires k < |cs| && k' == k + 1 && cs' == cs[k := Member(k).(pc := Hosted(k))]
    requires forall i :: 0 <= i < |cs| ==> FilledAt(cs, k, i)
    ensures forall i :: 0 <= i < |cs'| ==> FilledAt(cs', k', i)
  {
    forall i | 0 <= i < |cs'| ensures FilledAt(cs', k', i) {
      assert FilledAt(cs, k, i);
    }
  }

  lemma FilledMaps(s: State, s': State, k: nat)
    requires Filled(s, k) && k < |s.callers| && k < HOST_LIMIT && Entered(s, s', k)
    ensures s'.hosts.Keys == Words(k + 1) && |s'.hosts| == k + 1
    ensures Fit(s'.hosts, s'.objs) && s'.inflight.Keys == Words(k + 1)
  {
    NextIsNew(s, k);
    WordsGrow(k);
    assert s'.hosts.Keys == s.hosts.Keys + {Word(k)};
  }

  /** The state after one more member has been through hostState. */
  lemma FilledNext(s: State, s': State, k: nat, k': nat)
    requires k' == k + 1 && Filled(s, k) && k < |s.callers| && k < HOST_LIMIT && Entered(s, s', k)
    ensures Filled(s', k')
  {
    NextIsNew(s, k);
    FilledMaps(s, s', k);
    FilledCallers(s.callers, s'.callers, k, k');
  }

  lemma FillOne(cfg: Config, s: State, k: nat, k': nat) returns (s': State)
    requires Reachable(cfg, s) && Filled(s, k) && k < HOST_LIMIT && k < |s.callers| && k' == k + 1
    ensures Reachable(cfg, s') && Filled(s', k') && |s'.callers| == |s.callers|
  {
    NextIsNew(s, k);
    s' := Enters(cfg, s, k);
    FilledNext(s, s', k, k');
  }

  lemma Waiting(cfg: Config, n: nat) returns (s: State)
    ensures Reachable(cfg, s) && Filled(s, 0) && |s.callers| == n
  {
    s := State(0, Crowd(n), [], map[], map[], map[], 0, Stats(0, 0, 0, 0, 0, 0, 0), []);
    assert Init(s) && Runs(cfg, s, []) && After(cfg, s, []) == s;
  }

  lemma {:induction false} Fill(cfg: Config, n: nat, k: nat) returns (s: State)
    requires k <= HOST_LIMIT && k <= n
    ensures Reachable(cfg, s) && Filled(s, k) && |s.callers| == n
  {
    if k == 0 {
      s := Waiting(cfg, n);
    } else {
      s := Fill(cfg, n, k - 1);
      s := FillOne(cfg, s, k - 1, k);
    }
  }

  /** The map is full and nobody in it is stale. */
  ghost predicate Full(s: State) {
    && s.now == 0
    && Fit(s.hosts, s.objs) && |s.hosts| == HOST_LIMIT
    && (forall n :: n in s.hosts ==> s.objs[s.hosts[n]].usedAt == Some(0))
  }

  lemma NoRoom(s: State, name: string)
    requires Full(s) && name !in s.hosts
    ensures HostsAfter(s.hosts, s.objs, name, 0) == s.hosts
  {
    var grown := s.hosts[name := |s.objs|];
    assert grown.Keys == s.hosts.Keys + {name} && |grown| == |grown.Keys|;
  }

  lemma Passes(cfg: Config, s: State, c: nat) returns (s': State)
    requires Reachable(cfg, s) && Full(s)
    requires c < |s.callers| && s.callers[c].pc.Hosted? && s.callers[c].pc.h < |s.objs|
    requires !s.objs[s.callers[c].pc.h].token
    ensures Reachable(cfg, s') && Full(s') && s'.hosts == s.hosts && s'.inflight == s.inflight
    ensures s'.callers == s.callers[c := s.callers[c].(pc := Gated(s.callers[c].pc.h))]
  {
    s' := Queue(cfg, s, c);
    s' := TakeToken(cfg, s', c);
  }

  /** A newcomer to a full map gets an object nobody else will ever be given, and takes its token. */
  lemma Newcomer(cfg: Config, s: State, c: nat) returns (s': State)
    requires Reachable(cfg, s) && Full(s)
    requires c < |s.callers| && IsNew(s, c)
    ensures Reachable(cfg, s') && Full(s') && s'.hosts == s.hosts
    ensures s'.callers == s.callers[c := s.callers[c].(pc := Gated(|s.objs|))]
    ensures s'.inflight.Keys == s.inflight.Keys + {s.callers[c].key}
  {
    NoRoom(s, s.callers[c].host);
    s' := Enters(cfg, s, c);
    s' := Passes(cfg, s', c);
  }

  lemma TwoNewcomers(cfg: Config, s0: State, c: nat) returns (s: State)
    requires Reachable(cfg, s0) && Full(s0) && c + 2 == |s0.callers|
    requires IsNew(s0, c) && IsNew(s0, c + 1) && s0.callers[c + 1].key != s0.callers[c].key
    ensures Reachable(cfg, s) && |s.callers| == |s0.callers|
    ensures s.callers[c].pc.Gated? && s.callers[c + 1].pc.Gated?
    ensures s.callers[..c] == s0.callers[..c]
    ensures s.callers[c].host == s0.callers[c].host && s.callers[c + 1].host == s0.callers[c + 1].host
  {
    s := Newcomer(cfg, s0, c);
    assert IsNew(s, c + 1);
    s := Newcomer(cfg, s, c + 1);
  }

  lemma LastAreNew(s: State)
    requires Filled(s, HOST_LIMIT) && |s.callers| == HOST_LIMIT + 2
    ensures Full(s)
    ensures IsNew(s, HOST_LIMIT) && IsNew(s, HOST_LIMIT + 1)
    ensures s.callers[HOST_LIMIT + 1].key != s.callers[HOST_LIMIT].key
  {
    WordsGrow(HOST_LIMIT);
    assert FilledAt(s.callers, HOST_LIMIT, HOST_LIMIT) && FilledAt(s.callers, HOST_LIMIT, HOST_LIMIT + 1);
  }

  /** At or before the gate of the host. */
  predicate Early(pc: PC) { pc.Ready? || pc.Lead? || pc.Hosted? || pc.TokenWait? || pc.Gated? }

  lemma BothGated(s0: State, s: State, c: nat)
    requires c == HOST_LIMIT && |s0.callers| == c + 2 && |s.callers| == c + 2
    requires forall i :: 0 <= i < c + 2 ==> FilledAt(s0.callers, c, i)
    requires s.callers[..c] == s0.callers[..c]
    requires s.callers[c].host == s0.callers[c].host && s.callers[c + 1].host == s0.callers[c + 1].host
    requires s.callers[c].pc.Gated? && s.callers[c + 1].pc.Gated?
    ensures |Names(s.callers)| <= HOST_LIMIT + 1 && s.callers[c].host == s.callers[c + 1].host
    ensures forall i :: 0 <= i < c + 2 ==> Early(s.callers[i].pc)
  {
    forall i | 0 <= i < c + 2 ensures s.callers[i].host == Member(i).host && Early(s.callers[i].pc) {
      assert FilledAt(s0.callers, c, i);
      assert i < c ==> s.callers[i] == s.callers[..c][i] == s0.callers[..c][i];
    }
    MemberNames(s.callers);
  }

  /** The last two of the crowd hold the gate of one name, and nobody has gone further. */
  lemma GatedPair(cfg: Config) returns (s: State)
    ensures Reachable(cfg, s) && |s.callers| == HOST_LIMIT + 2 && |Names(s.callers)| <= HOST_LIMIT + 1
    ensures forall i :: 0 <= i < |s.callers| ==> Early(s.callers[i].pc)
    ensures s.callers[HOST_LIMIT].host == s.callers[HOST_LIMIT + 1].host
    ensures s.callers[HOST_LIMIT].pc.Gated? && s.callers[HOST_LIMIT + 1].pc.Gated?
  {
    var c := HOST_LIMIT;
    var s0 := Fill(cfg, c + 2, c);
    LastAreNew(s0);
    s := TwoNewcomers(cfg, s0, c);
    BothGated(s0, s, c);
  }

  /** 1025 host names are enough for two callers of one host to pass its gate together. */
  lemma TwoAtOneName(cfg: Config) returns (s: State)
    ensures Reachable(cfg, s) && |Names(s.callers)| <= HOST_LIMIT + 1 && !OnePerName(s)
  {
    s := GatedPair(cfg);
    assert HoldsToken(s.callers[HOST_LIMIT].pc) && HoldsToken(s.callers[HOST_LIMIT + 1].pc);
  }

  /** The gate admits one caller per host name exactly while at most 1024 names are in use. */
  lemma OnePerNameExactly(cfg: Config, n: nat)
    ensures (forall s :: Reachable(cfg, s) && |Names(s.callers)| <= n ==> OnePerName(s)) <==> n <= HOST_LIMIT
  {
    if n <= HOST_LIMIT {
      forall s | Reachable(cfg, s) && |Names(s.callers)| <= n ensures OnePerName(s) {
        OnePerNameWithin(cfg, s);
      }
    } else {
      var s := TwoAtOneName(cfg);
      assert Reachable(cfg, s) && |Names(s.callers)| <= n && !OnePerName(s);
    }
  }
}
