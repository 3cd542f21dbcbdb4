/** What every step of the scheduler keeps. */
module SchedulerInvariant {
  import opened Common
  import opened Tally
  import opened Scheduler
  import opened SchedulerTally

  // ---- references ----

  ghost predicate Refs(s: State) {
    && Fit(s.hosts, s.objs)
    && (forall k :: k in s.calls ==> k < |s.callers|)
    && (forall c :: 0 <= c < |s.callers| ==> RefsAt(s, c))
  }

  ghost predicate RefsAt(s: State, c: nat)
    requires c < |s.callers|
  {
    var pc := s.callers[c].pc;
    && (HostOf(pc).Some? ==> HostOf(pc).value < |s.objs|)
    && (IsLeader(pc) <==> c in s.calls)
  }

  lemma RefsSelf(cfg: Config, s: State, c: nat, ch: Choice, t: Time)
    requires Refs(s) && Enabled(cfg, s, c, ch, t)
    ensures RefsAt(Step(cfg, s, c, ch, t), c)
  {
    RefsCall(cfg, s, c, ch, t);
  }

  lemma RefsCall(cfg: Config, s: State, c: nat, ch: Choice, t: Time)
    requires Enabled(cfg, s, c, ch, t) && RefsAt(s, c)
    ensures IsLeader(NextPC(cfg, s, c, ch, t)) <==> c in NextCalls(s, c)
  {
    Kinds(cfg, s, c, ch, t);
  }

  lemma RefsOther(cfg: Config, s: State, c: nat, ch: Choice, t: Time, d: nat)
    requires Refs(s) && Enabled(cfg, s, c, ch, t)
    requires d < |s.callers| && d != c
    ensures RefsAt(Step(cfg, s, c, ch, t), d)
  {
    assert RefsAt(s, c) && RefsAt(s, d);
  }

  lemma RefsStep(cfg: Config, s: State, c: nat, ch: Choice, t: Time)
    requires Refs(s) && Enabled(cfg, s, c, ch, t)
    ensures Refs(Step(cfg, s, c, ch, t))
  {
    var s' := Step(cfg, s, c, ch, t);
    forall k | k in s'.calls ensures k < |s'.callers| {
      assert k in s.calls || k == c;
    }
    forall d | 0 <= d < |s'.callers| ensures RefsAt(s', d) {
      if d == c {
        RefsSelf(cfg, s, c, ch, t);
      } else {
        RefsOther(cfg, s, c, ch, t, d);
      }
    }
  }

  // ---- one call per key ----

  /** The result a leader is about to return, once its call record carries it. */
  function Published(pc: PC): Option<Ret> {
    match pc
    case GiveSlot(_, r) => Some(r)
    case GiveToken(_, r) => Some(r)
    case Unlist(r) => Some(r)
    case Close(r) => Some(r)
    case Returned(r) => Some(r)
    case _ => None
  }

  /** The registered call of a key belongs to a caller that leads it, and nobody else does. */
  ghost predicate Dedupe(s: State) {
    && (forall k :: k in s.inflight ==> LeadsKey(s, k))
    && (forall c :: 0 <= c < |s.callers| ==> ListedAt(s, c) && CallAt(s, c) && FollowAt(s, c))
  }

  ghost predicate LeadsKey(s: State, k: string)
    requires k in s.inflight
  {
    var c := s.inflight[k];
    c < |s.callers| && IsListed(s.callers[c].pc) && s.callers[c].key == k
  }

  ghost predicate ListedAt(s: State, c: nat)
    requires c < |s.callers|
  {
    var me := s.callers[c];
    IsListed(me.pc) ==> me.key in s.inflight && s.inflight[me.key] == c
  }

  ghost predicate CallAt(s: State, c: nat)
    requires c < |s.callers|
  {
    var pc := s.callers[c].pc;
    c in s.calls ==>
      && (s.calls[c].done <==> pc.Returned?)
      && s.calls[c].ret == (if Published(pc).Some? then Published(pc).value else Ret("", None))
  }

  ghost predicate FollowAt(s: State, c: nat)
    requires c < |s.callers|
  {
    var me := s.callers[c];
    me.pc.Follow? || me.pc.Shared? ==>
      && me.pc.leader < |s.callers| && me.pc.leader != c
      && me.pc.leader in s.calls
      && s.callers[me.pc.leader].key == me.key
      && (me.pc.Shared? ==> s.callers[me.pc.leader].pc == Returned(me.pc.r))
  }

  lemma KeysStep(cfg: Config, s: State, c: nat, ch: Choice, t: Time, k: string)
    requires Refs(s) && Dedupe(s) && Enabled(cfg, s, c, ch, t)
    requires k in NextInflight(s, c)
    ensures LeadsKey(Step(cfg, s, c, ch, t), k)
  {
    Kinds(cfg, s, c, ch, t);
    assert k in s.inflight ==> LeadsKey(s, k);
    assert ListedAt(s, c);
  }

  lemma ListedStep(cfg: Config, s: State, c: nat, ch: Choice, t: Time, d: nat)
    requires Refs(s) && Dedupe(s) && Enabled(cfg, s, c, ch, t)
    requires d < |s.callers|
    ensures ListedAt(Step(cfg, s, c, ch, t), d)
  {
    Kinds(cfg, s, c, ch, t);
    assert ListedAt(s, c) && ListedAt(s, d);
    if Leads(s, c) {
      assert c != d ==> IsListed(s.callers[d].pc) ==> s.callers[d].key != s.callers[c].key;
    }
  }

  lemma CallSelf(cfg: Config, s: State, c: nat, ch: Choice, t: Time)
    requires Refs(s) && Dedupe(s) && Enabled(cfg, s, c, ch, t)
    ensures CallAt(Step(cfg, s, c, ch, t), c)
  {
    assert RefsAt(s, c) && CallAt(s, c);
    CallRet(cfg, s, c, ch, t);
  }

  lemma CallRet(cfg: Config, s: State, c: nat, ch: Choice, t: Time)
    requires Enabled(cfg, s, c, ch, t) && RefsAt(s, c) && CallAt(s, c)
    ensures var pc', calls' := NextPC(cfg, s, c, ch, t), NextCalls(s, c);
            c in calls' ==> calls'[c].ret == (if Published(pc').Some? then Published(pc').value else Ret("", None))
  {
  }

  lemma FollowSelf(cfg: Config, s: State, c: nat, ch: Choice, t: Time)
    requires Refs(s) && Dedupe(s) && Enabled(cfg, s, c, ch, t)
    ensures FollowAt(Step(cfg, s, c, ch, t), c)
  {
    var pc := s.callers[c].pc;
    assert RefsAt(s, c) && FollowAt(s, c);
    if Joins(s, c) {
      assert LeadsKey(s, s.callers[c].key);
      assert RefsAt(s, s.inflight[s.callers[c].key]);
    } else if pc.Follow? {
      assert CallAt(s, pc.leader) && RefsAt(s, pc.leader);
    }
  }

  lemma Others(cfg: Config, s: State, c: nat, ch: Choice, t: Time, d: nat)
    requires Refs(s) && Dedupe(s) && Enabled(cfg, s, c, ch, t)
    requires d < |s.callers| && d != c
    ensures CallAt(Step(cfg, s, c, ch, t), d)
    ensures FollowAt(Step(cfg, s, c, ch, t), d)
  {
    assert RefsAt(s, c) && RefsAt(s, d) && CallAt(s, d) && FollowAt(s, d);
  }

  lemma DedupeStep(cfg: Config, s: State, c: nat, ch: Choice, t: Time)
    requires Refs(s) && Dedupe(s) && Enabled(cfg, s, c, ch, t)
    ensures Dedupe(Step(cfg, s, c, ch, t))
  {
    var s' := Step(cfg, s, c, ch, t);
    forall k | k in s'.inflight ensures LeadsKey(s', k) {
      KeysStep(cfg, s, c, ch, t, k);
    }
    forall d | 0 <= d < |s'.callers| ensures ListedAt(s', d) && CallAt(s', d) && FollowAt(s', d) {
      ListedStep(cfg, s, c, ch, t, d);
      if d == c {
        CallSelf(cfg, s, c, ch, t);
        FollowSelf(cfg, s, c, ch, t);
      } else {
        Others(cfg, s, c, ch, t, d);
      }
    }
  }

  // ---- one action of a caller, seen by the tallies ----

  /** How an action moves a caller between the phases of a call. */
  lemma Kinds(cfg: Config, s: State, c: nat, ch: Choice, t: Time)
    requires Enabled(cfg, s, c, ch, t)
    ensures var pc, pc' := s.callers[c].pc, NextPC(cfg, s, c, ch, t);
            && (IsLeader(pc') <==> IsLeader(pc) || Leads(s, c))
            && (IsListed(pc') <==> (IsListed(pc) && !pc.Unlist?) || Leads(s, c))
            && Rank(pc') < Rank(pc)
  {
  }

  lemma SharedWeights(cfg: Config, s: State, c: nat, ch: Choice, t: Time)
    requires Enabled(cfg, s, c, ch, t)
    ensures var pc, pc' := s.callers[c].pc, NextPC(cfg, s, c, ch, t);
            && Weight(Slots, pc') == Weight(Slots, pc) + SlotsBy(pc, ch)
            && Weight(Queued, pc') == Weight(Queued, pc) + QueuedBy(pc)
            && Weight(Inside, pc') == Weight(Inside, pc) + RunningBy(pc)
  {
  }

  lemma CallWeights(cfg: Config, s: State, c: nat, ch: Choice, t: Time)
    requires Enabled(cfg, s, c, ch, t)
    ensures var pc, pc' := s.callers[c].pc, NextPC(cfg, s, c, ch, t);
            && Weight(Leaders, pc') == Weight(Leaders, pc) + Bit(Leads(s, c))
            && Weight(Succeeded, pc') == Weight(Succeeded, pc) + Bit(pc.Record? && pc.r.err.None?)
            && Weight(Followers, pc') == Weight(Followers, pc) + Bit(Joins(s, c))
            && Weight(Uncounted, pc') == Weight(Uncounted, pc) + Bit(Leads(s, c)) - Bit(pc.Record?) - Bit(pc.Timeout?)
  {
  }

  /** On the caller's own object the weights follow the object; elsewhere they stay. */
  lemma HostWeights(cfg: Config, s: State, c: nat, ch: Choice, t: Time, h: nat)
    requires Enabled(cfg, s, c, ch, t)
    ensures var pc, pc' := s.callers[c].pc, NextPC(cfg, s, c, ch, t);
            && Weight(Tokens(h), pc') - Weight(Tokens(h), pc)
               == (if On(pc, h) then Bit(TokenAfter(pc, ch, s.objs[h].token)) - Bit(s.objs[h].token) else 0)
            && Weight(QueuedOn(h), pc') - Weight(QueuedOn(h), pc) == (if On(pc, h) then QueuedBy(pc) else 0)
            && Weight(InsideOn(h), pc') - Weight(InsideOn(h), pc) == (if On(pc, h) then RunningBy(pc) else 0)
  {
  }

  // ---- counters ----

  ghost predicate Counters(cfg: Config, s: State) {
    && s.slots == Total(Slots, s.callers)
    && s.slots <= cfg.Slots()
    && s.stats.queued == Total(Queued, s.callers) == SumOver(FieldQueued, s.objs)
    && s.stats.running == Total(Inside, s.callers) == SumOver(FieldInflight, s.objs)
    && s.stats.total == Total(Leaders, s.callers)
    && s.stats.total == s.stats.completed + s.stats.failed + s.stats.timedOut + Total(Uncounted, s.callers)
    && s.stats.completed + s.stats.failed == SumOver(FieldTotal, s.objs)
    && s.stats.completed == Total(Succeeded, s.callers)
    && s.stats.shared == Total(Followers, s.callers)
    && (forall h :: 0 <= h < |s.objs| ==> CountersAt(s, h))
  }

  ghost predicate CountersAt(s: State, h: nat)
    requires h < |s.objs|
  {
    && Bit(s.objs[h].token) == Total(Tokens(h), s.callers)
    && s.objs[h].queued == Total(QueuedOn(h), s.callers)
    && s.objs[h].inflight == Total(InsideOn(h), s.callers)
  }

  lemma CountersInit(cfg: Config, s: State)
    requires Init(s)
    ensures Counters(cfg, s)
  {
    forall t | t != Work ensures Total(t, s.callers) == 0 {
      SumZero(Of(t), s.callers);
    }
  }

  /** Nobody is at an object that does not exist yet. */
  lemma NobodyAt(s: State, h: nat)
    requires Refs(s) && h >= |s.objs|
    ensures Total(Tokens(h), s.callers) == Total(QueuedOn(h), s.callers) == Total(InsideOn(h), s.callers) == 0
  {
    forall c | 0 <= c < |s.callers| ensures !On(s.callers[c].pc, h) {
      assert RefsAt(s, c);
    }
    SumZero(Of(Tokens(h)), s.callers);
    SumZero(Of(QueuedOn(h)), s.callers);
    SumZero(Of(InsideOn(h)), s.callers);
  }

  lemma CountersAtStep(cfg: Config, s: State, c: nat, ch: Choice, t: Time, h: nat)
    requires Refs(s) && Counters(cfg, s) && Enabled(cfg, s, c, ch, t)
    requires h < |NextObjs(s, c, ch, t)|
    ensures CountersAt(Step(cfg, s, c, ch, t), h)
  {
    assert RefsAt(s, c);
    var s' := Step(cfg, s, c, ch, t);
    TotalsUpdate(s.callers, c, s'.callers[c]);
    HostWeights(cfg, s, c, ch, t, h);
    if h < |s.objs| {
      assert CountersAt(s, h);
    } else {
      NobodyAt(s, h);
    }
  }

  lemma CountersStep(cfg: Config, s: State, c: nat, ch: Choice, t: Time)
    requires Refs(s) && Counters(cfg, s) && Enabled(cfg, s, c, ch, t)
    ensures Counters(cfg, Step(cfg, s, c, ch, t))
  {
    var s' := Step(cfg, s, c, ch, t);
    TotalsUpdate(s.callers, c, s'.callers[c]);
    SharedWeights(cfg, s, c, ch, t);
    CallWeights(cfg, s, c, ch, t);
    ObjectSums(s, c, ch, t);
    forall h | 0 <= h < |s'.objs| ensures CountersAt(s', h) {
      CountersAtStep(cfg, s, c, ch, t, h);
    }
  }

  /** How an action changes the sums over the host objects. */
  lemma ObjectSums(s: State, c: nat, ch: Choice, t: Time)
    requires c < |s.callers| && Typed(s, c)
    ensures var objs', stats' := NextObjs(s, c, ch, t), NextStats(s, c);
            && SumOver(FieldQueued, objs') - SumOver(FieldQueued, s.objs) == stats'.queued - s.stats.queued
            && SumOver(FieldInflight, objs') - SumOver(FieldInflight, s.objs) == stats'.running - s.stats.running
            && SumOver(FieldTotal, objs') - SumOver(FieldTotal, s.objs)
               == stats'.completed + stats'.failed - s.stats.completed - s.stats.failed
  {
    var pc := s.callers[c].pc;
    if pc.Lead? {
      SumAtLead(s, c, ch, t, FieldQueued);
      SumAtLead(s, c, ch, t, FieldInflight);
      SumAtLead(s, c, ch, t, FieldTotal);
    } else if HostOf(pc).Some? {
      SumAtHost(s, c, ch, t, FieldQueued);
      SumAtHost(s, c, ch, t, FieldInflight);
      SumAtHost(s, c, ch, t, FieldTotal);
    }
  }

  lemma SumAtLead(s: State, c: nat, ch: Choice, t: Time, f: Field)
    requires c < |s.callers| && Typed(s, c) && s.callers[c].pc.Lead?
    ensures SumOver(f, NextObjs(s, c, ch, t)) == SumOver(f, s.objs)
  {
    var name := s.callers[c].host;
    if name in s.hosts {
      var h := s.hosts[name];
      SumUpdate(GetOf(f), s.objs, h, s.objs[h].(usedAt := Some(t)));
    } else {
      SumAppend(GetOf(f), s.objs, NEW_HOST.(usedAt := Some(t)));
    }
  }

  lemma SumAtHost(s: State, c: nat, ch: Choice, t: Time, f: Field)
    requires c < |s.callers| && Typed(s, c) && !s.callers[c].pc.Lead? && HostOf(s.callers[c].pc).Some?
    ensures var h := HostOf(s.callers[c].pc).value;
            SumOver(f, NextObjs(s, c, ch, t)) == SumOver(f, s.objs) - Get(f, s.objs[h]) + Get(f, NextObjs(s, c, ch, t)[h])
  {
    var h := HostOf(s.callers[c].pc).value;
    SumUpdate(GetOf(f), s.objs, h, NextObjs(s, c, ch, t)[h]);
  }

  /** At most one caller holds the token of an object. */
  lemma OneHolder(cfg: Config, s: State, h: nat, c: nat, d: nat)
    requires Refs(s) && Counters(cfg, s)
    requires c < |s.callers| && HoldsToken(s.callers[c].pc) && On(s.callers[c].pc, h)
    requires d < |s.callers| && HoldsToken(s.callers[d].pc) && On(s.callers[d].pc, h)
    ensures c == d
  {
    assert RefsAt(s, c);
    assert CountersAt(s, h);
    if c < d {
      SumOfTwo(Of(Tokens(h)), s.callers, c, d);
    } else if d < c {
      SumOfTwo(Of(Tokens(h)), s.callers, d, c);
    }
  }

  // ---- runs ----

  /** The result of fn that a caller carries after its run. */
  function Outcome(pc: PC): Option<Ret> {
    match pc
    case Finished(_, r) => Some(r)
    case Record(_, r) => Some(r)
    case Publish(_, r) => Some(r)
    case _ => Published(pc)
  }

  ghost predicate Logged(s: State) {
    && (forall k :: 0 <= k < |s.runs| ==> LoggedAt(s, k))
    && (forall j, k :: 0 <= j < k < |s.runs| ==> s.runs[j].caller != s.runs[k].caller)
  }

  ghost predicate LoggedAt(s: State, k: nat)
    requires k < |s.runs|
  {
    var run := s.runs[k];
    && run.caller < |s.callers|
    && run.host < |s.objs|
    && run.start <= s.now
    && match run.finish
       case None => s.callers[run.caller].pc == Running(run.host)
       case Some(f) =>
         && run.start <= f.end <= s.now
         && Outcome(s.callers[run.caller].pc) == Some(f.ret)
         && (HostOf(s.callers[run.caller].pc).Some? ==> On(s.callers[run.caller].pc, run.host))
  }

  lemma LoggedAtStep(cfg: Config, s: State, c: nat, ch: Choice, t: Time, k: nat)
    requires Refs(s) && Logged(s) && Enabled(cfg, s, c, ch, t)
    requires k < |s.runs|
    ensures LoggedAt(Step(cfg, s, c, ch, t), k)
  {
    assert LoggedAt(s, k);
    if s.runs[k].caller == c {
      OutcomeKept(cfg, s, c, ch, t);
    }
  }

  /** A caller that has a result keeps it, and stays at its object until it lets go of the token. */
  lemma OutcomeKept(cfg: Config, s: State, c: nat, ch: Choice, t: Time)
    requires Enabled(cfg, s, c, ch, t)
    ensures var pc, pc' := s.callers[c].pc, NextPC(cfg, s, c, ch, t);
            && (Outcome(pc).Some? ==> Outcome(pc') == Outcome(pc))
            && (Outcome(pc).Some? && HostOf(pc').Some? ==> HostOf(pc') == HostOf(pc))
  {
  }

  lemma LoggedStep(cfg: Config, s: State, c: nat, ch: Choice, t: Time)
    requires Refs(s) && Logged(s) && Enabled(cfg, s, c, ch, t)
    ensures Logged(Step(cfg, s, c, ch, t))
  {
    var s' := Step(cfg, s, c, ch, t);
    assert RefsAt(s, c);
    forall k | 0 <= k < |s'.runs| ensures LoggedAt(s', k) {
      if k < |s.runs| {
        LoggedAtStep(cfg, s, c, ch, t, k);
      }
    }
    forall j, k | 0 <= j < k < |s'.runs| ensures s'.runs[j].caller != s'.runs[k].caller {
      assert LoggedAt(s, j);
    }
  }

  // ---- pacing ----

  /** The earliest time a run on this object may start, as far as its last run is concerned. */
  function Due(cfg: Config, o: HostState): Option<Time> {
    if o.lastAt.Some? then Some(o.lastAt.value + cfg.Gap()) else None
  }

  predicate Passed(due: Option<Time>, t: Time) { due.Some? ==> due.value <= t }

  /** Has waited out the cooldown and not yet called fn. */
  predicate Cleared(pc: PC) {
    pc.SlotEnter? || pc.SlotWait? || pc.Slotted? || pc.Starting? || pc.Enter? || (pc.Awake? && pc.cut.None?)
  }

  ghost predicate Paced(cfg: Config, s: State) {
    && (forall h :: 0 <= h < |s.objs| ==> s.objs[h].lastAt.Some? ==> s.objs[h].lastAt.value <= s.now)
    && (forall c :: 0 <= c < |s.callers| ==> PacedAt(cfg, s, c))
    && (forall k :: 0 <= k < |s.runs| ==> RecordedAt(cfg, s, k))
    && (forall j, k :: 0 <= j < k < |s.runs| ==> Spaced(cfg, s.runs[j], s.runs[k]))
  }

  /** Where a caller stands in hostWait, measured against the object's last run. */
  predicate Waits(cfg: Config, pc: PC, o: HostState, now: Time) {
    && (pc.Decide? ==> pc.last == o.lastAt)
    && (pc.Cool? ==> Passed(Due(cfg, o), now + pc.wait))
    && (pc.Sleep? ==> Passed(Due(cfg, o), pc.until))
    && (Cleared(pc) ==> Passed(Due(cfg, o), now))
  }

  ghost predicate PacedAt(cfg: Config, s: State, c: nat)
    requires c < |s.callers|
  {
    var pc := s.callers[c].pc;
    HostOf(pc).Some? ==> HostOf(pc).value < |s.objs| && Waits(cfg, pc, s.objs[HostOf(pc).value], s.now)
  }

  /** A finished run is in lastAt, unless its caller still holds the token and is about to record it. */
  ghost predicate RecordedAt(cfg: Config, s: State, k: nat)
    requires k < |s.runs|
  {
    var run := s.runs[k];
    && run.caller < |s.callers|
    && run.host < |s.objs|
    && (run.finish.Some? ==>
          || s.callers[run.caller].pc == Finished(run.host, run.finish.value.ret)
          || s.callers[run.caller].pc == Record(run.host, run.finish.value.ret)
          || (s.objs[run.host].lastAt.Some? && run.finish.value.end <= s.objs[run.host].lastAt.value))
  }

  /** Two runs on one object do not overlap and leave the gap between them. */
  predicate Spaced(cfg: Config, first: Run, second: Run) {
    first.host == second.host ==>
      first.finish.Some? && first.finish.value.end + cfg.Gap() <= second.start
  }

  /** The caller that moves: waiting out the pause takes it past the due time. */
  lemma WaitsStep(cfg: Config, s: State, c: nat, ch: Choice, t: Time, h: nat)
    requires Enabled(cfg, s, c, ch, t) && On(s.callers[c].pc, h)
    requires Waits(cfg, s.callers[c].pc, s.objs[h], s.now)
    requires s.objs[h].lastAt.Some? ==> s.objs[h].lastAt.value <= s.now
    requires !s.callers[c].pc.Record?
    ensures var pc' := NextPC(cfg, s, c, ch, t);
            On(pc', h) ==> forall o: HostState :: o.lastAt == s.objs[h].lastAt ==> Waits(cfg, pc', o, t)
  {
  }

  lemma PacedSelf(cfg: Config, s: State, c: nat, ch: Choice, t: Time)
    requires Refs(s) && Paced(cfg, s) && Enabled(cfg, s, c, ch, t)
    ensures PacedAt(cfg, Step(cfg, s, c, ch, t), c)
  {
    var pc := s.callers[c].pc;
    assert RefsAt(s, c) && PacedAt(cfg, s, c);
    RefsSelf(cfg, s, c, ch, t);
    if HostOf(pc).Some? && !pc.Record? {
      PacedAtHost(cfg, s, c, ch, t);
    }
  }

  lemma PacedAtHost(cfg: Config, s: State, c: nat, ch: Choice, t: Time)
    requires Enabled(cfg, s, c, ch, t) && HostOf(s.callers[c].pc).Some? && !s.callers[c].pc.Record?
    requires PacedAt(cfg, s, c) && forall h :: 0 <= h < |s.objs| ==> s.objs[h].lastAt.Some? ==> s.objs[h].lastAt.value <= s.now
    ensures PacedAt(cfg, Step(cfg, s, c, ch, t), c)
  {
    WaitsStep(cfg, s, c, ch, t, HostOf(s.callers[c].pc).value);
  }

  /** Time passing only helps, and nobody else records a run on an object whose token is held. */
  lemma PacedOther(cfg: Config, s: State, c: nat, ch: Choice, t: Time, d: nat)
    requires Refs(s) && Counters(cfg, s) && Paced(cfg, s) && Enabled(cfg, s, c, ch, t)
    requires d < |s.callers| && d != c
    ensures PacedAt(cfg, Step(cfg, s, c, ch, t), d)
  {
    assert RefsAt(s, c) && RefsAt(s, d) && PacedAt(cfg, s, d);
    var pc := s.callers[d].pc;
    if HostOf(pc).Some? {
      var h := HostOf(pc).value;
      var o, o' := s.objs[h], NextObjs(s, c, ch, t)[h];
      if HoldsToken(pc) {
        if s.callers[c].pc.Record? && On(s.callers[c].pc, h) {
          OneHolder(cfg, s, h, c, d);
        }
        assert o'.lastAt == o.lastAt;
      }
      assert Waits(cfg, pc, o', t);
    }
  }

  lemma RecordedStep(cfg: Config, s: State, c: nat, ch: Choice, t: Time, k: nat)
    requires Refs(s) && Logged(s) && Paced(cfg, s) && Enabled(cfg, s, c, ch, t)
    requires k < |NextRuns(s, c, ch, t)|
    ensures RecordedAt(cfg, Step(cfg, s, c, ch, t), k)
  {
    assert RefsAt(s, c);
    if k < |s.runs| {
      assert LoggedAt(s, k) && RecordedAt(cfg, s, k);
    }
  }

  /** A run starts only when every earlier run on the object ended at least a gap ago. */
  lemma StartIsSpaced(cfg: Config, s: State, c: nat, t: Time, j: nat)
    requires Refs(s) && Counters(cfg, s) && Logged(s) && Paced(cfg, s)
    requires c < |s.callers| && s.callers[c].pc.Enter? && s.now <= t && j < |s.runs|
    ensures Spaced(cfg, s.runs[j], Run(c, s.callers[c].pc.h, t, None))
  {
    var h := s.callers[c].pc.h;
    if s.runs[j].host == h {
      assert LoggedAt(s, j) && RecordedAt(cfg, s, j) && PacedAt(cfg, s, c);
      var d := s.runs[j].caller;
      if HoldsToken(s.callers[d].pc) && On(s.callers[d].pc, h) {
        OneHolder(cfg, s, h, c, d);
      }
    }
  }

  lemma PacedStep(cfg: Config, s: State, c: nat, ch: Choice, t: Time)
    requires Refs(s) && Counters(cfg, s) && Logged(s) && Paced(cfg, s) && Enabled(cfg, s, c, ch, t)
    ensures Paced(cfg, Step(cfg, s, c, ch, t))
  {
    var s' := Step(cfg, s, c, ch, t);
    assert RefsAt(s, c);
    forall d | 0 <= d < |s'.callers| ensures PacedAt(cfg, s', d) {
      if d == c {
        PacedSelf(cfg, s, c, ch, t);
      } else {
        PacedOther(cfg, s, c, ch, t, d);
      }
    }
    forall k | 0 <= k < |s'.runs| ensures RecordedAt(cfg, s', k) {
      RecordedStep(cfg, s, c, ch, t, k);
    }
    forall j, k | 0 <= j < k < |s'.runs| ensures Spaced(cfg, s'.runs[j], s'.runs[k]) {
      if k < |s.runs| {
        assert LoggedAt(s, j) && LoggedAt(s, k) && Spaced(cfg, s.runs[j], s.runs[k]);
      } else {
        StartIsSpaced(cfg, s, c, t, j);
      }
    }
  }

  // ---- all of it ----

  ghost predicate Inv(cfg: Config, s: State) {
    Refs(s) && Dedupe(s) && Counters(cfg, s) && Logged(s) && Paced(cfg, s)
  }

  lemma InvInit(cfg: Config, s: State)
    requires Init(s)
    ensures Inv(cfg, s)
  {
    CountersInit(cfg, s);
  }

  lemma InvStep(cfg: Config, s: State, c: nat, ch: Choice, t: Time)
    requires Inv(cfg, s) && Enabled(cfg, s, c, ch, t)
    ensures Inv(cfg, Step(cfg, s, c, ch, t))
  {
    RefsStep(cfg, s, c, ch, t);
    DedupeStep(cfg, s, c, ch, t);
    CountersStep(cfg, s, c, ch, t);
    LoggedStep(cfg, s, c, ch, t);
    PacedStep(cfg, s, c, ch, t);
  }

  lemma {:induction false} InvRuns(cfg: Config, s: State, es: seq<Event>)
    requires Inv(cfg, s) && Runs(cfg, s, es)
    ensures Inv(cfg, After(cfg, s, es))
    decreases |es|
  {
    if es != [] {
      InvStep(cfg, s, es[0].c, es[0].ch, es[0].t);
      InvRuns(cfg, Step(cfg, s, es[0].c, es[0].ch, es[0].t), es[1..]);
    }
  }

  lemma InvReachable(cfg: Config, s: State)
    requires Reachable(cfg, s)
    ensures Inv(cfg, s)
  {
    var s0, es :| Init(s0) && Runs(cfg, s0, es) && After(cfg, s0, es) == s;
    InvInit(cfg, s0);
    InvRuns(cfg, s0, es);
  }
}
