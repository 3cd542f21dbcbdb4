/**
 The pacing scheduler (internal/scheduler/scheduler.go) as a transition system.

 Any finite number of callers each run `Do` once. A caller's program counter names the
 next atomic action of `Do`: one section held under `s.mu`, one channel operation, one
 read of the clock, or the start or the return of `fn`. Every step carries the reading
 `t` of a monotone clock. A caller's context may end at any of the `select`s.
 */
module Scheduler {
  import opened Common
  import opened Tally

  type Time = int

  /** pruneLocked leaves maps of up to this many hosts alone. */
  const HOST_LIMIT := 1024
  /** Entries not used for this long (one hour, in milliseconds) are pruned. */
  const PRUNE_AGE := 3_600_000

  datatype Config = Config(maxSlots: int, gap: int, jitter: int) {
    /** New raises a smaller slot count to one. */
    function Slots(): nat { if maxSlots < 1 then 1 else maxSlots }

    /** The pause the scheduler owes between two runs on one host. */
    function Gap(): nat { if gap <= 0 then 0 else gap }
  }

  /** What `Do` returns: a value and an error (None is nil). */
  datatype Ret = Ret(val: string, err: Option<string>)

  /** The result of a caller whose context ended with error `e`. */
  function Expired(e: string): Ret { Ret("", Some(e)) }

  /** A hostState object. `token` is true while its one-element channel is full. */
  datatype HostState = HostState(
    token: bool, lastAt: Option<Time>, lastUrl: string,
    queued: int, inflight: int, total: int, usedAt: Option<Time>)

  const NEW_HOST := HostState(false, None, "", 0, 0, 0, None)

  /** A call record; followers wait for `done` and then read `ret`. */
  datatype Call = Call(done: bool, ret: Ret)

  datatype Stats = Stats(
    queued: int, running: int, total: int, shared: int,
    timedOut: int, completed: int, failed: int)

  datatype PC =
    | Ready                                  // has not called Do yet
    | Follow(leader: nat)                    // blocked on the leader's done channel
    | Lead                                   // registered in inflight, next: hostState
    | Hosted(h: nat)                         // next: mark(hs, +1, 0)
    | TokenWait(h: nat)                      // select on hs.token
    | TokenMissed(h: nat, e: string)         // context ended, next: mark(hs, -1, 0)
    | Gated(h: nat)                          // token taken, next: mark(hs, -1, 0)
    | ReadLast(h: nat)                       // hostWait reads lastAt
    | Decide(h: nat, last: Option<Time>)     // hostWait computes the pause
    | Cool(h: nat, wait: Time)               // next: mark(hs, +1, 0) and sleep
    | Sleep(h: nat, until: Time)             // sleeping
    | Awake(h: nat, cut: Option<string>)     // sleep returned, next: mark(hs, -1, 0)
    | SlotEnter(h: nat)                      // next: mark(hs, +1, 0)
    | SlotWait(h: nat)                       // select on s.slots
    | SlotMissed(h: nat, e: string)          // context ended, next: mark(hs, -1, 0)
    | Slotted(h: nat)                        // slot taken, next: mark(hs, -1, 0)
    | Starting(h: nat)                       // next: mark(hs, 0, +1)
    | Enter(h: nat)                          // next: fn is called
    | Running(h: nat)                        // inside fn
    | Finished(h: nat, r: Ret)               // fn returned, next: mark(hs, 0, -1)
    | Record(h: nat, r: Ret)                 // next: lastAt, totals
    | Publish(h: nat, r: Ret)                // next: c.val, c.err
    | GiveSlot(h: nat, r: Ret)               // deferred receive from s.slots
    | Timeout(h: nat, held: bool, e: string) // next: countTimeout
    | Fail(h: nat, held: bool, e: string)    // next: c.err
    | GiveToken(h: nat, r: Ret)              // deferred receive from hs.token
    | Unlist(r: Ret)                         // deferred delete from inflight
    | Close(r: Ret)                          // deferred close of c.done
    | Returned(r: Ret)                       // leader is done
    | Shared(leader: nat, r: Ret)            // follower returned its leader's result
    | GaveUp(e: string)                      // follower's context ended first

  datatype Caller = Caller(host: string, key: string, pc: PC)

  /** One execution of fn; a history variable that no step reads. */
  datatype Run = Run(caller: nat, host: nat, start: Time, finish: Option<Finish>)
  datatype Finish = Finish(end: Time, ret: Ret)

  /**
   The whole system. `objs` is the heap of hostState objects in order of creation, `hosts`
   and `inflight` are the scheduler's maps, and a call record is named by its leader.
   */
  datatype State = State(
    now: Time, callers: seq<Caller>, objs: seq<HostState>,
    hosts: map<string, nat>, inflight: map<string, nat>, calls: map<nat, Call>,
    slots: int, stats: Stats, runs: seq<Run>)

  /** What the environment decides in a step. */
  datatype Choice =
    | Go                                      // the program's own next action
    | Cancel(e: string)                       // the caller's context is done
    | Pick(j: int)                            // the jitter drawn by hostWait
    | Answer(r: Ret)                          // fn returns

  // ---- hostState and pruneLocked (178-202) ----

  /** pruneLocked's test; a zero usedAt lies before every cutoff. */
  predicate Stale(o: HostState, now: Time) {
    o.inflight == 0 && o.queued == 0 && (o.usedAt.Some? ==> o.usedAt.value < now - PRUNE_AGE)
  }

  ghost predicate Fit(hosts: map<string, nat>, objs: seq<HostState>) {
    forall n :: n in hosts ==> hosts[n] < |objs|
  }

  ghost function Pruned(hosts: map<string, nat>, objs: seq<HostState>, now: Time): map<string, nat>
    requires Fit(hosts, objs)
  {
    if |hosts| <= HOST_LIMIT then hosts
    else map n | n in hosts && !Stale(objs[hosts[n]], now) :: hosts[n]
  }

  /** The object that hostState(name) returns, which may be a new one. */
  function HostIndex(hosts: map<string, nat>, objs: seq<HostState>, name: string): nat {
    if name in hosts then hosts[name] else |objs|
  }

  /** The map afterwards. Pruning sees the new entry before its usedAt is set. */
  ghost function HostsAfter(hosts: map<string, nat>, objs: seq<HostState>, name: string, now: Time): map<string, nat>
    requires Fit(hosts, objs)
  {
    if name in hosts then hosts else Pruned(hosts[name := |objs|], objs + [NEW_HOST], now)
  }

  ghost function ObjsAfter(hosts: map<string, nat>, objs: seq<HostState>, name: string, now: Time): seq<HostState>
    requires Fit(hosts, objs)
  {
    if name in hosts then objs[hosts[name] := objs[hosts[name]].(usedAt := Some(now))]
    else objs + [NEW_HOST.(usedAt := Some(now))]
  }

  // ---- when a caller may move ----

  function HostOf(pc: PC): Option<nat> {
    match pc
    case Ready | Follow(_) | Lead | Unlist(_) | Close(_) | Returned(_) | Shared(_, _) | GaveUp(_) => None
    case _ => Some(pc.h)
  }

  predicate Ended(pc: PC) { pc.Returned? || pc.Shared? || pc.GaveUp? }

  /** The references a caller holds are meaningful. */
  ghost predicate Typed(s: State, c: nat)
    requires c < |s.callers|
  {
    var pc := s.callers[c].pc;
    && Fit(s.hosts, s.objs)
    && (HostOf(pc).Some? ==> HostOf(pc).value < |s.objs|)
    && (pc.Follow? ==> pc.leader in s.calls)
    && (pc.Publish? || pc.Fail? || pc.Close? ==> c in s.calls)
  }

  /**
   Caller c can take its next action under choice ch at time t. A send waits for room, a
   receive waits for an element, and closing a closed channel is not possible.
   */
  ghost predicate Enabled(cfg: Config, s: State, c: nat, ch: Choice, t: Time) {
    && s.now <= t
    && c < |s.callers|
    && Typed(s, c)
    && match s.callers[c].pc
       case Follow(l) => ch.Cancel? || (ch.Go? && s.calls[l].done)
       case TokenWait(h) => ch.Cancel? || (ch.Go? && !s.objs[h].token)
       case Decide(h, last) => ch.Pick? && 0 <= ch.j && (if cfg.jitter > 0 then ch.j < cfg.jitter else ch.j == 0)
       case Sleep(h, until) => ch.Cancel? || (ch.Go? && until <= t)
       case SlotWait(h) => ch.Cancel? || (ch.Go? && s.slots < cfg.Slots())
       case Running(h) => ch.Answer?
       case GiveSlot(h, r) => ch.Go? && s.slots > 0
       case GiveToken(h, r) => ch.Go? && s.objs[h].token
       case Close(r) => ch.Go? && !s.calls[c].done
       case Returned(_) | Shared(_, _) | GaveUp(_) => false
       case _ => ch.Go?
  }

  // ---- what an action does, field by field ----

  /** hostWait's arithmetic, after lastAt was read and the jitter was drawn. */
  function Pause(cfg: Config, last: Option<Time>, j: int, now: Time): Time {
    if last.None? || cfg.gap <= 0 then 0
    else
      var target := cfg.gap + j;
      if now - last.value < target then target - (now - last.value) else 0
  }

  ghost function NextPC(cfg: Config, s: State, c: nat, ch: Choice, t: Time): PC
    requires Enabled(cfg, s, c, ch, t)
  {
    var me := s.callers[c];
    match me.pc
    case Ready => if me.key in s.inflight then Follow(s.inflight[me.key]) else Lead
    case Follow(l) => if ch.Cancel? then GaveUp(ch.e) else Shared(l, s.calls[l].ret)
    case Lead => Hosted(HostIndex(s.hosts, s.objs, me.host))
    case Hosted(h) => TokenWait(h)
    case TokenWait(h) => if ch.Cancel? then TokenMissed(h, ch.e) else Gated(h)
    case TokenMissed(h, e) => Timeout(h, false, e)
    case Gated(h) => ReadLast(h)
    case ReadLast(h) => Decide(h, s.objs[h].lastAt)
    case Decide(h, last) =>
      var wait := Pause(cfg, last, ch.j, t);
      if wait > 0 then Cool(h, wait) else SlotEnter(h)
    case Cool(h, wait) => Sleep(h, t + wait)
    case Sleep(h, _) => Awake(h, if ch.Cancel? then Some(ch.e) else None)
    case Awake(h, cut) => if cut.Some? then Timeout(h, true, cut.value) else SlotEnter(h)
    case SlotEnter(h) => SlotWait(h)
    case SlotWait(h) => if ch.Cancel? then SlotMissed(h, ch.e) else Slotted(h)
    case SlotMissed(h, e) => Timeout(h, true, e)
    case Slotted(h) => Starting(h)
    case Starting(h) => Enter(h)
    case Enter(h) => Running(h)
    case Running(h) => Finished(h, ch.r)
    case Finished(h, r) => Record(h, r)
    case Record(h, r) => Publish(h, r)
    case Publish(h, r) => GiveSlot(h, r)
    case GiveSlot(h, r) => GiveToken(h, r)
    case Timeout(h, held, e) => Fail(h, held, e)
    case Fail(h, held, e) => if held then GiveToken(h, Expired(e)) else Unlist(Expired(e))
    case GiveToken(h, r) => Unlist(r)
    case Unlist(r) => Close(r)
    case Close(r) => Returned(r)
  }

  /** The calls of mark(hs, queued, 0): +1 before a wait, -1 after it. */
  function QueuedBy(pc: PC): int {
    match pc
    case Hosted(_) | Cool(_, _) | SlotEnter(_) => 1
    case TokenMissed(_, _) | Gated(_) | Awake(_, _) | SlotMissed(_, _) | Slotted(_) => -1
    case _ => 0
  }

  /** The calls of mark(hs, 0, running) around fn. */
  function RunningBy(pc: PC): int {
    match pc
    case Starting(_) => 1
    case Finished(_, _) => -1
    case _ => 0
  }

  /** Sends to and receives from s.slots. */
  function SlotsBy(pc: PC, ch: Choice): int {
    if pc.SlotWait? && ch.Go? then 1 else if pc.GiveSlot? then -1 else 0
  }

  function TokenAfter(pc: PC, ch: Choice, token: bool): bool {
    if pc.TokenWait? && ch.Go? then true else if pc.GiveToken? then false else token
  }

  /** The hostState object of a caller after the caller's action; Record is lines 163-172. */
  function NextObj(o: HostState, pc: PC, ch: Choice, key: string, t: Time): HostState {
    HostState(
      TokenAfter(pc, ch, o.token),
      if pc.Record? then Some(t) else o.lastAt,
      if pc.Record? then key else o.lastUrl,
      o.queued + QueuedBy(pc),
      o.inflight + RunningBy(pc),
      if pc.Record? then o.total + 1 else o.total,
      o.usedAt)
  }

  ghost function NextObjs(s: State, c: nat, ch: Choice, t: Time): seq<HostState>
    requires c < |s.callers| && Typed(s, c)
  {
    var me := s.callers[c];
    if me.pc.Lead? then ObjsAfter(s.hosts, s.objs, me.host, t)
    else if HostOf(me.pc).Some? then
      var h := HostOf(me.pc).value;
      s.objs[h := NextObj(s.objs[h], me.pc, ch, me.key, t)]
    else s.objs
  }

  ghost function NextHosts(s: State, c: nat, t: Time): map<string, nat>
    requires c < |s.callers| && Typed(s, c)
  {
    if s.callers[c].pc.Lead? then HostsAfter(s.hosts, s.objs, s.callers[c].host, t) else s.hosts
  }

  /** Lines 96-107: a caller leads when no call for its key is in flight. */
  predicate Leads(s: State, c: nat)
    requires c < |s.callers|
  {
    s.callers[c].pc.Ready? && s.callers[c].key !in s.inflight
  }

  predicate Joins(s: State, c: nat)
    requires c < |s.callers|
  {
    s.callers[c].pc.Ready? && s.callers[c].key in s.inflight
  }

  function NextInflight(s: State, c: nat): map<string, nat>
    requires c < |s.callers|
  {
    if Leads(s, c) then s.inflight[s.callers[c].key := c]
    else if s.callers[c].pc.Unlist? then s.inflight - {s.callers[c].key}
    else s.inflight
  }

  ghost function NextCalls(s: State, c: nat): map<nat, Call>
    requires c < |s.callers| && Typed(s, c)
  {
    if Leads(s, c) then s.calls[c := Call(false, Ret("", None))]
    else
      match s.callers[c].pc
      case Publish(_, r) => s.calls[c := s.calls[c].(ret := r)]
      case Fail(_, _, e) => s.calls[c := s.calls[c].(ret := s.calls[c].ret.(err := Some(e)))]
      case Close(_) => s.calls[c := s.calls[c].(done := true)]
      case _ => s.calls
  }

  function NextStats(s: State, c: nat): Stats
    requires c < |s.callers|
  {
    var pc := s.callers[c].pc;
    Stats(
      s.stats.queued + QueuedBy(pc),
      s.stats.running + RunningBy(pc),
      s.stats.total + Bit(Leads(s, c)),
      s.stats.shared + Bit(Joins(s, c)),
      s.stats.timedOut + Bit(pc.Timeout?),
      s.stats.completed + Bit(pc.Record? && pc.r.err.None?),
      s.stats.failed + Bit(pc.Record? && pc.r.err.Some?))
  }

  /** Closes the open entry of caller c in the log of runs. */
  function FinishRun(runs: seq<Run>, c: nat, t: Time, r: Ret): seq<Run> {
    seq(|runs|, i requires 0 <= i < |runs| =>
      if runs[i].caller == c && runs[i].finish.None? then runs[i].(finish := Some(Finish(t, r))) else runs[i])
  }

  function NextRuns(s: State, c: nat, ch: Choice, t: Time): seq<Run>
    requires c < |s.callers|
  {
    var pc := s.callers[c].pc;
    if pc.Enter? then s.runs + [Run(c, pc.h, t, None)]
    else if pc.Running? && ch.Answer? then FinishRun(s.runs, c, t, ch.r)
    else s.runs
  }

  ghost function Step(cfg: Config, s: State, c: nat, ch: Choice, t: Time): State
    requires Enabled(cfg, s, c, ch, t)
  {
    State(
      t,
      s.callers[c := s.callers[c].(pc := NextPC(cfg, s, c, ch, t))],
      NextObjs(s, c, ch, t),
      NextHosts(s, c, t),
      NextInflight(s, c),
      NextCalls(s, c),
      s.slots + SlotsBy(s.callers[c].pc, ch),
      NextStats(s, c),
      NextRuns(s, c, ch, t))
  }

  // ---- behaviours ----

  ghost predicate Init(s: State) {
    && (forall c :: 0 <= c < |s.callers| ==> s.callers[c].pc == Ready)
    && s.objs == [] && s.hosts == map[] && s.inflight == map[] && s.calls == map[]
    && s.slots == 0 && s.stats == Stats(0, 0, 0, 0, 0, 0, 0) && s.runs == []
  }

  /** An event of a run: who moved, what the environment chose, and when. */
  datatype Event = Event(c: nat, ch: Choice, t: Time)

  /** es can be executed from s, event after event. */
  ghost predicate Runs(cfg: Config, s: State, es: seq<Event>)
    decreases |es|
  {
    es == [] || (Enabled(cfg, s, es[0].c, es[0].ch, es[0].t)
                 && Runs(cfg, Step(cfg, s, es[0].c, es[0].ch, es[0].t), es[1..]))
  }

  ghost function After(cfg: Config, s: State, es: seq<Event>): State
    requires Runs(cfg, s, es)
    decreases |es|
  {
    if es == [] then s else After(cfg, Step(cfg, s, es[0].c, es[0].ch, es[0].t), es[1..])
  }

  ghost predicate Reachable(cfg: Config, s: State) {
    exists s0, es :: Init(s0) && Runs(cfg, s0, es) && After(cfg, s0, es) == s
  }
}
