/** One run and one gap per host name: exactly when the scheduler keeps the promise of its package comment. */
module SchedulerNameRuns {
  import opened Common
  import opened Tally
  import opened Scheduler
  import opened SchedulerTally
  import opened SchedulerInvariant
  import opened SchedulerSafety
  import opened SchedulerNames
  import opened SchedulerCrowd

  // ---- a single slot ----

  /** Runs follow one another: each had ended when the next began. */
  ghost predicate Serial(s: State) {
    forall j, k :: 0 <= j < k < |s.runs| ==> Before(s.runs[j], s.runs[k])
  }

  predicate Before(first: Run, second: Run) { first.finish.Some? && first.finish.value.end <= second.start }

  /** With one slot, every run has ended when another is about to start. */
  lemma AllEndedAtEntry(cfg: Config, s: State, c: nat, j: nat)
    requires Inv(cfg, s) && cfg.Slots() == 1 && c < |s.callers| && s.callers[c].pc.Enter? && j < |s.runs|
    ensures s.runs[j].finish.Some? && s.runs[j].finish.value.end <= s.now
  {
    assert LoggedAt(s, j);
    var d := s.runs[j].caller;
    if s.runs[j].finish.None? {
      if c < d {
        SumOfTwo(Of(Slots), s.callers, c, d);
      } else {
        SumOfTwo(Of(Slots), s.callers, d, c);
      }
    }
  }

  lemma SerialStep(cfg: Config, s: State, c: nat, ch: Choice, t: Time)
    requires Inv(cfg, s) && Serial(s) && cfg.Slots() == 1 && Enabled(cfg, s, c, ch, t)
    ensures Serial(Step(cfg, s, c, ch, t))
  {
    if s.callers[c].pc.Enter? {
      forall j | 0 <= j < |s.runs| ensures s.runs[j].finish.Some? && s.runs[j].finish.value.end <= t {
        AllEndedAtEntry(cfg, s, c, j);
      }
    }
    var runs' := NextRuns(s, c, ch, t);
    forall j, k | 0 <= j < k < |runs'| ensures Before(runs'[j], runs'[k]) {
      assert k < |s.runs| ==> Before(s.runs[j], s.runs[k]);
    }
  }

  lemma {:induction false} SerialRuns(cfg: Config, s: State, es: seq<Event>)
    requires Inv(cfg, s) && Serial(s) && cfg.Slots() == 1 && Runs(cfg, s, es)
    ensures Serial(After(cfg, s, es))
    decreases |es|
  {
    if es != [] {
      InvStep(cfg, s, es[0].c, es[0].ch, es[0].t);
      SerialStep(cfg, s, es[0].c, es[0].ch, es[0].t);
      SerialRuns(cfg, Step(cfg, s, es[0].c, es[0].ch, es[0].t), es[1..]);
    }
  }

  lemma OneSlotIsSerial(cfg: Config, s: State)
    requires Reachable(cfg, s) && cfg.Slots() == 1
    ensures Serial(s)
  {
    var s0, es :| Init(s0) && Runs(cfg, s0, es) && After(cfg, s0, es) == s;
    InvInit(cfg, s0);
    SerialRuns(cfg, s0, es);
  }

  lemma OneSlotOneRun(cfg: Config, s: State)
    requires Reachable(cfg, s) && cfg.Slots() == 1
    ensures OneRunPerName(s)
  {
    InvReachable(cfg, s);
    forall c: nat, d: nat | c < d < |s.callers| ensures !(s.callers[c].pc.Running? && s.callers[d].pc.Running?) {
      SumOfTwo(Of(Slots), s.callers, c, d);
    }
  }

  // ---- before anyone has passed a gate ----

  /** Nothing has run: no slot is taken and no object has a last run. */
  ghost predicate Unused(s: State) {
    s.slots == 0 && s.runs == [] && forall h :: 0 <= h < |s.objs| ==> s.objs[h].lastAt.None?
  }

  ghost predicate AllEarly(s: State) { forall c :: 0 <= c < |s.callers| ==> Early(s.callers[c].pc) }

  lemma UnusedStep(cfg: Config, s: State, c: nat, ch: Choice, t: Time)
    requires Enabled(cfg, s, c, ch, t) && (AllEarly(s) ==> Unused(s)) && AllEarly(Step(cfg, s, c, ch, t))
    ensures Unused(Step(cfg, s, c, ch, t))
  {
    var s' := Step(cfg, s, c, ch, t);
    assert Early(s'.callers[c].pc);
    forall d | 0 <= d < |s.callers| ensures Early(s.callers[d].pc) {
      assert Early(s'.callers[d].pc);
    }
  }

  lemma {:induction false} UnusedRuns(cfg: Config, s: State, es: seq<Event>)
    requires Runs(cfg, s, es) && (AllEarly(s) ==> Unused(s))
    ensures AllEarly(After(cfg, s, es)) ==> Unused(After(cfg, s, es))
    decreases |es|
  {
    if es != [] {
      var next := Step(cfg, s, es[0].c, es[0].ch, es[0].t);
      if AllEarly(next) {
        UnusedStep(cfg, s, es[0].c, es[0].ch, es[0].t);
      }
      UnusedRuns(cfg, next, es[1..]);
    }
  }

  lemma EarlyIsUnused(cfg: Config, s: State)
    requires Reachable(cfg, s) && AllEarly(s)
    ensures Unused(s)
  {
    var s0, es :| Init(s0) && Runs(cfg, s0, es) && After(cfg, s0, es) == s;
    UnusedRuns(cfg, s0, es);
  }

  // ---- driving one caller ----

  lemma TypedAt(cfg: Config, s: State, c: nat)
    requires Reachable(cfg, s) && c < |s.callers| && HostOf(s.callers[c].pc).Some?
    ensures Typed(s, c)
  {
    InvReachable(cfg, s);
    assert RefsAt(s, c);
  }

  /** What one action of caller c at its object leaves behind. */
  ghost predicate Moved(s: State, s': State, c: nat, pc: PC, slots: int, runs: seq<Run>)
    requires c < |s.callers|
  {
    && s'.now == s.now && s'.slots == s.slots + slots && s'.runs == runs
    && s'.callers == s.callers[c := s.callers[c].(pc := pc)]
    && |s'.objs| == |s.objs|
    && forall h :: 0 <= h < |s.objs| && !On(pc, h) ==> s'.objs[h].lastAt == s.objs[h].lastAt
  }

  /** The actions between the gate and the return of the slot that need no pause, with the point they lead to. */
  ghost predicate Hops(cfg: Config, s: State, pc: PC, ch: Choice, pc': PC) {
    match pc
    case Gated(h) => ch.Go? && pc' == ReadLast(h)
    case ReadLast(h) => ch.Go? && h < |s.objs| && s.objs[h].lastAt.None? && pc' == Decide(h, None)
    case Decide(h, last) => ch == Pick(0) && last.None? && pc' == SlotEnter(h)
    case SlotEnter(h) => ch.Go? && pc' == SlotWait(h)
    case SlotWait(h) => ch.Go? && s.slots < cfg.Slots() && pc' == Slotted(h)
    case Slotted(h) => ch.Go? && pc' == Starting(h)
    case Starting(h) => ch.Go? && pc' == Enter(h)
    case Enter(h) => ch.Go? && pc' == Running(h)
    case Running(h) => ch.Answer? && pc' == Finished(h, ch.r)
    case Finished(h, r) => ch.Go? && pc' == Record(h, r)
    case Record(h, r) => ch.Go? && pc' == Publish(h, r)
    case Publish(h, r) => ch.Go? && pc' == GiveSlot(h, r)
    case GiveSlot(h, r) => ch.Go? && s.slots > 0 && pc' == GiveToken(h, r)
    case _ => false
  }

  lemma HopIsStep(cfg: Config, s: State, c: nat, ch: Choice, pc': PC)
    requires Reachable(cfg, s) && c < |s.callers| && Hops(cfg, s, s.callers[c].pc, ch, pc')
    ensures Enabled(cfg, s, c, ch, s.now) && NextPC(cfg, s, c, ch, s.now) == pc'
  {
    TypedAt(cfg, s, c);
  }

  lemma StepMoves(cfg: Config, s: State, c: nat, ch: Choice, pc': PC)
    requires c < |s.callers| && Hops(cfg, s, s.callers[c].pc, ch, pc')
    requires Enabled(cfg, s, c, ch, s.now) && NextPC(cfg, s, c, ch, s.now) == pc'
    ensures var s' := Step(cfg, s, c, ch, s.now);
            && Moved(s, s', c, pc', SlotsBy(s.callers[c].pc, ch), NextRuns(s, c, ch, s.now))
            && (s.callers[c].pc.Gated? ==> forall h :: 0 <= h < |s.objs| ==> s'.objs[h].lastAt == s.objs[h].lastAt)
  {}

  lemma Hop(cfg: Config, s: State, c: nat, ch: Choice, pc': PC) returns (s': State)
    requires Reachable(cfg, s) && c < |s.callers| && Hops(cfg, s, s.callers[c].pc, ch, pc')
    ensures Reachable(cfg, s') && Moved(s, s', c, pc', SlotsBy(s.callers[c].pc, ch), NextRuns(s, c, ch, s.now))
    ensures s.callers[c].pc.Gated? ==> forall h :: 0 <= h < |s.objs| ==> s'.objs[h].lastAt == s.objs[h].lastAt
  {
    HopIsStep(cfg, s, c, ch, pc');
    ReachableStep(cfg, s, c, ch, s.now);
    StepMoves(cfg, s, c, ch, pc');
    s' := Step(cfg, s, c, ch, s.now);
  }

  /** Neither takes nor returns a slot, nor starts or ends a run. */
  predicate Plain(pc: PC) { !pc.SlotWait? && !pc.GiveSlot? && !pc.Enter? && !pc.Running? }

  lemma TwoHops(cfg: Config, s: State, c: nat, ch: Choice, pc1: PC, pc2: PC) returns (s': State)
    requires Reachable(cfg, s) && c < |s.callers| && Hops(cfg, s, s.callers[c].pc, ch, pc1)
    requires HostOf(pc1) == HostOf(pc2) && Plain(pc1) && !pc1.ReadLast? && Plain(s.callers[c].pc)
    requires Hops(cfg, s, pc1, Go, pc2)
    ensures Reachable(cfg, s') && Moved(s, s', c, pc2, 0, s.runs)
  {
    var s1 := Hop(cfg, s, c, ch, pc1);
    PlainKeepsRuns(s, c, ch);
    s' := Hop(cfg, s1, c, Go, pc2);
    PlainKeepsRuns(s1, c, Go);
    Chain(s, s1, s', c, 0, s.runs);
  }

  lemma PlainKeepsRuns(s: State, c: nat, ch: Choice)
    requires c < |s.callers| && Plain(s.callers[c].pc)
    ensures NextRuns(s, c, ch, s.now) == s.runs && SlotsBy(s.callers[c].pc, ch) == 0
  {}

  /** From the gate to the queue for a slot: no cooldown, since the object has no last run. */
  lemma ToSlotQueue(cfg: Config, s: State, c: nat) returns (s': State)
    requires Reachable(cfg, s) && c < |s.callers| && s.callers[c].pc.Gated?
    requires s.callers[c].pc.h < |s.objs| && s.objs[s.callers[c].pc.h].lastAt.None?
    ensures Reachable(cfg, s') && Moved(s, s', c, SlotWait(s.callers[c].pc.h), 0, s.runs)
  {
    var h := s.callers[c].pc.h;
    var s1 := Hop(cfg, s, c, Go, ReadLast(h));
    var s2 := Hop(cfg, s1, c, Go, Decide(h, None));
    Chain(s, s1, s2, c, 0, s.runs);
    s' := TwoHops(cfg, s2, c, Pick(0), SlotEnter(h), SlotWait(h));
    Chain(s, s2, s', c, 0, s.runs);
  }

  /** Two stretches of the same caller, the second one after the first. */
  lemma Chain(s: State, s1: State, s2: State, c: nat, slots: int, runs: seq<Run>)
    requires c < |s.callers| && |s1.callers| == |s.callers| && HostOf(s1.callers[c].pc).Some?
    requires c < |s2.callers| && HostOf(s2.callers[c].pc) == HostOf(s1.callers[c].pc)
    requires Moved(s, s1, c, s1.callers[c].pc, s1.slots - s.slots, s1.runs)
    requires Moved(s1, s2, c, s2.callers[c].pc, s2.slots - s1.slots, runs)
    requires slots == s2.slots - s.slots
    ensures Moved(s, s2, c, s2.callers[c].pc, slots, runs)
  {}

  /** From the queue into fn, when a slot is free. */
  lemma IntoFn(cfg: Config, s: State, c: nat) returns (s': State)
    requires Reachable(cfg, s) && c < |s.callers| && s.callers[c].pc.SlotWait? && s.slots < cfg.Slots()
    ensures var h := s.callers[c].pc.h; Reachable(cfg, s') && Moved(s, s', c, Running(h), 1, s.runs + [Run(c, h, s.now, None)])
  {
    var h := s.callers[c].pc.h;
    var s1 := ToEntry(cfg, s, c);
    s' := Hop(cfg, s1, c, Go, Running(h));
    Chain(s, s1, s', c, 1, s'.runs);
  }

  lemma ToEntry(cfg: Config, s: State, c: nat) returns (s': State)
    requires Reachable(cfg, s) && c < |s.callers| && s.callers[c].pc.SlotWait? && s.slots < cfg.Slots()
    ensures Reachable(cfg, s') && Moved(s, s', c, Enter(s.callers[c].pc.h), 1, s.runs)
  {
    var h := s.callers[c].pc.h;
    var s1 := TakeSlot(cfg, s, c);
    s' := TwoHops(cfg, s1, c, Go, Starting(h), Enter(h));
    Chain(s, s1, s', c, 1, s.runs);
  }

  lemma TakeSlot(cfg: Config, s: State, c: nat) returns (s': State)
    requires Reachable(cfg, s) && c < |s.callers| && s.callers[c].pc.SlotWait? && s.slots < cfg.Slots()
    ensures Reachable(cfg, s') && Moved(s, s', c, Slotted(s.callers[c].pc.h), 1, s.runs)
  {
    s' := Hop(cfg, s, c, Go, Slotted(s.callers[c].pc.h));
  }

  /** Out of fn at once, until the slot is given back. */
  lemma OutOfFn(cfg: Config, s: State, c: nat, r: Ret) returns (s': State)
    requires Reachable(cfg, s) && c < |s.callers| && s.callers[c].pc.Running? && s.slots > 0
    ensures Reachable(cfg, s')
    ensures Moved(s, s', c, GiveToken(s.callers[c].pc.h, r), -1, FinishRun(s.runs, c, s.now, r))
  {
    var s1 := ToPublish(cfg, s, c, r);
    s' := LetGo(cfg, s1, c);
    Chain(s, s1, s', c, -1, s1.runs);
  }

  lemma ToPublish(cfg: Config, s: State, c: nat, r: Ret) returns (s': State)
    requires Reachable(cfg, s) && c < |s.callers| && s.callers[c].pc.Running?
    ensures Reachable(cfg, s') && Moved(s, s', c, Publish(s.callers[c].pc.h, r), 0, FinishRun(s.runs, c, s.now, r))
  {
    var h := s.callers[c].pc.h;
    var s1 := Hop(cfg, s, c, Answer(r), Finished(h, r));
    s' := TwoHops(cfg, s1, c, Go, Record(h, r), Publish(h, r));
    Chain(s, s1, s', c, 0, s1.runs);
  }

  lemma LetGo(cfg: Config, s: State, c: nat) returns (s': State)
    requires Reachable(cfg, s) && c < |s.callers| && s.callers[c].pc.Publish? && s.slots > 0
    ensures Reachable(cfg, s') && Moved(s, s', c, GiveToken(s.callers[c].pc.h, s.callers[c].pc.r), -1, s.runs)
  {
    var h, r := s.callers[c].pc.h, s.callers[c].pc.r;
    var s1 := Hop(cfg, s, c, Go, GiveSlot(h, r));
    s' := Hop(cfg, s1, c, Go, GiveToken(h, r));
    Chain(s, s1, s', c, -1, s.runs);
  }

  lemma NamesAreHosts(cs: seq<Caller>, cs': seq<Caller>)
    requires |cs| == |cs'| && forall i :: 0 <= i < |cs| ==> cs'[i].host == cs[i].host
    ensures Names(cs') == Names(cs)
  {
    forall n | n in Names(cs) ensures n in Names(cs') {
      var c :| 0 <= c < |cs| && cs[c].host == n;
      assert cs'[c].host == n;
    }
    forall n | n in Names(cs') ensures n in Names(cs) {
      var c :| 0 <= c < |cs'| && cs'[c].host == n;
      assert cs[c].host == n;
    }
  }

  // ---- two callers of one name ----

  /** The last two of the crowd hold the gates of two objects for one name, and nothing has run yet. */
  lemma PairAtTwoObjects(cfg: Config) returns (s: State)
    ensures Reachable(cfg, s) && Unused(s)
    ensures |s.callers| == HOST_LIMIT + 2 && |Names(s.callers)| <= HOST_LIMIT + 1
    ensures var c, d := s.callers[HOST_LIMIT], s.callers[HOST_LIMIT + 1];
            && c.host == d.host && c.pc.Gated? && d.pc.Gated?
            && c.pc.h < |s.objs| && d.pc.h < |s.objs| && c.pc.h != d.pc.h
  {
    s := GatedPair(cfg);
    EarlyIsUnused(cfg, s);
    TypedAt(cfg, s, HOST_LIMIT);
    TypedAt(cfg, s, HOST_LIMIT + 1);
    if s.callers[HOST_LIMIT].pc.h == s.callers[HOST_LIMIT + 1].pc.h {
      TokenExclusion(cfg, s, s.callers[HOST_LIMIT].pc.h, HOST_LIMIT, HOST_LIMIT + 1);
    }
  }

  /** Both queue for a slot, neither owing a pause. */
  lemma PairAtSlots(cfg: Config) returns (s: State)
    ensures Reachable(cfg, s) && s.slots == 0 && s.runs == []
    ensures |s.callers| == HOST_LIMIT + 2 && |Names(s.callers)| <= HOST_LIMIT + 1
    ensures s.callers[HOST_LIMIT].host == s.callers[HOST_LIMIT + 1].host
    ensures s.callers[HOST_LIMIT].pc.SlotWait? && s.callers[HOST_LIMIT + 1].pc.SlotWait?
  {
    var s0 := PairAtTwoObjects(cfg);
    var s1 := ToSlotQueue(cfg, s0, HOST_LIMIT);
    s := ToSlotQueue(cfg, s1, HOST_LIMIT + 1);
    NamesAreHosts(s0.callers, s.callers);
  }

  /** With two slots both are inside fn together. */
  lemma PairInFn(cfg: Config) returns (s: State)
    requires cfg.Slots() >= 2
    ensures Reachable(cfg, s) && |Names(s.callers)| <= HOST_LIMIT + 1
    ensures !OneRunPerName(s) && !SpacedByName(cfg, s)
  {
    var s0 := PairAtSlots(cfg);
    var s1 := IntoFn(cfg, s0, HOST_LIMIT);
    s := IntoFn(cfg, s1, HOST_LIMIT + 1);
    NamesAreHosts(s0.callers, s.callers);
    assert s.callers[HOST_LIMIT].pc.Running? && s.callers[HOST_LIMIT + 1].pc.Running?;
    assert SameName(s, 0, 1) && !Clear(cfg, s, 0, 1);
  }

  /** With any number of slots one can follow the other without the gap. */
  lemma PairWithoutGap(cfg: Config) returns (s: State)
    requires cfg.Gap() > 0
    ensures Reachable(cfg, s) && |Names(s.callers)| <= HOST_LIMIT + 1 && !SpacedByName(cfg, s)
  {
    var s0 := PairAtSlots(cfg);
    var s1 := RunOnce(cfg, s0, HOST_LIMIT);
    s := IntoFn(cfg, s1, HOST_LIMIT + 1);
    NamesAreHosts(s0.callers, s.callers);
    assert SameName(s, 0, 1) && !Clear(cfg, s, 0, 1);
  }

  /** One run that takes no time, on its own. */
  lemma RunOnce(cfg: Config, s: State, c: nat) returns (s': State)
    requires Reachable(cfg, s) && c < |s.callers| && s.callers[c].pc.SlotWait? && s.slots == 0 && s.runs == []
    ensures Reachable(cfg, s') && s'.slots == 0 && s'.now == s.now
    ensures exists pc :: s'.callers == s.callers[c := s.callers[c].(pc := pc)]
    ensures |s'.runs| == 1 && s'.runs[0].caller == c && s'.runs[0].finish.Some? && s'.runs[0].finish.value.end == s.now
  {
    var s1 := IntoFn(cfg, s, c);
    s' := OutOfFn(cfg, s1, c, Ret("", None));
    assert s'.callers == s.callers[c := s.callers[c].(pc := s'.callers[c].pc)];
  }

  // ---- exactly when ----

  /** Runs for one name never overlap if and only if at most 1024 names are in use or there is a single slot. */
  lemma OneRunPerNameExactly(cfg: Config, n: nat)
    ensures (forall s :: Reachable(cfg, s) && |Names(s.callers)| <= n ==> OneRunPerName(s))
            <==> n <= HOST_LIMIT || cfg.Slots() == 1
  {
    if n <= HOST_LIMIT || cfg.Slots() == 1 {
      forall s | Reachable(cfg, s) && |Names(s.callers)| <= n ensures OneRunPerName(s) {
        if n <= HOST_LIMIT {
          RunsPerNameWithin(cfg, s);
        } else {
          OneSlotOneRun(cfg, s);
        }
      }
    } else {
      var s := PairInFn(cfg);
      assert Reachable(cfg, s) && |Names(s.callers)| <= n && !OneRunPerName(s);
    }
  }

  /** Runs for one name are the gap apart if and only if at most 1024 names are in use, or there is a single slot and no gap. */
  lemma SpacedByNameExactly(cfg: Config, n: nat)
    ensures (forall s :: Reachable(cfg, s) && |Names(s.callers)| <= n ==> SpacedByName(cfg, s))
            <==> n <= HOST_LIMIT || (cfg.Slots() == 1 && cfg.Gap() == 0)
  {
    if n <= HOST_LIMIT || (cfg.Slots() == 1 && cfg.Gap() == 0) {
      forall s | Reachable(cfg, s) && |Names(s.callers)| <= n ensures SpacedByName(cfg, s) {
        if n <= HOST_LIMIT {
          RunsPerNameWithin(cfg, s);
        } else {
          OneSlotIsSerial(cfg, s);
          assert forall j: nat, k: nat :: j < k < |s.runs| ==> Before(s.runs[j], s.runs[k]);
        }
      }
    } else {
      var s;
      if cfg.Gap() > 0 {
        s := PairWithoutGap(cfg);
      } else {
        s := PairInFn(cfg);
      }
      assert Reachable(cfg, s) && |Names(s.callers)| <= n && !SpacedByName(cfg, s);
    }
  }
}
