/** What Do returns: the result of the caller's own run, or the error its context ended with. */
module SchedulerReturns {
  import opened Common
  import opened Scheduler
  import opened SchedulerInvariant

  /** fn was called for caller c. */
  ghost predicate Ran(s: State, c: nat) {
    exists k :: 0 <= k < |s.runs| && s.runs[k].caller == c
  }

  /** fn was called for caller c and has returned r. */
  ghost predicate RanTo(s: State, c: nat, r: Ret) {
    exists k :: 0 <= k < |s.runs| && s.runs[k].caller == c && s.runs[k].finish.Some? && s.runs[k].finish.value.ret == r
  }

  function EndOf(e: Event, c: nat): seq<string> { if e.c == c && e.ch.Cancel? then [e.ch.e] else [] }

  /** The errors with which the context of caller c ended during these events. */
  function Ends(es: seq<Event>, c: nat): seq<string> {
    if es == [] then [] else EndOf(es[0], c) + Ends(es[1..], c)
  }

  /** The error a caller carries from the select at which its context ended. */
  function Cut(pc: PC): seq<string> {
    match pc
    case TokenMissed(_, e) => [e]
    case Awake(_, cut) => if cut.Some? then [cut.value] else []
    case SlotMissed(_, e) => [e]
    case Timeout(_, _, e) => [e]
    case Fail(_, _, e) => [e]
    case GaveUp(e) => [e]
    case _ => []
  }

  /** Between the call of fn and the release of the slot. */
  predicate InRun(pc: PC) { pc.Running? || pc.Finished? || pc.Record? || pc.Publish? || pc.GiveSlot? }

  /** On the way out with a result. */
  predicate Leaving(pc: PC) { pc.GiveToken? || pc.Unlist? || pc.Close? || pc.Returned? }

  /**
   Where a caller's result comes from, once its context has ended with these errors: a caller
   on its way out has run fn and was never cut short, or it has not and carries the error.
   */
  predicate Fate(pc: PC, ran: bool, ends: seq<string>) {
    if Leaving(pc) then if ran then ends == [] else |ends| == 1 && pc.r.val == "" && pc.r.err == Some(ends[0])
    else if InRun(pc) then ran && ends == []
    else !ran && ends == Cut(pc)
  }

  ghost predicate FateAt(s: State, c: nat, ends: seq<string>) {
    c < |s.callers| && Fate(s.callers[c].pc, Ran(s, c), ends)
  }

  lemma RanStep(cfg: Config, s: State, d: nat, ch: Choice, t: Time, c: nat)
    requires Enabled(cfg, s, d, ch, t)
    ensures Ran(Step(cfg, s, d, ch, t), c) <==> Ran(s, c) || (c == d && s.callers[d].pc.Enter?)
  {
    var s' := Step(cfg, s, d, ch, t);
    if k :| 0 <= k < |s.runs| && s.runs[k].caller == c {
      assert s'.runs[k].caller == c;
    }
    if c == d && s.callers[d].pc.Enter? {
      assert s'.runs[|s.runs|].caller == c;
    }
  }

  lemma FateMove(cfg: Config, s: State, c: nat, ch: Choice, t: Time, ran: bool, ends: seq<string>)
    requires Enabled(cfg, s, c, ch, t) && Fate(s.callers[c].pc, ran, ends)
    ensures Fate(NextPC(cfg, s, c, ch, t), ran || s.callers[c].pc.Enter?, ends + EndOf(Event(c, ch, t), c))
  {}

  lemma FateStep(cfg: Config, s: State, e: Event, c: nat, ends: seq<string>)
    requires FateAt(s, c, ends) && Enabled(cfg, s, e.c, e.ch, e.t)
    ensures FateAt(Step(cfg, s, e.c, e.ch, e.t), c, ends + EndOf(e, c))
  {
    RanStep(cfg, s, e.c, e.ch, e.t, c);
    if e.c == c {
      FateMove(cfg, s, c, e.ch, e.t, Ran(s, c), ends);
    } else {
      assert ends + EndOf(e, c) == ends;
    }
  }

  lemma FateAtStart(s: State, c: nat)
    requires Init(s) && c < |s.callers|
    ensures FateAt(s, c, [])
  {}

  lemma EndsSplit(es: seq<Event>, c: nat, ends: seq<string>)
    ensures ends + Ends(es, c) == if es == [] then ends else ends + EndOf(es[0], c) + Ends(es[1..], c)
  {}

  lemma {:induction false} FateRuns(cfg: Config, s: State, es: seq<Event>, c: nat, ends: seq<string>)
    requires FateAt(s, c, ends) && Runs(cfg, s, es)
    ensures FateAt(After(cfg, s, es), c, ends + Ends(es, c))
    decreases |es|
  {
    EndsSplit(es, c, ends);
    if es != [] {
      FateStep(cfg, s, es[0], c, ends);
      FateRuns(cfg, Step(cfg, s, es[0].c, es[0].ch, es[0].t), es[1..], c, ends + EndOf(es[0], c));
    }
  }

  lemma FateAfter(cfg: Config, s0: State, es: seq<Event>, c: nat)
    requires Init(s0) && Runs(cfg, s0, es) && c < |s0.callers|
    ensures FateAt(After(cfg, s0, es), c, Ends(es, c))
  {
    FateAtStart(s0, c);
    FateRuns(cfg, s0, es, c, []);
    assert [] + Ends(es, c) == Ends(es, c);
  }

  /** The result of a finished caller, given the errors its context ended with. */
  ghost predicate ReturnsRight(s: State, c: nat, ends: seq<string>)
    requires c < |s.callers|
  {
    match s.callers[c].pc
    case Returned(r) =>
      if Ran(s, c) then ends == [] && RanTo(s, c, r) else |ends| == 1 && r.val == "" && r.err == Some(ends[0])
    case Shared(l, r) => !Ran(s, c) && ends == [] && l < |s.callers| && s.callers[l].pc == Returned(r)
    case GaveUp(e) => !Ran(s, c) && ends == [e]
    case _ => true
  }

  lemma FateIsTheReturn(cfg: Config, s: State, c: nat, ends: seq<string>)
    requires Inv(cfg, s) && FateAt(s, c, ends)
    ensures ReturnsRight(s, c, ends)
  {
    assert FollowAt(s, c);
    if k :| 0 <= k < |s.runs| && s.runs[k].caller == c {
      assert LoggedAt(s, k);
    }
  }

  /**
   The result of Do in every run. A leader for which fn ran returns what fn returned, and its
   context did not end; any other leader, and a follower that gave up, returns no value and
   exactly the error its context ended with; a follower that was woken did not run fn.
   */
  lemma WhatDoReturns(cfg: Config, s0: State, es: seq<Event>, c: nat)
    requires Init(s0) && Runs(cfg, s0, es) && c < |s0.callers|
    ensures c < |After(cfg, s0, es).callers| && ReturnsRight(After(cfg, s0, es), c, Ends(es, c))
  {
    FateAfter(cfg, s0, es, c);
    InvInit(cfg, s0);
    InvRuns(cfg, s0, es);
    FateIsTheReturn(cfg, After(cfg, s0, es), c, Ends(es, c));
  }

  lemma {:induction false} SameCallers(cfg: Config, s: State, es: seq<Event>)
    requires Runs(cfg, s, es)
    ensures |After(cfg, s, es).callers| == |s.callers|
    decreases |es|
  {
    if es != [] {
      SameCallers(cfg, Step(cfg, s, es[0].c, es[0].ch, es[0].t), es[1..]);
    }
  }

  /** A leader that reports success has run fn, and fn succeeded with that value. */
  lemma SuccessMeansRan(cfg: Config, s: State, c: nat)
    requires Reachable(cfg, s) && c < |s.callers| && s.callers[c].pc.Returned? && s.callers[c].pc.r.err.None?
    ensures RanTo(s, c, s.callers[c].pc.r)
  {
    var s0, es :| Init(s0) && Runs(cfg, s0, es) && After(cfg, s0, es) == s;
    SameCallers(cfg, s0, es);
    WhatDoReturns(cfg, s0, es, c);
  }
}
