/** From the recorder to the replayer: what a replay of a recording does (internal/macro). */
module RecordedReplay {
  import opened Common
  import opened Macros
  import opened Recording
  import opened Replay

  // ---- which events a recording keeps ----

  predicate IsNavEvent(p: Payload) { Recorded1(p) && IsNav(Meaning(p)[0]) }

  /** The next event after i that leaves a step is a navigation. */
  ghost predicate Superseded(events: seq<Payload>, i: nat) {
    exists j :: i < j < |events| && NextRecorded(events, i, j) && IsNavEvent(events[j])
  }

  predicate NextRecorded(events: seq<Payload>, i: nat, j: nat) {
    i < j < |events| && Recorded1(events[j]) && forall l :: i < l < j ==> !Recorded1(events[l])
  }

  /** The events whose steps are kept: every interaction, and the last of each run of navigations. */
  ghost predicate Kept(events: seq<Payload>, i: nat)
    requires i < |events|
  {
    Recorded1(events[i]) && !(IsNavEvent(events[i]) && Superseded(events, i))
  }

  /** origin names the event of each step, in order. */
  ghost predicate Originates(events: seq<Payload>, steps: seq<Step>, origin: seq<nat>) {
    && |origin| == |steps|
    && (forall q :: 0 <= q < |origin| ==> origin[q] < |events| && Meaning(events[origin[q]]) == [steps[q]])
    && (forall p, q :: 0 <= p < q < |origin| ==> origin[p] < origin[q])
    && (forall i :: 0 <= i < |events| ==> (i in origin <==> Kept(events, i)))
  }

  /** The last step is that of the last event that left one. */
  ghost predicate EndsLast(events: seq<Payload>, origin: seq<nat>) {
    forall i :: 0 <= i < |events| && Recorded1(events[i]) ==> origin != [] && i <= origin[|origin| - 1]
  }

  lemma SameNext(events: seq<Payload>, p: Payload, i: nat, j: nat)
    requires i < j < |events|
    ensures NextRecorded(events + [p], i, j) <==> NextRecorded(events, i, j)
  {
    assert forall l :: i < l <= j ==> (events + [p])[l] == events[l];
  }

  /** One more event changes whether an earlier one is kept only if it is a navigation and that one the last recorded. */
  lemma KeptBefore(events: seq<Payload>, p: Payload, i: nat)
    requires i < |events|
    ensures Kept(events + [p], i)
            <==> Kept(events, i) && !(IsNavEvent(p) && IsNavEvent(events[i]) && NextRecorded(events + [p], i, |events|))
  {
    var more := events + [p];
    if j :| i < j < |events| && NextRecorded(events, i, j) && IsNavEvent(events[j]) {
      SameNext(events, p, i, j);
      assert IsNavEvent(more[j]);
    }
    if j :| i < j < |more| && NextRecorded(more, i, j) && IsNavEvent(more[j]) {
      if j < |events| {
        SameNext(events, p, i, j);
        assert IsNavEvent(events[j]);
      }
    }
  }

  /** The last event is kept whenever it leaves a step. */
  lemma KeptLast(events: seq<Payload>, p: Payload)
    ensures Kept(events + [p], |events|) <==> Recorded1(p)
  {}

  lemma OriginSame(events: seq<Payload>, p: Payload, steps: seq<Step>, origin: seq<nat>)
    requires Originates(events, steps, origin) && EndsLast(events, origin) && !Recorded1(p)
    ensures Originates(events + [p], steps, origin) && EndsLast(events + [p], origin)
  {
    forall i | 0 <= i < |events| + 1 ensures i in origin <==> Kept(events + [p], i) {
      if i < |events| {
        KeptBefore(events, p, i);
      }
    }
  }

  /** A kept event that nothing recorded follows is the origin of the last step. */
  lemma IsTheLast(events: seq<Payload>, p: Payload, steps: seq<Step>, origin: seq<nat>, i: nat)
    requires Originates(events, steps, origin) && EndsLast(events, origin)
    requires i < |events| && Kept(events, i) && NextRecorded(events + [p], i, |events|)
    ensures steps != [] && i == origin[|origin| - 1] && Meaning(events[i]) == [steps[|steps| - 1]]
  {
    var last := origin[|origin| - 1];
    assert last in origin && Kept(events, last);
    assert (events + [p])[last] == events[last];
  }

  lemma OriginAppends(events: seq<Payload>, p: Payload, steps: seq<Step>, origin: seq<nat>)
    requires Originates(events, steps, origin) && EndsLast(events, origin) && Recorded1(p)
    requires steps == [] || !IsNav(steps[|steps| - 1]) || !IsNavEvent(p)
    ensures Originates(events + [p], steps + Meaning(p), origin + [|events|]) && EndsLast(events + [p], origin + [|events|])
  {
    var more := origin + [|events|];
    assert more[|origin|] == |events|;
    forall i | 0 <= i < |events| + 1 ensures i in more <==> Kept(events + [p], i) {
      assert i in more <==> i in origin || i == |events|;
      if i < |events| {
        KeptBefore(events, p, i);
        if Kept(events, i) && NextRecorded(events + [p], i, |events|) {
          IsTheLast(events, p, steps, origin, i);
        }
      } else {
        KeptLast(events, p);
      }
    }
  }

  lemma InReplaced(origin: seq<nat>, m: nat, n: nat, i: nat)
    requires m < |origin| && n !in origin && forall p, q :: 0 <= p < q < |origin| ==> origin[p] < origin[q]
    ensures i in origin[m := n] <==> i == n || (i in origin && i != origin[m])
  {
    var more := origin[m := n];
    assert more[m] == n;
    if i in origin && i != origin[m] {
      var q :| 0 <= q < |origin| && origin[q] == i;
      assert more[q] == i;
    }
  }

  lemma OriginReplaces(events: seq<Payload>, p: Payload, steps: seq<Step>, origin: seq<nat>)
    requires Originates(events, steps, origin) && EndsLast(events, origin) && IsNavEvent(p)
    requires steps != [] && IsNav(steps[|steps| - 1])
    ensures var m := |steps| - 1;
            && Originates(events + [p], steps[m := Meaning(p)[0]], origin[m := |events|])
            && EndsLast(events + [p], origin[m := |events|])
  {
    var m := |steps| - 1;
    var more, last := origin[m := |events|], origin[m];
    forall i | 0 <= i < |events| + 1 ensures i in more <==> Kept(events + [p], i) {
      assert more[m] == |events|;
      InReplaced(origin, m, |events|, i);
      if i < |events| {
        KeptBefore(events, p, i);
        assert NextRecorded(events + [p], last, |events|);
        if Kept(events, i) && NextRecorded(events + [p], i, |events|) {
          IsTheLast(events, p, steps, origin, i);
        }
      } else {
        KeptLast(events, p);
      }
    }
  }

  /** The steps of a recording are those of its kept events, in their order. */
  lemma {:induction false} StepsOfKeptEvents(events: seq<Payload>) returns (origin: seq<nat>)
    ensures Originates(events, Collapsed(Meanings(events)), origin) && EndsLast(events, origin)
  {
    if events == [] {
      origin := [];
    } else {
      var n := |events| - 1;
      var init, p := events[..n], events[n];
      var steps := Collapsed(Meanings(init));
      assert init + [p] == events;
      origin := StepsOfKeptEvents(init);
      RecordAnother(init, p);
      if !Recorded1(p) {
        OriginSame(init, p, steps, origin);
      } else if steps != [] && IsNav(steps[|steps| - 1]) && IsNavEvent(p) {
        OriginReplaces(init, p, steps, origin);
        origin := origin[|steps| - 1 := n];
      } else {
        OriginAppends(init, p, steps, origin);
        origin := origin + [n];
      }
    }
  }

  // ---- what a replay of a recording does ----

  /** The executed action does again what the human did in this event. */
  ghost predicate Reenacts(p: Payload, minText: int, x: Exec) {
    && p.Event?
    && match p.ev
       case "nav" => x.Act? && x.action.Object? && x.action.kind == "navigate" && x.action.url == p.url
       case "autofill" =>
         && x.Act? && x.action.Object? && x.action.kind == "autofill"
         && p.element.Some? && p.element.value.candidates != [] && x.action.selector == p.element.value.candidates[0]
       case _ =>
         p.ev in {"click", "submit"} && x.ClickAny? && p.element.Some? && Ladder(p.element.value, minText, x.candidates)
  }

  /** Steps 0 to n - 1, each once and in order. */
  lemma {:induction false} AllInOrder(owners: seq<nat>, n: nat)
    requires forall p, q :: 0 <= p < q < |owners| ==> owners[p] < owners[q]
    requires forall q :: 0 <= q < |owners| ==> owners[q] < n
    requires forall i :: 0 <= i < n ==> i in owners
    ensures |owners| == n && forall q :: 0 <= q < n ==> owners[q] == q
  {
    if owners == [] {
      assert n > 0 ==> n - 1 in owners;
    } else {
      var last := |owners| - 1;
      assert owners[last] < n && n - 1 in owners;
      var init := owners[..last];
      assert owners == init + [owners[last]];
      forall i | 0 <= i < n - 1 ensures i in init {
        assert i in owners;
      }
      AllInOrder(init, n - 1);
    }
  }

  /** A recorded step, and the one action a replay executes for it when it passes. */
  lemma StepReenacts(env: Env, p: Payload, s: Step, x: Exec)
    requires Meaning(p) == [s] && FromStep(env, s, x) && GoodStep(s, true)
    ensures Reenacts(p, env.minText, x)
  {
    assert IsFill(p) ==> !Blank(FirstCandidate(p.element));
  }

  lemma RecordedStepsAct(p: Payload, s: Step)
    requires Meaning(p) == [s]
    ensures Acts(s)
  {}

  /**
   A replay that completes on what was recorded does again what the human did: it executes
   one action for each kept event, in their order, and nothing else.
   */
  lemma ReplayReenactsTheRecording(env: Env, m: Macro, events: seq<Payload>, start: Trace, trace: Trace)
    returns (origin: seq<nat>)
    requires m.steps == Collapsed(Meanings(events)) && Replayed(env, m, start, trace, Completed)
    ensures Originates(events, m.steps, origin)
    ensures |trace| == |start| + |origin| && trace[..|start|] == start
    ensures forall q :: 0 <= q < |origin| ==> Reenacts(events[origin[q]], env.minText, trace[|start| + q])
  {
    origin := StepsOfKeptEvents(events);
    var owners, probe := ReplayIsAPrefix(env, m, start, trace, Completed);
    assert trace[..|trace| - |probe|] == trace;
    forall i | 0 <= i < |m.steps| ensures i in owners {
      RecordedStepsAct(events[origin[i]], m.steps[i]);
    }
    AllInOrder(owners, |m.steps|);
    forall q | 0 <= q < |origin| ensures Reenacts(events[origin[q]], env.minText, trace[|start| + q]) {
      assert FromStep(env, m.steps[owners[q]], trace[|start| + q]);
      StepReenacts(env, events[origin[q]], m.steps[q], trace[|start| + q]);
    }
  }

  // ---- which recordings can be replayed ----

  /** The click has something to be found by. */
  predicate Findable(p: Payload, minText: int) {
    p.Event? && p.element.Some? && (p.element.value.candidates != [] || ByteLen(Trimmed(p.element.value.text)) >= minText)
  }

  predicate IsClick(p: Payload) { p.Event? && p.ev in {"click", "submit"} }

  lemma MeaningIsPassable(p: Payload, minText: int)
    requires Recorded1(p) && !IsTyping(p) && (IsFill(p) ==> !Blank(FirstCandidate(p.element)))
    ensures Passable(Meaning(p)[0], minText) <==> (IsClick(p) ==> Findable(p, minText))
  {}

  lemma KeptPassable(events: seq<Payload>, minText: int)
    requires forall i :: 0 <= i < |events| ==> !IsTyping(events[i]) && (IsFill(events[i]) ==> !Blank(FirstCandidate(events[i].element)))
    ensures AllPassable(Collapsed(Meanings(events)), minText, |Collapsed(Meanings(events))|)
            <==> forall i :: 0 <= i < |events| && IsClick(events[i]) ==> Findable(events[i], minText)
  {
    var steps := Collapsed(Meanings(events));
    var origin := StepsOfKeptEvents(events);
    forall q | 0 <= q < |steps|
      ensures Passable(steps[q], minText) <==> (IsClick(events[origin[q]]) ==> Findable(events[origin[q]], minText))
    {
      MeaningIsPassable(events[origin[q]], minText);
    }
    forall i | 0 <= i < |events| && IsClick(events[i]) ensures exists q :: 0 <= q < |origin| && origin[q] == i {
      assert Kept(events, i);
      assert i in origin;
    }
  }

  /**
   An approved recording can be replayed to its end exactly when it may be approved as it
   stands and every click can be found again by a recorded selector or a long enough text.
   */
  lemma RecordingCanReplayExactly(id: string, site: string, started: int, events: seq<Payload>, approval: Approval, minText: int)
    ensures var draft := DraftOf(id, site, started, events);
            CanEnd(draft.(approved := Some(approval)), false, minText, Completed)
            <==> Valid(draft, true) && forall i :: 0 <= i < |events| && IsClick(events[i]) ==> Findable(events[i], minText)
  {
    var draft := DraftOf(id, site, started, events);
    var m := draft.(approved := Some(approval));
    assert m.steps == draft.steps && (Valid(m, true) <==> Valid(draft, true));
    CanCompleteExactly(m, false, minText);
    DraftIsValidExactly(id, site, started, events, true);
    if Valid(draft, true) {
      KeptPassable(events, minText);
    }
  }
}
