/** Turning captured browser events into macro steps (internal/macro/recorder.go). */
module Recording {
  import opened Common
  import opened Macros
  import opened MacroStore

  /** One binding payload, decoded; field is "text" or "password", as the capture script sends it. */
  datatype Payload =
    | Undecodable
    | Event(ev: string, field: string, element: Option<Element>, url: string)

  datatype EventError = BadPayload | NavWithoutUrl | UnknownEvent

  function FirstCandidate(e: Option<Element>): string {
    if e.Some? && e.value.candidates != [] then e.value.candidates[0] else ""
  }

  function ActionOf(kind: string, field: string, selector: string, url: string): Action {
    Object(kind, "", field, selector, [], url, true)
  }

  function StepOf(p: Payload, action: Action): Step
    requires p.Event?
  {
    Step(action, "", Some(Recorded(p.url, p.element)), None, None)
  }

  predicate BeforeTheFlow(url: string) { HasPrefix(url, "about:") || HasPrefix(url, "data:") }

  predicate IsNav(s: Step) { s.action.Object? && s.action.kind == "navigate" }

  // ---- what a recording means ----

  function ErrorOf(p: Payload): Option<EventError> {
    if p.Undecodable? then Some(BadPayload)
    else if p.ev == "nav" && p.url == "" then Some(NavWithoutUrl)
    else if p.ev !in {"click", "type", "submit", "nav", "autofill"} then Some(UnknownEvent)
    else None
  }

  /** The step an event stands for, if it stands for one. */
  function Meaning(p: Payload): seq<Step> {
    if ErrorOf(p).Some? then []
    else if p.ev == "nav" then if BeforeTheFlow(p.url) then [] else [StepOf(p, ActionOf("navigate", "", "", p.url))]
    else if p.ev == "type" then [StepOf(p, ActionOf("type", p.field, "", ""))]
    else if p.ev == "autofill" then [StepOf(p, ActionOf("autofill", p.field, FirstCandidate(p.element), ""))]
    else [StepOf(p, ActionOf("click", "", "", ""))]
  }

  function Meanings(ps: seq<Payload>): seq<Step> {
    if ps == [] then [] else Meanings(ps[..|ps| - 1]) + Meaning(ps[|ps| - 1])
  }

  /** Each maximal run of navigations reduced to its last. */
  function Collapsed(s: seq<Step>): seq<Step> {
    if |s| <= 1 then s
    else if IsNav(s[0]) && IsNav(s[1]) then Collapsed(s[1..])
    else [s[0]] + Collapsed(s[1..])
  }

  // ---- the collapse, one step at a time ----

  /** A navigation replaces the navigation it directly follows. */
  function Appended(s: seq<Step>, x: Step): seq<Step> {
    if s != [] && IsNav(s[|s| - 1]) && IsNav(x) then s[|s| - 1 := x] else s + [x]
  }

  lemma {:induction false} CollapseAnother(s: seq<Step>, x: Step)
    ensures Collapsed(s + [x]) == Appended(Collapsed(s), x)
  {
    if |s| >= 2 {
      CollapseAnother(s[1..], x);
      CollapsedKeepsLast(s[1..]);
      assert (s + [x])[1..] == s[1..] + [x];
    } else if |s| == 1 {
      assert (s + [x])[1..] == [x];
    }
  }

  lemma {:induction false} CollapsedKeepsLast(s: seq<Step>)
    requires s != []
    ensures Collapsed(s) != [] && Collapsed(s)[|Collapsed(s)| - 1] == s[|s| - 1]
  {
    if |s| >= 2 {
      CollapsedKeepsLast(s[1..]);
    }
  }

  predicate NoAdjacentNavs(s: seq<Step>) {
    forall i :: 0 < i < |s| ==> !(IsNav(s[i - 1]) && IsNav(s[i]))
  }

  /** A collapsed recording has no two navigations in a row. */
  lemma {:induction false} CollapsedHasNoAdjacentNavs(s: seq<Step>)
    ensures NoAdjacentNavs(Collapsed(s))
  {
    if |s| >= 2 {
      CollapsedHasNoAdjacentNavs(s[1..]);
      CollapsedKeepsFirstKind(s[1..]);
      var all, rest := Collapsed(s), Collapsed(s[1..]);
      if !(IsNav(s[0]) && IsNav(s[1])) {
        forall i | 0 < i < |all| ensures !(IsNav(all[i - 1]) && IsNav(all[i])) {
          if i > 1 {
            assert all[i - 1] == rest[i - 2] && all[i] == rest[i - 1];
          }
        }
      }
    }
  }

  /** Such recordings are the only ones left alone. */
  lemma {:induction false} OnlyAdjacentNavsCollapse(s: seq<Step>)
    ensures NoAdjacentNavs(s) <==> Collapsed(s) == s
    ensures |Collapsed(s)| <= |s|
  {
    CollapsedHasNoAdjacentNavs(s);
    if |s| >= 2 {
      var tail := s[1..];
      OnlyAdjacentNavsCollapse(tail);
      if NoAdjacentNavs(s) {
        forall i | 0 < i < |tail| ensures !(IsNav(tail[i - 1]) && IsNav(tail[i])) {
          assert tail[i - 1] == s[i] && tail[i] == s[i + 1];
        }
      }
    }
  }

  lemma {:induction false} CollapsedKeepsFirstKind(s: seq<Step>)
    requires s != []
    ensures Collapsed(s) != [] && (IsNav(Collapsed(s)[0]) <==> IsNav(s[0]))
  {
    if |s| >= 2 && IsNav(s[0]) && IsNav(s[1]) {
      CollapsedKeepsFirstKind(s[1..]);
    }
  }

  function Interactions(s: seq<Step>): seq<Step> {
    if s == [] then [] else (if IsNav(s[0]) then [] else [s[0]]) + Interactions(s[1..])
  }

  /** Collapsing loses no interaction and keeps their order. */
  lemma {:induction false} CollapsedKeepsInteractions(s: seq<Step>)
    ensures Interactions(Collapsed(s)) == Interactions(s)
  {
    if |s| >= 2 {
      CollapsedKeepsInteractions(s[1..]);
      if !(IsNav(s[0]) && IsNav(s[1])) {
        assert Collapsed(s)[1..] == Collapsed(s[1..]);
      }
    }
  }

  lemma {:induction false} CollapsedMembers(s: seq<Step>, x: Step)
    ensures x in Collapsed(s) ==> x in s
    ensures x in s && !IsNav(x) ==> x in Collapsed(s)
  {
    if |s| >= 2 {
      CollapsedMembers(s[1..], x);
      assert s == [s[0]] + s[1..];
    }
  }

  function AfterEvent(steps: seq<Step>, p: Payload): seq<Step> {
    if Meaning(p) == [] then steps else Appended(steps, Meaning(p)[0])
  }

  /** What one more event does to the collapsed recording. */
  lemma RecordAnother(events: seq<Payload>, p: Payload)
    ensures Collapsed(Meanings(events + [p])) == AfterEvent(Collapsed(Meanings(events)), p)
  {
    assert (events + [p])[..|events|] == events;
    if Meaning(p) == [] {
      assert Meanings(events + [p]) == Meanings(events);
    } else {
      CollapseAnother(Meanings(events), Meaning(p)[0]);
    }
  }

  // ---- the recorder ----

  class Recorder {
    const id: string
    const site: string
    const started: int
    var steps: seq<Step>
    ghost var events: seq<Payload>

    /** The steps are the meaning of everything received, navigations collapsed. */
    ghost predicate Valid()
      reads this
    {
      steps == Collapsed(Meanings(events))
    }

    constructor (id: string, site: string, now: int)
      ensures Valid() && events == [] && this.id == id && this.site == site && started == now
    {
      this.id, this.site, started := id, site, now;
      steps, events := [], [];
    }

    /** Lines 184-247: what one event appends or overwrites. */
    method Ingest(p: Payload) returns (error: Option<EventError>)
      modifies `steps
      ensures steps == AfterEvent(old(steps), p) && error == ErrorOf(p)
    {
      if p.Undecodable? {
        return Some(BadPayload);
      }
      var step: Step;
      match p.ev {
        case "click" =>
          step := StepOf(p, ActionOf("click", "", "", ""));
        case "type" =>
          step := StepOf(p, ActionOf("type", p.field, "", ""));
        case "submit" =>
          step := StepOf(p, ActionOf("click", "", "", ""));
        case "nav" =>
          if p.url == "" {
            return Some(NavWithoutUrl);
          }
          if BeforeTheFlow(p.url) {
            return None;
          }
          step := StepOf(p, ActionOf("navigate", "", "", p.url));
          if |steps| > 0 && IsNav(steps[|steps| - 1]) {
            steps := steps[|steps| - 1 := step];
            return None;
          }
        case "autofill" =>
          step := StepOf(p, ActionOf("autofill", p.field, FirstCandidate(p.element), ""));
        case _ =>
          return Some(UnknownEvent);
      }
      steps := steps + [step];
      error := None;
    }

    /** The event counts towards the recording, whether or not it left a step. */
    method AddEvent(p: Payload) returns (error: Option<EventError>)
      requires Valid()
      modifies this
      ensures Valid() && events == old(events) + [p]
      ensures error == ErrorOf(p)
    {
      RecordAnother(events, p);
      events := events + [p];
      error := Ingest(p);
    }

    /** Lines 259-266. */
    method Draft() returns (m: Macro)
      requires Valid()
      ensures m == DraftOf(id, site, started, events)
      ensures m.id == id && m.site == site && m.created == started && m.approved.None? && m.steps == steps
    {
      m := Macro(id, site, "", started, None, "", steps);
    }
  }

  function DraftOf(id: string, site: string, started: int, events: seq<Payload>): Macro {
    Macro(id, site, "", started, None, "", Collapsed(Meanings(events)))
  }

  // ---- which recordings can be stored ----

  predicate Recorded1(p: Payload) { Meaning(p) != [] }

  predicate IsFill(p: Payload) { p.Event? && p.ev == "autofill" }

  predicate IsTyping(p: Payload) { p.Event? && p.ev == "type" }

  lemma {:induction false} MeaningFrom(events: seq<Payload>, x: Step) returns (i: nat)
    requires x in Meanings(events)
    ensures i < |events| && x in Meaning(events[i])
  {
    var n := |events| - 1;
    if x in Meaning(events[n]) {
      i := n;
    } else {
      i := MeaningFrom(events[..n], x);
    }
  }

  lemma {:induction false} MeaningIn(events: seq<Payload>, i: nat, x: Step)
    requires i < |events| && x in Meaning(events[i])
    ensures x in Meanings(events)
  {
    if i < |events| - 1 {
      MeaningIn(events[..|events| - 1], i, x);
    }
  }

  /** A recorded step passes validation on its own account, unless it is a fill without a selector or, strictly, typing. */
  lemma MeaningIsGood(p: Payload, strict: bool)
    requires Recorded1(p)
    ensures GoodStep(Meaning(p)[0], strict)
            <==> (IsFill(p) ==> !Blank(FirstCandidate(p.element))) && (IsTyping(p) ==> !strict)
  {}

  /** Every step of the draft is the meaning of some event, and every event that can be bad is in the draft. */
  lemma StepComesFrom(events: seq<Payload>, x: Step)
    requires x in Collapsed(Meanings(events))
    ensures exists i :: 0 <= i < |events| && Recorded1(events[i]) && x == Meaning(events[i])[0]
  {
    CollapsedMembers(Meanings(events), x);
    var i := MeaningFrom(events, x);
    MeaningIsOne(events[i], x);
  }

  lemma MeaningIsOne(p: Payload, x: Step)
    requires x in Meaning(p)
    ensures Recorded1(p) && x == Meaning(p)[0]
  {}

  lemma EventIsKept(events: seq<Payload>, i: nat)
    requires i < |events| && Recorded1(events[i]) && !IsNav(Meaning(events[i])[0])
    ensures Meaning(events[i])[0] in Collapsed(Meanings(events))
  {
    var x := Meaning(events[i])[0];
    MeaningIn(events, i, x);
    CollapsedMembers(Meanings(events), x);
  }

  predicate StepsGood(events: seq<Payload>, strict: bool) {
    forall x :: x in Collapsed(Meanings(events)) ==> GoodStep(x, strict)
  }

  predicate EventsGood(events: seq<Payload>, strict: bool) {
    forall i :: 0 <= i < |events| && Recorded1(events[i]) ==> GoodStep(Meaning(events[i])[0], strict)
  }

  /** The steps of a draft are good exactly when the events they come from are. */
  lemma DraftSteps(events: seq<Payload>, strict: bool)
    ensures StepsGood(events, strict) <==> EventsGood(events, strict)
  {
    if EventsGood(events, strict) {
      forall x | x in Collapsed(Meanings(events)) ensures GoodStep(x, strict) {
        StepComesFrom(events, x);
      }
    }
    if StepsGood(events, strict) {
      forall i | 0 <= i < |events| && Recorded1(events[i]) ensures GoodStep(Meaning(events[i])[0], strict) {
        MeaningIsGood(events[i], strict);
        if !IsNav(Meaning(events[i])[0]) {
          EventIsKept(events, i);
        }
      }
    }
  }

  lemma DraftIsEmpty(events: seq<Payload>)
    ensures Collapsed(Meanings(events)) == [] <==> forall i :: 0 <= i < |events| ==> !Recorded1(events[i])
  {
    var all := Meanings(events);
    if all == [] {
      forall i | 0 <= i < |events| ensures !Recorded1(events[i]) {
        if Recorded1(events[i]) {
          MeaningIn(events, i, Meaning(events[i])[0]);
        }
      }
    } else {
      CollapsedKeepsLast(all);
      var _ := MeaningFrom(events, all[0]);
    }
  }

  /**
   * A recording can be stored exactly when its id and site are not blank, something was
   * recorded, and every fill names a field; it can be approved as it stands exactly when,
   * besides, nothing was typed.
   */
  lemma DraftIsValidExactly(id: string, site: string, started: int, events: seq<Payload>, strict: bool)
    ensures Valid(DraftOf(id, site, started, events), strict)
            <==> && !Blank(id) && !Blank(site)
                 && (exists i :: 0 <= i < |events| && Recorded1(events[i]))
                 && (forall i :: 0 <= i < |events| && IsFill(events[i]) ==> !Blank(FirstCandidate(events[i].element)))
                 && (strict ==> forall i :: 0 <= i < |events| ==> !IsTyping(events[i]))
  {
    var m := DraftOf(id, site, started, events);
    DraftIsEmpty(events);
    DraftSteps(events, strict);
    assert StepsGood(events, strict) <==> forall i :: 0 <= i < |m.steps| ==> GoodStep(m.steps[i], strict);
    forall i | 0 <= i < |events| && Recorded1(events[i])
      ensures GoodStep(Meaning(events[i])[0], strict)
              <==> (IsFill(events[i]) ==> !Blank(FirstCandidate(events[i].element))) && (IsTyping(events[i]) ==> !strict)
    {
      MeaningIsGood(events[i], strict);
    }
    assert forall i :: 0 <= i < |events| && (IsFill(events[i]) || IsTyping(events[i])) ==> Recorded1(events[i]);
  }

  // ---- stopping a recording (internal/server/macro.go, lines 200-218) ----

  /** The draft is put in the store, or parked as an orphan when the store refuses it. */
  function Stopped(s: State, draft: Macro, disk: bool, parked: bool): State {
    var put := Do(s, Put(draft, false, disk));
    if put.refusal.None? then put.state else Do(put.state, PutOrphan(draft, parked)).state
  }

  /** The draft is stored, or parked. */
  predicate Held(s: State, draft: Macro) {
    var k := Sanitized(draft.id);
    Get(s, draft.id) == Some(draft) || (k in s.orphans && s.orphans[k] == draft)
  }

  /**
   * The human's work is kept exactly when the draft goes into the store or can be parked (or was
   * there already), and no stored macro is touched.
   */
  lemma RecordingIsKeptExactly(s: State, draft: Macro, disk: bool, parked: bool, id: string)
    requires Inv(s) && draft.approved.None?
    ensures var s' := Stopped(s, draft, disk, parked);
            && (Held(s', draft) <==> DoPut(s, draft, false, disk).refusal.None? || parked || Held(s, draft))
            && (Get(s, id).Some? ==> Get(s', id) == Get(s, id))
  {}

  lemma StoppingKeeps(s: State, draft: Macro, disk: bool, parked: bool)
    requires Inv(s) && draft.approved.None?
    ensures Inv(Stopped(s, draft, disk, parked))
  {
    SectionKeeps(s, Put(draft, false, disk));
    SectionKeeps(Do(s, Put(draft, false, disk)).state, PutOrphan(draft, parked));
  }

  /** A draft parked earlier survives exactly when the new one is not parked over it. */
  lemma EarlierDraftSurvivesExactly(s: State, draft: Macro, disk: bool, parked: bool, k: string)
    requires k in s.orphans
    ensures var s' := Stopped(s, draft, disk, parked);
            k in s'.orphans && s'.orphans[k] == s.orphans[k]
            <==> DoPut(s, draft, false, disk).refusal.None? || !parked || k != Sanitized(draft.id) || s.orphans[k] == draft
  {}

  const FIRST := SAMPLE.(description := "first")
  const SECOND := SAMPLE.(description := "second")

  /** Two recordings stopped under the id of a stored macro: both are parked, and the first one is gone. */
  lemma ParkingCanLose()
    ensures var s1 := Stopped(STORED, FIRST, true, true);
            var s2 := Stopped(s1, SECOND, true, true);
            Held(s1, FIRST) && Held(s2, SECOND) && !Held(s2, FIRST)
  {
    SampleIsStored();
  }

  /** A parked draft is recovered by a promotion exactly when it is valid and no approved macro holds its name. */
  lemma ParkedIsRecoverable(s: State, draft: Macro)
    requires Inv(s) && draft.approved.None?
    ensures var parked := Do(s, PutOrphan(draft, true)).state;
            var promoted := DoPromote(parked, draft.id, true, true);
            && (promoted.refusal.None? <==> Valid(draft, false) && !ApprovedAt(s, Sanitized(draft.id)))
            && (promoted.refusal.None? ==> Get(promoted.state, draft.id) == Some(draft) && Sanitized(draft.id) !in promoted.state.orphans)
  {}
}
