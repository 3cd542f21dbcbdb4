/** Recorded macros, their validation and their file names (internal/macro/macro.go). */
module Macros {
  import opened Common

  datatype Element = Element(candidates: seq<string>, role: string, text: string)

  datatype Recorded = Recorded(url: string, element: Option<Element>)

  datatype Pause = Pause(reason: string, timeout: int)

  /**
   * The stored JSON of an action as the decoders see it. Garbage does not decode at all;
   * typed says whether the whole object decodes into the action type of its kind, and
   * selector, selectors and url are what the lenient decoders read.
   */
  datatype Action =
    | Garbage
    | Object(kind: string, text: string, field: string, selector: string, selectors: seq<string>, url: string, typed: bool)

  datatype Step = Step(action: Action, secret: string, recorded: Option<Recorded>, pause: Option<Pause>, resumeAssert: Option<Action>)

  datatype Approval = Approval(who: string, at: int)

  datatype Macro = Macro(id: string, site: string, description: string, created: int, approved: Option<Approval>,
                         profileHash: string, steps: seq<Step>)

  // ---- validation ----

  datatype Reason = BadAction | NoKind | InlineValue | NoSecret | BadSecret | InlineFill | NoSelector | NoPauseReason

  datatype Fault = NoId | NoSite | NoSteps | BadStep(index: nat, reason: Reason)

  predicate HasPrefix(s: string, prefix: string) {
    |prefix| <= |s| && s[..|prefix|] == prefix
  }

  /** What the format promises of a step; strict is the approval-time reading. */
  predicate GoodStep(s: Step, strict: bool) {
    && s.action.Object?
    && s.action.kind != ""
    && (s.action.kind in {"type", "autofill"} ==> s.action.text == "")
    && (s.action.kind == "type" && s.secret != "" ==> HasPrefix(s.secret, "op://"))
    && (s.action.kind == "type" && strict ==> s.secret != "" || s.pause.Some?)
    && (s.action.kind == "autofill" ==> !Blank(s.action.selector))
    && (s.pause.Some? ==> !Blank(s.pause.value.reason))
  }

  predicate Valid(m: Macro, strict: bool) {
    !Blank(m.id) && !Blank(m.site) && m.steps != [] && forall i :: 0 <= i < |m.steps| ==> GoodStep(m.steps[i], strict)
  }

  /** The complaint names something the step really lacks. */
  predicate Justified(s: Step, strict: bool, reason: Reason) {
    match reason
    case BadAction => s.action.Garbage?
    case NoKind => s.action.Object? && s.action.kind == ""
    case InlineValue => s.action.Object? && s.action.kind == "type" && s.action.text != ""
    case NoSecret => s.action.Object? && s.action.kind == "type" && s.secret == "" && s.pause.None? && strict
    case BadSecret => s.action.Object? && s.action.kind == "type" && s.secret != "" && !HasPrefix(s.secret, "op://")
    case InlineFill => s.action.Object? && s.action.kind == "autofill" && s.action.text != ""
    case NoSelector => s.action.Object? && s.action.kind == "autofill" && Blank(s.action.selector)
    case NoPauseReason => s.pause.Some? && Blank(s.pause.value.reason)
  }

  /** A fault reported for a macro: the first thing wrong with it, and nothing before it is wrong. */
  predicate FirstFault(m: Macro, strict: bool, fault: Fault) {
    match fault
    case NoId => Blank(m.id)
    case NoSite => !Blank(m.id) && Blank(m.site)
    case NoSteps => !Blank(m.id) && !Blank(m.site) && m.steps == []
    case BadStep(i, reason) =>
      && !Blank(m.id) && !Blank(m.site) && i < |m.steps|
      && Justified(m.steps[i], strict, reason)
      && forall j :: 0 <= j < i ==> GoodStep(m.steps[j], strict)
  }

  /** Lines 108-158. */
  method Validate(m: Macro, strict: bool) returns (fault: Option<Fault>)
    ensures fault.None? <==> Valid(m, strict)
    ensures fault.Some? ==> FirstFault(m, strict, fault.value)
  {
    if Blank(m.id) {
      return Some(NoId);
    }
    if Blank(m.site) {
      return Some(NoSite);
    }
    if |m.steps| == 0 {
      return Some(NoSteps);
    }
    for i := 0 to |m.steps|
      invariant forall j :: 0 <= j < i ==> GoodStep(m.steps[j], strict)
    {
      var reason := ValidateStep(m.steps[i], strict);
      if reason.Some? {
        return Some(BadStep(i, reason.value));
      }
    }
    fault := None;
  }

  /** Lines 119-155, the body of the loop. */
  method ValidateStep(s: Step, strict: bool) returns (reason: Option<Reason>)
    ensures reason.None? <==> GoodStep(s, strict)
    ensures reason.Some? ==> Justified(s, strict, reason.value)
  {
    if s.action.Garbage? {
      return Some(BadAction);
    }
    var a := s.action;
    if a.kind == "" {
      return Some(NoKind);
    }
    if a.kind == "type" && a.text != "" {
      return Some(InlineValue);
    }
    if a.kind == "type" && s.secret == "" && s.pause.None? {
      if strict {
        return Some(NoSecret);
      }
    } else if a.kind == "type" && s.secret != "" {
      if !HasPrefix(s.secret, "op://") {
        return Some(BadSecret);
      }
    }
    if a.kind == "autofill" {
      if a.text != "" {
        return Some(InlineFill);
      }
      if Blank(a.selector) {
        return Some(NoSelector);
      }
    }
    if s.pause.Some? && Blank(s.pause.value.reason) {
      return Some(NoPauseReason);
    }
    reason := None;
  }

  /** A type step a draft may keep but an approval may not: no reference, no pause. */
  predicate LacksSecret(s: Step) {
    s.action.Object? && s.action.kind == "type" && s.secret == "" && s.pause.None?
  }

  /** The two validations differ in exactly that: strict is draft plus no step that lacks its secret. */
  lemma StrictIsDraftWithSecrets(m: Macro)
    ensures Valid(m, true) <==> Valid(m, false) && forall i :: 0 <= i < |m.steps| ==> !LacksSecret(m.steps[i])
  {
    if Valid(m, true) {
      forall i | 0 <= i < |m.steps| ensures GoodStep(m.steps[i], false) && !LacksSecret(m.steps[i]) {
        assert GoodStep(m.steps[i], true);
      }
    }
    if Valid(m, false) && forall i :: 0 <= i < |m.steps| ==> !LacksSecret(m.steps[i]) {
      forall i | 0 <= i < |m.steps| ensures GoodStep(m.steps[i], true) {
        assert GoodStep(m.steps[i], false) && !LacksSecret(m.steps[i]);
      }
    }
  }

  // ---- file names ----

  predicate SafeChar(c: char) {
    'a' <= c <= 'z' || '0' <= c <= '9' || c == '-' || c == '_'
  }

  /** Lower-casing where it can end in a safe character: ASCII, the Kelvin sign and the dotted capital I. */
  function Lower(c: char): char {
    if 'A' <= c <= 'Z' then c + ' '
    else if c == '\U{212A}' then 'k'
    else if c == '\U{130}' then 'i'
    else c
  }

  function SafeOr(c: char): char {
    if SafeChar(Lower(c)) then Lower(c) else '-'
  }

  function Sanitized(id: string): (name: string) {
    seq(|id|, i requires 0 <= i < |id| => SafeOr(id[i]))
  }

  /** Lines 183-194. */
  method SanitizeId(id: string) returns (name: string)
    ensures name == Sanitized(id)
  {
    name := "";
    for i := 0 to |id|
      invariant name == Sanitized(id)[..i]
    {
      var r := Lower(id[i]);
      if SafeChar(r) {
        name := name + [r];
      } else {
        name := name + ['-'];
      }
    }
  }

  predicate SafeName(name: string) {
    forall i :: 0 <= i < |name| ==> SafeChar(name[i])
  }

  /** Names are safe, and the safe names are exactly the fixed points: sanitizing twice changes nothing. */
  lemma SanitizedIsSafe(id: string)
    ensures SafeName(Sanitized(id)) && |Sanitized(id)| == |id|
    ensures Sanitized(Sanitized(id)) == Sanitized(id)
    ensures SafeName(id) <==> Sanitized(id) == id
  {
    if SafeName(id) {
      forall i | 0 <= i < |id| ensures Sanitized(id)[i] == id[i] {
        assert SafeChar(id[i]);
      }
    } else {
      var i :| 0 <= i < |id| && !SafeChar(id[i]);
      assert Sanitized(id)[i] != id[i];
    }
  }

  function AsciiLower(c: char): char { if 'A' <= c <= 'Z' then c - 'A' + 'a' else c }

  predicate SameButForCase(a: string, b: string) {
    |a| == |b| && forall i :: 0 <= i < |a| ==> AsciiLower(a[i]) == AsciiLower(b[i])
  }

  /** Ids that differ in the case of ASCII letters alone share a file, which has the safe one of them as its name. */
  lemma SanitizedFoldsCase(a: string, b: string)
    requires SameButForCase(a, b)
    ensures Sanitized(a) == Sanitized(b)
    ensures SafeName(b) ==> Sanitized(a) == b
  {
    forall i | 0 <= i < |a| ensures SafeOr(a[i]) == SafeOr(b[i]) {
      assert AsciiLower(a[i]) == AsciiLower(b[i]);
    }
    SanitizedIsSafe(b);
  }

  // ---- edits ----

  /** One agent edit, with the number or direction read from the step of a move. */
  datatype EditOp = EditOp(op: string, index: int, step: Option<Action>, secret: string, descr: string, delta: int, direction: string)

  function Delta(op: EditOp): int {
    if op.delta != 0 then op.delta
    else if op.direction == "up" then -1
    else if op.direction == "down" then 1
    else 0
  }

  function NewStep(op: EditOp): Step
    requires op.step.Some?
  {
    Step(op.step.value, op.secret, None, None, None)
  }

  function EditedSteps(steps: seq<Step>, op: EditOp): seq<Step> {
    var i, j := op.index, op.index + Delta(op);
    if op.op == "append_step" && op.step.Some? then steps + [NewStep(op)]
    else if op.op == "replace_step" && 0 <= i < |steps| && op.step.Some? then steps[i := NewStep(op)]
    else if op.op == "drop_step" && 0 <= i < |steps| then steps[..i] + steps[i + 1..]
    else if op.op == "move_step" && 0 <= i < |steps| && 0 <= j < |steps| then steps[i := steps[j]][j := steps[i]]
    else steps
  }

  function Edited(m: Macro, op: EditOp): Macro {
    m.(steps := EditedSteps(m.steps, op), description := if op.op == "set_description" then op.descr else m.description)
  }

  function EditedAll(m: Macro, ops: seq<EditOp>): Macro {
    if ops == [] then m else Edited(EditedAll(m, ops[..|ops| - 1]), ops[|ops| - 1])
  }

  /** What an agent edit does to a draft: its operations in order, then a description carried by the last one. */
  function AgentEdit(m: Macro, ops: seq<EditOp>): Macro {
    var edited := EditedAll(m, ops);
    if ops != [] && ops[|ops| - 1].descr != "" then edited.(description := ops[|ops| - 1].descr) else edited
  }

  /** An operation that applies to no macro of n steps: unknown, without its step, or out of bounds. */
  predicate BadOp(n: nat, op: EditOp) {
    match op.op
    case "append_step" => op.step.None?
    case "replace_step" => !(0 <= op.index < n) || op.step.None?
    case "drop_step" => !(0 <= op.index < n)
    case "move_step" => !(0 <= op.index < n) || !(0 <= op.index + Delta(op) < n)
    case "set_description" => false
    case _ => true
  }

  lemma BadOpChangesNothing(m: Macro, op: EditOp)
    requires BadOp(|m.steps|, op)
    ensures Edited(m, op) == m
  {}

  lemma EditedLast(m: Macro, ops: seq<EditOp>, op: EditOp)
    ensures EditedAll(m, ops + [op]) == Edited(EditedAll(m, ops), op)
  {
    assert (ops + [op])[..|ops|] == ops;
  }

  /** Such an operation may be left out wherever it stands. */
  lemma {:induction false} SkipBadOp(m: Macro, before: seq<EditOp>, op: EditOp, after: seq<EditOp>)
    requires BadOp(|EditedAll(m, before).steps|, op)
    ensures EditedAll(m, before + [op] + after) == EditedAll(m, before + after)
    decreases |after|
  {
    if after == [] {
      EditedLast(m, before, op);
      BadOpChangesNothing(EditedAll(m, before), op);
      assert before + [op] + after == before + [op] && before + after == before;
    } else {
      var init, last := after[..|after| - 1], after[|after| - 1];
      SkipBadOp(m, before, op, init);
      EditedLast(m, before + [op] + init, last);
      EditedLast(m, before + init, last);
      assert before + [op] + after == before + [op] + init + [last] && before + after == before + init + [last];
    }
  }

  lemma EditedNext(m: Macro, ops: seq<EditOp>, i: nat)
    requires i < |ops|
    ensures EditedAll(m, ops[..i + 1]) == Edited(EditedAll(m, ops[..i]), ops[i])
  {
    assert ops[..i + 1][..i] == ops[..i];
  }

  /** No sequence of agent operations can touch the identity, the site or the approval of a macro. */
  lemma {:induction false} AgentEditKeepsIdentity(m: Macro, ops: seq<EditOp>)
    ensures AgentEdit(m, ops).(steps := m.steps, description := m.description) == m
    ensures EditedAll(m, ops).(steps := m.steps, description := m.description) == m
  {
    if ops != [] {
      AgentEditKeepsIdentity(m, ops[..|ops| - 1]);
    }
  }

  /** The operations from i on leave the description alone. */
  predicate KeepDescription(ops: seq<EditOp>, i: nat) {
    forall j :: i <= j < |ops| ==> ops[j].op != "set_description"
  }

  lemma {:induction false} DescriptionSince(m: Macro, ops: seq<EditOp>, i: nat)
    requires i <= |ops| && KeepDescription(ops, i)
    ensures EditedAll(m, ops).description == EditedAll(m, ops[..i]).description
  {
    if i == |ops| {
      assert ops[..i] == ops;
    } else {
      var init := ops[..|ops| - 1];
      DescriptionSince(m, init, i);
      assert init[..i] == ops[..i];
    }
  }

  /**
   * Which description an agent's edit leaves: the text that the last operation carries, if it
   * carries one; otherwise that of the last set_description, or the old one if there is none.
   */
  lemma DescriptionIsTheLast(m: Macro, ops: seq<EditOp>, i: nat)
    requires i < |ops|
    ensures ops[|ops| - 1].descr != "" ==> AgentEdit(m, ops).description == ops[|ops| - 1].descr
    ensures ops[|ops| - 1].descr == "" && ops[i].op == "set_description" && KeepDescription(ops, i + 1)
            ==> AgentEdit(m, ops).description == ops[i].descr
    ensures ops[|ops| - 1].descr == "" && KeepDescription(ops, 0) ==> AgentEdit(m, ops).description == m.description
  {
    if KeepDescription(ops, i + 1) {
      DescriptionSince(m, ops, i + 1);
      EditedNext(m, ops, i);
    }
    if KeepDescription(ops, 0) {
      DescriptionSince(m, ops, 0);
    }
  }

  /** Appending leaves the steps alone and puts the new one last. */
  lemma AppendAddsLast(steps: seq<Step>, op: EditOp)
    requires op.op == "append_step" && op.step.Some?
    ensures var after := EditedSteps(steps, op);
            |after| == |steps| + 1 && after[..|steps|] == steps && after[|steps|] == Step(op.step.value, op.secret, None, None, None)
  {}

  /** Replacing exchanges the step at the index for one that carries nothing of the old. */
  lemma ReplaceTouchesOne(steps: seq<Step>, op: EditOp, k: nat)
    requires op.op == "replace_step" && 0 <= op.index < |steps| && op.step.Some? && k < |steps|
    ensures |EditedSteps(steps, op)| == |steps|
    ensures EditedSteps(steps, op)[k] == if k == op.index then Step(op.step.value, op.secret, None, None, None) else steps[k]
  {}

  /** Dropping removes the step at the index; those after it move up by one. */
  lemma DropRemovesOne(steps: seq<Step>, op: EditOp, k: nat)
    requires op.op == "drop_step" && 0 <= op.index < |steps| && k < |steps| - 1
    ensures |EditedSteps(steps, op)| == |steps| - 1
    ensures EditedSteps(steps, op)[k] == steps[if k < op.index then k else k + 1]
  {}

  /** Without a number of its own, "up" exchanges a step with the one before it and "down" with the one after it. */
  lemma MoveGoesThatWay(steps: seq<Step>, op: EditOp, to: nat, k: nat)
    requires op.op == "move_step" && 0 <= op.index < |steps| && to < |steps| && k < |steps|
    requires if op.delta != 0 then to == op.index + op.delta
             else (op.direction == "up" && to == op.index - 1) || (op.direction == "down" && to == op.index + 1)
    ensures |EditedSteps(steps, op)| == |steps|
    ensures EditedSteps(steps, op)[k] == steps[if k == op.index then to else if k == to then op.index else k]
  {}

  /** A move only reorders, and the opposite move from the other end undoes it. */
  lemma MoveIsUndone(steps: seq<Step>, op: EditOp, back: EditOp)
    requires op.op == "move_step" && 0 <= op.index < |steps| && 0 <= op.index + Delta(op) < |steps|
    requires back.op == "move_step" && back.index == op.index + Delta(op) && Delta(back) == -Delta(op)
    ensures multiset(EditedSteps(steps, op)) == multiset(steps)
    ensures EditedSteps(EditedSteps(steps, op), back) == steps
  {
    var i, j := op.index, op.index + Delta(op);
    assert EditedSteps(steps, op) == steps[i := steps[j]][j := steps[i]];
    if i == j {
      assert EditedSteps(steps, op) == steps;
    }
  }

  /** Dropping what an append added restores the steps. */
  lemma AppendIsUndone(steps: seq<Step>, op: EditOp, back: EditOp)
    requires op.op == "append_step" && op.step.Some?
    requires back.op == "drop_step" && back.index == |steps|
    ensures EditedSteps(EditedSteps(steps, op), back) == steps
  {
    assert EditedSteps(steps, op)[..|steps|] == steps;
  }

  /** A macro under edit, updated in place (internal/server/macro.go, lines 366-373 and 391-425). */
  class Draft {
    var macro: Macro

    constructor (m: Macro)
      ensures macro == m
    {
      macro := m;
    }

    method ApplyEditOp(op: EditOp)
      modifies this
      ensures macro == Edited(old(macro), op)
    {
      var steps := macro.steps;
      match op.op {
        case "append_step" =>
          if op.step.None? {
            return;
          }
          macro := macro.(steps := steps + [Step(op.step.value, op.secret, None, None, None)]);
        case "replace_step" =>
          if op.index < 0 || op.index >= |steps| || op.step.None? {
            return;
          }
          macro := macro.(steps := steps[op.index := Step(op.step.value, op.secret, None, None, None)]);
        case "drop_step" =>
          if op.index < 0 || op.index >= |steps| {
            return;
          }
          macro := macro.(steps := steps[..op.index] + steps[op.index + 1..]);
        case "move_step" =>
          var j := op.index + Delta(op);
          if op.index < 0 || op.index >= |steps| || j < 0 || j >= |steps| {
            return;
          }
          macro := macro.(steps := steps[op.index := steps[j]][j := steps[op.index]]);
        case "set_description" =>
          macro := macro.(description := op.descr);
        case _ =>
      }
    }

    method Mutate(ops: seq<EditOp>)
      requires ops != []
      modifies this
      ensures macro == AgentEdit(old(macro), ops)
    {
      for i := 0 to |ops|
        invariant macro == EditedAll(old(macro), ops[..i])
      {
        EditedNext(old(macro), ops, i);
        ApplyEditOp(ops[i]);
      }
      assert ops[..|ops|] == ops;
      if ops[|ops| - 1].descr != "" {
        macro := macro.(description := ops[|ops| - 1].descr);
      }
    }
  }
}
