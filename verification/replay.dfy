/** Replaying a macro step by step (internal/macro/replay.go). */
module Replay {
  import opened Common
  import opened Macros

  /** What the executor is asked to do. */
  datatype Exec =
    | Act(action: Action)
    | TypeText(action: Action, value: string)
    | ClickAny(candidates: seq<string>)
    | ProbeFields(selectors: seq<string>)

  type Trace = seq<Exec>

  /**
   * Everything a replay depends on besides the macro. exec answers for the last action of
   * a trace, given all that was executed before it; minText is the replayer's least length of
   * a text to search for.
   */
  datatype Env = Env(
    testReplay: bool,
    session: bool,
    exec: Trace -> bool,
    resolver: Option<(Trace, string) -> Option<string>>,
    pauser: Option<(Trace, nat, int) -> bool>,
    defaultPause: int,
    minText: int)

  datatype Cause =
    | NoPauseMeta | NoPauser | NotResumed | BadResumeAssert | Undecodable | UnknownKind
    | NoSecretRef | NoResolver | ResolveFailed | NoFillSelector | NoCandidates | ExecFailed

  datatype Ending = Completed | Unapproved | InvalidMacro | Aborted(step: nat, kind: string, cause: Cause)

  const FIVE_MINUTES := 5 * 60 * 1_000_000_000
  const PLAIN_KINDS := {"navigate", "wait", "assert", "screenshot", "content", "download"}

  /** The action decodes into one of the known action types. */
  predicate Decodes(a: Action) {
    a.Object? && a.typed && a.kind in PLAIN_KINDS + {"click", "type", "autofill"}
  }

  function Kind(s: Step): string { if s.action.Object? then s.action.kind else "" }

  function PauseTimeout(p: Pause, default: int): int {
    if p.timeout > 0 then p.timeout else if default > 0 then default else FIVE_MINUTES
  }

  /** A wait for the human always ends: the step's own timeout counts, then the replayer's, then five minutes. */
  lemma PauseEnds(p: Pause, default: int)
    ensures PauseTimeout(p, default) > 0
    ensures PauseTimeout(p, default) == p.timeout <==> p.timeout > 0
    ensures p.timeout <= 0 ==> PauseTimeout(p, default) == if default > 0 then default else 300_000_000_000
  {}

  function Escaped(text: string): string {
    if text == "" then "" else (if text[0] == '\'' then "\\'" else [text[0]]) + Escaped(text[1..])
  }

  function Unescaped(s: string): string {
    if s == "" then ""
    else if |s| > 1 && s[0] == '\\' && s[1] == '\'' then ['\''] + Unescaped(s[2..])
    else [s[0]] + Unescaped(s[1..])
  }

  lemma EscapeOne(text: string)
    requires text != "" && Unescaped(Escaped(text[1..])) == text[1..]
    requires Escaped(text[1..]) != "" ==> Escaped(text[1..])[0] != '\''
    ensures Unescaped(Escaped(text)) == text
  {
    var rest := Escaped(text[1..]);
    if text[0] == '\'' {
      assert ("\\'" + rest)[2..] == rest;
    } else {
      assert ([text[0]] + rest)[1..] == rest;
    }
  }

  /** Escaping puts a backslash before every quote and does nothing else, so it can be undone. */
  lemma {:induction false} EscapedIsReversible(text: string)
    ensures Unescaped(Escaped(text)) == text
    ensures forall i :: 0 <= i < |Escaped(text)| && Escaped(text)[i] == '\'' ==> i > 0 && Escaped(text)[i - 1] == '\\'
  {
    if text != "" {
      EscapedIsReversible(text[1..]);
      EscapeOne(text);
    }
  }

  /** The second tier of the ladder: probes for the recorded text by role (lines 326-349). */
  function TextXPaths(e: Element, minText: int): (xs: seq<string>)
    ensures xs != [] <==> ByteLen(Trimmed(e.text)) >= minText
  {
    var text := Escaped(Trimmed(e.text));
    var tail := "[contains(normalize-space(.), '" + text + "')]";
    if ByteLen(Trimmed(e.text)) < minText then []
    else if e.role == "button" then ["//button" + tail]
    else if e.role == "link" then ["//a" + tail]
    else if e.role == "textbox" || e.role == "password" then
      ["//input[contains(@aria-label,'" + text + "')]", "//input[@placeholder='" + text + "']"]
    else if e.role == "combobox" then ["//select" + tail]
    else ["//*" + tail]
  }

  function Candidates(env: Env, s: Step): seq<string> {
    if s.recorded.Some? && s.recorded.value.element.Some? then
      var e := s.recorded.value.element.value;
      e.candidates + TextXPaths(e, env.minText)
    else []
  }

  function Resolved(env: Env, before: Trace, s: Step): Option<string> {
    if s.secret == "" || env.resolver.None? then None else env.resolver.value(before, s.secret)
  }

  // ---- what one step owes ----

  /** The one action a step asks for itself, if it gets that far. */
  function Own(env: Env, before: Trace, i: nat, s: Step): Option<Exec> {
    var kind := Kind(s);
    if kind == "pause" then
      if s.pause.Some? && env.pauser.Some? && env.pauser.value(before, i, PauseTimeout(s.pause.value, env.defaultPause))
         && s.resumeAssert.Some? && Decodes(s.resumeAssert.value) then Some(Act(s.resumeAssert.value)) else None
    else if kind == "type" then
      if s.action.typed && Resolved(env, before, s).Some? then Some(TypeText(s.action, Resolved(env, before, s).value)) else None
    else if kind == "click" then
      if Candidates(env, s) != [] then Some(ClickAny(Candidates(env, s))) else None
    else if kind == "autofill" then
      if s.action.typed && s.action.selector != "" then Some(Act(s.action)) else None
    else if kind in PLAIN_KINDS && s.action.typed then Some(Act(s.action))
    else None
  }

  function OwnTrace(env: Env, before: Trace, i: nat, s: Step): Trace {
    var own := Own(env, before, i, s);
    before + if own.Some? then [own.value] else []
  }

  /** The step's own requirement fails before anything is executed for it. */
  function Unmet(env: Env, before: Trace, i: nat, s: Step): Option<Cause> {
    var kind := Kind(s);
    if kind == "pause" then
      if s.pause.None? then Some(NoPauseMeta)
      else if env.pauser.None? then Some(NoPauser)
      else if !env.pauser.value(before, i, PauseTimeout(s.pause.value, env.defaultPause)) then Some(NotResumed)
      else if s.resumeAssert.Some? && !Decodes(s.resumeAssert.value) then Some(BadResumeAssert)
      else None
    else if kind == "type" then
      if !s.action.typed then Some(Undecodable)
      else if s.secret == "" then Some(NoSecretRef)
      else if env.resolver.None? then Some(NoResolver)
      else if Resolved(env, before, s).None? then Some(ResolveFailed)
      else None
    else if kind == "click" then if Candidates(env, s) == [] then Some(NoCandidates) else None
    else if kind == "autofill" then
      if !s.action.typed then Some(Undecodable) else if s.action.selector == "" then Some(NoFillSelector) else None
    else if kind in PLAIN_KINDS then if !s.action.typed then Some(Undecodable) else None
    else Some(UnknownKind)
  }

  /** Why the step fails, if it does. */
  function Failure(env: Env, before: Trace, i: nat, s: Step): Option<Cause> {
    var unmet := Unmet(env, before, i, s);
    if unmet.Some? then unmet
    else if Own(env, before, i, s).Some? && !env.exec(OwnTrace(env, before, i, s)) then Some(ExecFailed)
    else None
  }

  /** The selectors of the step, as the failure dump probes them. */
  function ProbeSelectors(s: Step): seq<string> {
    (if s.action.Object? then (if s.action.selector != "" then [s.action.selector] else []) + s.action.selectors else [])
    + (if s.recorded.Some? && s.recorded.value.element.Some? then s.recorded.value.element.value.candidates else [])
  }

  /** Pause and type failures are reported without a dump; the others probe the page once. */
  function Probe(env: Env, s: Step): Trace {
    if env.session && Kind(s) != "pause" && Kind(s) != "type" && ProbeSelectors(s) != [] then [ProbeFields(ProbeSelectors(s))] else []
  }

  // ---- what a replay owes ----

  /** The trace once the first k steps have run. */
  function Performed(env: Env, steps: seq<Step>, start: Trace, k: nat): Trace
    requires k <= |steps|
  {
    if k == 0 then start else
      var before := Performed(env, steps, start, k - 1);
      OwnTrace(env, before, k - 1, steps[k - 1])
  }

  function FailureAt(env: Env, steps: seq<Step>, start: Trace, k: nat): Option<Cause>
    requires k < |steps|
  {
    Failure(env, Performed(env, steps, start, k), k, steps[k])
  }

  predicate AllPass(env: Env, steps: seq<Step>, start: Trace, k: nat)
    requires k <= |steps|
  {
    forall j :: 0 <= j < k ==> FailureAt(env, steps, start, j).None?
  }

  lemma PassAnother(env: Env, steps: seq<Step>, start: Trace, k: nat)
    requires k < |steps| && AllPass(env, steps, start, k) && FailureAt(env, steps, start, k).None?
    ensures AllPass(env, steps, start, k + 1)
  {}

  /** How a replay of m may end, and what it may have executed by then. */
  predicate Replayed(env: Env, m: Macro, start: Trace, trace: Trace, ending: Ending) {
    if m.approved.None? && !env.testReplay then ending == Unapproved && trace == start
    else if !Valid(m, true) then ending == InvalidMacro && trace == start
    else match ending
      case Completed => AllPass(env, m.steps, start, |m.steps|) && trace == Performed(env, m.steps, start, |m.steps|)
      case Aborted(k, kind, cause) =>
        && k < |m.steps| && kind == Kind(m.steps[k])
        && AllPass(env, m.steps, start, k)
        && FailureAt(env, m.steps, start, k) == Some(cause)
        && trace == Performed(env, m.steps, start, k + 1) + Probe(env, m.steps[k])
      case _ => false
  }

  // ---- the replayer ----

  class Session {
    var trace: Trace

    constructor ()
      ensures trace == []
    {
      trace := [];
    }

    method Run(env: Env, x: Exec) returns (ok: bool)
      modifies this
      ensures trace == old(trace) + [x] && ok == env.exec(trace)
    {
      trace := trace + [x];
      ok := env.exec(trace);
    }
  }

  /** Lines 148-181: at most one probe, whose failure is recorded and not fatal. */
  method DumpPage(env: Env, sess: Session, s: Step)
    modifies sess
    ensures sess.trace == old(sess.trace) +
              if env.session && ProbeSelectors(s) != [] then [ProbeFields(ProbeSelectors(s))] else []
  {
    if !env.session {
      return;
    }
    var sels: seq<string> := [];
    if s.action.Object? && s.action.selector != "" {
      sels := sels + [s.action.selector];
    }
    if s.action.Object? {
      sels := sels + s.action.selectors;
    }
    if s.recorded.Some? && s.recorded.value.element.Some? {
      sels := sels + s.recorded.value.element.value.candidates;
    }
    assert sels == ProbeSelectors(s);
    if |sels| > 0 {
      var _ := sess.Run(env, ProbeFields(sels));
    }
  }

  /** Lines 226-255. */
  method RunPause(env: Env, sess: Session, i: nat, s: Step) returns (cause: Option<Cause>)
    requires Kind(s) == "pause"
    modifies sess
    ensures cause == Failure(env, old(sess.trace), i, s)
    ensures sess.trace == OwnTrace(env, old(sess.trace), i, s)
  {
    if s.pause.None? {
      return Some(NoPauseMeta);
    }
    var timeout := s.pause.value.timeout;
    if timeout <= 0 {
      timeout := env.defaultPause;
    }
    if timeout <= 0 {
      timeout := FIVE_MINUTES;
    }
    if env.pauser.None? {
      return Some(NoPauser);
    }
    if !env.pauser.value(sess.trace, i, timeout) {
      return Some(NotResumed);
    }
    if s.resumeAssert.Some? {
      var action := s.resumeAssert.value;
      if !Decodes(action) {
        return Some(BadResumeAssert);
      }
      var ok := sess.Run(env, Act(action));
      if !ok {
        return Some(ExecFailed);
      }
    }
    cause := None;
  }

  /** Lines 259-279. */
  method RunType(env: Env, sess: Session, i: nat, s: Step) returns (cause: Option<Cause>)
    requires Kind(s) == "type"
    modifies sess
    ensures cause == Failure(env, old(sess.trace), i, s)
    ensures sess.trace == OwnTrace(env, old(sess.trace), i, s)
  {
    if !s.action.typed {
      return Some(Undecodable);
    }
    if s.secret == "" {
      return Some(NoSecretRef);
    }
    if env.resolver.None? {
      return Some(NoResolver);
    }
    var value := env.resolver.value(sess.trace, s.secret);
    if value.None? {
      return Some(ResolveFailed);
    }
    var ok := sess.Run(env, TypeText(s.action, value.value));
    cause := if ok then None else Some(ExecFailed);
  }

  /** Lines 303-322. */
  method RunClick(env: Env, sess: Session, i: nat, s: Step) returns (cause: Option<Cause>)
    requires Kind(s) == "click"
    modifies sess
    ensures cause == Failure(env, old(sess.trace), i, s)
    ensures sess.trace == OwnTrace(env, old(sess.trace), i, s) + if cause.Some? then Probe(env, s) else []
  {
    var candidates: seq<string> := [];
    if s.recorded.Some? && s.recorded.value.element.Some? {
      candidates := candidates + s.recorded.value.element.value.candidates;
      candidates := candidates + TextXPaths(s.recorded.value.element.value, env.minText);
    }
    assert candidates == Candidates(env, s);
    if |candidates| == 0 {
      DumpPage(env, sess, s);
      return Some(NoCandidates);
    }
    var ok := sess.Run(env, ClickAny(candidates));
    if !ok {
      DumpPage(env, sess, s);
      return Some(ExecFailed);
    }
    cause := None;
  }

  /** Lines 286-298. */
  method RunAutofill(env: Env, sess: Session, i: nat, s: Step) returns (cause: Option<Cause>)
    requires Kind(s) == "autofill"
    modifies sess
    ensures cause == Failure(env, old(sess.trace), i, s)
    ensures sess.trace == OwnTrace(env, old(sess.trace), i, s) + if cause.Some? then Probe(env, s) else []
  {
    if !s.action.typed {
      DumpPage(env, sess, s);
      return Some(Undecodable);
    }
    if s.action.selector == "" {
      DumpPage(env, sess, s);
      return Some(NoFillSelector);
    }
    var ok := sess.Run(env, Act(s.action));
    if !ok {
      DumpPage(env, sess, s);
      return Some(ExecFailed);
    }
    cause := None;
  }

  /** Lines 130-138. */
  method RunPlain(env: Env, sess: Session, i: nat, s: Step) returns (cause: Option<Cause>)
    requires Kind(s) in PLAIN_KINDS
    modifies sess
    ensures cause == Failure(env, old(sess.trace), i, s)
    ensures sess.trace == OwnTrace(env, old(sess.trace), i, s) + if cause.Some? then Probe(env, s) else []
  {
    if !Decodes(s.action) {
      DumpPage(env, sess, s);
      return Some(Undecodable);
    }
    var ok := sess.Run(env, Act(s.action));
    if !ok {
      DumpPage(env, sess, s);
      return Some(ExecFailed);
    }
    cause := None;
  }

  /** Lines 114-142. */
  method RunStep(env: Env, sess: Session, i: nat, s: Step) returns (cause: Option<Cause>)
    modifies sess
    ensures cause == Failure(env, old(sess.trace), i, s)
    ensures sess.trace == OwnTrace(env, old(sess.trace), i, s) + if cause.Some? then Probe(env, s) else []
  {
    var kind := Kind(s);
    if kind == "pause" {
      cause := RunPause(env, sess, i, s);
    } else if kind == "type" {
      cause := RunType(env, sess, i, s);
    } else if kind == "click" {
      cause := RunClick(env, sess, i, s);
    } else if kind == "autofill" {
      cause := RunAutofill(env, sess, i, s);
    } else if kind in PLAIN_KINDS {
      cause := RunPlain(env, sess, i, s);
    } else {
      DumpPage(env, sess, s);
      cause := Some(UnknownKind);
    }
  }

  /** Lines 87-104. */
  method Run(env: Env, sess: Session, m: Macro) returns (ending: Ending)
    modifies sess
    ensures Replayed(env, m, old(sess.trace), sess.trace, ending)
  {
    if m.approved.None? && !env.testReplay {
      return Unapproved;
    }
    var fault := Validate(m, true);
    if fault.Some? {
      return InvalidMacro;
    }
    ghost var start := sess.trace;
    for i := 0 to |m.steps|
      invariant sess.trace == Performed(env, m.steps, start, i)
      invariant AllPass(env, m.steps, start, i)
    {
      var cause := RunStep(env, sess, i, m.steps[i]);
      if cause.Some? {
        return Aborted(i, Kind(m.steps[i]), cause.value);
      }
      PassAnother(env, m.steps, start, i);
    }
    ending := Completed;
  }

  // ---- what a replay can have done ----

  ghost predicate Mentions(x: string, part: string) {
    exists before, after :: x == before + part + after
  }

  /** The selectors tried for a recorded element: its own first, in order, then probes for its text if that is long enough. */
  ghost predicate Ladder(e: Element, minText: int, selectors: seq<string>) {
    && e.candidates <= selectors
    && (|selectors| > |e.candidates| <==> ByteLen(Trimmed(e.text)) >= minText)
    && forall i :: |e.candidates| <= i < |selectors| ==> Mentions(selectors[i], Escaped(Trimmed(e.text)))
  }

  lemma TagMentions(tag: string, text: string)
    ensures Mentions(tag + ("[contains(normalize-space(.), '" + text + "')]"), text)
  {
    var head := tag + "[contains(normalize-space(.), '";
    assert tag + ("[contains(normalize-space(.), '" + text + "')]") == head + text + "')]";
  }

  lemma TextXPathsMention(e: Element, minText: int)
    ensures forall x :: x in TextXPaths(e, minText) ==> Mentions(x, Escaped(Trimmed(e.text)))
  {
    var text := Escaped(Trimmed(e.text));
    TagMentions("//button", text);
    TagMentions("//a", text);
    TagMentions("//select", text);
    TagMentions("//*", text);
    assert Mentions("//input[contains(@aria-label,'" + text + "')]", text);
    assert Mentions("//input[@placeholder='" + text + "']", text);
  }

  lemma CandidatesAreTheLadder(env: Env, s: Step)
    requires Candidates(env, s) != []
    ensures s.recorded.Some? && s.recorded.value.element.Some?
    ensures Ladder(s.recorded.value.element.value, env.minText, Candidates(env, s))
  {
    TextXPathsMention(s.recorded.value.element.value, env.minText);
  }

  /** The action is the step's own, whatever the page, the secrets and the human answered. */
  ghost predicate FromStep(env: Env, s: Step, x: Exec) {
    match x
    case Act(a) => (Kind(s) == "pause" && s.resumeAssert == Some(a)) || (Kind(s) in PLAIN_KINDS + {"autofill"} && s.action == a)
    case TypeText(a, _) => Kind(s) == "type" && s.action == a && s.secret != ""
    case ClickAny(c) =>
      && Kind(s) == "click" && s.recorded.Some? && s.recorded.value.element.Some?
      && Ladder(s.recorded.value.element.value, env.minText, c)
    case ProbeFields(_) => false
  }

  /** A typed value is what the resolver gave for the step's own reference. */
  predicate SecretOf(env: Env, before: Trace, s: Step, x: Exec) {
    x.TypeText? ==> env.resolver.Some? && env.resolver.value(before, s.secret) == Some(x.value)
  }

  /**
   * owners names, for each action executed since start, the step it came from: one step after
   * another in recorded order, none of them twice, all before step k.
   */
  ghost predicate Attributed(env: Env, steps: seq<Step>, start: Trace, trace: Trace, owners: seq<nat>, k: nat)
    requires k <= |steps|
  {
    && |trace| == |start| + |owners|
    && trace[..|start|] == start
    && (forall q :: 0 <= q < |owners| ==> owners[q] < k)
    && (forall p, q :: 0 <= p < q < |owners| ==> owners[p] < owners[q])
    && (forall q :: 0 <= q < |owners| ==>
          var x := trace[|start| + q];
          FromStep(env, steps[owners[q]], x) && SecretOf(env, trace[..|start| + q], steps[owners[q]], x))
  }

  lemma OwnIsFromStep(env: Env, before: Trace, i: nat, s: Step)
    ensures var own := Own(env, before, i, s);
            own.Some? ==> FromStep(env, s, own.value) && SecretOf(env, before, s, own.value)
  {
    if Candidates(env, s) != [] {
      CandidatesAreTheLadder(env, s);
    }
  }

  lemma AttributeAnother(env: Env, steps: seq<Step>, start: Trace, trace: Trace, owners: seq<nat>, k: nat, x: Exec)
    requires k < |steps| && Attributed(env, steps, start, trace, owners, k)
    requires FromStep(env, steps[k], x) && SecretOf(env, trace, steps[k], x)
    ensures Attributed(env, steps, start, trace + [x], owners + [k], k + 1)
  {
    var longer, more := trace + [x], owners + [k];
    assert longer[..|start|] == start;
    forall q | 0 <= q < |more|
      ensures FromStep(env, steps[more[q]], longer[|start| + q])
      ensures SecretOf(env, longer[..|start| + q], steps[more[q]], longer[|start| + q])
    {
      assert longer[..|start| + q] == trace[..|start| + q];
      assert trace[..|trace|] == trace;
    }
  }

  /** A step that passes has executed something: only a pause without an assertion has not. */
  predicate Acts(s: Step) { Kind(s) != "pause" || s.resumeAssert.Some? }

  /** A step executes its action exactly when it passes and has one, or when that action is what fails. */
  lemma OwnExactly(env: Env, before: Trace, i: nat, s: Step)
    ensures var own, failure := Own(env, before, i, s), Failure(env, before, i, s);
            && (own.Some? <==> (failure.None? && Acts(s)) || failure == Some(ExecFailed))
            && (own.Some? ==> (failure.None? <==> env.exec(before + [own.value])))
  {}

  predicate Passed(env: Env, steps: seq<Step>, start: Trace, i: nat)
    requires i < |steps|
  {
    FailureAt(env, steps, start, i).None?
  }

  /** Step i executes an action: it passes and has one, or that action is what fails. */
  predicate Executes(env: Env, steps: seq<Step>, start: Trace, i: nat)
    requires i < |steps|
  {
    (Passed(env, steps, start, i) && Acts(steps[i])) || FailureAt(env, steps, start, i) == Some(ExecFailed)
  }

  /** Nothing is left out before step k: exactly the steps that execute an action own one. */
  ghost predicate Complete(env: Env, steps: seq<Step>, start: Trace, owners: seq<nat>, k: nat)
    requires k <= |steps|
  {
    forall i :: 0 <= i < k ==> (i in owners <==> Executes(env, steps, start, i))
  }

  /** Exactly the actions of passing steps succeeded. */
  ghost predicate Judged(env: Env, steps: seq<Step>, start: Trace, trace: Trace, owners: seq<nat>)
    requires |trace| == |start| + |owners|
  {
    forall q :: 0 <= q < |owners| ==>
      owners[q] < |steps| && (Passed(env, steps, start, owners[q]) <==> env.exec(trace[..|start| + q + 1]))
  }

  lemma CompleteAnother(env: Env, steps: seq<Step>, start: Trace, owners: seq<nat>, k: nat)
    requires k < |steps| && Complete(env, steps, start, owners, k) && Executes(env, steps, start, k)
    ensures Complete(env, steps, start, owners + [k], k + 1)
  {
    var more := owners + [k];
    assert more[|owners|] == k;
    forall i | 0 <= i < k + 1 ensures i in more <==> Executes(env, steps, start, i) {
      assert i in more <==> i in owners || i == k;
    }
  }

  lemma JudgedAnother(env: Env, steps: seq<Step>, start: Trace, trace: Trace, owners: seq<nat>, k: nat, x: Exec)
    requires k < |steps| && |trace| == |start| + |owners| && Judged(env, steps, start, trace, owners)
    requires Passed(env, steps, start, k) <==> env.exec(trace + [x])
    ensures Judged(env, steps, start, trace + [x], owners + [k])
  {
    var longer, more := trace + [x], owners + [k];
    forall q | 0 <= q < |more|
      ensures more[q] < |steps| && (Passed(env, steps, start, more[q]) <==> env.exec(longer[..|start| + q + 1]))
    {
      if q < |owners| {
        assert longer[..|start| + q + 1] == trace[..|start| + q + 1];
      } else {
        assert longer[..|start| + q + 1] == longer;
      }
    }
  }

  /** One more step: its action, if it executes one, is attributed to it. */
  lemma AttributeStep(env: Env, steps: seq<Step>, start: Trace, before: Trace, owners: seq<nat>, k: nat) returns (more: seq<nat>)
    requires k < |steps| && before == Performed(env, steps, start, k)
    requires Attributed(env, steps, start, before, owners, k)
    requires Complete(env, steps, start, owners, k) && Judged(env, steps, start, before, owners)
    ensures Attributed(env, steps, start, OwnTrace(env, before, k, steps[k]), more, k + 1)
    ensures Complete(env, steps, start, more, k + 1)
    ensures Judged(env, steps, start, OwnTrace(env, before, k, steps[k]), more)
  {
    var own := Own(env, before, k, steps[k]);
    OwnExactly(env, before, k, steps[k]);
    assert own.Some? <==> Executes(env, steps, start, k);
    if own.Some? {
      OwnIsFromStep(env, before, k, steps[k]);
      AttributeAnother(env, steps, start, before, owners, k, own.value);
      CompleteAnother(env, steps, start, owners, k);
      JudgedAnother(env, steps, start, before, owners, k, own.value);
      more := owners + [k];
    } else {
      assert OwnTrace(env, before, k, steps[k]) == before;
      more := owners;
    }
  }

  lemma {:induction false} PerformedIsAttributed(env: Env, steps: seq<Step>, start: Trace, k: nat) returns (owners: seq<nat>)
    requires k <= |steps|
    ensures Attributed(env, steps, start, Performed(env, steps, start, k), owners, k)
    ensures Complete(env, steps, start, owners, k) && Judged(env, steps, start, Performed(env, steps, start, k), owners)
  {
    if k == 0 {
      owners := [];
    } else {
      var before := Performed(env, steps, start, k - 1);
      owners := PerformedIsAttributed(env, steps, start, k - 1);
      owners := AttributeStep(env, steps, start, before, owners, k - 1);
    }
  }

  /** How many steps were entered: all of them, or up to and including the reported one. */
  function Entered(m: Macro, ending: Ending): nat
    requires ending.Aborted? ==> ending.step < |m.steps|
  {
    match ending
    case Completed => |m.steps|
    case Aborted(k, _, _) => k + 1
    case _ => 0
  }

  /** With a session the failure of any other step than a pause or a type step is followed by a probe, if there is anything to probe. */
  predicate ProbeIsDue(env: Env, s: Step) {
    env.session && Kind(s) !in {"pause", "type"} && exists x :: x in ProbeSelectors(s)
  }

  /** The probe asks for every selector the step has, and for nothing else. */
  lemma ProbesEverySelector(s: Step, x: string)
    ensures x in ProbeSelectors(s)
            <==> || (s.action.Object? && s.action.selector == x && x != "")
                 || (s.action.Object? && x in s.action.selectors)
                 || (s.recorded.Some? && s.recorded.value.element.Some? && x in s.recorded.value.element.value.candidates)
  {}

  /** The steps that passed: all of them, or those before the reported one. */
  function Before(m: Macro, ending: Ending): nat
    requires ending.Aborted? ==> ending.step < |m.steps|
  {
    match ending
    case Completed => |m.steps|
    case Aborted(k, _, _) => k
    case _ => 0
  }

  /**
   * The actions in body are own actions of the first `entered` steps, in order; each of the
   * first `passed` steps owns one, unless it is a pause without an assertion, and exactly
   * their actions succeeded.
   */
  ghost predicate Recounted(env: Env, steps: seq<Step>, start: Trace, body: Trace, owners: seq<nat>, entered: nat, passed: nat)
    requires passed <= entered <= |steps|
  {
    && Attributed(env, steps, start, body, owners, entered)
    && (forall i :: 0 <= i < passed ==> (i in owners <==> Acts(steps[i])))
    && (forall q :: 0 <= q < |owners| ==> (owners[q] < passed <==> env.exec(body[..|start| + q + 1])))
  }

  lemma CutOff(trace: Trace, probe: Trace)
    ensures (trace + probe)[..|trace + probe| - |probe|] == trace && (trace + probe)[|trace|..] == probe
    ensures trace[..|trace|] == trace
  {}

  lemma ProbeAfter(env: Env, s: Step) returns (probe: Trace)
    ensures probe == Probe(env, s) == if ProbeIsDue(env, s) then [ProbeFields(ProbeSelectors(s))] else []
  {
    probe := Probe(env, s);
    if ProbeSelectors(s) != [] {
      assert ProbeSelectors(s)[0] in ProbeSelectors(s);
    }
  }

  /** Steps 0 to k - 1 passed and, unless k is the number of steps entered, step k did not. */
  lemma Recount(env: Env, steps: seq<Step>, start: Trace, entered: nat, passed: nat) returns (owners: seq<nat>)
    requires passed <= entered <= |steps| && entered <= passed + 1
    requires AllPass(env, steps, start, passed) && (passed < entered ==> FailureAt(env, steps, start, passed).Some?)
    ensures Recounted(env, steps, start, Performed(env, steps, start, entered), owners, entered, passed)
    ensures passed < entered ==> (passed in owners <==> FailureAt(env, steps, start, passed) == Some(ExecFailed))
  {
    owners := PerformedIsAttributed(env, steps, start, entered);
    forall i | 0 <= i < passed ensures i in owners <==> Acts(steps[i]) {
      assert FailureAt(env, steps, start, i).None?;
      assert Executes(env, steps, start, i) <==> Acts(steps[i]);
    }
    var body := Performed(env, steps, start, entered);
    forall q | 0 <= q < |owners| ensures owners[q] < passed <==> env.exec(body[..|start| + q + 1]) {
      assert owners[q] < passed <==> Passed(env, steps, start, owners[q]);
    }
    assert passed < entered ==> (Executes(env, steps, start, passed) <==> FailureAt(env, steps, start, passed) == Some(ExecFailed));
  }

  /**
   * A replay executes the recording and nothing else, in order: every step that passed has
   * executed exactly one action of its own, which succeeded, except that a pause without an
   * assertion has none; the reported step has executed one exactly when that is what failed;
   * and after an abort one probe of the reported step's own selectors follows, if it is due.
   */
  lemma ReplayIsAPrefix(env: Env, m: Macro, start: Trace, trace: Trace, ending: Ending) returns (owners: seq<nat>, probe: Trace)
    requires Replayed(env, m, start, trace, ending)
    ensures ending.Aborted? ==> ending.step < |m.steps|
    ensures |probe| <= |trace| && trace[|trace| - |probe|..] == probe
    ensures Recounted(env, m.steps, start, trace[..|trace| - |probe|], owners, Entered(m, ending), Before(m, ending))
    ensures ending.Aborted? ==> (ending.step in owners <==> ending.cause == ExecFailed)
    ensures probe == if ending.Aborted? && ProbeIsDue(env, m.steps[ending.step]) then [ProbeFields(ProbeSelectors(m.steps[ending.step]))] else []
  {
    probe := [];
    match ending {
      case Completed =>
        owners := Recount(env, m.steps, start, |m.steps|, |m.steps|);
      case Aborted(k, _, _) =>
        owners := Recount(env, m.steps, start, k + 1, k);
        probe := ProbeAfter(env, m.steps[k]);
        CutOff(Performed(env, m.steps, start, k + 1), probe);
      case _ => owners := [];
    }
    CutOff(trace, []);
  }

  predicate Started(ending: Ending) { ending.Completed? || ending.Aborted? }

  /** The reported step is the first that fails, and completion means none does. */
  lemma ReportedStepIsTheFirst(env: Env, m: Macro, start: Trace, trace: Trace, ending: Ending, k: nat)
    requires Replayed(env, m, start, trace, ending) && Started(ending) && k < |m.steps|
    ensures ending.Aborted? && ending.step == k <==> FailureAt(env, m.steps, start, k).Some? && AllPass(env, m.steps, start, k)
  {}

  /** The reported cause names what the step, the configuration or the outside really lacks. */
  predicate Blames(env: Env, before: Trace, i: nat, s: Step, cause: Cause) {
    var kind := Kind(s);
    match cause
    case NoPauseMeta => kind == "pause" && s.pause.None?
    case NoPauser => kind == "pause" && s.pause.Some? && env.pauser.None?
    case NotResumed =>
      kind == "pause" && s.pause.Some? && env.pauser.Some? && !env.pauser.value(before, i, PauseTimeout(s.pause.value, env.defaultPause))
    case BadResumeAssert => kind == "pause" && s.resumeAssert.Some? && !Decodes(s.resumeAssert.value)
    case Undecodable => kind in PLAIN_KINDS + {"type", "autofill"} && !s.action.typed
    case UnknownKind => kind !in PLAIN_KINDS + {"pause", "type", "click", "autofill"}
    case NoSecretRef => kind == "type" && s.secret == ""
    case NoResolver => kind == "type" && s.secret != "" && env.resolver.None?
    case ResolveFailed => kind == "type" && s.secret != "" && env.resolver.Some? && env.resolver.value(before, s.secret).None?
    case NoFillSelector => kind == "autofill" && s.action.selector == ""
    case NoCandidates =>
      kind == "click" && (s.recorded.Some? && s.recorded.value.element.Some? ==>
        var e := s.recorded.value.element.value; e.candidates == [] && ByteLen(Trimmed(e.text)) < env.minText)
    case ExecFailed => Acts(s) && kind in PLAIN_KINDS + {"pause", "type", "click", "autofill"}
  }

  /** Blames holds of the cause of every abort, at the point of the trace that step was entered. */
  lemma CauseIsTrue(env: Env, m: Macro, start: Trace, trace: Trace, ending: Ending)
    requires Replayed(env, m, start, trace, ending) && ending.Aborted?
    ensures ending.step < |m.steps| && ending.kind == Kind(m.steps[ending.step])
    ensures Blames(env, Performed(env, m.steps, start, ending.step), ending.step, m.steps[ending.step], ending.cause)
  {
    OwnExactly(env, Performed(env, m.steps, start, ending.step), ending.step, m.steps[ending.step]);
  }

  /** Nothing is executed unless the macro is approved or test-replayed, and strictly valid. */
  lemma RefusedRunsExecuteNothing(env: Env, m: Macro, start: Trace, trace: Trace, ending: Ending)
    requires Replayed(env, m, start, trace, ending)
    ensures Started(ending) <==> (m.approved.Some? || env.testReplay) && Valid(m, true)
    ensures !Started(ending) ==> trace == start
  {}

  // ---- what validation buys ----

  predicate IsType(s: Step) { Kind(s) == "type" && s.action.typed }

  /** A replayed macro is valid, so an autofill step never lacks its selector. */
  lemma FillsHaveSelectors(env: Env, m: Macro, start: Trace, trace: Trace, ending: Ending)
    requires Replayed(env, m, start, trace, ending) && ending.Aborted?
    ensures ending.cause != NoFillSelector
  {
    assert GoodStep(m.steps[ending.step], true);
  }

  /**
   * A replay stops for a missing secret reference exactly when it reaches a type step that a
   * pause excused from carrying one.
   */
  lemma MissingSecretExactly(env: Env, m: Macro, start: Trace, trace: Trace, ending: Ending)
    requires Replayed(env, m, start, trace, ending) && Started(ending)
    ensures ending.Aborted? && ending.cause == NoSecretRef
            <==> exists k :: 0 <= k < |m.steps| && AllPass(env, m.steps, start, k)
                             && IsType(m.steps[k]) && m.steps[k].secret == "" && m.steps[k].pause.Some?
  {
    if ending.Aborted? {
      assert GoodStep(m.steps[ending.step], true);
    }
    forall k | 0 <= k < |m.steps| && AllPass(env, m.steps, start, k) && IsType(m.steps[k]) && m.steps[k].secret == ""
      ensures ending.Aborted? && ending.step == k
    {
      ReportedStepIsTheFirst(env, m, start, trace, ending, k);
    }
  }

  /** Without paused type steps a valid macro never stops for a missing reference. */
  lemma UnpausedTypesHaveSecrets(env: Env, m: Macro, start: Trace, trace: Trace, ending: Ending)
    requires Replayed(env, m, start, trace, ending)
    requires forall k :: 0 <= k < |m.steps| && Kind(m.steps[k]) == "type" ==> m.steps[k].pause.None?
    ensures ending.Aborted? ==> ending.cause != NoSecretRef
  {
    if Started(ending) {
      MissingSecretExactly(env, m, start, trace, ending);
    }
  }

  // ---- which macros can be replayed ----

  /** The step alone allows some page, resolver and human to let it pass. */
  predicate Passable(s: Step, minText: int) {
    var kind := Kind(s);
    if kind == "pause" then s.pause.Some? && (s.resumeAssert.Some? ==> Decodes(s.resumeAssert.value))
    else if kind == "type" then s.action.typed && s.secret != ""
    else if kind == "click" then
      && s.recorded.Some? && s.recorded.value.element.Some?
      && var e := s.recorded.value.element.value; e.candidates != [] || ByteLen(Trimmed(e.text)) >= minText
    else if kind == "autofill" then s.action.typed && s.action.selector != ""
    else kind in PLAIN_KINDS && s.action.typed
  }

  /** Everything succeeds: every action, every reference, every wait for the human. */
  function Obliging(testReplay: bool, minText: int): Env {
    Env(testReplay, true, trace => true, Some((trace, ref) => Some("")), Some((trace, i, timeout) => true), 0, minText)
  }

  lemma PassingIsPassable(env: Env, before: Trace, i: nat, s: Step)
    requires Failure(env, before, i, s).None?
    ensures Passable(s, env.minText)
  {}

  lemma PassablePasses(testReplay: bool, minText: int, before: Trace, i: nat, s: Step)
    requires Passable(s, minText)
    ensures Failure(Obliging(testReplay, minText), before, i, s).None?
  {}

  predicate AllPassable(steps: seq<Step>, minText: int, k: nat)
    requires k <= |steps|
  {
    forall j :: 0 <= j < k ==> Passable(steps[j], minText)
  }

  lemma PassIsPassable(env: Env, steps: seq<Step>, start: Trace, k: nat)
    requires k <= |steps|
    ensures AllPass(env, steps, start, k) ==> AllPassable(steps, env.minText, k)
  {
    if AllPass(env, steps, start, k) {
      forall j | 0 <= j < k ensures Passable(steps[j], env.minText) {
        assert FailureAt(env, steps, start, j).None?;
        PassingIsPassable(env, Performed(env, steps, start, j), j, steps[j]);
      }
    }
  }

  lemma PassableIsPass(testReplay: bool, steps: seq<Step>, minText: int, start: Trace, k: nat)
    requires k <= |steps| && AllPassable(steps, minText, k)
    ensures AllPass(Obliging(testReplay, minText), steps, start, k)
  {
    var env := Obliging(testReplay, minText);
    forall j | 0 <= j < k ensures FailureAt(env, steps, start, j).None? {
      PassablePasses(testReplay, minText, Performed(env, steps, start, j), j, steps[j]);
    }
  }

  /** Some replay of m under this configuration ends like that. */
  ghost predicate CanEnd(m: Macro, testReplay: bool, minText: int, ending: Ending) {
    exists env: Env, start: Trace, trace: Trace ::
      env.testReplay == testReplay && env.minText == minText && Replayed(env, m, start, trace, ending)
  }

  predicate Admitted(m: Macro, testReplay: bool) { (m.approved.Some? || testReplay) && Valid(m, true) }

  /** A macro can be replayed to its end exactly when it is admitted and every step is passable. */
  lemma CanCompleteExactly(m: Macro, testReplay: bool, minText: int)
    ensures CanEnd(m, testReplay, minText, Completed) <==> Admitted(m, testReplay) && AllPassable(m.steps, minText, |m.steps|)
  {
    if CanEnd(m, testReplay, minText, Completed) {
      var env: Env, start: Trace, trace: Trace :|
        env.testReplay == testReplay && env.minText == minText && Replayed(env, m, start, trace, Completed);
      PassIsPassable(env, m.steps, start, |m.steps|);
    }
    if Admitted(m, testReplay) && AllPassable(m.steps, minText, |m.steps|) {
      var env := Obliging(testReplay, minText);
      PassableIsPass(testReplay, m.steps, minText, [], |m.steps|);
      assert Replayed(env, m, [], Performed(env, m.steps, [], |m.steps|), Completed);
    }
  }

  predicate LacksReference(s: Step) { IsType(s) && s.secret == "" }

  /**
   * Some replay of a macro stops at step k for a missing secret reference exactly when the
   * macro is admitted, step k is a type step without one, and every step before it is passable.
   */
  lemma CanLackSecretExactly(m: Macro, testReplay: bool, minText: int, k: nat)
    ensures CanEnd(m, testReplay, minText, Aborted(k, "type", NoSecretRef))
            <==> Admitted(m, testReplay) && k < |m.steps| && LacksReference(m.steps[k]) && AllPassable(m.steps, minText, k)
  {
    var ending := Aborted(k, "type", NoSecretRef);
    if CanEnd(m, testReplay, minText, ending) {
      var env: Env, start: Trace, trace: Trace :|
        env.testReplay == testReplay && env.minText == minText && Replayed(env, m, start, trace, ending);
      PassIsPassable(env, m.steps, start, k);
      assert FailureAt(env, m.steps, start, k) == Some(NoSecretRef);
    }
    if Admitted(m, testReplay) && k < |m.steps| && LacksReference(m.steps[k]) && AllPassable(m.steps, minText, k) {
      var env := Obliging(testReplay, minText);
      PassableIsPass(testReplay, m.steps, minText, [], k);
      assert FailureAt(env, m.steps, [], k) == Some(NoSecretRef);
      assert Replayed(env, m, [], Performed(env, m.steps, [], k + 1) + Probe(env, m.steps[k]), ending);
    }
  }

  lemma LackingIsTyping(m: Macro, testReplay: bool, minText: int, ending: Ending)
    requires ending.Aborted? && ending.cause == NoSecretRef && CanEnd(m, testReplay, minText, ending)
    ensures ending.kind == "type"
  {
    var env: Env, start: Trace, trace: Trace :|
      env.testReplay == testReplay && env.minText == minText && Replayed(env, m, start, trace, ending);
    assert FailureAt(env, m.steps, start, ending.step) == Some(NoSecretRef);
  }

  /** Step k is the first that keeps every replay from going on, and it lacks its reference. */
  predicate StopsAt(steps: seq<Step>, minText: int, k: nat) {
    k < |steps| && LacksReference(steps[k]) && AllPassable(steps, minText, k)
  }

  /**
   * Whether a macro can stop for a missing secret reference at all is decided by the macro alone:
   * it is admitted, and some type step without one has only passable steps before it.
   */
  lemma CanLackSecretSomewhere(m: Macro, testReplay: bool, minText: int)
    ensures (exists ending: Ending :: ending.Aborted? && ending.cause == NoSecretRef && CanEnd(m, testReplay, minText, ending))
            <==> Admitted(m, testReplay) && exists k: nat :: StopsAt(m.steps, minText, k)
  {
    if ending: Ending :| ending.Aborted? && ending.cause == NoSecretRef && CanEnd(m, testReplay, minText, ending) {
      LackingIsTyping(m, testReplay, minText, ending);
      CanLackSecretExactly(m, testReplay, minText, ending.step);
      assert StopsAt(m.steps, minText, ending.step);
    }
    if k: nat :| Admitted(m, testReplay) && StopsAt(m.steps, minText, k) {
      CanLackSecretExactly(m, testReplay, minText, k);
      assert CanEnd(m, testReplay, minText, Aborted(k, "type", NoSecretRef));
    }
  }

  /** The hash of the browser profile that a macro carries is never looked at. */
  lemma ProfileIsIgnored(env: Env, m: Macro, hash: string, start: Trace, trace: Trace, ending: Ending)
    ensures Replayed(env, m.(profileHash := hash), start, trace, ending) <==> Replayed(env, m, start, trace, ending)
  {}

  const PAUSED_TYPE :=
    Macro("m", "shop", "", 0, Some(Approval("ed", 0)), "",
          [Step(Object("type", "", "", "", [], "", true), "", None, Some(Pause("one-time code", 0)), None)])

  /** Approval accepts a macro that no replay can ever get past: a type step with a pause and no reference. */
  lemma ApprovedButNeverReplayed(env: Env, start: Trace, trace: Trace, ending: Ending)
    requires Replayed(env, PAUSED_TYPE, start, trace, ending)
    ensures Valid(PAUSED_TYPE, true)
    ensures ending == Aborted(0, "type", NoSecretRef) && trace == start
  {
    assert !IsSpace("m"[0]) && !IsSpace("shop"[0]) && !IsSpace("one-time code"[0]);
    assert AllPass(env, PAUSED_TYPE.steps, start, 0);
    assert FailureAt(env, PAUSED_TYPE.steps, start, 0) == Some(NoSecretRef);
  }

  // ---- the gate of the replay endpoint (internal/server/macro.go, lines 480-510) ----

  /** Whether the endpoint runs the replayer, and as a test replay or not. */
  function Gate(m: Macro, editable: bool): Option<bool> {
    if m.approved.None? && !editable then None else Some(m.approved.None?)
  }

  datatype Reply = Forbidden | NoSession | Ran(ending: Ending)

  /**
   * What the endpoint owes: the gate first, then a session, and only then a replay of that
   * class. leased says whether the requested session exists, or a new one could be opened.
   */
  predicate Endpoint(env: Env, m: Macro, editable: bool, leased: bool, start: Trace, trace: Trace, reply: Reply) {
    match Gate(m, editable)
    case None => reply == Forbidden && trace == start
    case Some(testReplay) =>
      if !leased then reply == NoSession && trace == start
      else reply.Ran? && Replayed(env.(testReplay := testReplay), m, start, trace, reply.ending)
  }

  method HandleReplay(env: Env, sess: Session, m: Macro, editable: bool, leased: bool) returns (reply: Reply)
    modifies sess
    ensures Endpoint(env, m, editable, leased, old(sess.trace), sess.trace, reply)
  {
    var testReplay := false;
    if m.approved.None? {
      if !editable {
        return Forbidden;
      }
      testReplay := true;
    }
    if !leased {
      return NoSession;
    }
    var ending := Run(env.(testReplay := testReplay), sess, m);
    reply := Ran(ending);
  }

  /**
   * Through the endpoint a step is run exactly when there is a session and the macro is strictly
   * valid and approved or of an agent-editable site; the replayer's own approval check never
   * fires behind the gate.
   */
  lemma EndpointIsGated(env: Env, m: Macro, editable: bool, leased: bool, start: Trace, trace: Trace, reply: Reply)
    requires Endpoint(env, m, editable, leased, start, trace, reply)
    ensures reply.Ran? && Started(reply.ending) <==> leased && Valid(m, true) && (m.approved.Some? || editable)
    ensures !(reply.Ran? && Started(reply.ending)) ==> trace == start
    ensures reply == Forbidden <==> m.approved.None? && !editable
    ensures reply != Ran(Unapproved)
  {}
}
