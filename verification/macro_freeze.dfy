/** How far approved macros are frozen to the agent (internal/macro/macro.go, lines 452-506). */
module MacroFreeze {
  import opened Common
  import opened Macros
  import opened MacroStore
  import opened MacroAgents

  /** The event changed or removed a macro that was approved when it happened. */
  predicate Thaws(w: World, e: Event, k: string)
    requires Enabled(w, e)
  {
    ApprovedAt(w.store, k) && !SameFile(w.store, Happen(w, e).store, k)
  }

  function CommitTarget(call: Call): string
    requires call.EditGranted? || call.PutCleared?
  {
    if call.EditGranted? then Sanitized(call.id) else Sanitized(call.m.id)
  }

  /** What an agent's commit would store. */
  function Product(w: World, call: Call): Macro
    requires call.EditGranted? ==> Sanitized(call.id) in w.store.files
    requires call.EditGranted? || call.PutCleared?
  {
    match call
    case EditGranted(id, ops) => AgentEdit(w.store.files[Sanitized(id)], ops).(approved := None)
    case PutCleared(m, _) => m
  }

  /**
   * An agent event changes an approved macro exactly when it is a commit onto a file that
   * is approved by then, the result is a valid draft, the write goes through and, for a put,
   * overwriting was asked for.
   */
  lemma AgentThawsExactly(w: World, e: Event, k: string)
    requires WorldInv(w) && Enabled(w, e) && OfAgent(e)
    ensures Thaws(w, e, k) <==>
            && (e.EditCommit? || e.PutCommit?)
            && CommitTarget(w.calls[e.c]) == k && ApprovedAt(w.store, k) && e.disk
            && Valid(Product(w, w.calls[e.c]), false)
            && (e.PutCommit? ==> w.calls[e.c].overwrite)
  {
    if e.EditCommit? || e.PutCommit? {
      CommitIsAllowed(w, e.c, e.disk);
      if CommitTarget(w.calls[e.c]) != k {
        OneFile(w.store, CommitOf(w.calls[e.c], e.disk), k);
      } else if e.EditCommit? && ApprovedAt(w.store, k) {
        AgentEditKeepsIdentity(w.store.files[k], w.calls[e.c].ops);
      }
    }
  }

  /** Putting without overwriting never changes any stored macro, however the calls interleave. */
  lemma PlainPutIsHarmless(w: World, c: nat, disk: bool, k: string)
    requires WorldInv(w) && Enabled(w, PutCommit(c, disk)) && !w.calls[c].overwrite && k in w.store.files
    ensures SameFile(w.store, Happen(w, PutCommit(c, disk)).store, k)
  {}

  /** A successful approval of the file. */
  predicate Approves(w: World, e: Event, k: string) {
    e.Admin? && e.section.Approve? && Sanitized(e.section.id) == k && Do(w.store, e.section).refusal.None?
  }

  lemma ApprovedOnlyByApprove(w: World, e: Event, k: string)
    requires WorldInv(w) && Proper(e) && Enabled(w, e) && !ApprovedAt(w.store, k) && ApprovedAt(Happen(w, e).store, k)
    ensures Approves(w, e, k)
  {
    if e.Admin? {
      OnlyApproveApproves(w.store, e.section, k);
    } else if e.EditCommit? || e.PutCommit? {
      CommitIsAllowed(w, e.c, e.disk);
      OnlyApproveApproves(w.store, CommitOf(w.calls[e.c], e.disk), k);
    }
  }

  /** A file that was not approved at i and is at j was approved in between. */
  lemma {:induction false} ApprovedBetween(events: seq<Event>, i: nat, j: nat, k: string) returns (a: nat)
    requires i <= j <= |events| && Runs(events, j) && Runs(events, i)
    requires !ApprovedAt(After(events, i).store, k) && ApprovedAt(After(events, j).store, k)
    ensures i <= a < j && Runs(events, a) && Approves(After(events, a), events[a], k)
    decreases j
  {
    if ApprovedAt(After(events, j - 1).store, k) {
      a := ApprovedBetween(events, i, j - 1, k);
    } else {
      a := j - 1;
      ApprovalCertifies(events, a);
      ApprovedOnlyByApprove(After(events, a), events[a], k);
    }
  }

  /** The call has read its file. */
  predicate HasRead(call: Call) { !call.PutGranted? }

  function FileOf(call: Call): string {
    match call
    case EditRead(id, _, _) => Sanitized(id)
    case EditGranted(id, _) => Sanitized(id)
    case PutGranted(m, _) => Sanitized(m.id)
    case PutCleared(m, _) => Sanitized(m.id)
  }

  predicate IsRead(e: Event, c: nat) { (e.EditStart? || e.PutRead?) && e.c == c }

  /** Event i is the read of call c, which has been in flight from then until k. */
  ghost predicate ReadBy(events: seq<Event>, i: nat, k: nat, c: nat)
    requires k <= |events|
  {
    i < k && IsRead(events[i], c) && forall n :: i < n <= k ==> Runs(events, n) && c in After(events, n).calls
  }

  /** An agent call in flight that has read its file found it not approved. */
  lemma {:induction false} ReadFoundDraft(events: seq<Event>, k: nat, c: nat) returns (i: nat)
    requires k <= |events| && Runs(events, k) && c in After(events, k).calls && HasRead(After(events, k).calls[c])
    ensures ReadBy(events, i, k, c) && Runs(events, i) && !ApprovedAt(After(events, i).store, FileOf(After(events, k).calls[c]))
    decreases k
  {
    var before, e := After(events, k - 1), events[k - 1];
    if IsRead(e, c) {
      i := k - 1;
    } else {
      i := ReadFoundDraft(events, k - 1, c);
    }
  }

  /**
   * The freeze fails only through a race: when an agent's commit at j changes an approved
   * macro, an approval of that macro landed after the same call had read it as a draft.
   */
  lemma FreezeFailsOnlyInARace(events: seq<Event>, j: nat, k: string) returns (i: nat, a: nat)
    requires j < |events| && Runs(events, j + 1) && Runs(events, j) && OfAgent(events[j]) && Thaws(After(events, j), events[j], k)
    ensures events[j].EditCommit? || events[j].PutCommit?
    ensures ReadBy(events, i, j, events[j].c)
    ensures i <= a < j && Runs(events, a) && Approves(After(events, a), events[a], k)
  {
    ApprovalCertifies(events, j);
    AgentThawsExactly(After(events, j), events[j], k);
    i := ReadFoundDraft(events, j, events[j].c);
    a := ApprovedBetween(events, i, j, k);
  }

  // ---- agent operations taken whole ----

  /** AgentUpdate with nothing in between (lines 494-506). */
  function AgentUpdate(w: World, id: string, ops: seq<EditOp>, disk: bool): Outcome {
    var read := Get(w.store, id);
    if read.None? then Refuse(w.store, NotFound)
    else if read.value.approved.Some? then Refuse(w.store, IsApproved)
    else if read.value.site !in w.sites then Refuse(w.store, NotEditable)
    else Do(w.store, Update(id, (m: Macro) => AgentEdit(m, ops), disk))
  }

  /** AgentPut with nothing in between (lines 473-489). */
  function AgentPut(w: World, m: Macro, overwrite: bool, disk: bool): Outcome {
    if m.approved.Some? then Refuse(w.store, CarriesApproval)
    else if m.site !in w.sites then Refuse(w.store, NotEditable)
    else
      var existing := Get(w.store, m.id);
      if existing.Some? && existing.value.approved.Some? then Refuse(w.store, IsApproved)
      else Do(w.store, Put(m, overwrite, disk))
  }

  /** AgentUpdate taken whole is its three events in a row. */
  lemma UpdateIsItsEvents(w: World, c: nat, id: string, ops: seq<EditOp>, disk: bool)
    requires c !in w.calls
    ensures var read := Happen(w, EditStart(c, id, ops));
            AgentUpdate(w, id, ops, disk).state ==
              if c !in read.calls then read.store else
                var granted := Happen(read, EditGrant(c));
                if c !in granted.calls then granted.store else Happen(granted, EditCommit(c, disk)).store
  {}

  /** AgentPut taken whole is its three events in a row. */
  lemma PutIsItsEvents(w: World, c: nat, m: Macro, overwrite: bool, disk: bool)
    requires c !in w.calls
    ensures var granted := Happen(w, PutStart(c, m, overwrite));
            AgentPut(w, m, overwrite, disk).state ==
              if c !in granted.calls then granted.store else
                var cleared := Happen(granted, PutRead(c));
                if c !in cleared.calls then cleared.store else Happen(cleared, PutCommit(c, disk)).store
  {}

  /**
   * Taken whole, an agent edit never changes an approved macro, never approves one, and
   * writes only macros of editable sites.
   */
  lemma WholeUpdate(w: World, id: string, ops: seq<EditOp>, disk: bool, k: string)
    requires WorldInv(w)
    ensures var out := AgentUpdate(w, id, ops, disk);
            && Inv(out.state)
            && (ApprovedAt(out.state, k) <==> ApprovedAt(w.store, k))
            && (ApprovedAt(w.store, k) ==> SameFile(w.store, out.state, k))
            && (!SameFile(w.store, out.state, k) ==> k in out.state.files && out.state.files[k].site in w.sites)
  {
    var out := AgentUpdate(w, id, ops, disk);
    if out.refusal.None? {
      var section := Update(id, (m: Macro) => AgentEdit(m, ops), disk);
      EditIsAllowed(id, ops, disk);
      SectionKeeps(w.store, section);
      if k != Sanitized(id) {
        OneFile(w.store, section, k);
      } else {
        AgentEditKeepsIdentity(w.store.files[k], ops);
        assert k in out.state.files && out.state.files[k] == AgentEdit(w.store.files[k], ops).(approved := None);
      }
    } else {
      assert out.state == w.store;
    }
  }

  /** The same of an agent put, with or without overwriting. */
  lemma WholePut(w: World, m: Macro, overwrite: bool, disk: bool, k: string)
    requires WorldInv(w)
    ensures var out := AgentPut(w, m, overwrite, disk);
            && Inv(out.state)
            && (ApprovedAt(out.state, k) <==> ApprovedAt(w.store, k))
            && (ApprovedAt(w.store, k) ==> SameFile(w.store, out.state, k))
            && (!SameFile(w.store, out.state, k) ==> k in out.state.files && out.state.files[k].site in w.sites)
  {
    if m.approved.None? {
      SectionKeeps(w.store, Put(m, overwrite, disk));
    }
  }

  // ---- a run in which the freeze fails ----

  const APPEND := EditOp("append_step", 0, Some(CLICK.action), "", "", 0, "")

  /** The agent reads a draft, the operator approves it, the agent's edit then goes through. */
  const RACE := [
    Admin(Put(SAMPLE, false, true)),
    Enable("shop", true),
    EditStart(0, "m", [APPEND]),
    EditGrant(0),
    Admin(Approve("m", Approval("ed", 1), true)),
    EditCommit(0, true)
  ]

  lemma SampleIsValid()
    ensures Sanitized("m") == "m" && Valid(SAMPLE, true) && Valid(SAMPLE, false)
    ensures Valid(AgentEdit(SAMPLE, [APPEND]), false) && AgentEdit(SAMPLE, [APPEND]).id == "m"
  {
    SampleIsStored();
    assert EditedAll(SAMPLE, [APPEND]) == SAMPLE.(steps := [CLICK, CLICK]);
  }

  const GRANTED := STORED.(registry := true)
  const STAMPED := SAMPLE.(approved := Some(Approval("ed", 1)))
  const BEFORE_COMMIT := World(State(map["m" := STAMPED], map[], map["m" := SAMPLE], true), {"shop"}, map[0 := EditGranted("m", [APPEND])])

  lemma RaceReads()
    ensures Runs(RACE, 3) && After(RACE, 3) == World(GRANTED, {"shop"}, map[0 := EditRead("m", [APPEND], "shop")])
  {
    SampleIsValid();
    assert Runs(RACE, 0);
    assert Runs(RACE, 1) && After(RACE, 1) == World(STORED, {}, map[]);
    assert Runs(RACE, 2) && After(RACE, 2) == World(GRANTED, {"shop"}, map[]);
  }

  lemma RaceIsApproved()
    ensures Runs(RACE, 5) && After(RACE, 5) == BEFORE_COMMIT
  {
    RaceReads();
    assert Runs(RACE, 4) && After(RACE, 4) == World(GRANTED, {"shop"}, map[0 := EditGranted("m", [APPEND])]);
    ApproveSample();
    assert Runs(RACE, 5);
  }

  lemma ApproveSample()
    ensures DoApprove(GRANTED, "m", Approval("ed", 1), true).state == BEFORE_COMMIT.store
  {
    SampleIsValid();
  }

  lemma CommitThaws(e: Event)
    requires e == EditCommit(0, true)
    ensures Enabled(BEFORE_COMMIT, e) && Thaws(BEFORE_COMMIT, e, "m")
  {
    SampleIsValid();
    assert EditedAll(STAMPED, [APPEND]) == STAMPED.(steps := [CLICK, CLICK]);
    assert EditedAll(SAMPLE, [APPEND]) == SAMPLE.(steps := [CLICK, CLICK]);
    assert AgentEdit(STAMPED, [APPEND]).(approved := None) == AgentEdit(SAMPLE, [APPEND]);
  }

  lemma FreezeCanFail()
    ensures Runs(RACE, 5) && Enabled(After(RACE, 5), RACE[5])
    ensures Thaws(After(RACE, 5), RACE[5], "m")
  {
    RaceIsApproved();
    CommitThaws(RACE[5]);
  }
}
