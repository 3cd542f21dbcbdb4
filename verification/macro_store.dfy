/** The macro store: its lock-held sections, as values and as an object (internal/macro/macro.go). */
module MacroStore {
  import opened Common
  import opened Macros

  datatype Refusal = Invalid | AlreadyExists | NotFound | IsApproved | NotEditable | CarriesApproval | DiskFailed

  /** The registry of agent-editable sites is kept in the same directory, under a name a macro can have. */
  const REGISTRY := "agent-editable-sites"

  /**
   * The stored macros by sanitized id. certified remembers, for each file, the macro the
   * latest Approve read and validated; registry says whether the file of that name holds
   * the registry, which does not read as a macro.
   */
  datatype State = State(files: map<string, Macro>, orphans: map<string, Macro>, certified: map<string, Macro>, registry: bool)

  const EMPTY := State(map[], map[], map[], false)

  datatype Outcome = Outcome(state: State, refusal: Option<Refusal>)

  function Refuse(s: State, why: Refusal): Outcome { Outcome(s, Some(why)) }

  /** What runs while the lock is held. disk and removed say whether the file operations succeed. */
  datatype Section =
    | Put(m: Macro, overwrite: bool, disk: bool)
    | Update(id: string, mutate: Macro -> Macro, disk: bool)
    | Approve(id: string, approval: Approval, disk: bool)
    | Delete(id: string, disk: bool)
    | PutOrphan(m: Macro, disk: bool)
    | PromoteOrphan(id: string, disk: bool, removed: bool)
    | DiscardOrphan(id: string, disk: bool)

  function Written(s: State, m: Macro, disk: bool): Outcome {
    var k := Sanitized(m.id);
    if disk then Outcome(s.(files := s.files[k := m], registry := s.registry && k != REGISTRY), None) else Refuse(s, DiskFailed)
  }

  /** There is a file of this name, whether it reads as a macro or not. */
  predicate Exists(s: State, k: string) { k in s.files || (s.registry && k == REGISTRY) }

  /** What saving the registry does to the macros: its file replaces a macro of that name. */
  function RegistrySaved(s: State, disk: bool): State {
    if disk then s.(files := s.files - {REGISTRY}, registry := true) else s
  }

  predicate ApprovedAt(s: State, k: string) { k in s.files && s.files[k].approved.Some? }

  function Get(s: State, id: string): Option<Macro> {
    var k := Sanitized(id);
    if k in s.files then Some(s.files[k]) else None
  }

  function DoPut(s: State, m: Macro, overwrite: bool, disk: bool): Outcome {
    if !Valid(m, false) then Refuse(s, Invalid)
    else if Exists(s, Sanitized(m.id)) && !overwrite then Refuse(s, AlreadyExists)
    else Written(s, m, disk)
  }

  function DoUpdate(s: State, id: string, mutate: Macro -> Macro, disk: bool): Outcome {
    var k := Sanitized(id);
    if k !in s.files then Refuse(s, NotFound) else
      var m := mutate(s.files[k]).(approved := None);
      if !Valid(m, false) then Refuse(s, Invalid) else Written(s, m, disk)
  }

  function DoApprove(s: State, id: string, approval: Approval, disk: bool): Outcome {
    var k := Sanitized(id);
    if k !in s.files then Refuse(s, NotFound) else
      var m := s.files[k];
      if !Valid(m, true) then Refuse(s, Invalid)
      else if !disk then Refuse(s, DiskFailed)
      else
        var stamped := m.(approved := Some(approval));
        Outcome(Written(s, stamped, true).state.(certified := s.certified[k := m]), None)
  }

  function DoPromote(s: State, id: string, disk: bool, removed: bool): Outcome {
    var k := Sanitized(id);
    if k !in s.orphans then Refuse(s, NotFound)
    else if !Valid(s.orphans[k], false) then Refuse(s, Invalid)
    else if ApprovedAt(s, k) then Refuse(s, IsApproved)
    else if !disk then Refuse(s, DiskFailed)
    else
      var written := Written(s, s.orphans[k], true).state;
      if removed then Outcome(written.(orphans := s.orphans - {k}), None) else Refuse(written, DiskFailed)
  }

  function Do(s: State, section: Section): Outcome {
    match section
    case Put(m, overwrite, disk) => DoPut(s, m, overwrite, disk)
    case Update(id, mutate, disk) => DoUpdate(s, id, mutate, disk)
    case Approve(id, approval, disk) => DoApprove(s, id, approval, disk)
    case Delete(id, disk) =>
      var k := Sanitized(id);
      if !Exists(s, k) then Refuse(s, NotFound)
      else if disk then Outcome(s.(files := s.files - {k}, registry := s.registry && k != REGISTRY), None)
      else Refuse(s, DiskFailed)
    case PutOrphan(m, disk) =>
      if disk then Outcome(s.(orphans := s.orphans[Sanitized(m.id) := m]), None) else Refuse(s, DiskFailed)
    case PromoteOrphan(id, disk, removed) => DoPromote(s, id, disk, removed)
    case DiscardOrphan(id, disk) =>
      if Sanitized(id) !in s.orphans then Refuse(s, NotFound)
      else if disk then Outcome(s.(orphans := s.orphans - {Sanitized(id)}), None)
      else Refuse(s, DiskFailed)
  }

  /** What callers owe: recordings are drafts, and an edit leaves the id alone. */
  ghost predicate Allowed(section: Section) {
    match section
    case Put(m, _, _) => m.approved.None?
    case PutOrphan(m, _) => m.approved.None?
    case Update(_, mutate, _) => forall m :: mutate(m).id == m.id
    case _ => true
  }

  // ---- what every section keeps ----

  /** Each file is found under the sanitized form of the id it holds. */
  predicate Named(files: map<string, Macro>) {
    forall k :: k in files ==> Sanitized(files[k].id) == k
  }

  predicate Drafts(files: map<string, Macro>) {
    forall k :: k in files ==> files[k].approved.None?
  }

  /** An approved file is strictly valid and is what Approve read, but for the stamp. */
  predicate CertifiedAt(s: State, k: string) {
    ApprovedAt(s, k) ==>
      && Valid(s.files[k], true)
      && k in s.certified
      && s.files[k] == s.certified[k].(approved := s.files[k].approved)
  }

  predicate Inv(s: State) {
    && Named(s.files) && Named(s.orphans) && Drafts(s.orphans)
    && (forall k :: k in s.files ==> Valid(s.files[k], false))
    && (forall k :: k in s.files ==> CertifiedAt(s, k))
    && (s.registry ==> REGISTRY !in s.files)
  }

  lemma ApproveKeeps(s: State, id: string, approval: Approval, disk: bool)
    requires Inv(s)
    ensures Inv(DoApprove(s, id, approval, disk).state)
  {
  }

  lemma UpdateKeeps(s: State, id: string, mutate: Macro -> Macro, disk: bool)
    requires Inv(s) && Allowed(Update(id, mutate, disk))
    ensures Inv(DoUpdate(s, id, mutate, disk).state)
  {}

  lemma PromoteKeeps(s: State, id: string, disk: bool, removed: bool)
    requires Inv(s)
    ensures Inv(DoPromote(s, id, disk, removed).state)
  {
  }

  /** Every lock-held section keeps every stored macro valid and every approval exact. */
  lemma SectionKeeps(s: State, section: Section)
    requires Inv(s) && Allowed(section)
    ensures Inv(Do(s, section).state)
  {
    match section
    case Update(id, mutate, disk) => UpdateKeeps(s, id, mutate, disk);
    case Approve(id, approval, disk) => ApproveKeeps(s, id, approval, disk);
    case PromoteOrphan(id, disk, removed) => PromoteKeeps(s, id, disk, removed);
    case _ =>
  }

  /** A refused section changed nothing, except a promotion that stored the macro and then could not remove the orphan. */
  lemma RefusalChangesNothing(s: State, section: Section)
    requires Do(s, section).refusal.Some?
    ensures Do(s, section).state == s
         || (section.PromoteOrphan? && section.disk && !section.removed && Do(s, section).refusal == Some(DiskFailed))
  {}

  /** The file a section may write or remove. */
  function Target(section: Section): string {
    match section
    case Put(m, _, _) => Sanitized(m.id)
    case Update(id, _, _) => Sanitized(id)
    case Approve(id, _, _) => Sanitized(id)
    case Delete(id, _) => Sanitized(id)
    case PutOrphan(m, _) => Sanitized(m.id)
    case PromoteOrphan(id, _, _) => Sanitized(id)
    case DiscardOrphan(id, _) => Sanitized(id)
  }

  predicate SameFile(s: State, s': State, k: string) {
    (k in s.files <==> k in s'.files) && (k in s.files ==> s'.files[k] == s.files[k])
  }

  predicate SameOrphan(s: State, s': State, k: string) {
    (k in s.orphans <==> k in s'.orphans) && (k in s.orphans ==> s'.orphans[k] == s.orphans[k])
  }

  /** A section touches one parked draft only. */
  lemma OneOrphan(s: State, section: Section, k: string)
    requires k != Target(section)
    ensures SameOrphan(s, Do(s, section).state, k)
  {}

  /** Storing, editing, approving and deleting leave what is parked alone; parking and discarding leave what is stored alone. */
  lemma StoredAndParkedApart(s: State, section: Section)
    ensures section.Put? || section.Update? || section.Approve? || section.Delete? ==> Do(s, section).state.orphans == s.orphans
    ensures section.PutOrphan? || section.DiscardOrphan? ==> Do(s, section).state.files == s.files
  {}

  /** A section touches one file only: ids with the same sanitized form share a file, all others are safe. */
  lemma OneFile(s: State, section: Section, k: string)
    requires Inv(s) && Allowed(section) && k != Target(section)
    ensures SameFile(s, Do(s, section).state, k)
  {
    if section.Update? {
      UpdateOneFile(s, section.id, section.mutate, section.disk, k);
    }
  }

  lemma UpdateOneFile(s: State, id: string, mutate: Macro -> Macro, disk: bool, k: string)
    requires Inv(s) && Allowed(Update(id, mutate, disk)) && k != Sanitized(id)
    ensures SameFile(s, DoUpdate(s, id, mutate, disk).state, k)
  {
    assert Sanitized(id) in s.files ==> mutate(s.files[Sanitized(id)]).id == s.files[Sanitized(id)].id;
  }

  /** A stored macro is read back unchanged, under every id that shares its file name; no other file moved. */
  lemma PutThenGet(s: State, m: Macro, overwrite: bool, id: string)
    requires Inv(s) && m.approved.None? && DoPut(s, m, overwrite, true).refusal.None?
    ensures var s' := DoPut(s, m, overwrite, true).state;
            Get(s', id) == if Sanitized(id) == Sanitized(m.id) then Some(m) else Get(s, id)
  {}

  /** What is stored at a file name, wherever it is asked for. */
  ghost predicate Stores(s: State, s': State, id: string, m: Macro) {
    forall other :: Get(s', other) == if Sanitized(other) == Sanitized(id) then Some(m) else Get(s, other)
  }

  /** A put is accepted exactly when the draft is valid, its name is free or may be overwritten, and the write succeeds. */
  lemma PutIsStored(s: State, m: Macro, overwrite: bool, disk: bool)
    ensures DoPut(s, m, overwrite, disk).refusal.None? <==> Valid(m, false) && (overwrite || !Exists(s, Sanitized(m.id))) && disk
    ensures DoPut(s, m, overwrite, disk).refusal.None? ==> Stores(s, DoPut(s, m, overwrite, disk).state, m.id, m)
  {}

  /** An update is accepted exactly when there is a macro, its edit is a valid draft and the write succeeds; then the edit is what is stored. */
  lemma UpdateIsStored(s: State, id: string, mutate: Macro -> Macro, disk: bool)
    requires Inv(s) && Allowed(Update(id, mutate, disk))
    ensures DoUpdate(s, id, mutate, disk).refusal.None?
            <==> Get(s, id).Some? && Valid(mutate(Get(s, id).value).(approved := None), false) && disk
    ensures DoUpdate(s, id, mutate, disk).refusal.None? ==>
              Stores(s, DoUpdate(s, id, mutate, disk).state, id, mutate(Get(s, id).value).(approved := None))
  {
    if Get(s, id).Some? {
      assert mutate(s.files[Sanitized(id)]).id == s.files[Sanitized(id)].id;
    }
  }

  /** An approval is accepted exactly when there is a strictly valid macro and the write succeeds; it adds the stamp and nothing else. */
  lemma ApproveIsStored(s: State, id: string, approval: Approval, disk: bool)
    requires Inv(s)
    ensures DoApprove(s, id, approval, disk).refusal.None? <==> Get(s, id).Some? && Valid(Get(s, id).value, true) && disk
    ensures DoApprove(s, id, approval, disk).refusal.None? ==>
              Stores(s, DoApprove(s, id, approval, disk).state, id, Get(s, id).value.(approved := Some(approval)))
  {}

  /** A promotion is accepted exactly when a valid draft is parked, no approved macro has its name and both file operations succeed. */
  lemma PromoteIsStored(s: State, id: string, disk: bool, removed: bool)
    requires Inv(s)
    ensures DoPromote(s, id, disk, removed).refusal.None?
            <==> && Sanitized(id) in s.orphans && Valid(s.orphans[Sanitized(id)], false) && !ApprovedAt(s, Sanitized(id))
                 && disk && removed
    ensures DoPromote(s, id, disk, removed).refusal.None? ==>
              && Stores(s, DoPromote(s, id, disk, removed).state, id, s.orphans[Sanitized(id)])
              && DoPromote(s, id, disk, removed).state.orphans == s.orphans - {Sanitized(id)}
  {}

  /** A deleted macro is gone under every spelling of its id, and every other macro is still there. */
  lemma DeleteThenGet(s: State, id: string, other: string)
    requires Do(s, Delete(id, true)).refusal.None?
    ensures Get(Do(s, Delete(id, true)).state, other) == if Sanitized(other) == Sanitized(id) then None else Get(s, other)
  {}

  /** A discarded draft is gone, and no other parked draft is. */
  lemma DiscardIsGone(s: State, id: string, disk: bool, k: string)
    ensures Do(s, DiscardOrphan(id, disk)).refusal.None? <==> Sanitized(id) in s.orphans && disk
    ensures k in Do(s, DiscardOrphan(id, disk)).state.orphans <==> k in s.orphans && !(disk && k == Sanitized(id))
  {}

  /** Where the macro that a section is about is looked up. */
  function Subject(s: State, section: Section): Option<Macro> {
    match section
    case Put(m, _, _) => Some(m)
    case PutOrphan(m, _) => Some(m)
    case PromoteOrphan(id, _, _) => if Sanitized(id) in s.orphans then Some(s.orphans[Sanitized(id)]) else None
    case DiscardOrphan(id, _) => if Sanitized(id) in s.orphans then Some(s.orphans[Sanitized(id)]) else None
    case _ => if Target(section) in s.files then Some(s.files[Target(section)]) else None
  }

  /** A refusal gives the reason that applies. */
  lemma RefusalIsJust(s: State, section: Section, why: Refusal)
    requires Do(s, section).refusal == Some(why)
    ensures match why
            case NotFound => Subject(s, section).None?
            case Invalid =>
              && Subject(s, section).Some?
              && var m := if section.Update? then section.mutate(Subject(s, section).value).(approved := None) else Subject(s, section).value;
                 !Valid(m, section.Approve?)
            case AlreadyExists => section.Put? && !section.overwrite && Exists(s, Target(section))
            case IsApproved => section.PromoteOrphan? && ApprovedAt(s, Target(section))
            case DiskFailed => !section.disk || (section.PromoteOrphan? && !section.removed)
            case _ => false
  {}

  /** Granting or revoking a site keeps the store sound, and the one macro it can cost is the registry's namesake. */
  lemma RegistryCostsItsNamesake(s: State, disk: bool, k: string)
    requires Inv(s)
    ensures Inv(RegistrySaved(s, disk))
    ensures SameFile(s, RegistrySaved(s, disk), k) <==> !(disk && k == REGISTRY && k in s.files)
  {}

  /** Only Approve makes a file approved: every other section leaves it as it was or writes a draft. */
  lemma OnlyApproveApproves(s: State, section: Section, k: string)
    requires Inv(s) && Allowed(section) && !ApprovedAt(s, k) && ApprovedAt(Do(s, section).state, k)
    ensures section.Approve? && Sanitized(section.id) == k && Do(s, section).refusal.None?
  {
    if k != Target(section) {
      OneFile(s, section, k);
    }
  }

  /** Promotion never replaces an approved macro, under whatever spelling of the id it is asked for. */
  lemma PromoteKeepsApproved(s: State, id: string, disk: bool, removed: bool, k: string)
    requires Inv(s) && ApprovedAt(s, k)
    ensures SameFile(s, DoPromote(s, id, disk, removed).state, k)
  {}

  /** An edit or a revocation that goes through leaves a draft, and approving it again needs a strict validation. */
  lemma EditClearsApproval(s: State, id: string, mutate: Macro -> Macro, disk: bool, approval: Approval)
    requires Inv(s) && Allowed(Update(id, mutate, disk)) && DoUpdate(s, id, mutate, disk).refusal.None?
    ensures var s' := DoUpdate(s, id, mutate, disk).state;
            && Sanitized(id) in s'.files && !ApprovedAt(s', Sanitized(id))
            && (DoApprove(s', id, approval, true).refusal.None? <==> Valid(s'.files[Sanitized(id)], true))
  {
    assert mutate(s.files[Sanitized(id)]).id == s.files[Sanitized(id)].id;
  }

  /** Revoking what was just approved gives the draft back, step for step. */
  lemma RevokeUndoesApprove(s: State, id: string, approval: Approval)
    requires Inv(s) && DoApprove(s, id, approval, true).refusal.None? && !ApprovedAt(s, Sanitized(id))
    ensures var s' := DoUpdate(DoApprove(s, id, approval, true).state, id, (m: Macro) => m, true);
            s'.refusal.None? && s'.state.files == s.files
  {
    var k := Sanitized(id);
    var approved := DoApprove(s, id, approval, true).state;
    assert approved.files[k].(approved := None) == s.files[k];
    assert DoUpdate(approved, id, (m: Macro) => m, true).state.files == s.files;
  }

  // ---- edits that do nothing ----

  /**
   * An operation that is unknown or out of bounds is skipped: the update is refused exactly
   * when it would be without the operation, and stores the same steps.
   */
  lemma BadOpIsSkipped(s: State, id: string, ops: seq<EditOp>, i: nat, disk: bool)
    requires i < |ops| && Sanitized(id) in s.files
    requires BadOp(|EditedAll(s.files[Sanitized(id)], ops[..i]).steps|, ops[i])
    ensures var with := DoUpdate(s, id, (m: Macro) => AgentEdit(m, ops), disk);
            var without := DoUpdate(s, id, (m: Macro) => AgentEdit(m, ops[..i] + ops[i + 1..]), disk);
            && with.refusal == without.refusal
            && (with.refusal.None? && Inv(s) ==>
                  with.state.files[Sanitized(id)].steps == without.state.files[Sanitized(id)].steps)
  {
    var k := Sanitized(id);
    var m, rest := s.files[k], ops[..i] + ops[i + 1..];
    SkipBadOp(m, ops[..i], ops[i], ops[i + 1..]);
    assert ops == ops[..i] + [ops[i]] + ops[i + 1..];
    AgentEditKeepsIdentity(m, ops);
    AgentEditKeepsIdentity(m, rest);
    SameValidity(AgentEdit(m, ops).(approved := None), AgentEdit(m, rest).(approved := None));
  }

  lemma SameValidity(m: Macro, n: Macro)
    requires m.id == n.id && m.site == n.site && m.steps == n.steps
    ensures forall strict :: Valid(m, strict) <==> Valid(n, strict)
  {}

  /** On its own such an operation is accepted for every stored draft, and the store is left as it was. */
  lemma BadOpIsAccepted(s: State, id: string, op: EditOp)
    requires Inv(s) && Sanitized(id) in s.files && !ApprovedAt(s, Sanitized(id))
    requires BadOp(|s.files[Sanitized(id)].steps|, op) && op.descr == ""
    ensures DoUpdate(s, id, (m: Macro) => AgentEdit(m, [op]), true) == Outcome(s, None)
  {
    var k := Sanitized(id);
    var m := s.files[k];
    assert [op][..0] == [] && EditedAll(m, [op]) == Edited(m, op);
    BadOpChangesNothing(m, op);
    assert s.files[k := m] == s.files;
  }

  const CLICK := Step(Object("click", "", "", "", [], "", true), "", None, None, None)
  const SAMPLE := Macro("m", "shop", "", 0, None, "", [CLICK])
  const STORED := State(map["m" := SAMPLE], map[], map[], false)
  const OUT_OF_BOUNDS := EditOp("drop_step", 7, None, "", "", 0, "")

  lemma SampleIsStored()
    ensures Sanitized("m") == "m" && Valid(SAMPLE, true) && Valid(SAMPLE, false) && Inv(STORED)
  {
    assert SafeChar('m');
    assert !IsSpace("m"[0]) && !IsSpace("shop"[0]);
  }

  /** Dropping step 7 of a macro of one step is accepted. */
  lemma OutOfBoundsIsAccepted()
    ensures Inv(STORED) && DoUpdate(STORED, "m", (m: Macro) => AgentEdit(m, [OUT_OF_BOUNDS]), true) == Outcome(STORED, None)
  {
    SampleIsStored();
    BadOpIsAccepted(STORED, "m", OUT_OF_BOUNDS);
  }

  const APPENDED := EditOp("append_step", 0, Some(Object("wait", "", "", "", [], "", true)), "", "", 0, "")

  /** An edit that is kept: a step appended to the stored draft is the second of its steps. */
  lemma AppendedIsStored()
    ensures var after := DoUpdate(STORED, "m", (m: Macro) => AgentEdit(m, [APPENDED]), true);
            && after.refusal.None? && Get(after.state, "m").Some?
            && Get(after.state, "m").value.steps == [CLICK, Step(APPENDED.step.value, "", None, None, None)]
  {
    SampleIsStored();
    var edit := (m: Macro) => AgentEdit(m, [APPENDED]);
    forall m ensures edit(m).id == m.id {
      AgentEditKeepsIdentity(m, [APPENDED]);
    }
    assert [APPENDED][..0] == [] && EditedAll(SAMPLE, [APPENDED]) == Edited(SAMPLE, APPENDED);
    assert GoodStep(CLICK, false) && Valid(edit(SAMPLE).(approved := None), false);
    UpdateIsStored(STORED, "m", edit, true);
  }

  // ---- the store as an object ----

  class Store {
    var files: map<string, Macro>
    var orphans: map<string, Macro>
    ghost var certified: map<string, Macro>
    var registry: bool

    ghost function Value(): State reads this { State(files, orphans, certified, registry) }

    constructor ()
      ensures Value() == EMPTY
    {
      files, orphans, certified, registry := map[], map[], map[], false;
    }

    /** Lines 412-422. */
    method WriteLocked(m: Macro, disk: bool) returns (refusal: Option<Refusal>)
      modifies `files, `registry
      ensures Outcome(Value(), refusal) == Written(old(Value()), m, disk)
    {
      if !disk {
        return Some(DiskFailed);
      }
      var path := SanitizeId(m.id);
      files := files[path := m];
      if path == REGISTRY {
        registry := false;
      }
      refusal := None;
    }

    /** internal/macro/editable.go, lines 152-173: the registry's file in the directory of the macros. */
    method SaveRegistry(disk: bool)
      modifies `files, `registry
      ensures Value() == RegistrySaved(old(Value()), disk)
    {
      if disk {
        files := files - {REGISTRY};
        registry := true;
      }
    }

    /** Lines 202-226. */
    method Put(m: Macro, overwrite: bool, disk: bool) returns (refusal: Option<Refusal>)
      modifies this
      ensures Outcome(Value(), refusal) == DoPut(old(Value()), m, overwrite, disk)
    {
      var fault := Validate(m, false);
      if fault.Some? {
        return Some(Invalid);
      }
      var path := SanitizeId(m.id);
      if (path in files || (registry && path == REGISTRY)) && !overwrite {
        return Some(AlreadyExists);
      }
      refusal := WriteLocked(m, disk);
    }

    /** Lines 266-279; Revoke (lines 283-285) passes the identity. */
    method Update(id: string, mutate: Macro -> Macro, disk: bool) returns (refusal: Option<Refusal>)
      modifies this
      ensures Outcome(Value(), refusal) == DoUpdate(old(Value()), id, mutate, disk)
    {
      var path := SanitizeId(id);
      if path !in files {
        return Some(NotFound);
      }
      var m := mutate(files[path]);
      m := m.(approved := None);
      var fault := Validate(m, false);
      if fault.Some? {
        return Some(Invalid);
      }
      refusal := WriteLocked(m, disk);
    }

    /** Lines 384-396. */
    method Approve(id: string, approval: Approval, disk: bool) returns (refusal: Option<Refusal>)
      modifies this
      ensures Outcome(Value(), refusal) == DoApprove(old(Value()), id, approval, disk)
    {
      var path := SanitizeId(id);
      if path !in files {
        return Some(NotFound);
      }
      var m := files[path];
      var fault := Validate(m, true);
      if fault.Some? {
        return Some(Invalid);
      }
      refusal := WriteLocked(m.(approved := Some(approval)), disk);
      if disk {
        certified := certified[path := m];
      }
    }

    /** Lines 288-296. */
    method Delete(id: string, disk: bool) returns (refusal: Option<Refusal>)
      modifies this
      ensures Outcome(Value(), refusal) == Do(old(Value()), Section.Delete(id, disk))
    {
      var path := SanitizeId(id);
      if path !in files && !(registry && path == REGISTRY) {
        return Some(NotFound);
      }
      if !disk {
        return Some(DiskFailed);
      }
      files := files - {path};
      if path == REGISTRY {
        registry := false;
      }
      refusal := None;
    }

    /** Lines 302-315. */
    method PutOrphan(m: Macro, disk: bool) returns (refusal: Option<Refusal>)
      modifies this
      ensures Outcome(Value(), refusal) == Do(old(Value()), Section.PutOrphan(m, disk))
    {
      if !disk {
        return Some(DiskFailed);
      }
      var base := SanitizeId(m.id);
      orphans := orphans[base := m];
      refusal := None;
    }

    /** Lines 353-374. */
    method PromoteOrphan(id: string, disk: bool, removed: bool) returns (refusal: Option<Refusal>)
      modifies this
      ensures Outcome(Value(), refusal) == DoPromote(old(Value()), id, disk, removed)
    {
      var base := SanitizeId(id);
      if base !in orphans {
        return Some(NotFound);
      }
      var m := orphans[base];
      var fault := Validate(m, false);
      if fault.Some? {
        return Some(Invalid);
      }
      if base in files && files[base].approved.Some? {
        return Some(IsApproved);
      }
      refusal := WriteLocked(m, disk);
      if refusal.Some? {
        return;
      }
      if !removed {
        return Some(DiskFailed);
      }
      orphans := orphans - {base};
    }

    /** Lines 377-381. */
    method DiscardOrphan(id: string, disk: bool) returns (refusal: Option<Refusal>)
      modifies this
      ensures Outcome(Value(), refusal) == Do(old(Value()), Section.DiscardOrphan(id, disk))
    {
      var base := SanitizeId(id);
      if base !in orphans {
        return Some(NotFound);
      }
      if !disk {
        return Some(DiskFailed);
      }
      orphans := orphans - {base};
      refusal := None;
    }
  }
}
