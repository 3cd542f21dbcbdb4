/**
 * Agent calls against the macro store, interleaved with the operator's
 * (internal/macro/macro.go, lines 473-506). The agent operations check outside the lock
 * and write inside it; each access to the store or to the registry is one event.
 */
module MacroAgents {
  import opened Macros
  import opened MacroStore

  /** An agent call in flight, by how far its checks have come. */
  datatype Call =
    | EditRead(id: string, ops: seq<EditOp>, site: string)
    | EditGranted(id: string, ops: seq<EditOp>)
    | PutGranted(m: Macro, overwrite: bool)
    | PutCleared(m: Macro, overwrite: bool)

  /** sites holds the agent-editable sites; calls the agent calls in flight. */
  datatype World = World(store: State, sites: set<string>, calls: map<nat, Call>)

  datatype Event =
    | Admin(section: Section)
    | Enable(site: string, disk: bool)
    | Disable(site: string, disk: bool)
    | EditStart(c: nat, id: string, ops: seq<EditOp>)
    | EditGrant(c: nat)
    | EditCommit(c: nat, disk: bool)
    | PutStart(c: nat, m: Macro, overwrite: bool)
    | PutRead(c: nat)
    | PutCommit(c: nat, disk: bool)

  const START := World(MacroStore.EMPTY, {}, map[])

  function Finish(w: World, c: nat): World { w.(calls := w.calls - {c}) }

  /** The lock-held section an agent call ends with. */
  function CommitOf(call: Call, disk: bool): Section
    requires call.EditGranted? || call.PutCleared?
  {
    match call
    case EditGranted(id, ops) => Update(id, (m: Macro) => AgentEdit(m, ops), disk)
    case PutCleared(m, overwrite) => Put(m, overwrite, disk)
  }

  /** Which events can happen: a call is started once and goes through its accesses in order. */
  predicate Enabled(w: World, e: Event) {
    match e
    case EditStart(c, _, _) => c !in w.calls
    case PutStart(c, _, _) => c !in w.calls
    case EditGrant(c) => c in w.calls && w.calls[c].EditRead?
    case EditCommit(c, _) => c in w.calls && w.calls[c].EditGranted?
    case PutRead(c) => c in w.calls && w.calls[c].PutGranted?
    case PutCommit(c, _) => c in w.calls && w.calls[c].PutCleared?
    case _ => true
  }

  function Happen(w: World, e: Event): World
    requires Enabled(w, e)
  {
    match e
    case Admin(section) => w.(store := Do(w.store, section).state)
    case Enable(site, disk) => w.(sites := w.sites + {site}, store := RegistrySaved(w.store, disk))
    case Disable(site, disk) => w.(sites := w.sites - {site}, store := RegistrySaved(w.store, disk))
    case EditStart(c, id, ops) =>
      var read := Get(w.store, id);
      if read.None? || read.value.approved.Some? then w
      else w.(calls := w.calls[c := EditRead(id, ops, read.value.site)])
    case EditGrant(c) =>
      if w.calls[c].site in w.sites then w.(calls := w.calls[c := EditGranted(w.calls[c].id, w.calls[c].ops)]) else Finish(w, c)
    case EditCommit(c, disk) => Finish(w.(store := Do(w.store, CommitOf(w.calls[c], disk)).state), c)
    case PutStart(c, m, overwrite) =>
      if m.approved.Some? || m.site !in w.sites then w else w.(calls := w.calls[c := PutGranted(m, overwrite)])
    case PutRead(c) =>
      var existing := Get(w.store, w.calls[c].m.id);
      if existing.Some? && existing.value.approved.Some? then Finish(w, c)
      else w.(calls := w.calls[c := PutCleared(w.calls[c].m, w.calls[c].overwrite)])
    case PutCommit(c, disk) => Finish(w.(store := Do(w.store, CommitOf(w.calls[c], disk)).state), c)
  }

  predicate OfAgent(e: Event) { !e.Admin? && !e.Enable? && !e.Disable? }

  // ---- runs ----

  ghost predicate Proper(e: Event) { e.Admin? ==> Allowed(e.section) }

  ghost predicate Runs(events: seq<Event>, k: nat)
    requires k <= |events|
    decreases k, 0
  {
    k > 0 ==> Runs(events, k - 1) && Proper(events[k - 1]) && Enabled(After(events, k - 1), events[k - 1])
  }

  ghost function After(events: seq<Event>, k: nat): World
    requires k <= |events| && Runs(events, k)
    decreases k, 1
  {
    if k == 0 then START else Happen(After(events, k - 1), events[k - 1])
  }

  ghost predicate WorldInv(w: World) {
    Inv(w.store) && forall c :: c in w.calls && (w.calls[c].PutGranted? || w.calls[c].PutCleared?) ==> w.calls[c].m.approved.None?
  }

  lemma EditIsAllowed(id: string, ops: seq<EditOp>, disk: bool)
    ensures Allowed(Update(id, (m: Macro) => AgentEdit(m, ops), disk))
  {
    forall m ensures AgentEdit(m, ops).id == m.id {
      AgentEditKeepsIdentity(m, ops);
    }
  }

  /** An agent's section is one the store allows: it cannot carry an approval or move a macro. */
  lemma CommitIsAllowed(w: World, c: nat, disk: bool)
    requires WorldInv(w) && c in w.calls && (w.calls[c].EditGranted? || w.calls[c].PutCleared?)
    ensures Allowed(CommitOf(w.calls[c], disk))
  {
    if w.calls[c].EditGranted? {
      EditIsAllowed(w.calls[c].id, w.calls[c].ops, disk);
    }
  }

  lemma AdminKeeps(w: World, e: Event)
    requires WorldInv(w) && Proper(e) && e.Admin?
    ensures WorldInv(Happen(w, e))
  {
    SectionKeeps(w.store, e.section);
  }

  lemma CommitKeeps(w: World, e: Event)
    requires WorldInv(w) && Enabled(w, e) && (e.EditCommit? || e.PutCommit?)
    ensures WorldInv(Happen(w, e))
  {
    CommitIsAllowed(w, e.c, e.disk);
    SectionKeeps(w.store, CommitOf(w.calls[e.c], e.disk));
  }

  /**
   * Under any interleaving of operator and agent, every stored macro passes draft
   * validation, and every approved one passes the strict one and is what Approve read.
   */
  lemma {:induction false} ApprovalCertifies(events: seq<Event>, k: nat)
    requires k <= |events| && Runs(events, k)
    ensures WorldInv(After(events, k))
  {
    if k > 0 {
      ApprovalCertifies(events, k - 1);
      var w, e := After(events, k - 1), events[k - 1];
      if e.Admin? {
        AdminKeeps(w, e);
      } else if e.EditCommit? || e.PutCommit? {
        CommitKeeps(w, e);
      }
    }
  }
}
