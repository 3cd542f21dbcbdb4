/**
 The tab pool (internal/browser/pool.go) with its generations (internal/browser/browser.go)
 as a transition system.

 Any finite number of clients each take one tab and give it back: `currentPool`,
 `acquire`, some use of the tab, `release`. A client's program counter names its next
 atomic action: one section held under `p.mu`, one check of a context, or one Chrome
 operation, whose outcome the environment picks. Chrome may also end any tab, and a
 generation may be swept (closeAll) or stopped at any moment.
 */
module Pools {
  import opened Common
  import opened Tally

  /** A tab. `retired` is a history variable: retire's locked section has run for it. */
  datatype Page = Page(owner: nat, alive: bool, uses: nat, retired: bool)

  /**
   One generation. `epoch` numbers the current `changed` channel; the channels with
   smaller numbers are closed. `free` is the channel of idle tabs, of capacity `size`.
   */
  datatype Pool = Pool(
    size: nat, pages: seq<nat>, free: seq<nat>, epoch: nat, nextId: nat,
    created: int, busy: int, retired: int, running: bool)

  /** newPool raises a smaller size to one. */
  function NewPool(size: int): Pool {
    Pool(if size < 1 then 1 else size, [], [], 0, 0, 0, 0, 0, true)
  }

  datatype PC =
    | Start                                 // next: currentPool
    | Top(p: nat)                           // 82-87: contexts
    | Look(p: nat)                          // 89-108: the locked section of acquire
    | Blocked(p: nat, e: nat)               // 125: select on the captured channel
    | Took(p: nat, g: nat)                  // 95: is the idle tab still alive?
    | Numbering(p: nat)                     // newPage takes an id
    | Opening(p: nat)                       // newPage talks to Chrome
    | Unreserve(p: nat)                     // 113-116: creation failed
    | Register(p: nat, g: nat)              // newPage lists the tab
    | Marking(p: nat, g: nat)               // markBusy(+1)
    | Leased(p: nat, g: nat)                // the client uses the tab
    | Released(p: nat, g: nat, healthy: bool) // 143: after markBusy(-1)
    | Parking(p: nat, g: nat)               // navigates to about:blank
    | Return(p: nat, g: nat)                // 154-157: back to the free tabs
    | Retire(p: nat, g: nat, again: bool)   // retire cancels the tab
    | Unpool(p: nat, g: nat, again: bool)   // 172-182: retire's locked section
    | Ended

  datatype State = State(clients: seq<PC>, pools: seq<Pool>, pages: seq<Page>, current: nat)

  datatype Choice =
    | Go                       // the program's own next action; operations succeed
    | Fail                     // the operation fails, or the client's context has ended
    | Replace(size: int)       // currentPool finds a new Chrome
    | GiveBack(healthy: bool)  // the client releases its tab

  function PoolOf(pc: PC): Option<nat> {
    match pc
    case Start | Ended => None
    case _ => Some(pc.p)
  }

  function PageOf(pc: PC): Option<nat> {
    match pc
    case Took(_, g) => Some(g)
    case Register(_, g) => Some(g)
    case Marking(_, g) => Some(g)
    case Leased(_, g) => Some(g)
    case Released(_, g, _) => Some(g)
    case Parking(_, g) => Some(g)
    case Return(_, g) => Some(g)
    case Retire(_, g, _) => Some(g)
    case Unpool(_, g, _) => Some(g)
    case _ => None
  }

  /** The references of a client are meaningful. */
  predicate Typed(s: State, c: nat)
    requires c < |s.clients|
  {
    var pc := s.clients[c];
    && s.current < |s.pools|
    && (PoolOf(pc).Some? ==> PoolOf(pc).value < |s.pools|)
    && (PageOf(pc).Some? ==> PageOf(pc).value < |s.pages|)
  }

  /**
   Client c can take its next action. A blocked client needs a closed channel or a stopped
   generation, unless its context ends; the send in release needs room in the channel.
   */
  predicate Enabled(s: State, c: nat, ch: Choice) {
    && c < |s.clients|
    && Typed(s, c)
    && match s.clients[c]
       case Start => !ch.GiveBack?
       case Top(_) | Opening(_) | Parking(_, _) => ch.Go? || ch.Fail?
       case Blocked(p, e) => ch.Fail? || (ch.Go? && (e < s.pools[p].epoch || !s.pools[p].running))
       case Leased(_, _) => ch.GiveBack?
       case Return(p, _) => ch.Go? && |s.pools[p].free| < s.pools[p].size
       case Ended => false
       case _ => ch.Go?
  }

  function NextPC(s: State, c: nat, ch: Choice): PC
    requires Enabled(s, c, ch)
  {
    match s.clients[c]
    case Start => if ch.Fail? then Ended else if ch.Replace? then Top(|s.pools|) else Top(s.current)
    case Top(p) => if ch.Fail? || !s.pools[p].running then Ended else Look(p)
    case Look(p) =>
      var pool := s.pools[p];
      if pool.free != [] then Took(p, pool.free[0])
      else if pool.created < pool.size then Numbering(p)
      else Blocked(p, pool.epoch)
    case Blocked(p, e) => if ch.Fail? || s.pools[p].epoch <= e then Ended else Top(p)
    case Took(p, g) => if s.pages[g].alive then Marking(p, g) else Retire(p, g, true)
    case Numbering(p) => Opening(p)
    case Opening(p) => if ch.Fail? then Unreserve(p) else Register(p, |s.pages|)
    case Unreserve(p) => Ended
    case Register(p, g) => Marking(p, g)
    case Marking(p, g) => Leased(p, g)
    case Leased(p, g) => Released(p, g, ch.healthy)
    case Released(p, g, healthy) => if healthy && s.pages[g].alive then Parking(p, g) else Retire(p, g, false)
    case Parking(p, g) => if ch.Go? && s.pages[g].alive then Return(p, g) else Retire(p, g, false)
    case Return(p, g) => Ended
    case Retire(p, g, again) => Unpool(p, g, again)
    case Unpool(p, g, again) => if again then Top(p) else Ended
  }

  /** The actions that call notifyLocked. */
  predicate Notifies(pc: PC) { pc.Unreserve? || pc.Return? || pc.Unpool? }

  predicate Reserves(pool: Pool, pc: PC) { pc.Look? && pool.free == [] && pool.created < pool.size }

  predicate Takes(pool: Pool, pc: PC) { pc.Look? && pool.free != [] }

  /** retire's loop: the list without the first occurrence of g. */
  function Without(s: seq<nat>, g: nat): seq<nat> {
    if s == [] then [] else if s[0] == g then s[1..] else [s[0]] + Without(s[1..], g)
  }

  /** The pool of a client after the client's action. */
  function NextPool(pool: Pool, pc: PC): Pool {
    Pool(
      pool.size,
      if pc.Register? then pool.pages + [pc.g] else if pc.Unpool? then Without(pool.pages, pc.g) else pool.pages,
      if Takes(pool, pc) then pool.free[1..] else if pc.Return? then pool.free + [pc.g] else pool.free,
      if Notifies(pc) then pool.epoch + 1 else pool.epoch,
      if pc.Numbering? then pool.nextId + 1 else pool.nextId,
      pool.created + Bit(Reserves(pool, pc)) - Bit(pc.Unreserve? || pc.Unpool?),
      pool.busy + Bit(pc.Marking?) - Bit(pc.Leased?),
      pool.retired + Bit(pc.Unpool?),
      pool.running)
  }

  function NextPools(s: State, c: nat, ch: Choice): seq<Pool>
    requires Enabled(s, c, ch)
  {
    var pc := s.clients[c];
    if pc.Start? && ch.Replace? then s.pools + [NewPool(ch.size)]
    else if PoolOf(pc).Some? then s.pools[pc.p := NextPool(s.pools[pc.p], pc)]
    else s.pools
  }

  function NextPages(s: State, c: nat, ch: Choice): seq<Page>
    requires Enabled(s, c, ch)
  {
    match s.clients[c]
    case Opening(p) => if ch.Fail? then s.pages else s.pages + [Page(p, true, 0, false)]
    case Released(_, g, healthy) =>
      if healthy && s.pages[g].alive then s.pages[g := s.pages[g].(uses := s.pages[g].uses + 1)] else s.pages
    case Retire(_, g, _) => s.pages[g := s.pages[g].(alive := false)]
    case Unpool(_, g, _) => s.pages[g := s.pages[g].(retired := true)]
    case _ => s.pages
  }

  function Step(s: State, c: nat, ch: Choice): State
    requires Enabled(s, c, ch)
  {
    State(
      s.clients[c := NextPC(s, c, ch)],
      NextPools(s, c, ch),
      NextPages(s, c, ch),
      if s.clients[c].Start? && ch.Replace? then |s.pools| else s.current)
  }

  // ---- runs ----

  datatype Event =
    | Move(c: nat, ch: Choice)
    | Die(g: nat)             // Chrome ends a tab
    | CloseAll(p: nat)        // closeAll takes the list of tabs
    | Stop(p: nat)            // the allocator of a generation ends

  predicate Possible(s: State, e: Event) {
    match e
    case Move(c, ch) => Enabled(s, c, ch)
    case Die(g) => g < |s.pages|
    case CloseAll(p) => p < |s.pools|
    case Stop(p) => p < |s.pools|
  }

  function Perform(s: State, e: Event): State
    requires Possible(s, e)
  {
    match e
    case Move(c, ch) => Step(s, c, ch)
    case Die(g) => s.(pages := s.pages[g := s.pages[g].(alive := false)])
    case CloseAll(p) => s.(pools := s.pools[p := s.pools[p].(pages := [])])
    case Stop(p) => s.(pools := s.pools[p := s.pools[p].(running := false)])
  }

  predicate Init(s: State) {
    && (forall c :: 0 <= c < |s.clients| ==> s.clients[c] == Start)
    && |s.pools| == 1 && s.pools[0] == NewPool(s.pools[0].size)
    && s.pages == [] && s.current == 0
  }

  predicate Runs(s: State, es: seq<Event>)
    decreases |es|
  {
    es == [] || (Possible(s, es[0]) && Runs(Perform(s, es[0]), es[1..]))
  }

  function After(s: State, es: seq<Event>): State
    requires Runs(s, es)
    decreases |es|
  {
    if es == [] then s else After(Perform(s, es[0]), es[1..])
  }

  ghost predicate Reachable(s: State) {
    exists s0, es :: Init(s0) && Runs(s0, es) && After(s0, es) == s
  }
}
