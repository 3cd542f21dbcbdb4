/** Counting callers by program counter. */
module SchedulerTally {
  import opened Common
  import opened Tally
  import opened Scheduler

  /** What is counted; data, so that one lemma serves all counts. */
  datatype Count =
    | Slots                // holds an element of s.slots
    | Tokens(host: nat)    // holds the token of this object
    | Queued               // between mark(hs, +1, 0) and mark(hs, -1, 0)
    | QueuedOn(host: nat)
    | Inside               // between mark(hs, 0, +1) and mark(hs, 0, -1)
    | InsideOn(host: nat)
    | Leaders              // registered a call, whether finished or not
    | Uncounted            // leads a call whose outcome no counter shows yet
    | Succeeded            // carries or has returned a result without an error
    | Followers            // joined a call, whether finished or not
    | Work                 // an upper bound of the actions still to come

  predicate HoldsSlot(pc: PC) {
    pc.Slotted? || pc.Starting? || pc.Enter? || pc.Running? || pc.Finished? || pc.Record? || pc.Publish? || pc.GiveSlot?
  }

  predicate HoldsToken(pc: PC) {
    || HoldsSlot(pc) || pc.Gated? || pc.ReadLast? || pc.Decide? || pc.Cool? || pc.Sleep? || pc.Awake?
    || pc.SlotEnter? || pc.SlotWait? || pc.SlotMissed? || pc.GiveToken?
    || ((pc.Timeout? || pc.Fail?) && pc.held)
  }

  predicate IsQueued(pc: PC) {
    || pc.TokenWait? || pc.TokenMissed? || pc.Gated? || pc.Sleep? || pc.Awake?
    || pc.SlotWait? || pc.SlotMissed? || pc.Slotted?
  }

  predicate IsInside(pc: PC) { pc.Enter? || pc.Running? || pc.Finished? }

  predicate IsFollower(pc: PC) { pc.Follow? || pc.Shared? || pc.GaveUp? }

  predicate IsLeader(pc: PC) { !pc.Ready? && !IsFollower(pc) }

  /** A leader whose key is registered in inflight. */
  predicate IsListed(pc: PC) { IsLeader(pc) && !pc.Close? && !pc.Returned? }

  predicate IsUncounted(pc: PC) {
    IsListed(pc) && !pc.Publish? && !pc.GiveSlot? && !pc.Fail? && !pc.GiveToken? && !pc.Unlist?
  }

  /** A leader whose call is over without an error, from the moment the counters show it. */
  predicate IsSucceeded(pc: PC) {
    (pc.Publish? || pc.GiveSlot? || pc.GiveToken? || pc.Unlist? || pc.Close? || pc.Returned?) && pc.r.err.None?
  }

  /** Falls with every action of a caller. */
  function Rank(pc: PC): nat {
    match pc
    case Ready => 28
    case Follow(_) => 1
    case Lead => 27
    case Hosted(_) => 26
    case TokenWait(_) => 25
    case TokenMissed(_, _) => 8
    case Gated(_) => 24
    case ReadLast(_) => 23
    case Decide(_, _) => 22
    case Cool(_, _) => 21
    case Sleep(_, _) => 20
    case Awake(_, _) => 19
    case SlotEnter(_) => 18
    case SlotWait(_) => 17
    case SlotMissed(_, _) => 8
    case Slotted(_) => 16
    case Starting(_) => 15
    case Enter(_) => 14
    case Running(_) => 13
    case Finished(_, _) => 12
    case Record(_, _) => 11
    case Publish(_, _) => 10
    case GiveSlot(_, _) => 9
    case Timeout(_, _, _) => 7
    case Fail(_, _, _) => 6
    case GiveToken(_, _) => 5
    case Unlist(_) => 4
    case Close(_) => 3
    case Returned(_) | Shared(_, _) | GaveUp(_) => 0
  }

  predicate On(pc: PC, h: nat) { HostOf(pc) == Some(h) }

  function Weight(t: Count, pc: PC): (w: int)
    ensures 0 <= w
  {
    match t
    case Slots => Bit(HoldsSlot(pc))
    case Tokens(h) => Bit(HoldsToken(pc) && On(pc, h))
    case Queued => Bit(IsQueued(pc))
    case QueuedOn(h) => Bit(IsQueued(pc) && On(pc, h))
    case Inside => Bit(IsInside(pc))
    case InsideOn(h) => Bit(IsInside(pc) && On(pc, h))
    case Leaders => Bit(IsLeader(pc))
    case Uncounted => Bit(IsUncounted(pc))
    case Succeeded => Bit(IsSucceeded(pc))
    case Followers => Bit(IsFollower(pc))
    case Work => Rank(pc)
  }

  function Of(t: Count): Caller -> int { (c: Caller) => Weight(t, c.pc) }

  function Total(t: Count, cs: seq<Caller>): (n: int)
    ensures 0 <= n
  {
    SumNatural(Of(t), cs);
    Sum(Of(t), cs)
  }

  /** What moving one caller does to every count at once. */
  lemma TotalsUpdate(cs: seq<Caller>, c: nat, me: Caller)
    requires c < |cs|
    ensures forall t :: Total(t, cs[c := me]) + Weight(t, cs[c].pc) == Total(t, cs) + Weight(t, me.pc)
  {
    forall t ensures Total(t, cs[c := me]) + Weight(t, cs[c].pc) == Total(t, cs) + Weight(t, me.pc) {
      SumUpdate(Of(t), cs, c, me);
    }
  }

  // ---- sums over the host objects ----

  datatype Field = FieldQueued | FieldInflight | FieldTotal

  function Get(f: Field, o: HostState): int {
    match f
    case FieldQueued => o.queued
    case FieldInflight => o.inflight
    case FieldTotal => o.total
  }

  function GetOf(f: Field): HostState -> int { (o: HostState) => Get(f, o) }

  function SumOver(f: Field, objs: seq<HostState>): int { Sum(GetOf(f), objs) }
}
