/**
 The pool object of one generation: the sections that hold `p.mu`, as methods on the fields
 they update. Each is proved to be the transition system's action at that point.
 */
module PoolObject {
  import opened Pools
  import opened PoolSafety

  /** What the locked section of acquire found. */
  datatype Found = Idle(g: nat) | Room | Full(epoch: nat)

  datatype PoolStat = PoolStat(size: nat, created: int, busy: int, idle: nat, retired: int)

  lemma {:induction false} WithoutAt(s: seq<nat>, g: nat, i: nat)
    requires i <= |s| && g !in s[..i] && (i < |s| ==> s[i] == g)
    ensures Without(s, g) == if i < |s| then s[..i] + s[i + 1..] else s
  {
    if i > 0 {
      assert s[0] in s[..i];
      assert forall x :: x in s[1..][..i - 1] ==> x in s[..i];
      WithoutAt(s[1..], g, i - 1);
    }
  }

  class TabPool {
    const size: nat
    var pages: seq<nat>
    var free: seq<nat>
    var epoch: nat
    var nextId: nat
    var created: int
    var busy: int
    var retired: int
    var running: bool

    constructor (n: int)
      ensures View() == NewPool(n)
    {
      size := if n < 1 then 1 else n;
      pages, free, epoch, nextId := [], [], 0, 0;
      created, busy, retired, running := 0, 0, 0, true;
    }

    function View(): Pool
      reads this
    {
      Pool(size, pages, free, epoch, nextId, created, busy, retired, running)
    }

    /** stat: one consistent reading, and in every reachable state idle and busy tabs fit into those created. */
    method Stat() returns (st: PoolStat)
      ensures st == PoolStat(size, created, busy, |free|, retired)
      ensures forall s: State, p: nat :: Reachable(s) && p < |s.pools| && s.pools[p] == View()
                ==> 0 <= st.busy && st.idle + st.busy <= st.created <= st.size
    {
      forall s: State, p: nat | Reachable(s) && p < |s.pools| && s.pools[p] == View()
        ensures 0 <= busy && |free| + busy <= created <= size
      {
        StatBounds(s, p);
      }
      st := PoolStat(size, created, busy, |free|, retired);
    }

    /** notifyLocked: closes the current channel and puts a new one in its place. */
    method NotifyLocked()
      modifies this`epoch
      ensures epoch == old(epoch) + 1
    {
      epoch := epoch + 1;
    }

    /** 89-108: takes an idle tab, or reserves a creation slot, or captures the channel to wait on. */
    method Look() returns (found: Found)
      modifies this
      ensures View() == NextPool(old(View()), PC.Look(0))
      ensures found == if old(free) != [] then Idle(old(free)[0])
                       else if old(created) < size then Room
                       else Full(epoch)
    {
      if free != [] {
        found := Idle(free[0]);
        free := free[1..];
        return;
      }
      if created < size {
        created := created + 1;
        found := Room;
      } else {
        found := Full(epoch);
      }
    }

    /** 113-116: the reserved slot is given up. */
    method Unreserve()
      modifies this
      ensures View() == NextPool(old(View()), PC.Unreserve(0))
    {
      created := created - 1;
      NotifyLocked();
    }

    /** 154-157: the parked tab is idle again. The send finds room. */
    method Return(g: nat)
      requires |free| < size
      modifies this
      ensures View() == NextPool(old(View()), PC.Return(0, g))
      ensures |free| <= size
    {
      free := free + [g];
      NotifyLocked();
    }

    /** 172-182: the tab is gone, and its slot can be created anew. */
    method Unpool(g: nat)
      modifies this
      ensures View() == NextPool(old(View()), PC.Unpool(0, g, false))
    {
      created := created - 1;
      retired := retired + 1;
      Unlist(g);
      NotifyLocked();
    }

    /** 175-180: removes the first occurrence, if there is one. */
    method Unlist(g: nat)
      modifies this`pages
      ensures pages == Without(old(pages), g)
    {
      var i := 0;
      while i < |pages| && pages[i] != g
        invariant 0 <= i <= |pages|
        invariant g !in pages[..i]
      {
        i := i + 1;
      }
      WithoutAt(pages, g, i);
      if i < |pages| {
        pages := pages[..i] + pages[i + 1..];
      }
    }

    method MarkBusy(delta: int)
      modifies this`busy
      ensures busy == old(busy) + delta
      ensures delta == 1 ==> forall p, g :: View() == NextPool(old(View()), PC.Marking(p, g))
      ensures delta == -1 ==> forall p, g :: View() == NextPool(old(View()), PC.Leased(p, g))
    {
      busy := busy + delta;
    }

    /** newPage: a fresh label for the tab. */
    method TakeId() returns (id: nat)
      modifies this`nextId
      ensures View() == NextPool(old(View()), PC.Numbering(0))
      ensures id == nextId > old(nextId)
    {
      nextId := nextId + 1;
      id := nextId;
    }

    /** newPage: lists the tab, so that closeAll can find it. */
    method List(g: nat)
      modifies this`pages
      ensures View() == NextPool(old(View()), PC.Register(0, g))
    {
      pages := pages + [g];
    }

    /** closeAll: hands over the list of tabs to cancel. */
    method TakeAll() returns (all: seq<nat>)
      modifies this`pages
      ensures all == old(pages)
      ensures forall s: State, p: nat :: p < |s.pools| && s.pools[p] == old(View())
                ==> Perform(s, CloseAll(p)) == s.(pools := s.pools[p := View()])
    {
      all := pages;
      pages := [];
    }
  }
}
