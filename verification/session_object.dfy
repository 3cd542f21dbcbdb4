/**
 The session manager (internal/session/session.go): its lock-held sections as methods on the
 fields they update. Each is proved to be the transition system's action at that point.
 */
module SessionObject {
  import opened Common
  import opened SessionLease

  class Manager {
    const max: nat
    var nextId: nat
    var sessions: map<nat, nat>
    var objs: seq<Session>

    constructor (maxSessions: nat)
      ensures max == maxSessions && nextId == 0 && sessions == map[] && objs == []
    {
      max := maxSessions;
      nextId, sessions, objs := 0, map[], [];
    }

    /** What the transition system calls this object's fields. */
    ghost predicate Shows(s: State)
      reads this
    {
      s.max == max && s.nextId == nextId && s.sessions == sessions && s.objs == objs
    }

    /** Lines 134-141: the limit is checked and an id is taken. */
    method Reserve() returns (id: Option<nat>)
      modifies this`nextId
      ensures forall s: State, c: nat :: old(Shows(s)) && Enabled(s, c, Go) && s.threads[c].Opening?
                ==> Shows(Step(s, c, Go)) && NextThread(s, c, Go) == if id.Some? then Acquiring(id.value) else Ended
      ensures id.Some? <==> |sessions| < max
    {
      if |sessions| >= max {
        return None;
      }
      nextId := nextId + 1;
      id := Some(nextId);
    }

    /** Lines 143-151: a tab was leased and its session object made. */
    method Lease() returns (o: nat)
      modifies this`objs
      ensures forall s: State, c: nat :: old(Shows(s)) && Enabled(s, c, Go) && s.threads[c].Acquiring?
                ==> Shows(Step(s, c, Go)) && NextThread(s, c, Go) == Inserting(s.threads[c].id, o)
      ensures o < |objs|
    {
      o := |objs|;
      objs := objs + [Session(false, 0)];
    }

    /** Lines 152-154. */
    method Insert(id: nat, o: nat)
      modifies this`sessions
      ensures forall s: State, c: nat :: old(Shows(s)) && Enabled(s, c, Go) && s.threads[c] == Inserting(id, o) ==> Shows(Step(s, c, Go))
      ensures sessions == old(sessions)[id := o]
    {
      sessions := sessions[id := o];
    }

    /** Lines 170-177: Close finds the session and takes it out of the map. */
    method Take(id: nat) returns (o: Option<nat>)
      modifies this`sessions
      ensures forall s: State, c: nat :: old(Shows(s)) && Enabled(s, c, Go) && s.threads[c] == Closing(id)
                ==> Shows(Step(s, c, Go)) && NextThread(s, c, Go) == if o.Some? then Shutting([o.value]) else Ended
      ensures o == if id in old(sessions) then Some(old(sessions)[id]) else None
    {
      if id !in sessions {
        return None;
      }
      o := Some(sessions[id]);
      sessions := sessions - {id};
    }

    /** Lines 193-207: Reap takes every session out that is idle for too long and not held, in any order. */
    method TakeExpired(idle: nat -> bool) returns (expired: seq<nat>, ghost ids: seq<nat>)
      modifies this`sessions
      ensures forall s: State, c: nat :: old(Shows(s)) && c < |s.threads| && s.threads[c].Reaping?
                ==> Enabled(s, c, Expired(ids)) && Shows(Step(s, c, Expired(ids)))
                    && NextThread(s, c, Expired(ids)) == Shutting(expired)
      ensures forall id :: id in ids <==> id in old(sessions) && idle(id)
      ensures Distinct(ids) && expired == ObjectsOf(old(sessions), ids)
      ensures sessions == old(sessions) - (set id | id in ids)
    {
      expired, ids := [], [];
      ghost var start := sessions;
      var todo := sessions.Keys;
      while todo != {}
        invariant todo <= sessions.Keys
        invariant forall id :: id in ids <==> id in start && id !in todo && idle(id)
        invariant Distinct(ids) && expired == ObjectsOf(start, ids)
        invariant forall id :: id in sessions <==> id in start && id !in ids
        invariant forall id :: id in sessions ==> sessions[id] == start[id]
        decreases |todo|
      {
        var id :| id in todo;
        todo := todo - {id};
        if idle(id) {
          expired := expired + [sessions[id]];
          ids := ids + [id];
          sessions := sessions - {id};
        }
      }
      assert sessions == start - (set id | id in ids);
    }

    /** Lines 215-222: only the first caller goes on to park the tab and release it. */
    method StartClosing(o: nat) returns (first: bool)
      requires o < |objs|
      modifies this`objs
      ensures forall s: State, c: nat :: old(Shows(s)) && Enabled(s, c, Go) && s.threads[c].Shutting?
                             && s.threads[c].todo != [] && s.threads[c].todo[0] == o
                ==> Shows(Step(s, c, Go))
                    && NextThread(s, c, Go) == if first then Parking(o, s.threads[c].todo[1..]) else Shutting(s.threads[c].todo[1..])
      ensures first <==> !old(objs)[o].closing
    {
      if objs[o].closing {
        return false;
      }
      objs := objs[o := objs[o].(closing := true)];
      first := true;
    }

    /** Line 231. */
    method Release(o: nat)
      requires o < |objs|
      modifies this`objs
      ensures forall s: State, c: nat :: old(Shows(s)) && Enabled(s, c, Go) && s.threads[c].Releasing? && s.threads[c].o == o
                ==> Shows(Step(s, c, Go))
      ensures objs == old(objs)[o := old(objs)[o].(released := old(objs)[o].released + 1)]
    {
      objs := objs[o := objs[o].(released := objs[o].released + 1)];
    }
  }
}
