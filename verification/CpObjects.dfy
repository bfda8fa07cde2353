/** The same machines as the objects the CP group drives: fields updated in place
    by each operation. */
module CpObjects {
  import opened Basics
  import opened CpModel
  import opened Sets

  class FencedLockSm {
    var locks: map<Name, LockState>
    var nextFence: int

    function View(): Locks
      reads this
    {
      Locks(locks, nextFence)
    }

    constructor ()
      ensures View() == FRESH.locks
    {
      locks, nextFence := map[], 0;
    }

    method Acquire(name: Name, session: int, thread: int) returns (fence: int)
      modifies this
      ensures View() == CpModel.Acquire(old(View()), name, session, thread).0
      ensures fence == CpModel.Acquire(old(View()), name, session, thread).1
    {
      if name in locks && locks[name].count > 0 {
        if locks[name].session == session && locks[name].thread == thread {
          locks := locks[name := locks[name].(count := locks[name].count + 1)];
          fence := locks[name].fence;
        } else {
          fence := 0;
        }
      } else {
        nextFence := nextFence + 1;
        locks := locks[name := LockState(nextFence, session, thread, 1)];
        fence := nextFence;
      }
    }

    method Release(name: Name, session: int, thread: int) returns (ok: bool)
      modifies this
      ensures View() == CpModel.Release(old(View()), name, session, thread).0
      ensures ok == CpModel.Release(old(View()), name, session, thread).1
    {
      ok := name in locks && locks[name].count > 0 && locks[name].session == session && locks[name].thread == thread;
      if ok {
        var left := locks[name].count - 1;
        if left == 0 {
          locks := locks - {name};
        } else {
          locks := locks[name := locks[name].(count := left)];
        }
      }
    }

    method ReleaseSession(session: int)
      modifies this
      ensures View() == CpModel.ReleaseSession(old(View()), session)
    {
      locks := map name | name in locks && locks[name].session != session :: locks[name];
    }
  }

  /** The sessions whose deadline has come, in whatever order the hash map yields them. */
  method ExpiredAt(sessions: map<int, int>, now: int) returns (expired: seq<int>)
    ensures forall id :: id in expired <==> id in sessions && sessions[id] <= now
    ensures Distinct(expired)
  {
    expired := [];
    var left := sessions;
    while left.Keys != {}
      invariant forall id :: id in left ==> id in sessions && left[id] == sessions[id]
      invariant forall id :: id in expired <==> id in sessions && id !in left && sessions[id] <= now
      invariant Distinct(expired)
      decreases |left|
    {
      var id := AnyOf(left.Keys);
      if left[id] <= now {
        assert id !in expired;
        expired := expired + [id];
      }
      left := left - {id};
    }
  }

  class SessionSm {
    var sessions: map<int, int>
    var clock: int
    var nextId: int
    var nextThreadId: int

    function View(): Sessions
      reads this
    {
      Sessions(sessions, clock, nextId, nextThreadId)
    }

    constructor ()
      ensures View() == FRESH.sessions
    {
      sessions, clock, nextId, nextThreadId := map[], 0, 0, 0;
    }

    method Create() returns (id: int)
      modifies this
      ensures id == old(nextId) + 1
      ensures View() == old(View()).(nextId := id, leases := old(sessions)[id := old(clock) + TTL_TICKS])
    {
      nextId := nextId + 1;
      id := nextId;
      sessions := sessions[id := clock + TTL_TICKS];
    }

    method Heartbeat(id: int) returns (ok: bool)
      modifies this
      ensures ok == (id in old(sessions))
      ensures View() == if ok then old(View()).(leases := old(sessions)[id := old(clock) + TTL_TICKS]) else old(View())
    {
      ok := id in sessions;
      if ok {
        sessions := sessions[id := clock + TTL_TICKS];
      }
    }

    method Close(id: int) returns (ok: bool)
      modifies this
      ensures ok == (id in old(sessions)) && View() == old(View()).(leases := old(sessions) - {id})
    {
      ok := id in sessions;
      sessions := sessions - {id};
    }

    /** Moves the clock, drops the expired sessions and returns their ids. */
    method Tick() returns (expired: seq<int>)
      modifies this
      ensures View() == Advance(old(View()))
      ensures (set id | id in expired) == Expired(old(View())) && Distinct(expired)
    {
      clock := clock + 1;
      expired := ExpiredAt(sessions, clock);
      assert forall id :: id in expired <==> id in Expired(old(View()));
      for k := 0 to |expired|
        invariant clock == old(clock) + 1 && nextId == old(nextId) && nextThreadId == old(nextThreadId)
        invariant sessions == old(sessions) - (set i | i in expired[..k])
      {
        assert expired[..k + 1] == expired[..k] + [expired[k]];
        sessions := sessions - {expired[k]};
      }
      assert expired[..|expired|] == expired;
      assert (set id | id in expired) == Expired(old(View()));
    }

    method GenerateThreadId() returns (id: int)
      modifies this
      ensures id == old(nextThreadId) + 1 && View() == old(View()).(nextThreadId := id)
    {
      nextThreadId := nextThreadId + 1;
      id := nextThreadId;
    }
  }

  class CpSm {
    const fencedLock: FencedLockSm
    const sessions: SessionSm

    function View(): Cp
      reads this, fencedLock, sessions
    {
      Cp(fencedLock.View(), sessions.View())
    }

    constructor ()
      ensures View() == FRESH && fresh(fencedLock) && fresh(sessions)
    {
      fencedLock := new FencedLockSm();
      sessions := new SessionSm();
    }

    /** The state after a command does not depend on the order in which the hash
        map lists expired sessions. */
    method Apply(op: Op) returns (reply: Reply)
      modifies fencedLock, sessions
      ensures View() == CpModel.Apply(old(View()), op).0 && reply == CpModel.Apply(old(View()), op).1
    {
      match op {
        case Lock(name, session, thread) =>
          var fence := fencedLock.Acquire(name, session, thread);
          reply := Long(fence);
        case Unlock(name, session, thread) =>
          var ok := fencedLock.Release(name, session, thread);
          reply := Bool(ok);
        case Create =>
          var id := sessions.Create();
          reply := Long(id);
        case Heartbeat(id) =>
          var ok := sessions.Heartbeat(id);
          reply := Nil;
        case Close(id) =>
          var existed := sessions.Close(id);
          fencedLock.ReleaseSession(id);
          reply := Bool(existed);
        case ClockTick =>
          ApplyTick();
          reply := Nil;
        case GenerateThreadId =>
          var id := sessions.GenerateThreadId();
          reply := Long(id);
        case Other =>
          reply := Nil;
      }
    }

    method ApplyTick()
      modifies fencedLock, sessions
      ensures View() == CpModel.Apply(old(View()), ClockTick).0
    {
      var expired := sessions.Tick();
      for k := 0 to |expired|
        invariant sessions.View() == Advance(old(sessions.View()))
        invariant fencedLock.View() == ReleaseEach(old(fencedLock.View()), expired[..k])
      {
        assert expired[..k + 1][..k] == expired[..k];
        fencedLock.ReleaseSession(expired[k]);
      }
      assert expired[..|expired|] == expired;
      ReleaseOrderIrrelevant(old(fencedLock.View()), expired);
    }
  }
}
