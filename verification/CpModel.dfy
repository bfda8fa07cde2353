/** The replicated lock and session machines of the CP group
    (crates/raft/src/fencedlock.rs, session.rs and cp.rs), as functions on
    values.  Integers are unbounded. */
module CpModel {

  type Name = string

  datatype LockState = LockState(fence: int, session: int, thread: int, count: int)

  datatype Locks = Locks(held: map<Name, LockState>, nextFence: int)

  /** `leases` maps a live session to its deadline on the logical clock. */
  datatype Sessions = Sessions(leases: map<int, int>, clock: int, nextId: int, nextThreadId: int)

  datatype Cp = Cp(locks: Locks, sessions: Sessions)

  const TTL_TICKS := 30

  /** Lock and TryLock are the same operation; `Other` stands for every command
      addressed to another kind of object and for bytes that do not decode. */
  datatype Op =
    | Lock(name: Name, session: int, thread: int)
    | Unlock(name: Name, session: int, thread: int)
    | Create
    | Heartbeat(id: int)
    | Close(id: int)
    | ClockTick
    | GenerateThreadId
    | Other

  datatype Reply = Long(value: int) | Bool(ok: bool) | Nil

  predicate IsHeld(l: Locks, name: Name) {
    name in l.held && l.held[name].count > 0
  }

  predicate HeldBy(l: Locks, name: Name, session: int, thread: int) {
    IsHeld(l, name) && l.held[name].session == session && l.held[name].thread == thread
  }

  /** The fence is 0 when another owner holds the lock. */
  function Acquire(l: Locks, name: Name, session: int, thread: int): (Locks, int) {
    if IsHeld(l, name) then
      if HeldBy(l, name, session, thread) then
        (l.(held := l.held[name := l.held[name].(count := l.held[name].count + 1)]), l.held[name].fence)
      else (l, 0)
    else
      var fence := l.nextFence + 1;
      (Locks(l.held[name := LockState(fence, session, thread, 1)], fence), fence)
  }

  function Release(l: Locks, name: Name, session: int, thread: int): (Locks, bool) {
    if HeldBy(l, name, session, thread) then
      var left := l.held[name].count - 1;
      (l.(held := if left == 0 then l.held - {name} else l.held[name := l.held[name].(count := left)]), true)
    else (l, false)
  }

  function ReleaseSession(l: Locks, session: int): Locks {
    l.(held := map name | name in l.held && l.held[name].session != session :: l.held[name])
  }

  /** All locks of all of `ids`, at once. */
  function ReleaseAll(l: Locks, ids: set<int>): Locks {
    l.(held := map name | name in l.held && l.held[name].session !in ids :: l.held[name])
  }

  function Expired(s: Sessions): set<int> {
    set id | id in s.leases && s.leases[id] <= s.clock + 1
  }

  function Advance(s: Sessions): Sessions {
    s.(clock := s.clock + 1, leases := s.leases - Expired(s))
  }

  function Apply(cp: Cp, op: Op): (Cp, Reply) {
    var s := cp.sessions;
    match op
    case Lock(name, session, thread) =>
      var (l, fence) := Acquire(cp.locks, name, session, thread);
      (cp.(locks := l), Long(fence))
    case Unlock(name, session, thread) =>
      var (l, ok) := Release(cp.locks, name, session, thread);
      (cp.(locks := l), Bool(ok))
    case Create =>
      var id := s.nextId + 1;
      (cp.(sessions := s.(nextId := id, leases := s.leases[id := s.clock + TTL_TICKS])), Long(id))
    case Heartbeat(id) =>
      (if id in s.leases then cp.(sessions := s.(leases := s.leases[id := s.clock + TTL_TICKS])) else cp, Nil)
    case Close(id) =>
      (Cp(ReleaseSession(cp.locks, id), s.(leases := s.leases - {id})), Bool(id in s.leases))
    case ClockTick => (Cp(ReleaseAll(cp.locks, Expired(s)), Advance(s)), Nil)
    case GenerateThreadId =>
      (cp.(sessions := s.(nextThreadId := s.nextThreadId + 1)), Long(s.nextThreadId + 1))
    case Other => (cp, Nil)
  }

  const FRESH := Cp(Locks(map[], 0), Sessions(map[], 0, 0, 0))

  /** The state after all of `ops`, in order. */
  function After(ops: seq<Op>): Cp
    decreases |ops|
  {
    if ops == [] then FRESH else Apply(After(ops[..|ops| - 1]), ops[|ops| - 1]).0
  }

  /** Releasing sessions one after the other, in any order and with repetitions. */
  function ReleaseEach(l: Locks, ids: seq<int>): Locks
    decreases |ids|
  {
    if ids == [] then l else ReleaseSession(ReleaseEach(l, ids[..|ids| - 1]), ids[|ids| - 1])
  }

  /** Releasing sessions commutes: the result depends only on which ids there are. */
  lemma {:induction false} ReleaseOrderIrrelevant(l: Locks, ids: seq<int>)
    ensures ReleaseEach(l, ids) == ReleaseAll(l, set id | id in ids)
    decreases |ids|
  {
    if ids == [] {
      assert ReleaseAll(l, {}).held == l.held;
    } else {
      var init, last := ids[..|ids| - 1], ids[|ids| - 1];
      ReleaseOrderIrrelevant(l, init);
      assert forall id :: id in ids <==> id in init || id == last;
      assert ReleaseEach(l, ids).held == ReleaseAll(l, set id | id in ids).held;
    }
  }
}
