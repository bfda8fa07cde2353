/** What holds over every sequence of committed CP commands: fences, re-entry, the
    life of a session and the end of its locks. */
module CpRuns {
  import opened CpModel

  function ReplyAt(ops: seq<Op>, k: nat): Reply
    requires k < |ops|
  {
    Apply(After(ops[..k]), ops[k]).1
  }

  /** Command `k` takes a free lock. */
  predicate Takes(ops: seq<Op>, k: nat) {
    k < |ops| && ops[k].Lock? && !IsHeld(After(ops[..k]).locks, ops[k].name)
  }

  predicate Live(cp: Cp, id: int) {
    id in cp.sessions.leases
  }

  /** No lock is held in the name of session `id`. */
  ghost predicate NoLockOf(cp: Cp, id: int) {
    forall name :: name in cp.locks.held ==> cp.locks.held[name].session != id
  }

  /** After each of the first `n` commands from number `j` on, `name` is held with
      the owner and fence of `h`. */
  ghost predicate HeldThrough(ops: seq<Op>, name: Name, h: LockState, j: nat, n: nat)
    requires n <= |ops|
  {
    forall i {:trigger HeldAfter(ops, name, h, i)} :: j < i <= n ==> HeldAfter(ops, name, h, i)
  }

  predicate HeldAfter(ops: seq<Op>, name: Name, h: LockState, i: nat)
    requires i <= |ops|
  {
    var l := After(ops[..i]).locks;
    HeldBy(l, name, h.session, h.thread) && l.held[name].fence == h.fence
  }

  lemma AfterStep(ops: seq<Op>, k: nat)
    requires k < |ops|
    ensures After(ops[..k + 1]) == Apply(After(ops[..k]), ops[k]).0
  {
    assert ops[..k + 1][..k] == ops[..k];
  }

  // ---------- fences ----------

  ghost predicate FencesOk(l: Locks) {
    && l.nextFence >= 0
    && forall name :: name in l.held ==> l.held[name].count > 0 && 1 <= l.held[name].fence <= l.nextFence
  }

  lemma {:induction false} FencesStayOk(ops: seq<Op>)
    ensures FencesOk(After(ops).locks)
    decreases |ops|
  {
    if ops != [] { FencesStayOk(ops[..|ops| - 1]); }
  }

  lemma {:induction false} FenceSourceGrows(ops: seq<Op>, j: nat, k: nat)
    requires j <= k <= |ops|
    ensures After(ops[..j]).locks.nextFence <= After(ops[..k]).locks.nextFence
    decreases k - j
  {
    if j < k {
      FenceSourceGrows(ops, j, k - 1);
      AfterStep(ops, k - 1);
    }
  }

  /** A fence handed out for a free lock is above every fence any lock operation
      returned before it, whatever the lock names. */
  lemma FencesIncrease(ops: seq<Op>, j: nat, k: nat)
    requires j < k && Takes(ops, k) && ops[j].Lock?
    ensures ReplyAt(ops, j).Long? && ReplyAt(ops, k).Long? && 0 <= ReplyAt(ops, j).value < ReplyAt(ops, k).value
  {
    FencesStayOk(ops[..j]);
    AfterStep(ops, j);
    FenceSourceGrows(ops, j + 1, k);
  }

  /** A held lock goes back to the command that took it when it was free; its owner
      and fence have been the same ever since, and the fence is that command's reply. */
  lemma {:induction false} HoldStart(ops: seq<Op>, name: Name) returns (j: nat)
    requires IsHeld(After(ops).locks, name)
    ensures var h := After(ops).locks.held[name];
            && Takes(ops, j)
            && ops[j] == Lock(name, h.session, h.thread)
            && ReplyAt(ops, j) == Long(h.fence)
            && HeldThrough(ops, name, h, j, |ops|)
    decreases |ops|
  {
    var n := |ops| - 1;
    var init, last, h := ops[..n], ops[n], After(ops).locks.held[name];
    assert ops[..|ops|] == ops;
    AfterStep(ops, n);
    if last.Lock? && last.name == name && !IsHeld(After(init).locks, name) {
      j := n;
    } else {
      StillHeld(After(init), last, name);
      j := HoldStart(init, name);
      assert init[..j] == ops[..j];
      forall i | j < i <= |ops| ensures HeldAfter(ops, name, h, i) {
        if i <= n {
          assert init[..i] == ops[..i];
          assert HeldAfter(init, name, After(init).locks.held[name], i);
        }
      }
    }
  }

  /** A lock held after a command that did not take it was held before, with the
      same owner and fence. */
  lemma StillHeld(cp: Cp, op: Op, name: Name)
    requires IsHeld(Apply(cp, op).0.locks, name)
    requires !(op.Lock? && op.name == name && !IsHeld(cp.locks, name))
    ensures var h := Apply(cp, op).0.locks.held[name];
            HeldBy(cp.locks, name, h.session, h.thread) && cp.locks.held[name].fence == h.fence
  {
  }

  /** Re-entering returns the fence the holder already has. */
  lemma ReentryKeepsFence(ops: seq<Op>, k: nat) returns (j: nat)
    requires k < |ops| && ops[k].Lock? && HeldBy(After(ops[..k]).locks, ops[k].name, ops[k].session, ops[k].thread)
    ensures j < k && Takes(ops, j) && ops[j] == ops[k] && ReplyAt(ops, k) == ReplyAt(ops, j)
  {
    j := HoldStart(ops[..k], ops[k].name);
    assert ops[..k][..j] == ops[..j];
  }

  // ---------- sessions ----------

  datatype Lease = Gone | Ticks(n: nat)

  function Creates(ops: seq<Op>): nat
    decreases |ops|
  {
    if ops == [] then 0 else Creates(ops[..|ops| - 1]) + if ops[|ops| - 1].Create? then 1 else 0
  }

  /** The reference: a session is the id-th one created, and lives while it has not
      been closed and fewer than 30 ticks have passed since it was created or
      last renewed while alive. */
  function LeaseOf(ops: seq<Op>, id: int): Lease
    decreases |ops|
  {
    if ops == [] then Gone
    else
      var init, last := ops[..|ops| - 1], ops[|ops| - 1];
      var before := LeaseOf(init, id);
      if last.Create? then (if Creates(ops) == id then Ticks(0) else before)
      else if last == Heartbeat(id) then (if before.Gone? then Gone else Ticks(0))
      else if last == Close(id) then Gone
      else if last.ClockTick? then (if before.Gone? || before.n + 1 >= TTL_TICKS then Gone else Ticks(before.n + 1))
      else before
  }

  /** The machine's deadlines are the reference's leases, for every id. */
  lemma {:induction false} SessionLife(ops: seq<Op>, id: int)
    ensures var s := After(ops).sessions;
            && s.nextId == Creates(ops)
            && (id in s.leases <==> LeaseOf(ops, id).Ticks?)
            && (id in s.leases ==>
                  s.leases[id] == s.clock + TTL_TICKS - LeaseOf(ops, id).n && LeaseOf(ops, id).n < TTL_TICKS)
    decreases |ops|
  {
    if ops != [] { SessionLife(ops[..|ops| - 1], id); }
  }

  /** A session ends by being closed or at exactly the 30th tick since its last
      renewal, and no lock of that session outlives that command. */
  lemma SessionEnds(ops: seq<Op>, k: nat, id: int)
    requires k < |ops| && Live(After(ops[..k]), id)
    ensures !Live(After(ops[..k + 1]), id) <==>
            ops[k] == Close(id) || (ops[k] == ClockTick && LeaseOf(ops[..k], id) == Ticks(TTL_TICKS - 1))
    ensures !Live(After(ops[..k + 1]), id) ==> NoLockOf(After(ops[..k + 1]), id)
  {
    SessionLife(ops[..k], id);
    AfterStep(ops, k);
  }

  lemma {:induction false} LiveWhileHeld(ops: seq<Op>, name: Name, h: LockState, j: nat, i: nat)
    requires j <= i <= |ops| && Live(After(ops[..j]), h.session) && HeldThrough(ops, name, h, j, |ops|)
    ensures Live(After(ops[..i]), h.session)
    decreases i
  {
    if j < i {
      LiveWhileHeld(ops, name, h, j, i - 1);
      SessionEnds(ops, i - 1, h.session);
      assert HeldAfter(ops, name, h, i);
    }
  }

  /** A session that has ended stays ended: ids are never handed out twice. */
  lemma {:induction false} EndedStaysEnded(ops: seq<Op>, j: nat, id: int)
    requires j <= |ops| && id <= Creates(ops[..j]) && !Live(After(ops[..j]), id)
    ensures !Live(After(ops), id) && id <= Creates(ops)
    decreases |ops|
  {
    if j == |ops| {
      assert ops[..j] == ops;
    } else {
      var init := ops[..|ops| - 1];
      assert init[..j] == ops[..j];
      EndedStaysEnded(init, j, id);
      SessionLife(init, id);
    }
  }

  /** Ids above the number of creations are nobody's yet. */
  lemma {:induction false} UncreatedIsGone(ops: seq<Op>, id: int)
    requires Creates(ops) < id
    ensures LeaseOf(ops, id).Gone?
    decreases |ops|
  {
    if ops != [] { UncreatedIsGone(ops[..|ops| - 1], id); }
  }

  /** The moment session `id` is created, and is live. */
  lemma {:induction false} CreatedAt(ops: seq<Op>, j: nat, id: int) returns (k: nat)
    requires j <= |ops| && Creates(ops[..j]) < id <= Creates(ops)
    ensures j < k <= |ops| && Live(After(ops[..k]), id)
    decreases |ops|
  {
    assert ops[..|ops|] == ops;
    var init := ops[..|ops| - 1];
    assert init[..j] == ops[..j];
    if id <= Creates(init) {
      k := CreatedAt(init, j, id);
      assert init[..k] == ops[..k];
    } else {
      k := |ops|;
      SessionLife(ops, id);
    }
  }

  /** Exactly when the holder of a lock has a live session: it was live when the
      lock was taken, or was created while the lock was held. */
  lemma HolderIsLiveIff(ops: seq<Op>, name: Name) returns (j: nat)
    requires IsHeld(After(ops).locks, name)
    ensures Takes(ops, j) && ops[j].name == name && ops[j].session == After(ops).locks.held[name].session
    ensures var id := ops[j].session;
            Live(After(ops), id) <==>
            Live(After(ops[..j]), id) || Creates(ops[..j]) < id <= Creates(ops)
  {
    j := HoldStart(ops, name);
    var h := After(ops).locks.held[name];
    var id := h.session;
    assert ops[..|ops|] == ops;
    if Live(After(ops[..j]), id) {
      LiveWhileHeld(ops, name, h, j, |ops|);
    } else if id <= Creates(ops[..j]) {
      EndedStaysEnded(ops, j, id);
    } else if id <= Creates(ops) {
      var k := CreatedAt(ops, j, id);
      forall i | k < i <= |ops| ensures HeldAfter(ops, name, h, i) { assert j < i; }
      LiveWhileHeld(ops, name, h, k, |ops|);
    } else {
      UncreatedIsGone(ops, id);
      SessionLife(ops, id);
    }
  }

  /** A lock held by a session that never existed: acquiring does not look. */
  lemma HoldingNeedsNoSession(name: Name)
    ensures var cp := After([Lock(name, 7, 1)]);
            HeldBy(cp.locks, name, 7, 1) && !Live(cp, 7)
  {
    assert [Lock(name, 7, 1)][..0] == [];
  }
}
