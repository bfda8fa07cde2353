/** The lock table and the replies of the CP machine, read off the history of its
    commands by counting them. */
module CpHolds {
  import opened CpModel
  import opened CpRuns

  /** How often `op` occurs among the commands from number `j` on. */
  function Tally(ops: seq<Op>, j: nat, op: Op): nat
    requires j <= |ops|
    decreases |ops|
  {
    if |ops| == j then 0 else Tally(ops[..|ops| - 1], j, op) + if ops[|ops| - 1] == op then 1 else 0
  }

  /** The number of commands so far that took a free lock. */
  function Grants(ops: seq<Op>): nat
    decreases |ops|
  {
    if ops == [] then 0 else Grants(ops[..|ops| - 1]) + if Takes(ops, |ops| - 1) then 1 else 0
  }

  /** Locks minus unlocks, by the taker of command `j`, from `j` to before `n`. */
  function Holds(ops: seq<Op>, j: nat, n: nat): int
    requires j < n <= |ops| && ops[j].Lock?
  {
    Tally(ops[..n], j, ops[j]) - Tally(ops[..n], j, Unlock(ops[j].name, ops[j].session, ops[j].thread))
  }

  /** Command `k` ends the hold that command `j` began: the taker's unlock that evens
      out its locks, the close of its session, or the tick that expires it. */
  predicate Ends(ops: seq<Op>, j: nat, k: nat)
    requires j < k < |ops| && ops[j].Lock?
  {
    var id := ops[j].session;
    || (ops[k] == Unlock(ops[j].name, id, ops[j].thread) && Holds(ops, j, k + 1) == 0)
    || ops[k] == Close(id)
    || (ops[k] == ClockTick && LeaseOf(ops[..k], id) == Ticks(TTL_TICKS - 1))
  }

  ghost predicate Unended(ops: seq<Op>, j: nat, n: nat)
    requires j < n <= |ops| && ops[j].Lock?
  {
    forall k {:trigger Ends(ops, j, k)} :: j < k < n ==> !Ends(ops, j, k)
  }

  lemma TallyStep(ops: seq<Op>, j: nat, k: nat, op: Op)
    requires j <= k < |ops|
    ensures Tally(ops[..k + 1], j, op) == Tally(ops[..k], j, op) + if ops[k] == op then 1 else 0
  {
    assert ops[..k + 1][..k] == ops[..k];
  }

  lemma HoldsStep(ops: seq<Op>, j: nat, k: nat)
    requires j < k < |ops| && ops[j].Lock?
    ensures var undo := Unlock(ops[j].name, ops[j].session, ops[j].thread);
            Holds(ops, j, k + 1) ==
            Holds(ops, j, k) + if ops[k] == ops[j] then 1 else if ops[k] == undo then -1 else 0
  {
    TallyStep(ops, j, k, ops[j]);
    TallyStep(ops, j, k, Unlock(ops[j].name, ops[j].session, ops[j].thread));
  }

  /** The tick expires a session exactly at the reference's thirtieth. */
  lemma ExpiresIff(ops: seq<Op>, k: nat, id: int)
    requires k < |ops|
    ensures id in Expired(After(ops[..k]).sessions) <==> LeaseOf(ops[..k], id) == Ticks(TTL_TICKS - 1)
  {
    SessionLife(ops[..k], id);
  }

  /** While nothing has ended the hold, the table has it: the taker's, with the
      fence it was answered and the count the history gives. */
  lemma {:induction false} Holding(ops: seq<Op>, j: nat, n: nat)
    requires j < n <= |ops| && Takes(ops, j) && Unended(ops, j, n)
    ensures 0 < Holds(ops, j, n)
    ensures var op, held := ops[j], After(ops[..n]).locks.held;
            && op.name in held
            && ReplyAt(ops, j) == Long(held[op.name].fence)
            && held[op.name] == LockState(held[op.name].fence, op.session, op.thread, Holds(ops, j, n))
    decreases n
  {
    var k := n - 1;
    AfterStep(ops, k);
    if k == j {
      TallyStep(ops, j, j, ops[j]);
      TallyStep(ops, j, j, Unlock(ops[j].name, ops[j].session, ops[j].thread));
    } else {
      Holding(ops, j, k);
      HoldsStep(ops, j, k);
      ExpiresIff(ops, k, ops[j].session);
      assert !Ends(ops, j, k);
    }
  }

  /** What ends a hold frees the lock. */
  lemma Freed(ops: seq<Op>, j: nat, k: nat)
    requires j < k < |ops| && Takes(ops, j) && Unended(ops, j, k) && Ends(ops, j, k)
    ensures ops[j].name !in After(ops[..k + 1]).locks.held
  {
    Holding(ops, j, k);
    HoldsStep(ops, j, k);
    AfterStep(ops, k);
    ExpiresIff(ops, k, ops[j].session);
  }

  lemma {:induction false} HeldIsUnended(ops: seq<Op>, j: nat, name: Name, n: nat)
    requires j < n <= |ops| && Takes(ops, j) && ops[j].name == name
    requires forall i :: j < i <= |ops| ==> IsHeld(After(ops[..i]).locks, name)
    ensures Unended(ops, j, n)
    decreases n
  {
    if j + 1 < n {
      HeldIsUnended(ops, j, name, n - 1);
      if Ends(ops, j, n - 1) { Freed(ops, j, n - 1); }
    }
  }

  /** Exactly when a lock is held: some command took it free and nothing has ended
      that hold since. */
  lemma HeldIff(ops: seq<Op>, name: Name)
    ensures name in After(ops).locks.held <==>
            exists j :: 0 <= j < |ops| && Takes(ops, j) && ops[j].name == name && Unended(ops, j, |ops|)
  {
    assert ops[..|ops|] == ops;
    if name in After(ops).locks.held {
      FencesStayOk(ops);
      var j := HoldStart(ops, name);
      var h := After(ops).locks.held[name];
      forall i | j < i <= |ops| ensures IsHeld(After(ops[..i]).locks, name) { assert HeldAfter(ops, name, h, i); }
      HeldIsUnended(ops, j, name, |ops|);
    } else {
      forall j | 0 <= j < |ops| && Takes(ops, j) && ops[j].name == name ensures !Unended(ops, j, |ops|) {
        if Unended(ops, j, |ops|) { Holding(ops, j, |ops|); }
      }
    }
  }

  /** The count of a held lock is the number of its holder's locks since it was
      taken, less the number of its unlocks. */
  lemma HeldCount(ops: seq<Op>, name: Name) returns (j: nat)
    requires name in After(ops).locks.held
    ensures Takes(ops, j) && ops[j].name == name
    ensures var h := After(ops).locks.held[name];
            && ops[j] == Lock(name, h.session, h.thread)
            && h.count == Tally(ops, j, ops[j]) - Tally(ops, j, Unlock(name, h.session, h.thread))
            && 0 < h.count
  {
    assert ops[..|ops|] == ops;
    HeldIff(ops, name);
    j :| 0 <= j < |ops| && Takes(ops, j) && ops[j].name == name && Unended(ops, j, |ops|);
    Holding(ops, j, |ops|);
  }

  /** An unlock is answered true exactly when its sender holds the lock; then it
      frees the lock exactly when it evens out the sender's locks; no other lock
      changes. */
  lemma UnlockMeans(ops: seq<Op>, k: nat)
    requires k < |ops| && ops[k].Unlock?
    ensures var op, was, now := ops[k], After(ops[..k]).locks, After(ops[..k + 1]).locks;
            && ReplyAt(ops, k) == Bool(HeldBy(was, op.name, op.session, op.thread))
            && (!HeldBy(was, op.name, op.session, op.thread) ==> now == was)
            && was.held - {op.name} == now.held - {op.name}
            && (HeldBy(was, op.name, op.session, op.thread) ==>
                  exists j :: 0 <= j < k && Takes(ops, j) && ops[j] == Lock(op.name, op.session, op.thread) &&
                    (op.name !in now.held <==> Tally(ops[..k + 1], j, ops[j]) == Tally(ops[..k + 1], j, op)))
  {
    var op, was := ops[k], After(ops[..k]).locks;
    AfterStep(ops, k);
    if HeldBy(was, op.name, op.session, op.thread) {
      var j := HeldCount(ops[..k], op.name);
      assert ops[..k][..j] == ops[..j];
      TallyStep(ops, j, k, ops[j]);
      TallyStep(ops, j, k, op);
      assert Takes(ops, j);
    }
  }

  lemma {:induction false} FencesCount(ops: seq<Op>)
    ensures After(ops).locks.nextFence == Grants(ops)
    decreases |ops|
  {
    if ops != [] {
      FencesCount(ops[..|ops| - 1]);
    }
  }

  /** A lock is answered with the next fence when free, with the fence already held
      when its sender holds it, and otherwise with 0 and no change at all. */
  lemma LockMeans(ops: seq<Op>, k: nat)
    requires k < |ops| && ops[k].Lock?
    ensures var op, was := ops[k], After(ops[..k]);
            && (Takes(ops, k) ==> ReplyAt(ops, k) == Long(Grants(ops[..k]) + 1))
            && (HeldBy(was.locks, op.name, op.session, op.thread) ==>
                  ReplyAt(ops, k) == Long(was.locks.held[op.name].fence))
            && (IsHeld(was.locks, op.name) && !HeldBy(was.locks, op.name, op.session, op.thread) ==>
                  ReplyAt(ops, k) == Long(0) && After(ops[..k + 1]) == was)
  {
    AfterStep(ops, k);
    FencesCount(ops[..k]);
  }

  lemma {:induction false} ThreadIds(ops: seq<Op>)
    ensures After(ops).sessions.nextThreadId == Tally(ops, 0, GenerateThreadId)
    decreases |ops|
  {
    if ops != [] { ThreadIds(ops[..|ops| - 1]); }
  }

  /** Ids of sessions and threads are handed out 1, 2, 3 and so on; a close says
      whether the session was live; the rest is not answered. */
  lemma Replies(ops: seq<Op>, k: nat)
    requires k < |ops| && !ops[k].Lock? && !ops[k].Unlock?
    ensures ReplyAt(ops, k) ==
            match ops[k]
            case Create => Long(Tally(ops[..k], 0, Create) + 1)
            case GenerateThreadId => Long(Tally(ops[..k], 0, GenerateThreadId) + 1)
            case Close(id) => Bool(LeaseOf(ops[..k], id).Ticks?)
            case _ => Nil
  {
    ThreadIds(ops[..k]);
    CreatesTally(ops[..k]);
    SessionLife(ops[..k], if ops[k].Close? then ops[k].id else 0);
  }

  lemma {:induction false} CreatesTally(ops: seq<Op>)
    ensures Creates(ops) == Tally(ops, 0, Create)
    decreases |ops|
  {
    if ops != [] { CreatesTally(ops[..|ops| - 1]); }
  }
}
