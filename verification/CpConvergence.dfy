/** Replicas of the CP state machine over a Raft group: a node's machine is fed by
    draining its committed log and starts afresh when the process restarts. */
module CpConvergence {
  import opened RaftLogs
  import RN = RaftNodes
  import RS = RaftSystem
  import RR = RaftRuns
  import opened CpModel

  /** Feed drained commands to the machine, in order. */
  function Feed(cp: Cp, commands: seq<(nat, Command)>, decode: Command -> Op): Cp
    decreases |commands|
  {
    if commands == [] then cp
    else Apply(Feed(cp, commands[..|commands| - 1], decode), decode(commands[|commands| - 1].1)).0
  }

  /** Node `i`'s machine after a run. */
  ghost function Replica(s: RS.Sys, actions: seq<RS.Action>, i: nat, decode: Command -> Op): Cp
    decreases |actions|
  {
    if actions == [] then FRESH
    else
      var init, last := actions[..|actions| - 1], actions[|actions| - 1];
      var before, r := Replica(s, init, i, decode), RS.Run(s, init);
      if !RS.Enabled(r, last) then before
      else if last == RS.Drain(i) then Feed(before, RN.TakeCommitted(r.nodes[i]).1, decode)
      else if last == RS.Crash(i) then FRESH
      else before
  }

  /** The operations at indices 1 to `n` of a log. */
  function OpsOf(log: seq<Entry>, n: nat, decode: Command -> Op): seq<Op>
    requires n <= |log|
  {
    seq(n, k requires 0 <= k < n => decode(log[k].command))
  }

  lemma OpsPrefix(a: seq<Entry>, b: seq<Entry>, n: nat, decode: Command -> Op)
    requires n <= |a| && n <= |b| && forall k :: 0 <= k < n ==> a[k] == b[k]
    ensures OpsOf(a, n, decode) == OpsOf(b, n, decode)
  {
  }

  /** Draining feeds exactly the log's commands between the two cursors. */
  lemma {:induction false} FeedsLog(l: Log, from: nat, upTo: nat, decode: Command -> Op)
    requires l.snapshotIndex == 0 && from <= upTo <= |l.entries|
    ensures Feed(After(OpsOf(l.entries, from, decode)), RN.CommandsIn(l, from, upTo), decode)
            == After(OpsOf(l.entries, upTo, decode))
    decreases upTo - from
  {
    if from < upTo {
      DrainLast(l, from, upTo);
      var cs := RN.CommandsIn(l, from, upTo);
      FeedsLog(l, from, upTo - 1, decode);
      var ops := OpsOf(l.entries, upTo, decode);
      assert ops[..upTo - 1] == OpsOf(l.entries, upTo - 1, decode);
      assert cs[..|cs| - 1] == RN.CommandsIn(l, from, upTo - 1);
    }
  }

  lemma {:induction false} DrainLast(l: Log, from: nat, upTo: nat)
    requires l.snapshotIndex == 0 && from < upTo <= |l.entries|
    ensures RN.CommandsIn(l, from, upTo) == RN.CommandsIn(l, from, upTo - 1) + [(upTo, l.entries[upTo - 1].command)]
    decreases upTo - from
  {
    if from + 1 < upTo { DrainLast(l, from + 1, upTo); }
  }

  /** Only draining and restarting move a node's apply cursor. */
  lemma CursorMoves(s: RS.Sys, a: RS.Action, i: nat)
    requires i in s.nodes && (RS.Enabled(s, a) ==> a != RS.Drain(i) && a != RS.Crash(i))
    ensures i in RS.Apply(s, a).nodes && RS.Apply(s, a).nodes[i].lastApplied == s.nodes[i].lastApplied
  {
    if RS.Enabled(s, a) && a.Deliver? && a.packet.dst == i {
      StepCursor(RN.CatchUp(s.nodes[i], a.packet.msg.term), a.packet.src, a.packet.msg);
    }
  }

  lemma StepCursor(n: RN.Node, from: nat, msg: RN.Msg)
    requires n.Wf() && from < |n.votes|
    ensures RN.StepHandler(n, from, msg).0.lastApplied == n.lastApplied
  {
  }

  /** A node's machine has applied exactly the commands up to its apply cursor. */
  lemma {:induction false} ReplicaIsLogPrefix(
    peers: seq<nat>, s: RS.Sys, actions: seq<RS.Action>, i: nat, decode: Command -> Op)
    requires RS.Initial(peers, s) && i in peers
    ensures i in RS.Run(s, actions).nodes
    ensures var n := RS.Run(s, actions).nodes[i];
            && n.lastApplied <= |n.log.entries|
            && Replica(s, actions, i, decode) == After(OpsOf(n.log.entries, n.lastApplied, decode))
    decreases |actions|
  {
    RR.NothingIsStuck(peers, s, actions);
    RR.CursorsInOrder(peers, s, actions, i);
    if actions == [] {
      assert RS.Run(s, actions) == s;
    } else {
      ReplicaStep(peers, s, actions, i, decode);
    }
  }

  lemma ReplicaStep(peers: seq<nat>, s: RS.Sys, actions: seq<RS.Action>, i: nat, decode: Command -> Op)
    requires RS.Initial(peers, s) && i in peers && actions != [] && i in RS.Run(s, actions).nodes
    ensures var n := RS.Run(s, actions).nodes[i];
            && n.lastApplied <= |n.log.entries|
            && Replica(s, actions, i, decode) == After(OpsOf(n.log.entries, n.lastApplied, decode))
    decreases |actions|, 0
  {
    var k := |actions| - 1;
    var init, last := actions[..k], actions[k];
    var r := RS.Run(s, init);
    ReplicaIsLogPrefix(peers, s, init, i, decode);
    RR.CursorsInOrder(peers, s, init, i);
    RR.CursorsInOrder(peers, s, actions, i);
    var n, m := r.nodes[i], RS.Run(s, actions).nodes[i];
    if RS.Enabled(r, last) && last == RS.Drain(i) {
      FeedsLog(n.log, n.lastApplied, n.commitIndex, decode);
    } else if RS.Enabled(r, last) && last == RS.Crash(i) {
      assert OpsOf(m.log.entries, 0, decode) == [];
    } else {
      CursorMoves(r, last, i);
      SamePrefix(peers, s, actions, i, n.lastApplied);
      OpsPrefix(n.log.entries, m.log.entries, n.lastApplied, decode);
    }
  }

  /** A step changes nothing of a node's log that it has already applied. */
  lemma SamePrefix(peers: seq<nat>, s: RS.Sys, actions: seq<RS.Action>, i: nat, applied: nat)
    requires RS.Initial(peers, s) && actions != []
    requires var r1, r2 := RS.Run(s, actions[..|actions| - 1]), RS.Run(s, actions);
             i in r1.nodes && i in r2.nodes && applied <= r1.nodes[i].commitIndex && applied <= r2.nodes[i].commitIndex
    ensures var a := RS.Run(s, actions[..|actions| - 1]).nodes[i].log.entries;
            var b := RS.Run(s, actions).nodes[i].log.entries;
            applied <= |a| && applied <= |b| && forall k :: 0 <= k < applied ==> a[k] == b[k]
  {
    var n := |actions|;
    assert actions[..n] == actions;
    RR.CursorsInOrder(peers, s, actions[..n - 1], i);
    RR.CursorsInOrder(peers, s, actions, i);
    forall k | 0 <= k < applied
      ensures RS.Run(s, actions[..n - 1]).nodes[i].log.entries[k] == RS.Run(s, actions).nodes[i].log.entries[k]
    {
      RR.CommittedAgreeOverTime(peers, s, actions, n - 1, n, i, i, k);
    }
  }

  /** Replica convergence: of two replicas, the less advanced one is in a state the
      other went through, and equally advanced replicas are in the same state. */
  lemma ReplicasConverge(peers: seq<nat>, s: RS.Sys, actions: seq<RS.Action>, i: nat, j: nat, decode: Command -> Op)
    requires RS.Initial(peers, s) && i in RS.Run(s, actions).nodes && j in RS.Run(s, actions).nodes
    requires RS.Run(s, actions).nodes[i].lastApplied <= RS.Run(s, actions).nodes[j].lastApplied
    ensures exists ops: seq<Op> ::
              && |ops| == RS.Run(s, actions).nodes[j].lastApplied
              && Replica(s, actions, j, decode) == After(ops)
              && Replica(s, actions, i, decode) == After(ops[..RS.Run(s, actions).nodes[i].lastApplied])
  {
    RR.NothingIsStuck(peers, s, actions);
    ReplicaIsLogPrefix(peers, s, actions, i, decode);
    ReplicaIsLogPrefix(peers, s, actions, j, decode);
    RR.CursorsInOrder(peers, s, actions, i);
    RR.CursorsInOrder(peers, s, actions, j);
    var n, m := RS.Run(s, actions).nodes[i], RS.Run(s, actions).nodes[j];
    assert actions[..|actions|] == actions;
    forall k | 0 <= k < n.lastApplied ensures n.log.entries[k] == m.log.entries[k] {
      RR.CommittedAgreeOverTime(peers, s, actions, |actions|, |actions|, i, j, k);
    }
    var ops := OpsOf(m.log.entries, m.lastApplied, decode);
    assert ops[..n.lastApplied] == OpsOf(n.log.entries, n.lastApplied, decode);
  }

  lemma EqualProgressEqualState(
    peers: seq<nat>, s: RS.Sys, actions: seq<RS.Action>, i: nat, j: nat, decode: Command -> Op)
    requires RS.Initial(peers, s) && i in RS.Run(s, actions).nodes && j in RS.Run(s, actions).nodes
    requires RS.Run(s, actions).nodes[i].lastApplied == RS.Run(s, actions).nodes[j].lastApplied
    ensures Replica(s, actions, i, decode) == Replica(s, actions, j, decode)
  {
    ReplicasConverge(peers, s, actions, i, j, decode);
    var ops: seq<Op> :| |ops| == RS.Run(s, actions).nodes[j].lastApplied
                        && Replica(s, actions, j, decode) == After(ops)
                        && Replica(s, actions, i, decode) == After(ops[..RS.Run(s, actions).nodes[i].lastApplied]);
    assert ops[..|ops|] == ops;
  }
}
