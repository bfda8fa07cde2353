/** Which client is answered with which reply: a member files a waiting client under
    the index its proposal was answered with, and answers whoever is filed under an
    index when that index is applied (crates/raft/src/cp.rs, route and
    apply_committed). */
module CpClients {
  import opened Basics
  import opened RaftLogs
  import RN = RaftNodes
  import RS = RaftSystem
  import RR = RaftRuns
  import RP = RaftProposals
  import CC = CpConvergence
  import opened CpModel
  import opened CpRuns

  function Indices(commands: seq<(nat, Command)>): set<nat> {
    set k | 0 <= k < |commands| :: commands[k].0
  }

  /** Node `v`'s waiting clients, each known by the step that proposed for it; the
      proposals `asks` leaves out are the member's own clock ticks. */
  ghost function Pending(s: RS.Sys, actions: seq<RS.Action>, v: nat, asks: nat -> bool): map<nat, nat>
    decreases |actions|
  {
    if actions == [] then map[]
    else
      var k := |actions| - 1;
      var before, r := Pending(s, actions[..k], v, asks), RS.Run(s, actions[..k]);
      if RS.Enabled(r, actions[k]) then PendingNext(before, r, actions[k], v, k, asks) else before
  }

  ghost function PendingNext(before: map<nat, nat>, r: RS.Sys, a: RS.Action, v: nat, k: nat, asks: nat -> bool)
    : map<nat, nat>
    requires RS.Enabled(r, a)
  {
    if a.ClientPropose? && a.node == v && asks(k) then
      match RN.Propose(r.nodes[v], a.command).1
      case Some(i) => before[i := k]
      case None => before
    else if a == RS.Drain(v) then before - Indices(RN.TakeCommitted(r.nodes[v]).1)
    else if a == RS.Crash(v) then map[]
    else before
  }

  /** Apply drained commands in order, answering whoever waits for their indices. */
  function Answers(cp: Cp, commands: seq<(nat, Command)>, pending: map<nat, nat>, decode: Command -> Op)
    : seq<(nat, Reply)>
    decreases |commands|
  {
    if commands == [] then []
    else
      var (i, command) := commands[0];
      var (next, reply) := Apply(cp, decode(command));
      (if i in pending then [(pending[i], reply)] else []) + Answers(next, commands[1..], pending - {i}, decode)
  }

  // ---------- who is filed where ----------

  /** Step `k` proposed a client's command, which node `v` answered with index `i`. */
  ghost predicate Filed(s: RS.Sys, actions: seq<RS.Action>, v: nat, asks: nat -> bool, i: nat, k: nat) {
    k < |actions| && asks(k) && actions[k].ClientPropose? && RP.Proposed(s, actions, k, v, actions[k].command, i)
  }

  lemma FiledStill(s: RS.Sys, actions: seq<RS.Action>, v: nat, asks: nat -> bool, i: nat, k: nat)
    requires actions != [] && Filed(s, actions[..|actions| - 1], v, asks, i, k)
    ensures Filed(s, actions, v, asks, i, k)
  {
    assert actions[..|actions| - 1][..k] == actions[..k];
  }

  lemma {:induction false} PendingIsFiled(s: RS.Sys, actions: seq<RS.Action>, v: nat, asks: nat -> bool, i: nat)
    requires i in Pending(s, actions, v, asks)
    ensures Filed(s, actions, v, asks, i, Pending(s, actions, v, asks)[i])
    decreases |actions|
  {
    var k := |actions| - 1;
    var before, r, a := Pending(s, actions[..k], v, asks), RS.Run(s, actions[..k]), actions[k];
    if RS.Enabled(r, a) && a.ClientPropose? && a.node == v && asks(k) &&
       RN.Propose(r.nodes[v], a.command).1 == Some(i)
    {
    } else {
      PendingIsFiled(s, actions[..k], v, asks, i);
      FiledStill(s, actions, v, asks, i, before[i]);
    }
  }

  // ---------- who is answered with what ----------

  /** `x` answers the client waiting for index `i` with the reply of the operation there. */
  predicate At(ops: seq<Op>, pending: map<nat, nat>, x: (nat, Reply), i: nat) {
    1 <= i <= |ops| && i in pending && x == (pending[i], ReplyAt(ops, i - 1))
  }

  ghost predicate AtSome(ops: seq<Op>, pending: map<nat, nat>, x: (nat, Reply), from: nat) {
    exists i: nat {:trigger At(ops, pending, x, i)} :: from < i && At(ops, pending, x, i)
  }

  lemma AtFirst(ops: seq<Op>, pending: map<nat, nat>, x: (nat, Reply), from: nat)
    ensures AtSome(ops, pending, x, from) <==>
            At(ops, pending, x, from + 1) || AtSome(ops, pending - {from + 1}, x, from + 1)
  {
    var rest := pending - {from + 1};
    if AtSome(ops, pending, x, from) {
      var i: nat :| from < i && At(ops, pending, x, i);
      if i != from + 1 { assert At(ops, rest, x, i); }
    }
    if AtSome(ops, rest, x, from + 1) {
      var i: nat :| from + 1 < i && At(ops, rest, x, i);
      assert At(ops, pending, x, i);
    }
  }

  lemma FirstCommand(l: Log, from: nat, upTo: nat)
    requires l.snapshotIndex == 0 && from < upTo <= |l.entries|
    ensures var cs := RN.CommandsIn(l, from, upTo);
            cs != [] && cs[0] == (from + 1, l.entries[from].command) && cs[1..] == RN.CommandsIn(l, from + 1, upTo)
  {
  }

  /** Answering from `from` on answers each index's waiting client with the reply of
      the operation at that index, and nobody else. */
  lemma {:induction false} AnswersAre(
    l: Log, from: nat, upTo: nat, ops: seq<Op>, pending: map<nat, nat>, decode: Command -> Op, x: (nat, Reply))
    requires l.snapshotIndex == 0 && from <= upTo <= |l.entries| && ops == CC.OpsOf(l.entries, upTo, decode)
    ensures x in Answers(After(ops[..from]), RN.CommandsIn(l, from, upTo), pending, decode) <==>
            AtSome(ops, pending, x, from)
    decreases upTo - from
  {
    if from < upTo {
      FirstCommand(l, from, upTo);
      AfterStep(ops, from);
      AnswersAre(l, from + 1, upTo, ops, pending - {from + 1}, decode, x);
      AtFirst(ops, pending, x, from);
    }
  }

  /** In every run: draining answers exactly the clients filed under the indices it
      applies, each with the reply the log's operation at that index has in its
      place. */
  lemma AnsweredIff(
    peers: seq<nat>, s: RS.Sys, actions: seq<RS.Action>, v: nat, asks: nat -> bool, decode: Command -> Op,
    x: (nat, Reply))
    requires RS.Initial(peers, s) && v in RS.Run(s, actions).nodes
    ensures var n, pending := RS.Run(s, actions).nodes[v], Pending(s, actions, v, asks);
            && n.commitIndex <= |n.log.entries|
            && (x in Answers(CC.Replica(s, actions, v, decode), RN.TakeCommitted(n).1, pending, decode) <==>
                AtSome(CC.OpsOf(n.log.entries, n.commitIndex, decode), pending, x, n.lastApplied))
  {
    RR.NothingIsStuck(peers, s, actions);
    RR.CursorsInOrder(peers, s, actions, v);
    CC.ReplicaIsLogPrefix(peers, s, actions, v, decode);
    var n := RS.Run(s, actions).nodes[v];
    AnswersFrom(n, Pending(s, actions, v, asks), decode, x);
  }

  lemma AnswersFrom(n: RN.Node, pending: map<nat, nat>, decode: Command -> Op, x: (nat, Reply))
    requires n.log.snapshotIndex == 0 && n.lastApplied <= n.commitIndex <= |n.log.entries|
    ensures x in Answers(After(CC.OpsOf(n.log.entries, n.lastApplied, decode)), RN.TakeCommitted(n).1, pending, decode)
            <==> AtSome(CC.OpsOf(n.log.entries, n.commitIndex, decode), pending, x, n.lastApplied)
  {
    var ops := CC.OpsOf(n.log.entries, n.commitIndex, decode);
    AnswersAre(n.log, n.lastApplied, n.commitIndex, ops, pending, decode, x);
    assert ops[..n.lastApplied] == CC.OpsOf(n.log.entries, n.lastApplied, decode);
  }

  /** Whoever is answered had its command proposed here and answered with the index
      now applied; the entry applied there is that proposal exactly when it is of the
      term the proposer was in, and then the reply is that of the client's own
      command. */
  lemma OwnReplyIff(
    peers: seq<nat>, s: RS.Sys, actions: seq<RS.Action>, v: nat, asks: nat -> bool, decode: Command -> Op,
    x: (nat, Reply)) returns (i: nat)
    requires RS.Initial(peers, s) && v in RS.Run(s, actions).nodes
    requires x in Answers(CC.Replica(s, actions, v, decode), RN.TakeCommitted(RS.Run(s, actions).nodes[v]).1,
                          Pending(s, actions, v, asks), decode)
    ensures Filed(s, actions, v, asks, i, x.0)
    ensures var n, t := RS.Run(s, actions).nodes[v], RS.Run(s, actions[..x.0]).nodes[v].term;
            && n.lastApplied < i <= n.commitIndex <= |n.log.entries|
            && RP.HoldsIff(n.log, t, actions[x.0].command, i)
            && var before := After(CC.OpsOf(n.log.entries, i - 1, decode));
               && x.1 == Apply(before, decode(n.log.entries[i - 1].command)).1
               && (n.log.TermAt(i) == t ==> x.1 == Apply(before, decode(actions[x.0].command)).1)
  {
    var n, pending := RS.Run(s, actions).nodes[v], Pending(s, actions, v, asks);
    AnsweredIff(peers, s, actions, v, asks, decode, x);
    var ops := CC.OpsOf(n.log.entries, n.commitIndex, decode);
    i :| n.lastApplied < i && At(ops, pending, x, i);
    PendingIsFiled(s, actions, v, asks, i);
    assert actions[..|actions|] == actions;
    RP.ProposalKept(peers, s, actions, x.0, |actions|, v, actions[x.0].command, i, v);
    assert ops[..i - 1] == CC.OpsOf(n.log.entries, i - 1, decode);
  }
}
