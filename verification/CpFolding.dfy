/** Replicas of the CP state machine over groups that fold their logs, which is how
    the server runs them. */
module CpFolding {
  import opened RaftLogs
  import RN = RaftNodes
  import RS = RaftSystem
  import RM = RaftMoves
  import RF = RaftFolding
  import CC = CpConvergence
  import opened CpModel

  /** Node `i`'s machine after a run that may fold. */
  ghost function FoldedReplica(s: RS.Sys, moves: seq<RM.Move>, i: nat, decode: Command -> Op): Cp
    decreases |moves|
  {
    if moves == [] then FRESH
    else
      var init, last := moves[..|moves| - 1], moves[|moves| - 1];
      var before, r := FoldedReplica(s, init, i, decode), RM.Go(s, init);
      if last.Fold? || !RS.Enabled(r, last.a) then before
      else if last.a == RS.Drain(i) then CC.Feed(before, RN.TakeCommitted(r.nodes[i]).1, decode)
      else if last.a == RS.Crash(i) then FRESH
      else before
  }

  /** Folding does not show: the machine is in the state it has without it. */
  lemma {:induction false} FoldingIsUnseen(
    peers: seq<nat>, s: RS.Sys, moves: seq<RM.Move>, i: nat, decode: Command -> Op)
    requires RS.Initial(peers, s) && RF.Serving(s, moves)
    ensures FoldedReplica(s, moves, i, decode) == CC.Replica(s, RM.Acts(moves), i, decode)
    decreases |moves|
  {
    if moves != [] {
      var init, last := moves[..|moves| - 1], moves[|moves| - 1];
      RF.ServingFront(s, moves);
      FoldingIsUnseen(peers, s, init, i, decode);
      RF.FoldingRefines(peers, s, init);
      if last.Act? { SameFed(s, RM.Go(s, init), RS.Run(s, RM.Acts(init)), RM.Acts(init), last.a, i); }
    }
  }

  lemma SameFed(s: RS.Sys, r: RS.Sys, f: RS.Sys, acts: seq<RS.Action>, a: RS.Action, i: nat)
    requires RF.Refines(r, f) && f == RS.Run(s, acts)
    ensures (acts + [a])[..|acts|] == acts
    ensures RS.Enabled(r, a) <==> RS.Enabled(f, a)
    ensures RS.Enabled(r, a) && a == RS.Drain(i) ==> RN.TakeCommitted(r.nodes[i]).1 == RN.TakeCommitted(f.nodes[i]).1
  {
    RF.SameEnabled(r, f, a);
    if RS.Enabled(r, a) && a == RS.Drain(i) { RF.DrainMirrors(r.nodes[i], f.nodes[i]); }
  }

  lemma SameCursor(peers: seq<nat>, s: RS.Sys, moves: seq<RM.Move>, i: nat)
    requires RS.Initial(peers, s) && RF.Serving(s, moves) && i in RM.Go(s, moves).nodes
    ensures i in RS.Run(s, RM.Acts(moves)).nodes
    ensures RM.Go(s, moves).nodes[i].lastApplied == RS.Run(s, RM.Acts(moves)).nodes[i].lastApplied
  {
    RF.FoldingRefines(peers, s, moves);
    assert RF.Mirrors(RM.Go(s, moves).nodes[i], RS.Run(s, RM.Acts(moves)).nodes[i]);
  }

  /** Of two replicas of a folding group the less advanced is in a state the other
      went through, while every leader serves. */
  lemma FoldingReplicasConverge(
    peers: seq<nat>, s: RS.Sys, moves: seq<RM.Move>, i: nat, j: nat, decode: Command -> Op)
    requires RS.Initial(peers, s) && RF.Serving(s, moves) && i in RM.Go(s, moves).nodes && j in RM.Go(s, moves).nodes
    requires RM.Go(s, moves).nodes[i].lastApplied <= RM.Go(s, moves).nodes[j].lastApplied
    ensures exists ops: seq<Op> ::
              && |ops| == RM.Go(s, moves).nodes[j].lastApplied
              && FoldedReplica(s, moves, j, decode) == After(ops)
              && FoldedReplica(s, moves, i, decode) == After(ops[..RM.Go(s, moves).nodes[i].lastApplied])
  {
    SameCursor(peers, s, moves, i);
    SameCursor(peers, s, moves, j);
    FoldingIsUnseen(peers, s, moves, i, decode);
    FoldingIsUnseen(peers, s, moves, j, decode);
    CC.ReplicasConverge(peers, s, RM.Acts(moves), i, j, decode);
  }

  /** Replicas of a folding group that applied equally many commands agree. */
  lemma FoldingEqualState(
    peers: seq<nat>, s: RS.Sys, moves: seq<RM.Move>, i: nat, j: nat, decode: Command -> Op)
    requires RS.Initial(peers, s) && RF.Serving(s, moves) && i in RM.Go(s, moves).nodes && j in RM.Go(s, moves).nodes
    requires RM.Go(s, moves).nodes[i].lastApplied == RM.Go(s, moves).nodes[j].lastApplied
    ensures FoldedReplica(s, moves, i, decode) == FoldedReplica(s, moves, j, decode)
  {
    SameCursor(peers, s, moves, i);
    SameCursor(peers, s, moves, j);
    FoldingIsUnseen(peers, s, moves, i, decode);
    FoldingIsUnseen(peers, s, moves, j, decode);
    CC.EqualProgressEqualState(peers, s, RM.Acts(moves), i, j, decode);
  }
}
