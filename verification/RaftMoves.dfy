/** Runs of a group whose in-memory logs fold their applied prefix. */
module RaftMoves {
  import opened RaftNodes
  import opened RaftSystem

  /** A step of the group, or a node's compaction of its log. */
  datatype Move = Act(a: Action) | Fold(node: nat, keep: nat)

  ghost function Next(s: Sys, m: Move): Sys {
    match m
    case Act(a) => Apply(s, a)
    case Fold(i, keep) => if i in s.nodes && s.nodes[i].Wf() then Put(s, i, MaybeCompact(s.nodes[i], keep), []) else s
  }

  /** The state after all of `moves`, in order. */
  ghost function Go(s: Sys, moves: seq<Move>): Sys
    decreases |moves|
  {
    if moves == [] then s else Next(Go(s, moves[..|moves| - 1]), moves[|moves| - 1])
  }

  lemma GoOn(s: Sys, moves: seq<Move>, m: Move)
    ensures Go(s, moves + [m]) == Next(Go(s, moves), m)
  {
    assert (moves + [m])[..|moves|] == moves;
  }

  /** The moves without the compactions. */
  function Acts(moves: seq<Move>): seq<Action> {
    if moves == [] then []
    else
      var front, last := Acts(moves[..|moves| - 1]), moves[|moves| - 1];
      if last.Act? then front + [last.a] else front
  }
}
