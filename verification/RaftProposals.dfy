/** What the index a proposal is answered with means: where the command lies now,
    and what will be applied there (crates/raft/src/lib.rs, propose). */
module RaftProposals {
  import opened Basics
  import opened RaftLogs
  import opened RaftNodes
  import opened RaftSystem
  import opened RaftHistory
  import opened RaftRuns
  import opened RaftMoves
  import opened RaftFolding

  /** Entries carry the index of their place. */
  ghost predicate Numbered(l: Log) {
    forall j :: 0 <= j < |l.entries| ==> l.entries[j].index == l.snapshotIndex + 1 + j
  }

  /** In `m` the command is the last one, at `i` and of the current term, and all
      before it is as in `n`. */
  ghost predicate Filed(n: Node, command: Command, m: Node, i: nat) {
    && m.log.LastIndex() == i
    && m.log.CommandAt(i) == Some(command)
    && m.log.TermAt(i) == n.term
    && m.term == n.term
    && forall j: nat :: j < i ==> m.log.TermAt(j) == n.log.TermAt(j) && m.log.CommandAt(j) == n.log.CommandAt(j)
  }

  /** A leader files the command where it says; anyone else says so and does nothing. */
  lemma ProposalFiled(n: Node, command: Command)
    requires n.Wf() && Numbered(n.log)
    ensures var (m, answer) := Propose(n, command);
            && (answer.None? <==> n.role != Leader)
            && (answer.None? ==> m == n)
            && (answer.Some? ==> Filed(n, command, m, answer.value))
  {
  }

  lemma LogIsNumbered(peers: seq<nat>, h: Hist, n: Node)
    requires HistInv(peers, h) && NodeInv(peers, h, n)
    ensures Numbered(n.log)
  {
    var log := n.log.entries;
    forall j | 0 <= j < |log| ensures log[j].index == j + 1 {
      assert EntryOk(h, TermOf(log), j);
    }
  }

  /** A log with an entry of term `t` at place `k` has what the leader of `t` filed there. */
  lemma OfThatTerm(peers: seq<nat>, h: Hist, n: Node, t: nat, k: nat)
    requires HistInv(peers, h) && NodeInv(peers, h, n)
    requires k < |n.log.entries| && n.log.entries[k].term == t
    ensures t in h.elections && k < |h.elections[t].log| && n.log.entries[k] == h.elections[t].log[k]
  {
    var u := TermOf(n.log.entries);
    assert EntryOk(h, u, k);
    assert n.log.entries[k] == h.elections[u].log[k] == h.elections[u].log[..k + 1][k];
  }

  /** Command `k` of the run is a proposal node `v` answers with index `i`. */
  ghost predicate Proposed(s: Sys, actions: seq<Action>, k: nat, v: nat, command: Command, i: nat) {
    && k < |actions|
    && actions[k] == ClientPropose(v, command)
    && Enabled(Run(s, actions[..k]), actions[k])
    && Propose(Run(s, actions[..k]).nodes[v], command).1 == Some(i)
  }

  /** Node `m` is a leader whose last entry is the command, at `i`. */
  ghost predicate Just(m: Node, t: nat, command: Command, i: nat) {
    m.role == Leader && m.term == t && |m.log.entries| == i > 0 && m.log.entries[i - 1] == Entry(t, i, command)
  }

  lemma AppendsAtEnd(n: Node, command: Command, i: nat)
    requires n.Wf() && n.log.snapshotIndex == 0 && Numbered(n.log) && Propose(n, command).1 == Some(i)
    ensures Just(Propose(n, command).0, n.term, command, i)
  {
  }

  lemma NextNode(s: Sys, v: nat, command: Command)
    requires Enabled(s, ClientPropose(v, command))
    ensures v in Apply(s, ClientPropose(v, command)).nodes
    ensures Apply(s, ClientPropose(v, command)).nodes[v] == Propose(s.nodes[v], command).0
  {
  }

  lemma RunNext(s: Sys, actions: seq<Action>, k: nat)
    requires k < |actions|
    ensures Run(s, actions[..k + 1]) == Apply(Run(s, actions[..k]), actions[k])
  {
    assert actions[..k + 1][..k] == actions[..k];
  }

  lemma ProposesNow(peers: seq<nat>, h: Hist, n: Node, command: Command, i: nat)
    requires HistInv(peers, h) && NodeInv(peers, h, n) && Propose(n, command).1 == Some(i)
    ensures Just(Propose(n, command).0, n.term, command, i)
  {
    LogIsNumbered(peers, h, n);
    AppendsAtEnd(n, command, i);
  }

  lemma JustProposed(peers: seq<nat>, s: Sys, actions: seq<Action>, k: nat, v: nat, command: Command, i: nat)
    requires Initial(peers, s) && Proposed(s, actions, k, v, command, i)
    ensures v in Run(s, actions[..k + 1]).nodes
    ensures Just(Run(s, actions[..k + 1]).nodes[v], Run(s, actions[..k]).nodes[v].term, command, i)
  {
    var h := RunInv(peers, s, actions[..k]);
    NextNode(Run(s, actions[..k]), v, command);
    RunNext(s, actions, k);
    ProposesNow(peers, h, Run(s, actions[..k]).nodes[v], command, i);
  }

  /** The log holds the proposal of term `t` at `i` exactly when its term there is `t`. */
  ghost predicate HoldsIff(log: Log, t: nat, command: Command, i: nat) {
    log.TermAt(i) == t <==> 0 < i <= |log.entries| && log.entries[i - 1] == Entry(t, i, command)
  }

  lemma KeptSince(peers: seq<nat>, h1: Hist, h2: Hist, m: Node, n: Node, command: Command, i: nat)
    requires HistInv(peers, h1) && NodeInv(peers, h1, m) && Just(m, m.term, command, i)
    requires HistInv(peers, h2) && NodeInv(peers, h2, n) && Later(h1, h2)
    ensures HoldsIff(n.log, m.term, command, i)
  {
    assert EntryOk(h1, m.term, i - 1);
    if n.log.TermAt(i) == m.term { OfThatTerm(peers, h2, n, m.term, i - 1); }
  }

  /** Once a proposal has been answered with `i`, the log of any node at any later
      moment holds that very entry at `i` exactly when its term there is the term
      the proposer was in. */
  lemma ProposalKept(
    peers: seq<nat>, s: Sys, actions: seq<Action>, k1: nat, k2: nat, v: nat, command: Command, i: nat, w: nat)
    requires Initial(peers, s) && k1 < k2 <= |actions| && Proposed(s, actions, k1, v, command, i)
    requires w in Run(s, actions[..k2]).nodes
    ensures HoldsIff(Run(s, actions[..k2]).nodes[w].log, Run(s, actions[..k1]).nodes[v].term, command, i)
  {
    var h1, h2 := TwoMoments(peers, s, actions, k1 + 1, k2);
    JustProposed(peers, s, actions, k1, v, command, i);
    var m, n := Run(s, actions[..k1 + 1]).nodes[v], Run(s, actions[..k2]).nodes[w];
    assert NodeInv(peers, h1, m) && NodeInv(peers, h2, n);
    KeptSince(peers, h1, h2, m, n, command, i);
  }

  /** What is drained at the answered index is the proposed command if the entry
      there is still of the proposal's term. */
  lemma DrainsProposed(
    peers: seq<nat>, s: Sys, actions: seq<Action>, k1: nat, k2: nat, v: nat, command: Command, i: nat, w: nat,
    drained: Command)
    requires Initial(peers, s) && k1 < k2 <= |actions| && Proposed(s, actions, k1, v, command, i)
    requires w in Run(s, actions[..k2]).nodes
    requires (i, drained) in TakeCommitted(Run(s, actions[..k2]).nodes[w]).1
    requires Run(s, actions[..k2]).nodes[w].log.TermAt(i) == Run(s, actions[..k1]).nodes[v].term
    ensures drained == command
  {
    ProposalKept(peers, s, actions, k1, k2, v, command, i, w);
    var n := Run(s, actions[..k2]).nodes[w];
    var h := RunInv(peers, s, actions[..k2]);
    assert NodeInv(peers, h, n);
    CommitWithinLog(peers, h, n);
    DrainedAre(n.log, n.lastApplied, n.commitIndex);
  }

  // ---------- groups that fold ----------

  lemma {:induction false} ActsSplit(moves: seq<Move>, j: nat)
    requires j <= |moves|
    ensures Acts(moves[..j]) <= Acts(moves)
    ensures j < |moves| && moves[j].Act? ==>
              |Acts(moves[..j])| < |Acts(moves)| && Acts(moves)[|Acts(moves[..j])|] == moves[j].a
    decreases |moves|
  {
    if j == |moves| {
      assert moves[..j] == moves;
    } else {
      var front := moves[..|moves| - 1];
      ActsSplit(front, j);
      assert front[..j] == moves[..j];
    }
  }

  lemma ServingUpTo(s: Sys, moves: seq<Move>, j: nat)
    requires j <= |moves| && Serving(s, moves)
    ensures Serving(s, moves[..j])
  {
    forall k: nat | k <= j ensures ServesAt(s, moves[..j], k) {
      assert ServesAt(s, moves, k) && moves[..j][..k] == moves[..k];
    }
  }

  /** At moment `j` a folding run mirrors the run of the actions so far. */
  lemma MirrorsAt(peers: seq<nat>, s: Sys, moves: seq<Move>, j: nat, i: nat) returns (k: nat)
    requires Initial(peers, s) && Serving(s, moves) && j <= |moves| && i in Go(s, moves[..j]).nodes
    ensures k == |Acts(moves[..j])| <= |Acts(moves)| && i in Run(s, Acts(moves)[..k]).nodes
    ensures Refines(Go(s, moves[..j]), Run(s, Acts(moves)[..k]))
    ensures Mirrors(Go(s, moves[..j]).nodes[i], Run(s, Acts(moves)[..k]).nodes[i])
    ensures j < |moves| && moves[j].Act? ==> k < |Acts(moves)| && Acts(moves)[k] == moves[j].a
  {
    k := |Acts(moves[..j])|;
    ActsSplit(moves, j);
    ServingUpTo(s, moves, j);
    FoldingRefines(peers, s, moves[..j]);
    assert Acts(moves)[..k] == Acts(moves[..j]);
  }

  lemma SameAnswer(n: Node, m: Node, command: Command)
    requires Mirrors(n, m) && n.Wf() && m.Wf()
    ensures Propose(n, command).1 == Propose(m, command).1
  {
    LogReads(n.log, m.log, 0);
  }

  /** Step `j` of a folding run is a proposal node `v` answers with index `i`. */
  ghost predicate FoldingProposed(s: Sys, moves: seq<Move>, j: nat, v: nat, command: Command, i: nat) {
    && j < |moves|
    && moves[j] == Act(ClientPropose(v, command))
    && Enabled(Go(s, moves[..j]), moves[j].a)
    && Propose(Go(s, moves[..j]).nodes[v], command).1 == Some(i)
  }

  lemma ProposedAlike(peers: seq<nat>, s: Sys, moves: seq<Move>, j: nat, v: nat, command: Command, i: nat)
    returns (k: nat)
    requires Initial(peers, s) && Serving(s, moves) && FoldingProposed(s, moves, j, v, command, i)
    ensures k == |Acts(moves[..j])| && Proposed(s, Acts(moves), k, v, command, i)
    ensures Run(s, Acts(moves)[..k]).nodes[v].term == Go(s, moves[..j]).nodes[v].term
  {
    k := MirrorsAt(peers, s, moves, j, v);
    var n, m := Go(s, moves[..j]).nodes[v], Run(s, Acts(moves)[..k]).nodes[v];
    SameEnabled(Go(s, moves[..j]), Run(s, Acts(moves)[..k]), moves[j].a);
    SameAnswer(n, m, command);
  }

  lemma DrainsAlike(n: Node, m: Node, i: nat, drained: Command)
    requires Mirrors(n, m) && n.log.snapshotIndex <= n.lastApplied && (i, drained) in TakeCommitted(n).1
    requires m.log.snapshotIndex == 0 && m.commitIndex <= |m.log.entries|
    ensures (i, drained) in TakeCommitted(m).1 && n.log.TermAt(i) == m.log.TermAt(i)
  {
    DrainMirrors(n, m);
    DrainedAre(m.log, m.lastApplied, m.commitIndex);
    LogReads(n.log, m.log, i);
  }

  /** The same of groups that fold, while every leader serves. */
  lemma FoldingDrainsProposed(
    peers: seq<nat>, s: Sys, moves: seq<Move>, j1: nat, j2: nat, v: nat, command: Command, i: nat, w: nat,
    drained: Command)
    requires Initial(peers, s) && Serving(s, moves) && j1 < j2 <= |moves|
    requires FoldingProposed(s, moves, j1, v, command, i)
    requires w in Go(s, moves[..j2]).nodes && (i, drained) in TakeCommitted(Go(s, moves[..j2]).nodes[w]).1
    requires Go(s, moves[..j2]).nodes[w].log.TermAt(i) == Go(s, moves[..j1]).nodes[v].term
    ensures drained == command
  {
    var k1 := ProposedAlike(peers, s, moves, j1, v, command, i);
    var k2 := MirrorsAt(peers, s, moves, j2, w);
    LaterActs(moves, j1, j2);
    var n, m := Go(s, moves[..j2]).nodes[w], Run(s, Acts(moves)[..k2]).nodes[w];
    CursorsInOrder(peers, s, Acts(moves)[..k2], w);
    DrainsAlike(n, m, i, drained);
    DrainsProposed(peers, s, Acts(moves), k1, k2, v, command, i, w, drained);
  }

  lemma LaterActs(moves: seq<Move>, j1: nat, j2: nat)
    requires j1 < j2 <= |moves| && moves[j1].Act?
    ensures |Acts(moves[..j1])| < |Acts(moves[..j2])|
  {
    ActsSplit(moves[..j2], j1);
    assert moves[..j2][..j1] == moves[..j1];
  }
}
