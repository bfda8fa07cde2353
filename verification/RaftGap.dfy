/** What goes wrong when a leader's log no longer reaches back to what a peer needs:
    a run in which two nodes apply different commands at one index. */
module RaftGap {
  import opened Basics
  import opened RaftLogs
  import opened RaftNodes
  import opened RaftSystem
  import opened RaftMoves
  import opened RaftFolding

  // ---------- one step of a three-node group ----------

  const PEERS: seq<nat> := [0, 1, 2]

  ghost predicate Trio(s: Sys, a: Node, b: Node, c: Node) {
    s.nodes == map[0 := a, 1 := b, 2 := c]
  }

  predicate Fit(n: Node) {
    && n.peers == PEERS && n.id < 3
    && |n.votes| == 3 && |n.nextIndex| == 3 && |n.matchIndex| == 3
    && n.nextIndex[0] >= 1 && n.nextIndex[1] >= 1 && n.nextIndex[2] >= 1
  }

  lemma FitIsWf(n: Node)
    requires Fit(n)
    ensures n.Wf()
  {
    assert n.id in PEERS;
  }

  ghost predicate Sent(s: Sys, src: nat, send: Send) {
    Packet(src, send.to, send.msg) in s.net
  }

  /** Nothing sent or applied is ever forgotten. */
  ghost predicate Grown(s: Sys, t: Sys) {
    s.net <= t.net && s.drained <= t.drained
  }

  lemma PutSends(s: Sys, i: nat, n: Node, sends: seq<Send>, k: nat)
    requires k < |sends|
    ensures Sent(Put(s, i, n, sends), i, sends[k])
  {
    assert Packet(i, sends[k].to, sends[k].msg) in Packets(i, sends);
  }

  /** Delivering a packet changes its receiver and sends its replies. */
  lemma Delivered(s: Sys, p: Packet, n: Node, m: Node, sends: seq<Send>)
    requires p in s.net && p.dst in s.nodes && s.nodes[p.dst] == n
    requires n.Wf() && p.src in n.peers && Step(n, p.src, p.msg) == (m, sends)
    ensures var t := Apply(s, Deliver(p)); t == Put(s, p.dst, m, sends) && Grown(s, t)
  {
  }

  lemma Ticked(s: Sys, i: nat, n: Node, m: Node, sends: seq<Send>)
    requires i in s.nodes && s.nodes[i] == n && n.Wf() && Tick(n, true) == (m, sends)
    ensures var t := Apply(s, Timer(i, true)); t == Put(s, i, m, sends) && Grown(s, t)
  {
  }

  // ---------- the nodes along the run ----------

  const E1 := Entry(1, 1, [1])

  /** `k` entries from index 2 on. */
  function Es(k: nat): seq<Entry> {
    seq(k, j requires 0 <= j < k => Entry(1, j + 2, [2]))
  }

  function Fresh(id: nat): Node {
    Node(id, PEERS, Follower, 0, None, EmptyLog(false), 0, 0, None, [false, false, false], [1, 1, 1], [0, 0, 0])
  }

  lemma FreshIsNew(id: nat)
    ensures NewNode(id, PEERS, EmptyLog(false)) == Fresh(id)
  {
    assert PEERS[1..] == [1, 2] && [1, 2][1..] == [2] && [2][1..] == [];
    assert MaxId([2]) == 2 && MaxId([1, 2]) == 2 && MaxId(PEERS) == 2;
    var n := NewNode(id, PEERS, EmptyLog(false));
    assert n.votes == [false, false, false] && n.nextIndex == [1, 1, 1] && n.matchIndex == [0, 0, 0];
  }

  /** An in-memory log at term `t` with a vote for `v`. */
  function Mem(es: seq<Entry>, t: nat, v: nat): Log {
    Log(es, t, Some(v), false, 0, 0)
  }

  // Node 0: candidate, leader, leader with one entry, and with `k` more.
  const A1 :=
    Node(0, PEERS, Candidate, 1, Some(0), Mem([], 1, 0), 0, 0, None, [true, false, false], [1, 1, 1], [0, 0, 0])
  const A2 :=
    Node(0, PEERS, Leader, 1, Some(0), Mem([], 1, 0), 0, 0, Some(0), [true, true, false], [1, 1, 1], [0, 0, 0])
  const A3 := A2.(log := Mem([E1], 1, 0), matchIndex := [1, 0, 0])
  const A4 := A3.(commitIndex := 1, nextIndex := [1, 2, 1], matchIndex := [1, 1, 0])

  function A5(k: nat): Node {
    A4.(log := Mem([E1] + Es(k), 1, 0), matchIndex := [k + 1, 1, 0])
  }

  // Node 1: voter, follower with one entry and with `k` more, drained, folded, then
  // candidate, and leader whose next index for node 2 is `x`.
  const B1 := Fresh(1).(term := 1, votedFor := Some(0), log := Mem([], 1, 0))
  const B2 := B1.(log := Mem([E1], 1, 0), leader := Some(0))

  function B3(k: nat): Node {
    B2.(log := Mem([E1] + Es(k), 1, 0), commitIndex := 1)
  }

  function B4(k: nat): Node {
    B3(k).(lastApplied := 1)
  }

  function B5(k: nat): Node {
    B4(k).(log := Log(Es(k), 1, Some(0), false, 1, 1))
  }

  function B6(k: nat): Node {
    B5(k).(role := Candidate, term := 2, votedFor := Some(1), leader := None, votes := [false, true, false],
           log := Log(Es(k), 2, Some(1), false, 1, 1))
  }

  function B7(k: nat, x: nat): Node {
    B6(k).(role := Leader, leader := Some(1), votes := [false, true, true],
           nextIndex := [k + 2, k + 2, x], matchIndex := [0, k + 1, 0])
  }

  // Node 2: voter, follower that heard the leader, and with one entry.
  const C1 := Fresh(2).(term := 2, votedFor := Some(1), log := Mem([], 2, 1))
  const C2 := C1.(leader := Some(1))

  function C3(k: nat): Node {
    C2.(log := Mem(Es(k), 2, 1), commitIndex := 1)
  }

  lemma Votes()
    ensures |TrueSet([true, false, false])| == 1 && |TrueSet([true, true, false])| == 2
    ensures |TrueSet([false, true, false])| == 1 && |TrueSet([false, true, true])| == 2
  {
    assert TrueSet([true, false, false]) == {0} && TrueSet([true, true, false]) == {0, 1};
    assert TrueSet([false, true, false]) == {1} && TrueSet([false, true, true]) == {1, 2};
  }

  lemma Asks(n: Node, other: nat)
    requires Fit(n) && n.id < 2 && other == 1 - n.id
    ensures VoteRequests(n, 0) == var msg := RequestVote(n.term, n.id, n.log.LastIndex(), n.log.LastTerm());
                                  [Send(other, msg), Send(2, msg)]
  {
    var msg := RequestVote(n.term, n.id, n.log.LastIndex(), n.log.LastTerm());
    assert VoteRequests(n, 3) == [];
    assert VoteRequests(n, 2) == [Send(2, msg)];
    assert VoteRequests(n, 1) == (if n.id == 1 then [] else [Send(1, msg)]) + [Send(2, msg)];
  }

  lemma Tells(n: Node, other: nat)
    requires Fit(n) && n.Wf() && n.id < 2 && other == 1 - n.id
    ensures Broadcast(n) == [AppendTo(n, other), AppendTo(n, 2)]
  {
    assert AppendsFrom(n, 3) == [];
    assert AppendsFrom(n, 2) == [AppendTo(n, 2)];
    assert AppendsFrom(n, 1) == (if n.id == 1 then [] else [AppendTo(n, 1)]) + [AppendTo(n, 2)];
  }

  lemma Fits(k: nat)
    ensures Fresh(0).Wf() && A1.Wf() && A2.Wf() && A3.Wf() && A4.Wf() && A5(k).Wf() && A5(k + 1).Wf()
    ensures Fresh(1).Wf() && B1.Wf() && B2.Wf() && B3(k).Wf() && B4(k).Wf() && B5(k).Wf() && B6(k).Wf()
    ensures Fresh(2).Wf() && C1.Wf() && C2.Wf() && C3(k).Wf()
  {
    FitIsWf(Fresh(0)); FitIsWf(A1); FitIsWf(A2); FitIsWf(A3); FitIsWf(A4); FitIsWf(A5(k)); FitIsWf(A5(k + 1));
    FitIsWf(Fresh(1)); FitIsWf(B1); FitIsWf(B2); FitIsWf(B3(k)); FitIsWf(B4(k)); FitIsWf(B5(k)); FitIsWf(B6(k));
    FitIsWf(Fresh(2)); FitIsWf(C1); FitIsWf(C2); FitIsWf(C3(k));
  }

  lemma Node0Campaigns()
    requires Fresh(0).Wf()
    ensures Tick(Fresh(0), true) == (A1, [Send(1, RequestVote(1, 0, 0, 0)), Send(2, RequestVote(1, 0, 0, 0))])
  {
    var c := Campaign(Fresh(0));
    assert c.votes == [true, false, false];
    assert c == A1;
    Votes();
    Asks(c, 1);
    assert VoteRequests(c, 0) + [] == VoteRequests(c, 0);
  }

  lemma Node1Votes()
    requires Fresh(1).Wf()
    ensures Step(Fresh(1), 0, RequestVote(1, 0, 0, 0)) == (B1, [Send(0, RequestVoteResp(1, true))])
  {
  }

  lemma Node0Leads()
    requires A1.Wf() && A2.Wf()
    ensures Step(A1, 1, RequestVoteResp(1, true)).0 == A2
  {
    var c := CountVote(A1, 1);
    assert c.votes == [true, true, false];
    Votes();
    assert Lead(c).nextIndex == [1, 1, 1] && Lead(c).matchIndex == [0, 0, 0];
    assert Lead(c) == A2;
  }

  lemma Node0Proposes()
    requires A2.Wf() && A3.Wf()
    ensures Propose(A2, [1]).0 == A3
  {
    var n := AppendOwn(A2, [1]);
    assert n.log.entries == [E1] && n.matchIndex == [1, 0, 0] && n == A3;
    assert Replicas(n, 1) == {0};
    assert !Committable(n, 1);
    assert HighestCommittable(n, 1) == 0;
  }

  lemma Node1Accepts()
    requires B1.Wf()
    ensures Step(B1, 0, AppendEntries(1, 0, 0, 0, [E1], 0)) == (B2, [Send(0, AppendEntriesResp(1, true, 1))])
  {
    assert [E1][1..] == [];
    assert Mem([], 1, 0).Accept(E1) == Mem([E1], 1, 0);
    assert Mem([], 1, 0).AcceptAll([E1]) == Mem([E1], 1, 0).AcceptAll([]);
  }

  lemma Node0Commits()
    requires A3.Wf() && A4.Wf()
    ensures Step(A3, 1, AppendEntriesResp(1, true, 1)).0 == A4
  {
    var n := Confirm(A3, 1, 1);
    assert n.matchIndex == [1, 1, 0] && n.nextIndex == [1, 2, 1];
    assert Replicas(n, 1) == {0, 1};
    assert Committable(n, 1);
  }

  lemma Node0ProposesAgain(k: nat)
    requires A5(k).Wf() && A5(k + 1).Wf()
    ensures Propose(A5(k), [2]).0 == A5(k + 1)
  {
    var n := AppendOwn(A5(k), [2]);
    EndOf(A5(k).log, k + 1);
    assert n.log.entries == [E1] + Es(k + 1) && n.matchIndex == [k + 2, 1, 0] && n == A5(k + 1);
    forall j | 2 <= j <= k + 2 ensures !Committable(n, j) { assert Replicas(n, j) == {0}; }
    assert HighestCommittable(n, n.log.LastIndex()) == 1;
  }

  lemma EndOf(l: Log, k: nat)
    requires l.entries == [] || l.entries[|l.entries| - 1].index == k
    requires l.entries == [] ==> l.snapshotIndex == k
    ensures l.LastIndex() == k
  {
  }

  /** Entries numbered past the end are appended one after the other. */
  lemma {:induction false} Appends(l: Log, es: seq<Entry>)
    requires l.snapshotIndex == 0
    requires forall j :: 0 <= j < |es| ==> es[j].term != 0 && es[j].index > |l.entries| + j
    ensures l.AcceptAll(es) == l.(entries := l.entries + es)
    decreases |es|
  {
    if es == [] {
      assert l.entries + es == l.entries;
    } else {
      var rest, l1 := es[1..], l.Append(es[0]);
      assert l.TermAt(es[0].index) == 0 && l.TruncateFrom(es[0].index) == l;
      assert l.Accept(es[0]) == l1;
      forall j | 0 <= j < |rest| ensures rest[j].term != 0 && rest[j].index > |l1.entries| + j {
        assert rest[j] == es[j + 1];
      }
      Appends(l1, rest);
      assert l.entries + es == l1.entries + rest;
    }
  }

  lemma Node1AcceptsAgain(k: nat)
    requires B2.Wf() && k > 0
    ensures Step(B2, 0, AppendEntries(1, 0, 1, 1, Es(k), 1)) == (B3(k), [Send(0, AppendEntriesResp(1, true, k + 1))])
  {
    Appends(B2.log, Es(k));
    EndOf(B3(k).log, k + 1);
  }

  lemma Node1Drains(k: nat)
    ensures TakeCommitted(B3(k)) == (B4(k), [(1, [1])])
  {
    assert CommandsIn(B3(k).log, 1, 1) == [];
    assert CommandIn(B3(k).log, 1) == [(1, [1])];
    assert CommandsIn(B3(k).log, 0, 1) == CommandIn(B3(k).log, 1) + [];
    var (n, cs) := TakeCommitted(B3(k));
    assert n == B4(k) && cs == [(1, [1])];
  }

  lemma Node1Folds(k: nat, keep: nat)
    requires B4(k).Wf() && k == keep + 1
    ensures MaybeCompact(B4(k), keep) == B5(k)
  {
    EndOf(B4(k).log, k + 1);
    assert ([E1] + Es(k))[1..] == Es(k);
  }

  lemma Node1Campaigns(k: nat)
    requires B5(k).Wf() && k > 0
    ensures Tick(B5(k), true) == (B6(k), [Send(0, RequestVote(2, 1, k + 1, 1)), Send(2, RequestVote(2, 1, k + 1, 1))])
  {
    var c := Campaign(B5(k));
    assert c.votes == [false, true, false];
    assert c == B6(k);
    Votes();
    EndOf(c.log, k + 1);
    Asks(c, 0);
    assert VoteRequests(c, 0) + [] == VoteRequests(c, 0);
  }

  lemma Node2Votes(k: nat)
    requires Fresh(2).Wf()
    ensures Step(Fresh(2), 1, RequestVote(2, 1, k + 1, 1)) == (C1, [Send(1, RequestVoteResp(2, true))])
  {
  }

  lemma Node1Leads(k: nat)
    requires B6(k).Wf() && B7(k, k + 2).Wf() && k > 0
    ensures Step(B6(k), 2, RequestVoteResp(2, true)) ==
            (B7(k, k + 2), [AppendTo(B7(k, k + 2), 0), Send(2, AppendEntries(2, 1, k + 1, 1, [], 1))])
  {
    var c, n := CountVote(B6(k), 2), B7(k, k + 2);
    assert c.votes == [false, true, true];
    Votes();
    EndOf(c.log, k + 1);
    assert Lead(c).nextIndex == [k + 2, k + 2, k + 2] && Lead(c).matchIndex == [0, k + 1, 0];
    assert Lead(c) == n;
    Tells(n, 0);
    assert n.log.EntriesFrom(k + 2) == [] && n.log.TermAt(k + 1) == 1;
  }

  lemma Node2Refuses(k: nat)
    requires C1.Wf()
    ensures Step(C1, 1, AppendEntries(2, 1, k + 1, 1, [], 1)) == (C2, [Send(1, AppendEntriesResp(2, false, 0))])
  {
  }

  lemma Node1BacksOff(k: nat, x: nat)
    requires B7(k, x).Wf() && x > 1
    ensures B7(k, x - 1).nextIndex[2] == x - 1 > 0
    ensures Step(B7(k, x), 2, AppendEntriesResp(2, false, 0)) == (B7(k, x - 1), [AppendTo(B7(k, x - 1), 2)])
  {
    assert BackOff(B7(k, x), 2).nextIndex == [k + 2, k + 2, x - 1];
  }

  lemma Node1SendsAll(k: nat)
    ensures AppendTo(B7(k, 1), 2) == Send(2, AppendEntries(2, 1, 0, 0, Es(k), 1))
  {
    assert Es(k)[0..] == Es(k);
  }

  lemma Node2Misfiles(k: nat)
    requires C2.Wf() && k > 0
    ensures Step(C2, 1, AppendEntries(2, 1, 0, 0, Es(k), 1)).0 == C3(k)
  {
    Appends(C2.log, Es(k));
    EndOf(C3(k).log, k + 1);
  }

  lemma Node2Drains(k: nat)
    requires k > 0
    ensures TakeCommitted(C3(k)).1 == [(1, [2])]
  {
    assert CommandsIn(C3(k).log, 1, 1) == [];
    assert CommandIn(C3(k).log, 1) == [(1, [2])];
    assert CommandsIn(C3(k).log, 0, 1) == CommandIn(C3(k).log, 1) + [];
  }

  // ---------- the run ----------

  /** Every compaction keeps `keep` entries. */
  ghost predicate Keeping(moves: seq<Move>, keep: nat) {
    forall k :: 0 <= k < |moves| && moves[k].Fold? ==> moves[k].keep == keep
  }

  /** After `moves` from `s0` the group is `a`, `b`, `c`. */
  ghost predicate Reaches(s0: Sys, keep: nat, moves: seq<Move>, s: Sys, a: Node, b: Node, c: Node) {
    s == Go(s0, moves) && Trio(s, a, b, c) && Keeping(moves, keep)
  }

  /** One more move, which only changes node `i`, and that to `m`. */
  lemma MoveOn(s0: Sys, keep: nat, moves: seq<Move>, s: Sys, a: Node, b: Node, c: Node, i: nat, m: Node,
               mv: Move, t: Sys)
    requires Reaches(s0, keep, moves, s, a, b, c) && i < 3 && t == Next(s, mv) && t.nodes == s.nodes[i := m]
    requires mv.Fold? ==> mv.keep == keep
    ensures Reaches(s0, keep, moves + [mv], t, if i == 0 then m else a, if i == 1 then m else b,
                    if i == 2 then m else c)
  {
    GoOn(s0, moves, mv);
    KeepingOn(moves, keep, mv);
    TrioPut(s, t, a, b, c, i, m);
  }

  lemma KeepingOn(moves: seq<Move>, keep: nat, mv: Move)
    requires Keeping(moves, keep) && (mv.Fold? ==> mv.keep == keep)
    ensures Keeping(moves + [mv], keep)
  {
  }

  lemma TrioPut(s: Sys, t: Sys, a: Node, b: Node, c: Node, i: nat, m: Node)
    requires Trio(s, a, b, c) && i < 3 && t.nodes == s.nodes[i := m]
    ensures Trio(t, if i == 0 then m else a, if i == 1 then m else b, if i == 2 then m else c)
  {
  }

  lemma DeliverMove(s0: Sys, keep: nat, moves: seq<Move>, s: Sys, a: Node, b: Node, c: Node, p: Packet, m: Node,
                    sends: seq<Send>)
    returns (moves': seq<Move>, t: Sys)
    requires Reaches(s0, keep, moves, s, a, b, c) && p in s.net && p.dst < 3
    requires var n := s.nodes[p.dst]; n.Wf() && p.src in n.peers && Step(n, p.src, p.msg) == (m, sends)
    ensures Reaches(s0, keep, moves', t, if p.dst == 0 then m else a, if p.dst == 1 then m else b,
                    if p.dst == 2 then m else c)
    ensures Grown(s, t) && forall k :: 0 <= k < |sends| ==> Sent(t, p.dst, sends[k])
  {
    moves', t := moves + [Act(Deliver(p))], Apply(s, Deliver(p));
    Delivered(s, p, s.nodes[p.dst], m, sends);
    MoveOn(s0, keep, moves, s, a, b, c, p.dst, m, Act(Deliver(p)), t);
    forall k | 0 <= k < |sends| ensures Sent(t, p.dst, sends[k]) { PutSends(s, p.dst, m, sends, k); }
  }

  lemma TimerMove(s0: Sys, keep: nat, moves: seq<Move>, s: Sys, a: Node, b: Node, c: Node, i: nat, m: Node,
                  sends: seq<Send>)
    returns (moves': seq<Move>, t: Sys)
    requires Reaches(s0, keep, moves, s, a, b, c) && i < 2
    requires var n := s.nodes[i]; n.Wf() && Tick(n, true) == (m, sends)
    ensures Reaches(s0, keep, moves', t, if i == 0 then m else a, if i == 1 then m else b, c)
    ensures Grown(s, t) && forall k :: 0 <= k < |sends| ==> Sent(t, i, sends[k])
  {
    moves', t := moves + [Act(Timer(i, true))], Apply(s, Timer(i, true));
    Ticked(s, i, s.nodes[i], m, sends);
    MoveOn(s0, keep, moves, s, a, b, c, i, m, Act(Timer(i, true)), t);
    forall k | 0 <= k < |sends| ensures Sent(t, i, sends[k]) { PutSends(s, i, m, sends, k); }
  }

  lemma ProposeMove(s0: Sys, keep: nat, moves: seq<Move>, s: Sys, a: Node, b: Node, c: Node, command: Command, m: Node)
    returns (moves': seq<Move>, t: Sys)
    requires Reaches(s0, keep, moves, s, a, b, c) && a.Wf() && Propose(a, command).0 == m
    ensures Reaches(s0, keep, moves', t, m, b, c) && Grown(s, t)
  {
    var mv := Act(ClientPropose(0, command));
    moves', t := moves + [mv], Next(s, mv);
    MoveOn(s0, keep, moves, s, a, b, c, 0, m, mv, t);
  }

  lemma DrainMove(s0: Sys, keep: nat, moves: seq<Move>, s: Sys, a: Node, b: Node, c: Node, i: nat, command: Command)
    returns (moves': seq<Move>, t: Sys)
    requires Reaches(s0, keep, moves, s, a, b, c) && 1 <= i < 3 && s.nodes[i].Wf()
    requires TakeCommitted(s.nodes[i]).1 == [(1, command)]
    ensures Grown(s, t) && Applied(i, 1, command) in t.drained
    ensures Reaches(s0, keep, moves', t, a, if i == 1 then TakeCommitted(b).0 else b,
                    if i == 2 then TakeCommitted(c).0 else c)
  {
    var mv := Act(Drain(i));
    var (m, cs) := TakeCommitted(s.nodes[i]);
    moves', t := moves + [mv], Next(s, mv);
    assert cs[0] == (1, command);
    assert Applied(i, cs[0].0, cs[0].1) in AppliedBy(i, cs);
    MoveOn(s0, keep, moves, s, a, b, c, i, m, mv, t);
  }

  lemma FoldMove(s0: Sys, keep: nat, moves: seq<Move>, s: Sys, a: Node, b: Node, c: Node, m: Node)
    returns (moves': seq<Move>, t: Sys)
    requires Reaches(s0, keep, moves, s, a, b, c) && b.Wf() && MaybeCompact(b, keep) == m
    ensures Reaches(s0, keep, moves', t, a, m, c) && Grown(s, t)
  {
    moves', t := moves + [Fold(1, keep)], Next(s, Fold(1, keep));
    MoveOn(s0, keep, moves, s, a, b, c, 1, m, Fold(1, keep), t);
  }

  /** Node 0 is elected with node 1's vote. */
  lemma Election(s0: Sys, keep: nat) returns (ms: seq<Move>, s: Sys)
    requires Trio(s0, Fresh(0), Fresh(1), Fresh(2))
    ensures Reaches(s0, keep, ms, s, A2, B1, Fresh(2))
  {
    FitIsWf(Fresh(0)); FitIsWf(Fresh(1)); FitIsWf(A1); FitIsWf(A2);
    Node0Campaigns();
    Node1Votes();
    Node0Leads();
    var ask, yes := RequestVote(1, 0, 0, 0), RequestVoteResp(1, true);
    var asks := [Send(1, ask), Send(2, ask)];
    ms, s := TimerMove(s0, keep, [], s0, Fresh(0), Fresh(1), Fresh(2), 0, A1, asks);
    assert Sent(s, 0, asks[0]);
    ms, s := DeliverMove(s0, keep, ms, s, A1, Fresh(1), Fresh(2), Packet(0, 1, ask), B1, [Send(0, yes)]);
    assert Sent(s, 1, [Send(0, yes)][0]);
    ms, s := DeliverMove(s0, keep, ms, s, A1, B1, Fresh(2), Packet(1, 0, yes), A2, Step(A1, 1, yes).1);
  }

  /** Node 0 commits a first command on nodes 0 and 1. */
  lemma FirstCommand(s0: Sys, ms0: seq<Move>, s1: Sys, keep: nat) returns (ms: seq<Move>, s: Sys)
    requires Reaches(s0, keep, ms0, s1, A2, B1, Fresh(2))
    ensures Reaches(s0, keep, ms, s, A4, B2, Fresh(2))
  {
    Fits(0);
    Node0Proposes();
    Node1Accepts();
    Node0Commits();
    ms, s := ProposeMove(s0, keep, ms0, s1, A2, B1, Fresh(2), [1], A3);
    Tells(A3, 1);
    assert [E1][0..] == [E1];
    var add := AppendEntries(1, 0, 0, 0, [E1], 0);
    assert AppendTo(A3, 1) == Send(1, add);
    ms, s := TimerMove(s0, keep, ms, s, A3, B1, Fresh(2), 0, A3, Broadcast(A3));
    assert Sent(s, 0, Broadcast(A3)[0]);
    var ack := AppendEntriesResp(1, true, 1);
    ms, s := DeliverMove(s0, keep, ms, s, A3, B1, Fresh(2), Packet(0, 1, add), B2, [Send(0, ack)]);
    assert Sent(s, 1, [Send(0, ack)][0]);
    ms, s := DeliverMove(s0, keep, ms, s, A3, B2, Fresh(2), Packet(1, 0, ack), A4, Step(A3, 1, ack).1);
  }

  /** Node 0 takes `k` more commands. */
  lemma {:induction false} MoreCommands(s0: Sys, ms0: seq<Move>, s1: Sys, k: nat, keep: nat)
    returns (ms: seq<Move>, s: Sys)
    requires Reaches(s0, keep, ms0, s1, A4, B2, Fresh(2))
    ensures Reaches(s0, keep, ms, s, A5(k), B2, Fresh(2))
    decreases k
  {
    if k == 0 {
      assert [E1] + Es(0) == [E1];
      assert A5(0) == A4;
      ms, s := ms0, s1;
    } else {
      ms, s := MoreCommands(s0, ms0, s1, k - 1, keep);
      ms, s := OneMoreCommand(s0, ms, s, k - 1, keep);
    }
  }

  lemma OneMoreCommand(s0: Sys, ms0: seq<Move>, s1: Sys, k: nat, keep: nat) returns (ms: seq<Move>, s: Sys)
    requires Reaches(s0, keep, ms0, s1, A5(k), B2, Fresh(2))
    ensures Reaches(s0, keep, ms, s, A5(k + 1), B2, Fresh(2))
  {
    FitIsWf(A5(k));
    FitIsWf(A5(k + 1));
    Node0ProposesAgain(k);
    ms, s := ProposeMove(s0, keep, ms0, s1, A5(k), B2, Fresh(2), [2], A5(k + 1));
  }

  /** Node 1 gets them, applies the first command and folds it away. */
  lemma SecondCommand(s0: Sys, ms0: seq<Move>, s1: Sys, k: nat, keep: nat) returns (ms: seq<Move>, s: Sys)
    requires Reaches(s0, keep, ms0, s1, A5(k), B2, Fresh(2)) && k == keep + 1
    ensures Reaches(s0, keep, ms, s, A5(k), B5(k), Fresh(2)) && Applied(1, 1, [1]) in s.drained
  {
    Fits(k);
    Node1AcceptsAgain(k);
    Node1Drains(k);
    Node1Folds(k, keep);
    Tells(A5(k), 1);
    assert ([E1] + Es(k))[1..] == Es(k);
    var add := AppendEntries(1, 0, 1, 1, Es(k), 1);
    assert AppendTo(A5(k), 1) == Send(1, add);
    ms, s := TimerMove(s0, keep, ms0, s1, A5(k), B2, Fresh(2), 0, A5(k), Broadcast(A5(k)));
    assert Sent(s, 0, Broadcast(A5(k))[0]);
    var ack := Send(0, AppendEntriesResp(1, true, k + 1));
    ms, s := DeliverMove(s0, keep, ms, s, A5(k), B2, Fresh(2), Packet(0, 1, add), B3(k), [ack]);
    ms, s := DrainMove(s0, keep, ms, s, A5(k), B3(k), Fresh(2), 1, [1]);
    var t := s;
    ms, s := FoldMove(s0, keep, ms, s, A5(k), B4(k), Fresh(2), B5(k));
    assert Grown(t, s);
  }

  /** Node 1 is elected with node 2's vote. */
  lemma SecondElection(s0: Sys, ms0: seq<Move>, s1: Sys, k: nat, keep: nat) returns (ms: seq<Move>, s: Sys)
    requires Reaches(s0, keep, ms0, s1, A5(k), B5(k), Fresh(2)) && k > 0
    ensures Reaches(s0, keep, ms, s, A5(k), B7(k, k + 2), C1) && Grown(s1, s)
    ensures Sent(s, 1, Send(2, AppendEntries(2, 1, k + 1, 1, [], 1)))
  {
    Fits(k);
    FitIsWf(B7(k, k + 2));
    Node1Campaigns(k);
    Node2Votes(k);
    Node1Leads(k);
    var ask, yes, beat := RequestVote(2, 1, k + 1, 1), RequestVoteResp(2, true), AppendEntries(2, 1, k + 1, 1, [], 1);
    var asks := [Send(0, ask), Send(2, ask)];
    ms, s := TimerMove(s0, keep, ms0, s1, A5(k), B5(k), Fresh(2), 1, B6(k), asks);
    assert Sent(s, 1, asks[1]);
    ms, s := DeliverMove(s0, keep, ms, s, A5(k), B6(k), Fresh(2), Packet(1, 2, ask), C1, [Send(1, yes)]);
    assert Sent(s, 2, [Send(1, yes)][0]);
    var tells := [AppendTo(B7(k, k + 2), 0), Send(2, beat)];
    ms, s := DeliverMove(s0, keep, ms, s, A5(k), B6(k), C1, Packet(2, 1, yes), B7(k, k + 2), tells);
    assert Sent(s, 1, tells[1]);
  }

  /** Node 1 hears node 2's refusal until its next index is `x`. */
  lemma {:induction false} BackingOff(s0: Sys, ms0: seq<Move>, s1: Sys, k: nat, x: nat, keep: nat)
    returns (ms: seq<Move>, s: Sys)
    requires Reaches(s0, keep, ms0, s1, A5(k), B7(k, k + 2), C2) && 1 <= x < k + 2
    requires Sent(s1, 2, Send(1, AppendEntriesResp(2, false, 0)))
    ensures Reaches(s0, keep, ms, s, A5(k), B7(k, x), C2) && Grown(s1, s)
    ensures B7(k, x).nextIndex[2] == x && Sent(s, 1, AppendTo(B7(k, x), 2))
    decreases k + 2 - x
  {
    ms, s := ms0, s1;
    if x + 1 < k + 2 { ms, s := BackingOff(s0, ms0, s1, k, x + 1, keep); }
    FitIsWf(B7(k, x + 1));
    Node1BacksOff(k, x + 1);
    var t, sends := s, [AppendTo(B7(k, x), 2)];
    var no := Packet(2, 1, AppendEntriesResp(2, false, 0));
    ms, s := DeliverMove(s0, keep, ms, s, A5(k), B7(k, x + 1), C2, no, B7(k, x), sends);
    assert Sent(s, 1, sends[0]) && Grown(t, s);
  }

  /** Node 1 backs off to below its snapshot, and node 2 takes what is left. */
  lemma Misfiling(s0: Sys, ms0: seq<Move>, s1: Sys, k: nat, keep: nat) returns (ms: seq<Move>, s: Sys)
    requires Reaches(s0, keep, ms0, s1, A5(k), B7(k, k + 2), C1) && k > 0
    requires Sent(s1, 1, Send(2, AppendEntries(2, 1, k + 1, 1, [], 1)))
    ensures Reaches(s0, keep, ms, s, A5(k), B7(k, 1), C3(k)) && Grown(s1, s)
  {
    Fits(k);
    Node2Refuses(k);
    Node1SendsAll(k);
    Node2Misfiles(k);
    var nos, all := [Send(1, AppendEntriesResp(2, false, 0))], AppendEntries(2, 1, 0, 0, Es(k), 1);
    var beat := Packet(1, 2, AppendEntries(2, 1, k + 1, 1, [], 1));
    ms, s := DeliverMove(s0, keep, ms0, s1, A5(k), B7(k, k + 2), C1, beat, C2, nos);
    assert Sent(s, 2, nos[0]);
    var t := s;
    ms, s := BackingOff(s0, ms, s, k, 1, keep);
    assert Grown(s1, t) && Grown(t, s);
    ms, s := DeliverMove(s0, keep, ms, s, A5(k), B7(k, 1), C2, Packet(1, 2, all), C3(k), Step(C2, 1, all).1);
  }

  function Group(): Sys {
    Sys(map[0 := Fresh(0), 1 := Fresh(1), 2 := Fresh(2)], {}, {})
  }

  ghost predicate InMemory(s: Sys) {
    forall i :: i in s.nodes ==> !s.nodes[i].log.durable
  }

  lemma GroupIsInitial()
    ensures Initial(PEERS, Group()) && InMemory(Group())
  {
    FreshIsNew(0);
    FreshIsNew(1);
    FreshIsNew(2);
    assert Members(PEERS) == {0, 1, 2};
    forall i | i in Group().nodes ensures exists durable :: Group().nodes[i] == NewNode(i, PEERS, EmptyLog(durable)) {
      assert Group().nodes[i] == NewNode(i, PEERS, EmptyLog(false));
    }
  }

  /** For every number of entries a node keeps, a run of a three-node in-memory group
      from its start in which folding an applied prefix ends with two nodes applying
      different commands at index 1. */
  lemma GapAfterCompaction(keep: nat) returns (ms: seq<Move>)
    ensures Initial(PEERS, Group()) && InMemory(Group())
    ensures Keeping(ms, keep) && !Serving(Group(), ms)
    ensures Applied(1, 1, [1]) in Go(Group(), ms).drained && Applied(2, 1, [2]) in Go(Group(), ms).drained
  {
    GroupIsInitial();
    ms := GapFrom(Group(), keep);
    if Serving(Group(), ms) {
      FoldingSafety(PEERS, Group(), ms, Applied(1, 1, [1]), Applied(2, 1, [2]));
    }
  }

  lemma GapFrom(s0: Sys, keep: nat) returns (ms: seq<Move>)
    requires Trio(s0, Fresh(0), Fresh(1), Fresh(2))
    ensures Keeping(ms, keep)
    ensures Applied(1, 1, [1]) in Go(s0, ms).drained && Applied(2, 1, [2]) in Go(s0, ms).drained
  {
    var k, s := keep + 1, s0;
    ms, s := Election(s0, keep);
    ms, s := FirstCommand(s0, ms, s, keep);
    ms, s := MoreCommands(s0, ms, s, k, keep);
    ms, s := SecondCommand(s0, ms, s, k, keep);
    ms, s := SecondElection(s0, ms, s, k, keep);
    ms, s := Misfiling(s0, ms, s, k, keep);
    Fits(k);
    Node2Drains(k);
    ms, s := DrainMove(s0, keep, ms, s, A5(k), B7(k, 1), C3(k), 2, [2]);
  }
}
