/** A run in which a client is answered with the reply to somebody else's command:
    the table of waiting clients does not remember the term of a proposal. */
module CpStale {
  import opened Basics
  import opened RaftLogs
  import opened RaftNodes
  import opened RaftSystem
  import opened RaftGap
  import RP = RaftProposals
  import CC = CpConvergence
  import CM = CpModel
  import opened CpClients

  const ALL: nat -> bool := (k: nat) => true

  /** After `actions` from `s0` the group is `a`, `b`, `c`, and node 0's waiting clients are `p`. */
  ghost predicate Reached(s0: Sys, actions: seq<Action>, s: Sys, a: Node, b: Node, c: Node, p: map<nat, nat>) {
    s == Run(s0, actions) && Trio(s, a, b, c) && Pending(s0, actions, 0, ALL) == p
  }

  lemma OneMore(s0: Sys, actions: seq<Action>, s: Sys, a: Node, b: Node, c: Node, p: map<nat, nat>,
                act: Action, i: nat, m: Node)
    requires Reached(s0, actions, s, a, b, c, p) && Enabled(s, act)
    requires i < 3 && Apply(s, act).nodes == s.nodes[i := m]
    ensures Reached(s0, actions + [act], Apply(s, act), if i == 0 then m else a, if i == 1 then m else b,
                    if i == 2 then m else c, PendingNext(p, s, act, 0, |actions|, ALL))
  {
    assert (actions + [act])[..|actions|] == actions;
    TrioPut(s, Apply(s, act), a, b, c, i, m);
  }

  lemma Receives(s0: Sys, actions: seq<Action>, s: Sys, a: Node, b: Node, c: Node, p: map<nat, nat>,
                 src: nat, dst: nat, msg: Msg, m: Node, sends: seq<Send>)
    returns (actions': seq<Action>, t: Sys)
    requires Reached(s0, actions, s, a, b, c, p) && dst < 3 && Sent(s, src, Send(dst, msg))
    requires var n := s.nodes[dst]; n.Wf() && src in n.peers && Step(n, src, msg) == (m, sends)
    ensures Reached(s0, actions', t, if dst == 0 then m else a, if dst == 1 then m else b, if dst == 2 then m else c, p)
    ensures actions' == actions + [Deliver(Packet(src, dst, msg))]
    ensures Grown(s, t) && forall k :: 0 <= k < |sends| ==> Sent(t, dst, sends[k])
  {
    var act := Deliver(Packet(src, dst, msg));
    actions', t := actions + [act], Apply(s, act);
    Delivered(s, act.packet, s.nodes[dst], m, sends);
    OneMore(s0, actions, s, a, b, c, p, act, dst, m);
    forall k | 0 <= k < |sends| ensures Sent(t, dst, sends[k]) { PutSends(s, dst, m, sends, k); }
  }

  lemma Fires(s0: Sys, actions: seq<Action>, s: Sys, a: Node, b: Node, c: Node, p: map<nat, nat>,
              i: nat, m: Node, sends: seq<Send>)
    returns (actions': seq<Action>, t: Sys)
    requires Reached(s0, actions, s, a, b, c, p) && i < 2
    requires var n := s.nodes[i]; n.Wf() && Tick(n, true) == (m, sends)
    ensures Reached(s0, actions', t, if i == 0 then m else a, if i == 1 then m else b, c, p)
    ensures actions' == actions + [Timer(i, true)]
    ensures Grown(s, t) && forall k :: 0 <= k < |sends| ==> Sent(t, i, sends[k])
  {
    var act := Timer(i, true);
    actions', t := actions + [act], Apply(s, act);
    Ticked(s, i, s.nodes[i], m, sends);
    OneMore(s0, actions, s, a, b, c, p, act, i, m);
    forall k | 0 <= k < |sends| ensures Sent(t, i, sends[k]) { PutSends(s, i, m, sends, k); }
  }

  lemma Takes(s0: Sys, actions: seq<Action>, s: Sys, a: Node, b: Node, c: Node, p: map<nat, nat>,
              i: nat, command: Command, m: Node, index: nat)
    returns (actions': seq<Action>, t: Sys)
    requires Reached(s0, actions, s, a, b, c, p) && i < 2
    requires var n := s.nodes[i]; n.Wf() && Propose(n, command) == (m, Some(index))
    ensures Reached(s0, actions', t, if i == 0 then m else a, if i == 1 then m else b, c,
                    if i == 0 then p[index := |actions|] else p)
    ensures actions' == actions + [ClientPropose(i, command)]
    ensures RP.Proposed(s0, actions', |actions|, i, command, index)
  {
    var act := ClientPropose(i, command);
    actions', t := actions + [act], Apply(s, act);
    OneMore(s0, actions, s, a, b, c, p, act, i, m);
    assert actions'[..|actions|] == actions;
  }

  // ---------- the second leader ----------

  const D1 :=
    Node(1, PEERS, Candidate, 2, Some(1), Mem([], 2, 1), 0, 0, None, [false, true, false], [1, 1, 1], [0, 0, 0])
  const D2 := D1.(role := Leader, leader := Some(1), votes := [false, true, true])

  function F1(theirs: Command): Entry {
    Entry(2, 1, theirs)
  }

  function D3(theirs: Command): Node {
    D2.(log := Mem([F1(theirs)], 2, 1), matchIndex := [0, 1, 0])
  }

  function D4(theirs: Command): Node {
    D3(theirs).(commitIndex := 1, nextIndex := [1, 1, 2], matchIndex := [0, 1, 1])
  }

  function C4(theirs: Command): Node {
    C1.(leader := Some(1), log := Mem([F1(theirs)], 2, 1))
  }

  /** Node 0 overruled. */
  function A6(theirs: Command): Node {
    A3.(role := Follower, term := 2, votedFor := None, leader := Some(1), commitIndex := 1,
        log := Log([F1(theirs)], 2, None, false, 0, 0))
  }

  lemma Campaigns()
    requires B1.Wf()
    ensures Tick(B1, true) == (D1, [Send(0, RequestVote(2, 1, 0, 0)), Send(2, RequestVote(2, 1, 0, 0))])
  {
    var c := Campaign(B1);
    assert c.votes == [false, true, false];
    assert c == D1;
    Votes();
    Asks(c, 0);
    assert VoteRequests(c, 0) + [] == VoteRequests(c, 0);
  }

  lemma VotesAgain()
    requires Fresh(2).Wf()
    ensures Step(Fresh(2), 1, RequestVote(2, 1, 0, 0)) == (C1, [Send(1, RequestVoteResp(2, true))])
  {
  }

  lemma Leads()
    requires D1.Wf() && D2.Wf()
    ensures Step(D1, 2, RequestVoteResp(2, true)).0 == D2
  {
    var c := CountVote(D1, 2);
    assert c.votes == [false, true, true];
    Votes();
    assert Lead(c).nextIndex == [1, 1, 1] && Lead(c).matchIndex == [0, 0, 0];
    assert Lead(c) == D2;
  }

  lemma Proposes(theirs: Command)
    requires D2.Wf()
    ensures Propose(D2, theirs) == (D3(theirs), Some(1))
  {
    var n := AppendOwn(D2, theirs);
    assert n.log.entries == [F1(theirs)] && n.matchIndex == [0, 1, 0] && n == D3(theirs);
    assert Replicas(n, 1) == {1};
    assert !Committable(n, 1);
    assert HighestCommittable(n, 1) == 0;
  }

  lemma Tells2(n: Node, theirs: Command)
    requires Fit(n) && n.Wf() && n.id == 1 && n.role == Leader && n.term == 2 && n.nextIndex[0] == 1
    requires n.log == Mem([F1(theirs)], 2, 1)
    ensures Tick(n, true) == (n, [Send(0, AppendEntries(2, 1, 0, 0, [F1(theirs)], n.commitIndex)), AppendTo(n, 2)])
    ensures n.nextIndex[2] == 1 ==> AppendTo(n, 2) == Send(2, AppendEntries(2, 1, 0, 0, [F1(theirs)], n.commitIndex))
  {
    Tells(n, 0);
    assert [F1(theirs)][0..] == [F1(theirs)];
  }

  lemma Accepts(theirs: Command)
    requires C1.Wf()
    ensures Step(C1, 1, AppendEntries(2, 1, 0, 0, [F1(theirs)], 0)) ==
            (C4(theirs), [Send(1, AppendEntriesResp(2, true, 1))])
  {
    var e := F1(theirs);
    assert [e][1..] == [];
    assert Mem([], 2, 1).Accept(e) == Mem([e], 2, 1);
    assert Mem([], 2, 1).AcceptAll([e]) == Mem([e], 2, 1).AcceptAll([]);
  }

  lemma Commits(theirs: Command)
    requires D3(theirs).Wf() && D4(theirs).Wf()
    ensures Step(D3(theirs), 2, AppendEntriesResp(2, true, 1)).0 == D4(theirs)
  {
    var n := Confirm(D3(theirs), 2, 1);
    assert n.matchIndex == [0, 1, 1] && n.nextIndex == [1, 1, 2];
    assert Replicas(n, 1) == {1, 2};
    assert Committable(n, 1);
  }

  lemma IsOverruled(theirs: Command)
    requires A3.Wf()
    ensures Step(A3, 1, AppendEntries(2, 1, 0, 0, [F1(theirs)], 1)).0 == A6(theirs)
  {
    var e, l := F1(theirs), Log([E1], 2, None, false, 0, 0);
    assert [e][1..] == [];
    assert l.TruncateFrom(1).entries == [];
    assert l.Accept(e) == l.(entries := [e]);
    assert l.AcceptAll([e]) == l.Accept(e).AcceptAll([]);
  }

  lemma Drains(theirs: Command)
    ensures TakeCommitted(A6(theirs)).1 == [(1, theirs)]
  {
    var l := A6(theirs).log;
    assert CommandsIn(l, 1, 1) == [];
    assert CommandIn(l, 1) == [(1, theirs)];
    assert CommandsIn(l, 0, 1) == CommandIn(l, 1) + [];
  }

  // ---------- the run ----------

  /** Node 0 leads. */
  lemma Elected(s0: Sys) returns (acts: seq<Action>, s: Sys)
    requires s0 == Group()
    ensures Reached(s0, acts, s, A2, B1, Fresh(2), map[]) && |acts| == 3
  {
    FitIsWf(Fresh(0)); FitIsWf(Fresh(1)); FitIsWf(A1); FitIsWf(A2);
    Node0Campaigns();
    Node1Votes();
    Node0Leads();
    var ask, yes := RequestVote(1, 0, 0, 0), RequestVoteResp(1, true);
    var asks := [Send(1, ask), Send(2, ask)];
    acts, s := Fires(s0, [], s0, Fresh(0), Fresh(1), Fresh(2), map[], 0, A1, asks);
    assert Sent(s, 0, asks[0]);
    acts, s := Receives(s0, acts, s, A1, Fresh(1), Fresh(2), map[], 0, 1, ask, B1, [Send(0, yes)]);
    assert Sent(s, 1, [Send(0, yes)][0]);
    acts, s := Receives(s0, acts, s, A1, B1, Fresh(2), map[], 1, 0, yes, A2, Step(A1, 1, yes).1);
  }

  /** Node 0 takes a client's command. */
  lemma First(s0: Sys) returns (acts: seq<Action>, s: Sys)
    requires s0 == Group()
    ensures Reached(s0, acts, s, A3, B1, Fresh(2), map[1 := 3])
    ensures |acts| == 4 && RP.Proposed(s0, acts, 3, 0, [1], 1)
  {
    FitIsWf(A2); FitIsWf(A3);
    Node0Proposes();
    acts, s := Elected(s0);
    acts, s := Takes(s0, acts, s, A2, B1, Fresh(2), map[], 0, [1], A3, 1);
  }

  /** Node 1 leads the next term and commits another command at the same index. */
  lemma Second(s0: Sys, acts0: seq<Action>, s1: Sys, theirs: Command, p: map<nat, nat>)
    returns (acts: seq<Action>, s: Sys)
    requires Reached(s0, acts0, s1, A3, B1, Fresh(2), p)
    ensures Reached(s0, acts, s, A3, D4(theirs), C4(theirs), p) && acts0 <= acts
  {
    Fits(0);
    FitIsWf(D1); FitIsWf(D2); FitIsWf(D3(theirs)); FitIsWf(D4(theirs));
    Campaigns();
    VotesAgain();
    Leads();
    Proposes(theirs);
    Accepts(theirs);
    Commits(theirs);
    var f := Fresh(2);
    var ask, yes, ack := RequestVote(2, 1, 0, 0), RequestVoteResp(2, true), AppendEntriesResp(2, true, 1);
    var asks := [Send(0, ask), Send(2, ask)];
    acts, s := Fires(s0, acts0, s1, A3, B1, f, p, 1, D1, asks);
    assert Sent(s, 1, asks[1]);
    acts, s := Receives(s0, acts, s, A3, D1, f, p, 1, 2, ask, C1, [Send(1, yes)]);
    assert Sent(s, 2, [Send(1, yes)][0]);
    acts, s := Receives(s0, acts, s, A3, D1, C1, p, 2, 1, yes, D2, Step(D1, 2, yes).1);
    acts, s := Takes(s0, acts, s, A3, D2, C1, p, 1, theirs, D3(theirs), 1);
    Tells2(D3(theirs), theirs);
    var sends := Tick(D3(theirs), true).1;
    acts, s := Fires(s0, acts, s, A3, D3(theirs), C1, p, 1, D3(theirs), sends);
    assert Sent(s, 1, sends[1]);
    acts, s := Receives(s0, acts, s, A3, D3(theirs), C1, p, 1, 2, sends[1].msg, C4(theirs), [Send(1, ack)]);
    assert Sent(s, 2, [Send(1, ack)][0]);
    acts, s := Receives(s0, acts, s, A3, D3(theirs), C4(theirs), p, 2, 1, ack, D4(theirs), Step(D3(theirs), 2, ack).1);
  }

  /** Node 0 hears of it and has the other command to apply. */
  lemma Third(s0: Sys, acts0: seq<Action>, s1: Sys, theirs: Command, p: map<nat, nat>)
    returns (acts: seq<Action>, s: Sys)
    requires Reached(s0, acts0, s1, A3, D4(theirs), C4(theirs), p)
    ensures Reached(s0, acts, s, A6(theirs), D4(theirs), C4(theirs), p) && acts0 <= acts
  {
    FitIsWf(A3);
    FitIsWf(D4(theirs));
    Tells2(D4(theirs), theirs);
    IsOverruled(theirs);
    var sends := Tick(D4(theirs), true).1;
    acts, s := Fires(s0, acts0, s1, A3, D4(theirs), C4(theirs), p, 1, D4(theirs), sends);
    assert Sent(s, 1, sends[0]);
    var beat := sends[0].msg;
    acts, s := Receives(s0, acts, s, A3, D4(theirs), C4(theirs), p, 1, 0, beat, A6(theirs), Step(A3, 1, beat).1);
  }

  lemma StillProposed(s0: Sys, acts: seq<Action>, acts': seq<Action>, k: nat, v: nat, command: Command, i: nat)
    requires RP.Proposed(s0, acts, k, v, command, i) && acts <= acts'
    ensures RP.Proposed(s0, acts', k, v, command, i)
  {
    assert acts[..k] == acts'[..k];
  }

  lemma OneAnswer(cp: CM.Cp, theirs: Command, decode: Command -> CM.Op)
    ensures Answers(cp, [(1, theirs)], map[1 := 3], decode) == [(3, CM.Apply(cp, decode(theirs)).1)]
  {
    assert [(1 as nat, theirs)][1..] == [];
  }

  /** The client whose command `[1]` node 0 filed under index 1 is answered with the
      reply to whatever command the next leader committed there. */
  lemma StaleAnswer(theirs: Command, decode: Command -> CM.Op) returns (s0: Sys, acts: seq<Action>)
    ensures Initial(PEERS, s0) && 0 in Run(s0, acts).nodes
    ensures RP.Proposed(s0, acts, 3, 0, [1], 1)
    ensures Answers(CC.Replica(s0, acts, 0, decode), TakeCommitted(Run(s0, acts).nodes[0]).1,
                    Pending(s0, acts, 0, ALL), decode) == [(3, CM.Apply(CM.FRESH, decode(theirs)).1)]
  {
    s0 := Group();
    GroupIsInitial();
    var s;
    acts, s := First(s0);
    var first := acts;
    acts, s := Second(s0, acts, s, theirs, map[1 := 3]);
    acts, s := Third(s0, acts, s, theirs, map[1 := 3]);
    StillProposed(s0, first, acts, 3, 0, [1], 1);
    Drains(theirs);
    CC.ReplicaIsLogPrefix(PEERS, s0, acts, 0, decode);
    assert CC.OpsOf(A6(theirs).log.entries, 0, decode) == [];
    OneAnswer(CM.FRESH, theirs, decode);
  }
}
