/** What the handlers answer and what a leader never takes back
    (crates/raft/src/lib.rs). */
module RaftReplies {
  import opened Basics
  import opened RaftLogs
  import opened RaftNodes
  import opened RaftSystem
  import opened RaftHistory
  import opened RaftSteps
  import opened RaftRuns

  // ---------- votes ----------

  /** Voter `v` has cast no ballot of term `u` for anyone but `c`. */
  ghost predicate Free(h: Hist, v: nat, u: nat, c: nat) {
    (v, u) in h.ballots ==> h.ballots[(v, u)].candidate == c
  }

  lemma GrantIs(peers: seq<nat>, h: Hist, n: Node, p: Packet)
    requires HistInv(peers, h) && NodeInv(peers, h, n) && p.dst == n.id && MsgInv(peers, h, p) && p.msg.RequestVote?
    requires p.src < |n.votes|
    ensures (p.src, p.msg.term) in h.candidacies
    ensures Step(n, p.src, p.msg).1 ==
            [Send(p.src, RequestVoteResp(Max(n.term, p.msg.term),
                                         && p.msg.term >= n.term
                                         && Free(h, n.id, p.msg.term, p.src)
                                         && UpToDate(h.candidacies[(p.src, p.msg.term)], n.log.entries)))]
  {
    LastFacts(peers, h, n);
  }

  /** In every run, a member answers a vote request with its term, and grants it
      exactly when that term is not ahead of the request's, it has cast no ballot of
      that term for another, and the log the candidate stood with is at least as
      recent as its own. */
  lemma VoteGrantedIff(peers: seq<nat>, s: Sys, actions: seq<Action>, p: Packet) returns (h: Hist)
    requires Initial(peers, s) && p in Run(s, actions).net && p.msg.RequestVote?
    ensures Inv(peers, Run(s, actions), h) && Enabled(Run(s, actions), Deliver(p))
    ensures (p.src, p.msg.term) in h.candidacies
    ensures var n := Run(s, actions).nodes[p.dst];
            Step(n, p.src, p.msg).1 ==
            [Send(p.src, RequestVoteResp(Max(n.term, p.msg.term),
                                         && p.msg.term >= n.term
                                         && Free(h, p.dst, p.msg.term, p.src)
                                         && UpToDate(h.candidacies[(p.src, p.msg.term)], n.log.entries)))]
  {
    h := RunInv(peers, s, actions);
    NothingIsStuck(peers, s, actions);
    var n := Run(s, actions).nodes[p.dst];
    assert MsgInv(peers, h, p) && NodeInv(peers, h, n);
    GrantIs(peers, h, n, p);
  }

  // ---------- messages of other terms ----------

  /** A message of an older term changes nothing; a request is refused with the newer
      term and a response is dropped. */
  lemma StaleIsTold(n: Node, from: nat, msg: Msg)
    requires n.Wf() && from < |n.votes| && msg.term < n.term
    ensures Step(n, from, msg).0 == n
    ensures Step(n, from, msg).1 ==
            match msg
            case RequestVote(_, c, _, _) => [Send(c, RequestVoteResp(n.term, false))]
            case AppendEntries(_, l, _, _, _, _) => [Send(l, AppendEntriesResp(n.term, false, 0))]
            case _ => []
  {
  }

  /** A response of a newer term makes anyone a follower of that term, with its log
      and its progress as they were. */
  lemma NewerTermWins(n: Node, from: nat, msg: Msg)
    requires n.Wf() && from < |n.votes| && msg.term > n.term && (msg.RequestVoteResp? || msg.AppendEntriesResp?)
    ensures Step(n, from, msg).1 == []
    ensures var m := Step(n, from, msg).0;
            && m.role == Follower && m.term == msg.term && m.votedFor == None && m.leader == None
            && m.log.term == msg.term && m.log.vote == None && m.log.entries == n.log.entries
            && m.commitIndex == n.commitIndex && m.lastApplied == n.lastApplied
  {
  }

  /** A leader that sends to a member of a newer term steps down on the answer. */
  lemma OldLeaderLearns(l: Node, m: Node)
    requires l.Wf() && m.Wf() && m.id in l.peers && l.id < |m.votes| && l.term < m.term
    ensures var (m', replies) := Step(m, l.id, AppendTo(l, m.id).msg);
            && m' == m && |replies| == 1 && replies[0].to == l.id
            && Step(l, m.id, replies[0].msg).0.role == Follower && Step(l, m.id, replies[0].msg).0.term == m.term
  {
    StaleIsTold(m, l.id, AppendTo(l, m.id).msg);
    NewerTermWins(l, m.id, AppendEntriesResp(m.term, false, 0));
  }

  // ---------- what a leader never takes back ----------

  /** A leader of term `t` after a step was one before it, if the term had that
      leader already; and its record of what peers hold only grew. */
  ghost predicate LedBefore(n: Node, m: Node) {
    && n.role == Leader && n.term == m.term
    && |n.matchIndex| == |m.matchIndex|
    && forall p :: 0 <= p < |n.matchIndex| ==> n.matchIndex[p] <= m.matchIndex[p]
  }

  ghost predicate Elected(h: Hist, i: nat, t: nat) {
    t in h.elections && h.elections[t].leader == i
  }

  lemma NotAgain(peers: seq<nat>, h: Hist, n: Node)
    requires HistInv(peers, h) && NodeInv(peers, h, n)
    ensures n.role == Candidate ==> !Elected(h, n.id, n.term)
    ensures !Elected(h, n.id, n.term + 1)
  {
    assert n.term + 1 in h.elections ==> ElectionOk(peers, h, n.term + 1);
  }

  lemma TickLed(peers: seq<nat>, h: Hist, n: Node, fires: bool)
    requires HistInv(peers, h) && NodeInv(peers, h, n)
    requires var m := Tick(n, fires).0; m.role == Leader && Elected(h, n.id, m.term)
    ensures LedBefore(n, Tick(n, fires).0)
  {
    NotAgain(peers, h, n);
  }

  lemma StepLed(peers: seq<nat>, h: Hist, n: Node, from: nat, msg: Msg)
    requires HistInv(peers, h) && NodeInv(peers, h, n) && from < |n.votes|
    requires var m := Step(n, from, msg).0; m.role == Leader && Elected(h, n.id, m.term)
    ensures LedBefore(n, Step(n, from, msg).0)
  {
    NotAgain(peers, h, n);
  }

  lemma ProposeLed(peers: seq<nat>, h: Hist, n: Node, command: Command)
    requires HistInv(peers, h) && NodeInv(peers, h, n) && Propose(n, command).0.role == Leader
    ensures LedBefore(n, Propose(n, command).0)
  {
    LastFacts(peers, h, n);
    assert (n.id, n.term) in h.acked ==> AckOk(h, n.id, n.term);
  }

  /** The node of an action, if it has one to change. */
  function ActorOf(a: Action): nat {
    if a.Deliver? then a.packet.dst else a.node
  }

  lemma OthersKeep(s: Sys, a: Action, i: nat)
    requires i in s.nodes && (Enabled(s, a) ==> ActorOf(a) != i)
    ensures i in Apply(s, a).nodes && Apply(s, a).nodes[i] == s.nodes[i]
  {
  }

  lemma ActorLed(peers: seq<nat>, s: Sys, h: Hist, a: Action, i: nat)
    requires HistInv(peers, h) && i in s.nodes && s.nodes[i].id == i && NodeInv(peers, h, s.nodes[i])
    requires Enabled(s, a) && ActorOf(a) == i
    requires var m := Apply(s, a).nodes[i]; m.role == Leader && Elected(h, i, m.term)
    ensures LedBefore(s.nodes[i], Apply(s, a).nodes[i])
  {
    match a
    case Timer(_, fires) => TickLed(peers, h, s.nodes[i], fires);
    case Deliver(p) => StepLed(peers, h, s.nodes[i], p.src, p.msg);
    case ClientPropose(_, command) => ProposeLed(peers, h, s.nodes[i], command);
    case Drain(_) =>
    case Crash(_) =>
  }

  lemma ApplyLed(peers: seq<nat>, s: Sys, h: Hist, a: Action, i: nat)
    requires Inv(peers, s, h) && i in s.nodes && i in Apply(s, a).nodes
    requires var m := Apply(s, a).nodes[i]; m.role == Leader && Elected(h, i, m.term)
    ensures LedBefore(s.nodes[i], Apply(s, a).nodes[i])
  {
    if Enabled(s, a) && ActorOf(a) == i { ActorLed(peers, s, h, a, i); } else { OthersKeep(s, a, i); }
  }

  lemma LedTwice(n: Node, m: Node, l: Node)
    requires LedBefore(n, m) && LedBefore(m, l)
    ensures LedBefore(n, l)
  {
  }

  lemma {:induction false} LedThrough(peers: seq<nat>, s: Sys, h: Hist, actions: seq<Action>, i: nat)
    requires Inv(peers, s, h) && i in s.nodes && i in Run(s, actions).nodes
    requires var m := Run(s, actions).nodes[i]; m.role == Leader && Elected(h, i, m.term)
    ensures LedBefore(s.nodes[i], Run(s, actions).nodes[i])
    decreases |actions|
  {
    if actions != [] {
      var init, a := actions[..|actions| - 1], actions[|actions| - 1];
      var h1 := RunFrom(peers, s, h, init);
      MembersStay(peers, Run(s, init), h1, a, i);
      ApplyLed(peers, Run(s, init), h1, a, i);
      LedThrough(peers, s, h, init, i);
      LedTwice(s.nodes[i], Run(s, init).nodes[i], Run(s, actions).nodes[i]);
    }
  }

  lemma MembersStay(peers: seq<nat>, s: Sys, h: Hist, a: Action, i: nat)
    requires Inv(peers, s, h) && i in Apply(s, a).nodes
    ensures i in s.nodes
  {
    var h2 := ApplyKeeps(peers, s, h, a);
  }

  lemma AddsSince(peers: seq<nat>, r: Sys, h: Hist, actions: seq<Action>, i: nat)
    requires Inv(peers, r, h) && i in r.nodes && r.nodes[i].role == Leader && i in Run(r, actions).nodes
    requires Run(r, actions).nodes[i].role == Leader && Run(r, actions).nodes[i].term == r.nodes[i].term
    ensures r.nodes[i].log.entries <= Run(r, actions).nodes[i].log.entries
    ensures LedBefore(r.nodes[i], Run(r, actions).nodes[i])
  {
    var h2 := RunFrom(peers, r, h, actions);
    assert NodeLeader(h, r.nodes[i]) && NodeLeader(h2, Run(r, actions).nodes[i]);
    LedThrough(peers, r, h, actions, i);
  }

  lemma RunLater(s: Sys, actions: seq<Action>, k1: nat, k2: nat)
    requires k1 <= k2 <= |actions|
    ensures Run(s, actions[..k2]) == Run(Run(s, actions[..k1]), actions[k1..k2])
  {
    RunSplit(s, actions[..k2], k1);
    assert actions[..k2][..k1] == actions[..k1] && actions[..k2][k1..] == actions[k1..k2];
  }

  /** Leader append-only: between two moments of one term, a leader's log has only
      been added to, and its record of what each peer holds has only grown. */
  lemma LeaderOnlyAdds(peers: seq<nat>, s: Sys, actions: seq<Action>, k1: nat, k2: nat, i: nat)
    requires Initial(peers, s) && k1 <= k2 <= |actions|
    requires var s1, s2 := Run(s, actions[..k1]), Run(s, actions[..k2]);
             && i in s1.nodes && s1.nodes[i].role == Leader
             && i in s2.nodes && s2.nodes[i].role == Leader && s2.nodes[i].term == s1.nodes[i].term
    ensures var n1, n2 := Run(s, actions[..k1]).nodes[i], Run(s, actions[..k2]).nodes[i];
            n1.log.entries <= n2.log.entries && LedBefore(n1, n2)
  {
    var h := RunInv(peers, s, actions[..k1]);
    RunLater(s, actions, k1, k2);
    AddsSince(peers, Run(s, actions[..k1]), h, actions[k1..k2], i);
  }
}
