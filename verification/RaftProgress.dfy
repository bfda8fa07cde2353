/** Nothing that can happen to a group keeps it from going on: from every reachable
    state there is a way to get any command applied by every member
    (crates/raft/src/lib.rs, the handlers together). */
module RaftProgress {
  import opened Basics
  import opened RaftLogs
  import opened RaftNodes
  import opened RaftSystem
  import opened RaftHistory
  import opened RaftSafety
  import opened RaftSteps
  import opened RaftRuns

  /** The group can get from `s` to `t`. */
  ghost predicate Leads(s: Sys, t: Sys) {
    exists more :: Run(s, more) == t
  }

  lemma LeadsSelf(s: Sys)
    ensures Leads(s, s)
  {
    assert Run(s, []) == s;
  }

  lemma LeadsOn(s: Sys, t: Sys, u: Sys)
    requires Leads(s, t) && Leads(t, u)
    ensures Leads(s, u)
  {
    var a :| Run(s, a) == t;
    var b :| Run(t, b) == u;
    RunSplit(s, a + b, |a|);
    assert (a + b)[..|a|] == a && (a + b)[|a|..] == b;
  }

  lemma LeadsStep(s: Sys, a: Action)
    ensures Leads(s, Apply(s, a))
  {
    assert [a][..0] == [];
    assert Run(s, []) == s;
    assert Run(s, [a]) == Apply(s, a);
  }

  /** What holds of `done` in some state can be made to hold with `j` added. */
  ghost predicate Goes(stage: (Sys, set<nat>) -> bool, done: set<nat>, j: nat) {
    exists u :: stage(u, done + {j})
  }

  /** What holds of nobody and can be extended member by member can be made to hold
      of them all. */
  lemma {:induction false} OneByOne(stage: (Sys, set<nat>) -> bool, s: Sys, all: set<nat>, rest: set<nat>)
    returns (t: Sys)
    requires stage(s, {}) && rest <= all
    requires forall t, done: set<nat>, j: nat {:trigger stage(t, done), Goes(stage, done, j)} ::
               stage(t, done) && done <= all && j in all - done ==> Goes(stage, done, j)
    ensures stage(t, rest)
    decreases |rest|
  {
    if rest == {} {
      t := s;
    } else {
      var j :| j in rest;
      var less := rest - {j};
      var t1 := OneByOne(stage, s, all, less);
      assert Goes(stage, less, j);
      t :| stage(t, less + {j});
      assert less + {j} == rest;
    }
  }

  // ---------- one exchange between a leader and another member ----------

  predicate Fits(n: Node, m: Node)
  {
    n.role == Leader && m.id in n.peers && m.id != n.id && m.term <= n.term
  }

  /** `m` took the leader's whole log. */
  ghost predicate Took(n: Node, m: Node, m': Node, reply: Msg) {
    && reply == AppendEntriesResp(n.term, true, |n.log.entries|)
    && n.log.entries <= m'.log.entries
    && m'.commitIndex == Max(m.commitIndex, n.commitIndex)
  }

  ghost predicate Refused(n: Node, m: Node, m': Node, reply: Msg) {
    && reply == AppendEntriesResp(n.term, false, 0)
    && m'.log.entries == m.log.entries
    && m'.commitIndex == m.commitIndex
    && m.id < |n.nextIndex| && n.nextIndex[m.id] > 1
  }

  lemma TakesAll(peers: seq<nat>, h: Hist, n: Node, m: Node, msg: Msg)
    requires HistInv(peers, h) && NodeInv(peers, h, n) && n.role == Leader
    requires Shape(peers, m) && NodeLog(h, m) && NodeCommit(peers, h, m) && m.term == n.term
    requires msg.AppendEntries? && AppendOk(peers, h, n.id, msg) && msg.term == n.term
    requires msg.prevLogIndex + |msg.entries| == |n.log.entries| && msg.leaderCommit == n.commitIndex
    requires PrevMatches(m, msg.prevLogIndex, msg.prevLogTerm)
    ensures var r := Replicate(m, msg.entries, msg.leaderCommit);
            && n.log.entries <= r.log.entries
            && r.commitIndex == Max(m.commitIndex, n.commitIndex)
            && r.term == m.term && r.lastApplied == m.lastApplied && r.id == m.id
            && Acknowledged(msg.prevLogIndex, msg.entries) == |n.log.entries|
  {
    ReplicatedNode(peers, h, m, msg, n.id);
    AcknowledgedIsEnd(h, msg);
    var log := n.log.entries;
    assert h.elections[n.term].log[..|log|] == log;
  }

  lemma LastOf(peers: seq<nat>, h: Hist, n: Node, j: nat)
    requires HistInv(peers, h) && NodeInv(peers, h, n) && n.role == Leader && j in peers
    ensures j < |n.nextIndex| && 1 <= n.nextIndex[j] <= |n.log.entries| + 1
    ensures var m := AppendTo(n, j).msg;
            && m.term == n.term && m.leaderCommit == n.commitIndex
            && m.prevLogIndex == n.nextIndex[j] - 1
            && m.prevLogIndex + |m.entries| == |n.log.entries|
            && AppendOk(peers, h, n.id, m)
  {
    AppendIsOk(peers, h, n, j);
  }

  lemma Handles(peers: seq<nat>, h: Hist, n: Node, c: Node, msg: Msg)
    requires HistInv(peers, h) && NodeInv(peers, h, n) && NodeInv(peers, h, c) && n.role == Leader
    requires c.id in peers && c.term == n.term && msg == AppendTo(n, c.id).msg
    ensures var (m', replies) := StepHandler(c, n.id, msg);
            && m'.id == c.id && m'.term == n.term && m'.lastApplied == c.lastApplied
            && |replies| == 1 && replies[0].to == n.id
            && (Took(n, c, m', replies[0].msg) || Refused(n, c, m', replies[0].msg))
  {
    LastOf(peers, h, n, c.id);
    HeardKeeps(peers, h, c, n.id);
    var heard := Heard(c, n.id);
    if PrevMatches(heard, msg.prevLogIndex, msg.prevLogTerm) { TakesAll(peers, h, n, heard, msg); }
  }

  /** A member the leader sends to takes all of its log, or refuses and is as it was. */
  lemma Answers(peers: seq<nat>, h: Hist, n: Node, m: Node, msg: Msg)
    requires HistInv(peers, h) && NodeInv(peers, h, n) && NodeInv(peers, h, m) && Fits(n, m)
    requires msg == AppendTo(n, m.id).msg
    ensures var (m', replies) := Step(m, n.id, msg);
            && m'.id == m.id && m'.term == n.term && m'.lastApplied == m.lastApplied
            && |replies| == 1 && replies[0].to == n.id
            && (Took(n, m, m', replies[0].msg) || Refused(n, m, m', replies[0].msg))
  {
    CatchUpKeeps(peers, h, m, n.term);
    Handles(peers, h, n, CatchUp(m, n.term), msg);
  }

  // ---------- what the leader makes of the answer ----------

  /** Nothing above the commit index can be committed yet. */
  ghost predicate Settled(n: Node) {
    && (forall p :: p in n.peers ==> p < |n.matchIndex|)
    && (forall idx: nat :: n.commitIndex < idx <= n.log.LastIndex() ==> !Committable(n, idx))
  }

  /** The leader goes on leading with the same log, having heard only from `j`. */
  ghost predicate Hears(n: Node, n': Node, j: nat) {
    && n' == n.(nextIndex := n'.nextIndex, matchIndex := n'.matchIndex, commitIndex := n'.commitIndex)
    && |n'.matchIndex| == |n.matchIndex|
    && (forall p :: 0 <= p < |n.matchIndex| && p != j ==> n'.matchIndex[p] == n.matchIndex[p])
    && n.commitIndex <= n'.commitIndex
    && (Settled(n) ==> Settled(n'))
  }

  lemma SameCommittable(n: Node, n': Node, idx: nat)
    requires n' == n.(nextIndex := n'.nextIndex, commitIndex := n'.commitIndex)
    requires forall p :: p in n.peers ==> p < |n.matchIndex|
    ensures Committable(n', idx) <==> Committable(n, idx)
  {
    assert Replicas(n', idx) == Replicas(n, idx);
  }

  /** After the commit index has been advanced nothing more can be committed. */
  lemma AdvanceSettles(n: Node)
    requires forall p :: p in n.peers ==> p < |n.matchIndex|
    ensures Settled(AdvanceCommit(n)) && n.commitIndex <= AdvanceCommit(n).commitIndex
  {
    var n' := AdvanceCommit(n);
    forall idx: nat | n'.commitIndex < idx <= n'.log.LastIndex() ensures !Committable(n', idx) {
      SameCommittable(n, n', idx);
    }
  }

  lemma LearnsYes(peers: seq<nat>, h: Hist, n: Node, j: nat)
    requires HistInv(peers, h) && NodeInv(peers, h, n) && n.role == Leader && j in peers
    ensures var n' := Step(n, j, AppendEntriesResp(n.term, true, |n.log.entries|)).0;
            Hears(n, n', j) && j < |n'.matchIndex| && n'.matchIndex[j] >= |n.log.entries|
  {
    AdvanceSettles(Confirm(n, j, |n.log.entries|));
  }

  lemma LearnsNo(peers: seq<nat>, h: Hist, n: Node, j: nat)
    requires HistInv(peers, h) && NodeInv(peers, h, n) && n.role == Leader && j in peers
    requires j < |n.nextIndex| && n.nextIndex[j] > 1
    ensures var n' := Step(n, j, AppendEntriesResp(n.term, false, 0)).0;
            && Hears(n, n', j)
            && |n'.nextIndex| == |n.nextIndex| && n'.nextIndex[j] == n.nextIndex[j] - 1
            && n'.matchIndex == n.matchIndex
  {
    var n' := Step(n, j, AppendEntriesResp(n.term, false, 0)).0;
    forall idx: nat ensures Committable(n', idx) <==> Committable(n, idx) { SameCommittable(n, n', idx); }
  }

  lemma {:induction false} SendsTo(n: Node, k: nat, j: nat)
    requires n.Wf() && k <= j < |n.peers| && n.peers[j] != n.id
    requires n.peers[j] < |n.nextIndex| && n.nextIndex[n.peers[j]] >= 1
    ensures AppendTo(n, n.peers[j]) in AppendsFrom(n, k)
    decreases |n.peers| - k
  {
    if k < j { SendsTo(n, k + 1, j); }
  }

  // ---------- rounds of the group ----------

  /** Only `i` and `j` moved, and nothing was forgotten. */
  ghost predicate Between(s: Sys, t: Sys, i: nat, j: nat) {
    && t.nodes.Keys == s.nodes.Keys
    && s.drained <= t.drained
    && (forall k :: k in s.nodes && k != i && k != j ==> t.nodes[k] == s.nodes[k])
  }

  lemma BroadcastTo(s: Sys, i: nat, j: nat, n: Node)
    requires i in s.nodes && s.nodes[i] == n && n.Wf() && n.role == Leader && j in n.peers && j != n.id
    ensures var t := Apply(s, Timer(i, true));
            t.nodes == s.nodes && t.drained == s.drained && Packet(i, j, AppendTo(n, j).msg) in t.net
  {
    var t := Apply(s, Timer(i, true));
    assert t == Put(s, i, n, Broadcast(n));
    var x :| 0 <= x < |n.peers| && n.peers[x] == j;
    SendsTo(n, 0, x);
    InNet(i, Broadcast(n), AppendTo(n, j));
  }

  lemma InNet(i: nat, sends: seq<Send>, send: Send)
    requires send in sends
    ensures Packet(i, send.to, send.msg) in Packets(i, sends)
  {
    var k :| 0 <= k < |sends| && sends[k] == send;
    assert Packet(i, sends[k].to, sends[k].msg) in Packets(i, sends);
  }

  lemma DeliverTo(s: Sys, p: Packet, n: Node, m: Node, sends: seq<Send>)
    requires p in s.net && p.dst in s.nodes && s.nodes[p.dst] == n && n.Wf() && p.src in n.peers
    requires Step(n, p.src, p.msg) == (m, sends)
    ensures Apply(s, Deliver(p)) == Put(s, p.dst, m, sends)
  {
  }

  ghost predicate Member(peers: seq<nat>, n: Node, i: nat) {
    n.Wf() && n.peers == peers && n.id == i && i in peers
  }

  lemma Members(peers: seq<nat>, s: Sys, h: Hist, i: nat)
    requires Inv(peers, s, h) && i in s.nodes
    ensures Member(peers, s.nodes[i], i) && NodeInv(peers, h, s.nodes[i]) && HistInv(peers, h)
  {
  }

  /** The leader's broadcast reaches `j`, which answers. */
  lemma RoundOut(peers: seq<nat>, s: Sys, h: Hist, i: nat, j: nat, n: Node, m: Node, m': Node, reply: Send)
    returns (t: Sys, h2: Hist)
    requires Inv(peers, s, h) && i in s.nodes && j in s.nodes && i != j && s.nodes[i] == n && s.nodes[j] == m
    requires Member(peers, n, i) && Member(peers, m, j) && n.role == Leader
    requires Step(m, i, AppendTo(n, j).msg) == (m', [reply]) && reply.to == i
    ensures Leads(s, t) && Inv(peers, t, h2) && t.nodes == s.nodes[j := m'] && t.drained == s.drained
    ensures Packet(j, i, reply.msg) in t.net
  {
    BroadcastTo(s, i, j, n);
    var s1, p := Apply(s, Timer(i, true)), Packet(i, j, AppendTo(n, j).msg);
    var h1 := ApplyKeeps(peers, s, h, Timer(i, true));
    DeliverTo(s1, p, m, m', [reply]);
    t := Apply(s1, Deliver(p));
    h2 := ApplyKeeps(peers, s1, h1, Deliver(p));
    InNet(j, [reply], reply);
    LeadsStep(s, Timer(i, true));
    LeadsStep(s1, Deliver(p));
    LeadsOn(s, s1, t);
  }

  /** A packet reaches `i`. */
  lemma RoundBack(peers: seq<nat>, s: Sys, h: Hist, p: Packet, n: Node, n': Node, sends: seq<Send>)
    returns (t: Sys, h2: Hist)
    requires Inv(peers, s, h) && p in s.net && p.dst in s.nodes && s.nodes[p.dst] == n
    requires Member(peers, n, p.dst) && p.src in peers && Step(n, p.src, p.msg) == (n', sends)
    ensures Leads(s, t) && Inv(peers, t, h2) && t.nodes == s.nodes[p.dst := n'] && t.drained == s.drained
    ensures t.net == s.net + Packets(p.dst, sends)
  {
    DeliverTo(s, p, n, n', sends);
    t := Apply(s, Deliver(p));
    h2 := ApplyKeeps(peers, s, h, Deliver(p));
    LeadsStep(s, Deliver(p));
  }

  ghost predicate Reached(s: Sys, t: Sys, i: nat, j: nat)
    requires i in s.nodes && j in s.nodes && i in t.nodes && j in t.nodes
  {
    var n, m, n', m' := s.nodes[i], s.nodes[j], t.nodes[i], t.nodes[j];
    && n.log.entries <= m'.log.entries
    && n.commitIndex <= m'.commitIndex
    && j < |n'.matchIndex| && |n.log.entries| <= n'.matchIndex[j]
  }

  /** What a round leaves of the two, whether or not the member took the log. */
  ghost predicate Rounded(s: Sys, t: Sys, i: nat, j: nat)
    requires i in s.nodes && j in s.nodes && i in t.nodes && j in t.nodes
  {
    && Hears(s.nodes[i], t.nodes[i], j)
    && t.nodes[j].term == s.nodes[i].term
    && t.nodes[j].lastApplied == s.nodes[j].lastApplied
  }

  /** What an exchange leaves of a leader and a member. */
  ghost predicate Exchanged(n: Node, m: Node, n': Node, m': Node, ok: bool) {
    && Hears(n, n', m.id) && m'.term == n.term && m'.lastApplied == m.lastApplied
    && (ok ==> n.log.entries <= m'.log.entries && n.commitIndex <= m'.commitIndex &&
               m.id < |n'.matchIndex| && |n.log.entries| <= n'.matchIndex[m.id])
    && (!ok ==> m.id < |n.nextIndex| == |n'.nextIndex| && n'.nextIndex[m.id] < n.nextIndex[m.id])
  }

  lemma ExchangeYes(peers: seq<nat>, h: Hist, n: Node, m: Node, m': Node, reply: Msg)
    requires HistInv(peers, h) && NodeInv(peers, h, n) && Member(peers, n, n.id) && n.role == Leader && m.id in peers
    requires Took(n, m, m', reply) && m'.term == n.term && m'.lastApplied == m.lastApplied
    ensures Exchanged(n, m, Step(n, m.id, reply).0, m', true)
  {
    LearnsYes(peers, h, n, m.id);
  }

  lemma ExchangeNo(peers: seq<nat>, h: Hist, n: Node, m: Node, m': Node, reply: Msg)
    requires HistInv(peers, h) && NodeInv(peers, h, n) && Member(peers, n, n.id) && n.role == Leader && m.id in peers
    requires Refused(n, m, m', reply) && m'.term == n.term && m'.lastApplied == m.lastApplied
    ensures Exchanged(n, m, Step(n, m.id, reply).0, m', false)
  {
    LearnsNo(peers, h, n, m.id);
  }

  lemma ExchangeEither(peers: seq<nat>, h: Hist, n: Node, m: Node, m': Node, reply: Msg) returns (ok: bool)
    requires HistInv(peers, h) && NodeInv(peers, h, n) && Member(peers, n, n.id) && n.role == Leader && m.id in peers
    requires Took(n, m, m', reply) || Refused(n, m, m', reply)
    requires m'.term == n.term && m'.lastApplied == m.lastApplied
    ensures Exchanged(n, m, Step(n, m.id, reply).0, m', ok)
  {
    ok := Took(n, m, m', reply);
    if ok { ExchangeYes(peers, h, n, m, m', reply); } else { ExchangeNo(peers, h, n, m, m', reply); }
  }

  lemma OneReply(sends: seq<Send>)
    requires |sends| == 1
    ensures sends == [sends[0]]
  {
  }

  lemma RoundNodes(peers: seq<nat>, s: Sys, h: Hist, i: nat, j: nat, n: Node, m: Node)
    returns (t: Sys, h2: Hist, n': Node, m': Node, ok: bool)
    requires Inv(peers, s, h) && i in s.nodes && j in s.nodes && i != j && s.nodes[i] == n && s.nodes[j] == m
    requires HistInv(peers, h) && NodeInv(peers, h, n) && NodeInv(peers, h, m)
    requires Member(peers, n, i) && Member(peers, m, j) && Fits(n, m)
    ensures Leads(s, t) && Inv(peers, t, h2) && t.nodes == s.nodes[j := m'][i := n'] && t.drained == s.drained
    ensures Exchanged(n, m, n', m', ok)
  {
    var msg := AppendTo(n, j).msg;
    Answers(peers, h, n, m, msg);
    var out := Step(m, i, msg);
    OneReply(out.1);
    var reply := out.1[0];
    m' := out.0;
    ok := ExchangeEither(peers, h, n, m, m', reply.msg);
    var s1, h1 := RoundOut(peers, s, h, i, j, n, m, m', reply);
    var back := Step(n, j, reply.msg);
    n' := back.0;
    t, h2 := RoundBack(peers, s1, h1, Packet(j, i, reply.msg), n, n', back.1);
    LeadsOn(s, s1, t);
  }

  lemma RoundEnds(s: Sys, t: Sys, i: nat, j: nat, n: Node, m: Node, n': Node, m': Node, ok: bool)
    requires i in s.nodes && j in s.nodes && i != j && s.nodes[i] == n && s.nodes[j] == m && m.id == j
    requires t.nodes == s.nodes[j := m'][i := n'] && t.drained == s.drained && Exchanged(n, m, n', m', ok)
    ensures Between(s, t, i, j) && Rounded(s, t, i, j)
    ensures ok ==> Reached(s, t, i, j)
    ensures !ok ==> j < |s.nodes[i].nextIndex| == |t.nodes[i].nextIndex| &&
                    t.nodes[i].nextIndex[j] < s.nodes[i].nextIndex[j]
  {
  }

  /** A broadcast, its delivery to `j` and the delivery of the answer: `j` has taken
      the leader's log, or the leader's next index for it has gone down. */
  lemma Round(peers: seq<nat>, s: Sys, h: Hist, i: nat, j: nat) returns (t: Sys, h2: Hist, ok: bool)
    requires Inv(peers, s, h) && i in s.nodes && j in s.nodes && i != j
    requires s.nodes[i].role == Leader && s.nodes[j].term <= s.nodes[i].term
    ensures Leads(s, t) && Inv(peers, t, h2) && Between(s, t, i, j) && Rounded(s, t, i, j)
    ensures ok ==> Reached(s, t, i, j)
    ensures !ok ==> j < |s.nodes[i].nextIndex| == |t.nodes[i].nextIndex| &&
                    t.nodes[i].nextIndex[j] < s.nodes[i].nextIndex[j]
  {
    var n, m := s.nodes[i], s.nodes[j];
    Members(peers, s, h, i);
    Members(peers, s, h, j);
    var n', m';
    t, h2, n', m', ok := RoundNodes(peers, s, h, i, j, n, m);
    RoundEnds(s, t, i, j, n, m, n', m', ok);
  }

  function NextOf(s: Sys, i: nat, j: nat): nat {
    if i in s.nodes && j < |s.nodes[i].nextIndex| then s.nodes[i].nextIndex[j] else 0
  }

  lemma HearsTwice(n: Node, n': Node, l: Node, j: nat)
    requires Hears(n, n', j) && Hears(n', l, j)
    ensures Hears(n, l, j)
  {
  }

  lemma RoundsJoin(s: Sys, t: Sys, u: Sys, i: nat, j: nat)
    requires i in s.nodes && j in s.nodes && i != j && Between(s, t, i, j) && Between(t, u, i, j)
    requires Rounded(s, t, i, j) && Rounded(t, u, i, j) && Reached(t, u, i, j)
    ensures Between(s, u, i, j) && Rounded(s, u, i, j) && Reached(s, u, i, j)
  {
    HearsTwice(s.nodes[i], t.nodes[i], u.nodes[i], j);
  }

  /** Rounds with one member end with it having the leader's whole log. */
  lemma {:induction false} Repair(peers: seq<nat>, s: Sys, h: Hist, i: nat, j: nat) returns (t: Sys, h2: Hist)
    requires Inv(peers, s, h) && i in s.nodes && j in s.nodes && i != j
    requires s.nodes[i].role == Leader && s.nodes[j].term <= s.nodes[i].term
    ensures Leads(s, t) && Inv(peers, t, h2) && Between(s, t, i, j) && Rounded(s, t, i, j) && Reached(s, t, i, j)
    decreases NextOf(s, i, j)
  {
    var ok;
    t, h2, ok := Round(peers, s, h, i, j);
    if !ok {
      var u, h3 := Repair(peers, t, h2, i, j);
      RoundsJoin(s, t, u, i, j);
      LeadsOn(s, t, u);
      t, h2 := u, h3;
    }
  }

  // ---------- every member ----------

  /** The leader goes on leading with the same log, having heard from members of `rest`. */
  ghost predicate HearsFrom(n: Node, n': Node, rest: set<nat>) {
    && n' == n.(nextIndex := n'.nextIndex, matchIndex := n'.matchIndex, commitIndex := n'.commitIndex)
    && |n'.matchIndex| == |n.matchIndex|
    && (forall p :: 0 <= p < |n.matchIndex| && p !in rest ==> n'.matchIndex[p] == n.matchIndex[p])
    && n.commitIndex <= n'.commitIndex
    && (Settled(n) ==> Settled(n'))
  }

  /** `j` has what the leader `n` had at first, and the leader knows. */
  ghost predicate Holds(n: Node, n': Node, m': Node, j: nat) {
    && n.log.entries <= m'.log.entries
    && n.commitIndex <= m'.commitIndex
    && j < |n'.matchIndex| && |n.log.entries| <= n'.matchIndex[j]
  }

  /** Nobody is ahead of the leader `i` in term. */
  ghost predicate Leading(s: Sys, i: nat) {
    i in s.nodes && s.nodes[i].role == Leader && forall j :: j in s.nodes ==> s.nodes[j].term <= s.nodes[i].term
  }

  /** Nobody has applied anything in between. */
  ghost predicate Idle(s: Sys, t: Sys) {
    && t.nodes.Keys == s.nodes.Keys
    && s.drained <= t.drained
    && forall k :: k in s.nodes ==> t.nodes[k].lastApplied == s.nodes[k].lastApplied
  }

  ghost predicate Spread(s: Sys, t: Sys, i: nat, rest: set<nat>) {
    && Leading(s, i) && Leading(t, i) && Idle(s, t)
    && HearsFrom(s.nodes[i], t.nodes[i], rest)
    && forall j :: j in rest ==> j in t.nodes && Holds(s.nodes[i], t.nodes[i], t.nodes[j], j)
  }

  lemma SpreadMore(s: Sys, t: Sys, u: Sys, i: nat, rest: set<nat>, j: nat)
    requires Spread(s, t, i, rest) && j in t.nodes && j != i && i !in rest && j !in rest
    requires Between(t, u, i, j) && Rounded(t, u, i, j) && Reached(t, u, i, j)
    ensures Spread(s, u, i, rest + {j})
  {
    var n, n', l := s.nodes[i], t.nodes[i], u.nodes[i];
    assert Hears(n', l, j);
    forall k | k in rest + {j} ensures k in u.nodes && Holds(n, l, u.nodes[k], k) {
      if k != j { assert Holds(n, n', t.nodes[k], k) && u.nodes[k] == t.nodes[k]; }
    }
  }

  /** The group can get from `s` to a state `t` in which the members of `rest` hold
      what its leader `i` had. */
  ghost predicate Stage(peers: seq<nat>, s: Sys, t: Sys, i: nat, rest: set<nat>) {
    exists h :: Inv(peers, t, h) && Leads(s, t) && Spread(s, t, i, rest)
  }

  lemma StageNone(peers: seq<nat>, s: Sys, h: Hist, i: nat)
    requires Inv(peers, s, h) && Leading(s, i)
    ensures Stage(peers, s, s, i, {})
  {
    LeadsSelf(s);
    assert Spread(s, s, i, {});
  }

  lemma StageMore(peers: seq<nat>, s: Sys, t: Sys, i: nat, rest: set<nat>, j: nat) returns (u: Sys)
    requires Stage(peers, s, t, i, rest) && j in s.nodes && j != i && i !in rest && j !in rest
    ensures Stage(peers, s, u, i, rest + {j})
  {
    var h :| Inv(peers, t, h) && Leads(s, t) && Spread(s, t, i, rest);
    var h2;
    u, h2 := Repair(peers, t, h, i, j);
    LeadsOn(s, t, u);
    SpreadMore(s, t, u, i, rest, j);
  }

  lemma RepairAll(peers: seq<nat>, s: Sys, i: nat, rest: set<nat>) returns (t: Sys)
    requires Stage(peers, s, s, i, {}) && rest <= s.nodes.Keys && i !in rest
    ensures Stage(peers, s, t, i, rest)
  {
    var stage := (t: Sys, done: set<nat>) => Stage(peers, s, t, i, done);
    forall t, done: set<nat>, j: nat | stage(t, done) && done <= rest && j in rest - done ensures Goes(stage, done, j) {
      var u := StageMore(peers, s, t, i, done, j);
      assert stage(u, done + {j});
    }
    t := OneByOne(stage, s, rest, rest);
  }

  // ---------- a command from the leader to everyone ----------

  lemma CommittedInLeader(peers: seq<nat>, s: Sys, h: Hist, i: nat, j: nat)
    requires Inv(peers, s, h) && Leading(s, i) && j in s.nodes
    ensures s.nodes[j].lastApplied <= |s.nodes[i].log.entries|
  {
    var n, m := s.nodes[i], s.nodes[j];
    Members(peers, s, h, i);
    Members(peers, s, h, j);
    StableInLeader(peers, h, m.log.entries, m.commitIndex, m.term, n.term);
    CommitWithinLog(peers, h, m);
    assert m.log.entries[..m.commitIndex] <= n.log.entries;
  }

  /** The leader's log ends with the command, which is nowhere applied, and nothing
      more can be committed without its peers. */
  ghost predicate Ready(s: Sys, i: nat, command: Command) {
    && Leading(s, i)
    && var n := s.nodes[i];
       var log := n.log.entries;
    && log != [] && log[|log| - 1].term == n.term && log[|log| - 1].command == command
    && n.log.snapshotIndex == 0 && n.log.LastIndex() == |log|
    && i < |n.matchIndex| && n.matchIndex[i] == |log|
    && Settled(n)
    && forall j :: j in s.nodes ==> s.nodes[j].lastApplied < |log|
  }

  /** `n'` is the leader `n` with the command at the end of its log. */
  ghost predicate Added(n: Node, n': Node, command: Command) {
    && n' == n.(log := n'.log, matchIndex := n'.matchIndex, commitIndex := n'.commitIndex)
    && n'.log.snapshotIndex == 0 && n'.log.LastIndex() == |n.log.entries| + 1
    && n'.log.entries == n.log.entries + [Entry(n.term, |n.log.entries| + 1, command)]
    && n.id < |n'.matchIndex| && n'.matchIndex[n.id] == |n.log.entries| + 1
    && Settled(n')
  }

  lemma ProposeAdds(peers: seq<nat>, h: Hist, n: Node, command: Command)
    requires HistInv(peers, h) && NodeInv(peers, h, n) && n.role == Leader
    ensures Added(n, Propose(n, command).0, command)
  {
    LastFacts(peers, h, n);
    AdvanceSettles(AppendOwn(n, command));
  }

  lemma AddedIsReady(s: Sys, t: Sys, i: nat, n': Node, command: Command)
    requires Leading(s, i) && s.nodes[i].id == i && t.nodes == s.nodes[i := n'] && Added(s.nodes[i], n', command)
    requires forall j :: j in s.nodes ==> s.nodes[j].lastApplied <= |s.nodes[i].log.entries|
    ensures Ready(t, i, command) && t.nodes.Keys == s.nodes.Keys
  {
  }

  lemma ProposeTo(s: Sys, i: nat, n: Node, n': Node, command: Command)
    requires i in s.nodes && s.nodes[i] == n && n.Wf() && Propose(n, command).0 == n'
    ensures Apply(s, ClientPropose(i, command)) == Put(s, i, n', [])
  {
  }

  lemma NoneAppliedPast(peers: seq<nat>, s: Sys, h: Hist, i: nat)
    requires Inv(peers, s, h) && Leading(s, i)
    ensures forall j :: j in s.nodes ==> s.nodes[j].lastApplied <= |s.nodes[i].log.entries|
  {
    forall j | j in s.nodes ensures s.nodes[j].lastApplied <= |s.nodes[i].log.entries| {
      CommittedInLeader(peers, s, h, i, j);
    }
  }

  lemma Proposes(peers: seq<nat>, s: Sys, h: Hist, i: nat, command: Command) returns (t: Sys, h2: Hist)
    requires Inv(peers, s, h) && Leading(s, i)
    ensures Leads(s, t) && Inv(peers, t, h2) && Ready(t, i, command) && t.nodes.Keys == s.nodes.Keys
  {
    Members(peers, s, h, i);
    var n := s.nodes[i];
    ProposeAdds(peers, h, n, command);
    var a, n' := ClientPropose(i, command), Propose(n, command).0;
    ProposeTo(s, i, n, n', command);
    t := Apply(s, a);
    h2 := ApplyKeeps(peers, s, h, a);
    LeadsStep(s, a);
    NoneAppliedPast(peers, s, h, i);
    AddedIsReady(s, t, i, n', command);
  }

  lemma CommitsAll(n: Node, idx: nat)
    requires n.Wf() && Settled(n) && idx == n.log.LastIndex() && n.log.TermAt(idx) == n.term
    requires forall p :: p in n.peers ==> idx <= n.matchIndex[p]
    ensures idx <= n.commitIndex
  {
    assert Replicas(n, idx) == RaftNodes.Members(n.peers);
    DistinctCard(n.peers);
    assert n.id in n.peers;
    assert Committable(n, idx);
  }

  lemma AllMatched(s: Sys, t: Sys, i: nat, rest: set<nat>, p: nat)
    requires Spread(s, t, i, rest) && (p == i || p in rest) && i !in rest
    requires var n := s.nodes[i]; i < |n.matchIndex| && n.matchIndex[i] == |n.log.entries|
    ensures p < |t.nodes[i].matchIndex| && |s.nodes[i].log.entries| <= t.nodes[i].matchIndex[p]
  {
    if p != i { assert Holds(s.nodes[i], t.nodes[i], t.nodes[p], p); }
  }

  lemma EndTerm(n: Node)
    requires n.log.snapshotIndex == 0 && n.log.entries != []
    ensures n.log.TermAt(|n.log.entries|) == n.log.entries[|n.log.entries| - 1].term
  {
  }

  /** Once every member holds the log, the leader has committed it. */
  lemma AllHeldIsCommitted(peers: seq<nat>, s: Sys, t: Sys, i: nat, command: Command)
    requires Ready(s, i, command) && Spread(s, t, i, s.nodes.Keys - {i})
    requires Member(peers, t.nodes[i], i) && forall p :: p in peers ==> p in s.nodes
    ensures |s.nodes[i].log.entries| <= t.nodes[i].commitIndex
  {
    var n' := t.nodes[i];
    forall p | p in n'.peers ensures |s.nodes[i].log.entries| <= n'.matchIndex[p] {
      AllMatched(s, t, i, s.nodes.Keys - {i}, p);
    }
    EndTerm(n');
    CommitsAll(n', |n'.log.entries|);
  }

  // ---------- everyone applies it ----------

  /** The next drain of `m` applies `command` at `index`. */
  ghost predicate Due(m: Node, index: nat, command: Command) {
    && m.Wf() && m.log.snapshotIndex == 0
    && m.lastApplied < index <= m.commitIndex
    && index <= |m.log.entries| && m.log.entries[index - 1].command == command
  }

  lemma {:induction false} DrainsAt(l: Log, from: nat, upTo: nat, index: nat)
    requires l.snapshotIndex == 0 && from < index <= upTo && index <= |l.entries|
    ensures (index, l.entries[index - 1].command) in CommandsIn(l, from, upTo)
    decreases upTo - from
  {
    if from + 1 < index { DrainsAt(l, from + 1, upTo, index); }
  }

  lemma DrainApplies(s: Sys, j: nat, index: nat, command: Command)
    requires j in s.nodes && Due(s.nodes[j], index, command)
    ensures var t := Apply(s, Drain(j));
            && t.nodes.Keys == s.nodes.Keys && s.drained <= t.drained && Applied(j, index, command) in t.drained
            && forall k :: k in s.nodes && k != j ==> t.nodes[k] == s.nodes[k]
  {
    var m := s.nodes[j];
    DrainsAt(m.log, m.lastApplied, m.commitIndex, index);
    var cs := TakeCommitted(m).1;
    var x :| 0 <= x < |cs| && cs[x] == (index, command);
    assert Applied(j, cs[x].0, cs[x].1) in AppliedBy(j, cs);
  }

  /** The members in `done` have applied it and the others are as they were. */
  ghost predicate AppliedIn(s: Sys, t: Sys, index: nat, command: Command, done: set<nat>) {
    && Leads(s, t) && t.nodes.Keys == s.nodes.Keys
    && (forall j :: j in done ==> Applied(j, index, command) in t.drained)
    && (forall j :: j in s.nodes && j !in done ==> t.nodes[j] == s.nodes[j])
  }

  lemma AppliesMore(s: Sys, t: Sys, index: nat, command: Command, done: set<nat>, j: nat)
    requires AppliedIn(s, t, index, command, done) && j in s.nodes && j !in done && Due(s.nodes[j], index, command)
    ensures AppliedIn(s, Apply(t, Drain(j)), index, command, done + {j})
  {
    DrainApplies(t, j, index, command);
    LeadsStep(t, Drain(j));
    LeadsOn(s, t, Apply(t, Drain(j)));
  }

  lemma DrainAll(s: Sys, index: nat, command: Command) returns (t: Sys)
    requires forall j :: j in s.nodes ==> Due(s.nodes[j], index, command)
    ensures AppliedIn(s, t, index, command, s.nodes.Keys)
  {
    var stage := (t: Sys, done: set<nat>) => AppliedIn(s, t, index, command, done);
    LeadsSelf(s);
    assert stage(s, {});
    forall t, done: set<nat>, j: nat | stage(t, done) && done <= s.nodes.Keys && j in s.nodes.Keys - done
      ensures Goes(stage, done, j)
    {
      AppliesMore(s, t, index, command, done, j);
      assert stage(Apply(t, Drain(j)), done + {j});
    }
    t := OneByOne(stage, s, s.nodes.Keys, s.nodes.Keys);
  }

  lemma SpreadLeader(s: Sys, t: Sys, i: nat, rest: set<nat>)
    requires Spread(s, t, i, rest)
    ensures t.nodes[i].log == s.nodes[i].log && s.nodes[i].commitIndex <= t.nodes[i].commitIndex
    ensures forall j :: j in s.nodes ==> j in t.nodes && t.nodes[j].lastApplied == s.nodes[j].lastApplied
    ensures t.nodes.Keys == s.nodes.Keys
  {
  }

  lemma SpreadMember(s: Sys, t: Sys, i: nat, rest: set<nat>, j: nat)
    requires Spread(s, t, i, rest) && j in rest
    ensures j in t.nodes && s.nodes[i].log.entries <= t.nodes[j].log.entries
    ensures s.nodes[i].commitIndex <= t.nodes[j].commitIndex
  {
    assert Holds(s.nodes[i], t.nodes[i], t.nodes[j], j);
  }

  lemma IsDue(log: seq<Entry>, commit: nat, m: Node, command: Command)
    requires log != [] && log[|log| - 1].command == command && |log| <= commit <= m.commitIndex
    requires log <= m.log.entries && m.lastApplied < |log| && m.Wf() && m.log.snapshotIndex == 0
    ensures Due(m, |log|, command)
  {
  }

  lemma LastIsCommand(s: Sys, i: nat, command: Command)
    requires Ready(s, i, command)
    ensures var log := s.nodes[i].log.entries;
            && log != [] && log[|log| - 1].command == command
            && forall j :: j in s.nodes ==> s.nodes[j].lastApplied < |log|
  {
  }

  lemma AllDue(s: Sys, t: Sys, u: Sys, i: nat, command: Command, j: nat)
    requires Ready(s, i, command) && Spread(s, t, i, s.nodes.Keys - {i}) && Spread(t, u, i, t.nodes.Keys - {i})
    requires |s.nodes[i].log.entries| <= t.nodes[i].commitIndex
    requires j in u.nodes && u.nodes[j].Wf() && u.nodes[j].log.snapshotIndex == 0
    ensures Due(u.nodes[j], |s.nodes[i].log.entries|, command)
  {
    LastIsCommand(s, i, command);
    SpreadLeader(s, t, i, s.nodes.Keys - {i});
    SpreadLeader(t, u, i, t.nodes.Keys - {i});
    if j != i { SpreadMember(t, u, i, t.nodes.Keys - {i}, j); }
    IsDue(s.nodes[i].log.entries, t.nodes[i].commitIndex, u.nodes[j], command);
  }

  /** Every member applied `command` at `index` by `t`. */
  ghost predicate AppliedByAll(s: Sys, t: Sys, index: nat, command: Command) {
    Leads(s, t) && forall j :: j in s.nodes ==> Applied(j, index, command) in t.drained
  }

  /** The group can still get the command applied by every member. */
  ghost predicate CanApply(s: Sys, command: Command) {
    exists t, index: nat :: AppliedByAll(s, t, index, command)
  }

  lemma StageFacts(peers: seq<nat>, s: Sys, t: Sys, i: nat, rest: set<nat>)
    requires Stage(peers, s, t, i, rest)
    ensures Spread(s, t, i, rest) && Leads(s, t) && Stage(peers, t, t, i, {})
    ensures Member(peers, t.nodes[i], i) && t.nodes.Keys == RaftNodes.Members(peers)
    ensures forall j :: j in t.nodes ==> t.nodes[j].Wf() && t.nodes[j].log.snapshotIndex == 0
  {
    var h :| Inv(peers, t, h) && Leads(s, t) && Spread(s, t, i, rest);
    Members(peers, t, h, i);
    StageNone(peers, t, h, i);
    forall j | j in t.nodes ensures t.nodes[j].Wf() && t.nodes[j].log.snapshotIndex == 0 { Members(peers, t, h, j); }
  }

  lemma GetsThrough(peers: seq<nat>, s: Sys, t: Sys, u: Sys, i: nat, command: Command)
    requires Ready(s, i, command) && s.nodes.Keys == RaftNodes.Members(peers)
    requires Spread(s, t, i, s.nodes.Keys - {i}) && Leads(s, t) && Member(peers, t.nodes[i], i)
    requires Spread(t, u, i, t.nodes.Keys - {i}) && Leads(t, u)
    requires forall j :: j in u.nodes ==> u.nodes[j].Wf() && u.nodes[j].log.snapshotIndex == 0
    ensures CanApply(s, command)
  {
    AllHeldIsCommitted(peers, s, t, i, command);
    var index := |s.nodes[i].log.entries|;
    forall j | j in u.nodes ensures Due(u.nodes[j], index, command) { AllDue(s, t, u, i, command, j); }
    SpreadLeader(s, t, i, s.nodes.Keys - {i});
    SpreadLeader(t, u, i, t.nodes.Keys - {i});
    var v := DrainAll(u, index, command);
    LeadsOn(s, t, u);
    LeadsOn(s, u, v);
    assert AppliedByAll(s, v, index, command);
  }

  lemma ReadyGetsThrough(peers: seq<nat>, s: Sys, i: nat, command: Command)
    requires Stage(peers, s, s, i, {}) && Ready(s, i, command)
    ensures CanApply(s, command)
  {
    StageFacts(peers, s, s, i, {});
    var t := RepairAll(peers, s, i, s.nodes.Keys - {i});
    StageFacts(peers, s, t, i, s.nodes.Keys - {i});
    var u := RepairAll(peers, t, i, t.nodes.Keys - {i});
    StageFacts(peers, t, u, i, t.nodes.Keys - {i});
    GetsThrough(peers, s, t, u, i, command);
  }

  lemma CanApplyBefore(s: Sys, t: Sys, command: Command)
    requires Leads(s, t) && CanApply(t, command) && s.nodes.Keys == t.nodes.Keys
    ensures CanApply(s, command)
  {
    var u, index: nat :| AppliedByAll(t, u, index, command);
    LeadsOn(s, t, u);
    assert AppliedByAll(s, u, index, command);
  }

  /** A leader nobody is ahead of can get any command applied by every member. */
  lemma LeaderGetsThrough(peers: seq<nat>, s: Sys, h: Hist, i: nat, command: Command)
    requires Inv(peers, s, h) && Leading(s, i)
    ensures CanApply(s, command)
  {
    var t, h2 := Proposes(peers, s, h, i, command);
    StageNone(peers, t, h2, i);
    ReadyGetsThrough(peers, t, i, command);
    CanApplyBefore(s, t, command);
  }
}
