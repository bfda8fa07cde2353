/** What a run has made permanent, and the invariant tying nodes and packets to it.

    Four facts are remembered for ever: the log a node stood for election with,
    the log a voter had when it voted, the log of the leader of each term, and
    how much of that log each node acknowledged.  Everything Raft promises is a
    statement about this history. */
module RaftHistory {
  import opened Basics
  import opened RaftLogs
  import opened RaftNodes
  import opened RaftSystem

  datatype Ballot = Ballot(candidate: nat, log: seq<Entry>)

  /** `start` is the leader's log when elected, `log` the same with its own entries. */
  datatype Election = Election(leader: nat, voters: set<nat>, start: seq<Entry>, log: seq<Entry>)

  /** Keys are (node, term) pairs, elections are keyed by term. */
  datatype Hist = Hist(candidacies: map<(nat, nat), seq<Entry>>,
                       ballots: map<(nat, nat), Ballot>,
                       elections: map<nat, Election>,
                       acked: map<(nat, nat), nat>)

  function TermOf(log: seq<Entry>): nat {
    if log == [] then 0 else log[|log| - 1].term
  }

  function Acked(h: Hist, v: nat, t: nat): nat {
    if (v, t) in h.acked then h.acked[(v, t)] else 0
  }

  predicate UpToDate(a: seq<Entry>, b: seq<Entry>) {
    TermOf(a) > TermOf(b) || (TermOf(a) == TermOf(b) && |a| >= |b|)
  }

  /** The peers that have acknowledged the first `k` entries of term `t`'s log. */
  function AckSet(peers: seq<nat>, h: Hist, t: nat, k: nat): set<nat> {
    set v | v in peers && Acked(h, v, t) >= k
  }

  /** Entry `k` of term `t`'s log is of that term and held by a majority. */
  ghost predicate Committed(peers: seq<nat>, h: Hist, t: nat, k: nat) {
    && t in h.elections
    && 1 <= k <= |h.elections[t].log|
    && h.elections[t].log[k - 1].term == t
    && |AckSet(peers, h, t, k)| >= |peers| / 2 + 1
  }

  /** The first `c` entries of `log` are committed by a leader of term at most `u`. */
  ghost predicate Stable(peers: seq<nat>, h: Hist, log: seq<Entry>, c: nat, u: nat) {
    c == 0 || exists t, k :: Backs(peers, h, log, c, u, t, k)
  }

  ghost predicate Backs(peers: seq<nat>, h: Hist, log: seq<Entry>, c: nat, u: nat, t: nat, k: nat) {
    t <= u && c <= k && Committed(peers, h, t, k) && h.elections[t].log[..c] <= log
  }

  /** `log` still holds the first `k` entries of term `t`'s log, unless a later
      leader, of a term below `bound`, stood for election without them. */
  ghost predicate Kept(h: Hist, t: nat, k: nat, log: seq<Entry>, bound: nat) {
    && t in h.elections
    && k <= |h.elections[t].log|
    && (h.elections[t].log[..k] <= log || exists w :: Lost(h, t, k, bound, w))
  }

  ghost predicate Lost(h: Hist, t: nat, k: nat, bound: nat, w: nat)
    requires t in h.elections && k <= |h.elections[t].log|
  {
    t < w < bound && w in h.elections && !(h.elections[t].log[..k] <= h.elections[w].start)
  }

  /** Everything `v` acknowledged in a term below `upTo` is kept in `log`. */
  ghost predicate KeepsAcks(h: Hist, v: nat, log: seq<Entry>, upTo: nat, bound: nat) {
    forall t, k {:trigger Kept(h, t, k, log, bound)} ::
      (v, t) in h.acked && t < upTo && 0 <= k <= h.acked[(v, t)] ==> Kept(h, t, k, log, bound)
  }

  /** A log is a prefix of the log of the leader of its last entry's term. */
  ghost predicate LogOk(h: Hist, log: seq<Entry>) {
    log == [] || (TermOf(log) in h.elections && log <= h.elections[TermOf(log)].log)
  }

  // ---------- the history by itself ----------

  ghost predicate CandidacyOk(h: Hist, c: nat, u: nat)
    requires (c, u) in h.candidacies
  {
    LogOk(h, h.candidacies[(c, u)]) && TermOf(h.candidacies[(c, u)]) < u
  }

  ghost predicate BallotOk(h: Hist, v: nat, u: nat)
    requires (v, u) in h.ballots
  {
    var b := h.ballots[(v, u)];
    && LogOk(h, b.log)
    && (b.candidate, u) in h.candidacies
    && UpToDate(h.candidacies[(b.candidate, u)], b.log)
    && KeepsAcks(h, v, b.log, u, u + 1)
  }

  ghost predicate VoterOk(h: Hist, u: nat, v: nat)
    requires u in h.elections
  {
    && (v, u) in h.ballots
    && h.ballots[(v, u)].candidate == h.elections[u].leader
    && KeepsAcks(h, v, h.ballots[(v, u)].log, u, u)
  }

  ghost predicate ElectionOk(peers: seq<nat>, h: Hist, u: nat)
    requires u in h.elections
  {
    var e := h.elections[u];
    && e.leader in peers
    && (e.leader, u) in h.candidacies
    && e.start == h.candidacies[(e.leader, u)]
    && e.start <= e.log
    && e.voters <= Members(peers)
    && |e.voters| >= |peers| / 2 + 1
    && (forall v {:trigger VoterOk(h, u, v)} :: v in e.voters ==> VoterOk(h, u, v))
  }

  ghost predicate EntryOk(h: Hist, u: nat, k: nat)
    requires u in h.elections && k < |h.elections[u].log|
  {
    var e := h.elections[u].log[k];
    && e.index == k + 1
    && 1 <= e.term <= u
    && e.term in h.elections
    && h.elections[u].log[..k + 1] <= h.elections[e.term].log
    && (k >= |h.elections[u].start| ==> e.term == u)
  }

  ghost predicate AckOk(h: Hist, v: nat, t: nat)
    requires (v, t) in h.acked
  {
    t in h.elections && h.acked[(v, t)] <= |h.elections[t].log|
  }

  ghost predicate Candidacies(h: Hist) {
    forall c, u {:trigger CandidacyOk(h, c, u)} :: (c, u) in h.candidacies ==> CandidacyOk(h, c, u)
  }

  ghost predicate Ballots(h: Hist) {
    forall v, u {:trigger BallotOk(h, v, u)} :: (v, u) in h.ballots ==> BallotOk(h, v, u)
  }

  ghost predicate Elections(peers: seq<nat>, h: Hist) {
    forall u {:trigger ElectionOk(peers, h, u)} :: u in h.elections ==> ElectionOk(peers, h, u)
  }

  ghost predicate LeaderLogs(h: Hist) {
    forall u, k {:trigger EntryOk(h, u, k)} :: u in h.elections && 0 <= k < |h.elections[u].log| ==> EntryOk(h, u, k)
  }
  ghost predicate Acks(h: Hist) { forall v, t {:trigger AckOk(h, v, t)} :: (v, t) in h.acked ==> AckOk(h, v, t) }

  ghost predicate HistInv(peers: seq<nat>, h: Hist) {
    && Distinct(peers)
    && Candidacies(h)
    && Ballots(h)
    && Elections(peers, h)
    && LeaderLogs(h)
    && Acks(h)
  }

  // ---------- one node against the history ----------

  ghost predicate Shape(peers: seq<nat>, n: Node) {
    && n.Wf()
    && n.peers == peers
    && n.log.snapshotIndex == 0
    && n.log.snapshotTerm == 0
    && n.log.term == n.term
    && n.log.vote == n.votedFor
    && n.lastApplied <= n.commitIndex
  }

  ghost predicate NodeLog(h: Hist, n: Node) {
    LogOk(h, n.log.entries) && TermOf(n.log.entries) <= n.term
  }

  ghost predicate NodeVote(h: Hist, n: Node) {
    && (forall u :: (n.id, u) in h.ballots ==> u <= n.term)
    && (n.votedFor.Some? <==> (n.id, n.term) in h.ballots)
    && (n.votedFor.Some? ==> h.ballots[(n.id, n.term)].candidate == n.votedFor.value)
    && (forall u :: (n.id, u) in h.candidacies ==> u <= n.term)
  }

  ghost predicate NodeCandidate(h: Hist, n: Node) {
    n.role == Candidate ==>
      && (n.id, n.term) in h.candidacies
      && h.candidacies[(n.id, n.term)] == n.log.entries
      && (n.term in h.elections ==> h.elections[n.term].leader != n.id)
      && (forall v: nat :: v < |n.votes| && n.votes[v] ==>
            v in n.peers && (v, n.term) in h.ballots && h.ballots[(v, n.term)].candidate == n.id)
  }

  ghost predicate NodeLeader(h: Hist, n: Node) {
    n.role == Leader ==>
      && n.term in h.elections
      && h.elections[n.term].leader == n.id
      && h.elections[n.term].log == n.log.entries
      && (forall p :: p in n.peers ==>
            && p < |n.matchIndex| && p < |n.nextIndex|
            && n.matchIndex[p] <= Acked(h, p, n.term)
            && n.nextIndex[p] <= |n.log.entries| + 1)
  }

  ghost predicate NodeAcks(h: Hist, n: Node) {
    && (forall t :: (n.id, t) in h.acked ==> t <= n.term)
    && KeepsAcks(h, n.id, n.log.entries, n.term + 1, n.term + 1)
  }

  ghost predicate NodeCommit(peers: seq<nat>, h: Hist, n: Node) {
    Stable(peers, h, n.log.entries, n.commitIndex, n.term)
  }

  ghost predicate NodeInv(peers: seq<nat>, h: Hist, n: Node) {
    && Shape(peers, n)
    && NodeLog(h, n)
    && NodeVote(h, n)
    && NodeCandidate(h, n)
    && NodeLeader(h, n)
    && NodeAcks(h, n)
    && NodeCommit(peers, h, n)
  }

  // ---------- packets and applied commands against the history ----------

  /** The packet carries a slice of term `u`'s log that reaches past the commit index. */
  ghost predicate AppendOk(peers: seq<nat>, h: Hist, leader: nat, m: Msg)
    requires m.AppendEntries?
  {
    && m.term in h.elections
    && m.leader == leader
    && var log := h.elections[m.term].log;
       var end := m.prevLogIndex + |m.entries|;
    && end <= |log|
    && m.entries == log[m.prevLogIndex..end]
    && m.prevLogTerm == TermOf(log[..m.prevLogIndex])
    && m.leaderCommit <= end
    && Stable(peers, h, log, m.leaderCommit, m.term)
  }

  ghost predicate MsgInv(peers: seq<nat>, h: Hist, p: Packet) {
    && p.src in peers
    && p.dst in peers
    && match p.msg
       case RequestVote(u, candidate, lli, llt) =>
         && candidate == p.src
         && (p.src, u) in h.candidacies
         && lli == |h.candidacies[(p.src, u)]|
         && llt == TermOf(h.candidacies[(p.src, u)])
       case RequestVoteResp(u, granted) =>
         granted ==> (p.src, u) in h.ballots && h.ballots[(p.src, u)].candidate == p.dst
       case AppendEntries(_, _, _, _, _, _) => AppendOk(peers, h, p.src, p.msg)
       case AppendEntriesResp(u, success, m) => success ==> m <= Acked(h, p.src, u)
  }

  ghost predicate AppliedOk(peers: seq<nat>, h: Hist, d: Applied) {
    exists t, k :: Justifies(peers, h, d, t, k)
  }

  ghost predicate Justifies(peers: seq<nat>, h: Hist, d: Applied, t: nat, k: nat) {
    Committed(peers, h, t, k) && 1 <= d.index <= k && h.elections[t].log[d.index - 1].command == d.command
  }

  ghost predicate NodesInv(peers: seq<nat>, h: Hist, nodes: map<nat, Node>) {
    && nodes.Keys == Members(peers)
    && forall i :: i in nodes ==> nodes[i].id == i && NodeInv(peers, h, nodes[i])
  }

  ghost predicate NetInv(peers: seq<nat>, h: Hist, net: set<Packet>) {
    forall p :: p in net ==> MsgInv(peers, h, p)
  }

  ghost predicate DrainedInv(peers: seq<nat>, h: Hist, ds: set<Applied>) {
    forall d :: d in ds ==> AppliedOk(peers, h, d)
  }

  ghost predicate Inv(peers: seq<nat>, s: Sys, h: Hist) {
    && HistInv(peers, h)
    && NodesInv(peers, h, s.nodes)
    && NetInv(peers, h, s.net)
    && DrainedInv(peers, h, s.drained)
  }

  // ---------- how the history grows ----------

  /** `h2` extends `h` by facts about node `i` only. */
  ghost predicate Grows(h: Hist, h2: Hist, i: nat) {
    && (forall c, u :: (c, u) in h.candidacies ==>
          (c, u) in h2.candidacies && h2.candidacies[(c, u)] == h.candidacies[(c, u)])
    && (forall c, u :: (c, u) in h2.candidacies && c != i ==> (c, u) in h.candidacies)
    && (forall v, u :: (v, u) in h.ballots ==>
          (v, u) in h2.ballots && h2.ballots[(v, u)] == h.ballots[(v, u)])
    && (forall v, u :: (v, u) in h2.ballots && v != i ==> (v, u) in h.ballots)
    && (forall u :: u in h.elections ==>
          && u in h2.elections
          && h2.elections[u].leader == h.elections[u].leader
          && h2.elections[u].voters == h.elections[u].voters
          && h2.elections[u].start == h.elections[u].start
          && h.elections[u].log <= h2.elections[u].log
          && (h.elections[u].leader != i ==> h2.elections[u].log == h.elections[u].log))
    && (forall u :: u in h2.elections && u !in h.elections ==> h2.elections[u].leader == i)
    && (forall v, t :: (v, t) in h.acked ==> (v, t) in h2.acked && h.acked[(v, t)] <= h2.acked[(v, t)])
    && (forall v, t :: (v, t) in h2.acked && v != i ==> (v, t) in h.acked && h.acked[(v, t)] == h2.acked[(v, t)])
  }

  lemma LogOkGrows(h: Hist, h2: Hist, i: nat, log: seq<Entry>)
    requires Grows(h, h2, i) && LogOk(h, log)
    ensures LogOk(h2, log)
  {
  }

  lemma CommittedGrows(peers: seq<nat>, h: Hist, h2: Hist, i: nat, t: nat, k: nat)
    requires Grows(h, h2, i) && Committed(peers, h, t, k)
    ensures Committed(peers, h2, t, k)
  {
    SubsetSize(AckSet(peers, h, t, k), AckSet(peers, h2, t, k));
  }

  lemma StableGrows(peers: seq<nat>, h: Hist, h2: Hist, i: nat, log: seq<Entry>, c: nat, u: nat)
    requires Grows(h, h2, i) && Stable(peers, h, log, c, u)
    ensures Stable(peers, h2, log, c, u)
  {
    if c != 0 {
      var t, k :| Backs(peers, h, log, c, u, t, k);
      CommittedGrows(peers, h, h2, i, t, k);
      assert Backs(peers, h2, log, c, u, t, k);
    }
  }

  lemma KeptGrows(h: Hist, h2: Hist, i: nat, t: nat, k: nat, log: seq<Entry>, bound: nat)
    requires Grows(h, h2, i) && Kept(h, t, k, log, bound)
    ensures Kept(h2, t, k, log, bound)
  {
    assert h2.elections[t].log[..k] == h.elections[t].log[..k];
    if !(h.elections[t].log[..k] <= log) {
      var w :| Lost(h, t, k, bound, w);
      assert Lost(h2, t, k, bound, w);
    }
  }

  /** Acknowledgements of `v` below `upTo` are frozen: none of them grew. */
  lemma KeepsAcksGrows(h: Hist, h2: Hist, i: nat, v: nat, log: seq<Entry>, upTo: nat, bound: nat)
    requires Grows(h, h2, i) && KeepsAcks(h, v, log, upTo, bound)
    requires forall t :: (v, t) in h2.acked && t < upTo ==> (v, t) in h.acked && h2.acked[(v, t)] == h.acked[(v, t)]
    ensures KeepsAcks(h2, v, log, upTo, bound)
  {
    forall t, k | (v, t) in h2.acked && t < upTo && 0 <= k <= h2.acked[(v, t)]
      ensures Kept(h2, t, k, log, bound)
    {
      assert Kept(h, t, k, log, bound);
      KeptGrows(h, h2, i, t, k, log, bound);
    }
  }

  lemma OtherVotes(peers: seq<nat>, h: Hist, h2: Hist, i: nat, n: Node)
    requires Grows(h, h2, i) && NodeVote(h, n) && NodeCandidate(h, n) && NodeLeader(h, n) && n.id != i
    ensures NodeVote(h2, n) && NodeCandidate(h2, n) && NodeLeader(h2, n)
  {
  }

  lemma OtherAcks(h: Hist, h2: Hist, i: nat, n: Node)
    requires Grows(h, h2, i) && NodeAcks(h, n) && n.id != i
    ensures NodeAcks(h2, n)
  {
    KeepsAcksGrows(h, h2, i, n.id, n.log.entries, n.term + 1, n.term + 1);
  }

  lemma OtherNodes(peers: seq<nat>, h: Hist, h2: Hist, i: nat, n: Node)
    requires Grows(h, h2, i) && NodeInv(peers, h, n) && n.id != i
    ensures NodeInv(peers, h2, n)
  {
    LogOkGrows(h, h2, i, n.log.entries);
    OtherVotes(peers, h, h2, i, n);
    OtherAcks(h, h2, i, n);
    StableGrows(peers, h, h2, i, n.log.entries, n.commitIndex, n.term);
  }

  lemma MsgGrows(peers: seq<nat>, h: Hist, h2: Hist, i: nat, p: Packet)
    requires Grows(h, h2, i) && MsgInv(peers, h, p)
    ensures MsgInv(peers, h2, p)
  {
    if p.msg.AppendEntries? {
      var m := p.msg;
      var log, log2 := h.elections[m.term].log, h2.elections[m.term].log;
      assert log[..m.prevLogIndex] == log2[..m.prevLogIndex];
      assert log[m.prevLogIndex..m.prevLogIndex + |m.entries|] == log2[m.prevLogIndex..m.prevLogIndex + |m.entries|];
      if m.leaderCommit != 0 {
        var t, k :| Backs(peers, h, log, m.leaderCommit, m.term, t, k);
        CommittedGrows(peers, h, h2, i, t, k);
        assert Backs(peers, h2, log2, m.leaderCommit, m.term, t, k);
      }
    }
  }

  lemma AppliedGrows(peers: seq<nat>, h: Hist, h2: Hist, i: nat, d: Applied)
    requires Grows(h, h2, i) && AppliedOk(peers, h, d)
    ensures AppliedOk(peers, h2, d)
  {
    var t, k :| Justifies(peers, h, d, t, k);
    CommittedGrows(peers, h, h2, i, t, k);
    assert Justifies(peers, h2, d, t, k);
  }

  lemma NetGrows(peers: seq<nat>, h: Hist, h2: Hist, i: nat, net: set<Packet>, sent: set<Packet>)
    requires Grows(h, h2, i) && NetInv(peers, h, net) && NetInv(peers, h2, sent)
    ensures NetInv(peers, h2, net + sent)
  {
    forall p | p in net ensures MsgInv(peers, h2, p) { MsgGrows(peers, h, h2, i, p); }
  }

  lemma DrainedGrows(peers: seq<nat>, h: Hist, h2: Hist, i: nat, ds: set<Applied>)
    requires Grows(h, h2, i) && DrainedInv(peers, h, ds)
    ensures DrainedInv(peers, h2, ds)
  {
    forall d | d in ds ensures AppliedOk(peers, h2, d) { AppliedGrows(peers, h, h2, i, d); }
  }

  ghost predicate NodeOk(peers: seq<nat>, h: Hist, j: nat, n: Node) {
    n.id == j && NodeInv(peers, h, n)
  }

  lemma NodesGrow(peers: seq<nat>, h: Hist, h2: Hist, i: nat, nodes: map<nat, Node>, n: Node)
    requires Grows(h, h2, i) && i in nodes && n.id == i && NodeInv(peers, h2, n)
    requires NodesInv(peers, h, nodes)
    ensures NodesInv(peers, h2, nodes[i := n])
  {
    var after := nodes[i := n];
    forall j | j in after ensures NodeOk(peers, h2, j, after[j]) {
      if j != i { OtherNodes(peers, h, h2, i, nodes[j]); }
    }
    AllOk(peers, h2, after);
  }

  lemma AllOk(peers: seq<nat>, h: Hist, nodes: map<nat, Node>)
    requires nodes.Keys == Members(peers) && forall j :: j in nodes ==> NodeOk(peers, h, j, nodes[j])
    ensures NodesInv(peers, h, nodes)
  {
  }

  /** A step of node `i` keeps the invariant if it does so for the history, for
      that node and for what it sends. */
  lemma StepOf(peers: seq<nat>, s: Sys, h: Hist, i: nat, h2: Hist, n: Node, sends: seq<Send>)
    requires Inv(peers, s, h) && i in s.nodes
    requires Grows(h, h2, i) && HistInv(peers, h2)
    requires n.id == i && NodeInv(peers, h2, n)
    requires NetInv(peers, h2, Packets(i, sends))
    ensures Inv(peers, Put(s, i, n, sends), h2)
  {
    NodesGrow(peers, h, h2, i, s.nodes, n);
    NetGrows(peers, h, h2, i, s.net, Packets(i, sends));
    DrainedGrows(peers, h, h2, i, s.drained);
  }
}
