/** A group can always elect a leader nobody is ahead of, and so can always get a
    command through (crates/raft/src/lib.rs, the handlers together). */
module RaftElections {
  import opened Basics
  import opened RaftLogs
  import opened RaftNodes
  import opened RaftSystem
  import opened RaftHistory
  import opened RaftSafety
  import opened RaftSteps
  import opened RaftRuns
  import opened RaftProgress

  // ---------- the best of a group ----------

  ghost predicate Best(all: set<nat>, better: (nat, nat) -> bool, m: nat) {
    m in all && forall k :: k in all ==> better(m, k)
  }

  lemma {:induction false} HasBest(all: set<nat>, better: (nat, nat) -> bool) returns (m: nat)
    requires all != {}
    requires forall a: nat, b: nat :: better(a, b) || better(b, a)
    requires forall a: nat, b: nat, c: nat {:trigger better(a, b), better(b, c)} ::
               better(a, b) && better(b, c) ==> better(a, c)
    ensures Best(all, better, m)
    decreases |all|
  {
    var x :| x in all;
    var rest := all - {x};
    assert forall k :: k in all ==> k == x || k in rest;
    assert better(x, x);
    if rest == {} {
      m := x;
    } else {
      m := HasBest(rest, better);
      if !better(m, x) { m := x; }
    }
  }

  // ---------- standing for election ----------

  lemma {:induction false} AsksAll(n: Node, k: nat, j: nat)
    requires k <= j < |n.peers| && n.peers[j] != n.id
    ensures Send(n.peers[j], RequestVote(n.term, n.id, n.log.LastIndex(), n.log.LastTerm())) in VoteRequests(n, k)
    decreases |n.peers| - k
  {
    if k < j { AsksAll(n, k + 1, j); }
  }

  lemma OnlySelf(n: Node)
    requires n.id < |n.votes|
    ensures TrueSet(Campaign(n).votes) == {n.id}
  {
  }

  /** In a group of several, a member whose timer fires becomes a candidate. */
  lemma CampaignIs(n: Node)
    requires n.Wf() && n.role != Leader && |n.peers| >= 2
    ensures Tick(n, true) == (Campaign(n), VoteRequests(Campaign(n), 0))
  {
    OnlySelf(n);
    assert n.id in n.peers;
    var c := Campaign(n);
    assert |TrueSet(c.votes)| == 1;
    assert !WinsElection(c);
    assert VoteRequests(c, 0) + [] == VoteRequests(c, 0);
  }

  /** What a candidate asks of others. */
  function Request(n: Node): Msg {
    RequestVote(n.term, n.id, |n.log.entries|, TermOf(n.log.entries))
  }

  lemma CampaignAsks(peers: seq<nat>, h: Hist, n: Node, j: nat)
    requires HistInv(peers, h) && NodeInv(peers, h, n) && Member(peers, n, n.id) && j in peers && j != n.id
    ensures Send(j, Request(Campaign(n))) in VoteRequests(Campaign(n), 0)
  {
    LastFacts(peers, h, n);
    var c := Campaign(n);
    var x :| 0 <= x < |peers| && peers[x] == j;
    AsksAll(c, 0, x);
  }

  lemma TimerIs(s: Sys, i: nat, n: Node, m: Node, sends: seq<Send>)
    requires i in s.nodes && s.nodes[i] == n && n.Wf() && Tick(n, true) == (m, sends)
    ensures Apply(s, Timer(i, true)) == Put(s, i, m, sends)
  {
  }

  /** Member `i` stands in the next term, and has asked everyone. */
  lemma Stands(peers: seq<nat>, s: Sys, h: Hist, i: nat) returns (t: Sys, h2: Hist)
    requires Inv(peers, s, h) && i in s.nodes && s.nodes[i].role != Leader && |peers| >= 2
    ensures Leads(s, t) && Inv(peers, t, h2) && Member(peers, s.nodes[i], i)
    ensures t.nodes == s.nodes[i := Campaign(s.nodes[i])] && t.drained == s.drained && s.net <= t.net
    ensures forall j :: j in peers && j != i ==> Packet(i, j, Request(t.nodes[i])) in t.net
  {
    RaftProgress.Members(peers, s, h, i);
    var n := s.nodes[i];
    CampaignIs(n);
    var c := Campaign(n);
    TimerIs(s, i, n, c, VoteRequests(c, 0));
    t := Apply(s, Timer(i, true));
    h2 := ApplyKeeps(peers, s, h, Timer(i, true));
    LeadsStep(s, Timer(i, true));
    forall j | j in peers && j != i ensures Packet(i, j, Request(c)) in t.net {
      CampaignAsks(peers, h, n, j);
      InNet(i, VoteRequests(c, 0), Send(j, Request(c)));
    }
  }

  /** `i` is a candidate that has its own vote and has asked everyone for theirs. */
  ghost predicate Standing(peers: seq<nat>, s: Sys, i: nat) {
    && i in s.nodes && s.nodes[i].role == Candidate
    && i < |s.nodes[i].votes| && s.nodes[i].votes[i]
    && forall j :: j in peers && j != i ==> Packet(i, j, Request(s.nodes[i])) in s.net
  }

  ghost predicate SameLogs(s: Sys, t: Sys) {
    && t.nodes.Keys == s.nodes.Keys
    && forall k :: k in s.nodes ==> t.nodes[k].log.entries == s.nodes[k].log.entries
  }

  /** Nobody is in a later term than `i`. */
  ghost predicate Newest(s: Sys, i: nat) {
    i in s.nodes && forall j :: j in s.nodes ==> s.nodes[j].term <= s.nodes[i].term
  }

  /** `i` stands in a term later than everyone else's. */
  ghost predicate Ahead(peers: seq<nat>, s: Sys, i: nat) {
    Standing(peers, s, i) && forall j :: j in s.nodes && j != i ==> s.nodes[j].term < s.nodes[i].term
  }

  lemma StandsNow(peers: seq<nat>, s: Sys, t: Sys, i: nat)
    requires Newest(s, i) && Member(peers, s.nodes[i], i) && t.nodes == s.nodes[i := Campaign(s.nodes[i])]
    requires forall j :: j in peers && j != i ==> Packet(i, j, Request(t.nodes[i])) in t.net
    ensures Ahead(peers, t, i) && SameLogs(s, t) && (|peers| >= 2 ==> OneVote(t, i))
  {
    OnlySelf(s.nodes[i]);
  }

  /** A member of the latest term that stands is ahead of everyone. */
  lemma StandsAhead(peers: seq<nat>, s: Sys, h: Hist, i: nat) returns (t: Sys, h2: Hist)
    requires Inv(peers, s, h) && Newest(s, i) && s.nodes[i].role != Leader && |peers| >= 2
    ensures Leads(s, t) && Inv(peers, t, h2) && Ahead(peers, t, i) && SameLogs(s, t) && OneVote(t, i)
  {
    t, h2 := Stands(peers, s, h, i);
    StandsNow(peers, s, t, i);
  }

  /** So far `i` has too few votes to win. */
  ghost predicate OneVote(s: Sys, i: nat)
    requires i in s.nodes
  {
    |TrueSet(s.nodes[i].votes)| < s.nodes[i].Majority()
  }

  // ---------- an old leader makes way ----------

  lemma MakesWay(n: Node, from: nat, msg: Msg)
    requires n.Wf() && from < |n.votes| && msg.RequestVote? && msg.term > n.term
    ensures var m := Step(n, from, msg).0;
            m.role == Follower && m.term == msg.term && m.log.entries == n.log.entries && m.id == n.id
  {
  }

  lemma Deposed(peers: seq<nat>, s: Sys, h: Hist, p: Packet) returns (t: Sys, h2: Hist, m: Node)
    requires Inv(peers, s, h) && p in s.net && p.msg.RequestVote? && p.dst in s.nodes && p.src in peers
    requires p.msg.term > s.nodes[p.dst].term
    ensures Leads(s, t) && Inv(peers, t, h2) && t.nodes == s.nodes[p.dst := m]
    ensures m.role == Follower && m.term == p.msg.term && m.log.entries == s.nodes[p.dst].log.entries
  {
    RaftProgress.Members(peers, s, h, p.dst);
    var n := s.nodes[p.dst];
    var out := Step(n, p.src, p.msg);
    MakesWay(n, p.src, p.msg);
    m := out.0;
    t, h2 := RoundBack(peers, s, h, p, n, m, out.1);
  }

  lemma BothMoved(s: Sys, s1: Sys, t: Sys, i: nat, v: nat, c: Node, m: Node)
    requires Newest(s, v) && i in s.nodes && i != v && s1.nodes == s.nodes[v := c] && t.nodes == s1.nodes[i := m]
    requires c.log.entries == s.nodes[v].log.entries && m.log.entries == s.nodes[i].log.entries
    requires m.term == c.term == s.nodes[v].term + 1
    ensures SameLogs(s, t) && t.nodes[i] == m && Newest(t, i)
  {
  }

  /** A member of the latest term that stands for election brings any other to its
      term as a follower, an old leader too. */
  lemma Unseats(peers: seq<nat>, s: Sys, h: Hist, i: nat, v: nat) returns (t: Sys, h2: Hist)
    requires Inv(peers, s, h) && i in s.nodes && i != v && i in peers && |peers| >= 2
    requires Newest(s, v) && s.nodes[v].role != Leader
    ensures Leads(s, t) && Inv(peers, t, h2) && Newest(t, i) && t.nodes[i].role != Leader && SameLogs(s, t)
  {
    var s1, h1 := Stands(peers, s, h, v);
    var c, m := Campaign(s.nodes[v]), s.nodes[i];
    t, h2, m := Deposed(peers, s1, h1, Packet(v, i, Request(c)));
    LeadsOn(s, s1, t);
    BothMoved(s, s1, t, i, v, c, m);
  }

  // ---------- counting votes ----------

  lemma Grants(peers: seq<nat>, h: Hist, m: Node, n: Node)
    requires HistInv(peers, h) && NodeInv(peers, h, m) && m.term < n.term && n.id < |m.votes|
    requires UpToDate(n.log.entries, m.log.entries)
    ensures var out := Step(m, n.id, Request(n));
            out.0.term == n.term && out.1 == [Send(n.id, RequestVoteResp(n.term, true))]
  {
    LastFacts(peers, h, m);
  }

  /** Leader of term `u`, or still a candidate of that term short of a majority, with
      the votes of `done` and its own. */
  ghost predicate Campaigning(n: Node, u: nat, log: seq<Entry>, done: set<nat>) {
    && n.term == u
    && (n.role == Leader ||
        (n.role == Candidate && n.log.entries == log && |TrueSet(n.votes)| < n.Majority() &&
         n.id < |n.votes| && n.votes[n.id] && forall j :: j in done ==> j < |n.votes| && n.votes[j]))
  }

  lemma Counts(n: Node, j: nat, log: seq<Entry>, done: set<nat>)
    requires n.Wf() && n.role == Candidate && j < |n.votes| && Campaigning(n, n.term, log, done)
    ensures Campaigning(Step(n, j, RequestVoteResp(n.term, true)).0, n.term, log, done + {j})
  {
  }

  /** The members of `done` have been asked and their votes counted, unless `i` leads
      already; the others are as they were. */
  ghost predicate Polled(s: Sys, t: Sys, i: nat, done: set<nat>)
    requires i in s.nodes
  {
    var n := s.nodes[i];
    && Leads(s, t) && s.net <= t.net && t.nodes.Keys == s.nodes.Keys
    && t.nodes[i].id == i && Campaigning(t.nodes[i], n.term, n.log.entries, done)
    && (forall j :: j in s.nodes ==> t.nodes[j].term <= n.term)
    && (forall j :: j in s.nodes && j != i && j !in done ==> t.nodes[j] == s.nodes[j])
  }

  /** `i` is ahead of everyone in term and behind nobody in its log. */
  ghost predicate Fit(peers: seq<nat>, s: Sys, i: nat) {
    && Ahead(peers, s, i)
    && forall j :: j in s.nodes ==> UpToDate(s.nodes[i].log.entries, s.nodes[j].log.entries)
  }

  /** The two messages between a candidate and a voter. */
  lemma Ballot(peers: seq<nat>, s: Sys, h: Hist, i: nat, j: nat, n: Node, m: Node) returns (t: Sys, h2: Hist, m': Node)
    requires Inv(peers, s, h) && i in s.nodes && j in s.nodes && i != j && s.nodes[i] == n && s.nodes[j] == m
    requires Packet(i, j, Request(n)) in s.net && m.term < n.term && UpToDate(n.log.entries, m.log.entries)
    requires Member(peers, n, i) && Member(peers, m, j) && NodeInv(peers, h, m) && HistInv(peers, h)
    ensures Leads(s, t) && Inv(peers, t, h2) && s.net <= t.net && m'.term == n.term
    ensures t.nodes == s.nodes[j := m'][i := Step(n, j, RequestVoteResp(n.term, true)).0]
  {
    Grants(peers, h, m, n);
    var reply := Send(i, RequestVoteResp(n.term, true));
    m' := Step(m, i, Request(n)).0;
    var s1, h1 := RoundBack(peers, s, h, Packet(i, j, Request(n)), m, m', [reply]);
    InNet(j, [reply], reply);
    var out := Step(n, j, reply.msg);
    t, h2 := RoundBack(peers, s1, h1, Packet(j, i, reply.msg), n, out.0, out.1);
    LeadsOn(s, s1, t);
  }

  lemma PolledMore(s: Sys, t: Sys, u: Sys, i: nat, done: set<nat>, j: nat, m': Node, n': Node)
    requires i in s.nodes && j in s.nodes && j != i && Polled(s, t, i, done) && Leads(t, u) && t.net <= u.net
    requires u.nodes == t.nodes[j := m'][i := n'] && m'.term == s.nodes[i].term && n'.id == i
    requires Campaigning(n', s.nodes[i].term, s.nodes[i].log.entries, done + {j})
    ensures Polled(s, u, i, done + {j})
  {
    LeadsOn(s, t, u);
  }

  lemma PolledLeader(s: Sys, t: Sys, i: nat, done: set<nat>, j: nat)
    requires i in s.nodes && Polled(s, t, i, done) && t.nodes[i].role == Leader
    ensures Polled(s, t, i, done + {j})
  {
  }

  lemma SameRequest(s: Sys, t: Sys, i: nat, done: set<nat>)
    requires i in s.nodes && s.nodes[i].id == i && Polled(s, t, i, done) && t.nodes[i].role == Candidate
    ensures Request(t.nodes[i]) == Request(s.nodes[i]) && t.nodes[i].log.entries == s.nodes[i].log.entries
    ensures t.nodes[i].term == s.nodes[i].term && Campaigning(t.nodes[i], t.nodes[i].term, s.nodes[i].log.entries, done)
  {
  }

  ghost predicate Poll(peers: seq<nat>, s: Sys, t: Sys, i: nat, done: set<nat>) {
    i in s.nodes && exists h :: Inv(peers, t, h) && Polled(s, t, i, done)
  }

  lemma MakePoll(peers: seq<nat>, s: Sys, t: Sys, h: Hist, i: nat, done: set<nat>)
    requires Inv(peers, t, h) && i in s.nodes && Polled(s, t, i, done)
    ensures Poll(peers, s, t, i, done)
  {
  }

  lemma VoterOf(peers: seq<nat>, s: Sys, t: Sys, i: nat, done: set<nat>, j: nat)
    requires Fit(peers, s, i) && s.nodes[i].id == i && Polled(s, t, i, done) && t.nodes[i].role == Candidate
    requires j in s.nodes && j in peers && j != i && j !in done
    ensures t.nodes[j].term < t.nodes[i].term && UpToDate(t.nodes[i].log.entries, t.nodes[j].log.entries)
    ensures Packet(i, j, Request(t.nodes[i])) in t.net
  {
    SameRequest(s, t, i, done);
  }

  lemma AskOne(peers: seq<nat>, s: Sys, t: Sys, h: Hist, i: nat, done: set<nat>, j: nat) returns (u: Sys, h2: Hist)
    requires Fit(peers, s, i) && s.nodes[i].id == i && Inv(peers, t, h) && Polled(s, t, i, done)
    requires j in s.nodes && j != i && j !in done && t.nodes[i].role == Candidate
    ensures Inv(peers, u, h2) && Polled(s, u, i, done + {j})
  {
    RaftProgress.Members(peers, t, h, i);
    RaftProgress.Members(peers, t, h, j);
    VoterOf(peers, s, t, i, done, j);
    SameRequest(s, t, i, done);
    var m';
    u, h2, m' := Ballot(peers, t, h, i, j, t.nodes[i], t.nodes[j]);
    Counts(t.nodes[i], j, s.nodes[i].log.entries, done);
    PolledMore(s, t, u, i, done, j, m', Step(t.nodes[i], j, RequestVoteResp(t.nodes[i].term, true)).0);
  }

  lemma PollOne(peers: seq<nat>, s: Sys, t: Sys, i: nat, done: set<nat>, j: nat) returns (u: Sys)
    requires Fit(peers, s, i) && s.nodes[i].id == i && Poll(peers, s, t, i, done)
    requires j in s.nodes && j != i && j !in done
    ensures Poll(peers, s, u, i, done + {j})
  {
    var h :| Inv(peers, t, h) && Polled(s, t, i, done);
    u := t;
    if t.nodes[i].role == Leader {
      PolledLeader(s, t, i, done, j);
      MakePoll(peers, s, t, h, i, done + {j});
    } else {
      var h2;
      u, h2 := AskOne(peers, s, t, h, i, done, j);
      MakePoll(peers, s, u, h2, i, done + {j});
    }
  }

  lemma PollAll(peers: seq<nat>, s: Sys, i: nat, others: set<nat>) returns (t: Sys)
    requires Fit(peers, s, i) && s.nodes[i].id == i && Poll(peers, s, s, i, {})
    requires others <= s.nodes.Keys && i !in others
    ensures Poll(peers, s, t, i, others)
  {
    var stage := (t: Sys, done: set<nat>) => Poll(peers, s, t, i, done);
    forall t, done: set<nat>, j: nat | stage(t, done) && done <= others && j in others - done
      ensures Goes(stage, done, j)
    {
      var u := PollOne(peers, s, t, i, done, j);
      assert stage(u, done + {j});
    }
    t := OneByOne(stage, s, others, others);
  }

  lemma AllVotesWin(n: Node, u: nat, log: seq<Entry>, done: set<nat>)
    requires n.Wf() && Campaigning(n, u, log, done) && forall p :: p in n.peers ==> p == n.id || p in done
    ensures n.role == Leader
  {
    assert n.id in n.peers;
    if n.role == Candidate {
      var all := RaftNodes.Members(n.peers);
      forall p | p in all ensures p in TrueSet(n.votes) { assert p in n.peers; }
      DistinctCard(n.peers);
      SubsetSize(all, TrueSet(n.votes));
    }
  }

  // ---------- a leader nobody is ahead of ----------

  lemma StartPoll(peers: seq<nat>, s: Sys, h: Hist, i: nat)
    requires Inv(peers, s, h) && Fit(peers, s, i) && OneVote(s, i)
    ensures Poll(peers, s, s, i, {}) && s.nodes[i].id == i && forall p :: p in peers ==> p in s.nodes
  {
    RaftProgress.Members(peers, s, h, i);
    LeadsSelf(s);
    assert Polled(s, s, i, {});
  }

  lemma EndPoll(peers: seq<nat>, s: Sys, t: Sys, i: nat, others: set<nat>) returns (h: Hist)
    requires Poll(peers, s, t, i, others) && forall p :: p in peers ==> p == i || p in others
    ensures Leads(s, t) && Inv(peers, t, h) && Leading(t, i) && t.nodes.Keys == s.nodes.Keys
  {
    h :| Inv(peers, t, h) && Polled(s, t, i, others);
    RaftProgress.Members(peers, t, h, i);
    AllVotesWin(t.nodes[i], s.nodes[i].term, s.nodes[i].log.entries, others);
  }

  /** The group can get a leader nobody is ahead of. */
  ghost predicate Electable(peers: seq<nat>, s: Sys) {
    exists t, h, i :: Leads(s, t) && Inv(peers, t, h) && Leading(t, i) && t.nodes.Keys == s.nodes.Keys
  }

  lemma MakeElectable(peers: seq<nat>, s: Sys, t: Sys, h: Hist, i: nat)
    requires Leads(s, t) && Inv(peers, t, h) && Leading(t, i) && t.nodes.Keys == s.nodes.Keys
    ensures Electable(peers, s)
  {
  }

  lemma PollWins(peers: seq<nat>, s: Sys, i: nat, others: set<nat>)
    requires Fit(peers, s, i) && s.nodes[i].id == i && Poll(peers, s, s, i, {})
    requires others <= s.nodes.Keys && i !in others && forall p :: p in peers ==> p == i || p in others
    ensures Electable(peers, s)
  {
    var t := PollAll(peers, s, i, others);
    var h := EndPoll(peers, s, t, i, others);
    MakeElectable(peers, s, t, h, i);
  }

  /** A candidate fit to win can win. */
  lemma FitWins(peers: seq<nat>, s: Sys, h: Hist, i: nat)
    requires Inv(peers, s, h) && Fit(peers, s, i) && OneVote(s, i)
    ensures Electable(peers, s)
  {
    StartPoll(peers, s, h, i);
    PollWins(peers, s, i, s.nodes.Keys - {i});
  }

  lemma KeysAre(peers: seq<nat>, s: Sys, h: Hist)
    requires Inv(peers, s, h)
    ensures forall p :: p in peers <==> p in s.nodes
  {
  }

  lemma BetterTotal(a: seq<Entry>, b: seq<Entry>, c: seq<Entry>)
    ensures UpToDate(a, b) || UpToDate(b, a)
    ensures UpToDate(a, b) && UpToDate(b, c) ==> UpToDate(a, c)
  {
  }

  function LogAt(s: Sys, k: nat): seq<Entry> {
    if k in s.nodes then s.nodes[k].log.entries else []
  }

  function TermAtNode(s: Sys, k: nat): nat {
    if k in s.nodes then s.nodes[k].term else 0
  }

  /** Somebody has a log no older than anyone's. */
  lemma BestLog(s: Sys) returns (i: nat)
    requires s.nodes.Keys != {}
    ensures i in s.nodes && forall j :: j in s.nodes ==> UpToDate(s.nodes[i].log.entries, s.nodes[j].log.entries)
  {
    var better := (a: nat, b: nat) => UpToDate(LogAt(s, a), LogAt(s, b));
    forall a: nat, b: nat ensures better(a, b) || better(b, a) { BetterTotal(LogAt(s, a), LogAt(s, b), []); }
    forall a: nat, b: nat, c: nat | better(a, b) && better(b, c) ensures better(a, c) {
      BetterTotal(LogAt(s, a), LogAt(s, b), LogAt(s, c));
    }
    i := HasBest(s.nodes.Keys, better);
    forall j | j in s.nodes ensures UpToDate(s.nodes[i].log.entries, s.nodes[j].log.entries) { assert better(i, j); }
  }

  lemma LatestTerm(s: Sys) returns (v: nat)
    requires s.nodes.Keys != {}
    ensures Newest(s, v)
  {
    var better := (a: nat, b: nat) => TermAtNode(s, a) >= TermAtNode(s, b);
    v := HasBest(s.nodes.Keys, better);
    forall j | j in s.nodes ensures s.nodes[j].term <= s.nodes[v].term { assert better(v, j); }
  }

  lemma StillFit(peers: seq<nat>, s: Sys, t: Sys, i: nat)
    requires i in s.nodes && SameLogs(s, t) && Ahead(peers, t, i)
    requires forall j :: j in s.nodes ==> UpToDate(s.nodes[i].log.entries, s.nodes[j].log.entries)
    ensures Fit(peers, t, i)
  {
  }

  lemma ElectableBefore(peers: seq<nat>, s: Sys, t: Sys)
    requires Leads(s, t) && Electable(peers, t) && t.nodes.Keys == s.nodes.Keys
    ensures Electable(peers, s)
  {
    var u, h, i :| Leads(t, u) && Inv(peers, u, h) && Leading(u, i) && u.nodes.Keys == t.nodes.Keys;
    LeadsOn(s, t, u);
    MakeElectable(peers, s, u, h, i);
  }

  /** The member with the best log, in the latest term and not leading, can win. */
  lemma BestWins(peers: seq<nat>, s: Sys, h: Hist, i: nat)
    requires Inv(peers, s, h) && Newest(s, i) && s.nodes[i].role != Leader && |peers| >= 2
    requires forall j :: j in s.nodes ==> UpToDate(s.nodes[i].log.entries, s.nodes[j].log.entries)
    ensures Electable(peers, s)
  {
    var t, h2 := StandsAhead(peers, s, h, i);
    StillFit(peers, s, t, i);
    FitWins(peers, t, h2, i);
    ElectableBefore(peers, s, t);
  }

  lemma SoloLeads(n: Node)
    requires n.Wf() && n.role != Leader && |n.peers| == 1
    ensures Tick(n, true).0.role == Leader && Tick(n, true).0.term == n.term + 1
  {
    OnlySelf(n);
    var c := Campaign(n);
    assert |TrueSet(c.votes)| == 1;
    assert WinsElection(c);
  }

  lemma SoloIsLeading(s: Sys, t: Sys, i: nat, m: Node)
    requires s.nodes.Keys == {i} && t.nodes == s.nodes[i := m] && m.role == Leader
    ensures Leading(t, i) && t.nodes.Keys == s.nodes.Keys
  {
  }

  lemma SoloKeys(peers: seq<nat>, s: Sys, h: Hist, i: nat)
    requires Inv(peers, s, h) && i in s.nodes && |peers| == 1
    ensures s.nodes.Keys == {i} && Member(peers, s.nodes[i], i)
  {
    RaftProgress.Members(peers, s, h, i);
    assert peers == [peers[0]];
  }

  /** The only member of a group elects itself. */
  lemma SoloWins(peers: seq<nat>, s: Sys, h: Hist, i: nat)
    requires Inv(peers, s, h) && i in s.nodes && s.nodes[i].role != Leader && |peers| == 1
    ensures Electable(peers, s)
  {
    SoloKeys(peers, s, h, i);
    var n := s.nodes[i];
    SoloLeads(n);
    var (m, sends) := Tick(n, true);
    TimerIs(s, i, n, m, sends);
    var h2 := ApplyKeeps(peers, s, h, Timer(i, true));
    LeadsStep(s, Timer(i, true));
    SoloIsLeading(s, Apply(s, Timer(i, true)), i, m);
    MakeElectable(peers, s, Apply(s, Timer(i, true)), h2, i);
  }

  lemma BestLogWins(peers: seq<nat>, s: Sys, h: Hist, i: nat, v: nat)
    requires Inv(peers, s, h) && i in s.nodes && Newest(s, v) && s.nodes[v].role != Leader && |peers| >= 2
    requires forall j :: j in s.nodes ==> UpToDate(s.nodes[i].log.entries, s.nodes[j].log.entries)
    ensures Electable(peers, s)
  {
    if i == v {
      BestWins(peers, s, h, i);
    } else {
      KeysAre(peers, s, h);
      var t, h2 := Unseats(peers, s, h, i, v);
      BestWins(peers, t, h2, i);
      ElectableBefore(peers, s, t);
    }
  }

  /** From every state that keeps the invariant, a leader nobody is ahead of can be
      elected. */
  lemma AlwaysElectable(peers: seq<nat>, s: Sys, h: Hist)
    requires Inv(peers, s, h) && peers != []
    ensures Electable(peers, s)
  {
    KeysAre(peers, s, h);
    assert peers[0] in s.nodes;
    var v := LatestTerm(s);
    if s.nodes[v].role == Leader {
      LeadsSelf(s);
      MakeElectable(peers, s, s, h, v);
    } else if |peers| == 1 {
      SoloWins(peers, s, h, v);
    } else {
      var i := BestLog(s);
      BestLogWins(peers, s, h, i, v);
    }
  }

  /** No run ends in a state from which the group cannot go on: whatever was lost,
      delayed or restarted, there is a continuation in which every member applies the
      given command, all at one index. */
  lemma NeverStuck(peers: seq<nat>, s: Sys, actions: seq<Action>, command: Command)
    requires Initial(peers, s)
    ensures CanApply(Run(s, actions), command)
  {
    var h := RunInv(peers, s, actions);
    AlwaysElectable(peers, Run(s, actions), h);
    Continues(peers, Run(s, actions), command);
  }

  lemma Continues(peers: seq<nat>, s: Sys, command: Command)
    requires Electable(peers, s)
    ensures CanApply(s, command)
  {
    var t, h, i :| Leads(s, t) && Inv(peers, t, h) && Leading(t, i) && t.nodes.Keys == s.nodes.Keys;
    LeaderGetsThrough(peers, t, h, i, command);
    CanApplyBefore(s, t, command);
  }
}
