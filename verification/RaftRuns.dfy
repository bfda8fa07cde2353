/** Safety of whole runs: the invariant holds after any sequence of actions, so
    every reachable state has one leader per term, matching logs, and nodes that
    never apply different commands at the same index. */
module RaftRuns {
  import opened Basics
  import opened RaftLogs
  import opened RaftNodes
  import opened RaftSystem
  import opened RaftHistory
  import opened RaftSafety
  import opened RaftSteps

  /** Node `n` may become `m` and send `sends`, the history growing to `h2`. */
  ghost predicate Good(peers: seq<nat>, h: Hist, n: Node, h2: Hist, m: Node, sends: seq<Send>) {
    && m.id == n.id
    && Grows(h, h2, n.id)
    && HistInv(peers, h2)
    && NodeInv(peers, h2, m)
    && SendsInv(peers, h2, n.id, sends)
    && AcksNow(h, h2, n.id, m.term)
  }

  /** Node `i` acknowledges nothing but in term `t`. */
  ghost predicate AcksNow(h: Hist, h2: Hist, i: nat, t: nat) {
    forall u :: u != t && (i, u) in h2.acked ==> (i, u) in h.acked && h2.acked[(i, u)] == h.acked[(i, u)]
  }

  lemma SendsGrow(peers: seq<nat>, h: Hist, h2: Hist, i: nat, sends: seq<Send>)
    requires Grows(h, h2, i) && SendsInv(peers, h, i, sends)
    ensures SendsInv(peers, h2, i, sends)
  {
    forall k | 0 <= k < |sends| ensures MsgInv(peers, h2, Packet(i, sends[k].to, sends[k].msg)) {
      MsgGrows(peers, h, h2, i, Packet(i, sends[k].to, sends[k].msg));
    }
  }

  lemma GrowsTwice(h: Hist, h1: Hist, h2: Hist, i: nat)
    requires Grows(h, h1, i) && Grows(h1, h2, i)
    ensures Grows(h, h2, i)
  {
  }

  lemma SendsJoin(peers: seq<nat>, h: Hist, i: nat, a: seq<Send>, b: seq<Send>)
    requires SendsInv(peers, h, i, a) && SendsInv(peers, h, i, b)
    ensures SendsInv(peers, h, i, a + b)
  {
  }

  lemma GoodTwice(peers: seq<nat>, h: Hist, n: Node, h1: Hist, n1: Node, a: seq<Send>, h2: Hist, n2: Node, b: seq<Send>)
    requires Good(peers, h, n, h1, n1, a) && Good(peers, h1, n1, h2, n2, b) && h1.acked == h.acked
    ensures Good(peers, h, n, h2, n2, a + b)
  {
    GrowsTwice(h, h1, h2, n.id);
    SendsGrow(peers, h1, h2, n.id, a);
    SendsJoin(peers, h2, n.id, a, b);
  }

  /** The same when the first step sends nothing. */
  lemma GoodAfter(peers: seq<nat>, h: Hist, n: Node, h1: Hist, n1: Node, h2: Hist, n2: Node, b: seq<Send>)
    requires Good(peers, h, n, h1, n1, []) && Good(peers, h1, n1, h2, n2, b) && h1.acked == h.acked
    ensures Good(peers, h, n, h2, n2, b)
  {
    GrowsTwice(h, h1, h2, n.id);
  }

  /** A step that adds nothing to the history. */
  lemma Quiet(peers: seq<nat>, h: Hist, n: Node, m: Node, sends: seq<Send>)
    requires HistInv(peers, h) && m.id == n.id && NodeInv(peers, h, m) && SendsInv(peers, h, n.id, sends)
    ensures Good(peers, h, n, h, m, sends)
  {
  }

  // ---------- timers ----------

  lemma MaybeLeadGood(peers: seq<nat>, h: Hist, n: Node) returns (h2: Hist)
    requires HistInv(peers, h) && NodeInv(peers, h, n)
    ensures Good(peers, h, n, h2, MaybeLead(n).0, MaybeLead(n).1)
  {
    if WinsElection(n) {
      h2 := LeadHist(h, n);
      TermIsFree(peers, h, n);
      LeadGrows(peers, h, n);
      LeadKeeps(peers, h, n);
      AppendsAreOk(peers, h2, Lead(n), 0);
    } else {
      h2 := h;
    }
  }

  lemma CampaignGood(peers: seq<nat>, h: Hist, n: Node, c: Node)
    requires HistInv(peers, h) && NodeInv(peers, h, n) && c == Campaign(n)
    ensures Good(peers, h, n, CampaignHist(h, n), c, VoteRequests(c, 0))
  {
    CampaignGrows(peers, h, n);
    CampaignKeeps(peers, h, n);
    VoteRequestsAreOk(peers, CampaignHist(h, n), c, 0);
  }

  lemma TickGood(peers: seq<nat>, h: Hist, n: Node, fires: bool) returns (h2: Hist)
    requires HistInv(peers, h) && NodeInv(peers, h, n)
    ensures Good(peers, h, n, h2, Tick(n, fires).0, Tick(n, fires).1)
  {
    h2 := h;
    if fires {
      if n.role == Leader {
        AppendsAreOk(peers, h, n, 0);
      } else {
        var c, h1 := Campaign(n), CampaignHist(h, n);
        CampaignGood(peers, h, n, c);
        h2 := MaybeLeadGood(peers, h1, c);
        GoodTwice(peers, h, n, h1, c, VoteRequests(c, 0), h2, MaybeLead(c).0, MaybeLead(c).1);
      }
    }
  }

  // ---------- messages ----------

  lemma GrantGood(peers: seq<nat>, h: Hist, n: Node, c: nat) returns (h2: Hist)
    requires HistInv(peers, h) && NodeInv(peers, h, n) && c in peers && MayVoteFor(n, c)
    requires (c, n.term) in h.candidacies && UpToDate(h.candidacies[(c, n.term)], n.log.entries)
    ensures Good(peers, h, n, h2, Grant(n, c), [Send(c, RequestVoteResp(n.term, true))])
  {
    if n.votedFor == None {
      h2 := VoteHist(h, n, c);
      VoteGrows(peers, h, n, c);
      VoteKeeps(peers, h, n, c);
    } else {
      h2 := h;
      RepeatedVote(peers, n, c);
    }
  }

  lemma RequestVoteGood(peers: seq<nat>, h: Hist, n: Node, p: Packet) returns (h2: Hist)
    requires HistInv(peers, h) && NodeInv(peers, h, n) && MsgInv(peers, h, p)
    requires p.dst == n.id && p.msg.RequestVote? && n.term >= p.msg.term
    ensures Good(peers, h, n, h2, StepHandler(n, p.src, p.msg).0, StepHandler(n, p.src, p.msg).1)
  {
    var m, c := p.msg, p.msg.candidate;
    LastFacts(peers, h, n);
    if m.term >= n.term && MayVoteFor(n, c) && AtLeastAsRecent(m.lastLogIndex, m.lastLogTerm, n.log) {
      h2 := GrantGood(peers, h, n, c);
    } else {
      h2 := h;
      Quiet(peers, h, n, n, [Send(c, RequestVoteResp(n.term, false))]);
    }
  }

  lemma VoteRespGood(peers: seq<nat>, h: Hist, n: Node, p: Packet) returns (h2: Hist)
    requires HistInv(peers, h) && NodeInv(peers, h, n) && MsgInv(peers, h, p)
    requires p.dst == n.id && p.msg.RequestVoteResp?
    ensures Good(peers, h, n, h2, StepHandler(n, p.src, p.msg).0, StepHandler(n, p.src, p.msg).1)
  {
    h2 := h;
    if n.role != Candidate || p.msg.term != n.term || !p.msg.granted {
      Quiet(peers, h, n, n, []);
    } else {
      var v := CountVote(n, p.src);
      CountVoteKeeps(peers, h, n, p.src);
      Quiet(peers, h, n, v, []);
      h2 := MaybeLeadGood(peers, h, v);
      GoodAfter(peers, h, n, h, v, h2, MaybeLead(v).0, MaybeLead(v).1);
    }
  }

  lemma HeardKeeps(peers: seq<nat>, h: Hist, n: Node, leader: nat)
    requires NodeInv(peers, h, n)
    ensures NodeInv(peers, h, Heard(n, leader))
  {
  }

  lemma AcknowledgedIsEnd(h: Hist, m: Msg)
    requires LeaderLogs(h) && m.AppendEntries? && m.term in h.elections
    requires m.prevLogIndex + |m.entries| <= |h.elections[m.term].log|
    requires m.entries == h.elections[m.term].log[m.prevLogIndex..m.prevLogIndex + |m.entries|]
    ensures Acknowledged(m.prevLogIndex, m.entries) == m.prevLogIndex + |m.entries|
  {
    if m.entries != [] { assert EntryOk(h, m.term, m.prevLogIndex + |m.entries| - 1); }
  }

  lemma AckSend(peers: seq<nat>, h: Hist, n: Node, end: nat, src: nat)
    requires src in peers && n.id in peers
    ensures SendsInv(peers, ReplicateHist(h, n, end), n.id, [Send(src, AppendEntriesResp(n.term, true, end))])
  {
  }

  lemma ReplicateGood(peers: seq<nat>, h: Hist, n: Node, m: Msg, src: nat, end: nat, r: Node)
    requires HistInv(peers, h) && NodeInv(peers, h, n) && n.role == Follower && src in peers
    requires m.AppendEntries? && m.term == n.term && AppendOk(peers, h, src, m)
    requires PrevMatches(n, m.prevLogIndex, m.prevLogTerm)
    requires end == m.prevLogIndex + |m.entries| && r == Replicate(n, m.entries, m.leaderCommit)
    ensures Good(peers, h, n, ReplicateHist(h, n, end), r, [Send(src, AppendEntriesResp(n.term, true, end))])
  {
    ReplicateGrows(peers, h, n, end);
    ReplicateKeeps(peers, h, n, m, src, end, r);
    AckSend(peers, h, n, end, src);
  }

  lemma AppendGood(peers: seq<nat>, h: Hist, n: Node, p: Packet) returns (h2: Hist)
    requires HistInv(peers, h) && NodeInv(peers, h, n) && MsgInv(peers, h, p)
    requires p.dst == n.id && p.msg.AppendEntries? && n.term >= p.msg.term
    ensures Good(peers, h, n, h2, StepHandler(n, p.src, p.msg).0, StepHandler(n, p.src, p.msg).1)
  {
    var m, refuse := p.msg, [Send(p.msg.leader, AppendEntriesResp(n.term, false, 0))];
    var heard := Heard(n, m.leader);
    h2 := h;
    if m.term < n.term {
      Quiet(peers, h, n, n, refuse);
    } else {
      HeardKeeps(peers, h, n, m.leader);
      if !PrevMatches(heard, m.prevLogIndex, m.prevLogTerm) {
        Quiet(peers, h, n, heard, refuse);
      } else {
        var r, end := Replicate(heard, m.entries, m.leaderCommit), m.prevLogIndex + |m.entries|;
        h2 := ReplicateHist(h, heard, end);
        AcknowledgedIsEnd(h, m);
        ReplicateGood(peers, h, heard, m, p.src, end, r);
      }
    }
  }

  lemma AppendRespGood(peers: seq<nat>, h: Hist, n: Node, p: Packet)
    requires HistInv(peers, h) && NodeInv(peers, h, n) && MsgInv(peers, h, p)
    requires p.dst == n.id && p.msg.AppendEntriesResp?
    ensures Good(peers, h, n, h, StepHandler(n, p.src, p.msg).0, StepHandler(n, p.src, p.msg).1)
  {
    var from := p.src;
    if n.role != Leader || p.msg.term != n.term {
      Quiet(peers, h, n, n, []);
    } else if p.msg.success {
      var m := Confirm(n, from, p.msg.matchIndex);
      ConfirmKeeps(peers, h, n, from, p.msg.matchIndex);
      AdvanceKeeps(peers, h, m);
      Quiet(peers, h, n, AdvanceCommit(m), []);
    } else {
      var b := BackOff(n, from);
      BackOffKeeps(peers, h, n, from);
      AppendIsOk(peers, h, b, from);
      Quiet(peers, h, n, b, [AppendTo(b, from)]);
    }
  }

  lemma HandlerGood(peers: seq<nat>, h: Hist, n: Node, p: Packet) returns (h2: Hist)
    requires HistInv(peers, h) && NodeInv(peers, h, n) && MsgInv(peers, h, p)
    requires p.dst == n.id && n.term >= p.msg.term
    ensures Good(peers, h, n, h2, StepHandler(n, p.src, p.msg).0, StepHandler(n, p.src, p.msg).1)
  {
    match p.msg {
      case RequestVote(_, _, _, _) => h2 := RequestVoteGood(peers, h, n, p);
      case RequestVoteResp(_, _) => h2 := VoteRespGood(peers, h, n, p);
      case AppendEntries(_, _, _, _, _, _) => h2 := AppendGood(peers, h, n, p);
      case AppendEntriesResp(_, _, _) => h2 := h; AppendRespGood(peers, h, n, p);
    }
  }

  lemma CatchUpGood(peers: seq<nat>, h: Hist, n: Node, t: nat, c: Node)
    requires HistInv(peers, h) && NodeInv(peers, h, n) && c == CatchUp(n, t)
    ensures Good(peers, h, n, h, c, []) && c.term >= t
  {
    CatchUpKeeps(peers, h, n, t);
  }

  lemma StepGood(peers: seq<nat>, h: Hist, n: Node, p: Packet, r: (Node, seq<Send>)) returns (h2: Hist)
    requires HistInv(peers, h) && NodeInv(peers, h, n) && MsgInv(peers, h, p) && p.dst == n.id
    requires r == Step(n, p.src, p.msg)
    ensures Good(peers, h, n, h2, r.0, r.1)
  {
    var c := CatchUp(n, p.msg.term);
    CatchUpGood(peers, h, n, p.msg.term, c);
    h2 := HandlerGood(peers, h, c, p);
    GoodAfter(peers, h, n, h, c, h2, r.0, r.1);
  }

  // ---------- clients and the state machine ----------

  lemma ProposeGood(peers: seq<nat>, h: Hist, n: Node, command: Command) returns (h2: Hist)
    requires HistInv(peers, h) && NodeInv(peers, h, n)
    ensures Good(peers, h, n, h2, Propose(n, command).0, [])
  {
    if n.role != Leader {
      h2 := h;
    } else {
      var e, m := Entry(n.term, |n.log.entries| + 1, command), AppendOwn(n, command);
      h2 := OwnHist(h, n, e);
      LastFacts(peers, h, n);
      OwnGrows(peers, h, n, e);
      OwnKeeps(peers, h, n, e, m);
      AdvanceKeeps(peers, h2, m);
    }
  }

  /** Every drained command is the log's command at its index. */
  lemma {:induction false} DrainedAre(l: Log, from: nat, upTo: nat)
    requires l.snapshotIndex == 0 && upTo <= |l.entries|
    ensures forall k :: 0 <= k < |CommandsIn(l, from, upTo)| ==>
              var (index, c) := CommandsIn(l, from, upTo)[k];
              from < index <= upTo && c == l.entries[index - 1].command
    decreases upTo - from
  {
    if from < upTo { DrainedAre(l, from + 1, upTo); }
  }

  lemma AppliedNow(peers: seq<nat>, h: Hist, n: Node, d: Applied)
    requires HistInv(peers, h) && NodeInv(peers, h, n)
    requires 1 <= d.index <= n.commitIndex <= |n.log.entries|
    requires d.command == n.log.entries[d.index - 1].command
    ensures AppliedOk(peers, h, d)
  {
    var t: nat, k: nat :| Backs(peers, h, n.log.entries, n.commitIndex, n.term, t, k);
    assert h.elections[t].log[..n.commitIndex][d.index - 1] == n.log.entries[d.index - 1];
    assert Justifies(peers, h, d, t, k);
  }

  lemma CommitWithinLog(peers: seq<nat>, h: Hist, n: Node)
    requires HistInv(peers, h) && NodeCommit(peers, h, n)
    ensures n.commitIndex <= |n.log.entries|
  {
    if n.commitIndex != 0 {
      var t: nat, k: nat :| Backs(peers, h, n.log.entries, n.commitIndex, n.term, t, k);
    }
  }

  lemma DrainKeeps(peers: seq<nat>, h: Hist, n: Node)
    requires NodeInv(peers, h, n)
    ensures NodeInv(peers, h, TakeCommitted(n).0)
  {
  }

  lemma DrainGood(peers: seq<nat>, h: Hist, n: Node, ds: set<Applied>)
    requires HistInv(peers, h) && NodeInv(peers, h, n) && ds == AppliedBy(n.id, TakeCommitted(n).1)
    ensures Good(peers, h, n, h, TakeCommitted(n).0, []) && DrainedInv(peers, h, ds)
  {
    CommitWithinLog(peers, h, n);
    DrainedAre(n.log, n.lastApplied, n.commitIndex);
    DrainKeeps(peers, h, n);
    forall d | d in ds ensures AppliedOk(peers, h, d) { AppliedNow(peers, h, n, d); }
  }

  lemma GoodStep(peers: seq<nat>, s: Sys, h: Hist, i: nat, h2: Hist, m: Node, sends: seq<Send>)
    requires Inv(peers, s, h) && i in s.nodes && s.nodes[i].id == i && Good(peers, h, s.nodes[i], h2, m, sends)
    ensures Inv(peers, Put(s, i, m, sends), h2)
  {
    SendsToNet(peers, h2, i, sends);
    StepOf(peers, s, h, i, h2, m, sends);
  }

  lemma DrainStep(peers: seq<nat>, s: Sys, h: Hist, i: nat)
    requires Inv(peers, s, h) && i in s.nodes
    ensures var (n, commands) := TakeCommitted(s.nodes[i]);
            Inv(peers, Put(s, i, n, []).(drained := s.drained + AppliedBy(i, commands)), h)
  {
    var ds := AppliedBy(i, TakeCommitted(s.nodes[i]).1);
    DrainGood(peers, h, s.nodes[i], ds);
    GoodStep(peers, s, h, i, h, TakeCommitted(s.nodes[i]).0, []);
    DrainedJoin(peers, h, s.drained, ds);
  }

  lemma DrainedJoin(peers: seq<nat>, h: Hist, a: set<Applied>, b: set<Applied>)
    requires DrainedInv(peers, h, a) && DrainedInv(peers, h, b)
    ensures DrainedInv(peers, h, a + b)
  {
  }

  /** `h2` is a later history than `h`, whichever nodes took the steps between. */
  ghost predicate Later(h: Hist, h2: Hist) {
    && (forall u :: u in h.elections ==>
          && u in h2.elections
          && h2.elections[u].leader == h.elections[u].leader
          && h.elections[u].log <= h2.elections[u].log)
    && (forall v, t :: (v, t) in h.acked ==> (v, t) in h2.acked && h.acked[(v, t)] <= h2.acked[(v, t)])
  }

  /** Every node acknowledges only in the term it is in. */
  ghost predicate AllAckNow(h: Hist, h2: Hist, nodes: map<nat, Node>) {
    forall v, u :: (v, u) in h2.acked && !(v in nodes && nodes[v].term == u) ==>
      (v, u) in h.acked && h2.acked[(v, u)] == h.acked[(v, u)]
  }

  lemma GoodIsLater(peers: seq<nat>, h: Hist, n: Node, h2: Hist, m: Node, sends: seq<Send>)
    requires Good(peers, h, n, h2, m, sends)
    ensures Later(h, h2)
  {
  }

  lemma LaterTwice(h: Hist, h1: Hist, h2: Hist)
    requires Later(h, h1) && Later(h1, h2)
    ensures Later(h, h2)
  {
  }

  lemma StableLasts(peers: seq<nat>, h: Hist, h2: Hist, log: seq<Entry>, c: nat, u: nat)
    requires Later(h, h2) && Stable(peers, h, log, c, u)
    ensures Stable(peers, h2, log, c, u)
  {
    if c != 0 {
      var t: nat, k: nat :| Backs(peers, h, log, c, u, t, k);
      SubsetSize(AckSet(peers, h, t, k), AckSet(peers, h2, t, k));
      assert Backs(peers, h2, log, c, u, t, k);
    }
  }

  lemma NodeAction(peers: seq<nat>, s: Sys, h: Hist, i: nat, h2: Hist, m: Node, sends: seq<Send>)
    requires Inv(peers, s, h) && i in s.nodes && s.nodes[i].id == i && Good(peers, h, s.nodes[i], h2, m, sends)
    ensures Inv(peers, Put(s, i, m, sends), h2) && Later(h, h2) && AllAckNow(h, h2, Put(s, i, m, sends).nodes)
  {
    GoodIsLater(peers, h, s.nodes[i], h2, m, sends);
    GoodStep(peers, s, h, i, h2, m, sends);
  }

  lemma TimerKeeps(peers: seq<nat>, s: Sys, h: Hist, i: nat, fires: bool) returns (h2: Hist)
    requires Inv(peers, s, h) && i in s.nodes && s.nodes[i].Wf()
    ensures Inv(peers, Apply(s, Timer(i, fires)), h2) && Later(h, h2)
    ensures AllAckNow(h, h2, Apply(s, Timer(i, fires)).nodes)
  {
    var r := Tick(s.nodes[i], fires);
    assert Apply(s, Timer(i, fires)) == Put(s, i, r.0, r.1);
    h2 := TickGood(peers, h, s.nodes[i], fires);
    NodeAction(peers, s, h, i, h2, r.0, r.1);
  }

  lemma DeliverKeeps(peers: seq<nat>, s: Sys, h: Hist, p: Packet) returns (h2: Hist)
    requires Inv(peers, s, h) && Enabled(s, Deliver(p))
    ensures Inv(peers, Apply(s, Deliver(p)), h2) && Later(h, h2) && AllAckNow(h, h2, Apply(s, Deliver(p)).nodes)
  {
    var r := Step(s.nodes[p.dst], p.src, p.msg);
    assert Apply(s, Deliver(p)) == Put(s, p.dst, r.0, r.1);
    h2 := StepGood(peers, h, s.nodes[p.dst], p, r);
    NodeAction(peers, s, h, p.dst, h2, r.0, r.1);
  }

  lemma ProposeKeeps(peers: seq<nat>, s: Sys, h: Hist, i: nat, command: Command) returns (h2: Hist)
    requires Inv(peers, s, h) && i in s.nodes && s.nodes[i].Wf()
    ensures Inv(peers, Apply(s, ClientPropose(i, command)), h2) && Later(h, h2)
    ensures AllAckNow(h, h2, Apply(s, ClientPropose(i, command)).nodes)
  {
    var m := Propose(s.nodes[i], command).0;
    assert Apply(s, ClientPropose(i, command)) == Put(s, i, m, []);
    h2 := ProposeGood(peers, h, s.nodes[i], command);
    NodeAction(peers, s, h, i, h2, m, []);
  }

  lemma CrashGood(peers: seq<nat>, h: Hist, n: Node, m: Node)
    requires HistInv(peers, h) && NodeInv(peers, h, n) && m == Restart(n)
    ensures Good(peers, h, n, h, m, [])
  {
    RestartKeeps(peers, h, n);
  }

  lemma CrashKeeps(peers: seq<nat>, s: Sys, h: Hist, i: nat)
    requires Inv(peers, s, h) && Enabled(s, Crash(i))
    ensures Inv(peers, Apply(s, Crash(i)), h)
  {
    var m := Restart(s.nodes[i]);
    assert Apply(s, Crash(i)) == Put(s, i, m, []);
    CrashGood(peers, h, s.nodes[i], m);
    NodeAction(peers, s, h, i, h, m, []);
  }

  lemma ApplyKeeps(peers: seq<nat>, s: Sys, h: Hist, a: Action) returns (h2: Hist)
    requires Inv(peers, s, h)
    ensures Inv(peers, Apply(s, a), h2) && Later(h, h2) && AllAckNow(h, h2, Apply(s, a).nodes)
  {
    h2 := h;
    if Enabled(s, a) {
      match a {
        case Timer(i, fires) => h2 := TimerKeeps(peers, s, h, i, fires);
        case Deliver(p) => h2 := DeliverKeeps(peers, s, h, p);
        case ClientPropose(i, command) => h2 := ProposeKeeps(peers, s, h, i, command);
        case Drain(i) => DrainStep(peers, s, h, i);
        case Crash(i) => CrashKeeps(peers, s, h, i);
      }
    }
  }

  lemma InitialInv(peers: seq<nat>, s: Sys)
    requires Initial(peers, s)
    ensures Inv(peers, s, Hist(map[], map[], map[], map[]))
  {
    var h := Hist(map[], map[], map[], map[]);
    forall i | i in s.nodes ensures s.nodes[i].id == i && NodeInv(peers, h, s.nodes[i]) {
      var durable :| s.nodes[i] == NewNode(i, peers, EmptyLog(durable));
    }
  }

  lemma {:induction false} RunFrom(peers: seq<nat>, s: Sys, h: Hist, actions: seq<Action>) returns (h2: Hist)
    requires Inv(peers, s, h)
    ensures Inv(peers, Run(s, actions), h2) && Later(h, h2)
    decreases |actions|
  {
    h2 := h;
    if actions != [] {
      var h1 := RunFrom(peers, s, h, actions[..|actions| - 1]);
      h2 := ApplyKeeps(peers, Run(s, actions[..|actions| - 1]), h1, actions[|actions| - 1]);
      LaterTwice(h, h1, h2);
    }
  }

  lemma {:induction false} RunSplit(s: Sys, actions: seq<Action>, k: nat)
    requires k <= |actions|
    ensures Run(s, actions) == Run(Run(s, actions[..k]), actions[k..])
    decreases |actions|
  {
    if k < |actions| {
      var init := actions[..|actions| - 1];
      RunSplit(s, init, k);
      assert init[..k] == actions[..k] && init[k..] == actions[k..][..|actions[k..]| - 1];
    } else {
      assert actions[..k] == actions;
    }
  }

  /** Histories for two moments of one run, the first before the second. */
  lemma TwoMoments(peers: seq<nat>, s: Sys, actions: seq<Action>, k1: nat, k2: nat) returns (h1: Hist, h2: Hist)
    requires Initial(peers, s) && k1 <= k2 <= |actions|
    ensures Inv(peers, Run(s, actions[..k1]), h1) && Inv(peers, Run(s, actions[..k2]), h2) && Later(h1, h2)
  {
    InitialInv(peers, s);
    h1 := RunFrom(peers, s, Hist(map[], map[], map[], map[]), actions[..k1]);
    h2 := RunFrom(peers, Run(s, actions[..k1]), h1, actions[k1..k2]);
    RunSplit(s, actions[..k2], k1);
    assert actions[..k2][..k1] == actions[..k1] && actions[..k2][k1..] == actions[k1..k2];
  }

  lemma {:induction false} RunInv(peers: seq<nat>, s: Sys, actions: seq<Action>) returns (h: Hist)
    requires Initial(peers, s)
    ensures Inv(peers, Run(s, actions), h)
  {
    InitialInv(peers, s);
    h := RunFrom(peers, s, Hist(map[], map[], map[], map[]), actions);
  }

  // ---------- what every run of a group guarantees ----------

  /** Members stay members and nothing is ever malformed: every packet in the
      network can be delivered and every member's timer can fire. */
  lemma NothingIsStuck(peers: seq<nat>, s: Sys, actions: seq<Action>)
    requires Initial(peers, s)
    ensures var r := Run(s, actions);
            && r.nodes.Keys == Members(peers)
            && (forall p :: p in r.net ==> Enabled(r, Deliver(p)))
            && (forall i, fires :: i in r.nodes ==> Enabled(r, Timer(i, fires)))
  {
    var h := RunInv(peers, s, actions);
    var r := Run(s, actions);
    forall p | p in r.net ensures Enabled(r, Deliver(p)) { assert MsgInv(peers, h, p); }
  }

  /** Election safety: over a whole run, a term has at most one leader. */
  lemma ElectionSafety(peers: seq<nat>, s: Sys, actions: seq<Action>, k1: nat, k2: nat, i: nat, j: nat)
    requires Initial(peers, s) && k1 <= k2 <= |actions|
    requires var s1, s2 := Run(s, actions[..k1]), Run(s, actions[..k2]);
             && i in s1.nodes && s1.nodes[i].role == Leader
             && j in s2.nodes && s2.nodes[j].role == Leader
             && s1.nodes[i].term == s2.nodes[j].term
    ensures i == j
  {
    var h1, h2 := TwoMoments(peers, s, actions, k1, k2);
    var n1, n2 := Run(s, actions[..k1]).nodes[i], Run(s, actions[..k2]).nodes[j];
    assert NodeLeader(h1, n1) && NodeLeader(h2, n2);
  }

  /** Log matching: two logs with the same term at an index are the same up to it. */
  lemma LogsMatch(peers: seq<nat>, s: Sys, actions: seq<Action>, i: nat, j: nat, k: nat)
    requires Initial(peers, s)
    requires var r := Run(s, actions);
             && i in r.nodes && j in r.nodes
             && k < |r.nodes[i].log.entries| && k < |r.nodes[j].log.entries|
             && r.nodes[i].log.entries[k].term == r.nodes[j].log.entries[k].term
    ensures var r := Run(s, actions);
            r.nodes[i].log.entries[..k + 1] == r.nodes[j].log.entries[..k + 1]
  {
    var h := RunInv(peers, s, actions);
    var r := Run(s, actions);
    assert NodeLog(h, r.nodes[i]) && NodeLog(h, r.nodes[j]);
    LogMatching(h, r.nodes[i].log.entries, r.nodes[j].log.entries, k);
  }

  /** At moment `m` node `v` was in term `t` and its log began with `log`. */
  ghost predicate Held(s: Sys, actions: seq<Action>, v: nat, t: nat, log: seq<Entry>, m: nat) {
    m <= |actions| &&
    var nodes := Run(s, actions[..m]).nodes;
    v in nodes && nodes[v].term == t && log <= nodes[v].log.entries
  }

  /** What `v` has acknowledged in term `t` it once held. */
  ghost predicate OnceHeld(s: Sys, actions: seq<Action>, h: Hist, v: nat, t: nat) {
    (v, t) in h.acked ==>
      && t in h.elections
      && h.acked[(v, t)] <= |h.elections[t].log|
      && exists m :: Held(s, actions, v, t, h.elections[t].log[..h.acked[(v, t)]], m)
  }

  ghost predicate AllOnceHeld(s: Sys, actions: seq<Action>, h: Hist) {
    forall v: nat, t: nat {:trigger OnceHeld(s, actions, h, v, t)} :: OnceHeld(s, actions, h, v, t)
  }

  lemma HeldStill(s: Sys, actions: seq<Action>, a: Action, v: nat, t: nat, log: seq<Entry>, m: nat)
    requires Held(s, actions, v, t, log, m)
    ensures Held(s, actions + [a], v, t, log, m)
  {
    assert (actions + [a])[..m] == actions[..m];
  }

  lemma AckedIsHeld(peers: seq<nat>, h: Hist, n: Node)
    requires NodeInv(peers, h, n) && Acks(h) && (n.id, n.term) in h.acked
    ensures n.term in h.elections && h.acked[(n.id, n.term)] <= |h.elections[n.term].log|
    ensures h.elections[n.term].log[..h.acked[(n.id, n.term)]] <= n.log.entries
  {
    assert AckOk(h, n.id, n.term);
    assert Kept(h, n.term, h.acked[(n.id, n.term)], n.log.entries, n.term + 1);
  }

  lemma HeldNow(s: Sys, actions: seq<Action>, r: Sys, n: Node, log: seq<Entry>)
    requires r == Run(s, actions) && n.id in r.nodes && r.nodes[n.id] == n && log <= n.log.entries
    ensures Held(s, actions, n.id, n.term, log, |actions|)
  {
    assert actions[..|actions|] == actions;
  }

  lemma OnceHeldStill(peers: seq<nat>, s: Sys, actions: seq<Action>, a: Action, h: Hist, h2: Hist, v: nat, t: nat)
    requires Later(h, h2) && OnceHeld(s, actions, h, v, t)
    requires (v, t) in h2.acked ==> (v, t) in h.acked && h2.acked[(v, t)] == h.acked[(v, t)]
    ensures OnceHeld(s, actions + [a], h2, v, t)
  {
    if (v, t) in h2.acked {
      var k := h.acked[(v, t)];
      var m: nat :| Held(s, actions, v, t, h.elections[t].log[..k], m);
      HeldStill(s, actions, a, v, t, h.elections[t].log[..k], m);
      assert h2.elections[t].log[..k] == h.elections[t].log[..k];
    }
  }

  lemma HeldStep(peers: seq<nat>, s: Sys, actions: seq<Action>, a: Action, h: Hist, h2: Hist)
    requires Inv(peers, Run(s, actions + [a]), h2) && Later(h, h2)
    requires AllAckNow(h, h2, Run(s, actions + [a]).nodes) && AllOnceHeld(s, actions, h)
    ensures AllOnceHeld(s, actions + [a], h2)
  {
    var nodes := Run(s, actions + [a]).nodes;
    forall v: nat, t: nat ensures OnceHeld(s, actions + [a], h2, v, t) {
      if (v, t) in h2.acked && v in nodes && nodes[v].term == t {
        var n := nodes[v];
        assert n.id == v && NodeInv(peers, h2, n);
        AckedIsHeld(peers, h2, n);
        HeldNow(s, actions + [a], Run(s, actions + [a]), n, h2.elections[t].log[..h2.acked[(v, t)]]);
      } else {
        assert OnceHeld(s, actions, h, v, t);
        OnceHeldStill(peers, s, actions, a, h, h2, v, t);
      }
    }
  }

  lemma {:induction false} RunHeld(peers: seq<nat>, s: Sys, actions: seq<Action>) returns (h: Hist)
    requires Initial(peers, s)
    ensures Inv(peers, Run(s, actions), h) && AllOnceHeld(s, actions, h)
    decreases |actions|
  {
    if actions == [] {
      InitialInv(peers, s);
      h := Hist(map[], map[], map[], map[]);
    } else {
      var init, a := actions[..|actions| - 1], actions[|actions| - 1];
      var h1 := RunHeld(peers, s, init);
      h := ApplyKeeps(peers, Run(s, init), h1, a);
      assert actions == init + [a];
      HeldStep(peers, s, init, a, h1, h);
    }
  }

  /** What a leader has recorded as replicated on a peer, that peer's log began with
      at some moment of the run in the leader's term, and begins with now if the
      peer is still in that term. */
  lemma MatchIndexIsShared(peers: seq<nat>, s: Sys, actions: seq<Action>, i: nat, p: nat)
    requires Initial(peers, s)
    requires var r := Run(s, actions); i in r.nodes && p in r.nodes && r.nodes[i].role == Leader
    ensures var r := Run(s, actions);
            && p < |r.nodes[i].matchIndex|
            && r.nodes[i].matchIndex[p] <= |r.nodes[i].log.entries|
            && var shared := r.nodes[i].log.entries[..r.nodes[i].matchIndex[p]];
            && (shared != [] ==> exists m :: Held(s, actions, p, r.nodes[i].term, shared, m))
            && (r.nodes[p].term == r.nodes[i].term ==> shared <= r.nodes[p].log.entries)
  {
    var h := RunHeld(peers, s, actions);
    var r := Run(s, actions);
    var n := r.nodes[i];
    assert NodeInv(peers, h, n) && NodeInv(peers, h, r.nodes[p]) && p in n.peers;
    LeaderSaw(s, actions, h, n, p);
    if r.nodes[p].term == n.term { MatchedPrefix(peers, h, n, r.nodes[p]); }
  }

  lemma LeaderSaw(s: Sys, actions: seq<Action>, h: Hist, n: Node, p: nat)
    requires NodeLeader(h, n) && n.role == Leader && p in n.peers && AllOnceHeld(s, actions, h)
    ensures p < |n.matchIndex| && n.matchIndex[p] <= |n.log.entries|
    ensures n.matchIndex[p] > 0 ==> exists m :: Held(s, actions, p, n.term, n.log.entries[..n.matchIndex[p]], m)
  {
    var k := n.matchIndex[p];
    if k > 0 {
      assert OnceHeld(s, actions, h, p, n.term);
      var all := n.log.entries[..h.acked[(p, n.term)]];
      var m: nat :| Held(s, actions, p, n.term, all, m);
      assert n.log.entries[..k] <= all;
      assert Held(s, actions, p, n.term, n.log.entries[..k], m);
    }
  }

  lemma MatchedPrefix(peers: seq<nat>, h: Hist, n: Node, m: Node)
    requires NodeInv(peers, h, n) && NodeInv(peers, h, m) && Acks(h)
    requires n.role == Leader && n.term == m.term && m.id in peers
    ensures m.id < |n.matchIndex| && n.matchIndex[m.id] <= |n.log.entries|
    ensures n.log.entries[..n.matchIndex[m.id]] <= m.log.entries
  {
    var k := n.matchIndex[m.id];
    if k > 0 {
      assert AckOk(h, m.id, n.term);
      assert Kept(h, n.term, k, m.log.entries, m.term + 1);
    }
  }

  /** Leader completeness: what any node regards as committed at one moment is in
      the log of every leader of that term or a later one from then on. */
  lemma CommittedStays(peers: seq<nat>, s: Sys, actions: seq<Action>, k1: nat, k2: nat, i: nat, j: nat)
    requires Initial(peers, s) && k1 <= k2 <= |actions|
    requires var s1, s2 := Run(s, actions[..k1]), Run(s, actions[..k2]);
             && i in s1.nodes && j in s2.nodes
             && s2.nodes[j].role == Leader && s2.nodes[j].term >= s1.nodes[i].term
    ensures var n1, n2 := Run(s, actions[..k1]).nodes[i], Run(s, actions[..k2]).nodes[j];
            && n1.commitIndex <= |n1.log.entries|
            && n1.log.entries[..n1.commitIndex] <= n2.log.entries
  {
    var h1, h2 := TwoMoments(peers, s, actions, k1, k2);
    var n1, n2 := Run(s, actions[..k1]).nodes[i], Run(s, actions[..k2]).nodes[j];
    assert NodeCommit(peers, h1, n1) && NodeLeader(h2, n2);
    StableLasts(peers, h1, h2, n1.log.entries, n1.commitIndex, n1.term);
    StableInLeader(peers, h2, n1.log.entries, n1.commitIndex, n1.term, n2.term);
  }

  lemma StableAgree(peers: seq<nat>, h: Hist, a: seq<Entry>, ca: nat, u: nat, b: seq<Entry>, cb: nat, w: nat, k: nat)
    requires HistInv(peers, h) && Stable(peers, h, a, ca, u) && Stable(peers, h, b, cb, w)
    requires k < ca && k < cb
    ensures k < |a| && k < |b| && a[k] == b[k]
  {
    var t: nat, x: nat :| Backs(peers, h, a, ca, u, t, x);
    var t2: nat, x2: nat :| Backs(peers, h, b, cb, w, t2, x2);
    CommittedAgree(peers, h, t, x, t2, x2, k);
    assert h.elections[t].log[..ca][k] == a[k] && h.elections[t2].log[..cb][k] == b[k];
  }

  /** Committed prefixes never diverge, not even between different moments. */
  lemma CommittedAgreeOverTime(peers: seq<nat>, s: Sys, actions: seq<Action>, k1: nat, k2: nat, i: nat, j: nat, k: nat)
    requires Initial(peers, s) && k1 <= k2 <= |actions|
    requires var s1, s2 := Run(s, actions[..k1]), Run(s, actions[..k2]);
             && i in s1.nodes && k < s1.nodes[i].commitIndex
             && j in s2.nodes && k < s2.nodes[j].commitIndex
    ensures var n1, n2 := Run(s, actions[..k1]).nodes[i], Run(s, actions[..k2]).nodes[j];
            k < |n1.log.entries| && k < |n2.log.entries| && n1.log.entries[k] == n2.log.entries[k]
  {
    var h1, h2 := TwoMoments(peers, s, actions, k1, k2);
    var n1, n2 := Run(s, actions[..k1]).nodes[i], Run(s, actions[..k2]).nodes[j];
    assert NodeCommit(peers, h1, n1) && NodeCommit(peers, h2, n2);
    StableLasts(peers, h1, h2, n1.log.entries, n1.commitIndex, n1.term);
    StableAgree(peers, h2, n1.log.entries, n1.commitIndex, n1.term, n2.log.entries, n2.commitIndex, n2.term, k);
  }

  /** State machine safety: no two applications at the same index, by whichever
      nodes and at whatever times, carry different commands. */
  lemma StateMachineSafety(peers: seq<nat>, s: Sys, actions: seq<Action>, a: Applied, b: Applied)
    requires Initial(peers, s)
    requires a in Run(s, actions).drained && b in Run(s, actions).drained && a.index == b.index
    ensures a.command == b.command
  {
    var h := RunInv(peers, s, actions);
    assert AppliedOk(peers, h, a) && AppliedOk(peers, h, b);
    var t: nat, x: nat :| Justifies(peers, h, a, t, x);
    var t2: nat, x2: nat :| Justifies(peers, h, b, t2, x2);
    CommittedAgree(peers, h, t, x, t2, x2, a.index - 1);
  }

  /** An accepted AppendEntries leaves the follower with the entries it carries and
      a commit index that does not reach past them, unless it already did. */
  ghost predicate CommitsOnlyChecked(n: Node, m: Msg)
    requires m.AppendEntries?
  {
    m.term >= n.term && PrevMatches(n, m.prevLogIndex, m.prevLogTerm) ==>
      var r, end := Replicate(n, m.entries, m.leaderCommit), m.prevLogIndex + |m.entries|;
      && r.commitIndex == Max(n.commitIndex, m.leaderCommit)
      && end <= |r.log.entries|
      && r.log.entries[m.prevLogIndex..end] == m.entries
  }

  lemma CheckedAgainstLeader(peers: seq<nat>, h: Hist, n: Node, m: Msg, src: nat)
    requires HistInv(peers, h) && Shape(peers, n) && NodeLog(h, n) && NodeCommit(peers, h, n)
    requires m.AppendEntries? && m.term <= n.term && AppendOk(peers, h, src, m)
    ensures CommitsOnlyChecked(n, m)
  {
    if m.term >= n.term && PrevMatches(n, m.prevLogIndex, m.prevLogTerm) {
      var end := m.prevLogIndex + |m.entries|;
      ReplicatedNode(peers, h, n, m, src);
      var log, t := Overlaid(h, n, end), h.elections[n.term].log[..end];
      assert t <= log;
      assert log[m.prevLogIndex..end] == t[m.prevLogIndex..end] == m.entries;
    }
  }

  lemma CheckedAfterCatchUp(peers: seq<nat>, h: Hist, n: Node, m: Msg, src: nat)
    requires HistInv(peers, h) && NodeInv(peers, h, n)
    requires m.AppendEntries? && AppendOk(peers, h, src, m)
    ensures CommitsOnlyChecked(CatchUp(n, m.term), m)
  {
    CatchUpKeeps(peers, h, n, m.term);
    CheckedAgainstLeader(peers, h, CatchUp(n, m.term), m, src);
  }

  /** The follower's commit rule: an AppendEntries in flight never names a commit
      index past the entries it carries, so capping by the end of the log lets no
      entry become committed that was not checked against the leader. */
  lemma FollowerCommitRule(peers: seq<nat>, s: Sys, actions: seq<Action>, p: Packet)
    requires Initial(peers, s) && p in Run(s, actions).net && p.msg.AppendEntries?
    ensures p.msg.leaderCommit <= p.msg.prevLogIndex + |p.msg.entries|
    ensures p.dst in Run(s, actions).nodes
    ensures CommitsOnlyChecked(CatchUp(Run(s, actions).nodes[p.dst], p.msg.term), p.msg)
  {
    var h := RunInv(peers, s, actions);
    assert MsgInv(peers, h, p);
    CheckedAfterCatchUp(peers, h, Run(s, actions).nodes[p.dst], p.msg, p.src);
  }

  /** The apply cursor never passes the commit index, nor that the end of the log. */
  lemma CursorsInOrder(peers: seq<nat>, s: Sys, actions: seq<Action>, i: nat)
    requires Initial(peers, s) && i in Run(s, actions).nodes
    ensures var n := Run(s, actions).nodes[i];
            n.lastApplied <= n.commitIndex <= |n.log.entries| && n.log.snapshotIndex == 0
  {
    var h := RunInv(peers, s, actions);
    CommitWithinLog(peers, h, Run(s, actions).nodes[i]);
  }
}
