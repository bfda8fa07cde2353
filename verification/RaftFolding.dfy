/** Groups whose in-memory logs fold their applied prefix do what groups that never
    fold do, as long as every leader can still send every peer what it lacks. */
module RaftFolding {
  import opened RaftLogs
  import opened RaftNodes
  import opened RaftSystem
  import opened RaftHistory
  import opened RaftSafety
  import opened RaftSteps
  import opened RaftRuns
  import opened RaftMoves
  import C = RaftCompaction

  /** A leader's log still begins at or below what each other peer is to get next. */
  ghost predicate Serves(n: Node) {
    n.role == Leader ==>
      forall p :: p in n.peers && p != n.id ==> p < |n.nextIndex| && n.nextIndex[p] > n.log.snapshotIndex
  }

  ghost predicate AllServe(s: Sys) {
    forall i :: i in s.nodes ==> Serves(s.nodes[i])
  }

  // ---------- a folded log and the full one ----------

  ghost predicate LogMirrors(l: Log, full: Log) {
    && full == l.(entries := full.entries, snapshotIndex := 0, snapshotTerm := 0)
    && C.Folds(l, full.entries)
  }

  /** `m` is `n` with its log in full, and `n` has folded only what it applied. */
  ghost predicate Mirrors(n: Node, m: Node) {
    && m == n.(log := m.log)
    && LogMirrors(n.log, m.log)
    && n.log.snapshotIndex <= n.lastApplied
    && (n.log.durable ==> n.log.snapshotIndex == 0)
  }

  lemma LogReads(l: Log, full: Log, index: nat)
    requires LogMirrors(l, full)
    ensures l.LastIndex() == full.LastIndex() == |full.entries| && l.LastTerm() == full.LastTerm()
    ensures index >= l.snapshotIndex ==> l.TermAt(index) == full.TermAt(index)
    ensures index > l.snapshotIndex ==> l.CommandAt(index) == full.CommandAt(index)
    ensures index > l.snapshotIndex ==> l.EntriesFrom(index) == full.EntriesFrom(index)
  {
    assert full.entries[0..] == full.entries;
    assert C.Folds(full, full.entries);
    C.ReadsAgree(l, full.entries, index);
    C.ReadsAgree(full, full.entries, index);
  }

  // ---------- accepting entries ----------

  ghost predicate Seen(full: Log, snap: nat, e: Entry) {
    1 <= e.index <= snap ==> e.index <= |full.entries| && full.entries[e.index - 1].term == e.term
  }

  /** One received entry: what the snapshot covers changes neither log. */
  lemma AcceptMirrors(l: Log, full: Log, e: Entry)
    requires LogMirrors(l, full) && 1 <= e.index <= |full.entries| + 1 && Seen(full, l.snapshotIndex, e)
    ensures LogMirrors(l.Accept(e), full.Accept(e))
    ensures l.Accept(e).snapshotIndex == l.snapshotIndex && l.Accept(e).durable == l.durable
    ensures e.index <= |full.Accept(e).entries|
    ensures full.Accept(e).entries[..l.snapshotIndex] == full.entries[..l.snapshotIndex]
  {
    LogReads(l, full, e.index);
    if e.index > l.snapshotIndex && !(full.TermAt(e.index) == e.term && full.LastIndex() >= e.index) {
      CutMirrors(l, full, e);
    }
  }

  lemma CutMirrors(l: Log, full: Log, e: Entry)
    requires LogMirrors(l, full) && l.snapshotIndex < e.index <= |full.entries| + 1
    ensures var l', full' := l.TruncateFrom(e.index).Append(e), full.TruncateFrom(e.index).Append(e);
            LogMirrors(l', full') && full'.entries == full.entries[..e.index - 1] + [e]
  {
    var k, snap := e.index - 1, l.snapshotIndex;
    var all := full.entries[..k] + [e];
    assert full.TruncateFrom(e.index).Append(e).entries == all;
    assert l.TruncateFrom(e.index).Append(e).entries == l.entries[..k - snap] + [e];
    assert all[snap..] == full.entries[snap..][..k - snap] + [e];
  }

  lemma {:induction false} AcceptAllMirrors(l: Log, full: Log, es: seq<Entry>, prev: nat)
    requires LogMirrors(l, full) && prev <= |full.entries|
    requires forall k :: 0 <= k < |es| ==> es[k].index == prev + 1 + k && Seen(full, l.snapshotIndex, es[k])
    ensures LogMirrors(l.AcceptAll(es), full.AcceptAll(es))
    ensures l.AcceptAll(es).snapshotIndex == l.snapshotIndex && l.AcceptAll(es).durable == l.durable
    decreases |es|
  {
    if es != [] {
      var e, rest, l1, full1 := es[0], es[1..], l.Accept(es[0]), full.Accept(es[0]);
      AcceptMirrors(l, full, e);
      forall k | 0 <= k < |rest| ensures rest[k].index == prev + 2 + k && Seen(full1, l1.snapshotIndex, rest[k]) {
        assert rest[k] == es[k + 1];
        SeenStill(full, full1, l.snapshotIndex, rest[k]);
      }
      AcceptAllMirrors(l1, full1, rest, prev + 1);
    }
  }

  lemma SeenStill(full: Log, full': Log, snap: nat, e: Entry)
    requires snap <= |full.entries| && snap <= |full'.entries| && full'.entries[..snap] == full.entries[..snap]
    requires Seen(full, snap, e)
    ensures Seen(full', snap, e)
  {
    if 1 <= e.index <= snap { assert full'.entries[..snap][e.index - 1] == full.entries[..snap][e.index - 1]; }
  }

  // ---------- what a node sends ----------

  lemma AppendSame(n: Node, m: Node, p: nat)
    requires Mirrors(n, m) && p < |n.nextIndex| && n.nextIndex[p] > n.log.snapshotIndex
    ensures AppendTo(n, p) == AppendTo(m, p)
  {
    LogReads(n.log, m.log, n.nextIndex[p]);
    LogReads(n.log, m.log, n.nextIndex[p] - 1);
  }

  lemma {:induction false} AppendsSame(n: Node, m: Node, k: nat)
    requires Mirrors(n, m) && n.Wf() && m.Wf() && Serves(n) && n.role == Leader && k <= |n.peers|
    ensures AppendsFrom(n, k) == AppendsFrom(m, k)
    decreases |n.peers| - k
  {
    if k < |n.peers| {
      AppendsSame(n, m, k + 1);
      assert n.peers[k] in n.peers;
      if n.peers[k] != n.id { AppendSame(n, m, n.peers[k]); }
    }
  }

  lemma {:induction false} VotesSame(n: Node, m: Node, k: nat)
    requires Mirrors(n, m) && k <= |n.peers|
    ensures VoteRequests(n, k) == VoteRequests(m, k)
    decreases |n.peers| - k
  {
    LogReads(n.log, m.log, 0);
    if k < |n.peers| { VotesSame(n, m, k + 1); }
  }

  // ---------- timers ----------

  /** The pair of results of one step mirror each other and send alike. */
  ghost predicate Alike(a: (Node, seq<Send>), b: (Node, seq<Send>)) {
    Mirrors(a.0, b.0) && a.1 == b.1
  }

  lemma LeadServes(n: Node, m: Node)
    requires Mirrors(n, m) && n.Wf()
    ensures Lead(n).Wf() && Serves(Lead(n)) && Mirrors(Lead(n), Lead(m))
  {
    LogReads(n.log, m.log, 0);
  }

  lemma MaybeLeadAlike(n: Node, m: Node)
    requires Mirrors(n, m) && n.Wf() && m.Wf()
    ensures Alike(MaybeLead(n), MaybeLead(m))
  {
    if WinsElection(n) {
      LeadServes(n, m);
      AppendsSame(Lead(n), Lead(m), 0);
    }
  }

  lemma CampaignMirrors(n: Node, m: Node)
    requires Mirrors(n, m) && n.Wf()
    ensures Mirrors(Campaign(n), Campaign(m)) && Campaign(n).Wf() && Campaign(m).Wf()
  {
  }

  lemma TickAlike(n: Node, m: Node, fires: bool)
    requires Mirrors(n, m) && n.Wf() && m.Wf() && Serves(n)
    ensures Alike(Tick(n, fires), Tick(m, fires))
  {
    if fires {
      if n.role == Leader {
        AppendsSame(n, m, 0);
      } else {
        CampaignMirrors(n, m);
        VotesSame(Campaign(n), Campaign(m), 0);
        MaybeLeadAlike(Campaign(n), Campaign(m));
      }
    }
  }

  // ---------- messages ----------

  lemma RequestVoteAlike(n: Node, m: Node, term: nat, candidate: nat, lastIndex: nat, lastTerm: nat)
    requires Mirrors(n, m)
    ensures Alike(OnRequestVote(n, term, candidate, lastIndex, lastTerm),
                  OnRequestVote(m, term, candidate, lastIndex, lastTerm))
  {
    LogReads(n.log, m.log, 0);
  }

  lemma VoteRespAlike(n: Node, m: Node, from: nat, term: nat, granted: bool)
    requires Mirrors(n, m) && n.Wf() && m.Wf() && from < |n.votes|
    ensures Alike(OnVoteResp(n, from, term, granted), OnVoteResp(m, from, term, granted))
  {
    if n.role == Candidate && term == n.term && granted {
      MaybeLeadAlike(CountVote(n, from), CountVote(m, from));
    }
  }

  lemma {:induction false} HighestSame(n: Node, m: Node, idx: nat)
    requires Mirrors(n, m) && n.lastApplied <= n.commitIndex && forall p :: p in n.peers ==> p < |n.matchIndex|
    ensures HighestCommittable(n, idx) == HighestCommittable(m, idx)
    decreases idx
  {
    if idx > n.commitIndex {
      LogReads(n.log, m.log, idx);
      assert Replicas(n, idx) == Replicas(m, idx);
      HighestSame(n, m, idx - 1);
    }
  }

  lemma AdvanceMirrors(n: Node, m: Node)
    requires Mirrors(n, m) && n.lastApplied <= n.commitIndex && forall p :: p in n.peers ==> p < |n.matchIndex|
    ensures Mirrors(AdvanceCommit(n), AdvanceCommit(m))
  {
    LogReads(n.log, m.log, 0);
    HighestSame(n, m, n.log.LastIndex());
  }

  lemma AppendRespAlike(n: Node, m: Node, from: nat, term: nat, success: bool, match_: nat)
    requires Mirrors(n, m) && n.Wf() && m.Wf() && from in n.peers && from != n.id && n.lastApplied <= n.commitIndex
    requires Serves(OnAppendResp(n, from, term, success, match_).0)
    ensures Alike(OnAppendResp(n, from, term, success, match_), OnAppendResp(m, from, term, success, match_))
  {
    if n.role == Leader && term == n.term {
      if success {
        AdvanceMirrors(Confirm(n, from, match_), Confirm(m, from, match_));
      } else {
        AppendSame(BackOff(n, from), BackOff(m, from), from);
      }
    }
  }

  /** What a node has applied is in the log of the leader of its term. */
  lemma AppliedInLeader(peers: seq<nat>, h: Hist, n: Node, m: Node, k: nat)
    requires Mirrors(n, m) && HistInv(peers, h) && NodeInv(peers, h, m) && m.term in h.elections
    requires 1 <= k <= n.log.snapshotIndex
    ensures k <= |m.log.entries| && k <= |h.elections[m.term].log|
    ensures m.log.entries[k - 1] == h.elections[m.term].log[k - 1]
  {
    StableInLeader(peers, h, m.log.entries, m.commitIndex, m.term, m.term);
    assert m.log.entries[..m.commitIndex][k - 1] == h.elections[m.term].log[k - 1];
  }

  lemma PrevSame(peers: seq<nat>, h: Hist, n: Node, m: Node, src: nat, msg: Msg)
    requires Mirrors(n, m) && HistInv(peers, h) && NodeInv(peers, h, m)
    requires msg.AppendEntries? && msg.term == m.term && AppendOk(peers, h, src, msg)
    ensures PrevMatches(n, msg.prevLogIndex, msg.prevLogTerm) <==> PrevMatches(m, msg.prevLogIndex, msg.prevLogTerm)
  {
    var prev := msg.prevLogIndex;
    LogReads(n.log, m.log, prev);
    if 1 <= prev <= n.log.snapshotIndex { AppliedInLeader(peers, h, n, m, prev); }
  }

  lemma EntriesSeen(peers: seq<nat>, h: Hist, n: Node, m: Node, src: nat, msg: Msg, k: nat)
    requires Mirrors(n, m) && HistInv(peers, h) && NodeInv(peers, h, m)
    requires msg.AppendEntries? && msg.term == m.term && AppendOk(peers, h, src, msg) && k < |msg.entries|
    ensures msg.entries[k].index == msg.prevLogIndex + 1 + k && Seen(m.log, n.log.snapshotIndex, msg.entries[k])
  {
    var i := msg.prevLogIndex + k;
    assert EntryOk(h, m.term, i);
    assert msg.entries[k] == h.elections[m.term].log[i];
    if i + 1 <= n.log.snapshotIndex { AppliedInLeader(peers, h, n, m, i + 1); }
  }

  lemma ReplicateMirrors(n: Node, m: Node, es: seq<Entry>, prev: nat, commit: nat)
    requires Mirrors(n, m) && prev <= |m.log.entries|
    requires forall k :: 0 <= k < |es| ==> es[k].index == prev + 1 + k && Seen(m.log, n.log.snapshotIndex, es[k])
    ensures Mirrors(Replicate(n, es, commit), Replicate(m, es, commit))
  {
    AcceptAllMirrors(n.log, m.log, es, prev);
    LogReads(n.log.AcceptAll(es), m.log.AcceptAll(es), 0);
  }

  lemma HeardMirrors(peers: seq<nat>, h: Hist, n: Node, m: Node, leader: nat)
    requires Mirrors(n, m) && NodeInv(peers, h, m)
    ensures Mirrors(Heard(n, leader), Heard(m, leader)) && NodeInv(peers, h, Heard(m, leader))
  {
    HeardKeeps(peers, h, m, leader);
  }

  lemma AcceptedAlike(peers: seq<nat>, h: Hist, n: Node, m: Node, src: nat, msg: Msg)
    requires Mirrors(n, m) && HistInv(peers, h) && NodeInv(peers, h, m)
    requires msg.AppendEntries? && msg.term == m.term && AppendOk(peers, h, src, msg)
    requires PrevMatches(m, msg.prevLogIndex, msg.prevLogTerm)
    ensures Mirrors(Replicate(n, msg.entries, msg.leaderCommit), Replicate(m, msg.entries, msg.leaderCommit))
  {
    SharedPrefix(peers, h, m, msg, src);
    forall k | 0 <= k < |msg.entries|
      ensures msg.entries[k].index == msg.prevLogIndex + 1 + k && Seen(m.log, n.log.snapshotIndex, msg.entries[k])
    {
      EntriesSeen(peers, h, n, m, src, msg, k);
    }
    ReplicateMirrors(n, m, msg.entries, msg.prevLogIndex, msg.leaderCommit);
  }

  ghost function Appended(n: Node, msg: Msg): (Node, seq<Send>)
    requires msg.AppendEntries?
  {
    OnAppend(n, msg.term, msg.leader, msg.prevLogIndex, msg.prevLogTerm, msg.entries, msg.leaderCommit)
  }

  lemma AppendAlike(peers: seq<nat>, h: Hist, n: Node, m: Node, src: nat, msg: Msg)
    requires Mirrors(n, m) && HistInv(peers, h) && NodeInv(peers, h, m)
    requires msg.AppendEntries? && msg.term <= m.term && AppendOk(peers, h, src, msg)
    ensures Alike(Appended(n, msg), Appended(m, msg))
  {
    if msg.term == m.term {
      var a, b := Heard(n, msg.leader), Heard(m, msg.leader);
      HeardMirrors(peers, h, n, m, msg.leader);
      PrevSame(peers, h, a, b, src, msg);
      if PrevMatches(b, msg.prevLogIndex, msg.prevLogTerm) { AcceptedAlike(peers, h, a, b, src, msg); }
    }
  }

  lemma HandlerAlike(peers: seq<nat>, h: Hist, n: Node, m: Node, p: Packet)
    requires Mirrors(n, m) && n.Wf() && HistInv(peers, h) && NodeInv(peers, h, m) && MsgInv(peers, h, p)
    requires p.dst == m.id && p.src != p.dst && m.term >= p.msg.term
    requires p.src < |n.votes| && Serves(StepHandler(n, p.src, p.msg).0)
    ensures Alike(StepHandler(n, p.src, p.msg), StepHandler(m, p.src, p.msg))
  {
    match p.msg {
      case RequestVote(term, c, i, t) => RequestVoteAlike(n, m, term, c, i, t);
      case RequestVoteResp(term, granted) => VoteRespAlike(n, m, p.src, term, granted);
      case AppendEntries(_, _, _, _, _, _) => AppendAlike(peers, h, n, m, p.src, p.msg);
      case AppendEntriesResp(term, success, i) => AppendRespAlike(n, m, p.src, term, success, i);
    }
  }

  lemma StepAlike(peers: seq<nat>, h: Hist, n: Node, m: Node, p: Packet)
    requires Mirrors(n, m) && n.Wf() && HistInv(peers, h) && NodeInv(peers, h, m) && MsgInv(peers, h, p)
    requires p.dst == m.id && p.src != p.dst && p.src < |n.votes| && Serves(Step(n, p.src, p.msg).0)
    ensures Alike(Step(n, p.src, p.msg), Step(m, p.src, p.msg))
  {
    var a, b := CatchUp(n, p.msg.term), CatchUp(m, p.msg.term);
    CatchUpMirrors(peers, h, n, m, p.msg.term);
    HandlerAlike(peers, h, a, b, p);
  }

  lemma CatchUpMirrors(peers: seq<nat>, h: Hist, n: Node, m: Node, t: nat)
    requires Mirrors(n, m) && n.Wf() && HistInv(peers, h) && NodeInv(peers, h, m)
    ensures Mirrors(CatchUp(n, t), CatchUp(m, t)) && CatchUp(n, t).Wf() && NodeInv(peers, h, CatchUp(m, t))
    ensures CatchUp(m, t).term >= t && |CatchUp(n, t).votes| == |n.votes| && CatchUp(m, t).id == m.id
  {
    CatchUpKeeps(peers, h, m, t);
  }

  // ---------- clients, the state machine and compaction ----------

  lemma ProposeMirrors(n: Node, m: Node, command: Command)
    requires Mirrors(n, m) && n.Wf() && m.Wf() && n.lastApplied <= n.commitIndex
    ensures Mirrors(Propose(n, command).0, Propose(m, command).0)
  {
    if n.role == Leader {
      OwnMirrors(n, m, command);
      AdvanceMirrors(AppendOwn(n, command), AppendOwn(m, command));
    }
  }

  lemma OwnMirrors(n: Node, m: Node, command: Command)
    requires Mirrors(n, m) && n.Wf()
    ensures Mirrors(AppendOwn(n, command), AppendOwn(m, command))
  {
    LogReads(n.log, m.log, 0);
    var e, snap := Entry(n.term, |m.log.entries| + 1, command), n.log.snapshotIndex;
    assert (m.log.entries + [e])[snap..] == m.log.entries[snap..] + [e];
  }

  lemma {:induction false} CommandsSame(l: Log, full: Log, from: nat, upTo: nat)
    requires LogMirrors(l, full) && l.snapshotIndex <= from
    ensures CommandsIn(l, from, upTo) == CommandsIn(full, from, upTo)
    decreases upTo - from
  {
    if from < upTo {
      LogReads(l, full, from + 1);
      CommandsSame(l, full, from + 1, upTo);
    }
  }

  lemma DrainMirrors(n: Node, m: Node)
    requires Mirrors(n, m)
    ensures Mirrors(TakeCommitted(n).0, TakeCommitted(m).0) && TakeCommitted(n).1 == TakeCommitted(m).1
  {
    CommandsSame(n.log, m.log, n.lastApplied, n.commitIndex);
  }

  lemma CompactMirrors(l: Log, full: Log, upTo: nat)
    requires LogMirrors(l, full)
    ensures LogMirrors(l.Compact(upTo), full)
    ensures l.Compact(upTo) == l || l.Compact(upTo).snapshotIndex == upTo
  {
    LogReads(l, full, upTo);
    var snap := l.snapshotIndex;
    if snap < upTo <= |full.entries| { assert full.entries[snap..][upTo - snap..] == full.entries[upTo..]; }
  }

  lemma FoldMirrors(n: Node, m: Node, keep: nat)
    requires Mirrors(n, m) && n.Wf()
    ensures Mirrors(MaybeCompact(n, keep), m)
  {
    CompactMirrors(n.log, m.log, SafeCompactIndex(n));
  }

  // ---------- nobody sends to itself ----------

  ghost predicate NoSelf(net: set<Packet>) {
    forall p :: p in net ==> p.src != p.dst
  }

  ghost predicate ToOthers(id: nat, sends: seq<Send>) {
    forall k :: 0 <= k < |sends| ==> sends[k].to != id
  }

  lemma {:induction false} AppendsToOthers(n: Node, k: nat)
    requires n.Wf() && k <= |n.peers|
    ensures ToOthers(n.id, AppendsFrom(n, k))
    decreases |n.peers| - k
  {
    if k < |n.peers| { AppendsToOthers(n, k + 1); }
  }

  lemma {:induction false} VotesToOthers(n: Node, k: nat)
    requires k <= |n.peers|
    ensures ToOthers(n.id, VoteRequests(n, k))
    decreases |n.peers| - k
  {
    if k < |n.peers| { VotesToOthers(n, k + 1); }
  }

  lemma MaybeLeadToOthers(n: Node)
    requires n.Wf()
    ensures ToOthers(n.id, MaybeLead(n).1)
  {
    if WinsElection(n) { AppendsToOthers(Lead(n), 0); }
  }

  lemma TickToOthers(n: Node, fires: bool)
    requires n.Wf()
    ensures ToOthers(n.id, Tick(n, fires).1)
  {
    if fires {
      if n.role == Leader {
        AppendsToOthers(n, 0);
      } else {
        VotesToOthers(Campaign(n), 0);
        MaybeLeadToOthers(Campaign(n));
      }
    }
  }

  lemma StepToOthers(peers: seq<nat>, h: Hist, n: Node, p: Packet)
    requires n.Wf() && p.src < |n.votes| && MsgInv(peers, h, p) && p.dst == n.id && p.src != p.dst
    ensures ToOthers(n.id, Step(n, p.src, p.msg).1)
  {
    var c := CatchUp(n, p.msg.term);
    if p.msg.RequestVoteResp? && c.role == Candidate && p.msg.term == c.term && p.msg.granted {
      MaybeLeadToOthers(CountVote(c, p.src));
    }
  }

  lemma PutNoSelf(s: Sys, i: nat, n: Node, sends: seq<Send>)
    requires NoSelf(s.net) && ToOthers(i, sends)
    ensures NoSelf(Put(s, i, n, sends).net)
  {
  }

  lemma ApplyNoSelf(peers: seq<nat>, s: Sys, h: Hist, a: Action)
    requires Inv(peers, s, h) && NoSelf(s.net)
    ensures NoSelf(Apply(s, a).net)
  {
    if Enabled(s, a) {
      match a {
        case Timer(i, fires) =>
          TickToOthers(s.nodes[i], fires);
          PutNoSelf(s, i, Tick(s.nodes[i], fires).0, Tick(s.nodes[i], fires).1);
        case Deliver(p) =>
          assert MsgInv(peers, h, p);
          StepToOthers(peers, h, s.nodes[p.dst], p);
          PutNoSelf(s, p.dst, Step(s.nodes[p.dst], p.src, p.msg).0, Step(s.nodes[p.dst], p.src, p.msg).1);
        case _ =>
      }
    }
  }

  lemma {:induction false} RunNoSelf(peers: seq<nat>, s: Sys, actions: seq<Action>)
    requires Initial(peers, s)
    ensures NoSelf(Run(s, actions).net)
    decreases |actions|
  {
    if actions != [] {
      var init, a := actions[..|actions| - 1], actions[|actions| - 1];
      RunNoSelf(peers, s, init);
      var h := RunInv(peers, s, init);
      ApplyNoSelf(peers, Run(s, init), h, a);
    }
  }

  // ---------- the group ----------

  /** The folded group `s` and the full group `f`: same network, same applications,
      and each folded node mirrored by its full one. */
  ghost predicate Refines(s: Sys, f: Sys) {
    && s.net == f.net
    && s.drained == f.drained
    && s.nodes.Keys == f.nodes.Keys
    && forall i :: i in s.nodes ==> Mirrors(s.nodes[i], f.nodes[i])
  }

  lemma PutRefines(s: Sys, f: Sys, i: nat, n: Node, m: Node, sends: seq<Send>)
    requires Refines(s, f) && Mirrors(n, m)
    ensures Refines(Put(s, i, n, sends), Put(f, i, m, sends))
  {
  }

  lemma SameEnabled(s: Sys, f: Sys, a: Action)
    requires Refines(s, f)
    ensures Enabled(s, a) <==> Enabled(f, a)
  {
    var i := if a.Deliver? then a.packet.dst else a.node;
    assert i in s.nodes <==> i in f.nodes;
    if i in s.nodes { assert Mirrors(s.nodes[i], f.nodes[i]); }
  }

  lemma TimerRefines(s: Sys, f: Sys, i: nat, fires: bool)
    requires Refines(s, f) && i in s.nodes && s.nodes[i].Wf() && f.nodes[i].Wf() && AllServe(s)
    ensures Refines(Apply(s, Timer(i, fires)), Apply(f, Timer(i, fires)))
  {
    var n, m := s.nodes[i], f.nodes[i];
    TickAlike(n, m, fires);
    PutRefines(s, f, i, Tick(n, fires).0, Tick(m, fires).0, Tick(n, fires).1);
  }

  lemma DeliverRefines(peers: seq<nat>, s: Sys, f: Sys, h: Hist, p: Packet)
    requires Refines(s, f) && Inv(peers, f, h) && NoSelf(f.net) && AllServe(Apply(s, Deliver(p)))
    requires Enabled(s, Deliver(p)) && Enabled(f, Deliver(p))
    ensures Refines(Apply(s, Deliver(p)), Apply(f, Deliver(p)))
  {
    var n, m := s.nodes[p.dst], f.nodes[p.dst];
    var r := Step(n, p.src, p.msg);
    assert Apply(s, Deliver(p)) == Put(s, p.dst, r.0, r.1);
    assert Apply(s, Deliver(p)).nodes[p.dst] == r.0;
    assert MsgInv(peers, h, p) && m.id == p.dst && NodeInv(peers, h, m) && Mirrors(n, m);
    StepAlike(peers, h, n, m, p);
    PutRefines(s, f, p.dst, r.0, Step(m, p.src, p.msg).0, r.1);
  }

  lemma CursorsOf(peers: seq<nat>, f: Sys, h: Hist, i: nat)
    requires Inv(peers, f, h) && i in f.nodes
    ensures f.nodes[i].lastApplied <= f.nodes[i].commitIndex
  {
    assert NodeInv(peers, h, f.nodes[i]);
  }

  lemma ProposeRefines(s: Sys, f: Sys, i: nat, command: Command)
    requires Refines(s, f) && i in s.nodes && s.nodes[i].Wf() && f.nodes[i].Wf()
    requires f.nodes[i].lastApplied <= f.nodes[i].commitIndex
    ensures Refines(Apply(s, ClientPropose(i, command)), Apply(f, ClientPropose(i, command)))
  {
    var n, m := s.nodes[i], f.nodes[i];
    assert Mirrors(n, m);
    ProposeMirrors(n, m, command);
    var a, b := Propose(n, command).0, Propose(m, command).0;
    assert Apply(s, ClientPropose(i, command)) == Put(s, i, a, []);
    assert Apply(f, ClientPropose(i, command)) == Put(f, i, b, []);
    PutRefines(s, f, i, a, b, []);
  }

  lemma DrainRefines(s: Sys, f: Sys, i: nat)
    requires Refines(s, f) && i in s.nodes && s.nodes[i].Wf() && f.nodes[i].Wf()
    ensures Refines(Apply(s, Drain(i)), Apply(f, Drain(i)))
  {
    var n, m := s.nodes[i], f.nodes[i];
    DrainMirrors(n, m);
    PutRefines(s, f, i, TakeCommitted(n).0, TakeCommitted(m).0, []);
  }

  lemma CrashRefines(s: Sys, f: Sys, i: nat)
    requires Refines(s, f) && Enabled(s, Crash(i)) && Enabled(f, Crash(i))
    ensures Refines(Apply(s, Crash(i)), Apply(f, Crash(i)))
  {
    var n, m := s.nodes[i], f.nodes[i];
    assert Mirrors(n, m);
    assert m.log.entries[0..] == m.log.entries;
    PutRefines(s, f, i, Restart(n), Restart(m), []);
  }

  lemma ApplyRefines(peers: seq<nat>, s: Sys, f: Sys, h: Hist, a: Action)
    requires Refines(s, f) && Inv(peers, f, h) && NoSelf(f.net) && AllServe(s) && AllServe(Apply(s, a))
    ensures Refines(Apply(s, a), Apply(f, a))
  {
    SameEnabled(s, f, a);
    if Enabled(s, a) {
      match a {
        case Timer(i, fires) => TimerRefines(s, f, i, fires);
        case Deliver(p) => DeliverRefines(peers, s, f, h, p);
        case ClientPropose(i, command) =>
          CursorsOf(peers, f, h, i);
          ProposeRefines(s, f, i, command);
        case Drain(i) => DrainRefines(s, f, i);
        case Crash(i) => CrashRefines(s, f, i);
      }
    }
  }

  lemma FoldRefines(s: Sys, f: Sys, i: nat, keep: nat)
    requires Refines(s, f)
    ensures Refines(Next(s, Fold(i, keep)), f)
  {
    if i in s.nodes && s.nodes[i].Wf() {
      FoldMirrors(s.nodes[i], f.nodes[i], keep);
      assert Put(f, i, f.nodes[i], []) == f;
      PutRefines(s, f, i, MaybeCompact(s.nodes[i], keep), f.nodes[i], []);
    }
  }

  // ---------- runs ----------

  /** Every leader serves at every moment of the run. */
  ghost predicate Serving(s: Sys, moves: seq<Move>) {
    forall k {:trigger ServesAt(s, moves, k)} :: 0 <= k <= |moves| ==> ServesAt(s, moves, k)
  }

  ghost predicate ServesAt(s: Sys, moves: seq<Move>, k: nat)
    requires k <= |moves|
  {
    AllServe(Go(s, moves[..k]))
  }

  lemma ServingFront(s: Sys, moves: seq<Move>)
    requires moves != [] && Serving(s, moves)
    ensures Serving(s, moves[..|moves| - 1])
    ensures AllServe(Go(s, moves[..|moves| - 1])) && AllServe(Go(s, moves))
  {
    var front := moves[..|moves| - 1];
    forall k: nat | k <= |front| ensures ServesAt(s, front, k) {
      assert ServesAt(s, moves, k) && front[..k] == moves[..k];
    }
    assert ServesAt(s, moves, |front|) && ServesAt(s, moves, |moves|) && moves[..|moves|] == moves;
  }

  lemma InitialRefines(peers: seq<nat>, s: Sys)
    requires Initial(peers, s)
    ensures Refines(s, s)
  {
    forall i | i in s.nodes ensures Mirrors(s.nodes[i], s.nodes[i]) {
      var durable :| s.nodes[i] == NewNode(i, peers, EmptyLog(durable));
    }
  }

  /** A folding run in which every leader serves is, but for the folded prefixes,
      the run of the same actions without folding. */
  lemma {:induction false} FoldingRefines(peers: seq<nat>, s: Sys, moves: seq<Move>)
    requires Initial(peers, s) && Serving(s, moves)
    ensures Refines(Go(s, moves), Run(s, Acts(moves)))
    decreases |moves|
  {
    if moves == [] {
      InitialRefines(peers, s);
    } else {
      var front, mv := moves[..|moves| - 1], moves[|moves| - 1];
      ServingFront(s, moves);
      FoldingRefines(peers, s, front);
      MoveRefines(peers, s, front, mv);
      assert moves == front + [mv];
    }
  }

  lemma MoveRefines(peers: seq<nat>, s: Sys, front: seq<Move>, mv: Move)
    requires Initial(peers, s) && Refines(Go(s, front), Run(s, Acts(front)))
    requires AllServe(Go(s, front)) && AllServe(Go(s, front + [mv]))
    ensures Refines(Go(s, front + [mv]), Run(s, Acts(front + [mv])))
  {
    GoOn(s, front, mv);
    assert (front + [mv])[..|front|] == front;
    match mv {
      case Act(a) =>
        var acts := Acts(front);
        assert (acts + [a])[..|acts|] == acts;
        var h := RunInv(peers, s, acts);
        RunNoSelf(peers, s, acts);
        ApplyRefines(peers, Go(s, front), Run(s, acts), h, a);
      case Fold(i, keep) => FoldRefines(Go(s, front), Run(s, Acts(front)), i, keep);
    }
  }

  /** State machine safety of groups that fold: while every leader serves, no two
      applications at one index, by any nodes at any times, carry different commands. */
  lemma FoldingSafety(peers: seq<nat>, s: Sys, moves: seq<Move>, a: Applied, b: Applied)
    requires Initial(peers, s) && Serving(s, moves)
    requires a in Go(s, moves).drained && b in Go(s, moves).drained && a.index == b.index
    ensures a.command == b.command
  {
    FoldingRefines(peers, s, moves);
    StateMachineSafety(peers, s, Acts(moves), a, b);
  }
}
