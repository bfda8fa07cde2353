/** The Raft node and its log as the objects they are: fields updated in place by
    each handler, with the loops over peers, entries and indices.  Every method is
    proved to do what the transition function of the same name says. */
module RaftMachine {
  import opened Basics
  import opened RaftLogs
  import opened RaftNodes

  class RaftLog {
    var entries: seq<Entry>
    var term: nat
    var vote: Option<nat>
    const durable: bool
    var snapshotIndex: nat
    var snapshotTerm: nat

    function View(): Log
      reads this
    {
      Log(entries, term, vote, durable, snapshotIndex, snapshotTerm)
    }

    constructor (durable: bool)
      ensures View() == EmptyLog(durable)
    {
      this.durable := durable;
      entries, term, vote, snapshotIndex, snapshotTerm := [], 0, None, 0, 0;
    }

    method Append(e: Entry)
      modifies this
      ensures View() == old(View()).Append(e)
    {
      entries := entries + [e];
    }

    method TruncateFrom(index: nat)
      modifies this
      ensures View() == old(View()).TruncateFrom(index)
    {
      var keep := if index <= snapshotIndex + 1 then 0 else index - (snapshotIndex + 1);
      if keep < |entries| {
        entries := entries[..keep];
      }
      assert keep == |entries| ==> entries[..keep] == entries;
    }

    method Compact(upTo: nat)
      modifies this
      ensures View() == old(View()).Compact(upTo)
    {
      if durable || upTo <= snapshotIndex || upTo > View().LastIndex() {
        return;
      }
      var upToTerm := View().TermAt(upTo);
      var drop := upTo - snapshotIndex;
      entries := if drop <= |entries| then entries[drop..] else [];
      snapshotIndex, snapshotTerm := upTo, upToTerm;
    }

    method PersistTermVote(t: nat, v: Option<nat>)
      modifies this
      ensures View() == old(View()).PersistTermVote(t, v)
    {
      term, vote := t, v;
    }
  }

  class RaftNode {
    const id: nat
    const peers: seq<nat>
    const log: RaftLog
    var role: Role
    var currentTerm: nat
    var votedFor: Option<nat>
    var commitIndex: nat
    var lastApplied: nat
    var leader: Option<nat>
    var votes: seq<bool>
    var nextIndex: seq<nat>
    var matchIndex: seq<nat>

    function View(): Node
      reads this, log
    {
      Node(id, peers, role, currentTerm, votedFor, log.View(), commitIndex, lastApplied, leader,
           votes, nextIndex, matchIndex)
    }

    ghost predicate Valid()
      reads this, log
    {
      View().Wf()
    }

    constructor (id: nat, peers: seq<nat>, log: RaftLog)
      requires Distinct(peers) && id in peers
      ensures Valid() && View() == NewNode(id, peers, log.View()) && this.log == log
    {
      var n := MaxId(peers) + 1;
      this.id, this.peers, this.log := id, peers, log;
      role, currentTerm, votedFor := Follower, log.term, log.vote;
      commitIndex, lastApplied, leader := 0, 0, None;
      votes, nextIndex, matchIndex := seq(n, i => false), seq(n, i => 1), seq(n, i => 0);
    }

    method BecomeFollower(t: nat)
      requires Valid()
      modifies this, log
      ensures Valid() && View() == RaftNodes.BecomeFollower(old(View()), t)
    {
      currentTerm, votedFor, role, leader := t, None, Follower, None;
      log.PersistTermVote(currentTerm, votedFor);
    }

    method SendAppend(peer: nat) returns (send: Send)
      requires Valid() && peer in peers
      ensures send == AppendTo(View(), peer)
    {
      var next := nextIndex[peer];
      send := Send(peer, AppendEntries(currentTerm, id, next - 1, log.View().TermAt(next - 1),
                                       log.View().EntriesFrom(next), commitIndex));
    }

    method BroadcastAppend() returns (out: seq<Send>)
      requires Valid()
      ensures out == Broadcast(View())
    {
      out := [];
      for k := 0 to |peers|
        invariant out + AppendsFrom(View(), k) == Broadcast(View())
      {
        assert peers[k] in peers;
        if peers[k] != id {
          var send := SendAppend(peers[k]);
          out := out + [send];
        }
      }
    }

    /** How many votes have come in. */
    method CountVotes() returns (count: nat)
      ensures count == |TrueSet(votes)|
    {
      count := 0;
      for k := 0 to |votes|
        invariant count == |TrueSet(votes[..k])|
      {
        CountOneMore(votes, k);
        if votes[k] {
          count := count + 1;
        }
      }
      assert votes[..|votes|] == votes;
    }

    /** Every peer is assumed to lack nothing and to have confirmed nothing. */
    method ResetProgress(last: nat)
      requires Valid()
      modifies this`nextIndex, this`matchIndex
      ensures nextIndex == seq(|old(nextIndex)|, i requires 0 <= i < |old(nextIndex)| =>
                                if i in peers then last + 1 else old(nextIndex)[i])
      ensures matchIndex == seq(|old(matchIndex)|, i requires 0 <= i < |old(matchIndex)| =>
                                 if i == id then last else if i in peers then 0 else old(matchIndex)[i])
    {
      for k := 0 to |peers|
        invariant |nextIndex| == |old(nextIndex)| && |matchIndex| == |old(matchIndex)|
        invariant forall i :: 0 <= i < |nextIndex| ==>
                    nextIndex[i] == if i in peers[..k] then last + 1 else old(nextIndex)[i]
        invariant forall i :: 0 <= i < |matchIndex| ==>
                    matchIndex[i] == if i in peers[..k] then 0 else old(matchIndex)[i]
      {
        assert peers[k] in peers;
        assert peers[..k + 1] == peers[..k] + [peers[k]];
        nextIndex, matchIndex := nextIndex[peers[k] := last + 1], matchIndex[peers[k] := 0];
      }
      assert peers[..|peers|] == peers;
      matchIndex := matchIndex[id := last];
    }

    method BecomeLeader()
      requires Valid()
      modifies this`role, this`leader, this`nextIndex, this`matchIndex
      ensures Valid() && View() == Lead(old(View()))
    {
      role, leader := Leader, Some(id);
      ResetProgress(log.View().LastIndex());
    }

    method MaybeBecomeLeader() returns (out: seq<Send>)
      requires Valid()
      modifies this`role, this`leader, this`nextIndex, this`matchIndex
      ensures Valid() && View() == MaybeLead(old(View())).0 && out == MaybeLead(old(View())).1
    {
      out := [];
      if role != Candidate {
        return;
      }
      var count := CountVotes();
      if count >= |peers| / 2 + 1 {
        BecomeLeader();
        out := BroadcastAppend();
      }
    }

    method RequestVotes() returns (out: seq<Send>)
      ensures out == VoteRequests(View(), 0)
    {
      out := [];
      for k := 0 to |peers|
        invariant out + VoteRequests(View(), k) == VoteRequests(View(), 0)
      {
        if peers[k] != id {
          out := out + [Send(peers[k], RequestVote(currentTerm, id, log.View().LastIndex(), log.View().LastTerm()))];
        }
      }
    }

    method StartElection() returns (out: seq<Send>)
      requires Valid()
      modifies this, log
      ensures Valid() && View() == RaftNodes.StartElection(old(View())).0
      ensures out == RaftNodes.StartElection(old(View())).1
    {
      currentTerm, role, votedFor, leader := currentTerm + 1, Candidate, Some(id), None;
      log.PersistTermVote(currentTerm, votedFor);
      votes := seq(|votes|, i => i == id);
      assert View() == Campaign(old(View()));
      out := RequestVotes();
      var more := MaybeBecomeLeader();
      out := out + more;
    }

    method Tick(fires: bool) returns (out: seq<Send>)
      requires Valid()
      modifies this, log
      ensures Valid() && View() == RaftNodes.Tick(old(View()), fires).0 && out == RaftNodes.Tick(old(View()), fires).1
    {
      out := [];
      if fires {
        if role == Leader {
          out := BroadcastAppend();
        } else {
          out := StartElection();
        }
      }
    }

    method OnRequestVote(term: nat, candidate: nat, lastLogIndex: nat, lastLogTerm: nat) returns (out: seq<Send>)
      requires Valid()
      modifies this, log
      ensures Valid()
      ensures View() == RaftNodes.OnRequestVote(old(View()), term, candidate, lastLogIndex, lastLogTerm).0
      ensures out == RaftNodes.OnRequestVote(old(View()), term, candidate, lastLogIndex, lastLogTerm).1
    {
      var granted := false;
      if term >= currentTerm {
        var canVote := votedFor == None || votedFor == Some(candidate);
        var upToDate := lastLogTerm > log.View().LastTerm()
                        || (lastLogTerm == log.View().LastTerm() && lastLogIndex >= log.View().LastIndex());
        if canVote && upToDate {
          granted := true;
          votedFor := Some(candidate);
          log.PersistTermVote(currentTerm, votedFor);
        }
      }
      out := [Send(candidate, RequestVoteResp(currentTerm, granted))];
    }

    method OnVoteResp(from: nat, term: nat, granted: bool) returns (out: seq<Send>)
      requires Valid() && from < |votes|
      modifies this
      ensures Valid() && View() == RaftNodes.OnVoteResp(old(View()), from, term, granted).0
      ensures out == RaftNodes.OnVoteResp(old(View()), from, term, granted).1
    {
      out := [];
      if role != Candidate || term != currentTerm {
        return;
      }
      if granted {
        votes := votes[from := true];
        assert View() == CountVote(old(View()), from);
        out := MaybeBecomeLeader();
      }
    }

    method OnAppend(term: nat, from: nat, prevLogIndex: nat, prevLogTerm: nat, entries: seq<Entry>, leaderCommit: nat)
      returns (out: seq<Send>)
      requires Valid()
      modifies this, log
      ensures Valid()
      ensures View() == RaftNodes.OnAppend(old(View()), term, from, prevLogIndex, prevLogTerm, entries, leaderCommit).0
      ensures out == RaftNodes.OnAppend(old(View()), term, from, prevLogIndex, prevLogTerm, entries, leaderCommit).1
    {
      var success, ack := false, 0;
      if term >= currentTerm {
        role, leader := Follower, Some(from);
        if PrevMatches(View(), prevLogIndex, prevLogTerm) {
          success := true;
          ack := AcceptEntries(prevLogIndex, entries);
          if leaderCommit > commitIndex {
            commitIndex := Min(leaderCommit, log.View().LastIndex());
          }
        }
      }
      out := [Send(from, AppendEntriesResp(currentTerm, success, ack))];
    }

    /** Append or overwrite, truncating on the first conflict. */
    method AcceptEntries(prevLogIndex: nat, entries: seq<Entry>) returns (ack: nat)
      modifies log
      ensures log.View() == old(log.View()).AcceptAll(entries)
      ensures ack == Acknowledged(prevLogIndex, entries)
    {
      var idx := prevLogIndex;
      for k := 0 to |entries|
        invariant log.View() == old(log.View()).AcceptAll(entries[..k])
        invariant idx == if k == 0 then prevLogIndex else entries[k - 1].index
      {
        var e := entries[k];
        AcceptAllStep(old(log.View()), entries, k);
        idx := e.index;
        if e.index > log.snapshotIndex {
          if !(log.View().TermAt(e.index) == e.term && log.View().LastIndex() >= e.index) {
            log.TruncateFrom(e.index);
            log.Append(e);
          }
        }
      }
      assert entries[..|entries|] == entries;
      ack := Max(idx, prevLogIndex);
    }

    method OnAppendResp(from: nat, term: nat, success: bool, acked: nat) returns (out: seq<Send>)
      requires Valid() && from in peers
      modifies this
      ensures Valid() && View() == RaftNodes.OnAppendResp(old(View()), from, term, success, acked).0
      ensures out == RaftNodes.OnAppendResp(old(View()), from, term, success, acked).1
    {
      out := [];
      if role != Leader || term != currentTerm {
        return;
      }
      if success {
        matchIndex := matchIndex[from := Max(matchIndex[from], acked)];
        nextIndex := nextIndex[from := matchIndex[from] + 1];
        assert View() == Confirm(old(View()), from, acked);
        AdvanceCommit();
      } else {
        nextIndex := nextIndex[from := Max(nextIndex[from] - 1, 1)];
        assert View() == BackOff(old(View()), from);
        var send := SendAppend(from);
        out := [send];
      }
    }

    method CountReplicas(idx: nat) returns (count: nat)
      requires Valid()
      ensures count == |Replicas(View(), idx)|
    {
      count := 0;
      for k := 0 to |peers|
        invariant forall p :: p in peers[..k] ==> p in peers
        invariant count == |HoldersAmong(View(), peers[..k], idx)|
      {
        assert peers[k] in peers && peers[k] !in peers[..k];
        assert peers[..k + 1] == peers[..k] + [peers[k]];
        OneMoreHolder(View(), peers[..k], peers[k], idx);
        if matchIndex[peers[k]] >= idx {
          count := count + 1;
        }
      }
      assert peers[..|peers|] == peers;
      assert HoldersAmong(View(), peers, idx) == Replicas(View(), idx);
    }

    method AdvanceCommit()
      requires Valid()
      modifies this`commitIndex
      ensures Valid() && View() == RaftNodes.AdvanceCommit(old(View()))
    {
      var idx: nat := log.View().LastIndex();
      while idx > commitIndex
        invariant View() == old(View())
        invariant HighestCommittable(View(), log.View().LastIndex()) == HighestCommittable(View(), idx)
      {
        if log.View().TermAt(idx) == currentTerm {
          var replicas := CountReplicas(idx);
          if replicas >= |peers| / 2 + 1 {
            commitIndex := idx;
            return;
          }
        }
        idx := idx - 1;
      }
    }

    method Propose(command: Command) returns (index: Option<nat>)
      requires Valid()
      modifies this, log
      ensures Valid() && View() == RaftNodes.Propose(old(View()), command).0
      ensures index == RaftNodes.Propose(old(View()), command).1
    {
      if role != Leader {
        return None;
      }
      var next := log.View().LastIndex() + 1;
      log.Append(Entry(currentTerm, next, command));
      matchIndex := matchIndex[id := next];
      assert View() == AppendOwn(old(View()), command);
      AdvanceCommit();
      index := Some(next);
    }

    method Step(from: nat, msg: Msg) returns (out: seq<Send>)
      requires Valid() && from in peers
      modifies this, log
      ensures Valid() && View() == RaftNodes.Step(old(View()), from, msg).0
      ensures out == RaftNodes.Step(old(View()), from, msg).1
    {
      if msg.term > currentTerm {
        BecomeFollower(msg.term);
      }
      assert View() == CatchUp(old(View()), msg.term);
      match msg {
        case RequestVote(term, candidate, lli, llt) => out := OnRequestVote(term, candidate, lli, llt);
        case RequestVoteResp(term, granted) => out := OnVoteResp(from, term, granted);
        case AppendEntries(term, l, pli, plt, entries, lc) => out := OnAppend(term, l, pli, plt, entries, lc);
        case AppendEntriesResp(term, success, m) => out := OnAppendResp(from, term, success, m);
      }
    }

    method TakeCommitted() returns (out: seq<(nat, Command)>)
      requires Valid()
      modifies this`lastApplied
      ensures Valid() && View() == RaftNodes.TakeCommitted(old(View())).0
      ensures out == RaftNodes.TakeCommitted(old(View())).1
    {
      out := [];
      ghost var all := CommandsIn(log.View(), lastApplied, commitIndex);
      while lastApplied < commitIndex
        invariant old(lastApplied) <= lastApplied <= Max(old(lastApplied), commitIndex)
        invariant out + CommandsIn(log.View(), lastApplied, commitIndex) == all
        decreases commitIndex - lastApplied
      {
        ghost var rest := CommandsIn(log.View(), lastApplied + 1, commitIndex);
        var first := CommandIn(log.View(), lastApplied + 1);
        assert out + (first + rest) == (out + first) + rest;
        lastApplied := lastApplied + 1;
        match log.View().CommandAt(lastApplied) {
          case Some(c) => out := out + [(lastApplied, c)];
          case None =>
        }
      }
    }

    method MaybeCompact(keep: nat)
      requires Valid()
      modifies log
      ensures Valid() && View() == RaftNodes.MaybeCompact(old(View()), keep)
    {
      if |log.entries| <= keep {
        return;
      }
      log.Compact(SafeCompactIndex(View()));
    }
  }

  lemma CountOneMore(v: seq<bool>, k: nat)
    requires k < |v|
    ensures |TrueSet(v[..k + 1])| == |TrueSet(v[..k])| + (if v[k] then 1 else 0)
  {
    if v[k] {
      assert TrueSet(v[..k + 1]) == TrueSet(v[..k]) + {k};
    } else {
      assert TrueSet(v[..k + 1]) == TrueSet(v[..k]);
    }
  }

  function HoldersAmong(n: Node, ps: seq<nat>, idx: nat): set<nat>
    requires forall p :: p in ps ==> p < |n.matchIndex|
  {
    set p | p in ps && n.matchIndex[p] >= idx
  }

  lemma OneMoreHolder(n: Node, ps: seq<nat>, p: nat, idx: nat)
    requires p !in ps && p < |n.matchIndex| && forall q :: q in ps ==> q < |n.matchIndex|
    requires forall q :: q in ps + [p] ==> q < |n.matchIndex|
    ensures |HoldersAmong(n, ps + [p], idx)| ==
            |HoldersAmong(n, ps, idx)| + (if n.matchIndex[p] >= idx then 1 else 0)
  {
    if n.matchIndex[p] >= idx {
      assert HoldersAmong(n, ps + [p], idx) == HoldersAmong(n, ps, idx) + {p};
    } else {
      assert HoldersAmong(n, ps + [p], idx) == HoldersAmong(n, ps, idx);
    }
  }
}
