/** Every transition of a node keeps the invariant. */
module RaftSteps {
  import opened Basics
  import opened RaftLogs
  import opened RaftNodes
  import opened RaftSystem
  import opened RaftHistory
  import opened RaftSafety

  // ---------- how parts of the history survive its growth ----------

  /** Acknowledgements change only for node `i` in term `t`, and `i` has not
      voted in a later term. */
  ghost predicate AcksOnlyAt(h: Hist, h2: Hist, i: nat, t: nat) {
    && (forall v, x :: (v, x) in h2.acked && (v, x) != (i, t) ==>
          (v, x) in h.acked && h.acked[(v, x)] == h2.acked[(v, x)])
    && (forall u :: (i, u) in h.ballots ==> u <= t)
  }

  lemma BallotGrows(h: Hist, h2: Hist, i: nat, t: nat, v: nat, u: nat)
    requires Grows(h, h2, i) && AcksOnlyAt(h, h2, i, t) && (v, u) in h.ballots && BallotOk(h, v, u)
    ensures BallotOk(h2, v, u)
  {
    LogOkGrows(h, h2, i, h.ballots[(v, u)].log);
    KeepsAcksGrows(h, h2, i, v, h.ballots[(v, u)].log, u, u + 1);
  }

  lemma VoterGrows(h: Hist, h2: Hist, i: nat, t: nat, u: nat, v: nat)
    requires Grows(h, h2, i) && AcksOnlyAt(h, h2, i, t) && u in h.elections && VoterOk(h, u, v)
    ensures VoterOk(h2, u, v)
  {
    KeepsAcksGrows(h, h2, i, v, h.ballots[(v, u)].log, u, u);
  }

  lemma ElectionGrows(peers: seq<nat>, h: Hist, h2: Hist, i: nat, t: nat, u: nat)
    requires Grows(h, h2, i) && AcksOnlyAt(h, h2, i, t) && u in h.elections && ElectionOk(peers, h, u)
    ensures ElectionOk(peers, h2, u)
  {
    forall v | v in h2.elections[u].voters ensures VoterOk(h2, u, v) {
      assert VoterOk(h, u, v);
      VoterGrows(h, h2, i, t, u, v);
    }
  }

  lemma EntryGrows(h: Hist, h2: Hist, i: nat, u: nat, k: nat)
    requires Grows(h, h2, i) && u in h.elections && k < |h.elections[u].log| && EntryOk(h, u, k)
    ensures EntryOk(h2, u, k)
  {
    assert h.elections[u].log[..k + 1] == h2.elections[u].log[..k + 1];
  }

  /** The part of the history that is new in `h2`. */
  ghost predicate NewOk(peers: seq<nat>, h: Hist, h2: Hist) {
    && (forall c, u {:trigger CandidacyOk(h2, c, u)} ::
          (c, u) in h2.candidacies && (c, u) !in h.candidacies ==> CandidacyOk(h2, c, u))
    && (forall v, u {:trigger BallotOk(h2, v, u)} ::
          (v, u) in h2.ballots && (v, u) !in h.ballots ==> BallotOk(h2, v, u))
    && (forall u {:trigger ElectionOk(peers, h2, u)} ::
          u in h2.elections && u !in h.elections ==> ElectionOk(peers, h2, u))
    && (forall u, k {:trigger EntryOk(h2, u, k)} ::
          u in h2.elections && 0 <= k < |h2.elections[u].log| && (u in h.elections ==> k >= |h.elections[u].log|)
          ==> EntryOk(h2, u, k))
  }

  lemma HistGrows(peers: seq<nat>, h: Hist, h2: Hist, i: nat, t: nat)
    requires HistInv(peers, h) && Grows(h, h2, i) && AcksOnlyAt(h, h2, i, t)
    requires NewOk(peers, h, h2)
    requires (i, t) in h2.acked ==> AckOk(h2, i, t)
    ensures HistInv(peers, h2)
  {
    forall c, u | (c, u) in h2.candidacies ensures CandidacyOk(h2, c, u) {
      if (c, u) in h.candidacies {
        assert CandidacyOk(h, c, u);
        LogOkGrows(h, h2, i, h.candidacies[(c, u)]);
      }
    }
    forall v, u | (v, u) in h2.ballots ensures BallotOk(h2, v, u) {
      if (v, u) in h.ballots {
        assert BallotOk(h, v, u);
        BallotGrows(h, h2, i, t, v, u);
      }
    }
    forall u | u in h2.elections ensures ElectionOk(peers, h2, u) {
      if u in h.elections {
        assert ElectionOk(peers, h, u);
        ElectionGrows(peers, h, h2, i, t, u);
      }
    }
    forall u, k | u in h2.elections && 0 <= k < |h2.elections[u].log| ensures EntryOk(h2, u, k) {
      if u in h.elections && k < |h.elections[u].log| {
        assert EntryOk(h, u, k);
        EntryGrows(h, h2, i, u, k);
      }
    }
    forall v, x | (v, x) in h2.acked ensures AckOk(h2, v, x) {
      if (v, x) != (i, t) { assert AckOk(h, v, x); }
    }
  }

  /** Later bounds only make keeping easier. */
  lemma KeepsAcksWidens(h: Hist, v: nat, log: seq<Entry>, upTo: nat, bound: nat, upTo2: nat, bound2: nat)
    requires KeepsAcks(h, v, log, upTo, bound) && bound <= bound2
    requires forall t :: (v, t) in h.acked && t < upTo2 ==> t < upTo
    ensures KeepsAcks(h, v, log, upTo2, bound2)
  {
    forall t, k | (v, t) in h.acked && t < upTo2 && 0 <= k <= h.acked[(v, t)]
      ensures Kept(h, t, k, log, bound2)
    {
      assert Kept(h, t, k, log, bound);
      if !(h.elections[t].log[..k] <= log) {
        var w :| Lost(h, t, k, bound, w);
        assert Lost(h, t, k, bound2, w);
      }
    }
  }

  lemma StableLater(peers: seq<nat>, h: Hist, log: seq<Entry>, c: nat, u: nat, u2: nat)
    requires Stable(peers, h, log, c, u) && u <= u2
    ensures Stable(peers, h, log, c, u2)
  {
    if c != 0 {
      var t: nat, k: nat :| Backs(peers, h, log, c, u, t, k);
      assert Backs(peers, h, log, c, u2, t, k);
    }
  }

  /** The last index of a proper, uncompacted log is its length. */
  lemma LastFacts(peers: seq<nat>, h: Hist, n: Node)
    requires LeaderLogs(h) && Shape(peers, n) && NodeLog(h, n)
    ensures n.log.LastIndex() == |n.log.entries| && n.log.LastTerm() == TermOf(n.log.entries)
  {
    if n.log.entries != [] { EntryFacts(h, n.log.entries, |n.log.entries| - 1); }
  }

  // ---------- terms and votes ----------

  lemma CatchUpKeeps(peers: seq<nat>, h: Hist, n: Node, t: nat)
    requires NodeInv(peers, h, n)
    ensures NodeInv(peers, h, CatchUp(n, t))
  {
    if t > n.term {
      KeepsAcksWidens(h, n.id, n.log.entries, n.term + 1, n.term + 1, t + 1, t + 1);
      StableLater(peers, h, n.log.entries, n.commitIndex, n.term, t);
    }
  }

  lemma RestartKeeps(peers: seq<nat>, h: Hist, n: Node)
    requires NodeInv(peers, h, n)
    ensures NodeInv(peers, h, Restart(n))
  {
  }

  ghost function CampaignHist(h: Hist, n: Node): Hist {
    var key := (n.id, n.term + 1);
    h.(candidacies := h.candidacies[key := n.log.entries],
       ballots := h.ballots[key := Ballot(n.id, n.log.entries)])
  }

  lemma CampaignBallot(peers: seq<nat>, h: Hist, n: Node)
    requires NodeLog(h, n) && NodeAcks(h, n) && NodeVote(h, n)
    ensures Grows(h, CampaignHist(h, n), n.id)
    ensures CandidacyOk(CampaignHist(h, n), n.id, n.term + 1) && BallotOk(CampaignHist(h, n), n.id, n.term + 1)
  {
    var h2, log, u := CampaignHist(h, n), n.log.entries, n.term + 1;
    LogOkGrows(h, h2, n.id, log);
    KeepsAcksGrows(h, h2, n.id, n.id, log, u, u);
    KeepsAcksWidens(h2, n.id, log, u, u, u, u + 1);
  }

  lemma CampaignGrows(peers: seq<nat>, h: Hist, n: Node)
    requires HistInv(peers, h) && NodeLog(h, n) && NodeAcks(h, n) && NodeVote(h, n)
    ensures Grows(h, CampaignHist(h, n), n.id) && HistInv(peers, CampaignHist(h, n))
  {
    CampaignBallot(peers, h, n);
    HistGrows(peers, h, CampaignHist(h, n), n.id, n.term + 1);
  }

  lemma CampaignVote(peers: seq<nat>, h: Hist, n: Node)
    requires Elections(peers, h) && Shape(peers, n) && NodeVote(h, n)
    ensures NodeVote(CampaignHist(h, n), Campaign(n)) && NodeCandidate(CampaignHist(h, n), Campaign(n))
  {
    var u := n.term + 1;
    assert u in h.elections ==> ElectionOk(peers, h, u);
  }

  lemma CampaignAcks(peers: seq<nat>, h: Hist, n: Node)
    requires Shape(peers, n) && NodeAcks(h, n) && Grows(h, CampaignHist(h, n), n.id)
    ensures NodeAcks(CampaignHist(h, n), Campaign(n))
  {
    var h2, log, u := CampaignHist(h, n), n.log.entries, n.term + 1;
    KeepsAcksGrows(h, h2, n.id, n.id, log, u, u);
    KeepsAcksWidens(h2, n.id, log, u, u, u + 1, u + 1);
  }

  lemma CampaignCommit(peers: seq<nat>, h: Hist, n: Node)
    requires Shape(peers, n) && NodeLog(h, n) && NodeCommit(peers, h, n) && Grows(h, CampaignHist(h, n), n.id)
    ensures NodeLog(CampaignHist(h, n), Campaign(n)) && NodeCommit(peers, CampaignHist(h, n), Campaign(n))
  {
    var h2, log := CampaignHist(h, n), n.log.entries;
    LogOkGrows(h, h2, n.id, log);
    StableGrows(peers, h, h2, n.id, log, n.commitIndex, n.term);
    StableLater(peers, h2, log, n.commitIndex, n.term, n.term + 1);
  }

  lemma CampaignKeeps(peers: seq<nat>, h: Hist, n: Node)
    requires Elections(peers, h) && NodeInv(peers, h, n) && Grows(h, CampaignHist(h, n), n.id)
    ensures NodeInv(peers, CampaignHist(h, n), Campaign(n))
  {
    CampaignVote(peers, h, n);
    CampaignAcks(peers, h, n);
    CampaignCommit(peers, h, n);
  }

  /** The history in which `n` votes for `c` for the first time in its term. */
  ghost function VoteHist(h: Hist, n: Node, c: nat): Hist {
    h.(ballots := h.ballots[(n.id, n.term) := Ballot(c, n.log.entries)])
  }

  lemma VoteBallot(peers: seq<nat>, h: Hist, n: Node, c: nat)
    requires NodeLog(h, n) && NodeAcks(h, n) && NodeVote(h, n) && n.votedFor == None
    requires (c, n.term) in h.candidacies && UpToDate(h.candidacies[(c, n.term)], n.log.entries)
    ensures Grows(h, VoteHist(h, n, c), n.id) && BallotOk(VoteHist(h, n, c), n.id, n.term)
  {
    var h2, log, u := VoteHist(h, n, c), n.log.entries, n.term;
    LogOkGrows(h, h2, n.id, log);
    KeepsAcksGrows(h, h2, n.id, n.id, log, u + 1, u + 1);
    KeepsAcksWidens(h2, n.id, log, u + 1, u + 1, u, u + 1);
  }

  lemma VoteGrows(peers: seq<nat>, h: Hist, n: Node, c: nat)
    requires HistInv(peers, h) && NodeLog(h, n) && NodeAcks(h, n) && NodeVote(h, n) && n.votedFor == None
    requires (c, n.term) in h.candidacies && UpToDate(h.candidacies[(c, n.term)], n.log.entries)
    ensures Grows(h, VoteHist(h, n, c), n.id) && HistInv(peers, VoteHist(h, n, c))
  {
    VoteBallot(peers, h, n, c);
    assert (n.id, n.term) in h.acked ==> AckOk(h, n.id, n.term);
    HistGrows(peers, h, VoteHist(h, n, c), n.id, n.term);
  }

  lemma VoteKeeps(peers: seq<nat>, h: Hist, n: Node, c: nat)
    requires NodeInv(peers, h, n) && n.votedFor == None && Grows(h, VoteHist(h, n, c), n.id)
    ensures NodeInv(peers, VoteHist(h, n, c), Grant(n, c))
  {
    var h2, log, u := VoteHist(h, n, c), n.log.entries, n.term;
    LogOkGrows(h, h2, n.id, log);
    KeepsAcksGrows(h, h2, n.id, n.id, log, u + 1, u + 1);
    StableGrows(peers, h, h2, n.id, log, n.commitIndex, u);
  }

  /** A repeated vote for the same candidate changes nothing. */
  lemma RepeatedVote(peers: seq<nat>, n: Node, c: nat)
    requires Shape(peers, n) && n.votedFor == Some(c)
    ensures Grant(n, c) == n
  {
  }

  lemma CountVoteKeeps(peers: seq<nat>, h: Hist, n: Node, from: nat)
    requires NodeInv(peers, h, n) && n.role == Candidate && from in peers && from < |n.votes|
    requires (from, n.term) in h.ballots && h.ballots[(from, n.term)].candidate == n.id
    ensures NodeInv(peers, h, CountVote(n, from))
  {
  }

  // ---------- becoming leader ----------

  /** Whoever else collected a majority of votes in an elected term is its leader. */
  lemma SharedVoter(peers: seq<nat>, h: Hist, u: nat, i: nat, votes: set<nat>)
    requires Distinct(peers) && u in h.elections && ElectionOk(peers, h, u)
    requires votes <= Members(peers) && |votes| >= |peers| / 2 + 1
    requires forall v :: v in votes ==> (v, u) in h.ballots && h.ballots[(v, u)].candidate == i
    ensures h.elections[u].leader == i
  {
    var v := Quorums(peers, votes, h.elections[u].voters);
    assert VoterOk(h, u, v);
  }

  /** The term a candidate wins has no leader yet. */
  lemma TermIsFree(peers: seq<nat>, h: Hist, n: Node)
    requires HistInv(peers, h) && Shape(peers, n) && NodeCandidate(h, n) && WinsElection(n)
    ensures n.term !in h.elections
  {
    if n.term in h.elections { SharedVoter(peers, h, n.term, n.id, TrueSet(n.votes)); }
  }

  ghost function LeadHist(h: Hist, n: Node): Hist {
    var log := n.log.entries;
    h.(elections := h.elections[n.term := Election(n.id, TrueSet(n.votes), log, log)],
       acked := h.acked[(n.id, n.term) := |log|])
  }

  lemma LeadGrowsOnly(h: Hist, n: Node)
    requires Acks(h) && n.term !in h.elections
    ensures Grows(h, LeadHist(h, n), n.id)
  {
    assert (n.id, n.term) in h.acked ==> AckOk(h, n.id, n.term);
  }

  /** A counted voter's ballot predates the election, so nothing it had
      acknowledged was lost to this leader. */
  lemma CountedBallot(h: Hist, v: nat, u: nat)
    requires u !in h.elections && (v, u) in h.ballots && BallotOk(h, v, u)
    ensures KeepsAcks(h, v, h.ballots[(v, u)].log, u, u)
  {
    var log, bound := h.ballots[(v, u)].log, u + 1;
    forall t, k | (v, t) in h.acked && t < u && 0 <= k <= h.acked[(v, t)]
      ensures Kept(h, t, k, log, u)
    {
      assert Kept(h, t, k, log, bound);
      if !(h.elections[t].log[..k] <= log) {
        var w :| Lost(h, t, k, bound, w);
        assert Lost(h, t, k, u, w);
      }
    }
  }

  lemma CountedVoter(peers: seq<nat>, h: Hist, n: Node, v: nat)
    requires Ballots(h) && NodeCandidate(h, n) && n.role == Candidate
    requires n.term !in h.elections && Grows(h, LeadHist(h, n), n.id)
    requires v < |n.votes| && n.votes[v]
    ensures VoterOk(LeadHist(h, n), n.term, v)
  {
    assert BallotOk(h, v, n.term);
    CountedBallot(h, v, n.term);
    KeepsAcksGrows(h, LeadHist(h, n), n.id, v, h.ballots[(v, n.term)].log, n.term, n.term);
  }

  lemma LeadElection(peers: seq<nat>, h: Hist, n: Node)
    requires Ballots(h) && Shape(peers, n) && NodeCandidate(h, n) && WinsElection(n)
    requires n.term !in h.elections && Grows(h, LeadHist(h, n), n.id)
    ensures ElectionOk(peers, LeadHist(h, n), n.term)
  {
    var h2 := LeadHist(h, n);
    forall v | v in h2.elections[n.term].voters ensures VoterOk(h2, n.term, v) { CountedVoter(peers, h, n, v); }
  }

  lemma LeadEntries(peers: seq<nat>, h: Hist, n: Node)
    requires LeaderLogs(h) && Candidacies(h) && NodeLog(h, n) && NodeCandidate(h, n) && n.role == Candidate
    requires n.term !in h.elections
    ensures forall k {:trigger EntryOk(LeadHist(h, n), n.term, k)} ::
              0 <= k < |n.log.entries| ==> EntryOk(LeadHist(h, n), n.term, k)
  {
    assert CandidacyOk(h, n.id, n.term);
    forall k: nat | k < |n.log.entries| ensures EntryOk(LeadHist(h, n), n.term, k) {
      EntryFacts(h, n.log.entries, k);
    }
  }

  lemma LeadGrows(peers: seq<nat>, h: Hist, n: Node)
    requires HistInv(peers, h) && Shape(peers, n) && NodeLog(h, n) && NodeVote(h, n) && NodeCandidate(h, n)
    requires WinsElection(n) && n.term !in h.elections
    ensures Grows(h, LeadHist(h, n), n.id) && HistInv(peers, LeadHist(h, n))
  {
    LeadGrowsOnly(h, n);
    LeadElection(peers, h, n);
    LeadEntries(peers, h, n);
    HistGrows(peers, h, LeadHist(h, n), n.id, n.term);
  }

  lemma LeadLeader(peers: seq<nat>, h: Hist, n: Node)
    requires Shape(peers, n) && n.term !in h.elections && n.log.LastIndex() == |n.log.entries|
    ensures NodeLeader(LeadHist(h, n), Lead(n)) && Shape(peers, Lead(n)) && NodeCandidate(LeadHist(h, n), Lead(n))
  {
  }

  lemma LeadRest(peers: seq<nat>, h: Hist, n: Node)
    requires NodeLog(h, n) && NodeVote(h, n) && NodeCommit(peers, h, n) && Grows(h, LeadHist(h, n), n.id)
    ensures var h2 := LeadHist(h, n); NodeLog(h2, Lead(n)) && NodeVote(h2, Lead(n)) && NodeCommit(peers, h2, Lead(n))
  {
    LogOkGrows(h, LeadHist(h, n), n.id, n.log.entries);
    StableGrows(peers, h, LeadHist(h, n), n.id, n.log.entries, n.commitIndex, n.term);
  }

  lemma LeadKeeps(peers: seq<nat>, h: Hist, n: Node)
    requires LeaderLogs(h) && NodeInv(peers, h, n) && n.term !in h.elections && Grows(h, LeadHist(h, n), n.id)
    ensures NodeInv(peers, LeadHist(h, n), Lead(n))
  {
    LastFacts(peers, h, n);
    LeadLeader(peers, h, n);
    LeadRest(peers, h, n);
    LeadAcks(h, n);
  }

  lemma LeadAcks(h: Hist, n: Node)
    requires NodeAcks(h, n) && n.term !in h.elections
    requires Grows(h, LeadHist(h, n), n.id)
    ensures NodeAcks(LeadHist(h, n), Lead(n))
  {
    var h2, u, log, bound := LeadHist(h, n), n.term, n.log.entries, n.term + 1;
    forall t, k | (n.id, t) in h2.acked && t < bound && 0 <= k <= h2.acked[(n.id, t)]
      ensures Kept(h2, t, k, log, bound)
    {
      if t != u {
        assert Kept(h, t, k, log, bound);
        KeptGrows(h, h2, n.id, t, k, log, bound);
      }
    }
  }

  // ---------- taking over the leader's entries ----------

  /** Receiving entries `from..end` of the leader's log `t` on top of a log that
      agrees with it below `from`: entries of equal terms are kept, and the first
      one that differs cuts the rest off. */
  lemma {:induction false} Overlay(h: Hist, l: Log, t: seq<Entry>, from: nat, end: nat)
    requires LeaderLogs(h) && LogOk(h, l.entries) && LogOk(h, t)
    requires l.snapshotIndex == 0 && from <= end <= |t| && from <= |l.entries|
    requires l.entries[..from] == t[..from]
    ensures l.AcceptAll(t[from..end]) == l.(entries := Overwrite(l.entries, t[..end]))
    decreases end - from
  {
    if from == end {
      assert t[..end] <= l.entries;
    } else {
      var l2 := l.Accept(t[from]);
      AcceptAllHead(l, t, from, end);
      OverlayOne(h, l, t, from);
      Overlay(h, l2, t, from + 1, end);
      if l2 != l { OverlayEqual(l.entries, t, from, end); }
    }
  }

  /** `log` if it already starts with `t`, else `t`. */
  function Overwrite(log: seq<Entry>, t: seq<Entry>): seq<Entry> {
    if t <= log then log else t
  }

  lemma AcceptAllHead(l: Log, t: seq<Entry>, from: nat, end: nat)
    requires from < end <= |t|
    ensures l.AcceptAll(t[from..end]) == l.Accept(t[from]).AcceptAll(t[from + 1..end])
  {
    assert t[from..end][0] == t[from] && t[from..end][1..] == t[from + 1..end];
  }

  /** After a cut the rest of the leader's slice is all there is. */
  lemma OverlayEqual(log: seq<Entry>, t: seq<Entry>, from: nat, end: nat)
    requires from < end <= |t| && !(t[..from + 1] <= log)
    ensures Overwrite(log, t[..end]) == t[..end] == Overwrite(t[..from + 1], t[..end])
  {
    assert t[..from + 1] <= t[..end];
  }

  /** One received entry: the log stays if it has the entry, else it is cut. */
  lemma OverlayOne(h: Hist, l: Log, t: seq<Entry>, from: nat)
    requires LeaderLogs(h) && LogOk(h, l.entries) && LogOk(h, t)
    requires l.snapshotIndex == 0 && from < |t| && from <= |l.entries|
    requires l.entries[..from] == t[..from]
    ensures var l2 := l.Accept(t[from]);
            && LogOk(h, l2.entries) && from + 1 <= |l2.entries| && l2.entries[..from + 1] == t[..from + 1]
            && l2 == (if t[..from + 1] <= l.entries then l else l.(entries := t[..from + 1]))
  {
    if from < |l.entries| && l.entries[from].term == t[from].term {
      LogMatching(h, l.entries, t, from);
      EntryFacts(h, t, from);
      EntryFacts(h, l.entries, |l.entries| - 1);
    } else {
      OverlayCut(h, l, t, from);
      PrefixOk(h, t, from + 1);
      assert t[..from + 1][from] == t[from];
    }
  }

  lemma OverlayCut(h: Hist, l: Log, t: seq<Entry>, from: nat)
    requires LeaderLogs(h) && LogOk(h, l.entries) && LogOk(h, t)
    requires l.snapshotIndex == 0 && from < |t| && from <= |l.entries|
    requires l.entries[..from] == t[..from]
    requires from == |l.entries| || l.entries[from].term != t[from].term
    ensures l.Accept(t[from]) == l.(entries := t[..from + 1])
  {
    EntryFacts(h, t, from);
    assert t[..from] + [t[from]] == t[..from + 1];
  }

  /** The prefix a valid AppendEntries builds on is shared with the leader. */
  lemma SharedPrefix(peers: seq<nat>, h: Hist, n: Node, m: Msg, src: nat)
    requires HistInv(peers, h) && Shape(peers, n) && NodeLog(h, n)
    requires m.AppendEntries? && AppendOk(peers, h, src, m) && PrevMatches(n, m.prevLogIndex, m.prevLogTerm)
    ensures m.prevLogIndex <= |n.log.entries|
    ensures n.log.entries[..m.prevLogIndex] == h.elections[m.term].log[..m.prevLogIndex]
  {
    var prev, t := m.prevLogIndex, h.elections[m.term].log;
    if prev > 0 {
      LeaderPrefixOk(h, m.term, prev);
      EntryFacts(h, t[..prev], prev - 1);
      LogMatching(h, n.log.entries, t[..prev], prev - 1);
      assert t[..prev][..prev] == t[..prev];
    }
  }

  /** The log a follower has after a matching AppendEntries. */
  lemma ReplicatedLog(peers: seq<nat>, h: Hist, n: Node, m: Msg, src: nat)
    requires HistInv(peers, h) && Shape(peers, n) && NodeLog(h, n)
    requires m.AppendEntries? && AppendOk(peers, h, src, m) && PrevMatches(n, m.prevLogIndex, m.prevLogTerm)
    ensures var t := h.elections[m.term].log[..m.prevLogIndex + |m.entries|];
            n.log.AcceptAll(m.entries) == n.log.(entries := Overwrite(n.log.entries, t))
  {
    var prev, full := m.prevLogIndex, h.elections[m.term].log;
    SharedPrefix(peers, h, n, m, src);
    var end := prev + |m.entries|;
    var t := full[..end];
    LeaderPrefixOk(h, m.term, end);
    assert t[..prev] == full[..prev] && t[prev..end] == m.entries && t[..end] == t;
    Overlay(h, n.log, t, prev, end);
  }

  /** What both logs hold survives the overlay. */
  lemma OverlayKeeps(p: seq<Entry>, log: seq<Entry>, t: seq<Entry>, full: seq<Entry>)
    requires p <= log && p <= full && t <= full
    ensures p <= Overwrite(log, t)
  {
  }

  /** The node's log after entries reaching up to `end` of its leader's log. */
  ghost function Overlaid(h: Hist, n: Node, end: nat): seq<Entry>
    requires n.term in h.elections && end <= |h.elections[n.term].log|
  {
    Overwrite(n.log.entries, h.elections[n.term].log[..end])
  }

  ghost function ReplicateHist(h: Hist, n: Node, end: nat): Hist {
    h.(acked := h.acked[(n.id, n.term) := Max(Acked(h, n.id, n.term), end)])
  }

  lemma ReplicateGrows(peers: seq<nat>, h: Hist, n: Node, end: nat)
    requires HistInv(peers, h) && NodeVote(h, n)
    requires n.term in h.elections && end <= |h.elections[n.term].log|
    ensures Grows(h, ReplicateHist(h, n, end), n.id) && HistInv(peers, ReplicateHist(h, n, end))
  {
    var h2 := ReplicateHist(h, n, end);
    assert (n.id, n.term) in h.acked ==> AckOk(h, n.id, n.term);
    HistGrows(peers, h, h2, n.id, n.term);
  }

  lemma ReplicateAcks(peers: seq<nat>, h: Hist, n: Node, end: nat, log: seq<Entry>)
    requires HistInv(peers, h) && NodeAcks(h, n)
    requires n.term in h.elections && end <= |h.elections[n.term].log|
    requires log == Overlaid(h, n, end)
    requires Grows(h, ReplicateHist(h, n, end), n.id)
    ensures KeepsAcks(ReplicateHist(h, n, end), n.id, log, n.term + 1, n.term + 1)
  {
    var h2, u, bound := ReplicateHist(h, n, end), n.term, n.term + 1;
    assert ElectionOk(peers, h, u);
    assert (n.id, u) in h.acked ==> AckOk(h, n.id, u);
    forall t, k | (n.id, t) in h2.acked && t < bound && 0 <= k <= h2.acked[(n.id, t)]
      ensures Kept(h2, t, k, log, bound)
    {
      if t == u && k <= end {
        assert h.elections[u].log[..k] <= h.elections[u].log[..end];
      } else {
        assert Kept(h, t, k, n.log.entries, bound);
        KeptThrough(h, n, end, log, t, k);
        KeptGrows(h, h2, n.id, t, k, log, bound);
      }
    }
  }

  lemma KeptThrough(h: Hist, n: Node, end: nat, log: seq<Entry>, t: nat, k: nat)
    requires n.term in h.elections && end <= |h.elections[n.term].log| && t <= n.term
    requires h.elections[n.term].start <= h.elections[n.term].log
    requires log == Overlaid(h, n, end)
    requires Kept(h, t, k, n.log.entries, n.term + 1)
    ensures Kept(h, t, k, log, n.term + 1)
  {
    var p, full := h.elections[t].log[..k], h.elections[n.term].log;
    if p <= n.log.entries {
      if p <= full {
        OverlayKeeps(p, n.log.entries, full[..end], full);
      } else {
        assert Lost(h, t, k, n.term + 1, n.term);
      }
    } else {
      var w :| Lost(h, t, k, n.term + 1, w);
    }
  }

  lemma ReplicateCommit(peers: seq<nat>, h: Hist, n: Node, end: nat, log: seq<Entry>, c: nat, source: seq<Entry>)
    requires HistInv(peers, h) && n.term in h.elections && end <= |h.elections[n.term].log|
    requires log == Overlaid(h, n, end)
    requires Stable(peers, h, source, c, n.term)
    requires source == n.log.entries || (source == h.elections[n.term].log && c <= end)
    ensures Stable(peers, h, log, c, n.term)
  {
    if c != 0 {
      var full := h.elections[n.term].log;
      var t: nat, k: nat :| Backs(peers, h, source, c, n.term, t, k);
      var p := h.elections[t].log[..c];
      InLaterLeader(peers, h, t, k, n.term);
      assert p == h.elections[t].log[..k][..c];
      if source == n.log.entries {
        OverlayKeeps(p, n.log.entries, full[..end], full);
      } else {
        assert p <= full[..end];
      }
      assert Backs(peers, h, log, c, n.term, t, k);
    }
  }

  /** The follower's new log and commit index. */
  lemma ReplicatedNode(peers: seq<nat>, h: Hist, n: Node, m: Msg, src: nat)
    requires HistInv(peers, h) && Shape(peers, n) && NodeLog(h, n) && NodeCommit(peers, h, n)
    requires m.AppendEntries? && m.term == n.term && AppendOk(peers, h, src, m)
    requires PrevMatches(n, m.prevLogIndex, m.prevLogTerm)
    ensures var log := Overlaid(h, n, m.prevLogIndex + |m.entries|);
            && LogOk(h, log) && TermOf(log) <= n.term
            && Replicate(n, m.entries, m.leaderCommit) ==
               n.(log := n.log.(entries := log), commitIndex := Max(n.commitIndex, m.leaderCommit))
  {
    var end := m.prevLogIndex + |m.entries|;
    ReplicatedLog(peers, h, n, m, src);
    LeaderPrefixOk(h, n.term, end);
    var l := n.log.AcceptAll(m.entries);
    LastFacts(peers, h, n.(log := l));
  }

  lemma ReplicateStable(peers: seq<nat>, h: Hist, n: Node, m: Msg, src: nat, log: seq<Entry>)
    requires HistInv(peers, h) && NodeCommit(peers, h, n)
    requires m.AppendEntries? && m.term == n.term && AppendOk(peers, h, src, m)
    requires log == Overlaid(h, n, m.prevLogIndex + |m.entries|)
    ensures Stable(peers, h, log, Max(n.commitIndex, m.leaderCommit), n.term)
  {
    var end := m.prevLogIndex + |m.entries|;
    ReplicateCommit(peers, h, n, end, log, n.commitIndex, n.log.entries);
    ReplicateCommit(peers, h, n, end, log, m.leaderCommit, h.elections[n.term].log);
  }

  lemma ReplicateKeeps(peers: seq<nat>, h: Hist, n: Node, m: Msg, src: nat, end: nat, r: Node)
    requires HistInv(peers, h) && NodeInv(peers, h, n) && n.role == Follower
    requires m.AppendEntries? && m.term == n.term && AppendOk(peers, h, src, m)
    requires PrevMatches(n, m.prevLogIndex, m.prevLogTerm)
    requires end == m.prevLogIndex + |m.entries| && r == Replicate(n, m.entries, m.leaderCommit)
    ensures NodeInv(peers, ReplicateHist(h, n, end), r)
  {
    ReplicatedNode(peers, h, n, m, src);
    var log := Overlaid(h, n, end);
    ReplicateStable(peers, h, n, m, src, log);
    ReplicateKeepsAt(peers, h, n, end, log, Max(n.commitIndex, m.leaderCommit), r);
  }

  lemma ReplicateKeepsAt(peers: seq<nat>, h: Hist, n: Node, end: nat, log: seq<Entry>, c: nat, r: Node)
    requires HistInv(peers, h) && NodeInv(peers, h, n) && n.role == Follower
    requires n.term in h.elections && end <= |h.elections[n.term].log|
    requires log == Overlaid(h, n, end)
    requires LogOk(h, log) && TermOf(log) <= n.term
    requires c >= n.commitIndex && Stable(peers, h, log, c, n.term)
    requires r == n.(log := n.log.(entries := log), commitIndex := c)
    ensures NodeInv(peers, ReplicateHist(h, n, end), r)
  {
    var h2 := ReplicateHist(h, n, end);
    ReplicateGrows(peers, h, n, end);
    ReplicateAcks(peers, h, n, end, log);
    NewLogKeeps(peers, h, h2, n, log, c);
  }

  /** A follower whose log and commit index change. */
  lemma NewLogKeeps(peers: seq<nat>, h: Hist, h2: Hist, n: Node, log: seq<Entry>, c: nat)
    requires NodeInv(peers, h, n) && n.role == Follower && Grows(h, h2, n.id)
    requires h2.ballots == h.ballots && h2.candidacies == h.candidacies
    requires LogOk(h, log) && TermOf(log) <= n.term && c >= n.commitIndex
    requires Stable(peers, h, log, c, n.term)
    requires forall t :: (n.id, t) in h2.acked ==> t <= n.term
    requires KeepsAcks(h2, n.id, log, n.term + 1, n.term + 1)
    ensures NodeInv(peers, h2, n.(log := n.log.(entries := log), commitIndex := c))
  {
    LogOkGrows(h, h2, n.id, log);
    StableGrows(peers, h, h2, n.id, log, c, n.term);
  }

  // ---------- the leader's side ----------

  lemma ConfirmKeeps(peers: seq<nat>, h: Hist, n: Node, from: nat, m: nat)
    requires HistInv(peers, h) && NodeInv(peers, h, n) && n.role == Leader && from in peers
    requires m <= Acked(h, from, n.term)
    ensures NodeInv(peers, h, Confirm(n, from, m))
  {
    assert (from, n.term) in h.acked ==> AckOk(h, from, n.term);
  }

  lemma BackOffKeeps(peers: seq<nat>, h: Hist, n: Node, from: nat)
    requires NodeInv(peers, h, n) && n.role == Leader && from in peers
    ensures NodeInv(peers, h, BackOff(n, from))
  {
  }

  /** What the leader's commit rule accepts is committed. */
  lemma CommitRule(peers: seq<nat>, h: Hist, n: Node, idx: nat)
    requires HistInv(peers, h) && NodeInv(peers, h, n) && n.role == Leader
    requires 1 <= idx <= n.log.LastIndex() && Committable(n, idx)
    ensures Committed(peers, h, n.term, idx)
  {
    LastFacts(peers, h, n);
    SubsetSize(Replicas(n, idx), AckSet(peers, h, n.term, idx));
  }

  lemma AdvanceKeeps(peers: seq<nat>, h: Hist, n: Node)
    requires HistInv(peers, h) && NodeInv(peers, h, n) && n.role == Leader
    ensures NodeInv(peers, h, AdvanceCommit(n))
  {
    var c := HighestCommittable(n, n.log.LastIndex());
    if c != n.commitIndex {
      CommitRule(peers, h, n, c);
      assert Backs(peers, h, n.log.entries, c, n.term, n.term, c);
    }
  }

  ghost function OwnHist(h: Hist, n: Node, e: Entry): Hist
    requires n.term in h.elections
  {
    var log := n.log.entries + [e];
    h.(elections := h.elections[n.term := h.elections[n.term].(log := log)],
       acked := h.acked[(n.id, n.term) := |log|])
  }

  lemma OwnGrowsOnly(peers: seq<nat>, h: Hist, n: Node, e: Entry)
    requires Acks(h) && NodeLeader(h, n) && n.role == Leader
    ensures Grows(h, OwnHist(h, n, e), n.id)
  {
    assert (n.id, n.term) in h.acked ==> AckOk(h, n.id, n.term);
  }

  lemma OwnGrows(peers: seq<nat>, h: Hist, n: Node, e: Entry)
    requires HistInv(peers, h) && NodeVote(h, n) && NodeLeader(h, n) && n.role == Leader
    requires e.term == n.term && e.index == |n.log.entries| + 1
    ensures Grows(h, OwnHist(h, n, e), n.id) && HistInv(peers, OwnHist(h, n, e))
  {
    var h2, u := OwnHist(h, n, e), n.term;
    OwnGrowsOnly(peers, h, n, e);
    OwnEntryOk(peers, h, n, e);
    assert AckOk(h2, n.id, u);
    HistGrows(peers, h, h2, n.id, u);
  }

  lemma OwnEntryOk(peers: seq<nat>, h: Hist, n: Node, e: Entry)
    requires Elections(peers, h) && Candidacies(h) && NodeLeader(h, n) && n.role == Leader
    requires e.term == n.term && e.index == |n.log.entries| + 1
    ensures EntryOk(OwnHist(h, n, e), n.term, |n.log.entries|)
  {
    assert ElectionOk(peers, h, n.term);
    assert CandidacyOk(h, n.id, n.term);
  }

  lemma OwnAcks(peers: seq<nat>, h: Hist, n: Node, e: Entry)
    requires NodeInv(peers, h, n) && n.role == Leader && Grows(h, OwnHist(h, n, e), n.id)
    ensures KeepsAcks(OwnHist(h, n, e), n.id, n.log.entries + [e], n.term + 1, n.term + 1)
  {
    var h2, u, log, bound := OwnHist(h, n, e), n.term, n.log.entries + [e], n.term + 1;
    forall t, k | (n.id, t) in h2.acked && t < bound && 0 <= k <= h2.acked[(n.id, t)]
      ensures Kept(h2, t, k, log, bound)
    {
      if t != u {
        assert Kept(h, t, k, n.log.entries, bound);
        KeptGrows(h, h2, n.id, t, k, n.log.entries, bound);
      }
    }
  }

  lemma StableExtends(peers: seq<nat>, h: Hist, log: seq<Entry>, c: nat, u: nat, more: seq<Entry>)
    requires Stable(peers, h, log, c, u) && log <= more
    ensures Stable(peers, h, more, c, u)
  {
    if c != 0 {
      var t: nat, k: nat :| Backs(peers, h, log, c, u, t, k);
      assert Backs(peers, h, more, c, u, t, k);
    }
  }

  /** `m` is leader `n` after appending its own entry `e`. */
  ghost predicate Appended(n: Node, e: Entry, m: Node) {
    && n.role == Leader
    && n.id < |n.matchIndex|
    && e == Entry(n.term, |n.log.entries| + 1, e.command)
    && m == n.(log := n.log.(entries := n.log.entries + [e]), matchIndex := n.matchIndex[n.id := e.index])
  }

  lemma OwnLeader(peers: seq<nat>, h: Hist, n: Node, e: Entry, m: Node)
    requires Acks(h) && Shape(peers, n) && NodeLeader(h, n) && Appended(n, e, m)
    ensures NodeLeader(OwnHist(h, n, e), m) && Shape(peers, m)
  {
    OwnGrowsOnly(peers, h, n, e);
  }

  lemma OwnVote(peers: seq<nat>, h: Hist, n: Node, e: Entry, m: Node)
    requires NodeVote(h, n) && NodeLeader(h, n) && Appended(n, e, m)
    ensures var h2 := OwnHist(h, n, e); NodeLog(h2, m) && NodeVote(h2, m) && NodeCandidate(h2, m)
  {
  }

  lemma OwnCommit(peers: seq<nat>, h: Hist, n: Node, e: Entry, m: Node)
    requires Acks(h) && NodeLeader(h, n) && NodeCommit(peers, h, n) && Appended(n, e, m)
    ensures NodeCommit(peers, OwnHist(h, n, e), m)
  {
    OwnGrowsOnly(peers, h, n, e);
    StableGrows(peers, h, OwnHist(h, n, e), n.id, n.log.entries, n.commitIndex, n.term);
    StableExtends(peers, OwnHist(h, n, e), n.log.entries, n.commitIndex, n.term, m.log.entries);
  }

  lemma OwnKeeps(peers: seq<nat>, h: Hist, n: Node, e: Entry, m: Node)
    requires Acks(h) && NodeInv(peers, h, n) && Appended(n, e, m)
    ensures NodeInv(peers, OwnHist(h, n, e), m)
  {
    OwnGrowsOnly(peers, h, n, e);
    OwnLeader(peers, h, n, e, m);
    OwnVote(peers, h, n, e, m);
    OwnAcks(peers, h, n, e);
    OwnCommit(peers, h, n, e, m);
  }

  // ---------- what is sent ----------

  ghost predicate SendsInv(peers: seq<nat>, h: Hist, i: nat, sends: seq<Send>) {
    forall k :: 0 <= k < |sends| ==> MsgInv(peers, h, Packet(i, sends[k].to, sends[k].msg))
  }

  lemma SendsToNet(peers: seq<nat>, h: Hist, i: nat, sends: seq<Send>)
    requires SendsInv(peers, h, i, sends)
    ensures NetInv(peers, h, Packets(i, sends))
  {
  }

  /** Every AppendEntries carries the whole rest of the leader's log, so its
      commit index never reaches past the entries it names. */
  lemma AppendIsOk(peers: seq<nat>, h: Hist, n: Node, peer: nat)
    requires HistInv(peers, h) && NodeInv(peers, h, n) && n.role == Leader && peer in peers
    ensures MsgInv(peers, h, Packet(n.id, peer, AppendTo(n, peer).msg))
  {
    var m, log := AppendTo(n, peer).msg, n.log.entries;
    StableInLeader(peers, h, log, n.commitIndex, n.term, n.term);
    assert m.entries == log[m.prevLogIndex..];
    assert ElectionOk(peers, h, n.term);
  }

  lemma {:induction false} AppendsAreOk(peers: seq<nat>, h: Hist, n: Node, k: nat)
    requires HistInv(peers, h) && NodeInv(peers, h, n) && n.role == Leader && k <= |peers|
    ensures SendsInv(peers, h, n.id, AppendsFrom(n, k))
    decreases |peers| - k
  {
    if k < |peers| {
      AppendsAreOk(peers, h, n, k + 1);
      if peers[k] != n.id { AppendIsOk(peers, h, n, peers[k]); }
    }
  }

  lemma {:induction false} VoteRequestsAreOk(peers: seq<nat>, h: Hist, n: Node, k: nat)
    requires HistInv(peers, h) && NodeInv(peers, h, n) && n.role == Candidate && k <= |peers|
    ensures SendsInv(peers, h, n.id, VoteRequests(n, k))
    decreases |peers| - k
  {
    LastFacts(peers, h, n);
    if k < |peers| {
      assert peers[k] in peers;
      VoteRequestsAreOk(peers, h, n, k + 1);
    }
  }
}
