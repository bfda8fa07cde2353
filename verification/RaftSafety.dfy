/** What the invariant says about every state: log matching, election safety,
    leader completeness and agreement on committed prefixes (sections 5.2 to 5.4
    of the Raft paper). */
module RaftSafety {
  import opened Basics
  import opened RaftLogs
  import opened RaftNodes
  import opened RaftHistory

  lemma {:induction false} DistinctCard(peers: seq<nat>)
    requires Distinct(peers)
    ensures |Members(peers)| == |peers|
  {
    if peers != [] {
      var init := peers[..|peers| - 1];
      var last := peers[|peers| - 1];
      DistinctCard(init);
      assert last !in init;
      assert Members(peers) == Members(init) + {last};
    }
  }

  /** Two majorities share a member. */
  lemma Quorums(peers: seq<nat>, a: set<nat>, b: set<nat>) returns (v: nat)
    requires Distinct(peers)
    requires a <= Members(peers) && b <= Members(peers)
    requires |a| >= |peers| / 2 + 1 && |b| >= |peers| / 2 + 1
    ensures v in a && v in b && v in peers
  {
    DistinctCard(peers);
    var all := Members(peers);
    SubsetSize(a + b, all);
    assert |a + b| + |a * b| == |a| + |b|;
    v :| v in a * b;
  }

  lemma EntryFacts(h: Hist, log: seq<Entry>, k: nat)
    requires LeaderLogs(h) && LogOk(h, log) && k < |log|
    ensures log[k].index == k + 1 && 1 <= log[k].term <= TermOf(log)
    ensures log[k].term in h.elections && log[..k + 1] <= h.elections[log[k].term].log
  {
    var full := h.elections[TermOf(log)].log;
    assert EntryOk(h, TermOf(log), k);
    assert log[..k + 1] == full[..k + 1];
  }

  /** Any prefix of a proper log is one. */
  lemma PrefixOk(h: Hist, log: seq<Entry>, j: nat)
    requires LeaderLogs(h) && LogOk(h, log) && j <= |log|
    ensures LogOk(h, log[..j]) && TermOf(log[..j]) <= TermOf(log)
  {
    if j > 0 { EntryFacts(h, log, j - 1); }
  }

  /** Log matching: same term at an index means same log up to it. */
  lemma LogMatching(h: Hist, a: seq<Entry>, b: seq<Entry>, k: nat)
    requires LeaderLogs(h) && LogOk(h, a) && LogOk(h, b)
    requires k < |a| && k < |b| && a[k].term == b[k].term
    ensures a[..k + 1] == b[..k + 1]
  {
    EntryFacts(h, a, k);
    EntryFacts(h, b, k);
  }

  /** The log of a term's leader is itself proper at every length. */
  lemma LeaderPrefixOk(h: Hist, u: nat, j: nat)
    requires LeaderLogs(h) && u in h.elections && j <= |h.elections[u].log|
    ensures LogOk(h, h.elections[u].log[..j]) && TermOf(h.elections[u].log[..j]) <= u
  {
    if j > 0 { assert EntryOk(h, u, j - 1); }
  }

  /** Of two proper logs the more up-to-date one of the same last term extends the other. */
  lemma SameLastTerm(h: Hist, a: seq<Entry>, b: seq<Entry>)
    requires LeaderLogs(h) && LogOk(h, a) && LogOk(h, b)
    requires TermOf(a) == TermOf(b) && |a| >= |b|
    ensures b <= a
  {
    if b != [] { EntryFacts(h, b, |b| - 1); }
  }

  /** The terms of a committed prefix do not exceed the committing leader's. */
  lemma CommittedTerms(peers: seq<nat>, h: Hist, t: nat, k: nat)
    requires LeaderLogs(h) && Committed(peers, h, t, k)
    ensures forall j :: 0 <= j < k ==> h.elections[t].log[j].term <= t
  {
    forall j | 0 <= j < k ensures h.elections[t].log[j].term <= t { assert EntryOk(h, t, j); }
  }

  /** If `start` ends in an entry newer than all of `p`, and both begin the same
      log, then `start` holds all of `p`. */
  lemma NewerReachesPast(p: seq<Entry>, start: seq<Entry>, full: seq<Entry>, t: nat)
    requires start <= full && p <= full && TermOf(start) > t
    requires forall j :: 0 <= j < |p| ==> p[j].term <= t
    ensures p <= start
  {
    assert start[|start| - 1] == full[|start| - 1];
    assert forall j :: 0 <= j < |p| ==> full[j].term <= t;
  }

  /** A later leader whose log was at least as recent as a voter's log holding the
      prefix `p`, committed in term `t`, holds it too. */
  lemma RecentEnough(h: Hist, p: seq<Entry>, t: nat, w: nat, start: seq<Entry>, voter: seq<Entry>)
    requires LeaderLogs(h) && LogOk(h, start) && LogOk(h, voter)
    requires p != [] && p[|p| - 1].term == t && (forall j :: 0 <= j < |p| ==> p[j].term <= t)
    requires TermOf(start) < w && p <= voter && UpToDate(start, voter)
    requires forall x :: t < x < w && x in h.elections ==> p <= h.elections[x].log
    ensures p <= start
  {
    EntryFacts(h, voter, |p| - 1);
    assert voter[|p| - 1] == p[|p| - 1];
    if TermOf(start) == TermOf(voter) {
      SameLastTerm(h, start, voter);
    } else {
      NewerReachesPast(p, start, h.elections[TermOf(start)].log, t);
    }
  }

  /** The voter of `w` that acknowledged the committed prefix still had it. */
  lemma VoterHeldIt(peers: seq<nat>, h: Hist, t: nat, k: nat, w: nat) returns (voter: seq<Entry>)
    requires HistInv(peers, h) && Committed(peers, h, t, k) && w in h.elections && t < w
    requires forall x :: t < x < w && x in h.elections ==> h.elections[t].log[..k] <= h.elections[x].start
    ensures LogOk(h, voter) && UpToDate(h.elections[w].start, voter) && h.elections[t].log[..k] <= voter
  {
    assert ElectionOk(peers, h, w);
    var v := Quorums(peers, AckSet(peers, h, t, k), h.elections[w].voters);
    assert VoterOk(h, w, v) && BallotOk(h, v, w);
    voter := h.ballots[(v, w)].log;
    assert Kept(h, t, k, voter, w);
    assert forall x :: !Lost(h, t, k, w, x);
  }

  /** Leader completeness: what a majority acknowledged of a term's own entries
      is in the log of every later leader, from its election on. */
  lemma {:induction false} LeaderCompleteness(peers: seq<nat>, h: Hist, t: nat, k: nat, w: nat)
    requires HistInv(peers, h) && Committed(peers, h, t, k) && w in h.elections && t < w
    ensures h.elections[t].log[..k] <= h.elections[w].start <= h.elections[w].log
    decreases w
  {
    var p, start := h.elections[t].log[..k], h.elections[w].start;
    forall x | t < x < w && x in h.elections
      ensures p <= h.elections[x].start && p <= h.elections[x].log
    {
      LeaderCompleteness(peers, h, t, k, x);
    }
    var voter := VoterHeldIt(peers, h, t, k, w);
    assert ElectionOk(peers, h, w);
    assert CandidacyOk(h, h.elections[w].leader, w);
    CommittedTerms(peers, h, t, k);
    RecentEnough(h, p, t, w, start, voter);
  }

  /** A committed prefix is in the log of the leader of that term or a later one. */
  lemma InLaterLeader(peers: seq<nat>, h: Hist, t: nat, k: nat, w: nat)
    requires HistInv(peers, h) && Committed(peers, h, t, k) && w in h.elections && t <= w
    ensures h.elections[t].log[..k] <= h.elections[w].log
  {
    if t < w { LeaderCompleteness(peers, h, t, k, w); }
  }

  /** Two committed prefixes agree wherever both reach. */
  lemma CommittedAgree(peers: seq<nat>, h: Hist, t: nat, k: nat, t2: nat, k2: nat, j: nat)
    requires HistInv(peers, h) && Committed(peers, h, t, k) && Committed(peers, h, t2, k2)
    requires j < k && j < k2
    ensures h.elections[t].log[j] == h.elections[t2].log[j]
  {
    if t <= t2 {
      InLaterLeader(peers, h, t, k, t2);
      assert h.elections[t].log[..k][j] == h.elections[t2].log[j];
    } else {
      InLaterLeader(peers, h, t2, k2, t);
      assert h.elections[t2].log[..k2][j] == h.elections[t].log[j];
    }
  }

  /** A stable prefix is in the log of the leader of any term from then on. */
  lemma StableInLeader(peers: seq<nat>, h: Hist, log: seq<Entry>, c: nat, u: nat, w: nat)
    requires HistInv(peers, h) && Stable(peers, h, log, c, u) && u <= w && w in h.elections
    ensures c <= |log| && log[..c] <= h.elections[w].log
  {
    if c != 0 {
      var t: nat, k: nat :| Backs(peers, h, log, c, u, t, k);
      InLaterLeader(peers, h, t, k, w);
      assert log[..c] == h.elections[t].log[..k][..c];
    }
  }

}
