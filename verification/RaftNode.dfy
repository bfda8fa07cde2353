/** One Raft node as a value with its transition functions
    (crates/raft/src/lib.rs).  Logical time enters only through the `fires`
    argument of `Tick`, so every schedule of elections and heartbeats is
    covered.  The read lease is not part of the model. */
module RaftNodes {
  import opened Basics
  import opened RaftLogs

  datatype Role = Follower | Candidate | Leader

  datatype Msg =
    | RequestVote(term: nat, candidate: nat, lastLogIndex: nat, lastLogTerm: nat)
    | RequestVoteResp(term: nat, granted: bool)
    | AppendEntries(term: nat, leader: nat, prevLogIndex: nat, prevLogTerm: nat,
                    entries: seq<Entry>, leaderCommit: nat)
    | AppendEntriesResp(term: nat, success: bool, matchIndex: nat)

  datatype Send = Send(to: nat, msg: Msg)

  datatype Node = Node(id: nat, peers: seq<nat>, role: Role, term: nat, votedFor: Option<nat>,
                       log: Log, commitIndex: nat, lastApplied: nat, leader: Option<nat>,
                       votes: seq<bool>, nextIndex: seq<nat>, matchIndex: seq<nat>)
  {
    /** What the constructor sets up and every operation relies on: the peer list
        names each member once and includes this node, the per-peer tables cover
        every peer, and no `nextIndex` is 0. */
    ghost predicate Wf() {
      && Distinct(peers)
      && id in peers
      && |votes| == |nextIndex| == |matchIndex|
      && (forall p :: p in peers ==> p < |votes|)
      && (forall p :: p in peers ==> p < |nextIndex| && nextIndex[p] >= 1)
    }

    function Majority(): nat { |peers| / 2 + 1 }
  }

  function Members(peers: seq<nat>): set<nat> {
    set p | p in peers
  }

  function TrueSet(v: seq<bool>): set<nat> {
    set i: nat | i < |v| && v[i]
  }

  /** The peers a leader believes to hold everything up to `idx`. */
  function Replicas(n: Node, idx: nat): set<nat>
    requires forall p :: p in n.peers ==> p < |n.matchIndex|
  {
    set p | p in n.peers && n.matchIndex[p] >= idx
  }

  function MaxId(peers: seq<nat>): (m: nat)
    ensures forall p :: p in peers ==> p <= m
  {
    if peers == [] then 0
    else
      var m := MaxId(peers[1..]);
      assert forall p :: p in peers ==> p == peers[0] || p in peers[1..];
      if peers[0] > m then peers[0] else m
  }

  /** A node started on `log`: its term and vote are the persisted ones. */
  function NewNode(id: nat, peers: seq<nat>, log: Log): Node {
    var n := MaxId(peers) + 1;
    Node(id, peers, Follower, log.term, log.vote, log, 0, 0, None,
         seq(n, i => false), seq(n, i => 1), seq(n, i => 0))
  }

  function BecomeFollower(n: Node, t: nat): Node {
    n.(term := t, votedFor := None, role := Follower, leader := None,
       log := n.log.PersistTermVote(t, None))
  }

  function AppendTo(n: Node, peer: nat): Send
    requires peer < |n.nextIndex| && n.nextIndex[peer] >= 1
  {
    var next := n.nextIndex[peer];
    Send(peer, AppendEntries(n.term, n.id, next - 1, n.log.TermAt(next - 1),
                             n.log.EntriesFrom(next), n.commitIndex))
  }

  /** One AppendEntries for each peer from position `k` on, other than the node itself. */
  function AppendsFrom(n: Node, k: nat): seq<Send>
    requires n.Wf() && k <= |n.peers|
    decreases |n.peers| - k
  {
    if k == |n.peers| then []
    else
      assert n.peers[k] in n.peers;
      (if n.peers[k] != n.id then [AppendTo(n, n.peers[k])] else []) + AppendsFrom(n, k + 1)
  }

  function Broadcast(n: Node): seq<Send>
    requires n.Wf()
  {
    AppendsFrom(n, 0)
  }

  function Campaign(n: Node): Node
    requires n.id < |n.votes|
  {
    var t := n.term + 1;
    n.(term := t, role := Candidate, votedFor := Some(n.id), leader := None,
       log := n.log.PersistTermVote(t, Some(n.id)),
       votes := seq(|n.votes|, i => i == n.id))
  }

  function VoteRequests(n: Node, k: nat): seq<Send>
    requires k <= |n.peers|
    decreases |n.peers| - k
  {
    if k == |n.peers| then []
    else (if n.peers[k] != n.id
          then [Send(n.peers[k], RequestVote(n.term, n.id, n.log.LastIndex(), n.log.LastTerm()))] else [])
         + VoteRequests(n, k + 1)
  }

  predicate WinsElection(n: Node) {
    n.role == Candidate && |TrueSet(n.votes)| >= n.Majority()
  }

  /** The node as leader: every peer is assumed to lack nothing and to have
      confirmed nothing, except the node itself. */
  function Lead(n: Node): Node {
    var last := n.log.LastIndex();
    n.(role := Leader, leader := Some(n.id),
       nextIndex := seq(|n.nextIndex|, i requires 0 <= i < |n.nextIndex| =>
                         if i in n.peers then last + 1 else n.nextIndex[i]),
       matchIndex := seq(|n.matchIndex|, i requires 0 <= i < |n.matchIndex| =>
                          if i == n.id then last else if i in n.peers then 0 else n.matchIndex[i]))
  }

  function MaybeLead(n: Node): (Node, seq<Send>)
    requires n.Wf()
  {
    if WinsElection(n) then (Lead(n), Broadcast(Lead(n))) else (n, [])
  }

  function StartElection(n: Node): (Node, seq<Send>)
    requires n.Wf()
  {
    var c := Campaign(n);
    var (m, sends) := MaybeLead(c);
    (m, VoteRequests(c, 0) + sends)
  }

  /** `fires`: the leader's heartbeat period, or the election timeout of anyone
      else, has elapsed. */
  function Tick(n: Node, fires: bool): (Node, seq<Send>)
    requires n.Wf()
  {
    if !fires then (n, [])
    else if n.role == Leader then (n, Broadcast(n))
    else StartElection(n)
  }

  predicate MayVoteFor(n: Node, candidate: nat) {
    n.votedFor == None || n.votedFor == Some(candidate)
  }

  predicate AtLeastAsRecent(lastIndex: nat, lastTerm: nat, l: Log) {
    lastTerm > l.LastTerm() || (lastTerm == l.LastTerm() && lastIndex >= l.LastIndex())
  }

  function Grant(n: Node, candidate: nat): Node {
    n.(votedFor := Some(candidate), log := n.log.PersistTermVote(n.term, Some(candidate)))
  }

  function OnRequestVote(n: Node, term: nat, candidate: nat, lastLogIndex: nat, lastLogTerm: nat)
    : (Node, seq<Send>)
  {
    var granted := term >= n.term && MayVoteFor(n, candidate)
                   && AtLeastAsRecent(lastLogIndex, lastLogTerm, n.log);
    var m := if granted then Grant(n, candidate) else n;
    (m, [Send(candidate, RequestVoteResp(m.term, granted))])
  }

  function CountVote(n: Node, from: nat): Node
    requires from < |n.votes|
  {
    n.(votes := n.votes[from := true])
  }

  function OnVoteResp(n: Node, from: nat, term: nat, granted: bool): (Node, seq<Send>)
    requires n.Wf() && from < |n.votes|
  {
    if n.role != Candidate || term != n.term || !granted then (n, [])
    else MaybeLead(CountVote(n, from))
  }

  predicate PrevMatches(n: Node, prevLogIndex: nat, prevLogTerm: nat) {
    prevLogIndex == 0 || prevLogIndex <= n.log.snapshotIndex || n.log.TermAt(prevLogIndex) == prevLogTerm
  }

  function Heard(n: Node, leader: nat): Node {
    n.(role := Follower, leader := Some(leader))
  }

  /** Take over the leader's entries, then its commit index capped by the log. */
  function Replicate(n: Node, entries: seq<Entry>, leaderCommit: nat): Node {
    var l := n.log.AcceptAll(entries);
    n.(log := l,
       commitIndex := if leaderCommit > n.commitIndex then Min(leaderCommit, l.LastIndex()) else n.commitIndex)
  }

  function Acknowledged(prevLogIndex: nat, entries: seq<Entry>): nat {
    if entries == [] then prevLogIndex else Max(entries[|entries| - 1].index, prevLogIndex)
  }

  function OnAppend(n: Node, term: nat, leader: nat, prevLogIndex: nat, prevLogTerm: nat,
                    entries: seq<Entry>, leaderCommit: nat): (Node, seq<Send>)
  {
    if term < n.term then (n, [Send(leader, AppendEntriesResp(n.term, false, 0))])
    else
      var h := Heard(n, leader);
      if !PrevMatches(h, prevLogIndex, prevLogTerm) then
        (h, [Send(leader, AppendEntriesResp(h.term, false, 0))])
      else
        var m := Replicate(h, entries, leaderCommit);
        (m, [Send(leader, AppendEntriesResp(m.term, true, Acknowledged(prevLogIndex, entries)))])
  }

  function Confirm(n: Node, from: nat, matchIndex: nat): Node
    requires from < |n.matchIndex| == |n.nextIndex|
  {
    var k := Max(n.matchIndex[from], matchIndex);
    n.(matchIndex := n.matchIndex[from := k], nextIndex := n.nextIndex[from := k + 1])
  }

  function BackOff(n: Node, from: nat): Node
    requires from < |n.nextIndex|
  {
    n.(nextIndex := n.nextIndex[from := Max(if n.nextIndex[from] == 0 then 0 else n.nextIndex[from] - 1, 1)])
  }

  function OnAppendResp(n: Node, from: nat, term: nat, success: bool, matchIndex: nat): (Node, seq<Send>)
    requires n.Wf() && from < |n.votes|
  {
    if n.role != Leader || term != n.term then (n, [])
    else if success then (AdvanceCommit(Confirm(n, from, matchIndex)), [])
    else var b := BackOff(n, from); (b, [AppendTo(b, from)])
  }

  /** The commit rule: an entry of the current term held by a majority. */
  predicate Committable(n: Node, idx: nat)
    requires forall p :: p in n.peers ==> p < |n.matchIndex|
  {
    n.log.TermAt(idx) == n.term && |Replicas(n, idx)| >= n.Majority()
  }

  /** The highest committable index in `(n.commitIndex, idx]`, else the commit index. */
  function HighestCommittable(n: Node, idx: nat): (r: nat)
    requires forall p :: p in n.peers ==> p < |n.matchIndex|
    ensures r == n.commitIndex || (n.commitIndex < r <= idx && Committable(n, r))
    ensures forall j :: r < j <= idx && n.commitIndex < j ==> !Committable(n, j)
    decreases idx
  {
    if idx <= n.commitIndex then n.commitIndex
    else if Committable(n, idx) then idx
    else HighestCommittable(n, idx - 1)
  }

  function AdvanceCommit(n: Node): Node
    requires forall p :: p in n.peers ==> p < |n.matchIndex|
  {
    n.(commitIndex := HighestCommittable(n, n.log.LastIndex()))
  }

  function AppendOwn(n: Node, command: Command): Node
    requires n.id < |n.matchIndex|
  {
    var index := n.log.LastIndex() + 1;
    n.(log := n.log.Append(Entry(n.term, index, command)),
       matchIndex := n.matchIndex[n.id := index])
  }

  function Propose(n: Node, command: Command): (Node, Option<nat>)
    requires n.Wf()
  {
    if n.role != Leader then (n, None)
    else (AdvanceCommit(AppendOwn(n, command)), Some(n.log.LastIndex() + 1))
  }

  function StepHandler(n: Node, from: nat, msg: Msg): (Node, seq<Send>)
    requires n.Wf() && from < |n.votes|
  {
    match msg
    case RequestVote(term, candidate, lli, llt) => OnRequestVote(n, term, candidate, lli, llt)
    case RequestVoteResp(term, granted) => OnVoteResp(n, from, term, granted)
    case AppendEntries(term, leader, pli, plt, entries, lc) => OnAppend(n, term, leader, pli, plt, entries, lc)
    case AppendEntriesResp(term, success, m) => OnAppendResp(n, from, term, success, m)
  }

  function CatchUp(n: Node, t: nat): Node {
    if t > n.term then BecomeFollower(n, t) else n
  }

  function Step(n: Node, from: nat, msg: Msg): (Node, seq<Send>)
    requires n.Wf() && from < |n.votes|
  {
    StepHandler(CatchUp(n, msg.term), from, msg)
  }

  /** The command at `index`, if the log still holds it. */
  function CommandIn(l: Log, index: nat): seq<(nat, Command)> {
    match l.CommandAt(index)
    case Some(c) => [(index, c)]
    case None => []
  }

  /** The commands at `from + 1 ..= upTo` that the log still holds, in order. */
  function CommandsIn(l: Log, from: nat, upTo: nat): seq<(nat, Command)>
    decreases upTo - from
  {
    if from >= upTo then [] else CommandIn(l, from + 1) + CommandsIn(l, from + 1, upTo)
  }

  function TakeCommitted(n: Node): (Node, seq<(nat, Command)>) {
    (n.(lastApplied := Max(n.lastApplied, n.commitIndex)), CommandsIn(n.log, n.lastApplied, n.commitIndex))
  }

  function MinMatch(n: Node, ps: seq<nat>): nat
    requires forall p :: p in ps ==> p < |n.matchIndex|
    requires ps != []
  {
    assert ps[0] in ps && forall p :: p in ps[1..] ==> p in ps;
    if |ps| == 1 then n.matchIndex[ps[0]] else Min(n.matchIndex[ps[0]], MinMatch(n, ps[1..]))
  }

  function SafeCompactIndex(n: Node): nat
    requires n.Wf()
  {
    if n.role == Leader then Min(MinMatch(n, n.peers), n.lastApplied) else n.lastApplied
  }

  function MaybeCompact(n: Node, keep: nat): Node
    requires n.Wf()
  {
    if |n.log.entries| <= keep then n else n.(log := n.log.Compact(SafeCompactIndex(n)))
  }

  /** The process ends and `new` runs again on the persisted log. */
  function Restart(n: Node): Node {
    NewNode(n.id, n.peers, n.log)
  }
}
