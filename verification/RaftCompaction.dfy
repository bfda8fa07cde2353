/** Compaction of an in-memory log: one node's log with its prefix folded away
    reads like the full log, whatever the order of appends, cuts, commits,
    drains and compactions.  Sending from such a log is another matter: exactly
    the peers whose next index lies above the snapshot get the right message. */
module RaftCompaction {
  import opened Basics
  import opened RaftLogs
  import opened RaftNodes

  /** `l` is `full` with the first `l.snapshotIndex` entries dropped. */
  ghost predicate Folds(l: Log, full: seq<Entry>) {
    && l.snapshotIndex <= |full|
    && l.entries == full[l.snapshotIndex..]
    && l.snapshotTerm == TermIn(full, l.snapshotIndex)
    && forall j :: 0 <= j < |full| ==> full[j].index == j + 1
  }

  function TermIn(full: seq<Entry>, index: nat): nat {
    if 1 <= index <= |full| then full[index - 1].term else 0
  }

  /** Every read above the snapshot, and the log's end, agree with the full log. */
  lemma ReadsAgree(l: Log, full: seq<Entry>, index: nat)
    requires Folds(l, full)
    ensures l.LastIndex() == |full| && l.LastTerm() == TermIn(full, |full|)
    ensures index >= l.snapshotIndex ==> l.TermAt(index) == TermIn(full, index)
    ensures index > l.snapshotIndex ==>
              l.CommandAt(index) == if index <= |full| then Some(full[index - 1].command) else None
    ensures index > l.snapshotIndex ==>
              l.EntriesFrom(index) == if index <= |full| then full[index - 1..] else []
  {
    if l.snapshotIndex < index <= |full| {
      assert l.entries[index - l.snapshotIndex - 1] == full[index - 1];
      assert l.EntriesFrom(index) == full[index - 1..];
    }
  }

  // ---------- runs of one node's log ----------

  datatype Op =
    | Append(term: nat, command: Command)
    | Cut(index: nat)
    | Commit(index: nat)
    | Drain
    | Compact(upTo: nat)

  /** A log with its commit and apply cursors and the commands drained so far. */
  datatype State = State(log: Log, commit: nat, applied: nat, drained: seq<(nat, Command)>)

  /** Entries are appended at the end, cuts stay above the commit index, the commit
      index only moves forward within the log, and only applied entries are folded. */
  predicate Allowed(s: State, op: Op) {
    match op
    case Append(_, _) => true
    case Cut(index) => index > s.commit
    case Commit(index) => s.commit <= index <= s.log.LastIndex()
    case Drain => true
    case Compact(upTo) => upTo <= s.applied
  }

  function Do(s: State, op: Op): State {
    if !Allowed(s, op) then s
    else match op
      case Append(term, command) => s.(log := s.log.Append(Entry(term, s.log.LastIndex() + 1, command)))
      case Cut(index) => s.(log := s.log.TruncateFrom(index))
      case Commit(index) => s.(commit := index)
      case Drain => s.(applied := Max(s.applied, s.commit),
                       drained := s.drained + CommandsIn(s.log, s.applied, s.commit))
      case Compact(upTo) => s.(log := s.log.Compact(upTo))
  }

  /** The same operation on the log that is never compacted. */
  function DoFull(s: State, full: seq<Entry>, op: Op): seq<Entry> {
    if !Allowed(s, op) then full
    else match op
      case Append(term, command) => full + [Entry(term, |full| + 1, command)]
      case Cut(index) => if 1 <= index <= |full| then full[..index - 1] else full
      case _ => full
  }

  function DoAll(s: State, ops: seq<Op>): State
    decreases |ops|
  {
    if ops == [] then s else Do(DoAll(s, ops[..|ops| - 1]), ops[|ops| - 1])
  }

  function FullAfter(s: State, full: seq<Entry>, ops: seq<Op>): seq<Entry>
    decreases |ops|
  {
    if ops == [] then full
    else DoFull(DoAll(s, ops[..|ops| - 1]), FullAfter(s, full, ops[..|ops| - 1]), ops[|ops| - 1])
  }

  /** The commands at indices 1 to `n`, each with its index. */
  function Numbered(full: seq<Entry>, n: nat): seq<(nat, Command)>
    requires n <= |full|
  {
    seq(n, i requires 0 <= i < n => (i + 1, full[i].command))
  }

  ghost predicate Agrees(s: State, full: seq<Entry>) {
    && Folds(s.log, full)
    && s.log.snapshotIndex <= s.applied <= s.commit <= |full|
    && s.drained == Numbered(full, s.applied)
  }

  lemma DrainHead(l: Log, full: seq<Entry>, from: nat, upTo: nat)
    requires Folds(l, full) && l.snapshotIndex <= from < upTo <= |full|
    ensures CommandsIn(l, from, upTo) == [(from + 1, full[from].command)] + CommandsIn(l, from + 1, upTo)
  {
    ReadsAgree(l, full, from + 1);
  }

  lemma NumberedSnoc(full: seq<Entry>, n: nat)
    requires n < |full|
    ensures Numbered(full, n + 1) == Numbered(full, n) + [(n + 1, full[n].command)]
  {
  }

  lemma {:induction false} DrainsNumbered(l: Log, full: seq<Entry>, from: nat, upTo: nat)
    requires Folds(l, full) && l.snapshotIndex <= from <= upTo <= |full|
    ensures Numbered(full, from) + CommandsIn(l, from, upTo) == Numbered(full, upTo)
    decreases upTo - from
  {
    if from < upTo {
      var done, rest := Numbered(full, from), CommandsIn(l, from + 1, upTo);
      var next: seq<(nat, Command)> := [(from + 1, full[from].command)];
      DrainHead(l, full, from, upTo);
      NumberedSnoc(full, from);
      DrainsNumbered(l, full, from + 1, upTo);
      Regroup(done, next, rest);
    }
  }

  lemma Regroup<T>(a: seq<T>, b: seq<T>, c: seq<T>)
    ensures a + (b + c) == (a + b) + c
  {
  }

  lemma AppendAgrees(s: State, full: seq<Entry>, e: Entry)
    requires Agrees(s, full) && e.index == |full| + 1
    ensures Agrees(s.(log := s.log.Append(e)), full + [e])
  {
    assert (full + [e])[s.log.snapshotIndex..] == full[s.log.snapshotIndex..] + [e];
    assert Numbered(full + [e], s.applied) == Numbered(full, s.applied);
  }

  lemma CutAgrees(s: State, full: seq<Entry>, index: nat)
    requires Agrees(s, full) && index > s.commit
    ensures Agrees(s.(log := s.log.TruncateFrom(index)), if index <= |full| then full[..index - 1] else full)
  {
    var snap := s.log.snapshotIndex;
    if index <= |full| {
      var cut := full[..index - 1];
      assert cut[snap..] == full[snap..][..index - snap - 1];
      assert Numbered(cut, s.applied) == Numbered(full, s.applied);
    } else {
      assert full[snap..][..|full| - snap] == full[snap..];
    }
  }

  lemma CompactAgrees(s: State, full: seq<Entry>, upTo: nat)
    requires Agrees(s, full) && upTo <= s.applied
    ensures Agrees(s.(log := s.log.Compact(upTo)), full)
  {
    ReadsAgree(s.log, full, upTo);
    var snap := s.log.snapshotIndex;
    if snap < upTo { assert full[snap..][upTo - snap..] == full[upTo..]; }
  }

  lemma OpAgrees(s: State, full: seq<Entry>, op: Op)
    requires Agrees(s, full)
    ensures Agrees(Do(s, op), DoFull(s, full, op))
  {
    ReadsAgree(s.log, full, 0);
    if Allowed(s, op) {
      match op {
        case Append(term, command) => AppendAgrees(s, full, Entry(term, |full| + 1, command));
        case Cut(index) => CutAgrees(s, full, index);
        case Commit(index) =>
        case Drain => DrainsNumbered(s.log, full, s.applied, s.commit);
        case Compact(upTo) => CompactAgrees(s, full, upTo);
      }
    }
  }

  lemma {:induction false} RunAgrees(s: State, full: seq<Entry>, ops: seq<Op>)
    requires Agrees(s, full)
    ensures Agrees(DoAll(s, ops), FullAfter(s, full, ops))
    decreases |ops|
  {
    if ops != [] {
      RunAgrees(s, full, ops[..|ops| - 1]);
      OpAgrees(DoAll(s, ops[..|ops| - 1]), FullAfter(s, full, ops[..|ops| - 1]), ops[|ops| - 1]);
    }
  }

  /** Compaction refines the full log: after any operations on a fresh log, every
      read above the snapshot is the full log's, and what was drained is exactly
      the commands at indices 1 to the apply cursor, in order, once each. */
  lemma CompactionRefines(ops: seq<Op>, index: nat)
    ensures var s := DoAll(State(EmptyLog(false), 0, 0, []), ops);
            var full := FullAfter(State(EmptyLog(false), 0, 0, []), [], ops);
            && s.applied <= s.commit <= |full|
            && s.drained == Numbered(full, s.applied)
            && s.log.LastIndex() == |full|
            && (index > s.log.snapshotIndex ==>
                  && s.log.TermAt(index) == TermIn(full, index)
                  && s.log.CommandAt(index) == (if index <= |full| then Some(full[index - 1].command) else None)
                  && s.log.EntriesFrom(index) == (if index <= |full| then full[index - 1..] else []))
  {
    var s0 := State(EmptyLog(false), 0, 0, []);
    assert Agrees(s0, []);
    RunAgrees(s0, [], ops);
    ReadsAgree(DoAll(s0, ops).log, FullAfter(s0, [], ops), index);
  }

  // ---------- sending from a compacted log ----------

  lemma {:induction false} MinMatchBounds(n: Node, ps: seq<nat>, p: nat)
    requires p in ps && forall q :: q in ps ==> q < |n.matchIndex|
    ensures MinMatch(n, ps) <= n.matchIndex[p]
    decreases |ps|
  {
    if |ps| > 1 && p != ps[0] {
      assert ps == [ps[0]] + ps[1..];
      assert forall q :: q in ps[1..] ==> q in ps;
      MinMatchBounds(n, ps[1..], p);
    }
  }

  /** A node folds only what it has applied, and a leader only what every peer has
      confirmed besides. */
  lemma FoldsOnlyApplied(n: Node, keep: nat, p: nat)
    requires n.Wf() && p in n.peers
    ensures var m := MaybeCompact(n, keep);
            || m == n
            || (m.log.snapshotIndex <= n.lastApplied &&
                (n.role == Leader ==> m.log.snapshotIndex <= n.matchIndex[p]))
  {
    if n.role == Leader { MinMatchBounds(n, n.peers, p); }
  }

  lemma {:induction false} MinMatchIsOne(n: Node, ps: seq<nat>, y: nat)
    requires ps != [] && (forall q :: q in ps ==> q < |n.matchIndex|) && forall q :: q in ps ==> y <= n.matchIndex[q]
    ensures y <= MinMatch(n, ps)
    decreases |ps|
  {
    assert ps[0] in ps;
    if |ps| > 1 {
      assert forall q :: q in ps[1..] ==> q in ps;
      MinMatchIsOne(n, ps[1..], y);
    }
  }

  /** Applied here and, on a leader, confirmed by every peer. */
  ghost predicate Foldable(n: Node, y: nat)
    requires n.Wf()
  {
    y <= n.lastApplied && (n.role == Leader ==> forall p :: p in n.peers ==> y <= n.matchIndex[p])
  }

  /** A node with an in-memory log of more than `keep` live entries folds everything
      it may, and any other node nothing. */
  lemma FoldsAllItMay(n: Node, keep: nat)
    requires n.Wf() && n.lastApplied <= n.log.LastIndex()
    ensures var m := MaybeCompact(n, keep);
            && m == n.(log := m.log)
            && (n.log.durable || |n.log.entries| <= keep ==> m == n)
            && (!n.log.durable && |n.log.entries| > keep ==>
                  forall y: nat :: y <= m.log.snapshotIndex <==> y <= n.log.snapshotIndex || Foldable(n, y))
  {
    assert n.peers != [] by { assert n.id in n.peers; }
    forall y: nat ensures y <= SafeCompactIndex(n) <==> Foldable(n, y) {
      if n.role == Leader {
        if y <= SafeCompactIndex(n) {
          forall p | p in n.peers ensures y <= n.matchIndex[p] { MinMatchBounds(n, n.peers, p); }
        }
        if Foldable(n, y) { MinMatchIsOne(n, n.peers, y); }
      }
    }
  }

  /** The node with its log restored. */
  function Restored(n: Node, full: seq<Entry>): Node {
    n.(log := n.log.(entries := full, snapshotIndex := 0, snapshotTerm := 0))
  }

  /** A compacted leader sends a peer what the uncompacted one would exactly when
      the peer's next index lies above the snapshot. */
  lemma SendsRightIff(n: Node, full: seq<Entry>, peer: nat)
    requires Folds(n.log, full) && peer < |n.nextIndex| && 1 <= n.nextIndex[peer] <= |full| + 1
    ensures AppendTo(n, peer) == AppendTo(Restored(n, full), peer) <==> n.nextIndex[peer] > n.log.snapshotIndex
  {
    var next, m := n.nextIndex[peer], Restored(n, full);
    assert full[0..] == full;
    assert Folds(m.log, full);
    ReadsAgree(n.log, full, next);
    ReadsAgree(m.log, full, next);
    ReadsAgree(m.log, full, next - 1);
    if next > n.log.snapshotIndex {
      ReadsAgree(n.log, full, next - 1);
    } else {
      assert n.log.EntriesFrom(next) == n.log.entries;
      assert |AppendTo(n, peer).msg.entries| != |AppendTo(m, peer).msg.entries|;
    }
  }
}
