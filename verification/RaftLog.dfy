/** The Raft log of one node as a value, and the operations the node performs on
    it (crates/raft/src/log.rs).  `entries[j]` carries index
    `snapshotIndex + 1 + j`; everything at or below `snapshotIndex` has been
    folded into the state machine and dropped.  Indices start at 1. */
module RaftLogs {
  import opened Basics
  import Bytes

  type Command = seq<Bytes.Byte>

  datatype Entry = Entry(term: nat, index: nat, command: Command)

  /** `term` and `vote` are the persisted current term and vote; `durable` says
      whether a write-ahead file backs the log. */
  datatype Log = Log(entries: seq<Entry>, term: nat, vote: Option<nat>, durable: bool,
                     snapshotIndex: nat, snapshotTerm: nat)
  {
    function Pos(index: nat): Option<nat> {
      if index <= snapshotIndex then None
      else if index - snapshotIndex - 1 < |entries| then Some(index - snapshotIndex - 1)
      else None
    }

    function LastIndex(): nat {
      if entries == [] then snapshotIndex else entries[|entries| - 1].index
    }

    function LastTerm(): nat {
      if entries == [] then snapshotTerm else entries[|entries| - 1].term
    }

    /** 0 before and beyond the log, the snapshot's term at its boundary. */
    function TermAt(index: nat): nat {
      if index == 0 then 0
      else if index == snapshotIndex then snapshotTerm
      else match Pos(index)
           case Some(p) => entries[p].term
           case None => 0
    }

    function CommandAt(index: nat): Option<Command> {
      match Pos(index)
      case Some(p) => Some(entries[p].command)
      case None => None
    }

    function EntriesFrom(from: nat): seq<Entry> {
      var start := if from <= snapshotIndex + 1 then 0 else from - (snapshotIndex + 1);
      if start <= |entries| then entries[start..] else []
    }

    function Append(e: Entry): Log {
      this.(entries := entries + [e])
    }

    function TruncateFrom(index: nat): Log {
      var keep := if index <= snapshotIndex + 1 then 0 else index - (snapshotIndex + 1);
      if keep <= |entries| then this.(entries := entries[..keep]) else this
    }

    function PersistTermVote(t: nat, v: Option<nat>): Log {
      this.(term := t, vote := v)
    }

    /** A durable log is left as it is, and so is one whose live part does not
        reach past `upTo`. */
    function Compact(upTo: nat): Log {
      if durable || upTo <= snapshotIndex || upTo > LastIndex() then this
      else
        var drop := upTo - snapshotIndex;
        var kept := if drop <= |entries| then entries[drop..] else [];
        this.(entries := kept, snapshotIndex := upTo, snapshotTerm := TermAt(upTo))
    }

    /** The follower's treatment of one received entry: skip what the snapshot
        already covers, keep an entry of the same term, otherwise cut and append. */
    function Accept(e: Entry): Log {
      if e.index <= snapshotIndex then this
      else if TermAt(e.index) == e.term && LastIndex() >= e.index then this
      else TruncateFrom(e.index).Append(e)
    }

    function AcceptAll(es: seq<Entry>): Log
      decreases |es|
    {
      if es == [] then this else Accept(es[0]).AcceptAll(es[1..])
    }
  }

  function EmptyLog(durable: bool): Log {
    Log([], 0, None, durable, 0, 0)
  }

  lemma {:induction false} AcceptAllStep(l: Log, es: seq<Entry>, k: nat)
    requires k < |es|
    ensures l.AcceptAll(es[..k + 1]) == l.AcceptAll(es[..k]).Accept(es[k])
    decreases k
  {
    var head := es[..k + 1];
    if k == 0 {
      assert head[1..] == [] && es[..0] == [];
    } else {
      var rest := es[1..];
      assert head[1..] == rest[..k] && es[..k][1..] == rest[..k - 1] && rest[k - 1] == es[k];
      AcceptAllStep(l.Accept(es[0]), rest, k - 1);
    }
  }
}
