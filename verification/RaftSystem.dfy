/** A whole Raft group: its nodes, every packet ever sent, and what the nodes
    have handed to their state machines.  A packet stays in the network after
    delivery, so a run may lose (never deliver), duplicate, delay and reorder. */
module RaftSystem {
  import opened Basics
  import opened RaftLogs
  import opened RaftNodes

  datatype Packet = Packet(src: nat, dst: nat, msg: Msg)

  /** Node `node` applied `command` as the one at `index`. */
  datatype Applied = Applied(node: nat, index: nat, command: Command)

  datatype Sys = Sys(nodes: map<nat, Node>, net: set<Packet>, drained: set<Applied>)

  datatype Action =
    | Timer(node: nat, fires: bool)
    | Deliver(packet: Packet)
    | ClientPropose(node: nat, command: Command)
    | Drain(node: nat)
    | Crash(node: nat)

  function Packets(src: nat, sends: seq<Send>): set<Packet> {
    set k | 0 <= k < |sends| :: Packet(src, sends[k].to, sends[k].msg)
  }

  function Put(s: Sys, i: nat, n: Node, sends: seq<Send>): Sys {
    s.(nodes := s.nodes[i := n], net := s.net + Packets(i, sends))
  }

  function AppliedBy(i: nat, cs: seq<(nat, Command)>): set<Applied> {
    set k | 0 <= k < |cs| :: Applied(i, cs[k].0, cs[k].1)
  }

  /** A packet can be handled when it was sent and both ends are members.
      Only a node with a durable log, which never folds, restarts. */
  ghost predicate Enabled(s: Sys, a: Action) {
    match a
    case Deliver(p) => p in s.net && p.dst in s.nodes && s.nodes[p.dst].Wf() && p.src in s.nodes[p.dst].peers
    case Crash(i) => i in s.nodes && s.nodes[i].Wf() && s.nodes[i].log.durable
    case _ => a.node in s.nodes && s.nodes[a.node].Wf()
  }

  /** One step; an action that is not enabled changes nothing. */
  ghost function Apply(s: Sys, a: Action): Sys {
    if !Enabled(s, a) then s
    else match a
      case Timer(i, fires) =>
        var (n, sends) := Tick(s.nodes[i], fires);
        Put(s, i, n, sends)
      case Deliver(p) =>
        var (n, sends) := Step(s.nodes[p.dst], p.src, p.msg);
        Put(s, p.dst, n, sends)
      case ClientPropose(i, command) =>
        var (n, index) := Propose(s.nodes[i], command);
        Put(s, i, n, [])
      case Drain(i) =>
        var (n, commands) := TakeCommitted(s.nodes[i]);
        Put(s, i, n, []).(drained := s.drained + AppliedBy(i, commands))
      case Crash(i) => Put(s, i, Restart(s.nodes[i]), [])
  }

  /** The state after all of `actions`, in order. */
  ghost function Run(s: Sys, actions: seq<Action>): Sys
    decreases |actions|
  {
    if actions == [] then s
    else Apply(Run(s, actions[..|actions| - 1]), actions[|actions| - 1])
  }

  /** A group that has just started: one node per peer, empty logs, no packets. */
  ghost predicate Initial(peers: seq<nat>, s: Sys) {
    && Distinct(peers)
    && peers != []
    && s.nodes.Keys == Members(peers)
    && (forall i :: i in s.nodes ==>
          exists durable :: s.nodes[i] == NewNode(i, peers, EmptyLog(durable)))
    && s.net == {}
    && s.drained == {}
  }
}
