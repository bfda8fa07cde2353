/** The member's side of a CP group as the object it is: the state machine and the
    table of waiting clients (crates/raft/src/cp.rs). */
module CpGroups {
  import opened Basics
  import opened RaftLogs
  import opened CpModel
  import CC = CpConvergence
  import opened CpClients
  import opened CpObjects

  class CpGroup {
    const sm: CpSm
    var pending: map<nat, nat>

    constructor ()
      ensures sm.View() == FRESH && pending == map[]
      ensures fresh(sm) && fresh(sm.fencedLock) && fresh(sm.sessions)
    {
      sm := new CpSm();
      pending := map[];
    }

    /** File a client under the index its proposal was answered with. */
    method Await(client: nat, answer: Option<nat>)
      modifies this
      ensures pending == if answer.Some? then old(pending)[answer.value := client] else old(pending)
    {
      if answer.Some? {
        pending := pending[answer.value := client];
      }
    }

    /** Apply one command and answer the client waiting for it, if any. */
    method ApplyOne(index: nat, command: Command, decode: Command -> Op) returns (answer: seq<(nat, Reply)>)
      modifies this, sm.fencedLock, sm.sessions
      ensures sm.View() == Apply(old(sm.View()), decode(command)).0 && pending == old(pending) - {index}
      ensures answer == One(old(sm.View()), index, command, old(pending), decode)
    {
      var reply := sm.Apply(decode(command));
      answer := if index in pending then [(pending[index], reply)] else [];
      pending := pending - {index};
    }

    /** Apply drained commands and answer the clients waiting for them. */
    method ApplyCommitted(commands: seq<(nat, Command)>, decode: Command -> Op) returns (answers: seq<(nat, Reply)>)
      modifies this, sm.fencedLock, sm.sessions
      ensures answers == Answers(old(sm.View()), commands, old(pending), decode)
      ensures sm.View() == CC.Feed(old(sm.View()), commands, decode)
      ensures pending == old(pending) - Indices(commands)
    {
      answers := [];
      for k := 0 to |commands|
        invariant sm.View() == CC.Feed(old(sm.View()), commands[..k], decode)
        invariant pending == old(pending) - Indices(commands[..k])
        invariant answers + Answers(sm.View(), commands[k..], pending, decode)
                  == Answers(old(sm.View()), commands, old(pending), decode)
      {
        assert commands[..k + 1][..k] == commands[..k];
        OneLess(commands, k, old(pending));
        AnswersSplit(sm.View(), commands, k, pending, decode);
        var answer := ApplyOne(commands[k].0, commands[k].1, decode);
        answers := answers + answer;
      }
      assert commands[..|commands|] == commands;
    }
  }

  function One(cp: Cp, index: nat, command: Command, pending: map<nat, nat>, decode: Command -> Op): seq<(nat, Reply)> {
    if index in pending then [(pending[index], Apply(cp, decode(command)).1)] else []
  }

  lemma AnswersSplit(cp: Cp, commands: seq<(nat, Command)>, k: nat, pending: map<nat, nat>, decode: Command -> Op)
    requires k < |commands|
    ensures var (i, command) := commands[k];
            Answers(cp, commands[k..], pending, decode) ==
            One(cp, i, command, pending, decode) +
            Answers(Apply(cp, decode(command)).0, commands[k + 1..], pending - {i}, decode)
  {
    assert commands[k..][1..] == commands[k + 1..];
  }

  lemma OneLess(commands: seq<(nat, Command)>, k: nat, pending: map<nat, nat>)
    requires k < |commands|
    ensures pending - Indices(commands[..k + 1]) == pending - Indices(commands[..k]) - {commands[k].0}
  {
    assert Indices(commands[..k + 1]) == Indices(commands[..k]) + {commands[k].0} by {
      var a, b := commands[..k + 1], commands[..k];
      forall i | i in Indices(a) ensures i in Indices(b) + {commands[k].0} {
        var j :| 0 <= j < |a| && a[j].0 == i;
        assert j < k ==> b[j].0 == i;
      }
      forall i | i in Indices(b) ensures i in Indices(a) {
        var j :| 0 <= j < |b| && b[j].0 == i;
        assert a[j].0 == i;
      }
      assert a[k].0 == commands[k].0;
    }
  }
}
