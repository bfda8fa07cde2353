/** What the store holds, live and after a crash, in the fields of the mutations
    themselves (crates/persistence/src/lib.rs, crates/store/src/lib.rs). */
module StoreContents {
  import opened Basics
  import opened Bytes
  import opened Wal
  import opened Recovery
  import opened Persistence

  predicate OfEntry(m: Mutation, name: seq<Byte>, key: seq<Byte>) {
    !m.AuxState? && m.map_ == name && m.key == key
  }

  predicate OfState(m: Mutation, kind: Byte, name: seq<Byte>) {
    m.AuxState? && m.kind == kind && m.name == name
  }

  /** Mutation `q` is the last one of map entry (`name`, `key`). */
  ghost predicate LastOfEntry(h: seq<Mutation>, q: nat, name: seq<Byte>, key: seq<Byte>) {
    q < |h| && OfEntry(h[q], name, key) && forall i :: q < i < |h| ==> !OfEntry(h[i], name, key)
  }

  ghost predicate LastOfState(h: seq<Mutation>, q: nat, kind: Byte, name: seq<Byte>) {
    q < |h| && OfState(h[q], kind, name) && forall i :: q < i < |h| ==> !OfState(h[i], kind, name)
  }

  /** A map entry holds the bytes and stamp of its last put, nothing if its last
      mutation is a remove, and what it held at first if it has none. */
  lemma {:induction false} EntryHolds(b: Store, h: seq<Mutation>, name: seq<Byte>, key: seq<Byte>)
    ensures forall q: nat {:trigger LastOfEntry(h, q, name, key)} :: LastOfEntry(h, q, name, key) ==>
              Lookup(LiveAll(b, h), MapSlot(name, key)) ==
              if h[q].MapPut? then Some(Cell(h[q].value, h[q].stamp)) else None
    ensures (forall i :: 0 <= i < |h| ==> !OfEntry(h[i], name, key)) ==>
              Lookup(LiveAll(b, h), MapSlot(name, key)) == Lookup(b, MapSlot(name, key))
    decreases |h|
  {
    if h != [] {
      var n := |h| - 1;
      EntryHolds(b, h[..n], name, key);
      forall q: nat | LastOfEntry(h, q, name, key)
        ensures Lookup(LiveAll(b, h), MapSlot(name, key)) ==
                if h[q].MapPut? then Some(Cell(h[q].value, h[q].stamp)) else None
      {
        if q < n { assert LastOfEntry(h[..n], q, name, key); }
      }
    }
  }

  /** Another structure is in the state last installed for it. */
  lemma {:induction false} StateHolds(b: Store, h: seq<Mutation>, kind: Byte, name: seq<Byte>)
    ensures forall q: nat {:trigger LastOfState(h, q, kind, name)} :: LastOfState(h, q, kind, name) ==>
              Lookup(LiveAll(b, h), AuxSlot(kind, name)) == Some(Cell(h[q].state, 0))
    ensures (forall i :: 0 <= i < |h| ==> !OfState(h[i], kind, name)) ==>
              Lookup(LiveAll(b, h), AuxSlot(kind, name)) == Lookup(b, AuxSlot(kind, name))
    decreases |h|
  {
    if h != [] {
      var n := |h| - 1;
      StateHolds(b, h[..n], kind, name);
      forall q: nat | LastOfState(h, q, kind, name)
        ensures Lookup(LiveAll(b, h), AuxSlot(kind, name)) == Some(Cell(h[q].state, 0))
      {
        if q < n { assert LastOfState(h[..n], q, kind, name); }
      }
    }
  }

  // ---------- through a crash ----------

  /** The slot is the same after any number of mutations from `q` on. */
  ghost predicate Settled(b: Store, h: seq<Mutation>, q: nat, k: Slot, x: Option<Cell>) {
    forall n :: q <= n <= |h| ==> At(b, h, n, k) == x
  }

  /** A slot that settled within the surviving records comes back as it settled,
      wherever the log was cut and whenever the snapshot passed it. */
  lemma SettledComesBack(c: Codec, s: State, cut: nat, q: nat, k: Slot, x: Option<Cell>)
    requires Sound(c) && Inv(c, s) && cut <= |s.Current()|
    requires q <= Survivors(c, s, cut) && Settled(s.base, s.hist, q, k, x)
    ensures Lookup(Recovered(c, CutDisk(s, cut)), k) == x
  {
    var from, root, n := From(s), Root(c, s), Survivors(c, s, cut);
    RecoveredIs(c, s, cut, from, root, n);
    assert CapturedIn(s.base, root, s.hist, s.low[from], s.reach, k);
    var t :| s.low[from] <= t <= s.reach && Lookup(root, k) == At(s.base, s.hist, t, k);
    ReplaySlot(s.base, root, s.hist, s.low[from], t, n, k);
  }

  lemma EntrySettles(b: Store, h: seq<Mutation>, name: seq<Byte>, key: seq<Byte>, q: nat)
    requires LastOfEntry(h, q, name, key)
    ensures Settled(b, h, q + 1, MapSlot(name, key),
                    if h[q].MapPut? then Some(Cell(h[q].value, h[q].stamp)) else None)
  {
    forall n | q + 1 <= n <= |h|
      ensures At(b, h, n, MapSlot(name, key)) ==
              if h[q].MapPut? then Some(Cell(h[q].value, h[q].stamp)) else None
    {
      EntryHolds(b, h[..n], name, key);
      assert LastOfEntry(h[..n], q, name, key);
    }
  }

  lemma StateSettles(b: Store, h: seq<Mutation>, kind: Byte, name: seq<Byte>, q: nat)
    requires LastOfState(h, q, kind, name)
    ensures Settled(b, h, q + 1, AuxSlot(kind, name), Some(Cell(h[q].state, 0)))
  {
    forall n | q + 1 <= n <= |h| ensures At(b, h, n, AuxSlot(kind, name)) == Some(Cell(h[q].state, 0)) {
      StateHolds(b, h[..n], kind, name);
      assert LastOfState(h[..n], q, kind, name);
    }
  }

  lemma UntouchedSettles(b: Store, h: seq<Mutation>, name: seq<Byte>, key: seq<Byte>)
    requires forall i :: 0 <= i < |h| ==> !OfEntry(h[i], name, key)
    ensures Settled(b, h, 0, MapSlot(name, key), Lookup(b, MapSlot(name, key)))
  {
    forall n | 0 <= n <= |h| ensures At(b, h, n, MapSlot(name, key)) == Lookup(b, MapSlot(name, key)) {
      EntryHolds(b, h[..n], name, key);
    }
  }

  /** At every point of every run and for every cut a crash may make: a map entry
      whose last mutation is synced comes back with the bytes and stamp that put
      carried, or is gone if it was removed, as in the live store. */
  lemma SyncedEntryComesBack(
    crc: Crc, states: seq<State>, actions: seq<Action>, i: nat, cut: nat, name: seq<Byte>, key: seq<Byte>, q: nat)
    requires Run(WalCodec(crc), states, actions) && i < |states|
    requires states[i].synced <= cut <= |states[i].Current()|
    requires states[i].gen < |states[i].low| && LastOfEntry(states[i].hist, q, name, key)
    requires q < Survivors(WalCodec(crc), states[i], states[i].synced)
    ensures var m := states[i].hist[q];
            var x := if m.MapPut? then Some(Cell(m.value, m.stamp)) else None;
            && Lookup(states[i].live, MapSlot(name, key)) == x
            && Lookup(Recovered(WalCodec(crc), CutDisk(states[i], cut)), MapSlot(name, key)) == x
  {
    var s, c, m := states[i], WalCodec(crc), states[i].hist[q];
    EveryCrashRecovers(crc, states, actions, i, cut);
    WalIsSound(crc);
    RunKeeps(c, states, actions, i);
    EntryHolds(s.base, s.hist, name, key);
    EntrySettles(s.base, s.hist, name, key, q);
    SettledComesBack(c, s, cut, q + 1, MapSlot(name, key), if m.MapPut? then Some(Cell(m.value, m.stamp)) else None);
  }

  /** An entry not touched since the last restart is as that restart found it. */
  lemma UntouchedComesBack(
    crc: Crc, states: seq<State>, actions: seq<Action>, i: nat, cut: nat, name: seq<Byte>, key: seq<Byte>)
    requires Run(WalCodec(crc), states, actions) && i < |states|
    requires states[i].synced <= cut <= |states[i].Current()|
    requires forall j :: 0 <= j < |states[i].hist| ==> !OfEntry(states[i].hist[j], name, key)
    ensures var k := MapSlot(name, key);
            Lookup(Recovered(WalCodec(crc), CutDisk(states[i], cut)), k) == Lookup(states[i].base, k)
  {
    var s, c := states[i], WalCodec(crc);
    WalIsSound(crc);
    RunKeeps(c, states, actions, i);
    UntouchedSettles(s.base, s.hist, name, key);
    SettledComesBack(c, s, cut, 0, MapSlot(name, key), Lookup(s.base, MapSlot(name, key)));
  }

  /** The same of a structure whose last installed state is synced. */
  lemma SyncedStateComesBack(
    crc: Crc, states: seq<State>, actions: seq<Action>, i: nat, cut: nat, kind: Byte, name: seq<Byte>, q: nat)
    requires Run(WalCodec(crc), states, actions) && i < |states|
    requires states[i].synced <= cut <= |states[i].Current()|
    requires states[i].gen < |states[i].low| && LastOfState(states[i].hist, q, kind, name)
    requires q < Survivors(WalCodec(crc), states[i], states[i].synced)
    ensures Lookup(Recovered(WalCodec(crc), CutDisk(states[i], cut)), AuxSlot(kind, name)) ==
            Some(Cell(states[i].hist[q].state, 0))
  {
    var s, c := states[i], WalCodec(crc);
    EveryCrashRecovers(crc, states, actions, i, cut);
    WalIsSound(crc);
    RunKeeps(c, states, actions, i);
    StateSettles(s.base, s.hist, kind, name, q);
    SettledComesBack(c, s, cut, q + 1, AuxSlot(kind, name), Some(Cell(s.hist[q].state, 0)));
  }
}
