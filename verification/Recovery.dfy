/** Recovery of the store from a snapshot and the log after it
    (crates/persistence/src/lib.rs, recover).  Expiry is not modelled. */
module Recovery {
  import opened Basics
  import opened Bytes
  import opened Wal

  /** A place in the store: a map entry, or the whole state of another structure. */
  datatype Slot = MapSlot(map_: seq<Byte>, key: seq<Byte>) | AuxSlot(kind: Byte, name: seq<Byte>)

  datatype Cell = Cell(bytes: seq<Byte>, stamp: nat)

  type Store = map<Slot, Cell>

  function SlotOf(m: Mutation): Slot {
    match m
    case MapPut(_, _, name, key, _) => MapSlot(name, key)
    case MapRemove(_, name, key) => MapSlot(name, key)
    case AuxState(kind, name, _) => AuxSlot(kind, name)
  }

  function CellOf(m: Mutation): Cell
    requires !m.MapRemove?
  {
    match m
    case MapPut(stamp, _, _, _, value) => Cell(value, stamp)
    case AuxState(_, _, state) => Cell(state, 0)
  }

  /** The live store taking a mutation. */
  function Live(s: Store, m: Mutation): Store {
    if m.MapRemove? then s - {SlotOf(m)} else s[SlotOf(m) := CellOf(m)]
  }

  /** Replay of a record: a put merges by stamp, a remove and an installed state
      are unconditional. */
  function Replay(s: Store, m: Mutation): Store {
    if m.MapPut? && SlotOf(m) in s && m.stamp <= s[SlotOf(m)].stamp then s else Live(s, m)
  }

  /** The live store after mutations `ms`, starting from `b`. */
  function LiveAll(b: Store, ms: seq<Mutation>): Store
    decreases |ms|
  {
    if ms == [] then b else Live(LiveAll(b, ms[..|ms| - 1]), ms[|ms| - 1])
  }

  lemma {:induction false} LiveAllConcat(b: Store, x: seq<Mutation>, y: seq<Mutation>)
    ensures LiveAll(b, x + y) == LiveAll(LiveAll(b, x), y)
    decreases |y|
  {
    if y == [] {
      assert x + y == x;
    } else {
      LiveAllConcat(b, x, y[..|y| - 1]);
      assert (x + y)[..|x + y| - 1] == x + y[..|y| - 1];
    }
  }

  function ReplayAll(s: Store, ms: seq<Mutation>): Store
    decreases |ms|
  {
    if ms == [] then s else Replay(ReplayAll(s, ms[..|ms| - 1]), ms[|ms| - 1])
  }

  lemma {:induction false} ReplayAllConcat(s: Store, a: seq<Mutation>, b: seq<Mutation>)
    ensures ReplayAll(s, a + b) == ReplayAll(ReplayAll(s, a), b)
    decreases |b|
  {
    if b == [] {
      assert a + b == a;
    } else {
      ReplayAllConcat(s, a, b[..|b| - 1]);
      assert (a + b)[..|a + b| - 1] == a + b[..|b| - 1];
    }
  }

  function Lookup(s: Store, k: Slot): Option<Cell> {
    if k in s then Some(s[k]) else None
  }

  /** What slot `k` holds after the first `n` mutations. */
  function At(b: Store, h: seq<Mutation>, n: nat, k: Slot): Option<Cell>
    requires n <= |h|
  {
    Lookup(LiveAll(b, h[..n]), k)
  }

  /** What slot `k` holds when mutations `r` up to `n` are replayed on `s`. */
  function Redone(s: Store, h: seq<Mutation>, r: nat, n: nat, k: Slot): Option<Cell>
    requires r <= n <= |h|
  {
    Lookup(ReplayAll(s, h[r..n]), k)
  }

  lemma AtNext(b: Store, h: seq<Mutation>, n: nat, k: Slot)
    requires n < |h|
    ensures At(b, h, n + 1, k) ==
            if SlotOf(h[n]) != k then At(b, h, n, k)
            else if h[n].MapRemove? then None
            else Some(CellOf(h[n]))
  {
    assert h[..n + 1][..n] == h[..n];
  }

  lemma AtFirst(b: Store, h: seq<Mutation>, k: Slot)
    ensures At(b, h, 0, k) == Lookup(b, k)
  {
    assert h[..0] == [];
  }

  lemma RedoneNext(s: Store, h: seq<Mutation>, r: nat, n: nat, k: Slot)
    requires r <= n < |h|
    ensures var x := Redone(s, h, r, n, k);
            Redone(s, h, r, n + 1, k) ==
            if SlotOf(h[n]) != k then x
            else if h[n].MapRemove? then None
            else if h[n].MapPut? && x.Some? && h[n].stamp <= x.value.stamp then x
            else Some(CellOf(h[n]))
  {
    assert h[r..n + 1][..n - r] == h[r..n];
  }

  lemma RedoneNone(s: Store, h: seq<Mutation>, r: nat, k: Slot)
    requires r <= |h|
    ensures Redone(s, h, r, r, k) == Lookup(s, k)
  {
    assert h[r..r] == [];
  }

  predicate PutsTo(m: Mutation, k: Slot) {
    m.MapPut? && SlotOf(m) == k
  }

  predicate Wipes(m: Mutation, k: Slot) {
    !m.MapPut? && SlotOf(m) == k
  }

  /** Puts to one entry carry increasing stamps, all above the one in `b`. */
  ghost predicate Ordered(b: Store, h: seq<Mutation>) {
    && (forall i, j, k {:trigger PutsTo(h[i], k), PutsTo(h[j], k)} ::
          0 <= i < j < |h| && PutsTo(h[i], k) && PutsTo(h[j], k) ==> h[i].stamp < h[j].stamp)
    && (forall j, k {:trigger PutsTo(h[j], k)} ::
          0 <= j < |h| && PutsTo(h[j], k) && k in b ==> b[k].stamp < h[j].stamp)
  }

  /** A map entry's stamp lies between its puts so far and its puts to come. */
  ghost predicate Newest(h: seq<Mutation>, n: nat, k: Slot, c: Cell)
    requires n <= |h|
  {
    && (forall j :: 0 <= j < n && PutsTo(h[j], k) ==> h[j].stamp <= c.stamp)
    && (forall j :: n <= j < |h| && PutsTo(h[j], k) ==> c.stamp < h[j].stamp)
  }

  lemma {:induction false} AtIsNewest(b: Store, h: seq<Mutation>, n: nat, k: Slot)
    requires n <= |h| && Ordered(b, h) && k.MapSlot? && At(b, h, n, k).Some?
    ensures Newest(h, n, k, At(b, h, n, k).value)
  {
    if n == 0 {
      AtFirst(b, h, k);
    } else {
      AtNext(b, h, n - 1, k);
      if SlotOf(h[n - 1]) == k {
        assert PutsTo(h[n - 1], k);
      } else {
        AtIsNewest(b, h, n - 1, k);
        assert !PutsTo(h[n - 1], k);
      }
    }
  }

  ghost predicate WipedIn(h: seq<Mutation>, r: nat, n: nat, k: Slot)
    requires n <= |h|
  {
    exists i :: r <= i < n && Wipes(h[i], k)
  }

  ghost predicate PutIn(h: seq<Mutation>, r: nat, n: nat, k: Slot)
    requires n <= |h|
  {
    exists i :: r <= i < n && PutsTo(h[i], k)
  }

  /** What replaying up to `n` leaves in slot `k`, when the snapshot captured the
      slot after `t` mutations: the value after `n` or the captured value. */
  ghost function Outcome(b: Store, h: seq<Mutation>, r: nat, t: nat, n: nat, k: Slot): Option<Cell>
    requires r <= t <= |h| && r <= n <= |h|
  {
    if WipedIn(h, r, n, k) || t <= n || (At(b, h, t, k).None? && PutIn(h, r, n, k)) then At(b, h, n, k)
    else At(b, h, t, k)
  }

  lemma InGrows(h: seq<Mutation>, r: nat, n: nat, k: Slot)
    requires r <= n < |h|
    ensures WipedIn(h, r, n + 1, k) <==> WipedIn(h, r, n, k) || Wipes(h[n], k)
    ensures PutIn(h, r, n + 1, k) <==> PutIn(h, r, n, k) || PutsTo(h[n], k)
  {
    if WipedIn(h, r, n, k) { var i :| r <= i < n && Wipes(h[i], k); assert r <= i < n + 1 && Wipes(h[i], k); }
    if PutIn(h, r, n, k) { var i :| r <= i < n && PutsTo(h[i], k); assert r <= i < n + 1 && PutsTo(h[i], k); }
  }

  /** The next put outranks what the slot holds. */
  lemma NextPutWins(b: Store, h: seq<Mutation>, n: nat, k: Slot)
    requires n < |h| && Ordered(b, h) && PutsTo(h[n], k) && At(b, h, n, k).Some?
    ensures At(b, h, n, k).value.stamp < h[n].stamp
  {
    AtIsNewest(b, h, n, k);
  }

  /** A put the snapshot already saw changes nothing. */
  lemma SeenPutLoses(b: Store, h: seq<Mutation>, n: nat, t: nat, k: Slot)
    requires n < t <= |h| && Ordered(b, h) && PutsTo(h[n], k) && At(b, h, t, k).Some?
    ensures h[n].stamp <= At(b, h, t, k).value.stamp
  {
    AtIsNewest(b, h, t, k);
  }

  lemma {:induction false} ReplaySlot(b: Store, s: Store, h: seq<Mutation>, r: nat, t: nat, n: nat, k: Slot)
    requires r <= t <= |h| && r <= n <= |h| && Ordered(b, h)
    requires Lookup(s, k) == At(b, h, t, k)
    ensures Redone(s, h, r, n, k) == Outcome(b, h, r, t, n, k)
    decreases n - r
  {
    if n == r {
      RedoneNone(s, h, r, k);
    } else {
      var p := n - 1;
      ReplaySlot(b, s, h, r, t, p, k);
      RedoneNext(s, h, r, p, k);
      AtNext(b, h, p, k);
      InGrows(h, r, p, k);
      if PutsTo(h[p], k) {
        if At(b, h, p, k).Some? { NextPutWins(b, h, p, k); }
        if p < t && At(b, h, t, k).Some? { SeenPutLoses(b, h, p, t, k); }
      } else {
        assert Wipes(h[p], k) <==> SlotOf(h[p]) == k;
      }
    }
  }

  /** A snapshot taken while the store changes: each slot as it was at some moment
      of its own between `r` and `e` mutations. */
  ghost predicate Fuzzy(b: Store, s: Store, h: seq<Mutation>, r: nat, e: nat)
    requires r <= e <= |h|
  {
    forall k :: CapturedIn(b, s, h, r, e, k)
  }

  /** Slot `k` was captured somewhere between `r` and `e` mutations. */
  ghost predicate CapturedIn(b: Store, s: Store, h: seq<Mutation>, r: nat, e: nat, k: Slot)
    requires r <= e <= |h|
  {
    exists t :: r <= t <= e && Lookup(s, k) == At(b, h, t, k)
  }

  lemma SameStore(a: Store, b: Store)
    requires forall k :: Lookup(a, k) == Lookup(b, k)
    ensures a == b
  {
    forall k ensures k in a <==> k in b {
      assert Lookup(a, k) == Lookup(b, k);
    }
    forall k | k in a ensures a[k] == b[k] {
      assert Lookup(a, k) == Lookup(b, k);
    }
  }

  /** A snapshot whose slots were captured at different moments between `r` and
      `e`, replayed from `r` to any `n` not before `e`, is the store after `n`. */
  lemma FuzzyReplay(b: Store, s: Store, h: seq<Mutation>, r: nat, e: nat, n: nat)
    requires r <= e <= n <= |h| && Ordered(b, h) && Fuzzy(b, s, h, r, e)
    ensures ReplayAll(s, h[r..n]) == LiveAll(b, h[..n])
  {
    forall k ensures Lookup(ReplayAll(s, h[r..n]), k) == Lookup(LiveAll(b, h[..n]), k) {
      assert CapturedIn(b, s, h, r, e, k);
      var t :| r <= t <= e && Lookup(s, k) == At(b, h, t, k);
      ReplaySlot(b, s, h, r, t, n, k);
      assert Redone(s, h, r, n, k) == At(b, h, n, k);
    }
    SameStore(ReplayAll(s, h[r..n]), LiveAll(b, h[..n]));
  }

  /** Wherever the log was cut, each slot comes back as it was after the last
      surviving record or as the snapshot captured it. */
  lemma NothingElse(b: Store, s: Store, h: seq<Mutation>, r: nat, t: nat, n: nat, k: Slot)
    requires r <= t <= |h| && r <= n <= |h| && Ordered(b, h)
    requires Lookup(s, k) == At(b, h, t, k)
    ensures Redone(s, h, r, n, k) == At(b, h, n, k) || Redone(s, h, r, n, k) == At(b, h, t, k)
  {
    ReplaySlot(b, s, h, r, t, n, k);
  }

  /** Exactly when a slot comes back as it was after the last surviving record. */
  lemma RecoversIff(b: Store, s: Store, h: seq<Mutation>, r: nat, t: nat, n: nat, k: Slot)
    requires r <= t <= |h| && r <= n <= |h| && Ordered(b, h)
    requires Lookup(s, k) == At(b, h, t, k)
    ensures Redone(s, h, r, n, k) == At(b, h, n, k) <==>
            || At(b, h, t, k) == At(b, h, n, k)
            || t <= n
            || WipedIn(h, r, n, k)
            || (At(b, h, t, k).None? && PutIn(h, r, n, k))
  {
    ReplaySlot(b, s, h, r, t, n, k);
  }

  const A := MapSlot([], [0])
  const B := MapSlot([], [1])
  const EMPTY: Store := map[]

  /** `e` mutations of which only number `n` touches slot `B`, with a put. */
  function OnePut(n: nat, e: nat): (h: seq<Mutation>)
    ensures |h| == e
  {
    seq(e, i => if i == n then MapPut(0, 0, B.map_, B.key, []) else MapRemove(0, A.map_, A.key))
  }

  lemma {:induction false} OnePutAt(n: nat, e: nat, i: nat)
    requires n < e && i <= e
    ensures At(EMPTY, OnePut(n, e), i, B).Some? <==> n < i
  {
    var h := OnePut(n, e);
    if i == 0 {
      AtFirst(EMPTY, h, B);
    } else {
      OnePutAt(n, e, i - 1);
      AtNext(EMPTY, h, i - 1, B);
    }
  }

  /** The bound in `FuzzyReplay` is exact: for every cut before the end of the
      capture there is a history whose recovery is not the store at the cut. */
  lemma ReachIsNeeded(r: nat, n: nat, e: nat) returns (h: seq<Mutation>, s: Store)
    requires r <= n < e
    ensures |h| == e && Ordered(EMPTY, h) && Fuzzy(EMPTY, s, h, r, e)
    ensures ReplayAll(s, h[r..n]) != LiveAll(EMPTY, h[..n])
  {
    h := OnePut(n, e);
    s := LiveAll(EMPTY, h[..e]);
    forall k ensures CapturedIn(EMPTY, s, h, r, e, k) {
      assert Lookup(s, k) == At(EMPTY, h, e, k);
    }
    OnePutAt(n, e, n);
    OnePutAt(n, e, e);
    RecoversIff(EMPTY, s, h, r, e, n, B);
    assert Redone(s, h, r, n, B) != At(EMPTY, h, n, B);
  }
}
