/** The stream join (crates/jet/src/join.rs): two buffers by key, an output for
    each buffered record of the other side, eviction by watermark. */
module JoinModel {
  import opened Bytes

  type Key = seq<Byte>

  /** Retention at which nothing is ever evicted. */
  const FOREVER: int := 0x7fff_ffff_ffff_ffff

  datatype Side = Left | Right

  datatype Record = Record(side: Side, ts: int, key: Key, payload: seq<Byte>)

  datatype Item = Data(r: Record) | Junk | Watermark(w: int) | Done

  datatype Output = Joined(key: Key, left: seq<Byte>, right: seq<Byte>) | Passed(w: int) | Finished

  datatype Entry = Entry(ts: int, payload: seq<Byte>)

  type Buffer = map<Key, seq<Entry>>

  datatype Buffers = Buffers(left: Buffer, right: Buffer) {
    function Of(side: Side): Buffer {
      if side.Left? then left else right
    }

    function With(side: Side, b: Buffer): Buffers {
      if side.Left? then this.(left := b) else this.(right := b)
    }
  }

  const EMPTY := Buffers(map[], map[])

  function Opposite(side: Side): Side {
    if side.Left? then Right else Left
  }

  function Held(b: Buffer, k: Key): seq<Entry> {
    if k in b then b[k] else []
  }

  /** The output for a record `r` meeting a buffered payload of the other side. */
  function Meet(r: Record, other: seq<Byte>): Output {
    if r.side.Left? then Joined(r.key, r.payload, other) else Joined(r.key, other, r.payload)
  }

  function Meetings(r: Record, others: seq<Entry>): (out: seq<Output>)
    ensures |out| == |others|
    ensures forall i :: 0 <= i < |others| ==> out[i] == Meet(r, others[i].payload)
  {
    seq(|others|, i requires 0 <= i < |others| => Meet(r, others[i].payload))
  }

  function Fresh(list: seq<Entry>, cutoff: int): seq<Entry> {
    if list == [] then []
    else
      var front, last := Fresh(list[..|list| - 1], cutoff), list[|list| - 1];
      if last.ts >= cutoff then front + [last] else front
  }

  function Evict(b: Buffer, cutoff: int): Buffer {
    map k | k in b && Fresh(b[k], cutoff) != [] :: Fresh(b[k], cutoff)
  }

  function Step(retention: int, b: Buffers, item: Item): (Buffers, seq<Output>) {
    match item
    case Data(r) =>
      (b.With(r.side, b.Of(r.side)[r.key := Held(b.Of(r.side), r.key) + [Entry(r.ts, r.payload)]]),
       Meetings(r, Held(b.Of(Opposite(r.side)), r.key)))
    case Junk => (b, [])
    case Watermark(w) =>
      (if retention == FOREVER then b else Buffers(Evict(b.left, w - retention), Evict(b.right, w - retention)),
       [Passed(w)])
    case Done => (b, [Finished])
  }

  /** Buffers and output after the first `n` items, starting with `b`. */
  function Run(retention: int, b: Buffers, items: seq<Item>, n: nat): (Buffers, seq<Output>)
    requires n <= |items|
  {
    if n == 0 then (b, [])
    else
      var before := Run(retention, b, items, n - 1);
      var step := Step(retention, before.0, items[n - 1]);
      (step.0, before.1 + step.1)
  }

  // ---------- the batch definition ----------

  predicate Evicts(retention: int, item: Item, ts: int) {
    item.Watermark? && retention != FOREVER && ts < item.w - retention
  }

  /** Nothing between the arrival of record `i` and item `n` evicts it. */
  predicate Alive(retention: int, items: seq<Item>, i: nat, n: nat)
    requires i < n <= |items| && items[i].Data?
  {
    forall m :: i < m < n ==> !Evicts(retention, items[m], items[i].r.ts)
  }

  predicate Matching(retention: int, items: seq<Item>, i: nat, n: nat, side: Side, k: Key)
    requires i < n <= |items|
  {
    items[i].Data? && items[i].r.side == side && items[i].r.key == k && Alive(retention, items, i, n)
  }

  /** Records `i` and `j`, in order of arrival, join: opposite sides, equal keys,
      and `i` is not evicted before `j` arrives. */
  predicate Meets(retention: int, items: seq<Item>, i: nat, j: nat)
    requires i < j < |items|
  {
    items[j].Data? && Matching(retention, items, i, j, Opposite(items[j].r.side), items[j].r.key)
  }

  /** Indices below `lim` of the records of one side and key alive at `n`. */
  function Select(retention: int, items: seq<Item>, lim: nat, n: nat, side: Side, k: Key): seq<nat>
    requires lim <= n <= |items|
  {
    if lim == 0 then []
    else
      var front := Select(retention, items, lim - 1, n, side, k);
      if Matching(retention, items, lim - 1, n, side, k) then front + [lim - 1] else front
  }

  /** The partners of item `j`, in order of arrival. */
  function Partners(retention: int, items: seq<Item>, j: nat): seq<nat>
    requires j < |items|
  {
    if items[j].Data? then Select(retention, items, j, j, Opposite(items[j].r.side), items[j].r.key) else []
  }

  function PairsWith(q: seq<nat>, j: nat): (ps: seq<(nat, nat)>)
    ensures |ps| == |q|
    ensures forall x :: 0 <= x < |q| ==> ps[x] == (q[x], j)
  {
    seq(|q|, x requires 0 <= x < |q| => (q[x], j))
  }

  /** All joining pairs among the first `n` items, by arrival of the later record
      and then of the earlier one. */
  function Pairs(retention: int, items: seq<Item>, n: nat): seq<(nat, nat)>
    requires n <= |items|
  {
    if n == 0 then []
    else Pairs(retention, items, n - 1) + PairsWith(Partners(retention, items, n - 1), n - 1)
  }
}
