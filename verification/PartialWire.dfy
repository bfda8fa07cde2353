/** Partials on the wire (crates/query/src/distributed.rs, encode_partial and
    decode_partial), and the whole scatter and gather.  Floats travel as eight
    bytes by any encoding; a float that comes back from it fits. */
module PartialWire {
  import opened Bytes
  import opened Aggregation

  datatype Parsed<+T> = Fail | Got(value: T, rest: seq<Byte>)

  datatype FloatBits = FloatBits(write: real -> seq<Byte>, read: seq<Byte> -> real)

  // ---------- counted lists ----------

  function WriteMany<T(!new)>(write: T -> seq<Byte>, xs: seq<T>): seq<Byte> {
    if xs == [] then [] else write(xs[0]) + WriteMany(write, xs[1..])
  }

  function ReadMany<T(!new)>(read: seq<Byte> -> Parsed<T>, n: nat, b: seq<Byte>): Parsed<seq<T>>
    decreases n
  {
    if n == 0 then Parsed.Got([], b)
    else match read(b)
      case Fail => Fail
      case Got(x, rest) =>
        match ReadMany(read, n - 1, rest)
        case Fail => Fail
        case Got(xs, last) => Parsed.Got([x] + xs, last)
  }

  /** Reading what was written gives it back, whatever follows. */
  ghost predicate Carries<T(!new)>(write: T -> seq<Byte>, read: seq<Byte> -> Parsed<T>, x: T) {
    forall rest :: read(write(x) + rest) == Parsed.Got(x, rest)
  }

  lemma {:induction false} ManyRoundTrip<T(!new)>(
    write: T -> seq<Byte>, read: seq<Byte> -> Parsed<T>, xs: seq<T>, rest: seq<Byte>)
    requires forall i :: 0 <= i < |xs| ==> Carries(write, read, xs[i])
    ensures ReadMany(read, |xs|, WriteMany(write, xs) + rest) == Parsed.Got(xs, rest)
    decreases |xs|
  {
    if xs == [] {
      assert WriteMany(write, xs) + rest == rest;
    } else {
      ManyRoundTrip(write, read, xs[1..], rest);
      assert Carries(write, read, xs[0]);
      assert WriteMany(write, xs) + rest == write(xs[0]) + (WriteMany(write, xs[1..]) + rest);
      assert [xs[0]] + xs[1..] == xs;
    }
  }

  function WriteList<T(!new)>(write: T -> seq<Byte>, xs: seq<T>): seq<Byte> {
    Le(|xs|, 4) + WriteMany(write, xs)
  }

  function ReadList<T(!new)>(read: seq<Byte> -> Parsed<T>, b: seq<Byte>): Parsed<seq<T>> {
    if |b| < 4 then Fail else ReadMany(read, FromLe(b[..4]), b[4..])
  }

  lemma ListRoundTrip<T(!new)>(write: T -> seq<Byte>, read: seq<Byte> -> Parsed<T>, xs: seq<T>, rest: seq<Byte>)
    requires |xs| < U32 && forall i :: 0 <= i < |xs| ==> Carries(write, read, xs[i])
    ensures ReadList(read, WriteList(write, xs) + rest) == Parsed.Got(xs, rest)
  {
    var b := WriteList(write, xs) + rest;
    Le32(|xs|);
    assert b[..4] == Le(|xs|, 4);
    assert b[4..] == WriteMany(write, xs) + rest;
    ManyRoundTrip(write, read, xs, rest);
  }

  // ---------- cells ----------

  function WriteCell(c: Cell): seq<Byte> {
    if c.NoText? then [0] else [1] + Prefixed(c.s)
  }

  function ReadCell(b: seq<Byte>): Parsed<Cell> {
    if b == [] then Fail
    else if b[0] == 0 then Parsed.Got(NoText, b[1..])
    else match ReadPrefixed(b, 1)
      case Short => Fail
      case Got(s, next) => Parsed.Got(Text(s), b[next..])
  }

  predicate CellFits(c: Cell) {
    c.Text? ==> |c.s| < U32
  }

  lemma CellRoundTrip(c: Cell)
    requires CellFits(c)
    ensures Carries(WriteCell, ReadCell, c)
  {
    forall rest ensures ReadCell(WriteCell(c) + rest) == Parsed.Got(c, rest) {
      var b := WriteCell(c) + rest;
      if c.NoText? {
        assert b[1..] == rest;
      } else {
        assert b == [1] + Prefixed(c.s) + rest;
        ReadsPrefixed(b, [1], c.s, rest);
        assert b[5 + |c.s|..] == rest;
      }
    }
  }

  // ---------- accumulators ----------

  const SIGN: int := 0x8000_0000_0000_0000

  function WriteI64(x: int): seq<Byte> {
    Le(x % U64, 8)
  }

  function SignedOf(u: nat): int {
    if u < SIGN then u else u - U64
  }

  lemma SignedRoundTrip(x: int)
    requires -SIGN <= x < SIGN
    ensures |WriteI64(x)| == 8 && SignedOf(FromLe(WriteI64(x))) == x
  {
    Le64(x % U64);
    if x >= 0 { assert x % U64 == x; } else { assert x % U64 == x + U64; }
  }

  function WriteAcc(f: FloatBits, a: Acc): seq<Byte> {
    WriteI64(a.rows) + f.write(a.sum) + WriteI64(a.nvals) + f.write(a.min) + f.write(a.max) + [if a.seen then 1 else 0]
  }

  function ReadAcc(f: FloatBits, b: seq<Byte>): Parsed<Acc> {
    if |b| < 41 then Fail
    else
      Parsed.Got(Acc(SignedOf(FromLe(b[0..8])), f.read(b[8..16]), SignedOf(FromLe(b[16..24])),
                     f.read(b[24..32]), f.read(b[32..40]), b[40] != 0),
                 b[41..])
  }

  predicate FloatFits(f: FloatBits, x: real) {
    |f.write(x)| == 8 && f.read(f.write(x)) == x
  }

  predicate AccFits(f: FloatBits, a: Acc) {
    && -SIGN <= a.rows < SIGN && -SIGN <= a.nvals < SIGN
    && FloatFits(f, a.sum) && FloatFits(f, a.min) && FloatFits(f, a.max)
  }

  lemma Fields(r: seq<Byte>, s: seq<Byte>, n: seq<Byte>, lo: seq<Byte>, hi: seq<Byte>, t: Byte, rest: seq<Byte>)
    requires |r| == 8 && |s| == 8 && |n| == 8 && |lo| == 8 && |hi| == 8
    ensures var b := r + s + n + lo + hi + [t] + rest;
            && |b| >= 41
            && b[0..8] == r && b[8..16] == s && b[16..24] == n && b[24..32] == lo && b[32..40] == hi
            && b[40] == t && b[41..] == rest
  {
  }

  lemma AccRoundTrip(f: FloatBits, a: Acc)
    requires AccFits(f, a)
    ensures Carries(x => WriteAcc(f, x), b => ReadAcc(f, b), a)
  {
    forall rest ensures ReadAcc(f, WriteAcc(f, a) + rest) == Parsed.Got(a, rest) {
      SignedRoundTrip(a.rows);
      SignedRoundTrip(a.nvals);
      Fields(WriteI64(a.rows), f.write(a.sum), WriteI64(a.nvals), f.write(a.min), f.write(a.max),
             if a.seen then 1 else 0, rest);
    }
  }

  // ---------- groups and partials ----------

  type Line = (Group, seq<Acc>)

  function WriteLine(f: FloatBits, l: Line): seq<Byte> {
    WriteList(WriteCell, l.0) + WriteList(x => WriteAcc(f, x), l.1)
  }

  function ReadLine(f: FloatBits, b: seq<Byte>): Parsed<Line> {
    match ReadList(ReadCell, b)
    case Fail => Fail
    case Got(key, rest) =>
      match ReadList(x => ReadAcc(f, x), rest)
      case Fail => Fail
      case Got(accs, last) => Parsed.Got((key, accs), last)
  }

  predicate LineFits(f: FloatBits, l: Line) {
    && |l.0| < U32 && |l.1| < U32
    && (forall i :: 0 <= i < |l.0| ==> CellFits(l.0[i]))
    && (forall i :: 0 <= i < |l.1| ==> AccFits(f, l.1[i]))
  }

  lemma LineRoundTrip(f: FloatBits, l: Line)
    requires LineFits(f, l)
    ensures Carries(x => WriteLine(f, x), b => ReadLine(f, b), l)
  {
    var wa, ra := (x: Acc) => WriteAcc(f, x), (x: seq<Byte>) => ReadAcc(f, x);
    forall i | 0 <= i < |l.0| ensures Carries(WriteCell, ReadCell, l.0[i]) { CellRoundTrip(l.0[i]); }
    forall i | 0 <= i < |l.1| ensures Carries(wa, ra, l.1[i]) { AccRoundTrip(f, l.1[i]); }
    forall rest ensures ReadLine(f, WriteLine(f, l) + rest) == Parsed.Got(l, rest) {
      var accs := WriteList(wa, l.1);
      assert WriteLine(f, l) + rest == WriteList(WriteCell, l.0) + (accs + rest);
      ListRoundTrip(WriteCell, ReadCell, l.0, accs + rest);
      ListRoundTrip(wa, ra, l.1, rest);
    }
  }

  /** A map read from its lines, later lines winning. */
  function Collect(ls: seq<Line>): Partial {
    if ls == [] then map[] else Collect(ls[..|ls| - 1])[ls[|ls| - 1].0 := ls[|ls| - 1].1]
  }

  function Encode(f: FloatBits, ls: seq<Line>): seq<Byte> {
    WriteList(l => WriteLine(f, l), ls)
  }

  datatype Decoded = Bad | Decoded(partial: Partial)

  function Decode(f: FloatBits, b: seq<Byte>): Decoded {
    match ReadList(x => ReadLine(f, x), b)
    case Fail => Bad
    case Got(ls, _) => Decoded(Collect(ls))
  }

  /** `ls` lists the groups of `p`, each once, in whatever order. */
  ghost predicate Lists(ls: seq<Line>, p: Partial) {
    && (forall i, j :: 0 <= i < j < |ls| ==> ls[i].0 != ls[j].0)
    && (forall i :: 0 <= i < |ls| ==> ls[i].0 in p && p[ls[i].0] == ls[i].1)
    && (forall g :: g in p ==> exists i :: 0 <= i < |ls| && ls[i].0 == g)
  }

  lemma {:induction false} CollectHas(ls: seq<Line>, i: nat)
    requires i < |ls| && forall x, y :: 0 <= x < y < |ls| ==> ls[x].0 != ls[y].0
    ensures ls[i].0 in Collect(ls) && Collect(ls)[ls[i].0] == ls[i].1
    decreases |ls|
  {
    if i < |ls| - 1 { CollectHas(ls[..|ls| - 1], i); }
  }

  lemma {:induction false} CollectOnly(ls: seq<Line>, g: Group)
    requires g in Collect(ls)
    ensures exists i :: 0 <= i < |ls| && ls[i].0 == g
    decreases |ls|
  {
    if ls[|ls| - 1].0 != g {
      CollectOnly(ls[..|ls| - 1], g);
      var i :| 0 <= i < |ls| - 1 && ls[..|ls| - 1][i].0 == g;
      assert ls[i].0 == g;
    }
  }

  lemma CollectIs(ls: seq<Line>, p: Partial)
    requires Lists(ls, p)
    ensures Collect(ls) == p
  {
    forall g | g in p ensures g in Collect(ls) && Collect(ls)[g] == p[g] {
      var i :| 0 <= i < |ls| && ls[i].0 == g;
      CollectHas(ls, i);
    }
    forall g | g in Collect(ls) ensures g in p {
      CollectOnly(ls, g);
    }
  }

  ghost predicate AllFit(f: FloatBits, ls: seq<Line>) {
    |ls| < U32 && forall i :: 0 <= i < |ls| ==> LineFits(f, ls[i])
  }

  /** A partial comes back from the wire as it was sent, in whatever order its
      groups were written. */
  lemma WireRoundTrip(f: FloatBits, ls: seq<Line>, p: Partial)
    requires Lists(ls, p) && AllFit(f, ls)
    ensures Decode(f, Encode(f, ls)) == Decoded(p)
  {
    var wl, rl := (l: Line) => WriteLine(f, l), (x: seq<Byte>) => ReadLine(f, x);
    forall i | 0 <= i < |ls| ensures Carries(wl, rl, ls[i]) { LineRoundTrip(f, ls[i]); }
    ListRoundTrip(wl, rl, ls, []);
    assert WriteList(wl, ls) + [] == WriteList(wl, ls);
    CollectIs(ls, p);
  }

  lemma {:induction false} Zeros(w: nat)
    ensures Le(0, w) == seq(w, _ => 0)
  {
    if w > 0 { Zeros(w - 1); }
  }

  lemma WireNumbers(x: Byte)
    ensures Le(x, 4) == [x, 0, 0, 0] && WriteI64(x) == [x, 0, 0, 0, 0, 0, 0, 0]
  {
    Zeros(3);
    Zeros(7);
    assert x % 256 == x && x / 256 == 0 && x % U64 == x;
    assert Le(x, 4) == [x] + Le(0, 3) && Le(x, 8) == [x] + Le(0, 7);
  }

  lemma OneOf<T(!new)>(write: T -> seq<Byte>, x: T)
    ensures WriteList(write, [x]) == [1, 0, 0, 0] + write(x)
  {
    WireNumbers(1);
    assert [x][1..] == [];
    assert write(x) + WriteMany(write, []) == write(x);
  }

  lemma CellOnTheWire(c: Byte)
    ensures WriteCell(NoText) == [0] && WriteCell(Text([c])) == [1, 1, 0, 0, 0, c]
  {
    WireNumbers(1);
    assert Prefixed([c]) == [1, 0, 0, 0, c];
  }

  /** An accumulator on the wire: its fields in order. */
  lemma AccOnTheWire(f: FloatBits, rows: Byte, nvals: Byte, sum: real, min: real, max: real)
    ensures WriteAcc(f, Acc(rows, sum, nvals, min, max, true)) ==
            [rows, 0, 0, 0, 0, 0, 0, 0] + f.write(sum) + [nvals, 0, 0, 0, 0, 0, 0, 0] +
            f.write(min) + f.write(max) + [1]
  {
    WireNumbers(rows);
    WireNumbers(nvals);
  }

  /** A partial with one group of one cell and one column on the wire: the counts, the
      cell and the accumulator. */
  lemma PartialOnTheWire(f: FloatBits, cell: Cell, acc: Acc)
    ensures Encode(f, [([cell], [acc])]) ==
            [1, 0, 0, 0] + ([1, 0, 0, 0] + WriteCell(cell) + ([1, 0, 0, 0] + WriteAcc(f, acc)))
  {
    OneOf(WriteCell, cell);
    OneOf(x => WriteAcc(f, x), acc);
    OneOf(l => WriteLine(f, l), ([cell], [acc]));
  }

  // ---------- scatter and gather ----------

  /** Each member sends the lines of its own partial, in some order. */
  ghost predicate Sent(f: FloatBits, q: Query, parts: seq<seq<Row>>, sent: seq<seq<Line>>) {
    && |sent| == |parts|
    && (forall i :: 0 <= i < |parts| ==> Lists(sent[i], Local(q, parts[i])) && AllFit(f, sent[i]))
  }

  /** What the coordinator makes of one message; a bad one counts as empty. */
  function Received(f: FloatBits, b: seq<Byte>): Partial {
    match Decode(f, b)
    case Bad => map[]
    case Decoded(p) => p
  }

  function Gathered(f: FloatBits, sent: seq<seq<Line>>): (ps: seq<Partial>)
    ensures |ps| == |sent| && forall i :: 0 <= i < |sent| ==> ps[i] == Received(f, Encode(f, sent[i]))
  {
    seq(|sent|, i requires 0 <= i < |sent| => Received(f, Encode(f, sent[i])))
  }

  /** A message that does not decode adds nothing. */
  lemma BadAddsNothing(f: FloatBits, ps: seq<Partial>, b: seq<Byte>)
    requires Decode(f, b).Bad?
    ensures Merge(ps + [Received(f, b)]) == Merge(ps)
  {
    var all := ps + [Received(f, b)];
    assert all[..|ps|] == ps && all[|ps|] == map[];
    assert MergeIn(Merge(ps), map[]) == Merge(ps);
  }

  /** Over any split and any order, partials sent over the wire and merged are the
      partial of all the rows on one member. */
  lemma ScatterGather(f: FloatBits, q: Query, parts: seq<seq<Row>>, sent: seq<seq<Line>>, rows: seq<Row>)
    requires Sent(f, q, parts, sent) && multiset(Joined(parts)) == multiset(rows)
    ensures Merge(Gathered(f, sent)) == Local(q, rows)
  {
    forall i | 0 <= i < |parts| ensures Gathered(f, sent)[i] == Locals(q, parts)[i] {
      WireRoundTrip(f, sent[i], Local(q, parts[i]));
    }
    assert Gathered(f, sent) == Locals(q, parts);
    MergeIsLocal(q, parts, rows);
  }
}
