/** Event-time windows (crates/jet/src/window.rs): accumulators, the windows an
    event belongs to, and what one input item does.  Integers are unbounded;
    decoding is done, and an undecodable record is `Junk`. */
module WindowModel {
  import opened Bytes

  type Key = seq<Byte>

  const MAX: int := 0x7fff_ffff_ffff_ffff

  datatype Agg = Sum | Count | Min | Max | Avg

  datatype Acc = Acc(sum: int, count: int, min: int, max: int)

  const NO_ACC := Acc(0, 0, 0, 0)

  function Lower(a: int, b: int): int { if a <= b then a else b }

  function Upper(a: int, b: int): int { if a <= b then b else a }

  function Push(a: Acc, v: int): Acc {
    if a.count == 0 then Acc(a.sum + v, 1, v, v)
    else Acc(a.sum + v, a.count + 1, Lower(a.min, v), Upper(a.max, v))
  }

  /** Division rounding toward zero. */
  function Quotient(a: int, b: int): int
    requires b > 0
  {
    if a >= 0 then a / b else -((-a) / b)
  }

  function Get(a: Acc, agg: Agg): int {
    match agg
    case Sum => a.sum
    case Count => a.count
    case Min => a.min
    case Max => a.max
    case Avg => if a.count > 0 then Quotient(a.sum, a.count) else 0
  }

  datatype Event = Event(ts: int, value: int, key: Key)

  datatype Item = Data(e: Event) | Junk | Watermark(w: int) | Done

  datatype Result = Result(start: int, end: int, value: int, key: Key)

  datatype Output = Emit(r: Result) | Passed(w: int) | Finished

  // ---------- the order of emission ----------

  /** What a result is sorted by: start, key, and position in the key's list. */
  datatype Rank = Rank(start: int, key: Key, pos: nat)

  predicate Before(a: Rank, b: Rank) {
    || a.start < b.start
    || (a.start == b.start && Lex(a.key, b.key))
    || (a.start == b.start && a.key == b.key && a.pos < b.pos)
  }

  lemma BeforeTotal(a: Rank, b: Rank)
    ensures Before(a, b) || a == b || Before(b, a)
    ensures !(Before(a, b) && Before(b, a)) && !Before(a, a)
  {
    LexTotal(a.key, b.key);
    LexTotal(a.key, a.key);
  }

  lemma BeforeTransitive(a: Rank, b: Rank, c: Rank)
    requires Before(a, b) && Before(b, c)
    ensures Before(a, c)
  {
    if Lex(a.key, b.key) && Lex(b.key, c.key) { LexTransitive(a.key, b.key, c.key); }
  }

  ghost predicate First(s: set<Rank>, m: Rank) {
    m in s && forall x :: x in s && x != m ==> Before(m, x)
  }

  lemma {:induction false} HasFirst(s: set<Rank>)
    requires s != {}
    ensures exists m :: First(s, m)
  {
    var a :| a in s;
    var rest := s - {a};
    assert forall x :: x in s ==> x == a || x in rest;
    if rest == {} {
      assert First(s, a);
    } else {
      HasFirst(rest);
      var m :| First(rest, m);
      BeforeTotal(a, m);
      if Before(a, m) {
        forall x | x in s && x != a ensures Before(a, x) {
          if x != m { BeforeTransitive(a, m, x); }
        }
        assert First(s, a);
      } else {
        assert First(s, m);
      }
    }
  }

  lemma FirstIsUnique(s: set<Rank>, a: Rank, b: Rank)
    requires First(s, a) && First(s, b)
    ensures a == b
  {
    BeforeTotal(a, b);
  }

  /** The elements of `s` in increasing order. */
  ghost function InOrder(s: set<Rank>): (q: seq<Rank>)
    decreases |s|
  {
    if s == {} then []
    else
      HasFirst(s);
      var m :| First(s, m);
      [m] + InOrder(s - {m})
  }

  predicate Ascending(q: seq<Rank>) {
    forall i, j :: 0 <= i < j < |q| ==> Before(q[i], q[j])
  }

  lemma {:induction false} InOrderIs(s: set<Rank>)
    ensures Ascending(InOrder(s))
    ensures forall x :: x in InOrder(s) <==> x in s
    decreases |s|
  {
    if s != {} {
      HasFirst(s);
      var m :| First(s, m) && InOrder(s) == [m] + InOrder(s - {m});
      var tail := InOrder(s - {m});
      InOrderIs(s - {m});
      forall i, j | 0 <= i < j < |InOrder(s)| ensures Before(InOrder(s)[i], InOrder(s)[j]) {
        if i == 0 { assert tail[j - 1] in tail; }
      }
    }
  }

  // ---------- fixed windows ----------

  /** Sliding windows of `size` every `slide`; tumbling ones slide by their size. */
  datatype Fixed = Fixed(size: int, slide: int, agg: Agg)

  type Open = map<Rank, Acc>

  predicate Proper(p: Fixed) {
    p.size > 0 && p.slide > 0
  }

  function Win(start: int, key: Key): Rank {
    Rank(start, key, 0)
  }

  /** The largest multiple of `step` not above `ts`. */
  function Floor(ts: int, step: int): int
    requires step > 0
  {
    ts / step * step
  }

  /** Window starts from `start` downward that still cover `ts`. */
  function StartsFrom(p: Fixed, start: int, ts: int): seq<int>
    requires Proper(p)
    decreases start - (ts - p.size)
  {
    if start > ts - p.size then [start] + StartsFrom(p, start - p.slide, ts) else []
  }

  function Starts(p: Fixed, ts: int): seq<int>
    requires Proper(p)
  {
    StartsFrom(p, Floor(ts, p.slide), ts)
  }

  function Fold(open: Open, w: Rank, v: int): Open {
    open[w := Push(if w in open then open[w] else NO_ACC, v)]
  }

  function FoldEach(open: Open, starts: seq<int>, key: Key, v: int): Open
    decreases |starts|
  {
    if starts == [] then open else FoldEach(Fold(open, Win(starts[0], key), v), starts[1..], key, v)
  }

  /** The windows a watermark completes. */
  function Ready(p: Fixed, open: Open, w: int): set<Rank> {
    set r | r in open && r.start + p.size <= w
  }

  function ResultOf(p: Fixed, open: Open, r: Rank): Result
    requires r in open
  {
    Result(r.start, r.start + p.size, Get(open[r], p.agg), r.key)
  }

  ghost function Emissions(p: Fixed, open: Open, q: seq<Rank>): (out: seq<Output>)
    requires forall r :: r in q ==> r in open
    ensures |out| == |q|
    ensures forall i :: 0 <= i < |q| ==> out[i] == Emit(ResultOf(p, open, q[i]))
  {
    seq(|q|, i requires 0 <= i < |q| => Emit(ResultOf(p, open, q[i])))
  }

  ghost function Closing(p: Fixed, open: Open, w: int): seq<Output> {
    InOrderIs(Ready(p, open, w));
    Emissions(p, open, InOrder(Ready(p, open, w)))
  }

  /** What one item does to the open windows, and what it sends on. */
  ghost function Step(p: Fixed, open: Open, item: Item): (Open, seq<Output>)
    requires Proper(p)
  {
    match item
    case Data(e) => (FoldEach(open, Starts(p, e.ts), e.key, e.value), [])
    case Junk => (open, [])
    case Watermark(w) => (open - Ready(p, open, w), Closing(p, open, w) + [Passed(w)])
    case Done => (open - Ready(p, open, MAX), Closing(p, open, MAX) + [Finished])
  }

  /** Open windows and output after `items`, starting with `open`. */
  ghost function Run(p: Fixed, open: Open, items: seq<Item>): (Open, seq<Output>)
    requires Proper(p)
    decreases |items|
  {
    if items == [] then (open, [])
    else
      var before := Run(p, open, items[..|items| - 1]);
      var step := Step(p, before.0, items[|items| - 1]);
      (step.0, before.1 + step.1)
  }
}
