/** Streaming over fixed windows gives the batch answer. */
module WindowBatch {
  import opened WindowModel

  /** The multiples of the slide whose window contains `ts`. */
  predicate Covers(p: Fixed, start: int, ts: int)
    requires Proper(p)
  {
    start % p.slide == 0 && start <= ts < start + p.size
  }

  lemma FloorIs(ts: int, step: int)
    requires step > 0
    ensures Floor(ts, step) % step == 0 && Floor(ts, step) <= ts < Floor(ts, step) + step
  {
    var q := ts / step;
    assert ts == q * step + ts % step;
    MultipleMod(q, step);
  }

  lemma TimesSign(k: int, m: int)
    requires m > 0
    ensures k >= 1 ==> k * m >= m
    ensures k <= -1 ==> k * m <= -m
    ensures k <= 0 ==> k * m <= 0
  {
  }

  lemma MultipleMod(q: int, m: int)
    requires m > 0
    ensures (q * m) % m == 0
  {
    var r := (q * m) % m;
    var d := (q * m) / m;
    assert q * m == d * m + r;
    assert (q - d) * m == r;
    TimesSign(q - d, m);
  }

  /** Two multiples of `m` less than `m` apart are equal. */
  lemma Apart(a: int, b: int, m: int)
    requires m > 0 && a % m == 0 && b % m == 0 && a < b
    ensures b - a >= m
  {
    var x, y := a / m, b / m;
    assert a == x * m && b == y * m;
    assert (y - x) * m == b - a;
    TimesSign(y - x, m);
  }

  lemma Down(a: int, m: int)
    requires m > 0 && a % m == 0
    ensures (a - m) % m == 0
  {
    var x := a / m;
    assert a == x * m;
    assert a - m == (x - 1) * m;
    MultipleMod(x - 1, m);
  }

  lemma {:induction false} StartsFromIs(p: Fixed, start: int, ts: int, s: int)
    requires Proper(p) && start % p.slide == 0 && start <= ts
    ensures s in StartsFrom(p, start, ts) <==> Covers(p, s, ts) && s <= start
    decreases start - (ts - p.size)
  {
    if start > ts - p.size {
      var next := start - p.slide;
      Down(start, p.slide);
      StartsFromIs(p, next, ts, s);
      assert s in StartsFrom(p, start, ts) <==> s == start || s in StartsFrom(p, next, ts);
      if s % p.slide == 0 && s < start { Apart(s, start, p.slide); }
    }
  }

  lemma {:induction false} StartsDistinct(p: Fixed, start: int, ts: int)
    requires Proper(p) && start % p.slide == 0 && start <= ts
    ensures var q := StartsFrom(p, start, ts); forall i, j :: 0 <= i < j < |q| ==> q[i] != q[j]
    decreases start - (ts - p.size)
  {
    if start > ts - p.size {
      var next := start - p.slide;
      Down(start, p.slide);
      StartsDistinct(p, next, ts);
      StartsFromIs(p, next, ts, start);
    }
  }

  /** An event goes, once each, to exactly the windows that contain it. */
  lemma StartsAre(p: Fixed, ts: int)
    requires Proper(p)
    ensures forall s :: s in Starts(p, ts) <==> Covers(p, s, ts)
    ensures var q := Starts(p, ts); forall i, j :: 0 <= i < j < |q| ==> q[i] != q[j]
  {
    var top := Floor(ts, p.slide);
    FloorIs(ts, p.slide);
    forall s ensures s in Starts(p, ts) <==> Covers(p, s, ts) {
      StartsFromIs(p, top, ts, s);
      if s % p.slide == 0 && top < s { Apart(top, s, p.slide); }
    }
    StartsDistinct(p, top, ts);
  }

  /** A tumbling window is the one sliding window that contains the event. */
  lemma TumblingHasOne(p: Fixed, ts: int)
    requires Proper(p) && p.slide == p.size
    ensures Starts(p, ts) == [Floor(ts, p.size)]
  {
    FloorIs(ts, p.size);
    assert StartsFrom(p, Floor(ts, p.size) - p.size, ts) == [];
  }

  // ---------- the batch definition ----------

  predicate In(p: Fixed, w: Rank, item: Item)
    requires Proper(p)
  {
    item.Data? && item.e.key == w.key && Covers(p, w.start, item.e.ts)
  }

  /** The values of the events that fall in window `w`, in order of arrival. */
  function Values(p: Fixed, items: seq<Item>, w: Rank): seq<int>
    requires Proper(p)
  {
    if items == [] then []
    else
      var last := items[|items| - 1];
      var vs := Values(p, items[..|items| - 1], w);
      if In(p, w, last) then vs + [last.e.value] else vs
  }

  function AccOf(vs: seq<int>): Acc {
    if vs == [] then NO_ACC else Push(AccOf(vs[..|vs| - 1]), vs[|vs| - 1])
  }

  function Total(vs: seq<int>): int {
    if vs == [] then 0 else Total(vs[..|vs| - 1]) + vs[|vs| - 1]
  }

  /** The accumulator is the sum, the count, the least and the greatest value. */
  lemma {:induction false} AccMeans(vs: seq<int>)
    ensures AccOf(vs).sum == Total(vs) && AccOf(vs).count == |vs|
    ensures vs != [] ==> AccOf(vs).min in vs && AccOf(vs).max in vs
    ensures forall v :: v in vs ==> AccOf(vs).min <= v <= AccOf(vs).max
  {
    if vs != [] {
      var front, last := vs[..|vs| - 1], vs[|vs| - 1];
      AccMeans(front);
      InFront(vs);
      var a := AccOf(front);
      assert AccOf(vs) == Push(a, last);
      if |vs| > 1 { assert a.min in vs && a.max in vs; }
    }
  }

  lemma InFront<T>(s: seq<T>)
    requires s != []
    ensures forall x :: x in s <==> x == s[|s| - 1] || x in s[..|s| - 1]
  {
    assert s == s[..|s| - 1] + [s[|s| - 1]];
  }

  /** The mean rounded toward zero: the remainder is small and has the total's sign. */
  predicate Mean(q: int, total: int, n: int) {
    var r := total - q * n;
    -n < r < n && (total >= 0 ==> q >= 0 && r >= 0) && (total <= 0 ==> q <= 0 && r <= 0)
  }

  lemma NegTimes(x: int, n: int)
    ensures (-x) * n == -(x * n)
  {
  }

  lemma DivMod(m: int, n: int)
    requires m >= 0 && n > 0
    ensures m == m / n * n + m % n && m / n >= 0 && 0 <= m % n < n
  {
  }

  lemma MeanOf(a: int, n: int, q: int, r: int)
    requires n > 0 && q >= 0 && 0 <= r < n
    ensures a == q * n + r ==> Mean(q, a, n)
    ensures a == -(q * n + r) && a != 0 ==> Mean(-q, a, n)
  {
    var p := q * n;
    NegTimes(q, n);
    TimesSign(q, n);
  }

  lemma QuotientIs(a: int, b: int)
    requires b > 0
    ensures Mean(Quotient(a, b), a, b)
  {
    var m := if a >= 0 then a else -a;
    DivMod(m, b);
    MeanOf(a, b, m / b, m % b);
  }

  /** `r` is the sum, the number, the least, the greatest or the mean rounded toward
      zero of `vs`. */
  ghost predicate IsFigure(agg: Agg, vs: seq<int>, r: int) {
    && (agg.Sum? ==> r == Total(vs))
    && (agg.Count? ==> r == |vs|)
    && (agg.Min? ==> r in vs && forall v :: v in vs ==> r <= v)
    && (agg.Max? ==> r in vs && forall v :: v in vs ==> v <= r)
    && (agg.Avg? ==> Mean(r, Total(vs), |vs|))
  }

  /** What the accumulator reports for each aggregate. */
  lemma GetMeans(vs: seq<int>, agg: Agg)
    requires vs != []
    ensures IsFigure(agg, vs, Get(AccOf(vs), agg))
  {
    AccMeans(vs);
    QuotientIs(Total(vs), |vs|);
  }

  lemma OneMean(p: int, q: int, total: int, n: int)
    requires n > 0 && Mean(p, total, n) && Mean(q, total, n)
    ensures p == q
  {
    assert (p - q) * n == p * n - q * n;
    TimesSign(p - q, n);
  }

  ghost function Figure(agg: Agg, vs: seq<int>): (r: int)
    requires vs != []
    ensures IsFigure(agg, vs, r)
  {
    GetMeans(vs, agg);
    var r :| IsFigure(agg, vs, r);
    r
  }

  /** There is one such figure, and it is the one reported. */
  lemma GetIsFigure(vs: seq<int>, agg: Agg)
    requires vs != []
    ensures Get(AccOf(vs), agg) == Figure(agg, vs)
  {
    GetMeans(vs, agg);
    if agg.Avg? { OneMean(Get(AccOf(vs), agg), Figure(agg, vs), Total(vs), |vs|); }
  }

  /** What the batch definition calls for in a window with events. */
  ghost function BatchResult(p: Fixed, items: seq<Item>, w: Rank): Result
    requires Proper(p) && Values(p, items, w) != []
  {
    Result(w.start, w.start + p.size, Figure(p.agg, Values(p, items, w)), w.key)
  }

  /** The results among `outs` for window `w`. */
  function For(outs: seq<Output>, w: Rank): seq<Result> {
    if outs == [] then []
    else
      var last := outs[|outs| - 1];
      var rs := For(outs[..|outs| - 1], w);
      if last.Emit? && SameWindow(last.r, w) then rs + [last.r] else rs
  }

  lemma {:induction false} ForConcat(a: seq<Output>, b: seq<Output>, w: Rank)
    ensures For(a + b, w) == For(a, w) + For(b, w)
    decreases |b|
  {
    if b == [] {
      assert a + b == a;
    } else {
      ForConcat(a, b[..|b| - 1], w);
      assert (a + b)[..|a + b| - 1] == a + b[..|b| - 1];
    }
  }

  /** The time up to which an item declares the stream complete. */
  function Level(item: Item): int
    requires item.Watermark? || item.Done?
  {
    if item.Done? then MAX else item.w
  }

  predicate Shuts(item: Item, end: int) {
    (item.Watermark? || item.Done?) && end <= Level(item)
  }

  /** No event is older than an earlier watermark. */
  ghost predicate OnTime(items: seq<Item>) {
    forall i, j {:trigger items[i], items[j]} ::
      0 <= i < j < |items| && (items[i].Watermark? || items[i].Done?) && items[j].Data? ==>
        Level(items[i]) <= items[j].e.ts
  }

  // ---------- streaming ----------

  lemma {:induction false} FoldEachAt(open: Open, starts: seq<int>, key: Key, v: int, w: Rank)
    requires forall i, j :: 0 <= i < j < |starts| ==> starts[i] != starts[j]
    requires w.pos == 0
    ensures var open' := FoldEach(open, starts, key, v);
            if w.key == key && w.start in starts
            then w in open' && open'[w] == Push(if w in open then open[w] else NO_ACC, v)
            else (w in open' <==> w in open) && (w in open ==> open'[w] == open[w])
    decreases |starts|
  {
    if starts != [] {
      FoldEachAt(Fold(open, Win(starts[0], key), v), starts[1..], key, v, w);
      assert w.start in starts <==> w.start == starts[0] || w.start in starts[1..];
    }
  }

  predicate Plain(open: Open) {
    forall r :: r in open ==> r.pos == 0
  }

  lemma {:induction false} FoldEachPlain(open: Open, starts: seq<int>, key: Key, v: int)
    requires Plain(open)
    ensures Plain(FoldEach(open, starts, key, v))
    decreases |starts|
  {
    if starts != [] { FoldEachPlain(Fold(open, Win(starts[0], key), v), starts[1..], key, v); }
  }

  lemma {:induction false} RunPlain(p: Fixed, items: seq<Item>)
    requires Proper(p)
    ensures Plain(Run(p, map[], items).0)
  {
    if items != [] {
      var open, last := Run(p, map[], items[..|items| - 1]).0, items[|items| - 1];
      RunPlain(p, items[..|items| - 1]);
      if last.Data? { FoldEachPlain(open, Starts(p, last.e.ts), last.e.key, last.e.value); }
    }
  }

  lemma {:induction false} ForEmissions(p: Fixed, open: Open, q: seq<Rank>, w: Rank)
    requires Plain(open) && w.pos == 0 && (forall r :: r in q ==> r in open)
    requires forall i, j :: 0 <= i < j < |q| ==> q[i] != q[j]
    ensures For(Emissions(p, open, q), w) == if w in q then [ResultOf(p, open, w)] else []
    decreases |q|
  {
    if q != [] {
      var front, last := q[..|q| - 1], q[|q| - 1];
      ForEmissions(p, open, front, w);
      InFront(q);
      assert Emissions(p, open, q)[..|q| - 1] == Emissions(p, open, front);
      NotInFront(q);
      assert SameWindow(ResultOf(p, open, last), w) <==> last == w;
    }
  }

  predicate SameWindow(r: Result, w: Rank) {
    r.start == w.start && r.key == w.key
  }

  lemma NotInFront<T>(q: seq<T>)
    requires q != [] && forall i, j :: 0 <= i < j < |q| ==> q[i] != q[j]
    ensures q[|q| - 1] !in q[..|q| - 1]
  {
  }

  lemma ForClosing(p: Fixed, open: Open, m: int, tail: Output, w: Rank)
    requires Plain(open) && w.pos == 0 && !tail.Emit?
    ensures For(Closing(p, open, m) + [tail], w) == if w in Ready(p, open, m) then [ResultOf(p, open, w)] else []
  {
    var q := InOrder(Ready(p, open, m));
    InOrderIs(Ready(p, open, m));
    forall i, j | 0 <= i < j < |q| ensures q[i] != q[j] {
      BeforeTotal(q[i], q[j]);
    }
    ForEmissions(p, open, q, w);
    assert (Closing(p, open, m) + [tail])[..|q|] == Closing(p, open, m);
  }

  /** The values of window `w` in the groups they are reported in: those already
      reported, and the group still open.  An item that shuts the window ends the
      open group. */
  function Groups(p: Fixed, items: seq<Item>, w: Rank): (seq<seq<int>>, seq<int>)
    requires Proper(p)
  {
    if items == [] then ([], [])
    else
      var g, last := Groups(p, items[..|items| - 1], w), items[|items| - 1];
      if In(p, w, last) then (g.0, g.1 + [last.e.value])
      else if Shuts(last, w.start + p.size) && g.1 != [] then (g.0 + [g.1], [])
      else g
  }

  lemma GroupsGrow(p: Fixed, items: seq<Item>, item: Item, w: Rank)
    requires Proper(p)
    ensures var g := Groups(p, items, w);
            Groups(p, items + [item], w) ==
            if In(p, w, item) then (g.0, g.1 + [item.e.value])
            else if Shuts(item, w.start + p.size) && g.1 != [] then (g.0 + [g.1], [])
            else g
  {
    assert (items + [item])[..|items|] == items;
  }

  function GroupResult(p: Fixed, w: Rank, vs: seq<int>): Result {
    Result(w.start, w.start + p.size, Get(AccOf(vs), p.agg), w.key)
  }

  function GroupResults(p: Fixed, w: Rank, groups: seq<seq<int>>): seq<Result> {
    if groups == [] then []
    else GroupResults(p, w, groups[..|groups| - 1]) + [GroupResult(p, w, groups[|groups| - 1])]
  }

  lemma GroupResultsGrow(p: Fixed, w: Rank, groups: seq<seq<int>>, vs: seq<int>)
    ensures GroupResults(p, w, groups + [vs]) == GroupResults(p, w, groups) + [GroupResult(p, w, vs)]
  {
    assert (groups + [vs])[..|groups|] == groups;
  }

  /** Window `w` holds its open group and has reported the others, in order. */
  ghost predicate Standing(p: Fixed, items: seq<Item>, open: Open, outs: seq<Output>, w: Rank)
    requires Proper(p)
  {
    var g := Groups(p, items, w);
    && (w in open <==> g.1 != [])
    && (w in open ==> open[w] == AccOf(g.1))
    && For(outs, w) == GroupResults(p, w, g.0)
  }

  lemma AccGrows(vs: seq<int>, v: int)
    ensures AccOf(vs + [v]) == Push(AccOf(vs), v)
  {
    assert (vs + [v])[..|vs|] == vs;
  }

  lemma EventStands(p: Fixed, items: seq<Item>, e: Event, open: Open, outs: seq<Output>, w: Rank)
    requires Proper(p) && w.pos == 0 && Standing(p, items, open, outs, w)
    ensures Standing(p, items + [Data(e)], Step(p, open, Data(e)).0, outs, w)
  {
    StartsAre(p, e.ts);
    FoldEachAt(open, Starts(p, e.ts), e.key, e.value, w);
    GroupsGrow(p, items, Data(e), w);
    AccGrows(Groups(p, items, w).1, e.value);
  }

  lemma LevelStands(p: Fixed, items: seq<Item>, item: Item, open: Open, outs: seq<Output>, w: Rank)
    requires Proper(p) && w.pos == 0 && Plain(open) && (item.Watermark? || item.Done?)
    requires Standing(p, items, open, outs, w)
    ensures Standing(p, items + [item], Step(p, open, item).0, outs + Step(p, open, item).1, w)
  {
    var g := Groups(p, items, w);
    GroupsGrow(p, items, item, w);
    GroupResultsGrow(p, w, g.0, g.1);
    ForConcat(outs, Step(p, open, item).1, w);
    ForClosing(p, open, Level(item), if item.Done? then Finished else Passed(item.w), w);
  }

  /** Whatever the stream, late events included: each window has reported exactly
      its finished groups, in order, and holds exactly its open one. */
  lemma {:induction false} RunStands(p: Fixed, items: seq<Item>, w: Rank)
    requires Proper(p) && w.pos == 0
    ensures Standing(p, items, Run(p, map[], items).0, Run(p, map[], items).1, w)
  {
    if items != [] {
      var front, last := items[..|items| - 1], items[|items| - 1];
      RunStands(p, front, w);
      RunPlain(p, front);
      assert items == front + [last];
      var run := Run(p, map[], front);
      match last
      case Data(e) =>
        EventStands(p, front, e, run.0, run.1, w);
        assert run.1 + [] == run.1;
      case Junk =>
        GroupsGrow(p, front, last, w);
        assert run.1 + [] == run.1;
      case Watermark(_) => LevelStands(p, front, last, run.0, run.1, w);
      case Done => LevelStands(p, front, last, run.0, run.1, w);
    }
  }

  // ---------- exactly once ----------

  function Flat(groups: seq<seq<int>>): seq<int> {
    if groups == [] then [] else Flat(groups[..|groups| - 1]) + groups[|groups| - 1]
  }

  lemma FlatGrows(groups: seq<seq<int>>, vs: seq<int>)
    ensures Flat(groups + [vs]) == Flat(groups) + vs
  {
    assert (groups + [vs])[..|groups|] == groups;
  }

  /** Each value of the window is in exactly one group; no group is empty. */
  lemma {:induction false} GroupsPartition(p: Fixed, items: seq<Item>, w: Rank)
    requires Proper(p)
    ensures var g := Groups(p, items, w); Flat(g.0) + g.1 == Values(p, items, w) && [] !in g.0
  {
    if items != [] {
      var front, last := items[..|items| - 1], items[|items| - 1];
      GroupsPartition(p, front, w);
      var g := Groups(p, front, w);
      FlatGrows(g.0, g.1);
      if In(p, w, last) { assert Flat(g.0) + (g.1 + [last.e.value]) == Flat(g.0) + g.1 + [last.e.value]; }
    }
  }

  /** A shutting item separates two events of the window. */
  ghost predicate Split(p: Fixed, items: seq<Item>, w: Rank)
    requires Proper(p)
  {
    exists a, m, b :: 0 <= a < m < b < |items| &&
      In(p, w, items[a]) && Shuts(items[m], w.start + p.size) && In(p, w, items[b])
  }

  ghost predicate Used(p: Fixed, items: seq<Item>, w: Rank)
    requires Proper(p)
  {
    exists a :: 0 <= a < |items| && In(p, w, items[a])
  }

  ghost predicate UsedThenShut(p: Fixed, items: seq<Item>, w: Rank)
    requires Proper(p)
  {
    exists a, m :: 0 <= a < m < |items| && In(p, w, items[a]) && Shuts(items[m], w.start + p.size)
  }

  lemma UsedGrows(p: Fixed, items: seq<Item>, item: Item, w: Rank)
    requires Proper(p)
    ensures Used(p, items + [item], w) <==> Used(p, items, w) || In(p, w, item)
  {
    var all := items + [item];
    if Used(p, items, w) { var a :| 0 <= a < |items| && In(p, w, items[a]); assert In(p, w, all[a]); }
    if In(p, w, item) { assert In(p, w, all[|items|]); }
    if Used(p, all, w) { var a :| 0 <= a < |all| && In(p, w, all[a]); assert a < |items| ==> In(p, w, items[a]); }
  }

  lemma UsedThenShutGrows(p: Fixed, items: seq<Item>, item: Item, w: Rank)
    requires Proper(p)
    ensures UsedThenShut(p, items + [item], w) <==>
            UsedThenShut(p, items, w) || (Used(p, items, w) && Shuts(item, w.start + p.size))
  {
    var all, end := items + [item], w.start + p.size;
    if UsedThenShut(p, items, w) {
      var a, m :| 0 <= a < m < |items| && In(p, w, items[a]) && Shuts(items[m], end);
      assert In(p, w, all[a]) && Shuts(all[m], end);
    }
    if Used(p, items, w) && Shuts(item, end) {
      var a :| 0 <= a < |items| && In(p, w, items[a]);
      assert In(p, w, all[a]) && Shuts(all[|items|], end);
    }
    if UsedThenShut(p, all, w) {
      var a, m :| 0 <= a < m < |all| && In(p, w, all[a]) && Shuts(all[m], end);
      assert In(p, w, items[a]);
      assert m < |items| ==> Shuts(items[m], end);
    }
  }

  lemma SplitStays(p: Fixed, items: seq<Item>, item: Item, w: Rank)
    requires Proper(p) && Split(p, items, w)
    ensures Split(p, items + [item], w)
  {
    var all, end := items + [item], w.start + p.size;
    var a, m, b :| 0 <= a < m < b < |items| && In(p, w, items[a]) && Shuts(items[m], end) && In(p, w, items[b]);
    assert In(p, w, all[a]) && Shuts(all[m], end) && In(p, w, all[b]);
  }

  lemma SplitCompleted(p: Fixed, items: seq<Item>, item: Item, w: Rank)
    requires Proper(p) && UsedThenShut(p, items, w) && In(p, w, item)
    ensures Split(p, items + [item], w)
  {
    var all, end := items + [item], w.start + p.size;
    var a, m :| 0 <= a < m < |items| && In(p, w, items[a]) && Shuts(items[m], end);
    assert In(p, w, all[a]) && Shuts(all[m], end) && In(p, w, all[|items|]);
  }

  lemma SplitBefore(p: Fixed, items: seq<Item>, item: Item, w: Rank)
    requires Proper(p) && Split(p, items + [item], w)
    ensures Split(p, items, w) || (UsedThenShut(p, items, w) && In(p, w, item))
  {
    var all, end := items + [item], w.start + p.size;
    var a, m, b :| 0 <= a < m < b < |all| && In(p, w, all[a]) && Shuts(all[m], end) && In(p, w, all[b]);
    assert In(p, w, items[a]) && Shuts(items[m], end);
    assert b < |items| ==> In(p, w, items[b]);
  }

  lemma SplitGrows(p: Fixed, items: seq<Item>, item: Item, w: Rank)
    requires Proper(p)
    ensures Split(p, items + [item], w) <==>
            Split(p, items, w) || (UsedThenShut(p, items, w) && In(p, w, item))
  {
    if Split(p, items + [item], w) { SplitBefore(p, items, item, w); }
    if Split(p, items, w) { SplitStays(p, items, item, w); }
    if UsedThenShut(p, items, w) && In(p, w, item) { SplitCompleted(p, items, item, w); }
  }

  predicate Tally(g: (seq<seq<int>>, seq<int>), used: bool, shut: bool, split: bool) {
    && (g.0 != [] <==> shut)
    && (g.0 != [] || g.1 != [] <==> used)
    && (|g.0| >= 2 || (g.0 != [] && g.1 != []) <==> split)
  }

  lemma TallyStep(p: Fixed, items: seq<Item>, item: Item, w: Rank, used: bool, shut: bool, split: bool)
    requires Proper(p) && Tally(Groups(p, items, w), used, shut, split)
    ensures Tally(Groups(p, items + [item], w),
                  used || In(p, w, item),
                  shut || (used && Shuts(item, w.start + p.size)),
                  split || (shut && In(p, w, item)))
  {
    GroupsGrow(p, items, item, w);
  }

  /** A window has one group exactly when nothing splits it. */
  lemma {:induction false} GroupsIff(p: Fixed, items: seq<Item>, w: Rank)
    requires Proper(p)
    ensures Tally(Groups(p, items, w), Used(p, items, w), UsedThenShut(p, items, w), Split(p, items, w))
  {
    if items != [] {
      var front, last := items[..|items| - 1], items[|items| - 1];
      GroupsIff(p, front, w);
      TallyStep(p, front, last, w, Used(p, front, w), UsedThenShut(p, front, w), Split(p, front, w));
      assert front + [last] == items;
      UsedGrows(p, front, last, w);
      UsedThenShutGrows(p, front, last, w);
      SplitGrows(p, front, last, w);
    }
  }

  /** The end of time lies after every window the events fall in. */
  ghost predicate InRange(p: Fixed, items: seq<Item>) {
    forall i :: 0 <= i < |items| && items[i].Data? ==> items[i].e.ts + p.size <= MAX
  }

  lemma NothingLeft(p: Fixed, items: seq<Item>, w: Rank)
    requires Proper(p) && InRange(p, items) && items != [] && items[|items| - 1].Done?
    ensures Groups(p, items, w).1 == []
  {
    var front, last := items[..|items| - 1], items[|items| - 1];
    GroupsIff(p, front, w);
    if Used(p, front, w) {
      var a :| 0 <= a < |front| && In(p, w, front[a]);
      assert items[a] == front[a];
    }
  }

  /** A run ending in Done reports window `w` as the batch would, exactly once if
      any event falls in it and not at all otherwise, if and only if no watermark
      that shuts the window comes between two of its events. */
  lemma StreamIsBatchIff(p: Fixed, items: seq<Item>, w: Rank)
    requires Proper(p) && w.pos == 0
    requires InRange(p, items) && items != [] && items[|items| - 1].Done?
    ensures For(Run(p, map[], items).1, w) == (if Values(p, items, w) == [] then [] else [BatchResult(p, items, w)])
            <==> !Split(p, items, w)
  {
    var g, vs := Groups(p, items, w), Values(p, items, w);
    RunStands(p, items, w);
    NothingLeft(p, items, w);
    GroupsPartition(p, items, w);
    GroupsIff(p, items, w);
    GroupResultsSize(p, w, g.0);
    assert Flat(g.0) == vs;
    if |g.0| == 1 {
      assert g.0[..0] == [] && Flat(g.0) == [] + g.0[0] == g.0[0];
      assert g.0[0] in g.0;
      assert GroupResults(p, w, g.0) == [] + [GroupResult(p, w, vs)];
      if vs != [] { GetIsFigure(vs, p.agg); }
    } else if |g.0| == 0 {
      assert vs == [];
    }
  }

  /** An event, a watermark that shuts its window and a late event in it: the window
      is not reported as the batch would, whichever window it is. */
  lemma LateEventsSplit(p: Fixed, start: int, k: Key) returns (items: seq<Item>, w: Rank)
    requires Proper(p) && start % p.slide == 0 && start + p.size <= MAX
    ensures w == Win(start, k) && InRange(p, items) && items != [] && items[|items| - 1].Done?
    ensures Values(p, items, w) != [] && For(Run(p, map[], items).1, w) != [BatchResult(p, items, w)]
  {
    w := Win(start, k);
    var e := Event(w.start, 1, k);
    items := [Data(e), Watermark(w.start + p.size), Data(e), Done];
    assert In(p, w, items[0]) && In(p, w, items[2]) && Shuts(items[1], w.start + p.size);
    assert Split(p, items, w);
    StreamIsBatchIff(p, items, w);
    SomeValue(p, items, w, 0);
  }

  lemma {:induction false} SomeValue(p: Fixed, items: seq<Item>, w: Rank, i: nat)
    requires Proper(p) && i < |items| && In(p, w, items[i])
    ensures Values(p, items, w) != []
    decreases |items|
  {
    if i < |items| - 1 {
      assert items[..|items| - 1][i] == items[i];
      SomeValue(p, items[..|items| - 1], w, i);
    }
  }

  lemma {:induction false} GroupResultsSize(p: Fixed, w: Rank, groups: seq<seq<int>>)
    ensures |GroupResults(p, w, groups)| == |groups|
  {
    if groups != [] { GroupResultsSize(p, w, groups[..|groups| - 1]); }
  }

  /** No event is older than an earlier watermark: no window is split. */
  lemma OnTimeIsWhole(p: Fixed, items: seq<Item>, w: Rank)
    requires Proper(p) && OnTime(items)
    ensures !Split(p, items, w)
  {
    forall m, b | 0 <= m < b < |items| && Shuts(items[m], w.start + p.size) ensures !In(p, w, items[b]) {
    }
  }

  /** Streaming on time is batch: every window, every key, once, with the
      aggregate of exactly the events in it; and nothing stays behind. */
  lemma StreamIsBatch(p: Fixed, items: seq<Item>)
    requires Proper(p) && OnTime(items)
    requires InRange(p, items) && items != [] && items[|items| - 1].Done?
    ensures forall w: Rank {:trigger For(Run(p, map[], items).1, w)} :: w.pos == 0 ==>
              For(Run(p, map[], items).1, w) == if Values(p, items, w) == [] then [] else [BatchResult(p, items, w)]
    ensures Run(p, map[], items).0 == map[]
  {
    forall w: Rank | w.pos == 0
      ensures For(Run(p, map[], items).1, w) == if Values(p, items, w) == [] then [] else [BatchResult(p, items, w)]
      ensures w !in Run(p, map[], items).0
    {
      OnTimeIsWhole(p, items, w);
      StreamIsBatchIff(p, items, w);
      RunStands(p, items, w);
      NothingLeft(p, items, w);
    }
    RunPlain(p, items);
  }

  // ---------- conservation ----------

  predicate Additive(agg: Agg) {
    agg.Sum? || agg.Count?
  }

  /** What one value adds to an additive aggregate. */
  function Weight(agg: Agg, v: int): int {
    if agg.Sum? then v else 1
  }

  ghost function OpenTotal(agg: Agg, open: Open): int
    decreases |open|
  {
    if open == map[] then 0
    else
      var w :| w in open;
      Get(open[w], agg) + OpenTotal(agg, open - {w})
  }

  lemma {:induction false} OpenTotalAt(agg: Agg, open: Open, w: Rank)
    requires w in open
    ensures OpenTotal(agg, open) == Get(open[w], agg) + OpenTotal(agg, open - {w})
    decreases |open|
  {
    var x :| x in open && OpenTotal(agg, open) == Get(open[x], agg) + OpenTotal(agg, open - {x});
    if x != w {
      OpenTotalAt(agg, open - {x}, w);
      OpenTotalAt(agg, open - {w}, x);
      assert open - {x} - {w} == open - {w} - {x};
    }
  }

  lemma FoldTotal(agg: Agg, open: Open, w: Rank, v: int)
    requires Additive(agg)
    ensures OpenTotal(agg, Fold(open, w, v)) == OpenTotal(agg, open) + Weight(agg, v)
  {
    var open' := Fold(open, w, v);
    OpenTotalAt(agg, open', w);
    assert open' - {w} == open - {w};
    if w in open { OpenTotalAt(agg, open, w); } else { assert open - {w} == open; }
  }

  lemma {:induction false} FoldEachTotal(agg: Agg, open: Open, starts: seq<int>, key: Key, v: int)
    requires Additive(agg)
    ensures OpenTotal(agg, FoldEach(open, starts, key, v)) == OpenTotal(agg, open) + |starts| * Weight(agg, v)
    decreases |starts|
  {
    if starts != [] {
      FoldTotal(agg, open, Win(starts[0], key), v);
      FoldEachTotal(agg, Fold(open, Win(starts[0], key), v), starts[1..], key, v);
      Distribute(|starts| - 1, Weight(agg, v));
    }
  }

  lemma Distribute(k: int, x: int)
    ensures (k + 1) * x == x + k * x
  {
  }

  /** The sum of all reported values. */
  function Reported(outs: seq<Output>): int {
    if outs == [] then 0
    else Reported(outs[..|outs| - 1]) + if outs[|outs| - 1].Emit? then outs[|outs| - 1].r.value else 0
  }

  lemma {:induction false} ReportedConcat(a: seq<Output>, b: seq<Output>)
    ensures Reported(a + b) == Reported(a) + Reported(b)
    decreases |b|
  {
    if b == [] {
      assert a + b == a;
    } else {
      ReportedConcat(a, b[..|b| - 1]);
      assert (a + b)[..|a + b| - 1] == a + b[..|b| - 1];
    }
  }

  lemma {:induction false} EmissionsTotal(p: Fixed, open: Open, q: seq<Rank>)
    requires forall r :: r in q ==> r in open
    requires forall i, j :: 0 <= i < j < |q| ==> q[i] != q[j]
    ensures Reported(Emissions(p, open, q)) + OpenTotal(p.agg, open - (set r | r in q)) == OpenTotal(p.agg, open)
    decreases |q|
  {
    if q == [] {
      assert open - (set r | r in q) == open;
    } else {
      var front, last := q[..|q| - 1], q[|q| - 1];
      InFront(q);
      NotInFront(q);
      EmissionsTotal(p, open, front);
      assert Emissions(p, open, q)[..|q| - 1] == Emissions(p, open, front);
      var kept := open - (set r | r in front);
      OpenTotalAt(p.agg, kept, last);
      assert kept - {last} == open - (set r | r in q);
    }
  }

  lemma ClosingTotal(p: Fixed, open: Open, m: int, tail: Output)
    requires !tail.Emit?
    ensures Reported(Closing(p, open, m) + [tail]) + OpenTotal(p.agg, open - Ready(p, open, m)) ==
            OpenTotal(p.agg, open)
  {
    var q := InOrder(Ready(p, open, m));
    InOrderIs(Ready(p, open, m));
    forall i, j | 0 <= i < j < |q| ensures q[i] != q[j] {
      BeforeTotal(q[i], q[j]);
    }
    EmissionsTotal(p, open, q);
    assert (set r | r in q) == Ready(p, open, m);
    assert (Closing(p, open, m) + [tail])[..|q|] == Closing(p, open, m);
  }

  /** What the events contribute: each value once per window that contains it. */
  function Given(p: Fixed, items: seq<Item>): int
    requires Proper(p)
  {
    if items == [] then 0
    else
      var last := items[|items| - 1];
      Given(p, items[..|items| - 1]) +
      if last.Data? then |Starts(p, last.e.ts)| * Weight(p.agg, last.e.value) else 0
  }

  /** Nothing is lost or counted twice, late events included: sums and counts
      reported so far and still open add up to what the events contributed. */
  lemma {:induction false} Conserved(p: Fixed, items: seq<Item>)
    requires Proper(p) && Additive(p.agg)
    ensures Reported(Run(p, map[], items).1) + OpenTotal(p.agg, Run(p, map[], items).0) == Given(p, items)
  {
    if items != [] {
      var front, last := items[..|items| - 1], items[|items| - 1];
      Conserved(p, front);
      var run := Run(p, map[], front);
      ReportedConcat(run.1, Step(p, run.0, last).1);
      match last
      case Data(e) => FoldEachTotal(p.agg, run.0, Starts(p, e.ts), e.key, e.value);
      case Junk =>
      case Watermark(w) => ClosingTotal(p, run.0, w, Passed(w));
      case Done => ClosingTotal(p, run.0, MAX, Finished);
    }
  }

  /** Number or sum of all events, late or not. */
  function EventTotal(agg: Agg, items: seq<Item>): int {
    if items == [] then 0
    else
      var last := items[|items| - 1];
      EventTotal(agg, items[..|items| - 1]) + if last.Data? then Weight(agg, last.e.value) else 0
  }

  lemma {:induction false} TumblingGives(p: Fixed, items: seq<Item>)
    requires Proper(p) && p.slide == p.size
    ensures Given(p, items) == EventTotal(p.agg, items)
  {
    if items != [] {
      TumblingGives(p, items[..|items| - 1]);
      if items[|items| - 1].Data? { TumblingHasOne(p, items[|items| - 1].e.ts); }
    }
  }

  /** A finished tumbling run reports the total of all events, however late. */
  lemma TumblingConserves(p: Fixed, items: seq<Item>)
    requires Proper(p) && Additive(p.agg) && p.slide == p.size
    requires InRange(p, items) && items != [] && items[|items| - 1].Done?
    ensures Reported(Run(p, map[], items).1) == EventTotal(p.agg, items)
  {
    Conserved(p, items);
    TumblingGives(p, items);
    RunPlain(p, items);
    forall w: Rank ensures w !in Run(p, map[], items).0 {
      if w.pos == 0 {
        RunStands(p, items, w);
        NothingLeft(p, items, w);
      }
    }
    assert Run(p, map[], items).0 == map[];
  }
}
