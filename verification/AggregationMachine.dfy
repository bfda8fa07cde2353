/** Local aggregation and merging as loops over hash maps, and the windows a row
    falls in (crates/query/src/distributed.rs, crates/query/src/sql.rs). */
module AggregationMachine {
  import opened Aggregation
  import opened Sets
  import W = WindowModel
  import B = WindowBatch

  predicate Descending(q: seq<int>) {
    forall i, j :: 0 <= i < j < |q| ==> q[j] < q[i]
  }

  lemma {:induction false} StartsDescend(p: W.Fixed, start: int, ts: int)
    requires W.Proper(p)
    ensures forall s :: s in W.StartsFrom(p, start, ts) ==> s <= start
    ensures Descending(W.StartsFrom(p, start, ts))
    decreases start - (ts - p.size)
  {
    if start > ts - p.size {
      var q, rest := W.StartsFrom(p, start, ts), W.StartsFrom(p, start - p.slide, ts);
      StartsDescend(p, start - p.slide, ts);
      forall i, j | 0 <= i < j < |q| ensures q[j] < q[i] {
        assert q[j] == rest[j - 1] && rest[j - 1] in rest;
      }
    }
  }

  /** The windows of `size`, one every `slide`, that contain `ts`, in order. */
  method HopWindows(p: W.Fixed, ts: int) returns (out: seq<(int, int)>)
    requires W.Proper(p)
    ensures forall s :: (s, s + p.size) in out <==> B.Covers(p, s, ts)
    ensures forall i :: 0 <= i < |out| ==> out[i].1 == out[i].0 + p.size
    ensures forall i, j :: 0 <= i < j < |out| ==> out[i].0 < out[j].0
  {
    var starts := HopStarts(p, ts);
    StartsDescend(p, W.Floor(ts, p.slide), ts);
    B.StartsAre(p, ts);
    out := [];
    var i := |starts|;
    while i > 0
      invariant 0 <= i <= |starts| == |out| + i
      invariant forall j :: 0 <= j < |out| ==> out[j] == (starts[|starts| - 1 - j], starts[|starts| - 1 - j] + p.size)
    {
      i := i - 1;
      out := out + [(starts[i], starts[i] + p.size)];
    }
    forall x, y | 0 <= x < y < |out| ensures out[x].0 < out[y].0 {
      assert starts[|starts| - 1 - x] < starts[|starts| - 1 - y];
    }
    forall s ensures (s, s + p.size) in out <==> B.Covers(p, s, ts) {
      assert s in starts <==> B.Covers(p, s, ts);
      if s in starts {
        var j :| 0 <= j < |starts| && starts[j] == s;
        assert out[|starts| - 1 - j] == (s, s + p.size);
      }
    }
  }

  method HopStarts(p: W.Fixed, ts: int) returns (starts: seq<int>)
    requires W.Proper(p)
    ensures starts == W.Starts(p, ts)
  {
    starts := [];
    var s := W.Floor(ts, p.slide);
    while s > ts - p.size
      invariant starts + W.StartsFrom(p, s, ts) == W.Starts(p, ts)
      decreases s - (ts - p.size)
    {
      assert starts + ([s] + W.StartsFrom(p, s - p.slide, ts)) == starts + [s] + W.StartsFrom(p, s - p.slide, ts);
      starts := starts + [s];
      s := s - p.slide;
    }
  }

  /** Fold a row into one group's accumulators, column by column. */
  method FoldIn(q: Query, accs: seq<Acc>, row: Row) returns (out: seq<Acc>)
    requires |accs| == |q.readings|
    ensures out == FoldRow(q, accs, row)
  {
    out := accs;
    var i := 0;
    while i < |accs|
      invariant 0 <= i <= |accs| == |out|
      invariant forall j :: 0 <= j < i ==> out[j] == FoldRow(q, accs, row)[j]
      invariant forall j :: i <= j < |accs| ==> out[j] == accs[j]
    {
      var a := out[i].(rows := out[i].rows + 1);
      var x := q.readings[i](row);
      out := out[i := if x.Number? then AddValue(a, x.x) else a];
      i := i + 1;
    }
  }

  /** One member's partial over its rows. */
  method LocalPartial(q: Query, rows: seq<Row>) returns (p: Partial)
    ensures p == Local(q, rows)
  {
    p := map[];
    var i := 0;
    while i < |rows|
      invariant 0 <= i <= |rows|
      invariant p == Local(q, rows[..i])
    {
      assert rows[..i + 1][..i] == rows[..i];
      if q.filter(rows[i]) { p := AddRowTo(q, p, q.groups(rows[i]), rows[i]); }
      i := i + 1;
    }
    assert rows[..i] == rows;
  }

  method AddRowTo(q: Query, p: Partial, gs: seq<Group>, row: Row) returns (out: Partial)
    requires Shaped(q, p)
    ensures out == AddToEach(q, p, gs, row)
  {
    out := p;
    var i := 0;
    while i < |gs|
      invariant 0 <= i <= |gs|
      invariant out == AddToEach(q, p, gs[..i], row)
    {
      assert gs[..i + 1][..i] == gs[..i];
      var accs := FoldIn(q, if gs[i] in out then out[gs[i]] else Blank(|q.readings|), row);
      out := out[gs[i] := accs];
      i := i + 1;
    }
    assert gs[..i] == gs;
  }

  method MergeColumns(a: seq<Acc>, b: seq<Acc>) returns (out: seq<Acc>)
    ensures out == MergeAccs(a, b)
  {
    out := a;
    var i := 0;
    while i < |b|
      invariant 0 <= i <= |b| && |out| == |a|
      invariant forall j :: 0 <= j < |a| ==> out[j] == if j < i then MergeAccs(a, b)[j] else a[j]
    {
      if i < |out| { out := out[i := MergeAcc(out[i], b[i])]; }
      i := i + 1;
    }
  }

  /** Merge one partial in, group by group in whatever order its map yields. */
  method MergeOne(into: Partial, p: Partial) returns (out: Partial)
    ensures out == MergeIn(into, p)
  {
    out := into;
    var left := p.Keys;
    while left != {}
      invariant left <= p.Keys
      invariant forall g :: g in out <==> g in into || (g in p && g !in left)
      invariant forall g :: g in out ==> out[g] == if g in left then into[g] else MergedAt(into, p, g)
      decreases |left|
    {
      var g := AnyOf(left);
      var accs := MergeColumns(if g in out then out[g] else Blank(|p[g]|), p[g]);
      out := out[g := accs];
      left := left - {g};
    }
  }

  method MergePartials(ps: seq<Partial>) returns (out: Partial)
    ensures out == Merge(ps)
  {
    out := map[];
    var i := 0;
    while i < |ps|
      invariant 0 <= i <= |ps|
      invariant out == Merge(ps[..i])
    {
      assert ps[..i + 1][..i] == ps[..i];
      out := MergeOne(out, ps[i]);
      i := i + 1;
    }
    assert ps[..i] == ps;
  }
}
