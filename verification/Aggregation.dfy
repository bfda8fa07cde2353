/** Two-phase aggregation (crates/query/src/distributed.rs): each member folds its
    rows into per-group accumulators; the coordinator merges the partials.  Sums
    are exact.  A query is a filter, the groups a row falls in and a numeric
    reading per aggregate column; any functions. */
module Aggregation {
  import opened Bytes

  type Row = seq<Byte>

  datatype Cell = NoText | Text(s: seq<Byte>)

  type Group = seq<Cell>

  datatype Reading = NoNumber | Number(x: real)

  /** The reading of a count column is never a number. */
  datatype Query = Query(filter: Row -> bool, groups: Row -> seq<Group>, readings: seq<Row -> Reading>)

  datatype Acc = Acc(rows: int, sum: real, nvals: int, min: real, max: real, seen: bool)

  const NONE := Acc(0, 0.0, 0, 0.0, 0.0, false)

  type Partial = map<Group, seq<Acc>>

  function Lower(a: real, b: real): real { if a <= b then a else b }

  function Upper(a: real, b: real): real { if a <= b then b else a }

  function AddValue(a: Acc, x: real): Acc {
    a.(sum := a.sum + x, nvals := a.nvals + 1, seen := true,
       min := if a.seen then Lower(a.min, x) else x,
       max := if a.seen then Upper(a.max, x) else x)
  }

  function AddRow(a: Acc, reading: Reading): Acc {
    var b := a.(rows := a.rows + 1);
    if reading.Number? then AddValue(b, reading.x) else b
  }

  function MergeAcc(a: Acc, b: Acc): Acc {
    Acc(a.rows + b.rows, a.sum + b.sum, a.nvals + b.nvals,
        if !b.seen then a.min else if a.seen then Lower(a.min, b.min) else b.min,
        if !b.seen then a.max else if a.seen then Upper(a.max, b.max) else b.max,
        a.seen || b.seen)
  }

  function Blank(n: nat): (accs: seq<Acc>)
    ensures |accs| == n && forall i :: 0 <= i < n ==> accs[i] == NONE
  {
    seq(n, _ => NONE)
  }

  /** Fold one row into the accumulators of one group. */
  function FoldRow(q: Query, accs: seq<Acc>, row: Row): (out: seq<Acc>)
    requires |accs| == |q.readings|
    ensures |out| == |accs|
  {
    seq(|accs|, i requires 0 <= i < |accs| => AddRow(accs[i], q.readings[i](row)))
  }

  ghost predicate Shaped(q: Query, p: Partial) {
    forall g :: g in p ==> |p[g]| == |q.readings|
  }

  function AddTo(q: Query, p: Partial, g: Group, row: Row): (out: Partial)
    requires Shaped(q, p)
    ensures Shaped(q, out)
  {
    p[g := FoldRow(q, if g in p then p[g] else Blank(|q.readings|), row)]
  }

  function AddToEach(q: Query, p: Partial, gs: seq<Group>, row: Row): (out: Partial)
    requires Shaped(q, p)
    ensures Shaped(q, out)
    decreases |gs|
  {
    if gs == [] then p else AddTo(q, AddToEach(q, p, gs[..|gs| - 1], row), gs[|gs| - 1], row)
  }

  function Take(q: Query, p: Partial, row: Row): (out: Partial)
    requires Shaped(q, p)
    ensures Shaped(q, out)
  {
    if q.filter(row) then AddToEach(q, p, q.groups(row), row) else p
  }

  /** One member's partial over its rows. */
  function Local(q: Query, rows: seq<Row>): (p: Partial)
    ensures Shaped(q, p)
  {
    if rows == [] then map[] else Take(q, Local(q, rows[..|rows| - 1]), rows[|rows| - 1])
  }

  /** Accumulators merged column by column; a group new to the result starts blank. */
  function MergeAccs(a: seq<Acc>, b: seq<Acc>): (out: seq<Acc>)
    ensures |out| == |a|
  {
    seq(|a|, i requires 0 <= i < |a| => if i < |b| then MergeAcc(a[i], b[i]) else a[i])
  }

  function MergedAt(out: Partial, p: Partial, g: Group): seq<Acc>
    requires g in out || g in p
  {
    if g !in p then out[g] else MergeAccs(if g in out then out[g] else Blank(|p[g]|), p[g])
  }

  function MergeIn(out: Partial, p: Partial): Partial {
    map g | g in out.Keys + p.Keys :: MergedAt(out, p, g)
  }

  function Merge(ps: seq<Partial>): Partial {
    if ps == [] then map[] else MergeIn(Merge(ps[..|ps| - 1]), ps[|ps| - 1])
  }

  // ---------- the rows of a group ----------

  function Copies(row: Row, gs: seq<Group>, g: Group): seq<Row> {
    if gs == [] then []
    else
      var front := Copies(row, gs[..|gs| - 1], g);
      if gs[|gs| - 1] == g then front + [row] else front
  }

  /** The rows folded into group `g`, once for each time they fall in it. */
  function Hits(q: Query, rows: seq<Row>, g: Group): seq<Row> {
    if rows == [] then []
    else
      var front, row := Hits(q, rows[..|rows| - 1], g), rows[|rows| - 1];
      if q.filter(row) then front + Copies(row, q.groups(row), g) else front
  }

  function AccOf(reading: Row -> Reading, rows: seq<Row>): Acc {
    if rows == [] then NONE else AddRow(AccOf(reading, rows[..|rows| - 1]), reading(rows[|rows| - 1]))
  }

  function AccsOf(q: Query, rows: seq<Row>): (accs: seq<Acc>)
    ensures |accs| == |q.readings|
    ensures forall i :: 0 <= i < |accs| ==> accs[i] == AccOf(q.readings[i], rows)
  {
    seq(|q.readings|, i requires 0 <= i < |q.readings| => AccOf(q.readings[i], rows))
  }

  /** Group `g` of `p` is there exactly if it has rows, with their aggregate. */
  predicate Sums(q: Query, p: Partial, g: Group, rows: seq<Row>) {
    && (g in p <==> rows != [])
    && (g in p ==> p[g] == AccsOf(q, rows))
  }

  lemma AccGrows(reading: Row -> Reading, rows: seq<Row>, row: Row)
    ensures AccOf(reading, rows + [row]) == AddRow(AccOf(reading, rows), reading(row))
  {
    assert (rows + [row])[..|rows|] == rows;
  }

  lemma AccsGrow(q: Query, rows: seq<Row>, row: Row)
    ensures AccsOf(q, rows + [row]) == FoldRow(q, AccsOf(q, rows), row)
  {
    forall i | 0 <= i < |q.readings| ensures AccsOf(q, rows + [row])[i] == FoldRow(q, AccsOf(q, rows), row)[i] {
      AccGrows(q.readings[i], rows, row);
    }
  }

  lemma {:induction false} EachSums(q: Query, p: Partial, gs: seq<Group>, row: Row, g: Group, rows: seq<Row>)
    requires Shaped(q, p) && Sums(q, p, g, rows)
    ensures Sums(q, AddToEach(q, p, gs, row), g, rows + Copies(row, gs, g))
    decreases |gs|
  {
    if gs == [] {
      assert rows + [] == rows;
    } else {
      var front, last := gs[..|gs| - 1], gs[|gs| - 1];
      EachSums(q, p, front, row, g, rows);
      if last == g {
        var all := rows + Copies(row, front, g);
        AccsGrow(q, all, row);
        assert rows + (Copies(row, front, g) + [row]) == all + [row];
        assert AccsOf(q, []) == Blank(|q.readings|);
      }
    }
  }

  /** A local partial holds, for every group, the aggregate of exactly its rows. */
  lemma {:induction false} LocalSums(q: Query, rows: seq<Row>, g: Group)
    ensures Sums(q, Local(q, rows), g, Hits(q, rows, g))
  {
    if rows != [] {
      var front, row := rows[..|rows| - 1], rows[|rows| - 1];
      LocalSums(q, front, g);
      if q.filter(row) { EachSums(q, Local(q, front), q.groups(row), row, g, Hits(q, front, g)); }
    }
  }

  /** The numbers read from some rows. */
  function Numbers(reading: Row -> Reading, rows: seq<Row>): seq<real> {
    if rows == [] then []
    else
      var front, r := Numbers(reading, rows[..|rows| - 1]), reading(rows[|rows| - 1]);
      if r.Number? then front + [r.x] else front
  }

  function SumOf(xs: seq<real>): real {
    if xs == [] then 0.0 else SumOf(xs[..|xs| - 1]) + xs[|xs| - 1]
  }

  ghost predicate Extremes(a: Acc, xs: seq<real>) {
    && (xs != [] ==> a.min in xs && a.max in xs)
    && (forall x :: x in xs ==> a.min <= x <= a.max)
  }

  lemma ExtremesGrow(a: Acc, xs: seq<real>, x: real)
    requires Extremes(a, xs) && (a.seen <==> xs != [])
    ensures Extremes(AddValue(a, x), xs + [x])
  {
    var b, ys := AddValue(a, x), xs + [x];
    assert x in ys && forall y :: y in ys ==> y in xs || y == x;
    assert xs != [] ==> a.min in ys && a.max in ys;
  }

  /** An accumulator counts the rows, counts and sums their numbers, and holds the
      least and the greatest of them. */
  lemma {:induction false} AccMeans(reading: Row -> Reading, rows: seq<Row>)
    ensures var a, xs := AccOf(reading, rows), Numbers(reading, rows);
            a.rows == |rows| && a.nvals == |xs| && a.sum == SumOf(xs) && (a.seen <==> xs != []) && Extremes(a, xs)
  {
    if rows != [] {
      var front, r := rows[..|rows| - 1], reading(rows[|rows| - 1]);
      AccMeans(reading, front);
      if r.Number? {
        var a, xs := AccOf(reading, front), Numbers(reading, front);
        ExtremesGrow(a.(rows := a.rows + 1), xs, r.x);
        assert (xs + [r.x])[..|xs|] == xs;
      }
    }
  }

  // ---------- merging ----------

  /** What never saw a value has no extremes. */
  predicate Good(a: Acc) {
    !a.seen ==> a.min == 0.0 && a.max == 0.0
  }

  lemma {:induction false} AccIsGood(reading: Row -> Reading, rows: seq<Row>)
    ensures Good(AccOf(reading, rows))
  {
    if rows != [] { AccIsGood(reading, rows[..|rows| - 1]); }
  }

  lemma MergeThenAdd(a: Acc, b: Acc, both: Acc, reading: Reading, b': Acc, both': Acc)
    requires Good(b) && both == MergeAcc(a, b)
    requires b' == AddRow(b, reading) && both' == AddRow(both, reading)
    ensures both' == MergeAcc(a, b')
  {
  }

  lemma MergeNone(a: Acc)
    ensures MergeAcc(a, NONE) == a
  {
  }

  /** Folding is a homomorphism from concatenation to merging. */
  lemma {:induction false} AccConcat(reading: Row -> Reading, a: seq<Row>, b: seq<Row>)
    ensures Splits(reading, a, b)
    decreases |b|
  {
    if b == [] {
      NoMore(reading, a, b);
    } else {
      AccConcat(reading, a, b[..|b| - 1]);
      OneMore(reading, a, b[..|b| - 1], b);
    }
  }

  predicate Splits(reading: Row -> Reading, a: seq<Row>, b: seq<Row>) {
    AccOf(reading, a + b) == MergeAcc(AccOf(reading, a), AccOf(reading, b))
  }

  lemma NoMore(reading: Row -> Reading, a: seq<Row>, b: seq<Row>)
    requires b == []
    ensures Splits(reading, a, b)
  {
    assert a + b == a;
    MergeNone(AccOf(reading, a));
  }

  lemma OneMore(reading: Row -> Reading, a: seq<Row>, front: seq<Row>, b: seq<Row>)
    requires b != [] && front == b[..|b| - 1] && Splits(reading, a, front)
    ensures Splits(reading, a, b)
  {
    var row := b[|b| - 1];
    AccIsGood(reading, front);
    assert a + b == a + front + [row] && b == front + [row];
    AccGrows(reading, a + front, row);
    MergeThenAdd(AccOf(reading, a), AccOf(reading, front), AccOf(reading, a + front), reading(row),
                 AccOf(reading, b), AccOf(reading, a + b));
  }

  lemma AccsConcat(q: Query, a: seq<Row>, b: seq<Row>)
    ensures AccsOf(q, a + b) == MergeAccs(AccsOf(q, a), AccsOf(q, b))
  {
    forall i | 0 <= i < |q.readings| ensures AccsOf(q, a + b)[i] == MergeAccs(AccsOf(q, a), AccsOf(q, b))[i] {
      AccConcat(q.readings[i], a, b);
    }
  }

  lemma MergeSums(q: Query, x: Partial, y: Partial, g: Group, a: seq<Row>, b: seq<Row>)
    requires Sums(q, x, g, a) && Sums(q, y, g, b)
    ensures Sums(q, MergeIn(x, y), g, a + b)
  {
    AccsConcat(q, a, b);
    assert AccsOf(q, []) == Blank(|q.readings|);
    assert b == [] ==> a + b == a;
  }

  lemma {:induction false} HitsConcat(q: Query, a: seq<Row>, b: seq<Row>, g: Group)
    ensures Hits(q, a + b, g) == Hits(q, a, g) + Hits(q, b, g)
    decreases |b|
  {
    if b == [] {
      assert a + b == a;
    } else {
      HitsConcat(q, a, b[..|b| - 1], g);
      assert (a + b)[..|a + b| - 1] == a + b[..|b| - 1];
    }
  }

  lemma SumsUnique(q: Query, x: Partial, y: Partial, hits: Group -> seq<Row>)
    requires forall g :: Sums(q, x, g, hits(g)) && Sums(q, y, g, hits(g))
    ensures x == y
  {
    forall g ensures g in x <==> g in y {
      assert Sums(q, x, g, hits(g)) && Sums(q, y, g, hits(g));
    }
    forall g | g in x ensures x[g] == y[g] {
      assert Sums(q, x, g, hits(g)) && Sums(q, y, g, hits(g));
    }
  }

  function Joined(parts: seq<seq<Row>>): seq<Row> {
    if parts == [] then [] else Joined(parts[..|parts| - 1]) + parts[|parts| - 1]
  }

  function Locals(q: Query, parts: seq<seq<Row>>): (ps: seq<Partial>)
    ensures |ps| == |parts|
    ensures forall i :: 0 <= i < |parts| ==> ps[i] == Local(q, parts[i])
  {
    seq(|parts|, i requires 0 <= i < |parts| => Local(q, parts[i]))
  }

  lemma {:induction false} MergedSums(q: Query, parts: seq<seq<Row>>, g: Group)
    ensures Sums(q, Merge(Locals(q, parts)), g, Hits(q, Joined(parts), g))
    decreases |parts|
  {
    if parts != [] {
      var front, last := parts[..|parts| - 1], parts[|parts| - 1];
      MergedSums(q, front, g);
      LocalSums(q, last, g);
      assert Locals(q, parts)[..|parts| - 1] == Locals(q, front);
      MergeSums(q, Merge(Locals(q, front)), Local(q, last), g, Hits(q, Joined(front), g), Hits(q, last, g));
      HitsConcat(q, Joined(front), last, g);
    }
  }

  // ---------- order ----------

  lemma MergeCommutes(a: Acc, b: Acc)
    requires Good(a) && Good(b)
    ensures MergeAcc(a, b) == MergeAcc(b, a)
  {
  }

  lemma MergeAssociates(a: Acc, b: Acc, c: Acc)
    ensures MergeAcc(MergeAcc(a, b), c) == MergeAcc(a, MergeAcc(b, c))
  {
  }

  lemma MoveLast(reading: Row -> Reading, a: seq<Row>, row: Row, b: seq<Row>)
    ensures AccOf(reading, a + [row] + b) == AccOf(reading, a + b + [row])
  {
    var x, y, z := AccOf(reading, a), AccOf(reading, [row]), AccOf(reading, b);
    AccConcat(reading, a + [row], b);
    AccConcat(reading, a, [row]);
    AccConcat(reading, a + b, [row]);
    AccConcat(reading, a, b);
    AccIsGood(reading, [row]);
    AccIsGood(reading, b);
    MergeAssociates(x, y, z);
    MergeAssociates(x, z, y);
    MergeCommutes(y, z);
  }

  lemma {:induction false} OrderIrrelevant(reading: Row -> Reading, a: seq<Row>, b: seq<Row>)
    requires multiset(a) == multiset(b)
    ensures AccOf(reading, a) == AccOf(reading, b)
    decreases |a|
  {
    SameSize(a, b);
    if a != [] {
      var front, row, i := MatchLast(a, b);
      var x, y := b[..i], b[i + 1..];
      assert b == x + [row] + y;
      OrderIrrelevant(reading, front, x + y);
      MoveLast(reading, x, row, y);
      AccGrows(reading, front, row);
      AccGrows(reading, x + y, row);
    }
  }

  /** The last element of `a` somewhere in `b`. */
  lemma MatchLast(a: seq<Row>, b: seq<Row>) returns (front: seq<Row>, row: Row, i: nat)
    requires a != [] && multiset(a) == multiset(b)
    ensures a == front + [row] && |front| == |a| - 1
    ensures i < |b| && b[i] == row && multiset(front) == multiset(b[..i] + b[i + 1..])
  {
    front, row := a[..|a| - 1], a[|a| - 1];
    assert a == front + [row];
    assert row in multiset(b);
    i :| 0 <= i < |b| && b[i] == row;
    DropOne(b, i);
    assert multiset(a) == multiset(front) + multiset{row};
    assert multiset(front) == multiset(a) - multiset{row};
    assert multiset(b[..i] + b[i + 1..]) == multiset(b) - multiset{row};
  }

  lemma DropOne(b: seq<Row>, i: nat)
    requires i < |b|
    ensures multiset(b) == multiset(b[..i] + b[i + 1..]) + multiset{b[i]}
  {
    assert b == b[..i] + [b[i]] + b[i + 1..];
  }

  lemma SameSize(a: seq<Row>, b: seq<Row>)
    requires multiset(a) == multiset(b)
    ensures |a| == |b|
  {
    assert |multiset(a)| == |a| && |multiset(b)| == |b|;
  }

  lemma {:induction false} HitsOf(q: Query, rows: seq<Row>, i: nat, g: Group)
    requires i < |rows|
    ensures multiset(Hits(q, rows, g)) ==
            multiset(Hits(q, rows[..i] + rows[i + 1..], g)) + multiset(Hits(q, [rows[i]], g))
  {
    var a, b := rows[..i], rows[i + 1..];
    assert rows == a + [rows[i]] + b;
    HitsConcat(q, a + [rows[i]], b, g);
    HitsConcat(q, a, [rows[i]], g);
    HitsConcat(q, a, b, g);
  }

  lemma {:induction false} HitsPermuted(q: Query, a: seq<Row>, b: seq<Row>, g: Group)
    requires multiset(a) == multiset(b)
    ensures multiset(Hits(q, a, g)) == multiset(Hits(q, b, g))
    decreases |a|
  {
    SameSize(a, b);
    if a != [] {
      var front, row, i := MatchLast(a, b);
      HitsPermuted(q, front, b[..i] + b[i + 1..], g);
      HitsOf(q, b, i, g);
      HitsConcat(q, front, [row], g);
    }
  }

  lemma PermutedSums(q: Query, p: Partial, g: Group, a: seq<Row>, b: seq<Row>)
    requires multiset(a) == multiset(b) && Sums(q, p, g, a)
    ensures Sums(q, p, g, b)
  {
    SameSize(a, b);
    forall i | 0 <= i < |q.readings| ensures AccsOf(q, a)[i] == AccsOf(q, b)[i] {
      OrderIrrelevant(q.readings[i], a, b);
    }
    assert AccsOf(q, a) == AccsOf(q, b);
  }

  /** However the rows are split over members, and in whatever order each member
      and the coordinator meet them, the merged partial is the partial of one
      member holding all the rows. */
  lemma MergeIsLocal(q: Query, parts: seq<seq<Row>>, rows: seq<Row>)
    requires multiset(Joined(parts)) == multiset(rows)
    ensures Merge(Locals(q, parts)) == Local(q, rows)
  {
    var hits := (g: Group) => Hits(q, rows, g);
    forall g ensures Sums(q, Merge(Locals(q, parts)), g, hits(g)) && Sums(q, Local(q, rows), g, hits(g)) {
      MergedSums(q, parts, g);
      HitsPermuted(q, Joined(parts), rows, g);
      PermutedSums(q, Merge(Locals(q, parts)), g, Hits(q, Joined(parts), g), hits(g));
      LocalSums(q, rows, g);
    }
    SumsUnique(q, Merge(Locals(q, parts)), Local(q, rows), hits);
  }
}
