/** When the sums of a two-phase aggregation are exact in 64-bit floats, in
    whatever order they are added up. */
module AggregationFloats {
  import opened Aggregation

  const EXACT := 9007199254740992.0

  predicate Whole(x: real) {
    x.Floor as real == x
  }

  /** Addition of floats: whatever it rounds to, a whole result of magnitude at most
      2^53 is exact, by IEEE 754. */
  ghost predicate Rounding(plus: (real, real) -> real) {
    forall a, b :: Whole(a) && Whole(b) && -EXACT <= a + b <= EXACT ==> plus(a, b) == a + b
  }

  ghost predicate AllWhole(xs: seq<real>) {
    forall i :: 0 <= i < |xs| ==> Whole(xs[i])
  }

  function Size(x: real): real {
    if x < 0.0 then -x else x
  }

  function TotalSize(xs: seq<real>): real {
    if xs == [] then 0.0 else TotalSize(xs[..|xs| - 1]) + Size(xs[|xs| - 1])
  }

  /** A member's sum: numbers added one by one, from zero. */
  function FloatSum(plus: (real, real) -> real, xs: seq<real>): real {
    if xs == [] then 0.0 else plus(FloatSum(plus, xs[..|xs| - 1]), xs[|xs| - 1])
  }

  /** The coordinator's sum: the members' sums added one by one, from zero; a member
      without rows in the group adds nothing. */
  function FloatMerge(plus: (real, real) -> real, q: Query, i: nat, parts: seq<seq<Row>>, g: Group): real
    requires i < |q.readings|
  {
    if parts == [] then 0.0
    else
      var sum, hits := FloatMerge(plus, q, i, parts[..|parts| - 1], g), Hits(q, parts[|parts| - 1], g);
      if hits == [] then sum else plus(sum, FloatSum(plus, Numbers(q.readings[i], hits)))
  }

  lemma WholeSum(a: real, b: real)
    requires Whole(a) && Whole(b)
    ensures Whole(a + b)
  {
    assert a + b == (a.Floor + b.Floor) as real;
  }

  lemma Bounds(a: real, sizeA: real, b: real, sizeB: real)
    requires Size(a) <= sizeA && Size(b) <= sizeB
    ensures Size(a + b) <= sizeA + sizeB
  {
  }

  lemma {:induction false} SumFacts(xs: seq<real>)
    requires AllWhole(xs)
    ensures Whole(SumOf(xs)) && Size(SumOf(xs)) <= TotalSize(xs)
  {
    if xs != [] {
      var front, x := xs[..|xs| - 1], xs[|xs| - 1];
      SumFacts(front);
      WholeSum(SumOf(front), x);
      Bounds(SumOf(front), TotalSize(front), x, Size(x));
    }
  }

  lemma {:induction false} FloatSumIs(plus: (real, real) -> real, xs: seq<real>)
    requires Rounding(plus) && AllWhole(xs) && TotalSize(xs) <= EXACT
    ensures FloatSum(plus, xs) == SumOf(xs)
  {
    if xs != [] {
      var front, x := xs[..|xs| - 1], xs[|xs| - 1];
      SumFacts(xs);
      SumFacts(front);
      FloatSumIs(plus, front);
    }
  }

  lemma {:induction false} NumbersConcat(reading: Row -> Reading, a: seq<Row>, b: seq<Row>)
    ensures Numbers(reading, a + b) == Numbers(reading, a) + Numbers(reading, b)
    decreases |b|
  {
    if b == [] {
      assert a + b == a;
    } else {
      NumbersConcat(reading, a, b[..|b| - 1]);
      assert (a + b)[..|a + b| - 1] == a + b[..|b| - 1];
    }
  }

  lemma {:induction false} SizesConcat(a: seq<real>, b: seq<real>)
    ensures TotalSize(a + b) == TotalSize(a) + TotalSize(b) && SumOf(a + b) == SumOf(a) + SumOf(b)
    ensures TotalSize(b) >= 0.0
    decreases |b|
  {
    if b == [] {
      assert a + b == a;
    } else {
      SizesConcat(a, b[..|b| - 1]);
      assert (a + b)[..|a + b| - 1] == a + b[..|b| - 1];
    }
  }

  lemma AddedExactly(plus: (real, real) -> real, xs: seq<real>, ys: seq<real>)
    requires Rounding(plus) && AllWhole(xs + ys) && TotalSize(xs + ys) <= EXACT
    ensures AllWhole(xs) && AllWhole(ys) && TotalSize(xs) <= EXACT && TotalSize(ys) <= EXACT
    ensures plus(SumOf(xs), SumOf(ys)) == SumOf(xs + ys)
  {
    forall i | 0 <= i < |xs| ensures Whole(xs[i]) { assert (xs + ys)[i] == xs[i]; }
    forall i | 0 <= i < |ys| ensures Whole(ys[i]) { assert (xs + ys)[|xs| + i] == ys[i]; }
    SizesConcat(xs, ys);
    SizesConcat([], xs);
    assert [] + xs == xs;
    SumFacts(xs);
    SumFacts(ys);
    SumFacts(xs + ys);
  }

  lemma {:induction false} FloatMergeIs(plus: (real, real) -> real, q: Query, i: nat, parts: seq<seq<Row>>, g: Group)
    requires i < |q.readings| && Rounding(plus)
    requires var xs := Numbers(q.readings[i], Hits(q, Joined(parts), g)); AllWhole(xs) && TotalSize(xs) <= EXACT
    ensures FloatMerge(plus, q, i, parts, g) == SumOf(Numbers(q.readings[i], Hits(q, Joined(parts), g)))
    decreases |parts|
  {
    if parts != [] {
      var front, last, r := parts[..|parts| - 1], parts[|parts| - 1], q.readings[i];
      var xs, ys := Numbers(r, Hits(q, Joined(front), g)), Numbers(r, Hits(q, last, g));
      HitsConcat(q, Joined(front), last, g);
      NumbersConcat(r, Hits(q, Joined(front), g), Hits(q, last, g));
      AddedExactly(plus, xs, ys);
      FloatMergeIs(plus, q, i, front, g);
      FloatSumIs(plus, ys);
      if Hits(q, last, g) == [] { assert xs + ys == xs; }
    }
  }

  /** Whole numbers whose sizes add up to at most 2^53 are summed exactly: however
      the rows are split and ordered, the sum of a group in floats is the sum in the
      partial of one member holding all the rows. */
  lemma FloatSumsAreExact(plus: (real, real) -> real, q: Query, i: nat, parts: seq<seq<Row>>, rows: seq<Row>, g: Group)
    requires i < |q.readings| && Rounding(plus) && multiset(Joined(parts)) == multiset(rows) && g in Local(q, rows)
    requires var xs := Numbers(q.readings[i], Hits(q, Joined(parts), g)); AllWhole(xs) && TotalSize(xs) <= EXACT
    ensures |Local(q, rows)[g]| == |q.readings|
    ensures FloatMerge(plus, q, i, parts, g) == Local(q, rows)[g][i].sum
  {
    FloatMergeIs(plus, q, i, parts, g);
    MergeIsLocal(q, parts, rows);
    MergedSums(q, parts, g);
    AccMeans(q.readings[i], Hits(q, Joined(parts), g));
  }
}
