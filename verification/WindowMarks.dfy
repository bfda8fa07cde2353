/** What passes through a window processor besides its results: watermarks and the
    end, and how results stand to them (crates/jet/src/window.rs). */
module WindowMarks {
  import opened Bytes
  import opened WindowModel
  import opened SessionModel
  import B = WindowBatch

  /** What a watermark and the end are passed on as. */
  function MarkOf(item: Item): seq<Output> {
    match item
    case Watermark(w) => [Passed(w)]
    case Done => [Finished]
    case _ => []
  }

  function Marks(items: seq<Item>): seq<Output> {
    if items == [] then [] else Marks(items[..|items| - 1]) + MarkOf(items[|items| - 1])
  }

  /** The outputs that are not results. */
  function Others(outs: seq<Output>): seq<Output> {
    if outs == [] then []
    else
      var front, last := Others(outs[..|outs| - 1]), outs[|outs| - 1];
      if last.Emit? then front else front + [last]
  }

  lemma {:induction false} OthersConcat(a: seq<Output>, b: seq<Output>)
    ensures Others(a + b) == Others(a) + Others(b)
    decreases |b|
  {
    if b == [] {
      assert a + b == a;
    } else {
      OthersConcat(a, b[..|b| - 1]);
      assert (a + b)[..|a + b| - 1] == a + b[..|b| - 1];
    }
  }

  lemma {:induction false} NoOthers(outs: seq<Output>)
    requires forall i :: 0 <= i < |outs| ==> outs[i].Emit?
    ensures Others(outs) == []
  {
    if outs != [] { NoOthers(outs[..|outs| - 1]); }
  }

  lemma MarkLast(outs: seq<Output>, mark: Output)
    requires (forall i :: 0 <= i < |outs| ==> outs[i].Emit?) && !mark.Emit?
    ensures Others(outs + [mark]) == [mark]
  {
    NoOthers(outs);
    OthersConcat(outs, [mark]);
    assert [mark][..0] == [];
  }

  /** Fixed windows pass watermarks and the end on as they came, in order. */
  lemma {:induction false} FixedMarks(p: Fixed, items: seq<Item>)
    requires Proper(p)
    ensures Others(Run(p, map[], items).1) == Marks(items)
    decreases |items|
  {
    if items != [] {
      var front, last := items[..|items| - 1], items[|items| - 1];
      FixedMarks(p, front);
      var before := Run(p, map[], front);
      OthersConcat(before.1, Step(p, before.0, last).1);
      match last
      case Watermark(w) => MarkLast(Closing(p, before.0, w), Passed(w));
      case Done => MarkLast(Closing(p, before.0, MAX), Finished);
      case _ =>
    }
  }

  lemma SessionStepMarks(gap: int, agg: Agg, open: OpenSessions, item: Item)
    ensures Others(SessionStep(gap, agg, open, item).1) == MarkOf(item)
  {
    match item
    case Watermark(w) => MarkLast(ClosingSessions(open, gap, agg, w), Passed(w));
    case Done => MarkLast(ClosingSessions(open, gap, agg, MAX), Finished);
    case _ =>
  }

  /** And so do session windows. */
  lemma {:induction false} SessionMarks(gap: int, agg: Agg, items: seq<Item>, n: nat)
    requires n <= |items|
    ensures Others(SessionRun(gap, agg, map[], items, n).1) == Marks(items[..n])
    decreases n
  {
    if n > 0 {
      SessionMarks(gap, agg, items, n - 1);
      assert items[..n][..n - 1] == items[..n - 1];
      var before := SessionRun(gap, agg, map[], items, n - 1);
      var out := SessionStep(gap, agg, before.0, items[n - 1]).1;
      OthersConcat(before.1, out);
      SessionStepMarks(gap, agg, before.0, items[n - 1]);
    }
  }

  // ---------- the order of results ----------

  /** From `x` to `y` there are only results. */
  predicate Together(outs: seq<Output>, x: nat, y: nat) {
    x < y < |outs| && forall z :: x <= z <= y ==> outs[z].Emit?
  }

  /** By start, then by key. */
  ghost predicate NotAfter(a: Result, b: Result) {
    a.start < b.start || (a.start == b.start && (a.key == b.key || exists k: nat :: LessAt(a.key, b.key, k)))
  }

  /** Results reported together come by start and then by key, and a mark ends each
      group of them. */
  ghost predicate Tidy(outs: seq<Output>) {
    && (outs != [] ==> !outs[|outs| - 1].Emit?)
    && (forall x: nat, y: nat {:trigger Together(outs, x, y)} ::
          Together(outs, x, y) ==> NotAfter(outs[x].r, outs[y].r))
  }

  ghost predicate Ordered(closing: seq<Output>) {
    && (forall x :: 0 <= x < |closing| ==> closing[x].Emit?)
    && (forall x, y :: 0 <= x < y < |closing| ==> NotAfter(closing[x].r, closing[y].r))
  }

  lemma TidyMore(outs: seq<Output>, closing: seq<Output>, mark: Output)
    requires Tidy(outs) && Ordered(closing) && !mark.Emit?
    ensures Tidy(outs + (closing + [mark]))
  {
    var all := outs + (closing + [mark]);
    assert outs != [] ==> all[|outs| - 1] == outs[|outs| - 1];
    forall x: nat, y: nat | Together(all, x, y) ensures NotAfter(all[x].r, all[y].r) {
      if y < |outs| {
        assert forall z :: x <= z <= y ==> all[z] == outs[z];
        assert Together(outs, x, y);
      } else {
        assert all[y].Emit? && all[|all| - 1] == mark;
        assert all[x] == closing[x - |outs|] && all[y] == closing[y - |outs|];
      }
    }
  }

  lemma RanksNotAfter(a: Rank, b: Rank)
    requires Before(a, b)
    ensures a.start < b.start || (a.start == b.start && (a.key == b.key || exists k: nat :: LessAt(a.key, b.key, k)))
  {
    LexMeans(a.key, b.key);
  }

  lemma ClosingOrdered(p: Fixed, open: Open, w: int)
    ensures Ordered(Closing(p, open, w))
  {
    var q, closing := InOrder(Ready(p, open, w)), Closing(p, open, w);
    InOrderIs(Ready(p, open, w));
    forall x, y | 0 <= x < y < |closing| ensures NotAfter(closing[x].r, closing[y].r) { RanksNotAfter(q[x], q[y]); }
  }

  lemma ClosingSessionsOrdered(open: OpenSessions, gap: int, agg: Agg, w: int)
    ensures Ordered(ClosingSessions(open, gap, agg, w))
  {
    var ready := ReadySessions(open, gap, w);
    var q, closing := InOrder(ready), ClosingSessions(open, gap, agg, w);
    InOrderIs(ready);
    forall x | 0 <= x < |q| ensures closing[x].r.start == q[x].start && closing[x].r.key == q[x].key {
      assert q[x] in q && q[x] in ready;
    }
    forall x, y | 0 <= x < y < |closing| ensures NotAfter(closing[x].r, closing[y].r) { RanksNotAfter(q[x], q[y]); }
  }

  /** Fixed windows report by start and key. */
  lemma {:induction false} FixedTidy(p: Fixed, items: seq<Item>)
    requires Proper(p)
    ensures Tidy(Run(p, map[], items).1)
    decreases |items|
  {
    if items != [] {
      var front, last := items[..|items| - 1], items[|items| - 1];
      FixedTidy(p, front);
      var before := Run(p, map[], front);
      assert before.1 + [] == before.1;
      match last
      case Watermark(w) => ClosingOrdered(p, before.0, w); TidyMore(before.1, Closing(p, before.0, w), Passed(w));
      case Done => ClosingOrdered(p, before.0, MAX); TidyMore(before.1, Closing(p, before.0, MAX), Finished);
      case _ =>
    }
  }

  lemma SessionStepTidy(gap: int, agg: Agg, open: OpenSessions, outs: seq<Output>, item: Item)
    requires Tidy(outs)
    ensures Tidy(outs + SessionStep(gap, agg, open, item).1)
  {
    assert outs + [] == outs;
    match item
    case Watermark(w) =>
      ClosingSessionsOrdered(open, gap, agg, w);
      TidyMore(outs, ClosingSessions(open, gap, agg, w), Passed(w));
    case Done =>
      ClosingSessionsOrdered(open, gap, agg, MAX);
      TidyMore(outs, ClosingSessions(open, gap, agg, MAX), Finished);
    case _ =>
  }

  /** And so do session windows. */
  lemma {:induction false} SessionTidy(gap: int, agg: Agg, items: seq<Item>, n: nat)
    requires n <= |items|
    ensures Tidy(SessionRun(gap, agg, map[], items, n).1)
    decreases n
  {
    if n > 0 {
      SessionTidy(gap, agg, items, n - 1);
      var before := SessionRun(gap, agg, map[], items, n - 1);
      SessionStepTidy(gap, agg, before.0, before.1, items[n - 1]);
    }
  }

  // ---------- no result after the mark it is due by ----------

  /** Every open window ends after every watermark passed on. */
  ghost predicate Beyond(p: Fixed, open: Open, outs: seq<Output>) {
    forall x, r {:trigger outs[x], r in open} ::
      0 <= x < |outs| && outs[x].Passed? && r in open ==> outs[x].w < r.start + p.size
  }

  ghost predicate Prompt(outs: seq<Output>) {
    forall x, y :: 0 <= x < y < |outs| && outs[x].Passed? && outs[y].Emit? ==> outs[x].w < outs[y].r.end
  }

  /** The watermarks passed on are not after `ts`. */
  ghost predicate Reached(outs: seq<Output>, ts: int) {
    forall x :: 0 <= x < |outs| && outs[x].Passed? ==> outs[x].w <= ts
  }

  lemma DataBeyond(p: Fixed, open: Open, outs: seq<Output>, e: Event)
    requires Proper(p) && B.Plain(open) && Beyond(p, open, outs) && Reached(outs, e.ts)
    ensures Beyond(p, FoldEach(open, Starts(p, e.ts), e.key, e.value), outs)
  {
    var starts := Starts(p, e.ts);
    var open' := FoldEach(open, starts, e.key, e.value);
    B.StartsAre(p, e.ts);
    B.FoldEachPlain(open, starts, e.key, e.value);
    forall r | r in open' ensures r in open || e.ts < r.start + p.size {
      B.FoldEachAt(open, starts, e.key, e.value, r);
      if r !in open { assert B.Covers(p, r.start, e.ts); }
    }
  }

  lemma ClosingPrompt(p: Fixed, open: Open, outs: seq<Output>, w: int, mark: Output)
    requires Beyond(p, open, outs) && Prompt(outs) && (mark == Passed(w) || mark == Finished)
    ensures Prompt(outs + (Closing(p, open, w) + [mark]))
    ensures Beyond(p, open - Ready(p, open, w), outs + (Closing(p, open, w) + [mark]))
  {
    var q, closing := InOrder(Ready(p, open, w)), Closing(p, open, w);
    InOrderIs(Ready(p, open, w));
    var all := outs + (closing + [mark]);
    forall x, y | 0 <= x < y < |all| && all[x].Passed? && all[y].Emit? ensures all[x].w < all[y].r.end {
      if y >= |outs| {
        var r := q[y - |outs|];
        assert r in q && r in open;
        assert x < |outs| && all[x] == outs[x] && all[y] == closing[y - |outs|] == Emit(ResultOf(p, open, r));
        assert outs[x].w < r.start + p.size;
      }
    }
    forall x, r | 0 <= x < |all| && all[x].Passed? && r in open - Ready(p, open, w)
      ensures all[x].w < r.start + p.size
    {
      if x < |outs| { assert outs[x].Passed? && r in open; }
    }
  }

  lemma {:induction false} MarksCome(items: seq<Item>, w: int)
    requires Passed(w) in Marks(items)
    ensures Watermark(w) in items
    decreases |items|
  {
    var front := items[..|items| - 1];
    if Passed(w) in Marks(front) {
      MarksCome(front, w);
      assert forall x :: x in front ==> x in items;
    }
  }

  lemma {:induction false} OthersHas(outs: seq<Output>, x: Output)
    ensures x in Others(outs) <==> x in outs && !x.Emit?
    decreases |outs|
  {
    if outs != [] {
      OthersHas(outs[..|outs| - 1], x);
      B.InFront(outs);
    }
  }

  lemma OnTimeReached(p: Fixed, items: seq<Item>, e: Event)
    requires Proper(p) && B.OnTime(items + [Data(e)])
    ensures Reached(Run(p, map[], items).1, e.ts)
  {
    var outs, all := Run(p, map[], items).1, items + [Data(e)];
    FixedMarks(p, items);
    forall x | 0 <= x < |outs| && outs[x].Passed? ensures outs[x].w <= e.ts {
      OthersHas(outs, outs[x]);
      MarksCome(items, outs[x].w);
      var i :| 0 <= i < |items| && items[i] == Watermark(outs[x].w);
      assert all[i] == items[i] && all[|items|] == Data(e);
    }
  }

  /** On a stream without late events, no result of a window comes after a watermark
      at or past that window's end. */
  lemma {:induction false} ResultsArePrompt(p: Fixed, items: seq<Item>)
    requires Proper(p) && B.OnTime(items)
    ensures Prompt(Run(p, map[], items).1)
    ensures Beyond(p, Run(p, map[], items).0, Run(p, map[], items).1)
    decreases |items|
  {
    if items != [] {
      var front, last := items[..|items| - 1], items[|items| - 1];
      ResultsArePrompt(p, front);
      var before := Run(p, map[], front);
      match last
      case Data(e) =>
        assert items == front + [Data(e)];
        OnTimeReached(p, front, e);
        B.RunPlain(p, front);
        DataBeyond(p, before.0, before.1, e);
        assert before.1 + [] == before.1;
      case Junk => assert before.1 + [] == before.1;
      case Watermark(w) => ClosingPrompt(p, before.0, before.1, w, Passed(w));
      case Done => ClosingPrompt(p, before.0, before.1, MAX, Finished);
    }
  }
}
