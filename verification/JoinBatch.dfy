/** The join emits exactly the pairs that meet, once each. */
module JoinBatch {
  import opened Basics
  import opened JoinModel

  lemma {:induction false} SelectHas(retention: int, items: seq<Item>, lim: nat, n: nat, side: Side, k: Key, i: nat)
    requires lim <= n <= |items|
    ensures i in Select(retention, items, lim, n, side, k) <==> i < lim && Matching(retention, items, i, n, side, k)
    decreases lim
  {
    if lim > 0 { SelectHas(retention, items, lim - 1, n, side, k, i); }
  }

  predicate Rising(q: seq<nat>) {
    forall x, y :: 0 <= x < y < |q| ==> q[x] < q[y]
  }

  lemma {:induction false} SelectRises(retention: int, items: seq<Item>, lim: nat, n: nat, side: Side, k: Key)
    requires lim <= n <= |items|
    ensures Rising(Select(retention, items, lim, n, side, k))
    decreases lim
  {
    if lim > 0 {
      var front := Select(retention, items, lim - 1, n, side, k);
      SelectRises(retention, items, lim - 1, n, side, k);
      forall x | 0 <= x < |front| ensures front[x] < lim - 1 {
        SelectHas(retention, items, lim - 1, n, side, k, front[x]);
      }
    }
  }

  lemma PairsWithHas(q: seq<nat>, j: nat, i: nat, l: nat)
    ensures (i, l) in PairsWith(q, j) <==> l == j && i in q
  {
    var ps := PairsWith(q, j);
    if l == j && i in q {
      var x :| 0 <= x < |q| && q[x] == i;
      assert ps[x] == (i, l);
    }
  }

  /** A pair is listed if and only if it meets. */
  lemma {:induction false} PairListed(retention: int, items: seq<Item>, n: nat, i: nat, j: nat)
    requires n <= |items|
    ensures (i, j) in Pairs(retention, items, n) <==> i < j < n && Meets(retention, items, i, j)
    decreases n
  {
    if n > 0 {
      var last := n - 1;
      PairListed(retention, items, last, i, j);
      PairsWithHas(Partners(retention, items, last), last, i, j);
      if items[last].Data? {
        SelectHas(retention, items, last, last, Opposite(items[last].r.side), items[last].r.key, i);
      }
    }
  }

  /** No pair is listed twice. */
  lemma {:induction false} PairsDistinct(retention: int, items: seq<Item>, n: nat)
    requires n <= |items|
    ensures Distinct(Pairs(retention, items, n))
    decreases n
  {
    if n > 0 {
      var last := n - 1;
      var before, q := Pairs(retention, items, last), Partners(retention, items, last);
      PairsDistinct(retention, items, last);
      if items[last].Data? {
        SelectRises(retention, items, last, last, Opposite(items[last].r.side), items[last].r.key);
      }
      forall x | 0 <= x < |before| ensures before[x].1 < last {
        assert (before[x].0, before[x].1) in before;
        PairListed(retention, items, last, before[x].0, before[x].1);
      }
      DistinctAppend(before, q, last);
    }
  }

  lemma DistinctAppend(before: seq<(nat, nat)>, q: seq<nat>, j: nat)
    requires Distinct(before) && Rising(q) && forall x :: 0 <= x < |before| ==> before[x].1 < j
    ensures Distinct(before + PairsWith(q, j))
  {
  }

  // ---------- the buffers ----------

  function EntryAt(items: seq<Item>, i: nat): Entry
    requires i < |items| && items[i].Data?
  {
    Entry(items[i].r.ts, items[i].r.payload)
  }

  /** The buffered entries of the records at `q`. */
  function Entries(items: seq<Item>, q: seq<nat>): (es: seq<Entry>)
    requires forall x :: 0 <= x < |q| ==> q[x] < |items| && items[q[x]].Data?
    ensures |es| == |q|
    ensures forall x :: 0 <= x < |q| ==> es[x] == EntryAt(items, q[x])
  {
    seq(|q|, x requires 0 <= x < |q| => EntryAt(items, q[x]))
  }

  /** What one side should hold for key `k` after `n` items. */
  function Kept(retention: int, items: seq<Item>, n: nat, side: Side, k: Key): seq<Entry>
    requires n <= |items|
  {
    KeptBelow(retention, items, n, n, side, k)
  }

  function KeptBelow(retention: int, items: seq<Item>, lim: nat, n: nat, side: Side, k: Key): seq<Entry>
    requires lim <= n <= |items|
  {
    if lim == 0 then []
    else
      var front := KeptBelow(retention, items, lim - 1, n, side, k);
      if Matching(retention, items, lim - 1, n, side, k) then front + [EntryAt(items, lim - 1)] else front
  }

  predicate Records(items: seq<Item>, q: seq<nat>) {
    forall x :: 0 <= x < |q| ==> q[x] < |items| && items[q[x]].Data?
  }

  lemma {:induction false} KeptIsSelected(retention: int, items: seq<Item>, lim: nat, n: nat, side: Side, k: Key)
    requires lim <= n <= |items|
    ensures var q := Select(retention, items, lim, n, side, k);
            Records(items, q) && Entries(items, q) == KeptBelow(retention, items, lim, n, side, k)
    decreases lim
  {
    if lim > 0 { KeptIsSelected(retention, items, lim - 1, n, side, k); }
  }

  lemma AliveNext(retention: int, items: seq<Item>, i: nat, n: nat)
    requires i < n < |items| && items[i].Data?
    ensures Alive(retention, items, i, n + 1) <==>
            Alive(retention, items, i, n) && !Evicts(retention, items[n], items[i].r.ts)
  {
    if Alive(retention, items, i, n + 1) {
      assert !Evicts(retention, items[n], items[i].r.ts);
    }
  }

  /** Items other than watermarks evict nothing. */
  lemma {:induction false} KeptStays(retention: int, items: seq<Item>, lim: nat, n: nat, side: Side, k: Key)
    requires lim <= n < |items| && !(items[n].Watermark? && retention != FOREVER)
    ensures KeptBelow(retention, items, lim, n + 1, side, k) == KeptBelow(retention, items, lim, n, side, k)
    decreases lim
  {
    if lim > 0 {
      KeptStays(retention, items, lim - 1, n, side, k);
      if items[lim - 1].Data? { AliveNext(retention, items, lim - 1, n); }
    }
  }

  lemma FreshGrows(list: seq<Entry>, e: Entry, cutoff: int)
    ensures Fresh(list + [e], cutoff) == if e.ts >= cutoff then Fresh(list, cutoff) + [e] else Fresh(list, cutoff)
  {
    assert (list + [e])[..|list|] == list;
  }

  /** A watermark keeps exactly the records recent enough. */
  lemma {:induction false} KeptThinned(retention: int, items: seq<Item>, lim: nat, n: nat, side: Side, k: Key)
    requires lim <= n < |items| && items[n].Watermark? && retention != FOREVER
    ensures KeptBelow(retention, items, lim, n + 1, side, k) ==
            Fresh(KeptBelow(retention, items, lim, n, side, k), items[n].w - retention)
    decreases lim
  {
    if lim > 0 {
      KeptThinned(retention, items, lim - 1, n, side, k);
      if items[lim - 1].Data? {
        AliveNext(retention, items, lim - 1, n);
        FreshGrows(KeptBelow(retention, items, lim - 1, n, side, k), EntryAt(items, lim - 1), items[n].w - retention);
      }
    }
  }

  lemma EvictHeld(b: Buffer, cutoff: int, k: Key)
    ensures Held(Evict(b, cutoff), k) == Fresh(Held(b, k), cutoff)
  {
  }

  /** The buffers hold exactly the records not evicted, in order of arrival. */
  ghost predicate Holds(retention: int, items: seq<Item>, n: nat, b: Buffers)
    requires n <= |items|
  {
    forall side, k {:trigger Held(b.Of(side), k)} :: Held(b.Of(side), k) == Kept(retention, items, n, side, k)
  }

  lemma StepHolds(retention: int, items: seq<Item>, n: nat, b: Buffers)
    requires n < |items| && Holds(retention, items, n, b)
    ensures Holds(retention, items, n + 1, Step(retention, b, items[n]).0)
  {
    var b' := Step(retention, b, items[n]).0;
    forall side, k ensures Held(b'.Of(side), k) == Kept(retention, items, n + 1, side, k) {
      assert Held(b.Of(side), k) == Kept(retention, items, n, side, k);
      if items[n].Watermark? && retention != FOREVER {
        KeptThinned(retention, items, n, n, side, k);
        EvictHeld(b.Of(side), items[n].w - retention, k);
      } else {
        KeptStays(retention, items, n, n, side, k);
      }
    }
  }

  lemma {:induction false} RunHolds(retention: int, items: seq<Item>, n: nat)
    requires n <= |items|
    ensures Holds(retention, items, n, Run(retention, EMPTY, items, n).0)
    decreases n
  {
    if n > 0 {
      RunHolds(retention, items, n - 1);
      StepHolds(retention, items, n - 1, Run(retention, EMPTY, items, n - 1).0);
    }
  }

  // ---------- the output ----------

  /** The key, the payload of the record of the left side, then that of the right. */
  function JoinOf(items: seq<Item>, p: (nat, nat)): Output
    requires p.0 < |items| && p.1 < |items| && items[p.0].Data? && items[p.1].Data?
  {
    var (a, b) := (items[p.0].r, items[p.1].r);
    if a.side == Left then Joined(a.key, a.payload, b.payload) else Joined(a.key, b.payload, a.payload)
  }

  predicate AllData(items: seq<Item>, ps: seq<(nat, nat)>) {
    forall x :: 0 <= x < |ps| ==>
      ps[x].0 < |items| && ps[x].1 < |items| && items[ps[x].0].Data? && items[ps[x].1].Data?
  }

  function JoinsOf(items: seq<Item>, ps: seq<(nat, nat)>): (out: seq<Output>)
    requires AllData(items, ps)
    ensures |out| == |ps|
    ensures forall x :: 0 <= x < |ps| ==> out[x] == JoinOf(items, ps[x])
  {
    seq(|ps|, x requires 0 <= x < |ps| => JoinOf(items, ps[x]))
  }

  /** The joined records among `outs`. */
  function Results(outs: seq<Output>): seq<Output> {
    if outs == [] then []
    else
      var front, last := Results(outs[..|outs| - 1]), outs[|outs| - 1];
      if last.Joined? then front + [last] else front
  }

  lemma {:induction false} ResultsConcat(a: seq<Output>, b: seq<Output>)
    ensures Results(a + b) == Results(a) + Results(b)
    decreases |b|
  {
    if b == [] {
      assert a + b == a;
    } else {
      ResultsConcat(a, b[..|b| - 1]);
      assert (a + b)[..|a + b| - 1] == a + b[..|b| - 1];
    }
  }

  lemma {:induction false} AllResults(outs: seq<Output>)
    requires forall i :: 0 <= i < |outs| ==> outs[i].Joined?
    ensures Results(outs) == outs
  {
    if outs != [] { AllResults(outs[..|outs| - 1]); }
  }

  /** The joined records among `outs` are those of the pairs `ps`, in order. */
  ghost predicate Exact(items: seq<Item>, ps: seq<(nat, nat)>, outs: seq<Output>) {
    AllData(items, ps) && Results(outs) == JoinsOf(items, ps)
  }

  lemma MeetingsJoin(retention: int, items: seq<Item>, n: nat)
    requires n < |items| && items[n].Data?
    ensures var q := Partners(retention, items, n);
            && Records(items, q)
            && AllData(items, PairsWith(q, n))
            && Meetings(items[n].r, Entries(items, q)) == JoinsOf(items, PairsWith(q, n))
  {
    var q, r := Partners(retention, items, n), items[n].r;
    forall x | 0 <= x < |q|
      ensures q[x] < n && items[q[x]].Data? && Meet(r, items[q[x]].r.payload) == JoinOf(items, (q[x], n))
    {
      SelectHas(retention, items, n, n, Opposite(r.side), r.key, q[x]);
    }
  }

  lemma StepJoins(retention: int, items: seq<Item>, n: nat, b: Buffers)
    requires n < |items| && Holds(retention, items, n, b)
    ensures Exact(items, PairsWith(Partners(retention, items, n), n), Step(retention, b, items[n]).1)
  {
    var q := Partners(retention, items, n);
    var out := Step(retention, b, items[n]).1;
    if items[n].Data? {
      var r := items[n].r;
      var side := Opposite(r.side);
      KeptIsSelected(retention, items, n, n, side, r.key);
      assert Held(b.Of(side), r.key) == Kept(retention, items, n, side, r.key);
      AllResults(out);
      MeetingsJoin(retention, items, n);
    } else if |out| == 1 {
      assert out[..0] == [];
    }
  }

  lemma ExactNone(retention: int, items: seq<Item>)
    ensures ExactAt(retention, items, 0)
  {
    assert JoinsOf(items, []) == [];
  }

  lemma ExactConcat(items: seq<Item>, ps: seq<(nat, nat)>, qs: seq<(nat, nat)>, a: seq<Output>, b: seq<Output>)
    requires Exact(items, ps, a) && Exact(items, qs, b)
    ensures Exact(items, ps + qs, a + b)
  {
    ResultsConcat(a, b);
    assert JoinsOf(items, ps + qs) == JoinsOf(items, ps) + JoinsOf(items, qs);
  }

  /** Over every interleaving, the join emits exactly the pairs that meet, once
      each, in the order of `Pairs`. */
  lemma JoinIsExact(retention: int, items: seq<Item>, n: nat)
    requires n <= |items|
    ensures Exact(items, Pairs(retention, items, n), Run(retention, EMPTY, items, n).1)
  {
    var stage := (k: nat) => k <= |items| && ExactAt(retention, items, k);
    ExactNone(retention, items);
    forall k: nat, next: nat | next == k + 1 <= n && stage(k) ensures stage(next) {
      OneMore(retention, items, k, next);
    }
    HandedOn(stage, n);
  }

  ghost predicate ExactAt(retention: int, items: seq<Item>, n: nat)
    requires n <= |items|
  {
    Exact(items, Pairs(retention, items, n), Run(retention, EMPTY, items, n).1)
  }

  lemma OneMore(retention: int, items: seq<Item>, n: nat, next: nat)
    requires next == n + 1 <= |items| && ExactAt(retention, items, n)
    ensures ExactAt(retention, items, next)
  {
    var before := Run(retention, EMPTY, items, n);
    RunHolds(retention, items, n);
    StepJoins(retention, items, n, before.0);
    ExactConcat(items, Pairs(retention, items, n), PairsWith(Partners(retention, items, n), n),
                before.1, Step(retention, before.0, items[n]).1);
  }

  /** What a stream's watermarks and its end are passed on as. */
  function Marks(items: seq<Item>, n: nat): seq<Output>
    requires n <= |items|
  {
    if n == 0 then []
    else Marks(items, n - 1) + match items[n - 1]
                               case Watermark(w) => [Passed(w)]
                               case Done => [Finished]
                               case _ => []
  }

  /** The outputs that are not joined records. */
  function Others(outs: seq<Output>): seq<Output> {
    if outs == [] then []
    else
      var front, last := Others(outs[..|outs| - 1]), outs[|outs| - 1];
      if last.Joined? then front else front + [last]
  }

  lemma {:induction false} OthersConcat(a: seq<Output>, b: seq<Output>)
    ensures Others(a + b) == Others(a) + Others(b)
    decreases |b|
  {
    if b == [] {
      assert a + b == a;
    } else {
      OthersConcat(a, b[..|b| - 1]);
      assert (a + b)[..|a + b| - 1] == a + b[..|b| - 1];
    }
  }

  lemma {:induction false} NoOthers(outs: seq<Output>)
    requires forall i :: 0 <= i < |outs| ==> outs[i].Joined?
    ensures Others(outs) == []
  {
    if outs != [] { NoOthers(outs[..|outs| - 1]); }
  }

  /** Watermarks and the end come through as they came, in order, and nothing else. */
  lemma {:induction false} MarksPass(retention: int, items: seq<Item>, n: nat)
    requires n <= |items|
    ensures Others(Run(retention, EMPTY, items, n).1) == Marks(items, n)
  {
    if n > 0 {
      MarksPass(retention, items, n - 1);
      var before := Run(retention, EMPTY, items, n - 1);
      var out := Step(retention, before.0, items[n - 1]).1;
      OthersConcat(before.1, out);
      if items[n - 1].Data? { NoOthers(out); } else if |out| == 1 { assert out[..0] == []; }
    }
  }

  /** Without a retention bound every left/right pair of equal keys meets. */
  lemma UnboundedIsProduct(items: seq<Item>, i: nat, j: nat)
    requires i < j < |items|
    ensures (i, j) in Pairs(FOREVER, items, |items|) <==>
            && items[i].Data? && items[j].Data?
            && items[i].r.side != items[j].r.side
            && items[i].r.key == items[j].r.key
  {
    PairListed(FOREVER, items, |items|, i, j);
    if items[i].Data? { assert Alive(FOREVER, items, i, j); }
  }
}
