/** The windowing processor as the object a pipeline drives: windows and sessions
    updated in place, items taken from the inbox one by one. */
module WindowMachine {
  import opened Bytes
  import opened WindowModel
  import opened SessionModel
  import opened Sets
  import B = WindowBatch

  datatype Kind = Tumbling(size: int) | Sliding(size: int, slide: int) | Gapped(gap: int)

  predicate Usable(kind: Kind) {
    match kind
    case Tumbling(size) => size > 0
    case Sliding(size, slide) => size > 0 && slide > 0
    case Gapped(_) => true
  }

  function FixedOf(kind: Kind, agg: Agg): Fixed
    requires !kind.Gapped?
  {
    Fixed(kind.size, if kind.Tumbling? then kind.size else kind.slide, agg)
  }

  /** `a` sorts before `b` byte by byte. */
  method LexLess(a: Key, b: Key) returns (less: bool)
    ensures less == Lex(a, b)
  {
    var i := 0;
    while i < |a| && i < |b| && a[i] == b[i]
      invariant 0 <= i <= |a| && i <= |b|
      invariant Lex(a, b) == Lex(a[i..], b[i..])
    {
      assert a[i..][1..] == a[i + 1..] && b[i..][1..] == b[i + 1..];
      i := i + 1;
    }
    less := if i < |a| && i < |b| then a[i] < b[i] else i < |b|;
  }

  method RankLess(a: Rank, b: Rank) returns (less: bool)
    ensures less == Before(a, b)
  {
    if a.start != b.start { return a.start < b.start; }
    if a.key == b.key {
      LexTotal(a.key, b.key);
      return a.pos < b.pos;
    }
    less := LexLess(a.key, b.key);
  }

  /** The least element. */
  method FirstOf(s: set<Rank>) returns (m: Rank)
    requires s != {}
    ensures First(s, m)
  {
    m := AnyOf(s);
    var left := s - {m};
    while left != {}
      invariant left <= s && m in s && m !in left
      invariant forall x :: x in s && x !in left && x != m ==> Before(m, x)
      decreases |left|
    {
      var x := AnyOf(left);
      var less := RankLess(x, m);
      BeforeTotal(x, m);
      if less {
        forall y | y in s && y !in left - {x} && y != x ensures Before(x, y) {
          if y != m { BeforeTransitive(x, m, y); }
        }
        m := x;
      }
      left := left - {x};
    }
  }

  lemma InOrderFrom(s: set<Rank>, m: Rank)
    requires First(s, m)
    ensures InOrder(s) == [m] + InOrder(s - {m})
  {
    var x :| First(s, x) && InOrder(s) == [x] + InOrder(s - {x});
    FirstIsUnique(s, m, x);
  }

  /** A set in increasing order, as a sorted map iterates it. */
  method Sorted(s: set<Rank>) returns (q: seq<Rank>)
    ensures q == InOrder(s)
  {
    q := [];
    var left := s;
    while left != {}
      invariant q + InOrder(left) == InOrder(s)
      decreases |left|
    {
      var m := FirstOf(left);
      InOrderFrom(left, m);
      assert q + ([m] + InOrder(left - {m})) == q + [m] + InOrder(left - {m});
      q, left := q + [m], left - {m};
    }
  }

  class WindowProcessor {
    const kind: Kind
    const agg: Agg
    var fixed: Open
    var sessions: OpenSessions

    constructor (kind: Kind, agg: Agg)
      ensures this.kind == kind && this.agg == agg && fixed == map[] && sessions == map[]
    {
      this.kind, this.agg := kind, agg;
      fixed, sessions := map[], map[];
    }

    method FoldIn(start: int, key: Key, value: int)
      modifies this`fixed
      ensures fixed == Fold(old(fixed), Win(start, key), value)
    {
      var w := Win(start, key);
      var acc := if w in fixed then fixed[w] else NO_ACC;
      fixed := fixed[w := Push(acc, value)];
    }

    method AddTumbling(e: Event)
      requires Usable(kind) && kind.Tumbling?
      modifies this`fixed
      ensures fixed == Step(FixedOf(kind, agg), old(fixed), Data(e)).0
    {
      var start := Floor(e.ts, kind.size);
      B.TumblingHasOne(FixedOf(kind, agg), e.ts);
      FoldOne(fixed, start, e.key, e.value);
      FoldIn(start, e.key, e.value);
    }

    method AddSliding(e: Event)
      requires Usable(kind) && kind.Sliding?
      modifies this`fixed
      ensures fixed == Step(FixedOf(kind, agg), old(fixed), Data(e)).0
    {
      ghost var p := FixedOf(kind, agg);
      var start := Floor(e.ts, kind.slide);
      while start > e.ts - kind.size
        invariant FoldEach(fixed, StartsFrom(p, start, e.ts), e.key, e.value) ==
                  FoldEach(old(fixed), Starts(p, e.ts), e.key, e.value)
        decreases start - (e.ts - kind.size)
      {
        assert StartsFrom(p, start, e.ts)[1..] == StartsFrom(p, start - kind.slide, e.ts);
        FoldIn(start, e.key, e.value);
        start := start - kind.slide;
      }
    }

    /** Report and drop every window complete by `w`, in order of start and key. */
    method CloseFixed(w: int) returns (out: seq<Output>)
      requires Usable(kind) && !kind.Gapped?
      modifies this`fixed
      ensures fixed == old(fixed) - Ready(FixedOf(kind, agg), old(fixed), w)
      ensures out == Closing(FixedOf(kind, agg), old(fixed), w)
    {
      ghost var p := FixedOf(kind, agg);
      var ready := set r | r in fixed && r.start + kind.size <= w;
      var q := Sorted(ready);
      InOrderIs(ready);
      assert ready == Ready(p, fixed, w);
      out := Report(kind.size, p, agg, fixed, q);
      fixed := fixed - ready;
    }

    method AddSession(e: Event)
      requires kind.Gapped?
      modifies this`sessions
      ensures sessions == SessionStep(kind.gap, agg, old(sessions), Data(e)).0
    {
      var list := InsertEvent(if e.key in sessions then sessions[e.key] else [], e.ts, e.value, kind.gap);
      sessions := sessions[e.key := list];
    }

    /** Report and drop every session over by `w`, in order of start and key. */
    method CloseSessions(w: int) returns (out: seq<Output>)
      requires kind.Gapped?
      modifies this`sessions
      ensures sessions == KeptAll(old(sessions), kind.gap, w)
      ensures out == ClosingSessions(old(sessions), kind.gap, agg, w)
    {
      var kept, due := SplitAll(sessions, kind.gap, w);
      var q := Sorted(due.Keys);
      InOrderIs(due.Keys);
      out := ReportSessions(agg, sessions, due, q);
      sessions := kept;
    }

    /** What one item does, for fixed windows. */
    method TakeFixed(item: Item) returns (out: seq<Output>)
      requires Usable(kind) && !kind.Gapped?
      modifies this`fixed
      ensures (fixed, out) == Step(FixedOf(kind, agg), old(fixed), item)
    {
      out := [];
      match item
      case Data(e) =>
        if kind.Tumbling? { AddTumbling(e); } else { AddSliding(e); }
      case Junk =>
      case Watermark(w) =>
        out := CloseFixed(w);
        out := out + [Passed(w)];
      case Done =>
        out := CloseFixed(MAX);
        out := out + [Finished];
    }

    /** What one item does, for sessions. */
    method TakeSession(item: Item) returns (out: seq<Output>)
      requires kind.Gapped?
      modifies this`sessions
      ensures (sessions, out) == SessionStep(kind.gap, agg, old(sessions), item)
    {
      out := [];
      match item
      case Data(e) => AddSession(e);
      case Junk =>
      case Watermark(w) =>
        out := CloseSessions(w);
        out := out + [Passed(w)];
      case Done =>
        out := CloseSessions(MAX);
        out := out + [Finished];
    }

    /** Drain the inbox. */
    method Process(inbox: seq<Item>) returns (out: seq<Output>)
      requires Usable(kind)
      modifies this
      ensures !kind.Gapped? ==> (fixed, out) == Run(FixedOf(kind, agg), old(fixed), inbox)
      ensures kind.Gapped? ==> (sessions, out) == SessionRun(kind.gap, agg, old(sessions), inbox, |inbox|)
    {
      if kind.Gapped? { out := ProcessSessions(inbox); } else { out := ProcessFixed(inbox); }
    }

    method ProcessFixed(inbox: seq<Item>) returns (out: seq<Output>)
      requires Usable(kind) && !kind.Gapped?
      modifies this`fixed
      ensures (fixed, out) == Run(FixedOf(kind, agg), old(fixed), inbox)
    {
      out := [];
      var i := 0;
      while i < |inbox|
        invariant 0 <= i <= |inbox|
        invariant (fixed, out) == Run(FixedOf(kind, agg), old(fixed), inbox[..i])
      {
        var more := TakeFixed(inbox[i]);
        assert inbox[..i + 1][..i] == inbox[..i];
        out := out + more;
        i := i + 1;
      }
      assert inbox[..i] == inbox;
    }

    method ProcessSessions(inbox: seq<Item>) returns (out: seq<Output>)
      requires kind.Gapped?
      modifies this`sessions
      ensures (sessions, out) == SessionRun(kind.gap, agg, old(sessions), inbox, |inbox|)
    {
      out := [];
      var i := 0;
      while i < |inbox|
        invariant 0 <= i <= |inbox|
        invariant (sessions, out) == SessionRun(kind.gap, agg, old(sessions), inbox, i)
      {
        ghost var was, before, next := old(sessions), (sessions, out), i + 1;
        var more := TakeSession(inbox[i]);
        SessionRunNext(kind.gap, agg, was, inbox, i, next, before, (sessions, more));
        out, i := out + more, i + 1;
      }
    }
  }

  lemma SessionRunNext(gap: int, agg: Agg, open: OpenSessions, items: seq<Item>, n: nat, next: nat,
                       before: (OpenSessions, seq<Output>), step: (OpenSessions, seq<Output>))
    requires next == n + 1 <= |items|
    requires before == SessionRun(gap, agg, open, items, n) && step == SessionStep(gap, agg, before.0, items[n])
    ensures (step.0, before.1 + step.1) == SessionRun(gap, agg, open, items, next)
  {
  }

  /** Extend the first session near the event, or add one at the end. */
  method InsertEvent(list: seq<Session>, ts: int, v: int, gap: int) returns (out: seq<Session>)
    ensures out == Insert(list, ts, v, gap)
  {
    var i := 0;
    while i < |list| && !(list[i].start - gap <= ts <= list[i].last + gap)
      invariant 0 <= i <= |list|
      invariant Insert(list, ts, v, gap) == list[..i] + Insert(list[i..], ts, v, gap)
    {
      InsertSkips(list, i, ts, v, gap);
      i := i + 1;
    }
    if i < |list| {
      assert list[i..][1..] == list[i + 1..];
      out := list[i := Session(Lower(list[i].start, ts), Upper(list[i].last, ts), Push(list[i].acc, v))];
      assert out == list[..i] + ([Extend(list[i], ts, v)] + list[i + 1..]);
    } else {
      out := list + [Session(ts, ts, Push(NO_ACC, v))];
    }
  }

  lemma InsertSkips(list: seq<Session>, i: nat, ts: int, v: int, gap: int)
    requires i < |list| && !Near(list[i], ts, gap)
    ensures list[..i] + Insert(list[i..], ts, v, gap) == list[..i + 1] + Insert(list[i + 1..], ts, v, gap)
  {
    assert list[i..][1..] == list[i + 1..];
    assert list[..i] + [list[i]] == list[..i + 1];
  }

  lemma FoldOne(open: Open, start: int, key: Key, v: int)
    ensures FoldEach(open, [start], key, v) == Fold(open, Win(start, key), v)
  {
    assert [start][1..] == [];
  }

  /** One result per window, in the given order. */
  method Report(size: int, ghost p: Fixed, agg: Agg, open: Open, q: seq<Rank>) returns (out: seq<Output>)
    requires (forall r :: r in q ==> r in open) && p.size == size && p.agg == agg
    ensures out == Emissions(p, open, q)
  {
    out := [];
    var i := 0;
    while i < |q|
      invariant 0 <= i <= |q| == |Emissions(p, open, q)|
      invariant out == Emissions(p, open, q)[..i]
    {
      assert q[i] in q;
      out := out + [Emit(Result(q[i].start, q[i].start + size, Get(open[q[i]], agg), q[i].key))];
      i := i + 1;
    }
  }

  method ReportSessions(agg: Agg, ghost open: OpenSessions, due: map<Rank, Session>, q: seq<Rank>)
    returns (out: seq<Output>)
    requires forall r :: r in q ==> r in due && r.key in open && r.pos < |open[r.key]| && due[r] == open[r.key][r.pos]
    ensures out == SessionEmissions(open, agg, q)
  {
    out := [];
    var i := 0;
    while i < |q|
      invariant 0 <= i <= |q| == |SessionEmissions(open, agg, q)|
      invariant out == SessionEmissions(open, agg, q)[..i]
    {
      assert q[i] in q;
      var s := due[q[i]];
      out := out + [Emit(Result(s.start, s.last + 1, Get(s.acc, agg), q[i].key))];
      i := i + 1;
    }
  }

  /** Split every key's list, key by key in no particular order. */
  method SplitAll(open: OpenSessions, gap: int, w: int) returns (kept: OpenSessions, due: map<Rank, Session>)
    ensures kept == KeptAll(open, gap, w)
    ensures due.Keys == ReadySessions(open, gap, w)
    ensures forall r :: r in due ==> due[r] == open[r.key][r.pos]
  {
    due, kept := map[], map[];
    var left := open.Keys;
    while left != {}
      invariant left <= open.Keys
      invariant forall r :: r in due <==> r in ReadySessions(open, gap, w) && r.key !in left
      invariant forall r :: r in due ==> due[r] == open[r.key][r.pos]
      invariant forall k :: k in kept <==> k in open && k !in left && Kept(open[k], gap, w) != []
      invariant forall k :: k in kept ==> kept[k] == Kept(open[k], gap, w)
      decreases |left|
    {
      var k := AnyOf(left);
      var list, over := Retain(open[k], gap, w);
      due := due + map i | i in over :: Rank(open[k][i].start, k, i) := open[k][i];
      if list != [] { kept := kept[k := list]; }
      left := left - {k};
    }
  }

  /** What stays of one key's list, and the positions of what goes. */
  method Retain(list: seq<Session>, gap: int, w: int) returns (kept: seq<Session>, over: set<nat>)
    ensures kept == Kept(list, gap, w)
    ensures forall i :: i in over <==> 0 <= i < |list| && Over(list[i], gap, w)
  {
    kept, over := [], {};
    var i := 0;
    while i < |list|
      invariant 0 <= i <= |list|
      invariant kept + Kept(list[i..], gap, w) == Kept(list, gap, w)
      invariant forall j :: j in over <==> 0 <= j < i && Over(list[j], gap, w)
    {
      assert list[i..][1..] == list[i + 1..];
      if list[i].last + gap <= w {
        over := over + {i};
      } else {
        assert kept + ([list[i]] + Kept(list[i + 1..], gap, w)) == kept + [list[i]] + Kept(list[i + 1..], gap, w);
        kept := kept + [list[i]];
      }
      i := i + 1;
    }
  }
}
