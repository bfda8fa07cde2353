/** Streaming over session windows reports the maximal runs of each key. */
module SessionBatch {
  import opened WindowModel
  import opened SessionModel
  import B = WindowBatch

  // ---------- the batch definition ----------

  predicate OfKey(item: Item, k: Key) {
    item.Data? && item.e.key == k
  }

  /** The events of key `k` among the first `n` items, in order of arrival. */
  function EventsOf(items: seq<Item>, n: nat, k: Key): seq<Event>
    requires n <= |items|
  {
    if n == 0 then []
    else
      var evs := EventsOf(items, n - 1, k);
      if OfKey(items[n - 1], k) then evs + [items[n - 1].e] else evs
  }

  predicate Solid(rs: seq<seq<Event>>) {
    forall i :: 0 <= i < |rs| ==> rs[i] != []
  }

  /** An event joins the last run if its step is at most `gap`, else starts one. */
  function AddToRuns(rs: seq<seq<Event>>, e: Event, gap: int): (all: seq<seq<Event>>)
    requires Solid(rs)
    ensures Solid(all)
  {
    if rs == [] then [[e]]
    else
      var run := rs[|rs| - 1];
      if e.ts <= run[|run| - 1].ts + gap then rs[..|rs| - 1] + [run + [e]] else rs + [[e]]
  }

  /** Cut a list of events wherever the step to the next one exceeds `gap`. */
  function Runs(evs: seq<Event>, gap: int): (rs: seq<seq<Event>>)
    ensures Solid(rs)
  {
    if evs == [] then [] else AddToRuns(Runs(evs[..|evs| - 1], gap), evs[|evs| - 1], gap)
  }

  function Joined(rs: seq<seq<Event>>): seq<Event> {
    if rs == [] then [] else Joined(rs[..|rs| - 1]) + rs[|rs| - 1]
  }

  /** No step inside `run` exceeds `gap`. */
  ghost predicate Tight(run: seq<Event>, gap: int) {
    forall i {:trigger Close(run, i, gap)} :: Close(run, i, gap)
  }

  predicate Close(run: seq<Event>, i: int, gap: int) {
    0 < i < |run| ==> run[i].ts <= run[i - 1].ts + gap
  }

  /** The step from one run to the next exceeds `gap`. */
  predicate Separate(a: seq<Event>, b: seq<Event>, gap: int) {
    a != [] && b != [] && b[0].ts > a[|a| - 1].ts + gap
  }

  predicate Parted(rs: seq<seq<Event>>, i: int, gap: int) {
    0 < i < |rs| ==> Separate(rs[i - 1], rs[i], gap)
  }

  ghost predicate Maximal(rs: seq<seq<Event>>, gap: int) {
    && (forall i :: 0 <= i < |rs| ==> Tight(rs[i], gap))
    && (forall i {:trigger Parted(rs, i, gap)} :: Parted(rs, i, gap))
  }

  lemma TightGrows(run: seq<Event>, e: Event, gap: int)
    requires run != [] && Tight(run, gap)
    ensures e.ts <= run[|run| - 1].ts + gap ==> Tight(run + [e], gap)
  {
    if e.ts <= run[|run| - 1].ts + gap {
      forall i ensures Close(run + [e], i, gap) { assert Close(run, i, gap); }
    }
  }

  lemma AddIsMaximal(rs: seq<seq<Event>>, e: Event, gap: int)
    requires Solid(rs) && Maximal(rs, gap)
    ensures Maximal(AddToRuns(rs, e, gap), gap)
  {
    var n, all := |rs| - 1, AddToRuns(rs, e, gap);
    forall i | 0 <= i < |all| ensures Tight(all[i], gap) {
      if i < |rs| {
        assert Tight(rs[i], gap);
        TightGrows(rs[i], e, gap);
      }
    }
    forall i ensures Parted(all, i, gap) {
      assert Parted(rs, i, gap);
    }
  }

  lemma AddJoins(rs: seq<seq<Event>>, e: Event, gap: int)
    requires Solid(rs)
    ensures Joined(AddToRuns(rs, e, gap)) == Joined(rs) + [e]
  {
    var all := AddToRuns(rs, e, gap);
    if |all| == |rs| {
      var n := |rs| - 1;
      assert all[..n] == rs[..n];
      assert Joined(rs[..n]) + (rs[n] + [e]) == Joined(rs[..n]) + rs[n] + [e];
    } else {
      assert all[..|rs|] == rs;
    }
  }

  /** The runs are a cut of the events, none has a step above `gap` inside, and
      every step between two runs is above it. */
  lemma {:induction false} RunsAreMaximal(evs: seq<Event>, gap: int)
    ensures Joined(Runs(evs, gap)) == evs && Maximal(Runs(evs, gap), gap)
  {
    if evs != [] {
      var front, e := evs[..|evs| - 1], evs[|evs| - 1];
      RunsAreMaximal(front, gap);
      AddIsMaximal(Runs(front, gap), e, gap);
      AddJoins(Runs(front, gap), e, gap);
      assert evs == front + [e];
    }
  }

  function ValuesOf(run: seq<Event>): seq<int> {
    seq(|run|, i requires 0 <= i < |run| => run[i].value)
  }

  function TimesOf(run: seq<Event>): seq<int> {
    seq(|run|, i requires 0 <= i < |run| => run[i].ts)
  }

  predicate Timed(evs: seq<Event>) {
    forall i, j :: 0 <= i < j < |evs| ==> evs[i].ts <= evs[j].ts
  }

  /** What the batch definition calls for of one run of key `k`: from its least to
      just past its greatest timestamp, with the figure of its values. */
  ghost function Report(run: seq<Event>, k: Key, agg: Agg): Result
    requires run != []
  {
    Result(B.Figure(Min, TimesOf(run)), B.Figure(Max, TimesOf(run)) + 1, B.Figure(agg, ValuesOf(run)), k)
  }

  ghost function Reports(rs: seq<seq<Event>>, k: Key, agg: Agg): (out: seq<Result>)
    requires Solid(rs)
    ensures |out| == |rs|
    ensures forall i :: 0 <= i < |rs| ==> out[i] == Report(rs[i], k, agg)
  {
    seq(|rs|, i requires 0 <= i < |rs| => Report(rs[i], k, agg))
  }

  /** The session a run stands for. */
  function SessionOf(run: seq<Event>): Session
    requires run != []
  {
    Session(run[0].ts, run[|run| - 1].ts, B.AccOf(ValuesOf(run)))
  }

  function SessionsOf(rs: seq<seq<Event>>): (ss: seq<Session>)
    requires Solid(rs)
    ensures |ss| == |rs|
    ensures forall i :: 0 <= i < |rs| ==> ss[i] == SessionOf(rs[i])
  {
    seq(|rs|, i requires 0 <= i < |rs| => SessionOf(rs[i]))
  }

  /** The sessions of key `k` by the batch definition. */
  function Batch(items: seq<Item>, n: nat, k: Key, gap: int): seq<Session>
    requires n <= |items|
  {
    SessionsOf(Runs(EventsOf(items, n, k), gap))
  }

  // ---------- one more event ----------

  predicate Formed(list: seq<Session>, i: int) {
    0 <= i < |list| ==> list[i].start <= list[i].last
  }

  predicate Apart(list: seq<Session>, i: int, j: int, gap: int) {
    0 <= i < j < |list| ==> list[i].last + gap < list[j].start
  }

  /** In order and more than `gap` apart. */
  ghost predicate Spaced(list: seq<Session>, gap: int) {
    && (forall i {:trigger Formed(list, i)} :: Formed(list, i))
    && (forall i, j {:trigger Apart(list, i, j, gap)} :: Apart(list, i, j, gap))
  }

  /** An event at or after the end of the last session joins it or starts one. */
  function Later(list: seq<Session>, ts: int, v: int, gap: int): seq<Session> {
    if list != [] && ts <= list[|list| - 1].last + gap
    then list[..|list| - 1] + [Extend(list[|list| - 1], ts, v)]
    else list + [NewSession(ts, v)]
  }

  lemma LaterTail(list: seq<Session>, ts: int, v: int, gap: int)
    requires |list| > 1
    ensures Later(list, ts, v, gap) == [list[0]] + Later(list[1..], ts, v, gap)
  {
    var tail := list[1..];
    assert list == [list[0]] + tail && tail[|tail| - 1] == list[|list| - 1];
    assert [list[0]] + tail[..|tail| - 1] == list[..|list| - 1];
  }

  lemma {:induction false} InsertIsLater(list: seq<Session>, ts: int, v: int, gap: int)
    requires gap >= 0 && Spaced(list, gap) && (list != [] ==> list[|list| - 1].last <= ts)
    ensures Insert(list, ts, v, gap) == Later(list, ts, v, gap)
    decreases |list|
  {
    if |list| == 1 {
      assert Formed(list, 0);
      assert list[1..] == [] && list[..0] == [];
      assert Insert(list[1..], ts, v, gap) == [NewSession(ts, v)];
    } else if |list| > 1 {
      SpacedSuffix(list, 1, gap);
      InsertIsLater(list[1..], ts, v, gap);
      LaterTail(list, ts, v, gap);
      assert Apart(list, 0, |list| - 1, gap) && Formed(list, |list| - 1);
    }
  }

  lemma LaterIsSpaced(list: seq<Session>, ts: int, v: int, gap: int)
    requires gap >= 0 && Spaced(list, gap) && (list != [] ==> list[|list| - 1].last <= ts)
    ensures Spaced(Later(list, ts, v, gap), gap)
    ensures var l := Later(list, ts, v, gap); l[|l| - 1].last == ts
  {
    var all, n := Later(list, ts, v, gap), |list| - 1;
    forall i ensures Formed(all, i) {
      assert Formed(list, i);
    }
    forall i, j ensures Apart(all, i, j, gap) {
      assert Apart(list, i, j, gap) && Apart(list, i, n, gap) && Formed(list, n);
    }
  }

  lemma ValuesGrow(run: seq<Event>, e: Event)
    ensures B.AccOf(ValuesOf(run + [e])) == Push(B.AccOf(ValuesOf(run)), e.value)
  {
    assert ValuesOf(run + [e]) == ValuesOf(run) + [e.value];
    B.AccGrows(ValuesOf(run), e.value);
  }

  lemma FirstSession(e: Event)
    ensures SessionOf([e]) == NewSession(e.ts, e.value)
  {
    ValuesGrow([], e);
    assert [] + [e] == [e] && ValuesOf([]) == [];
  }

  lemma LongerSession(run: seq<Event>, e: Event)
    requires run != [] && run[0].ts <= run[|run| - 1].ts <= e.ts
    ensures SessionOf(run + [e]) == Extend(SessionOf(run), e.ts, e.value)
  {
    ValuesGrow(run, e);
  }

  /** The sessions of one more event. */
  lemma SessionsGrow(rs: seq<seq<Event>>, e: Event, gap: int)
    requires Solid(rs)
    requires var ss := SessionsOf(rs); Spaced(ss, gap) && (ss != [] ==> ss[|ss| - 1].last <= e.ts)
    ensures SessionsOf(AddToRuns(rs, e, gap)) == Later(SessionsOf(rs), e.ts, e.value, gap)
  {
    FirstSession(e);
    if rs != [] {
      var run := rs[|rs| - 1];
      assert Formed(SessionsOf(rs), |rs| - 1);
      LongerSession(run, e);
    }
  }

  lemma RunsGrow(evs: seq<Event>, e: Event, gap: int)
    ensures Runs(evs + [e], gap) == AddToRuns(Runs(evs, gap), e, gap)
  {
    assert (evs + [e])[..|evs|] == evs;
  }

  // ---------- closing ----------

  /** How many leading sessions are over. */
  function OverCount(list: seq<Session>, gap: int, w: int): (c: nat)
    ensures c <= |list|
  {
    if list == [] || !Over(list[0], gap, w) then 0 else 1 + OverCount(list[1..], gap, w)
  }

  /** In a spaced list the sessions that are over are the first ones. */
  lemma {:induction false} OverIsPrefix(list: seq<Session>, gap: int, w: int)
    requires gap >= 0 && Spaced(list, gap)
    ensures forall i :: 0 <= i < |list| ==> (Over(list[i], gap, w) <==> i < OverCount(list, gap, w))
    ensures Kept(list, gap, w) == list[OverCount(list, gap, w)..]
    decreases |list|
  {
    if list != [] {
      var tail := list[1..];
      SpacedSuffix(list, 1, gap);
      OverIsPrefix(tail, gap, w);
      assert forall i :: 0 < i < |list| ==> list[i] == tail[i - 1];
      if Over(list[0], gap, w) {
        assert list[1..][OverCount(tail, gap, w)..] == list[1 + OverCount(tail, gap, w)..];
      } else {
        NoneOver(list, gap, w);
        assert OverCount(tail, gap, w) == 0;
        assert [list[0]] + tail[0..] == list[0..];
      }
    }
  }

  lemma NoneOver(list: seq<Session>, gap: int, w: int)
    requires gap >= 0 && Spaced(list, gap) && list != [] && !Over(list[0], gap, w)
    ensures forall i :: 0 <= i < |list| ==> !Over(list[i], gap, w)
  {
    forall i | 0 < i < |list| ensures !Over(list[i], gap, w) {
      assert Apart(list, 0, i, gap) && Formed(list, i);
    }
  }

  /** Two ascending lists of the same elements are equal. */
  lemma {:induction false} AscendingIsUnique(a: seq<Rank>, b: seq<Rank>)
    requires Ascending(a) && Ascending(b) && forall r :: r in a <==> r in b
    ensures a == b
    decreases |a|
  {
    assert b != [] ==> b[0] in b;
    if a != [] {
      assert a[0] in b && b != [];
      SameHead(a, b);
      var x, y := a[1..], b[1..];
      forall r ensures r in x <==> r in y {
        HeadOnce(a, r);
        HeadOnce(b, r);
      }
      AscendingIsUnique(x, y);
    }
  }

  lemma SameHead(a: seq<Rank>, b: seq<Rank>)
    requires a != [] && b != [] && Ascending(a) && Ascending(b) && a[0] in b && b[0] in a
    ensures a[0] == b[0]
  {
    var i :| 0 <= i < |b| && b[i] == a[0];
    var j :| 0 <= j < |a| && a[j] == b[0];
    BeforeTotal(a[0], b[0]);
  }

  lemma HeadOnce(a: seq<Rank>, r: Rank)
    requires a != [] && Ascending(a)
    ensures r in a[1..] <==> r in a && r != a[0]
  {
    BeforeTotal(a[0], a[0]);
    if r in a[1..] {
      var i :| 0 <= i < |a[1..]| && a[1..][i] == r;
      assert a[i + 1] == r && Before(a[0], a[i + 1]);
    }
    assert a == [a[0]] + a[1..];
  }

  function RanksOf(q: seq<Rank>, k: Key): seq<Rank> {
    if q == [] then []
    else
      var front, last := RanksOf(q[..|q| - 1], k), q[|q| - 1];
      if last.key == k then front + [last] else front
  }

  lemma {:induction false} RanksOfIs(q: seq<Rank>, k: Key)
    requires Ascending(q)
    ensures forall r :: r in RanksOf(q, k) <==> r in q && r.key == k
    ensures Ascending(RanksOf(q, k))
  {
    if q != [] {
      var front, last := q[..|q| - 1], q[|q| - 1];
      RanksOfIs(front, k);
      B.InFront(q);
      var kept := RanksOf(front, k);
      forall i | 0 <= i < |kept| ensures Before(kept[i], last) {
        assert kept[i] in front;
      }
    }
  }

  /** The results of key `k` among `outs`. */
  function ForKey(outs: seq<Output>, k: Key): seq<Result> {
    if outs == [] then []
    else
      var rs, last := ForKey(outs[..|outs| - 1], k), outs[|outs| - 1];
      if last.Emit? && last.r.key == k then rs + [last.r] else rs
  }

  lemma {:induction false} ForKeyConcat(a: seq<Output>, b: seq<Output>, k: Key)
    ensures ForKey(a + b, k) == ForKey(a, k) + ForKey(b, k)
    decreases |b|
  {
    if b == [] {
      assert a + b == a;
    } else {
      ForKeyConcat(a, b[..|b| - 1], k);
      assert (a + b)[..|a + b| - 1] == a + b[..|b| - 1];
    }
  }

  function ResultsOf(list: seq<Session>, k: Key, agg: Agg): (rs: seq<Result>)
    ensures |rs| == |list|
    ensures forall i :: 0 <= i < |list| ==> rs[i] == SessionResult(list[i], k, agg)
  {
    seq(|list|, i requires 0 <= i < |list| => SessionResult(list[i], k, agg))
  }

  lemma ReportIs(run: seq<Event>, k: Key, agg: Agg)
    requires run != [] && Timed(run)
    ensures SessionResult(SessionOf(run), k, agg) == Report(run, k, agg)
  {
    var times := TimesOf(run);
    B.GetIsFigure(ValuesOf(run), agg);
    assert times[0] == run[0].ts && times[|run| - 1] == run[|run| - 1].ts;
    assert times[0] in times && times[|run| - 1] in times;
  }

  lemma ReportsAre(rs: seq<seq<Event>>, k: Key, agg: Agg)
    requires Solid(rs) && forall i :: 0 <= i < |rs| ==> Timed(rs[i])
    ensures ResultsOf(SessionsOf(rs), k, agg) == Reports(rs, k, agg)
  {
    forall i | 0 <= i < |rs| ensures ResultsOf(SessionsOf(rs), k, agg)[i] == Reports(rs, k, agg)[i] {
      assert Timed(rs[i]);
      ReportIs(rs[i], k, agg);
    }
  }

  function Picked(list: seq<Session>, q: seq<Rank>): (ss: seq<Session>)
    requires forall r :: r in q ==> r.pos < |list|
    ensures |ss| == |q|
    ensures forall i :: 0 <= i < |q| ==> ss[i] == list[q[i].pos]
  {
    seq(|q|, i requires 0 <= i < |q| => assert q[i] in q; list[q[i].pos])
  }

  lemma {:induction false} ForKeyEmissions(open: OpenSessions, agg: Agg, q: seq<Rank>, k: Key)
    requires Ascending(q) && forall r :: r in q ==> r.key in open && r.pos < |open[r.key]|
    requires forall r :: r in RanksOf(q, k) ==> r.pos < |ListOf(open, k)|
    ensures ForKey(SessionEmissions(open, agg, q), k) == ResultsOf(Picked(ListOf(open, k), RanksOf(q, k)), k, agg)
    decreases |q|
  {
    if q != [] {
      var front, last := q[..|q| - 1], q[|q| - 1];
      B.InFront(q);
      RanksOfIs(front, k);
      ForKeyEmissions(open, agg, front, k);
      assert SessionEmissions(open, agg, q)[..|q| - 1] == SessionEmissions(open, agg, front);
    }
  }

  function Leading(list: seq<Session>, k: Key, c: nat): (q: seq<Rank>)
    requires c <= |list|
    ensures |q| == c
    ensures forall i :: 0 <= i < c ==> q[i] == Rank(list[i].start, k, i)
  {
    seq(c, i requires 0 <= i < c => Rank(list[i].start, k, i))
  }

  lemma LeadingAscends(list: seq<Session>, k: Key, c: nat, gap: int)
    requires gap >= 0 && c <= |list| && Spaced(list, gap)
    ensures Ascending(Leading(list, k, c))
  {
    var q := Leading(list, k, c);
    forall i, j | 0 <= i < j < c ensures Before(q[i], q[j]) {
      assert Apart(list, i, j, gap) && Formed(list, i);
    }
  }

  lemma LeadingIsReady(open: OpenSessions, k: Key, gap: int, w: int, r: Rank)
    requires gap >= 0 && Spaced(ListOf(open, k), gap)
    ensures var list := ListOf(open, k);
            r in Leading(list, k, OverCount(list, gap, w)) <==> r in ReadySessions(open, gap, w) && r.key == k
  {
    var list := ListOf(open, k);
    var c := OverCount(list, gap, w);
    var q := Leading(list, k, c);
    OverIsPrefix(list, gap, w);
    if r in q {
      var i :| 0 <= i < c && q[i] == r;
      assert Over(list[i], gap, w);
    }
    if r in ReadySessions(open, gap, w) && r.key == k {
      assert r.pos < c;
      assert q[r.pos] == r;
    }
  }

  /** A watermark reports, for each key, the sessions that are over, in order. */
  lemma ClosingOfKey(open: OpenSessions, gap: int, agg: Agg, w: int, tail: Output, k: Key)
    requires gap >= 0 && Spaced(ListOf(open, k), gap) && !tail.Emit?
    ensures var list := ListOf(open, k);
            ForKey(ClosingSessions(open, gap, agg, w) + [tail], k) ==
            ResultsOf(list[..OverCount(list, gap, w)], k, agg)
  {
    var list, ready := ListOf(open, k), ReadySessions(open, gap, w);
    var c, q := OverCount(list, gap, w), InOrder(ready);
    InOrderIs(ready);
    RanksOfIs(q, k);
    LeadingAscends(list, k, c, gap);
    forall r ensures r in RanksOf(q, k) <==> r in Leading(list, k, c) {
      LeadingIsReady(open, k, gap, w, r);
    }
    AscendingIsUnique(RanksOf(q, k), Leading(list, k, c));
    ForKeyEmissions(open, agg, q, k);
    assert Picked(list, RanksOf(q, k)) == list[..c];
    assert (ClosingSessions(open, gap, agg, w) + [tail])[..|q|] == ClosingSessions(open, gap, agg, w);
  }

  // ---------- whole runs ----------

  /** The last session ends with the last event. */
  predicate Ends(evs: seq<Event>, ss: seq<Session>) {
    if evs == [] then ss == [] else ss != [] && ss[|ss| - 1].last == evs[|evs| - 1].ts
  }

  /** One of the first `n` items is a watermark, or the end, at `t` or later. */
  predicate Passing(items: seq<Item>, n: nat, t: int)
    requires n <= |items|
  {
    n > 0 && (B.Shuts(items[n - 1], t) || Passing(items, n - 1, t))
  }

  /** The event is not before its key's last one, and after every watermark. */
  predicate Timely(items: seq<Item>, n: nat, e: Event)
    requires n <= |items|
  {
    var evs := EventsOf(items, n, e.key);
    (evs != [] ==> evs[|evs| - 1].ts <= e.ts) && !Passing(items, n, e.ts)
  }

  /** Per key, timestamps do not decrease; and every event is after every earlier
      watermark. */
  ghost predicate Orderly(items: seq<Item>) {
    forall n {:trigger Timely(items, n, items[n].e)} ::
      0 <= n < |items| && items[n].Data? ==> Timely(items, n, items[n].e)
  }

  function Grown(item: Item, k: Key, gap: int, ss: seq<Session>): seq<Session> {
    if OfKey(item, k) then Later(ss, item.e.ts, item.e.value, gap) else ss
  }

  /** The sessions of key `k`, event by event. */
  function Expected(items: seq<Item>, n: nat, k: Key, gap: int): seq<Session>
    requires n <= |items|
  {
    if n == 0 then []
    else
      Grown(items[n - 1], k, gap, Expected(items, n - 1, k, gap))
  }

  /** Of the sessions `ss` of key `k`, the first `c` are shut for good. */
  ghost predicate Settled(items: seq<Item>, n: nat, k: Key, gap: int, ss: seq<Session>, c: nat)
    requires n <= |items|
  {
    && c <= |ss|
    && Spaced(ss, gap)
    && Ends(EventsOf(items, n, k), ss)
    && (c > 0 ==> Passing(items, n, ss[c - 1].last + gap))
  }

  /** Of the sessions `ss` of key `k`, the first `c` are reported and the others
      are open. */
  ghost predicate Shown(k: Key, agg: Agg, ss: seq<Session>, open: OpenSessions, outs: seq<Output>, c: nat) {
    && c <= |ss|
    && ForKey(outs, k) == ResultsOf(ss[..c], k, agg)
    && ListOf(open, k) == ss[c..]
    && (k in open ==> open[k] != [])
  }

  lemma {:induction false} PassingEarlier(items: seq<Item>, n: nat, t: int, u: int)
    requires n <= |items| && Passing(items, n, t) && u <= t
    ensures Passing(items, n, u)
  {
    if !B.Shuts(items[n - 1], t) { PassingEarlier(items, n - 1, t, u); }
  }

  /** A timely event comes after the last session and after what was shut. */
  lemma TimelyEvent(items: seq<Item>, n: nat, e: Event, gap: int, ss: seq<Session>, c: nat)
    requires n <= |items| && Timely(items, n, e) && Settled(items, n, e.key, gap, ss, c)
    ensures ss != [] ==> ss[|ss| - 1].last <= e.ts
    ensures c > 0 ==> ss[c - 1].last + gap < e.ts
  {
    if c > 0 && e.ts <= ss[c - 1].last + gap { PassingEarlier(items, n, ss[c - 1].last + gap, e.ts); }
  }

  lemma EventSettled(items: seq<Item>, n: nat, k: Key, gap: int, ss: seq<Session>, c: nat)
    requires gap >= 0 && n < |items| && OfKey(items[n], k) && Timely(items, n, items[n].e)
    requires Settled(items, n, k, gap, ss, c)
    ensures Settled(items, n + 1, k, gap, Later(ss, items[n].e.ts, items[n].e.value, gap), c)
  {
    var e := items[n].e;
    TimelyEvent(items, n, e, gap, ss, c);
    OneMore(ss, c, e.ts, e.value, gap);
    SettledLonger(items, n, k, gap, ss, Later(ss, e.ts, e.value, gap), c);
  }

  lemma SettledLonger(items: seq<Item>, n: nat, k: Key, gap: int, ss: seq<Session>, all: seq<Session>, c: nat)
    requires n < |items| && OfKey(items[n], k) && Settled(items, n, k, gap, ss, c)
    requires |all| >= c && all != [] && all[..c] == ss[..c]
    requires Spaced(all, gap) && all[|all| - 1].last == items[n].e.ts
    ensures Settled(items, n + 1, k, gap, all, c)
  {
    if c > 0 { assert all[..c][c - 1] == ss[..c][c - 1]; }
  }

  lemma EventShown(e: Event, gap: int, agg: Agg, ss: seq<Session>, open: OpenSessions, outs: seq<Output>, c: nat)
    requires gap >= 0 && Spaced(ss, gap) && Shown(e.key, agg, ss, open, outs, c)
    requires ss != [] ==> ss[|ss| - 1].last <= e.ts
    requires c > 0 ==> ss[c - 1].last + gap < e.ts
    ensures Shown(e.key, agg, Later(ss, e.ts, e.value, gap), SessionStep(gap, agg, open, Data(e)).0, outs, c)
  {
    OneMore(ss, c, e.ts, e.value, gap);
  }

  /** A later event changes only what is still open. */
  lemma OneMore(ss: seq<Session>, c: nat, ts: int, v: int, gap: int)
    requires gap >= 0 && Spaced(ss, gap) && c <= |ss|
    requires ss != [] ==> ss[|ss| - 1].last <= ts
    requires c > 0 ==> ss[c - 1].last + gap < ts
    ensures var all := Later(ss, ts, v, gap);
            && |all| >= c && |all| >= 1
            && all[..c] == ss[..c]
            && Insert(ss[c..], ts, v, gap) == all[c..]
            && all[c..] != []
            && Spaced(all, gap)
            && all[|all| - 1].last == ts
  {
    LaterIsSpaced(ss, ts, v, gap);
    SpacedSuffix(ss, c, gap);
    InsertIsLater(ss[c..], ts, v, gap);
    LaterSuffix(ss, c, ts, v, gap);
  }

  lemma SpacedSuffix(ss: seq<Session>, c: nat, gap: int)
    requires c <= |ss| && Spaced(ss, gap)
    ensures Spaced(ss[c..], gap)
  {
    forall i ensures Formed(ss[c..], i) {
      assert Formed(ss, c + i);
    }
    forall i, j ensures Apart(ss[c..], i, j, gap) {
      assert Apart(ss, c + i, c + j, gap);
    }
  }

  /** What is already reported is not touched by a later event. */
  lemma LaterSuffix(ss: seq<Session>, c: nat, ts: int, v: int, gap: int)
    requires c <= |ss| && (c > 0 ==> ss[c - 1].last + gap < ts)
    ensures Later(ss[c..], ts, v, gap) == Later(ss, ts, v, gap)[c..]
    ensures |Later(ss, ts, v, gap)| >= c && Later(ss, ts, v, gap)[..c] == ss[..c]
  {
    if c < |ss| { assert ss[c..][|ss| - c - 1] == ss[|ss| - 1]; }
  }

  lemma ClosingCut(open: OpenSessions, gap: int, agg: Agg, w: int, tail: Output, k: Key, list: seq<Session>)
    returns (n: nat)
    requires gap >= 0 && list == ListOf(open, k) && Spaced(list, gap) && !tail.Emit?
    ensures n <= |list| && (n > 0 ==> Over(list[n - 1], gap, w)) && (n < |list| ==> !Over(list[n], gap, w))
    ensures ForKey(ClosingSessions(open, gap, agg, w) + [tail], k) == ResultsOf(list[..n], k, agg)
    ensures ListOf(KeptAll(open, gap, w), k) == list[n..]
    ensures k in KeptAll(open, gap, w) ==> KeptAll(open, gap, w)[k] != []
  {
    n := OverCount(list, gap, w);
    ClosingOfKey(open, gap, agg, w, tail, k);
    OverIsPrefix(list, gap, w);
    KeptList(open, gap, w, k);
  }

  /** What a watermark, or the end, reports and keeps of the sessions of one key. */
  lemma LevelShown(item: Item, k: Key, gap: int, agg: Agg, ss: seq<Session>,
                   open: OpenSessions, outs: seq<Output>, c: nat) returns (n: nat)
    requires gap >= 0 && (item.Watermark? || item.Done?)
    requires Spaced(ss, gap) && Shown(k, agg, ss, open, outs, c)
    ensures Shown(k, agg, ss, SessionStep(gap, agg, open, item).0, outs + SessionStep(gap, agg, open, item).1, c + n)
    ensures n > 0 ==> Over(ss[c + n - 1], gap, B.Level(item))
    ensures c + n < |ss| ==> !Over(ss[c + n], gap, B.Level(item))
  {
    var w, tail := B.Level(item), if item.Done? then Finished else Passed(item.w);
    SpacedSuffix(ss, c, gap);
    n := ClosingCut(open, gap, agg, w, tail, k, ss[c..]);
    var step := SessionStep(gap, agg, open, item);
    ShownMore(k, agg, ss, open, step.0, outs, step.1, c, n);
  }

  lemma ShownMore(k: Key, agg: Agg, ss: seq<Session>, open: OpenSessions, open': OpenSessions,
                  outs: seq<Output>, closing: seq<Output>, c: nat, n: nat)
    requires Shown(k, agg, ss, open, outs, c) && c + n <= |ss|
    requires ForKey(closing, k) == ResultsOf(ss[c..][..n], k, agg)
    requires ListOf(open', k) == ss[c..][n..] && (k in open' ==> open'[k] != [])
    ensures Shown(k, agg, ss, open', outs + closing, c + n)
  {
    ForKeyConcat(outs, closing, k);
    assert ResultsOf(ss[..c], k, agg) + ResultsOf(ss[c..][..n], k, agg) == ResultsOf(ss[..c + n], k, agg);
    assert ss[c..][n..] == ss[c + n..];
  }

  lemma KeptList(open: OpenSessions, gap: int, w: int, k: Key)
    ensures ListOf(KeptAll(open, gap, w), k) == Kept(ListOf(open, k), gap, w)
    ensures k in KeptAll(open, gap, w) ==> KeptAll(open, gap, w)[k] != []
  {
  }

  lemma StepSettled(items: seq<Item>, n: nat, k: Key, gap: int, ss: seq<Session>, c: nat, more: nat)
    requires gap >= 0 && n < |items| && Settled(items, n, k, gap, ss, c)
    requires items[n].Data? ==> more == 0 && Timely(items, n, items[n].e)
    requires c + more <= |ss| && (more > 0 ==> B.Shuts(items[n], ss[c + more - 1].last + gap))
    ensures Settled(items, n + 1, k, gap, Grown(items[n], k, gap, ss), c + more)
  {
    if OfKey(items[n], k) { EventSettled(items, n, k, gap, ss, c); }
  }

  lemma StepShown(
    item: Item, k: Key, gap: int, agg: Agg, ss: seq<Session>, open: OpenSessions, outs: seq<Output>, c: nat)
    returns (more: nat)
    requires gap >= 0 && Spaced(ss, gap) && Shown(k, agg, ss, open, outs, c)
    requires OfKey(item, k) && ss != [] ==> ss[|ss| - 1].last <= item.e.ts
    requires OfKey(item, k) && c > 0 ==> ss[c - 1].last + gap < item.e.ts
    ensures Shown(k, agg, Grown(item, k, gap, ss),
                  SessionStep(gap, agg, open, item).0, outs + SessionStep(gap, agg, open, item).1, c + more)
    ensures c + more <= |ss| && (item.Data? ==> more == 0)
    ensures more > 0 ==> B.Shuts(item, ss[c + more - 1].last + gap)
  {
    more := 0;
    assert outs + [] == outs;
    if item.Watermark? || item.Done? {
      more := LevelShown(item, k, gap, agg, ss, open, outs, c);
    } else if OfKey(item, k) {
      EventShown(item.e, gap, agg, ss, open, outs, c);
    }
  }

  ghost predicate Told(items: seq<Item>, n: nat, k: Key, gap: int, agg: Agg, ss: seq<Session>,
                       run: (OpenSessions, seq<Output>), c: nat)
    requires n <= |items|
  {
    Settled(items, n, k, gap, ss, c) && Shown(k, agg, ss, run.0, run.1, c)
  }

  ghost predicate ToldAt(gap: int, agg: Agg, items: seq<Item>, n: nat, k: Key, c: nat)
    requires n <= |items|
  {
    Told(items, n, k, gap, agg, Expected(items, n, k, gap), SessionRun(gap, agg, map[], items, n), c)
  }

  /** At every moment of an orderly run, what key `k` has reported and what it
      holds open are, in order, exactly its sessions so far. */
  lemma {:induction false} RunTold(gap: int, agg: Agg, items: seq<Item>, n: nat, k: Key) returns (c: nat)
    requires gap >= 0 && n <= |items| && Orderly(items)
    ensures ToldAt(gap, agg, items, n, k, c)
    decreases n
  {
    if n == 0 {
      c := NothingYet(gap, agg, items, k, n);
    } else {
      var before := RunTold(gap, agg, items, n - 1, k);
      c := OneOn(gap, agg, items, n - 1, n, k, before);
    }
  }

  lemma OneOn(gap: int, agg: Agg, items: seq<Item>, n: nat, next: nat, k: Key, c: nat) returns (c': nat)
    requires gap >= 0 && next == n + 1 <= |items| && Orderly(items) && ToldAt(gap, agg, items, n, k, c)
    ensures ToldAt(gap, agg, items, next, k, c')
  {
    c' := RunStep(gap, agg, items, n, k, Expected(items, n, k, gap), SessionRun(gap, agg, map[], items, n), c);
  }

  lemma NothingYet(gap: int, agg: Agg, items: seq<Item>, k: Key, n: nat) returns (c: nat)
    requires n == 0
    ensures ToldAt(gap, agg, items, n, k, c)
  {
    c := 0;
    var ss: seq<Session> := [];
    assert ss[..0] == [] && ss[0..] == [];
    assert ResultsOf(ss[..0], k, agg) == [];
  }

  ghost function Onward(gap: int, agg: Agg, run: (OpenSessions, seq<Output>), item: Item): (OpenSessions, seq<Output>) {
    var step := SessionStep(gap, agg, run.0, item);
    (step.0, run.1 + step.1)
  }

  lemma RunStep(gap: int, agg: Agg, items: seq<Item>, n: nat, k: Key, ss: seq<Session>,
                run: (OpenSessions, seq<Output>), c: nat)
    returns (c': nat)
    requires gap >= 0 && n < |items| && Orderly(items) && Told(items, n, k, gap, agg, ss, run, c)
    ensures Told(items, n + 1, k, gap, agg, Grown(items[n], k, gap, ss), Onward(gap, agg, run, items[n]), c')
  {
    assert items[n].Data? ==> Timely(items, n, items[n].e);
    if OfKey(items[n], k) { TimelyEvent(items, n, items[n].e, gap, ss, c); }
    var more := StepShown(items[n], k, gap, agg, ss, run.0, run.1, c);
    StepSettled(items, n, k, gap, ss, c, more);
    c' := c + more;
  }

  lemma {:induction false} ExpectedIsBatch(items: seq<Item>, n: nat, k: Key, gap: int)
    requires gap >= 0 && n <= |items| && Orderly(items)
    ensures Expected(items, n, k, gap) == Batch(items, n, k, gap)
    ensures Spaced(Expected(items, n, k, gap), gap)
    ensures Ends(EventsOf(items, n, k), Expected(items, n, k, gap))
  {
    if n > 0 {
      ExpectedIsBatch(items, n - 1, k, gap);
      if OfKey(items[n - 1], k) {
        var ss, evs, e := Expected(items, n - 1, k, gap), EventsOf(items, n - 1, k), items[n - 1].e;
        assert Timely(items, n - 1, e);
        LaterIsSpaced(ss, e.ts, e.value, gap);
        RunsGrow(evs, e, gap);
        SessionsGrow(Runs(evs, gap), e, gap);
      }
    }
  }

  ghost predicate InReach(gap: int, items: seq<Item>) {
    forall i :: 0 <= i < |items| && items[i].Data? ==> items[i].e.ts + gap <= MAX
  }

  lemma {:induction false} EventsInReach(gap: int, items: seq<Item>, n: nat, k: Key)
    requires n <= |items| && InReach(gap, items)
    ensures forall i :: 0 <= i < |EventsOf(items, n, k)| ==> EventsOf(items, n, k)[i].ts + gap <= MAX
  {
    if n > 0 { EventsInReach(gap, items, n - 1, k); }
  }

  lemma AllOver(gap: int, evs: seq<Event>, ss: seq<Session>, c: nat)
    requires Spaced(ss, gap) && gap >= 0 && c <= |ss| && Ends(evs, ss)
    requires forall i :: 0 <= i < |evs| ==> evs[i].ts + gap <= MAX
    requires c < |ss| ==> !Over(ss[c], gap, MAX)
    ensures c == |ss|
  {
    NotLater(ss, c, gap);
  }

  lemma NotLater(ss: seq<Session>, c: nat, gap: int)
    requires Spaced(ss, gap) && gap >= 0
    ensures c < |ss| ==> ss[c].last <= ss[|ss| - 1].last
  {
    assert Apart(ss, c, |ss| - 1, gap) && Formed(ss, |ss| - 1);
  }

  /** A finished orderly run reports, per key and in order, exactly the maximal
      runs of its events whose steps are at most `gap`. */
  lemma SessionsAreRuns(gap: int, agg: Agg, items: seq<Item>, k: Key)
    requires gap >= 0 && Orderly(items) && InReach(gap, items)
    requires items != [] && items[|items| - 1].Done?
    ensures ForKey(SessionRun(gap, agg, map[], items, |items|).1, k) ==
            Reports(Runs(EventsOf(items, |items|, k), gap), k, agg)
    ensures k !in SessionRun(gap, agg, map[], items, |items|).0
  {
    var n, evs := |items|, EventsOf(items, |items|, k);
    EventsTimed(items, n, k);
    RunsTimed(evs, gap);
    ReportsAre(Runs(evs, gap), k, agg);
    AllShown(gap, agg, items, n - 1, k, Expected(items, n - 1, k, gap));
    ExpectedIsBatch(items, n, k, gap);
  }

  lemma {:induction false} EventsTimed(items: seq<Item>, n: nat, k: Key)
    requires n <= |items| && Orderly(items)
    ensures Timed(EventsOf(items, n, k))
  {
    if n > 0 {
      EventsTimed(items, n - 1, k);
      if OfKey(items[n - 1], k) { assert Timely(items, n - 1, items[n - 1].e); }
    }
  }

  lemma {:induction false} RunsTimed(evs: seq<Event>, gap: int)
    requires Timed(evs)
    ensures forall i :: 0 <= i < |Runs(evs, gap)| ==> Timed(Runs(evs, gap)[i])
    ensures evs != [] ==>
              var rs := Runs(evs, gap); rs != [] && rs[|rs| - 1][|rs[|rs| - 1]| - 1] == evs[|evs| - 1]
  {
    if evs != [] {
      var front := evs[..|evs| - 1];
      RunsTimed(front, gap);
    }
  }

  lemma AllShown(gap: int, agg: Agg, items: seq<Item>, n: nat, k: Key, ss: seq<Session>)
    requires gap >= 0 && Orderly(items) && InReach(gap, items)
    requires n < |items| && items[n].Done? && ss == Expected(items, n, k, gap)
    ensures ForKey(SessionRun(gap, agg, map[], items, n + 1).1, k) == ResultsOf(ss, k, agg)
    ensures k !in SessionRun(gap, agg, map[], items, n + 1).0
  {
    var c := RunTold(gap, agg, items, n, k);
    var run := SessionRun(gap, agg, map[], items, n);
    var more := LevelShown(items[n], k, gap, agg, ss, run.0, run.1, c);
    EventsInReach(gap, items, n, k);
    AllOver(gap, EventsOf(items, n, k), ss, c + more);
    assert ss[..|ss|] == ss;
  }
}
