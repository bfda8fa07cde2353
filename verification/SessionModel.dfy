/** Session windows (crates/jet/src/window.rs): per key, a list of open sessions,
    each extended by events within `gap` of it. */
module SessionModel {
  import opened WindowModel

  datatype Session = Session(start: int, last: int, acc: Acc)

  type OpenSessions = map<Key, seq<Session>>

  predicate Near(s: Session, ts: int, gap: int) {
    s.start - gap <= ts <= s.last + gap
  }

  function Extend(s: Session, ts: int, v: int): Session {
    Session(Lower(s.start, ts), Upper(s.last, ts), Push(s.acc, v))
  }

  function NewSession(ts: int, v: int): Session {
    Session(ts, ts, Push(NO_ACC, v))
  }

  /** Extend the first session near the event, or start one. */
  function Insert(list: seq<Session>, ts: int, v: int, gap: int): seq<Session> {
    if list == [] then [NewSession(ts, v)]
    else if Near(list[0], ts, gap) then [Extend(list[0], ts, v)] + list[1..]
    else [list[0]] + Insert(list[1..], ts, v, gap)
  }

  predicate Over(s: Session, gap: int, w: int) {
    s.last + gap <= w
  }

  function Kept(list: seq<Session>, gap: int, w: int): seq<Session> {
    if list == [] then []
    else if Over(list[0], gap, w) then Kept(list[1..], gap, w)
    else [list[0]] + Kept(list[1..], gap, w)
  }

  function ListOf(open: OpenSessions, k: Key): seq<Session> {
    if k in open then open[k] else []
  }

  /** The sessions a watermark completes, by what they are sorted by. */
  function ReadySessions(open: OpenSessions, gap: int, w: int): set<Rank> {
    set k, i | k in open && 0 <= i < |open[k]| && Over(open[k][i], gap, w) :: Rank(open[k][i].start, k, i)
  }

  function SessionResult(s: Session, k: Key, agg: Agg): Result {
    Result(s.start, s.last + 1, Get(s.acc, agg), k)
  }

  ghost function SessionEmissions(open: OpenSessions, agg: Agg, q: seq<Rank>): (out: seq<Output>)
    requires forall r :: r in q ==> r.key in open && r.pos < |open[r.key]|
    ensures |out| == |q|
    ensures forall i :: 0 <= i < |q| ==> out[i] == Emit(SessionResult(open[q[i].key][q[i].pos], q[i].key, agg))
  {
    seq(|q|, i requires 0 <= i < |q| => Emit(SessionResult(open[q[i].key][q[i].pos], q[i].key, agg)))
  }

  ghost function ClosingSessions(open: OpenSessions, gap: int, agg: Agg, w: int): seq<Output> {
    InOrderIs(ReadySessions(open, gap, w));
    SessionEmissions(open, agg, InOrder(ReadySessions(open, gap, w)))
  }

  /** The lists without the completed sessions, and without empty lists. */
  function KeptAll(open: OpenSessions, gap: int, w: int): OpenSessions {
    map k | k in open && Kept(open[k], gap, w) != [] :: Kept(open[k], gap, w)
  }

  ghost function SessionStep(gap: int, agg: Agg, open: OpenSessions, item: Item): (OpenSessions, seq<Output>) {
    match item
    case Data(e) => (open[e.key := Insert(ListOf(open, e.key), e.ts, e.value, gap)], [])
    case Junk => (open, [])
    case Watermark(w) => (KeptAll(open, gap, w), ClosingSessions(open, gap, agg, w) + [Passed(w)])
    case Done => (KeptAll(open, gap, MAX), ClosingSessions(open, gap, agg, MAX) + [Finished])
  }

  /** Open sessions and output after the first `n` items, starting with `open`. */
  ghost function SessionRun(gap: int, agg: Agg, open: OpenSessions, items: seq<Item>, n: nat)
    : (OpenSessions, seq<Output>)
    requires n <= |items|
  {
    if n == 0 then (open, [])
    else
      var before := SessionRun(gap, agg, open, items, n - 1);
      var step := SessionStep(gap, agg, before.0, items[n - 1]);
      (step.0, before.1 + step.1)
  }
}
