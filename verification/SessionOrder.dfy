/** Session windows over streams in any order: exactly when the sessions reported
    are the maximal runs of a key's events. */
module SessionOrder {
  import opened WindowModel
  import opened SessionModel
  import opened SessionBatch

  // ---------- events in order of time ----------

  /** `evs` with `e` after every event that is not later. */
  function Place(evs: seq<Event>, e: Event): (all: seq<Event>)
    ensures all != []
  {
    if evs == [] || evs[|evs| - 1].ts <= e.ts then evs + [e]
    else Place(evs[..|evs| - 1], e) + [evs[|evs| - 1]]
  }

  function InTime(evs: seq<Event>): seq<Event> {
    if evs == [] then [] else Place(InTime(evs[..|evs| - 1]), evs[|evs| - 1])
  }

  lemma {:induction false} PlacePermutes(evs: seq<Event>, e: Event)
    ensures multiset(Place(evs, e)) == multiset(evs) + multiset{e}
    decreases |evs|
  {
    if evs != [] && e.ts < evs[|evs| - 1].ts {
      PlacePermutes(evs[..|evs| - 1], e);
      assert evs == evs[..|evs| - 1] + [evs[|evs| - 1]];
    }
  }

  /** Where the events with `e` among them begin and end. */
  lemma {:induction false} PlaceEnds(evs: seq<Event>, e: Event)
    requires Timed(evs) && evs != []
    ensures Place(evs, e)[0].ts == Lower(evs[0].ts, e.ts)
    ensures var all := Place(evs, e); all[|all| - 1].ts == Upper(evs[|evs| - 1].ts, e.ts)
    decreases |evs|
  {
    if e.ts < evs[|evs| - 1].ts && |evs| > 1 { PlaceEnds(evs[..|evs| - 1], e); }
  }

  lemma {:induction false} PlaceTimed(evs: seq<Event>, e: Event)
    requires Timed(evs)
    ensures Timed(Place(evs, e))
    decreases |evs|
  {
    if evs != [] && e.ts < evs[|evs| - 1].ts {
      var front := evs[..|evs| - 1];
      PlaceTimed(front, e);
      if front != [] { PlaceEnds(front, e); }
    }
  }

  /** The events in order of time are the events, in order of time. */
  lemma {:induction false} InTimeIs(evs: seq<Event>)
    ensures Timed(InTime(evs)) && multiset(InTime(evs)) == multiset(evs)
  {
    if evs != [] {
      var front, e := evs[..|evs| - 1], evs[|evs| - 1];
      InTimeIs(front);
      PlacePermutes(InTime(front), e);
      PlaceTimed(InTime(front), e);
      assert evs == front + [e];
    }
  }

  lemma {:induction false} PlaceBefore(a: seq<Event>, b: seq<Event>, e: Event)
    requires forall i :: 0 <= i < |b| ==> e.ts < b[i].ts
    ensures Place(a + b, e) == Place(a, e) + b
    decreases |b|
  {
    if b == [] {
      assert a + b == a;
    } else {
      var front, z := b[..|b| - 1], b[|b| - 1];
      PlaceBefore(a, front, e);
      assert (a + b)[..|a + b| - 1] == a + front;
      assert Place(a, e) + b == Place(a, e) + front + [z];
    }
  }

  lemma {:induction false} PlaceAfter(a: seq<Event>, b: seq<Event>, e: Event)
    requires forall i :: 0 <= i < |a| ==> a[i].ts <= e.ts
    ensures Place(a + b, e) == a + Place(b, e)
    decreases |b|
  {
    if b == [] {
      assert a + b == a;
    } else if e.ts < b[|b| - 1].ts {
      var front := b[..|b| - 1];
      PlaceAfter(a, front, e);
      assert (a + b)[..|a + b| - 1] == a + front;
    }
  }

  // ---------- runs ----------

  function EndOf(run: seq<Event>): int
    requires run != []
  {
    run[|run| - 1].ts
  }

  /** `e` joins the run near it, and joins two runs near it; or is a run by itself. */
  function Absorb(rs: seq<seq<Event>>, e: Event, gap: int): (all: seq<seq<Event>>)
    requires Solid(rs)
    ensures Solid(all) && all != []
  {
    if rs == [] then [[e]]
    else
      var front, run := rs[..|rs| - 1], rs[|rs| - 1];
      if EndOf(run) + gap < e.ts then rs + [[e]]
      else if e.ts + gap < run[0].ts then Absorb(front, e, gap) + [run]
      else if front != [] && e.ts <= EndOf(front[|front| - 1]) + gap
      then front[..|front| - 1] + [front[|front| - 1] + Place(run, e)]
      else front + [Place(run, e)]
  }

  /** Runs as `Runs` cuts them from events in order of time. */
  ghost predicate Cut(rs: seq<seq<Event>>, gap: int) {
    && Solid(rs)
    && Maximal(rs, gap)
    && (forall i :: 0 <= i < |rs| ==> Timed(rs[i]))
  }

  lemma CutFront(rs: seq<seq<Event>>, gap: int)
    requires Cut(rs, gap) && rs != []
    ensures Cut(rs[..|rs| - 1], gap)
  {
    var front := rs[..|rs| - 1];
    forall i | 0 <= i < |front| ensures Tight(front[i], gap) { assert Tight(rs[i], gap); }
    forall i ensures Parted(front, i, gap) { assert Parted(rs, i, gap); }
  }

  lemma CutMore(rs: seq<seq<Event>>, run: seq<Event>, gap: int)
    requires Cut(rs, gap) && run != [] && Tight(run, gap) && Timed(run)
    requires rs != [] ==> Separate(rs[|rs| - 1], run, gap)
    ensures Cut(rs + [run], gap)
  {
    var all := rs + [run];
    forall i | 0 <= i < |all| ensures Tight(all[i], gap) {
      if i < |rs| { assert Tight(rs[i], gap); }
    }
    forall i ensures Parted(all, i, gap) {
      assert Parted(rs, i, gap);
    }
  }

  lemma TightFront(run: seq<Event>, gap: int)
    requires |run| > 1 && Tight(run, gap)
    ensures Tight(run[..|run| - 1], gap) && run[|run| - 1].ts <= run[|run| - 2].ts + gap
  {
    var front := run[..|run| - 1];
    forall i ensures Close(front, i, gap) { assert Close(run, i, gap); }
    assert Close(run, |run| - 1, gap);
  }

  /** An event near a run leaves no step above `gap` in it. */
  lemma {:induction false} PlaceTight(run: seq<Event>, e: Event, gap: int)
    requires run != [] && Timed(run) && Tight(run, gap) && run[0].ts - gap <= e.ts <= EndOf(run) + gap
    ensures Tight(Place(run, e), gap)
    decreases |run|
  {
    if EndOf(run) <= e.ts {
      TightGrows(run, e, gap);
    } else {
      var front, z := run[..|run| - 1], run[|run| - 1];
      if front != [] {
        TightFront(run, gap);
        PlaceTight(front, e, gap);
        PlaceEnds(front, e);
      }
      TightGrows(Place(front, e), z, gap);
    }
  }

  lemma Chained(a: seq<Event>, b: seq<Event>, gap: int)
    requires a != [] && b != [] && Tight(a, gap) && Tight(b, gap) && Timed(a) && Timed(b)
    requires EndOf(a) <= b[0].ts <= EndOf(a) + gap
    ensures Tight(a + b, gap) && Timed(a + b)
  {
    var all := a + b;
    forall i ensures Close(all, i, gap) {
      assert Close(a, i, gap) && Close(b, i - |a|, gap);
    }
  }

  lemma AbsorbEnds(rs: seq<seq<Event>>, e: Event, gap: int)
    requires gap >= 0 && Cut(rs, gap) && rs != []
    ensures var all := Absorb(rs, e, gap); EndOf(all[|all| - 1]) == Upper(EndOf(rs[|rs| - 1]), e.ts)
  {
    var run := rs[|rs| - 1];
    PlaceEnds(run, e);
  }

  /** The runs with one more event are cut as they should be. */
  lemma {:induction false} AbsorbIsCut(rs: seq<seq<Event>>, e: Event, gap: int)
    requires gap >= 0 && Cut(rs, gap)
    ensures Cut(Absorb(rs, e, gap), gap)
    decreases |rs|
  {
    if rs != [] {
      var front, run := rs[..|rs| - 1], rs[|rs| - 1];
      CutFront(rs, gap);
      assert Tight(run, gap) && Timed(run);
      assert Parted(rs, |front|, gap);
      if EndOf(run) + gap < e.ts {
        CutMore(rs, [e], gap);
      } else if e.ts + gap < run[0].ts {
        AbsorbIsCut(front, e, gap);
        if front != [] { AbsorbEnds(front, e, gap); }
        CutMore(Absorb(front, e, gap), run, gap);
      } else {
        NearIsCut(front, run, e, gap);
      }
    }
  }

  lemma NearIsCut(front: seq<seq<Event>>, run: seq<Event>, e: Event, gap: int)
    requires gap >= 0 && Cut(front, gap) && run != [] && Tight(run, gap) && Timed(run)
    requires front != [] ==> Separate(front[|front| - 1], run, gap)
    requires run[0].ts - gap <= e.ts <= EndOf(run) + gap
    ensures if front != [] && e.ts <= EndOf(front[|front| - 1]) + gap
            then Cut(front[..|front| - 1] + [front[|front| - 1] + Place(run, e)], gap)
            else Cut(front + [Place(run, e)], gap)
  {
    PlaceTight(run, e, gap);
    PlaceTimed(run, e);
    PlaceEnds(run, e);
    if front != [] && e.ts <= EndOf(front[|front| - 1]) + gap {
      var less, last := front[..|front| - 1], front[|front| - 1];
      CutFront(front, gap);
      assert Tight(last, gap) && Timed(last);
      Chained(last, Place(run, e), gap);
      assert Parted(front, |less|, gap);
      CutMore(less, last + Place(run, e), gap);
    } else {
      CutMore(front, Place(run, e), gap);
    }
  }

  lemma {:induction false} JoinedBelow(rs: seq<seq<Event>>, gap: int, t: int)
    requires gap >= 0 && Cut(rs, gap) && (rs != [] ==> EndOf(rs[|rs| - 1]) <= t)
    ensures forall i :: 0 <= i < |Joined(rs)| ==> Joined(rs)[i].ts <= t
    decreases |rs|
  {
    if rs != [] {
      var front, run := rs[..|rs| - 1], rs[|rs| - 1];
      CutFront(rs, gap);
      assert Timed(run);
      assert Parted(rs, |front|, gap);
      JoinedBelow(front, gap, t);
    }
  }

  lemma JoinedSnoc(rs: seq<seq<Event>>, run: seq<Event>)
    ensures Joined(rs + [run]) == Joined(rs) + run
  {
    assert (rs + [run])[..|rs|] == rs;
  }

  /** ... and are a cut of the events with that one in its place. */
  lemma {:induction false} AbsorbJoins(rs: seq<seq<Event>>, e: Event, gap: int)
    requires gap >= 0 && Cut(rs, gap)
    ensures Joined(Absorb(rs, e, gap)) == Place(Joined(rs), e)
    decreases |rs|
  {
    if rs == [] {
      JoinedSnoc([], [e]);
      assert [] + [[e]] == [[e]];
    } else {
      var front, run := rs[..|rs| - 1], rs[|rs| - 1];
      CutFront(rs, gap);
      assert Timed(run);
      assert Parted(rs, |front|, gap);
      if EndOf(run) + gap < e.ts {
        JoinedBelow(rs, gap, e.ts);
        PlaceAfter(Joined(rs), [], e);
        JoinedSnoc(rs, [e]);
        assert Joined(rs) + [] == Joined(rs);
      } else if e.ts + gap < run[0].ts {
        AbsorbJoins(front, e, gap);
        PlaceBefore(Joined(front), run, e);
        JoinedSnoc(Absorb(front, e, gap), run);
      } else {
        JoinedBelow(front, gap, e.ts);
        PlaceAfter(Joined(front), run, e);
        NearJoins(front, Place(run, e));
      }
    }
  }

  lemma Assoc<T>(a: seq<T>, b: seq<T>, c: seq<T>)
    ensures a + (b + c) == a + b + c
  {
  }

  lemma NearJoins(front: seq<seq<Event>>, more: seq<Event>)
    ensures Joined(front + [more]) == Joined(front) + more
    ensures front != [] ==> Joined(front[..|front| - 1] + [front[|front| - 1] + more]) == Joined(front) + more
  {
    JoinedSnoc(front, more);
    if front != [] {
      var less, last := front[..|front| - 1], front[|front| - 1];
      JoinedSnoc(less, last + more);
      Assoc(Joined(less), last, more);
    }
  }

  lemma RunsMore(evs: seq<Event>, e: Event, rs: seq<seq<Event>>, gap: int)
    requires Solid(rs) && Runs(evs, gap) == rs
    ensures Runs(evs + [e], gap) == AddToRuns(rs, e, gap)
  {
    RunsGrow(evs, e, gap);
  }

  lemma LongerLast(evs: seq<Event>, front: seq<seq<Event>>, less: seq<Event>, e: Event, gap: int)
    requires Solid(front) && less != [] && Runs(evs + less, gap) == front + [less] && e.ts <= EndOf(less) + gap
    ensures Runs(evs + (less + [e]), gap) == front + [less + [e]]
  {
    RunsMore(evs + less, e, front + [less], gap);
    Assoc(evs, less, [e]);
  }

  lemma NewLast(evs: seq<Event>, front: seq<seq<Event>>, e: Event, gap: int)
    requires Solid(front) && Runs(evs, gap) == front && (front != [] ==> EndOf(front[|front| - 1]) + gap < e.ts)
    ensures Runs(evs + [e], gap) == front + [[e]]
  {
    RunsMore(evs, e, front, gap);
  }

  lemma {:induction false} OneMoreRun(evs: seq<Event>, front: seq<seq<Event>>, run: seq<Event>, gap: int)
    requires Solid(front) && Runs(evs, gap) == front && run != [] && Tight(run, gap)
    requires front != [] ==> Separate(front[|front| - 1], run, gap)
    ensures Runs(evs + run, gap) == front + [run]
    decreases |run|
  {
    var less, e := run[..|run| - 1], run[|run| - 1];
    assert run == less + [e];
    if less == [] {
      NewLast(evs, front, e, gap);
    } else {
      TightFront(run, gap);
      OneMoreRun(evs, front, less, gap);
      LongerLast(evs, front, less, e, gap);
    }
  }

  /** There is only one way to cut. */
  lemma {:induction false} CutIsRuns(rs: seq<seq<Event>>, gap: int)
    requires Cut(rs, gap)
    ensures Runs(Joined(rs), gap) == rs
    decreases |rs|
  {
    if rs != [] {
      var front, run := rs[..|rs| - 1], rs[|rs| - 1];
      CutFront(rs, gap);
      CutIsRuns(front, gap);
      assert rs == front + [run] && Tight(run, gap) && Parted(rs, |front|, gap);
      OneMoreRun(Joined(front), front, run, gap);
    }
  }

  lemma EventsMore(evs: seq<Event>, e: Event)
    ensures InTime(evs + [e]) == Place(InTime(evs), e)
  {
    assert (evs + [e])[..|evs|] == evs;
  }

  /** The runs of the events in order of time. */
  function RunsOf(evs: seq<Event>, gap: int): (rs: seq<seq<Event>>)
    ensures Solid(rs)
  {
    Runs(InTime(evs), gap)
  }

  lemma {:induction false} RunsAreCut(evs: seq<Event>, gap: int)
    requires gap >= 0
    ensures Cut(RunsOf(evs, gap), gap) && Joined(RunsOf(evs, gap)) == InTime(evs)
  {
    if evs != [] {
      var front, e := evs[..|evs| - 1], evs[|evs| - 1];
      RunsAreCut(front, gap);
      assert evs == front + [e];
      RunsAbsorb(front, e, gap);
      AbsorbIsCut(RunsOf(front, gap), e, gap);
      RunsAreMaximal(InTime(evs), gap);
    }
  }

  /** One more event, wherever its time falls, is absorbed by the runs. */
  lemma RunsAbsorb(evs: seq<Event>, e: Event, gap: int)
    requires gap >= 0 && Cut(RunsOf(evs, gap), gap)
    ensures RunsOf(evs + [e], gap) == Absorb(RunsOf(evs, gap), e, gap)
  {
    var rs := RunsOf(evs, gap);
    RunsAreMaximal(InTime(evs), gap);
    EventsMore(evs, e);
    AbsorbJoins(rs, e, gap);
    AbsorbIsCut(rs, e, gap);
    CutIsRuns(Absorb(rs, e, gap), gap);
  }

  // ---------- the sessions of the runs ----------

  lemma PushesCommute(a: Acc, v: int, w: int)
    requires a.count >= 0
    ensures Push(Push(a, v), w) == Push(Push(a, w), v)
  {
  }

  /** What a run adds up to does not depend on where an event falls in it. */
  lemma {:induction false} PlaceAcc(run: seq<Event>, e: Event)
    ensures B.AccOf(ValuesOf(Place(run, e))) == Push(B.AccOf(ValuesOf(run)), e.value)
    decreases |run|
  {
    if run == [] || run[|run| - 1].ts <= e.ts {
      ValuesGrow(run, e);
    } else {
      var front, z := run[..|run| - 1], run[|run| - 1];
      PlaceAcc(front, e);
      ValuesGrow(Place(front, e), z);
      ValuesGrow(front, z);
      assert run == front + [z];
      B.AccMeans(ValuesOf(front));
      PushesCommute(B.AccOf(ValuesOf(front)), e.value, z.value);
    }
  }

  lemma PlaceSession(run: seq<Event>, e: Event)
    requires run != [] && Timed(run)
    ensures SessionOf(Place(run, e)) == Extend(SessionOf(run), e.ts, e.value)
  {
    PlaceAcc(run, e);
    PlaceEnds(run, e);
  }

  lemma SessionsSnoc(rs: seq<seq<Event>>, run: seq<Event>)
    requires Solid(rs) && run != []
    ensures Solid(rs + [run]) && SessionsOf(rs + [run]) == SessionsOf(rs) + [SessionOf(run)]
  {
  }

  lemma {:induction false} CutIsSpaced(rs: seq<seq<Event>>, gap: int)
    requires gap >= 0 && Cut(rs, gap)
    ensures Spaced(SessionsOf(rs), gap)
    decreases |rs|
  {
    if rs != [] {
      var n, front, run := |rs| - 1, rs[..|rs| - 1], rs[|rs| - 1];
      CutFront(rs, gap);
      CutIsSpaced(front, gap);
      SessionsSnoc(front, run);
      assert rs == front + [run] && Timed(run);
      assert Parted(rs, n, gap);
      SpacedMore(SessionsOf(front), SessionOf(run), gap);
    }
  }

  lemma SpacedMore(ss: seq<Session>, s: Session, gap: int)
    requires gap >= 0 && Spaced(ss, gap) && s.start <= s.last && (ss != [] ==> ss[|ss| - 1].last + gap < s.start)
    ensures Spaced(ss + [s], gap)
  {
    var all, n := ss + [s], |ss|;
    forall i ensures Formed(all, i) { assert Formed(ss, i); }
    forall i, j ensures Apart(all, i, j, gap) {
      assert Apart(ss, i, j, gap) && Apart(ss, i, n - 1, gap) && Formed(ss, n - 1);
    }
  }

  predicate NearAt(ss: seq<Session>, i: int, ts: int, gap: int) {
    0 <= i < |ss| && Near(ss[i], ts, gap)
  }

  /** Where, in a cut, the runs near an event can be. */
  lemma NearWhere(rs: seq<seq<Event>>, i: nat, ts: int, gap: int)
    requires gap >= 0 && Cut(rs, gap) && NearAt(SessionsOf(rs), i, ts, gap)
    ensures ts <= EndOf(rs[|rs| - 1]) + gap
    ensures |rs| >= 2 && i < |rs| - 1 ==> ts <= EndOf(rs[|rs| - 2]) + gap
  {
    var ss, n := SessionsOf(rs), |rs| - 1;
    CutIsSpaced(rs, gap);
    NotAfter(ss, i, n, ts, gap);
    if i < n { NotAfter(ss, i, n - 1, ts, gap); }
  }

  lemma NotAfter(ss: seq<Session>, i: nat, j: nat, ts: int, gap: int)
    requires gap >= 0 && Spaced(ss, gap) && NearAt(ss, i, ts, gap) && i <= j < |ss|
    ensures ts <= ss[j].last + gap
  {
    assert Apart(ss, i, j, gap) && Formed(ss, j);
  }

  lemma NearFront(rs: seq<seq<Event>>, i: nat, ts: int, gap: int)
    requires Solid(rs) && rs != [] && i < |rs| - 1
    ensures NearAt(SessionsOf(rs[..|rs| - 1]), i, ts, gap) <==> NearAt(SessionsOf(rs), i, ts, gap)
    ensures SessionsOf(rs[..|rs| - 1])[i] == SessionsOf(rs)[i]
  {
  }

  /** Near no run, an event is a session of its own. */
  lemma {:induction false} AbsorbNone(rs: seq<seq<Event>>, e: Event, gap: int)
    requires gap >= 0 && Cut(rs, gap) && forall i :: !NearAt(SessionsOf(rs), i, e.ts, gap)
    ensures multiset(SessionsOf(Absorb(rs, e, gap))) == multiset(SessionsOf(rs)) + multiset{NewSession(e.ts, e.value)}
    decreases |rs|
  {
    FirstSession(e);
    if rs == [] {
      assert SessionsOf(rs) == [] && SessionsOf([[e]]) == [SessionOf([e])];
    } else {
      var front, run := rs[..|rs| - 1], rs[|rs| - 1];
      assert !NearAt(SessionsOf(rs), |rs| - 1, e.ts, gap);
      if EndOf(run) + gap < e.ts {
        SessionsSnoc(rs, [e]);
      } else {
        CutFront(rs, gap);
        NoneFront(rs, front, e.ts, gap);
        AbsorbNone(front, e, gap);
        assert rs == front + [run];
        NewFront(front, Absorb(front, e, gap), run, NewSession(e.ts, e.value));
      }
    }
  }

  lemma NoneFront(rs: seq<seq<Event>>, front: seq<seq<Event>>, ts: int, gap: int)
    requires Solid(rs) && rs != [] && front == rs[..|rs| - 1] && Solid(front)
    requires forall j :: !NearAt(SessionsOf(rs), j, ts, gap)
    ensures forall j :: !NearAt(SessionsOf(front), j, ts, gap)
  {
    forall j ensures !NearAt(SessionsOf(front), j, ts, gap) {
      if 0 <= j < |front| { NearFront(rs, j, ts, gap); }
    }
  }

  lemma NewFront(front: seq<seq<Event>>, all: seq<seq<Event>>, run: seq<Event>, s: Session)
    requires Solid(front) && Solid(all) && run != []
    requires multiset(SessionsOf(all)) == multiset(SessionsOf(front)) + multiset{s}
    ensures Solid(front + [run]) && Solid(all + [run])
    ensures multiset(SessionsOf(all + [run])) == multiset(SessionsOf(front + [run])) + multiset{s}
  {
    SessionsSnoc(front, run);
    SessionsSnoc(all, run);
  }

  lemma SwapFront<T>(a: seq<T>, b: seq<T>, i: nat, y: T, z: T)
    requires i < |a| && multiset(b) == multiset(a) - multiset{a[i]} + multiset{y}
    ensures multiset(b + [z]) == multiset(a + [z]) - multiset{a[i]} + multiset{y}
  {
    assert a[i] in multiset(a);
  }

  lemma SwapLast<T>(a: seq<T>, x: T, y: T)
    ensures multiset(a + [y]) == multiset(a + [x]) - multiset{x} + multiset{y}
  {
  }

  ghost predicate Extended(ss: seq<Session>, all: seq<Session>, i: nat, ts: int, v: int)
    requires i < |ss|
  {
    multiset(all) == multiset(ss) - multiset{ss[i]} + multiset{Extend(ss[i], ts, v)}
  }

  /** Near one run only, an event extends its session. */
  lemma {:induction false} AbsorbOne(rs: seq<seq<Event>>, e: Event, gap: int, i: nat)
    requires gap >= 0 && Cut(rs, gap) && NearAt(SessionsOf(rs), i, e.ts, gap)
    requires forall j :: j != i ==> !NearAt(SessionsOf(rs), j, e.ts, gap)
    ensures Extended(SessionsOf(rs), SessionsOf(Absorb(rs, e, gap)), i, e.ts, e.value)
    decreases |rs|
  {
    var front, run := rs[..|rs| - 1], rs[|rs| - 1];
    NearWhere(rs, i, e.ts, gap);
    if e.ts + gap < run[0].ts {
      CutFront(rs, gap);
      NearFront(rs, i, e.ts, gap);
      OnlyFront(rs, front, i, e.ts, gap);
      AbsorbOne(front, e, gap, i);
      OneFront(front, Absorb(front, e, gap), run, i, e);
      assert rs == front + [run];
    } else {
      assert NearAt(SessionsOf(rs), |rs| - 1, e.ts, gap);
      assert !NearAt(SessionsOf(rs), |rs| - 2, e.ts, gap);
      OneLast(rs, e, gap);
    }
  }

  lemma OnlyFront(rs: seq<seq<Event>>, front: seq<seq<Event>>, i: nat, ts: int, gap: int)
    requires Solid(rs) && rs != [] && front == rs[..|rs| - 1] && Solid(front)
    requires forall j :: j != i ==> !NearAt(SessionsOf(rs), j, ts, gap)
    ensures forall j :: j != i ==> !NearAt(SessionsOf(front), j, ts, gap)
  {
    forall j | j != i ensures !NearAt(SessionsOf(front), j, ts, gap) {
      if 0 <= j < |front| { NearFront(rs, j, ts, gap); }
    }
  }

  lemma OneFront(front: seq<seq<Event>>, all: seq<seq<Event>>, run: seq<Event>, i: nat, e: Event)
    requires Solid(front) && Solid(all) && run != [] && i < |front|
    requires Extended(SessionsOf(front), SessionsOf(all), i, e.ts, e.value)
    ensures Solid(front + [run]) && Solid(all + [run])
    ensures Extended(SessionsOf(front + [run]), SessionsOf(all + [run]), i, e.ts, e.value)
  {
    var ss := SessionsOf(front);
    SessionsSnoc(front, run);
    SessionsSnoc(all, run);
    SwapFront(ss, SessionsOf(all), i, Extend(ss[i], e.ts, e.value), SessionOf(run));
  }

  lemma OneLast(rs: seq<seq<Event>>, e: Event, gap: int)
    requires gap >= 0 && Cut(rs, gap) && rs != [] && !NearAt(SessionsOf(rs), |rs| - 2, e.ts, gap)
    requires rs[|rs| - 1][0].ts - gap <= e.ts <= EndOf(rs[|rs| - 1]) + gap
    ensures Extended(SessionsOf(rs), SessionsOf(Absorb(rs, e, gap)), |rs| - 1, e.ts, e.value)
  {
    var front, run := rs[..|rs| - 1], rs[|rs| - 1];
    if front != [] { NotBefore(rs, gap, e.ts); }
    assert Absorb(rs, e, gap) == front + [Place(run, e)];
    assert Timed(run) && rs == front + [run];
    LastGrows(front, run, e);
  }

  lemma LastGrows(front: seq<seq<Event>>, run: seq<Event>, e: Event)
    requires Solid(front) && run != [] && Timed(run)
    ensures Solid(front + [run]) && Solid(front + [Place(run, e)])
    ensures Extended(SessionsOf(front + [run]), SessionsOf(front + [Place(run, e)]), |front|, e.ts, e.value)
  {
    PlaceSession(run, e);
    SessionsSnoc(front, run);
    SessionsSnoc(front, Place(run, e));
    SwapLast(SessionsOf(front), SessionOf(run), Extend(SessionOf(run), e.ts, e.value));
  }

  /** An event near the last run is after the one before it. */
  lemma NotBefore(rs: seq<seq<Event>>, gap: int, ts: int)
    requires gap >= 0 && Cut(rs, gap) && |rs| >= 2 && rs[|rs| - 1][0].ts <= ts + gap
    ensures EndOf(rs[|rs| - 2]) < ts
    ensures NearAt(SessionsOf(rs), |rs| - 2, ts, gap) <==> ts <= EndOf(rs[|rs| - 2]) + gap
  {
    var n := |rs| - 1;
    assert Parted(rs, n, gap) && Timed(rs[n - 1]);
  }

  /** Near two runs, an event makes them one. */
  lemma {:induction false} AbsorbTwo(rs: seq<seq<Event>>, e: Event, gap: int, i: nat, j: nat)
    requires gap >= 0 && Cut(rs, gap) && i < j
    requires NearAt(SessionsOf(rs), i, e.ts, gap) && NearAt(SessionsOf(rs), j, e.ts, gap)
    ensures |Absorb(rs, e, gap)| == |rs| - 1
    decreases |rs|
  {
    var front, run := rs[..|rs| - 1], rs[|rs| - 1];
    NearWhere(rs, i, e.ts, gap);
    if e.ts + gap < run[0].ts {
      CutFront(rs, gap);
      NearFront(rs, i, e.ts, gap);
      NearFront(rs, j, e.ts, gap);
      AbsorbTwo(front, e, gap, i, j);
    }
  }

  /** The session `s` lies in `t`, and so does `ts` if near `s`. */
  predicate Takes(s: Session, t: Session, ts: int, gap: int) {
    t.start <= s.start && s.last <= t.last && (Near(s, ts, gap) ==> t.start <= ts <= t.last)
  }

  /** Sessions of runs only grow, and take in what is near them. */
  lemma {:induction false} AbsorbGrows(rs: seq<seq<Event>>, e: Event, gap: int, i: nat) returns (j: nat)
    requires gap >= 0 && Cut(rs, gap) && i < |rs|
    ensures j < |Absorb(rs, e, gap)| && Takes(SessionOf(rs[i]), SessionOf(Absorb(rs, e, gap)[j]), e.ts, gap)
    decreases |rs|
  {
    var n, front, run := |rs| - 1, rs[..|rs| - 1], rs[|rs| - 1];
    assert NearAt(SessionsOf(rs), i, e.ts, gap) <==> Near(SessionOf(rs[i]), e.ts, gap);
    if Near(SessionOf(rs[i]), e.ts, gap) { NearWhere(rs, i, e.ts, gap); }
    if EndOf(run) + gap < e.ts {
      j := i;
    } else if e.ts + gap < run[0].ts {
      CutFront(rs, gap);
      if i == n {
        j := |Absorb(front, e, gap)|;
      } else {
        j := AbsorbGrows(front, e, gap, i);
      }
    } else {
      j := NearGrows(rs, e, gap, i);
    }
  }

  lemma NearGrows(rs: seq<seq<Event>>, e: Event, gap: int, i: nat) returns (j: nat)
    requires gap >= 0 && Cut(rs, gap) && i < |rs| && rs[|rs| - 1][0].ts - gap <= e.ts <= EndOf(rs[|rs| - 1]) + gap
    requires Near(SessionOf(rs[i]), e.ts, gap) && i < |rs| - 1 ==> e.ts <= EndOf(rs[|rs| - 2]) + gap
    ensures j < |Absorb(rs, e, gap)| && Takes(SessionOf(rs[i]), SessionOf(Absorb(rs, e, gap)[j]), e.ts, gap)
  {
    var n := |rs| - 1;
    if i == n {
      LastTakes(rs, e, gap);
      j := |Absorb(rs, e, gap)| - 1;
    } else {
      j := i;
      if i < n - 1 { FarBelow(rs, gap, i, e.ts); } else { LastButOneTakes(rs, e, gap); }
    }
  }

  lemma LastTakes(rs: seq<seq<Event>>, e: Event, gap: int)
    requires gap >= 0 && Cut(rs, gap) && rs != [] && rs[|rs| - 1][0].ts - gap <= e.ts <= EndOf(rs[|rs| - 1]) + gap
    ensures var all := Absorb(rs, e, gap); Takes(SessionOf(rs[|rs| - 1]), SessionOf(all[|all| - 1]), e.ts, gap)
  {
    var n, run := |rs| - 1, rs[|rs| - 1];
    assert Timed(run) && Parted(rs, n, gap);
    PlaceEnds(run, e);
    if n > 0 { assert Timed(rs[n - 1]); }
  }

  lemma LastButOneTakes(rs: seq<seq<Event>>, e: Event, gap: int)
    requires gap >= 0 && Cut(rs, gap) && |rs| >= 2
    requires rs[|rs| - 1][0].ts - gap <= e.ts <= EndOf(rs[|rs| - 1]) + gap
    requires Near(SessionOf(rs[|rs| - 2]), e.ts, gap) ==> e.ts <= EndOf(rs[|rs| - 2]) + gap
    ensures var all := Absorb(rs, e, gap);
            |all| >= |rs| - 1 && Takes(SessionOf(rs[|rs| - 2]), SessionOf(all[|rs| - 2]), e.ts, gap)
  {
    var n, run := |rs| - 1, rs[|rs| - 1];
    assert Timed(run) && Timed(rs[n - 1]) && Parted(rs, n, gap);
    PlaceEnds(run, e);
  }

  /** Runs before the last but one are not near an event near the last. */
  lemma FarBelow(rs: seq<seq<Event>>, gap: int, i: nat, ts: int)
    requires gap >= 0 && Cut(rs, gap) && i < |rs| - 2 && rs[|rs| - 1][0].ts <= ts + gap
    ensures !Near(SessionOf(rs[i]), ts, gap)
  {
    var ss, n := SessionsOf(rs), |rs| - 1;
    CutIsSpaced(rs, gap);
    assert Apart(ss, i, n - 1, gap) && Apart(ss, n - 1, n, gap) && Formed(ss, n - 1);
  }

  lemma {:induction false} AbsorbHas(rs: seq<seq<Event>>, e: Event, gap: int) returns (j: nat)
    requires gap >= 0 && Cut(rs, gap)
    ensures j < |Absorb(rs, e, gap)|
    ensures var t := SessionsOf(Absorb(rs, e, gap))[j]; t.start <= e.ts <= t.last
    decreases |rs|
  {
    if rs == [] {
      j := 0;
    } else {
      var front, run := rs[..|rs| - 1], rs[|rs| - 1];
      if EndOf(run) + gap < e.ts {
        j := |rs|;
      } else if e.ts + gap < run[0].ts {
        CutFront(rs, gap);
        j := AbsorbHas(front, e, gap);
      } else {
        LastTakes(rs, e, gap);
        j := |Absorb(rs, e, gap)| - 1;
      }
    }
  }

  ghost predicate NoneNear(ss: seq<Session>, ts: int, gap: int) {
    forall i {:trigger NearAt(ss, i, ts, gap)} :: !NearAt(ss, i, ts, gap)
  }

  ghost predicate OneNear(ss: seq<Session>, ts: int, gap: int) {
    forall i, j {:trigger NearAt(ss, i, ts, gap), NearAt(ss, j, ts, gap)} ::
      NearAt(ss, i, ts, gap) && NearAt(ss, j, ts, gap) ==> i == j
  }

  /** How an event changes the number of runs. */
  lemma AbsorbCount(rs: seq<seq<Event>>, e: Event, gap: int)
    requires gap >= 0 && Cut(rs, gap)
    ensures NoneNear(SessionsOf(rs), e.ts, gap) ==> |Absorb(rs, e, gap)| == |rs| + 1
    ensures !NoneNear(SessionsOf(rs), e.ts, gap) ==> |Absorb(rs, e, gap)| <= |rs|
    ensures !OneNear(SessionsOf(rs), e.ts, gap) ==> |Absorb(rs, e, gap)| < |rs|
  {
    var ss, all := SessionsOf(rs), SessionsOf(Absorb(rs, e, gap));
    assert |multiset(ss)| == |rs| && |multiset(all)| == |Absorb(rs, e, gap)|;
    if NoneNear(ss, e.ts, gap) {
      AbsorbNone(rs, e, gap);
    } else {
      var i :| NearAt(ss, i, e.ts, gap);
      if j :| j != i && NearAt(ss, j, e.ts, gap) {
        AbsorbTwo(rs, e, gap, if i < j then i else j, if i < j then j else i);
      } else {
        AbsorbOne(rs, e, gap, i);
        assert ss[i] in multiset(ss);
      }
    }
  }

  // ---------- the sessions of the processor ----------

  function FirstNear(list: seq<Session>, ts: int, gap: int): (i: nat)
    ensures i <= |list|
    ensures i < |list| ==> Near(list[i], ts, gap)
    ensures forall j :: 0 <= j < i ==> !Near(list[j], ts, gap)
  {
    if list == [] || Near(list[0], ts, gap) then 0 else 1 + FirstNear(list[1..], ts, gap)
  }

  lemma ShiftUpdate(head: Session, tail: seq<Session>, i: nat, ts: int, v: int)
    requires i <= |tail|
    ensures var list := [head] + tail;
            if i < |tail| then [head] + tail[i := Extend(tail[i], ts, v)] == list[i + 1 := Extend(list[i + 1], ts, v)]
            else [head] + (tail + [NewSession(ts, v)]) == list + [NewSession(ts, v)]
  {
  }

  lemma {:induction false} InsertAt(list: seq<Session>, ts: int, v: int, gap: int)
    ensures var i := FirstNear(list, ts, gap);
            Insert(list, ts, v, gap) ==
            if i < |list| then list[i := Extend(list[i], ts, v)] else list + [NewSession(ts, v)]
    decreases |list|
  {
    if list == [] {
      assert Insert(list, ts, v, gap) == list + [NewSession(ts, v)];
    } else {
      var head, tail := list[0], list[1..];
      assert list == [head] + tail;
      if !Near(head, ts, gap) {
        InsertAt(tail, ts, v, gap);
        ShiftUpdate(head, tail, FirstNear(tail, ts, gap), ts, v);
      }
    }
  }

  /** Some session of a run holds `s`. */
  ghost predicate InOne(s: Session, ss: seq<Session>) {
    exists j :: 0 <= j < |ss| && ss[j].start <= s.start && s.last <= ss[j].last
  }

  ghost predicate Inside(all: multiset<Session>, ss: seq<Session>) {
    forall s :: s in all ==> InOne(s, ss)
  }

  /** A session inside a run is inside one after one more event, which it may take. */
  lemma StaysInside(s: Session, rs: seq<seq<Event>>, e: Event, gap: int)
    requires gap >= 0 && Cut(rs, gap) && InOne(s, SessionsOf(rs))
    ensures InOne(s, SessionsOf(Absorb(rs, e, gap)))
    ensures Near(s, e.ts, gap) ==> InOne(Extend(s, e.ts, e.value), SessionsOf(Absorb(rs, e, gap)))
    ensures Near(s, e.ts, gap) ==> !NoneNear(SessionsOf(rs), e.ts, gap)
  {
    var ss, all := SessionsOf(rs), SessionsOf(Absorb(rs, e, gap));
    var i :| 0 <= i < |ss| && ss[i].start <= s.start && s.last <= ss[i].last;
    var j := AbsorbGrows(rs, e, gap, i);
    assert all[j].start <= s.start && s.last <= all[j].last;
    if Near(s, e.ts, gap) {
      assert NearAt(ss, i, e.ts, gap);
    }
  }

  lemma NewInside(rs: seq<seq<Event>>, e: Event, gap: int)
    requires gap >= 0 && Cut(rs, gap)
    ensures InOne(NewSession(e.ts, e.value), SessionsOf(Absorb(rs, e, gap)))
  {
    var j := AbsorbHas(rs, e, gap);
    var t := SessionsOf(Absorb(rs, e, gap))[j];
    assert t.start <= e.ts && e.ts <= t.last;
  }

  /** The sessions of a key: those reported and those open. */
  ghost function Both(shown: seq<Session>, open: seq<Session>): multiset<Session> {
    multiset(shown) + multiset(open)
  }

  lemma InsertBoth(shown: seq<Session>, open: seq<Session>, ts: int, v: int, gap: int)
    ensures var i, all := FirstNear(open, ts, gap), Both(shown, Insert(open, ts, v, gap));
            if i < |open| then all == Both(shown, open) - multiset{open[i]} + multiset{Extend(open[i], ts, v)}
            else all == Both(shown, open) + multiset{NewSession(ts, v)}
  {
    InsertAt(open, ts, v, gap);
  }

  lemma EventInside(shown: seq<Session>, open: seq<Session>, rs: seq<seq<Event>>, e: Event, gap: int)
    requires gap >= 0 && Cut(rs, gap) && Inside(Both(shown, open), SessionsOf(rs))
    ensures Inside(Both(shown, Insert(open, e.ts, e.value, gap)), SessionsOf(Absorb(rs, e, gap)))
  {
    var i, all := FirstNear(open, e.ts, gap), Both(shown, Insert(open, e.ts, e.value, gap));
    InsertBoth(shown, open, e.ts, e.value, gap);
    NewInside(rs, e, gap);
    if i < |open| {
      assert open[i] in Both(shown, open);
      StaysInside(open[i], rs, e, gap);
    }
    forall s | s in all ensures InOne(s, SessionsOf(Absorb(rs, e, gap))) {
      if s in Both(shown, open) { StaysInside(s, rs, e, gap); }
    }
  }

  /** The event is near no reported session and near at most one that is open. */
  ghost predicate Clear(shown: seq<Session>, open: seq<Session>, ts: int, gap: int) {
    NoneNear(shown, ts, gap) && OneNear(open, ts, gap)
  }

  /** While all events are clear the sessions are those of the runs; from the first
      that is not, there are more. */
  ghost predicate Balance(all: multiset<Session>, ss: seq<Session>, clear: bool) {
    if clear then all == multiset(ss) else |all| > |ss|
  }

  lemma StaysAhead(shown: seq<Session>, open: seq<Session>, rs: seq<seq<Event>>, e: Event, gap: int)
    requires gap >= 0 && Cut(rs, gap) && Inside(Both(shown, open), SessionsOf(rs)) && |Both(shown, open)| > |rs|
    ensures |Both(shown, Insert(open, e.ts, e.value, gap))| > |Absorb(rs, e, gap)|
  {
    var i := FirstNear(open, e.ts, gap);
    InsertBoth(shown, open, e.ts, e.value, gap);
    AbsorbCount(rs, e, gap);
    if i < |open| {
      assert open[i] in Both(shown, open);
      StaysInside(open[i], rs, e, gap);
    }
  }

  lemma AppearsOnce(ss: seq<Session>, gap: int, i: nat)
    requires gap >= 0 && Spaced(ss, gap) && i < |ss|
    ensures multiset(ss)[ss[i]] == 1
  {
    var a, b := ss[..i], ss[i + 1..];
    forall j | 0 <= j < |a| ensures a[j] != ss[i] { assert Apart(ss, j, i, gap) && Formed(ss, i) && Formed(ss, j); }
    forall j | 0 <= j < |b| ensures b[j] != ss[i] { assert Apart(ss, i, i + 1 + j, gap) && Formed(ss, i); }
    assert ss == a + [ss[i]] + b;
    assert ss[i] !in multiset(a) && ss[i] !in multiset(b);
  }

  lemma NearMember(ss: seq<Session>, s: Session, ts: int, gap: int) returns (j: nat)
    requires s in multiset(ss) && Near(s, ts, gap)
    ensures NearAt(ss, j, ts, gap) && ss[j] == s
  {
    j :| 0 <= j < |ss| && ss[j] == s;
  }

  lemma NearNone(shown: seq<Session>, open: seq<Session>, rs: seq<seq<Event>>, e: Event, gap: int)
    requires gap >= 0 && Cut(rs, gap) && Both(shown, open) == multiset(SessionsOf(rs))
    requires NoneNear(SessionsOf(rs), e.ts, gap)
    ensures Clear(shown, open, e.ts, gap)
    ensures Both(shown, Insert(open, e.ts, e.value, gap)) == multiset(SessionsOf(Absorb(rs, e, gap)))
  {
    var ss := SessionsOf(rs);
    forall i ensures !NearAt(shown, i, e.ts, gap) {
      if NearAt(shown, i, e.ts, gap) {
        assert shown[i] in Both(shown, open);
        var j := NearMember(ss, shown[i], e.ts, gap);
      }
    }
    forall i ensures !NearAt(open, i, e.ts, gap) {
      if NearAt(open, i, e.ts, gap) {
        assert open[i] in Both(shown, open);
        var j := NearMember(ss, open[i], e.ts, gap);
      }
    }
    assert !NearAt(open, FirstNear(open, e.ts, gap), e.ts, gap);
    InsertBoth(shown, open, e.ts, e.value, gap);
    AbsorbNone(rs, e, gap);
  }

  /** With one run near, every session near is that run's. */
  lemma OnlyThat(shown: seq<Session>, open: seq<Session>, ss: seq<Session>, p: nat, s: Session, ts: int, gap: int)
    requires Both(shown, open) == multiset(ss) && NearAt(ss, p, ts, gap) && OneNear(ss, ts, gap)
    requires s in Both(shown, open) && Near(s, ts, gap)
    ensures s == ss[p]
  {
    var j := NearMember(ss, s, ts, gap);
  }

  lemma Once(shown: seq<Session>, open: seq<Session>, x: Session, i: nat, j: nat)
    requires Both(shown, open)[x] == 1
    ensures i < j < |open| && open[i] == x ==> open[j] != x
    ensures x in multiset(shown) ==> x !in multiset(open)
  {
    if i < j < |open| && open[i] == open[j] { Twice(open, i, j); }
  }

  lemma Twice(ss: seq<Session>, i: nat, j: nat)
    requires i < j < |ss| && ss[i] == ss[j]
    ensures multiset(ss)[ss[i]] >= 2
  {
    assert ss == ss[..j] + [ss[j]] + ss[j + 1..];
    assert ss[..j][i] in multiset(ss[..j]);
  }

  lemma NearOneClear(shown: seq<Session>, open: seq<Session>, rs: seq<seq<Event>>, e: Event, gap: int, p: nat)
    requires gap >= 0 && Cut(rs, gap) && Both(shown, open) == multiset(SessionsOf(rs))
    requires NearAt(SessionsOf(rs), p, e.ts, gap) && OneNear(SessionsOf(rs), e.ts, gap)
    requires NoneNear(shown, e.ts, gap)
    ensures Both(shown, Insert(open, e.ts, e.value, gap)) == multiset(SessionsOf(Absorb(rs, e, gap)))
  {
    var ss, f := SessionsOf(rs), FirstNear(open, e.ts, gap);
    assert ss[p] in Both(shown, open);
    if ss[p] in multiset(shown) {
      var a := NearMember(shown, ss[p], e.ts, gap);
    }
    var b := NearMember(open, ss[p], e.ts, gap);
    assert f < |open| && open[f] in Both(shown, open);
    OnlyThat(shown, open, ss, p, open[f], e.ts, gap);
    InsertBoth(shown, open, e.ts, e.value, gap);
    AbsorbOne(rs, e, gap, p);
  }

  lemma NearOneShown(shown: seq<Session>, open: seq<Session>, rs: seq<seq<Event>>, e: Event, gap: int, p: nat)
    requires gap >= 0 && Cut(rs, gap) && Both(shown, open) == multiset(SessionsOf(rs))
    requires NearAt(SessionsOf(rs), p, e.ts, gap) && OneNear(SessionsOf(rs), e.ts, gap)
    ensures OneNear(open, e.ts, gap)
    ensures !NoneNear(shown, e.ts, gap) ==> |Both(shown, Insert(open, e.ts, e.value, gap))| > |Absorb(rs, e, gap)|
  {
    var ss := SessionsOf(rs);
    CutIsSpaced(rs, gap);
    AppearsOnce(ss, gap, p);
    forall i, j | NearAt(open, i, e.ts, gap) && NearAt(open, j, e.ts, gap) ensures i == j {
      assert open[i] in Both(shown, open) && open[j] in Both(shown, open);
      OnlyThat(shown, open, ss, p, open[i], e.ts, gap);
      OnlyThat(shown, open, ss, p, open[j], e.ts, gap);
      Once(shown, open, ss[p], i, j);
      Once(shown, open, ss[p], j, i);
    }
    if !NoneNear(shown, e.ts, gap) {
      var a :| NearAt(shown, a, e.ts, gap);
      assert shown[a] in Both(shown, open);
      OnlyThat(shown, open, ss, p, shown[a], e.ts, gap);
      Once(shown, open, ss[p], 0, 0);
      var f := FirstNear(open, e.ts, gap);
      if f < |open| {
        assert open[f] in Both(shown, open);
        OnlyThat(shown, open, ss, p, open[f], e.ts, gap);
      }
      InsertBoth(shown, open, e.ts, e.value, gap);
      AbsorbCount(rs, e, gap);
      assert |Both(shown, open)| == |ss|;
    }
  }

  lemma NearTwo(shown: seq<Session>, open: seq<Session>, rs: seq<seq<Event>>, e: Event, gap: int, p: nat, q: nat)
    requires gap >= 0 && Cut(rs, gap) && Both(shown, open) == multiset(SessionsOf(rs)) && p < q
    requires NearAt(SessionsOf(rs), p, e.ts, gap) && NearAt(SessionsOf(rs), q, e.ts, gap)
    ensures !Clear(shown, open, e.ts, gap)
    ensures |Both(shown, Insert(open, e.ts, e.value, gap))| > |Absorb(rs, e, gap)|
  {
    var ss := SessionsOf(rs);
    CutIsSpaced(rs, gap);
    assert Apart(ss, p, q, gap) && Formed(ss, p) && Formed(ss, q);
    assert ss[p] in Both(shown, open) && ss[q] in Both(shown, open);
    if Clear(shown, open, e.ts, gap) {
      if ss[p] in multiset(shown) { var a := NearMember(shown, ss[p], e.ts, gap); }
      if ss[q] in multiset(shown) { var a := NearMember(shown, ss[q], e.ts, gap); }
      var a := NearMember(open, ss[p], e.ts, gap);
      var b := NearMember(open, ss[q], e.ts, gap);
    }
    InsertBoth(shown, open, e.ts, e.value, gap);
    AbsorbTwo(rs, e, gap, p, q);
    assert |Both(shown, open)| == |ss|;
  }

  /** One more event of the key. */
  lemma EventBalance(shown: seq<Session>, open: seq<Session>, rs: seq<seq<Event>>, e: Event, gap: int, clear: bool)
    requires gap >= 0 && Cut(rs, gap) && Inside(Both(shown, open), SessionsOf(rs))
    requires Balance(Both(shown, open), SessionsOf(rs), clear)
    ensures Balance(Both(shown, Insert(open, e.ts, e.value, gap)), SessionsOf(Absorb(rs, e, gap)),
                    clear && Clear(shown, open, e.ts, gap))
  {
    var ss := SessionsOf(rs);
    if !clear {
      StaysAhead(shown, open, rs, e, gap);
    } else if NoneNear(ss, e.ts, gap) {
      NearNone(shown, open, rs, e, gap);
    } else {
      var p :| NearAt(ss, p, e.ts, gap);
      if q :| q != p && NearAt(ss, q, e.ts, gap) {
        NearTwo(shown, open, rs, e, gap, if p < q then p else q, if p < q then q else p);
      } else {
        NearOneShown(shown, open, rs, e, gap, p);
        if NoneNear(shown, e.ts, gap) { NearOneClear(shown, open, rs, e, gap, p); }
      }
    }
  }

  // ---------- closing ----------

  /** The sessions at positions `ps` among the first `n`. */
  ghost function Chosen(list: seq<Session>, ps: set<nat>, n: nat): multiset<Session>
    requires n <= |list|
  {
    if n == 0 then multiset{}
    else Chosen(list, ps, n - 1) + if n - 1 in ps then multiset{list[n - 1]} else multiset{}
  }

  lemma Sums<T>(a: seq<T>, b: seq<T>)
    ensures multiset(a + b) == multiset(a) + multiset(b)
  {
  }

  lemma Reorder<T>(a: multiset<T>, b: multiset<T>, c: multiset<T>)
    ensures a + b + c == a + c + b
  {
  }

  lemma {:induction false} ChosenMore(list: seq<Session>, ps: set<nat>, x: nat, n: nat)
    requires n <= |list| && x !in ps
    ensures Chosen(list, ps + {x}, n) == Chosen(list, ps, n) + if x < n then multiset{list[x]} else multiset{}
  {
    if n > 0 {
      var m := n - 1;
      ChosenMore(list, ps, x, m);
      assert m in ps + {x} <==> m in ps || m == x;
      Reorder(Chosen(list, ps, m), if x < m then multiset{list[x]} else multiset{},
              if m in ps then multiset{list[m]} else multiset{});
    }
  }

  lemma {:induction false} ChosenNone(list: seq<Session>, n: nat)
    requires n <= |list|
    ensures Chosen(list, {}, n) == multiset{}
  {
    if n > 0 { ChosenNone(list, n - 1); }
  }

  function PlacesOf(q: seq<Rank>): set<nat> {
    set i | 0 <= i < |q| :: q[i].pos
  }

  ghost predicate Singly(q: seq<Rank>) {
    forall i, j :: 0 <= i < j < |q| ==> q[i].pos != q[j].pos
  }

  lemma {:induction false} PickedIsChosen(list: seq<Session>, q: seq<Rank>)
    requires Singly(q) && forall r :: r in q ==> r.pos < |list|
    ensures multiset(Picked(list, q)) == Chosen(list, PlacesOf(q), |list|)
    decreases |q|
  {
    if q == [] {
      ChosenNone(list, |list|);
      assert PlacesOf(q) == {} && Picked(list, q) == [];
    } else {
      var front, last := q[..|q| - 1], q[|q| - 1];
      B.InFront(q);
      PickedIsChosen(list, front);
      assert last in q && last.pos !in PlacesOf(front);
      assert PlacesOf(q) == PlacesOf(front) + {last.pos};
      ChosenMore(list, PlacesOf(front), last.pos, |list|);
      assert Picked(list, q) == Picked(list, front) + [list[last.pos]];
    }
  }

  lemma {:induction false} KeptSnoc(list: seq<Session>, s: Session, gap: int, w: int)
    ensures Kept(list + [s], gap, w) == Kept(list, gap, w) + if Over(s, gap, w) then [] else [s]
    decreases |list|
  {
    if list == [] {
      assert list + [s] == [s] && [s][1..] == [];
    } else {
      KeptSnoc(list[1..], s, gap, w);
      assert (list + [s])[1..] == list[1..] + [s];
    }
  }

  function OverPlaces(list: seq<Session>, gap: int, w: int): set<nat> {
    set i: nat | i < |list| && Over(list[i], gap, w)
  }

  /** What is over and what is kept make up the list. */
  lemma {:induction false} OverAndKept(list: seq<Session>, gap: int, w: int, n: nat)
    requires n <= |list|
    ensures Chosen(list, OverPlaces(list, gap, w), n) + multiset(Kept(list[..n], gap, w)) == multiset(list[..n])
  {
    if n > 0 {
      var m := n - 1;
      OverAndKept(list, gap, w, m);
      KeptSnoc(list[..m], list[m], gap, w);
      assert list[..n] == list[..m] + [list[m]];
      assert m in OverPlaces(list, gap, w) <==> Over(list[m], gap, w);
      KeptStep(Chosen(list, OverPlaces(list, gap, w), m), Kept(list[..m], gap, w), list[..m], list[m],
               Over(list[m], gap, w));
    }
  }

  lemma KeptStep(c: multiset<Session>, kept: seq<Session>, list: seq<Session>, s: Session, over: bool)
    requires c + multiset(kept) == multiset(list)
    ensures c + (if over then multiset{s} else multiset{}) + multiset(kept + if over then [] else [s]) ==
            multiset(list + [s])
  {
    if over {
      assert kept + [] == kept;
      Reorder(c, multiset{s}, multiset(kept));
    } else {
      Sums(kept, [s]);
    }
    Sums(list, [s]);
  }

  /** The ranks a watermark completes, of one key. */
  ghost function Completed(open: OpenSessions, gap: int, w: int, k: Key): seq<Rank> {
    RanksOf(InOrder(ReadySessions(open, gap, w)), k)
  }

  lemma CompletedIs(open: OpenSessions, gap: int, w: int, k: Key)
    ensures forall r :: r in Completed(open, gap, w, k) ==>
              r.pos < |ListOf(open, k)| && r == Rank(ListOf(open, k)[r.pos].start, k, r.pos)
    ensures Singly(Completed(open, gap, w, k))
    ensures PlacesOf(Completed(open, gap, w, k)) == OverPlaces(ListOf(open, k), gap, w)
  {
    var ready, list, q := ReadySessions(open, gap, w), ListOf(open, k), Completed(open, gap, w, k);
    InOrderIs(ready);
    RanksOfIs(InOrder(ready), k);
    forall r | r in q ensures r.pos in OverPlaces(list, gap, w) && r == Rank(list[r.pos].start, k, r.pos) {
      assert r in ready && r.key == k;
    }
    forall i, j | 0 <= i < j < |q| ensures q[i].pos != q[j].pos {
      assert q[i] in q && q[j] in q && Before(q[i], q[j]);
      BeforeTotal(q[i], q[i]);
    }
    forall i: nat | i in OverPlaces(list, gap, w) ensures i in PlacesOf(q) {
      var r := Rank(list[i].start, k, i);
      assert r in ready && r in q;
      var a :| 0 <= a < |q| && q[a] == r;
    }
    forall i: nat | i in PlacesOf(q) ensures i in OverPlaces(list, gap, w) {
      var a :| 0 <= a < |q| && q[a].pos == i;
      assert q[a] in q;
    }
  }

  /** What a watermark, or the end, reports of one key is what it does not keep. */
  lemma ClosingMoves(open: OpenSessions, gap: int, agg: Agg, w: int, tail: Output, k: Key) returns (gone: seq<Session>)
    requires !tail.Emit?
    ensures ForKey(ClosingSessions(open, gap, agg, w) + [tail], k) == ResultsOf(gone, k, agg)
    ensures multiset(gone) + multiset(ListOf(KeptAll(open, gap, w), k)) == multiset(ListOf(open, k))
  {
    var list, q, ready := ListOf(open, k), Completed(open, gap, w, k), ReadySessions(open, gap, w);
    CompletedIs(open, gap, w, k);
    InOrderIs(ready);
    gone := Picked(list, q);
    ForKeyEmissions(open, agg, InOrder(ready), k);
    var closing := ClosingSessions(open, gap, agg, w);
    assert (closing + [tail])[..|closing|] == closing;
    PickedIsChosen(list, q);
    OverAndKept(list, gap, w, |list|);
    KeptList(open, gap, w, k);
    assert list[..|list|] == list;
  }

  lemma {:induction false} ResultsPermute(a: seq<Session>, b: seq<Session>, k: Key, agg: Agg)
    requires multiset(a) == multiset(b)
    ensures multiset(ResultsOf(a, k, agg)) == multiset(ResultsOf(b, k, agg))
    decreases |a|
  {
    if a == [] {
      assert |multiset(b)| == 0;
    } else {
      var front, x := a[..|a| - 1], a[|a| - 1];
      assert a == front + [x] && x in multiset(b);
      var j :| 0 <= j < |b| && b[j] == x;
      var rest := b[..j] + b[j + 1..];
      Removed(b, j);
      Cancel(multiset(rest), multiset(front), x);
      ResultsPermute(front, rest, k, agg);
      assert ResultsOf(a, k, agg) == ResultsOf(front, k, agg) + [SessionResult(x, k, agg)];
      ResultsSplit(b, j, rest, k, agg);
    }
  }

  lemma Cancel<T>(a: multiset<T>, b: multiset<T>, x: T)
    requires a + multiset{x} == b + multiset{x}
    ensures a == b
  {
    assert a + multiset{x} - multiset{x} == a && b + multiset{x} - multiset{x} == b;
  }

  lemma Removed<T>(s: seq<T>, j: nat)
    requires j < |s|
    ensures multiset(s) == multiset(s[..j] + s[j + 1..]) + multiset{s[j]}
  {
    assert s == s[..j] + [s[j]] + s[j + 1..];
  }

  lemma ResultsSplit(b: seq<Session>, j: nat, rest: seq<Session>, k: Key, agg: Agg)
    requires j < |b| && rest == b[..j] + b[j + 1..]
    ensures multiset(ResultsOf(b, k, agg)) == multiset(ResultsOf(rest, k, agg)) + multiset{SessionResult(b[j], k, agg)}
  {
    var all, some := ResultsOf(b, k, agg), ResultsOf(rest, k, agg);
    Removed(all, j);
    assert some == all[..j] + all[j + 1..];
  }

  // ---------- whole runs ----------

  predicate NearResult(r: Result, ts: int, gap: int) {
    r.start - gap <= ts <= r.end - 1 + gap
  }

  /** On arrival the event is within `gap` of at most one session still open and of
      none already reported. */
  ghost predicate Welcome(open: seq<Session>, results: seq<Result>, ts: int, gap: int) {
    OneNear(open, ts, gap) && forall r :: r in results ==> !NearResult(r, ts, gap)
  }

  ghost predicate WelcomeAt(gap: int, agg: Agg, items: seq<Item>, n: nat, k: Key)
    requires n < |items|
  {
    OfKey(items[n], k) ==>
      var run := SessionRun(gap, agg, map[], items, n);
      Welcome(ListOf(run.0, k), ForKey(run.1, k), items[n].e.ts, gap)
  }

  /** Every event of `k` among the first `n` items was welcome. */
  ghost predicate Smooth(gap: int, agg: Agg, items: seq<Item>, n: nat, k: Key)
    requires n <= |items|
  {
    forall m {:trigger WelcomeAt(gap, agg, items, m, k)} :: 0 <= m < n ==> WelcomeAt(gap, agg, items, m, k)
  }

  lemma SmoothMore(gap: int, agg: Agg, items: seq<Item>, n: nat, k: Key)
    requires n < |items|
    ensures Smooth(gap, agg, items, n + 1, k) <==> Smooth(gap, agg, items, n, k) && WelcomeAt(gap, agg, items, n, k)
  {
    if Smooth(gap, agg, items, n + 1, k) {
      forall m | 0 <= m < n ensures WelcomeAt(gap, agg, items, m, k) { }
      assert WelcomeAt(gap, agg, items, n, k);
    }
  }

  ghost predicate Tallied(k: Key, agg: Agg, shown: seq<Session>, outs: seq<Output>) {
    multiset(ForKey(outs, k)) == multiset(ResultsOf(shown, k, agg))
  }

  lemma WelcomeIsClear(k: Key, agg: Agg, shown: seq<Session>, open: seq<Session>, outs: seq<Output>, ts: int, gap: int)
    requires Tallied(k, agg, shown, outs)
    ensures Welcome(open, ForKey(outs, k), ts, gap) <==> Clear(shown, open, ts, gap)
  {
    var results, rs := ForKey(outs, k), ResultsOf(shown, k, agg);
    forall r ensures r in results <==> r in rs {
      assert r in multiset(results) <==> r in multiset(rs);
    }
    if Welcome(open, results, ts, gap) {
      forall i ensures !NearAt(shown, i, ts, gap) {
        if 0 <= i < |shown| { assert rs[i] in rs; }
      }
    }
    if Clear(shown, open, ts, gap) {
      forall r | r in results ensures !NearResult(r, ts, gap) {
        var i :| 0 <= i < |rs| && rs[i] == r;
        assert !NearAt(shown, i, ts, gap);
      }
    }
  }

  /** How the sessions of `k`, reported and open, stand to the runs `rs`. */
  ghost predicate Stands(k: Key, gap: int, agg: Agg, rs: seq<seq<Event>>, run: (OpenSessions, seq<Output>),
                         shown: seq<Session>, smooth: bool)
    requires Solid(rs)
  {
    && Tallied(k, agg, shown, run.1)
    && Inside(Both(shown, ListOf(run.0, k)), SessionsOf(rs))
    && Balance(Both(shown, ListOf(run.0, k)), SessionsOf(rs), smooth)
  }

  lemma EventStands(e: Event, gap: int, agg: Agg, rs: seq<seq<Event>>, run: (OpenSessions, seq<Output>),
                    shown: seq<Session>, smooth: bool)
    requires gap >= 0 && Cut(rs, gap) && Stands(e.key, gap, agg, rs, run, shown, smooth)
    ensures Stands(e.key, gap, agg, Absorb(rs, e, gap), Onward(gap, agg, run, Data(e)), shown,
                   smooth && Welcome(ListOf(run.0, e.key), ForKey(run.1, e.key), e.ts, gap))
  {
    var open := ListOf(run.0, e.key);
    AbsorbIsCut(rs, e, gap);
    EventInside(shown, open, rs, e, gap);
    EventBalance(shown, open, rs, e, gap, smooth);
    WelcomeIsClear(e.key, agg, shown, open, run.1, e.ts, gap);
    assert run.1 + [] == run.1;
  }

  lemma ResultsConcat(a: seq<Session>, b: seq<Session>, k: Key, agg: Agg)
    ensures ResultsOf(a + b, k, agg) == ResultsOf(a, k, agg) + ResultsOf(b, k, agg)
  {
  }

  lemma TalliedMore(k: Key, agg: Agg, shown: seq<Session>, gone: seq<Session>, outs: seq<Output>, closing: seq<Output>)
    requires Tallied(k, agg, shown, outs) && ForKey(closing, k) == ResultsOf(gone, k, agg)
    ensures Tallied(k, agg, shown + gone, outs + closing)
  {
    ForKeyConcat(outs, closing, k);
    ResultsConcat(shown, gone, k, agg);
    Sums(ForKey(outs, k), ForKey(closing, k));
    Sums(ResultsOf(shown, k, agg), ResultsOf(gone, k, agg));
  }

  lemma StandsAlike(k: Key, gap: int, agg: Agg, rs: seq<seq<Event>>, run: (OpenSessions, seq<Output>),
                    run': (OpenSessions, seq<Output>), shown: seq<Session>, shown': seq<Session>, smooth: bool)
    requires Solid(rs) && Stands(k, gap, agg, rs, run, shown, smooth) && Tallied(k, agg, shown', run'.1)
    requires Both(shown', ListOf(run'.0, k)) == Both(shown, ListOf(run.0, k))
    ensures Stands(k, gap, agg, rs, run', shown', smooth)
  {
  }

  lemma MovesOver(shown: seq<Session>, gone: seq<Session>, kept: seq<Session>, list: seq<Session>)
    requires multiset(gone) + multiset(kept) == multiset(list)
    ensures Both(shown + gone, kept) == Both(shown, list)
  {
  }

  /** Sessions reported and no longer open leave everything else standing. */
  lemma StandsMoved(k: Key, gap: int, agg: Agg, rs: seq<seq<Event>>, run: (OpenSessions, seq<Output>),
                    open: OpenSessions, closing: seq<Output>, shown: seq<Session>, gone: seq<Session>, smooth: bool)
    requires Solid(rs) && Stands(k, gap, agg, rs, run, shown, smooth) && ForKey(closing, k) == ResultsOf(gone, k, agg)
    requires multiset(gone) + multiset(ListOf(open, k)) == multiset(ListOf(run.0, k))
    ensures Stands(k, gap, agg, rs, (open, run.1 + closing), shown + gone, smooth)
  {
    TalliedMore(k, agg, shown, gone, run.1, closing);
    MovesOver(shown, gone, ListOf(open, k), ListOf(run.0, k));
    StandsAlike(k, gap, agg, rs, run, (open, run.1 + closing), shown, shown + gone, smooth);
  }

  lemma OnwardLevel(gap: int, agg: Agg, run: (OpenSessions, seq<Output>), item: Item, w: int, tail: Output)
    requires (item == Watermark(w) && tail == Passed(w)) || (item.Done? && w == MAX && tail == Finished)
    ensures Onward(gap, agg, run, item) ==
            (KeptAll(run.0, gap, w), run.1 + (ClosingSessions(run.0, gap, agg, w) + [tail]))
  {
  }

  lemma LevelStands(item: Item, k: Key, gap: int, agg: Agg, rs: seq<seq<Event>>, run: (OpenSessions, seq<Output>),
                    shown: seq<Session>, smooth: bool) returns (shown': seq<Session>)
    requires (item.Watermark? || item.Done?) && Solid(rs) && Stands(k, gap, agg, rs, run, shown, smooth)
    ensures Stands(k, gap, agg, rs, Onward(gap, agg, run, item), shown', smooth)
  {
    var w, tail := B.Level(item), if item.Done? then Finished else Passed(item.w);
    var gone := ClosingMoves(run.0, gap, agg, w, tail, k);
    shown' := shown + gone;
    OnwardLevel(gap, agg, run, item, w, tail);
    StandsMoved(k, gap, agg, rs, run, KeptAll(run.0, gap, w), ClosingSessions(run.0, gap, agg, w) + [tail],
                shown, gone, smooth);
  }

  lemma ItemStands(item: Item, k: Key, gap: int, agg: Agg, rs: seq<seq<Event>>, run: (OpenSessions, seq<Output>),
                   shown: seq<Session>, smooth: bool) returns (shown': seq<Session>)
    requires gap >= 0 && Solid(rs) && Stands(k, gap, agg, rs, run, shown, smooth) && !OfKey(item, k)
    ensures Stands(k, gap, agg, rs, Onward(gap, agg, run, item), shown', smooth)
  {
    if item.Watermark? || item.Done? {
      shown' := LevelStands(item, k, gap, agg, rs, run, shown, smooth);
    } else {
      shown' := shown;
      assert run.1 + [] == run.1;
    }
  }

  /** The runs of `k`, the processor, and whether all was smooth, by items taken. */
  type Film = nat -> (seq<seq<Event>>, (OpenSessions, seq<Output>), bool)

  ghost predicate Frame(f: Film, gap: int, agg: Agg, items: seq<Item>, n: nat, k: Key) {
    && n <= |items|
    && f(n).0 == RunsOf(EventsOf(items, n, k), gap)
    && f(n).1 == SessionRun(gap, agg, map[], items, n)
    && f(n).2 == Smooth(gap, agg, items, n, k)
  }

  ghost predicate StandsIn(f: Film, gap: int, agg: Agg, n: nat, k: Key, shown: seq<Session>) {
    Solid(f(n).0) && Stands(k, gap, agg, f(n).0, f(n).1, shown, f(n).2)
  }

  lemma StandsNext(f: Film, gap: int, agg: Agg, items: seq<Item>, n: nat, next: nat, k: Key, shown: seq<Session>)
    returns (shown': seq<Session>)
    requires gap >= 0 && next == n + 1 && StandsIn(f, gap, agg, n, k, shown)
    requires Frame(f, gap, agg, items, n, k) && Frame(f, gap, agg, items, next, k)
    ensures StandsIn(f, gap, agg, next, k, shown')
  {
    var evs, run, smooth := EventsOf(items, n, k), SessionRun(gap, agg, map[], items, n), Smooth(gap, agg, items, n, k);
    SmoothMore(gap, agg, items, n, k);
    if OfKey(items[n], k) {
      RunsAreCut(evs, gap);
      RunsAbsorb(evs, items[n].e, gap);
      EventStands(items[n].e, gap, agg, RunsOf(evs, gap), run, shown, smooth);
      shown' := shown;
    } else {
      shown' := ItemStands(items[n], k, gap, agg, RunsOf(evs, gap), run, shown, smooth);
    }
  }

  lemma StandsFirst(f: Film, gap: int, agg: Agg, items: seq<Item>, n: nat, k: Key) returns (shown: seq<Session>)
    requires n == 0 && Frame(f, gap, agg, items, n, k)
    ensures StandsIn(f, gap, agg, n, k, shown)
  {
    shown := [];
    assert ResultsOf(shown, k, agg) == [] && SessionsOf([]) == [];
  }

  lemma {:induction false} FilmStands(f: Film, gap: int, agg: Agg, items: seq<Item>, n: nat, k: Key)
    returns (shown: seq<Session>)
    requires gap >= 0 && n <= |items| && forall m: nat :: m <= |items| ==> Frame(f, gap, agg, items, m, k)
    ensures StandsIn(f, gap, agg, n, k, shown)
    decreases n
  {
    assert Frame(f, gap, agg, items, n, k);
    if n == 0 {
      shown := StandsFirst(f, gap, agg, items, n, k);
    } else {
      var m := n - 1;
      assert Frame(f, gap, agg, items, m, k);
      var before := FilmStands(f, gap, agg, items, m, k);
      shown := StandsNext(f, gap, agg, items, m, n, k, before);
    }
  }

  ghost function Screen(gap: int, agg: Agg, items: seq<Item>, k: Key): Film {
    (n: nat) =>
      if n <= |items|
      then (RunsOf(EventsOf(items, n, k), gap), SessionRun(gap, agg, map[], items, n), Smooth(gap, agg, items, n, k))
      else ([], (map[], []), true)
  }

  lemma Shows(gap: int, agg: Agg, items: seq<Item>, k: Key)
    ensures forall n: nat :: n <= |items| ==> Frame(Screen(gap, agg, items, k), gap, agg, items, n, k)
  {
  }

  /** At every moment of every run: the sessions of `k` reported and open are those of
      the runs of its events if all were welcome, and otherwise more in number. */
  lemma RunStands(gap: int, agg: Agg, items: seq<Item>, n: nat, k: Key) returns (shown: seq<Session>)
    requires gap >= 0 && n <= |items|
    ensures Stands(k, gap, agg, RunsOf(EventsOf(items, n, k), gap), SessionRun(gap, agg, map[], items, n), shown,
                   Smooth(gap, agg, items, n, k))
  {
    var f := Screen(gap, agg, items, k);
    Shows(gap, agg, items, k);
    shown := FilmStands(f, gap, agg, items, n, k);
    assert Frame(f, gap, agg, items, n, k);
  }

  // ---------- finished runs ----------

  lemma {:induction false} InJoined(rs: seq<seq<Event>>, j: nat)
    requires Solid(rs) && j < |rs|
    ensures rs[j][|rs[j]| - 1] in Joined(rs)
    decreases |rs|
  {
    var front, run := rs[..|rs| - 1], rs[|rs| - 1];
    if j == |front| {
      assert (Joined(front) + run)[|Joined(front)| + |run| - 1] == run[|run| - 1];
    } else {
      InJoined(front, j);
    }
  }

  /** Every run ends with an event. */
  lemma RunsReach(evs: seq<Event>, gap: int, j: nat)
    requires gap >= 0 && j < |RunsOf(evs, gap)| && forall i :: 0 <= i < |evs| ==> evs[i].ts + gap <= MAX
    ensures EndOf(RunsOf(evs, gap)[j]) + gap <= MAX
  {
    var rs := RunsOf(evs, gap);
    RunsAreMaximal(InTime(evs), gap);
    InJoined(rs, j);
    FromEvents(evs, rs[j][|rs[j]| - 1]);
  }

  lemma FromEvents(evs: seq<Event>, e: Event)
    requires e in InTime(evs)
    ensures exists i :: 0 <= i < |evs| && evs[i] == e
  {
    InTimeIs(evs);
    assert e in multiset(InTime(evs));
  }

  lemma {:induction false} NoneKept(list: seq<Session>, gap: int, w: int)
    requires forall i :: 0 <= i < |list| ==> Over(list[i], gap, w)
    ensures Kept(list, gap, w) == []
    decreases |list|
  {
    if list != [] { NoneKept(list[1..], gap, w); }
  }

  /** The end leaves nothing open. */
  lemma EndShutsAll(gap: int, items: seq<Item>, n: nat, k: Key, open: OpenSessions, shown: seq<Session>)
    requires gap >= 0 && n <= |items| && InReach(gap, items)
    requires Inside(Both(shown, ListOf(open, k)), SessionsOf(RunsOf(EventsOf(items, n, k), gap)))
    ensures k !in KeptAll(open, gap, MAX)
  {
    var list, evs := ListOf(open, k), EventsOf(items, n, k);
    EventsInReach(gap, items, n, k);
    forall i | 0 <= i < |list| ensures Over(list[i], gap, MAX) {
      assert list[i] in Both(shown, list);
      var ss := SessionsOf(RunsOf(evs, gap));
      var j :| 0 <= j < |ss| && ss[j].start <= list[i].start && list[i].last <= ss[j].last;
      RunsReach(evs, gap, j);
    }
    NoneKept(list, gap, MAX);
  }

  /** What is reported against what the runs call for. */
  lemma Compare(k: Key, gap: int, agg: Agg, rs: seq<seq<Event>>, run: (OpenSessions, seq<Output>),
                shown: seq<Session>, smooth: bool)
    requires Solid(rs) && Stands(k, gap, agg, rs, run, shown, smooth) && ListOf(run.0, k) == []
    ensures var got, want := ForKey(run.1, k), ResultsOf(SessionsOf(rs), k, agg);
            if smooth then multiset(got) == multiset(want) else |got| > |want|
  {
    var ss := SessionsOf(rs);
    assert Both(shown, []) == multiset(shown);
    if smooth {
      ResultsPermute(shown, ss, k, agg);
    } else {
      assert |multiset(ForKey(run.1, k))| == |ForKey(run.1, k)|;
      assert |multiset(ResultsOf(shown, k, agg))| == |shown|;
    }
  }

  /** What the batch definition calls for: one result per maximal run of the key's
      events in order of time. */
  ghost function Wanted(items: seq<Item>, n: nat, k: Key, gap: int, agg: Agg): seq<Result>
    requires n <= |items|
  {
    Reports(RunsOf(EventsOf(items, n, k), gap), k, agg)
  }

  lemma WantedAre(items: seq<Item>, n: nat, k: Key, gap: int, agg: Agg)
    requires n <= |items| && gap >= 0
    ensures Wanted(items, n, k, gap, agg) == ResultsOf(SessionsOf(RunsOf(EventsOf(items, n, k), gap)), k, agg)
  {
    RunsAreCut(EventsOf(items, n, k), gap);
    ReportsAre(RunsOf(EventsOf(items, n, k), gap), k, agg);
  }

  /** A finished run reports for `k` exactly the maximal runs of its events if and
      only if every event of `k`, on arrival, was within `gap` of at most one session
      still open and of none already reported; otherwise it reports more. */
  lemma SessionsAreRunsIff(gap: int, agg: Agg, items: seq<Item>, k: Key)
    requires gap >= 0 && InReach(gap, items) && items != [] && items[|items| - 1].Done?
    ensures var run, want := SessionRun(gap, agg, map[], items, |items|), Wanted(items, |items|, k, gap, agg);
            && k !in run.0
            && (multiset(ForKey(run.1, k)) == multiset(want) <==> Smooth(gap, agg, items, |items|, k))
            && (!Smooth(gap, agg, items, |items|, k) ==> |ForKey(run.1, k)| > |want|)
  {
    Shows(gap, agg, items, k);
    FinishedIff(Screen(gap, agg, items, k), gap, agg, items, |items| - 1, |items|, k);
  }

  lemma FinishedIff(f: Film, gap: int, agg: Agg, items: seq<Item>, n: nat, next: nat, k: Key)
    requires gap >= 0 && InReach(gap, items) && next == n + 1 == |items| && items[n].Done?
    requires forall m: nat :: m <= |items| ==> Frame(f, gap, agg, items, m, k)
    ensures var run, want := SessionRun(gap, agg, map[], items, next), Wanted(items, next, k, gap, agg);
            && k !in run.0
            && (multiset(ForKey(run.1, k)) == multiset(want) <==> Smooth(gap, agg, items, next, k))
            && (!Smooth(gap, agg, items, next, k) ==> |ForKey(run.1, k)| > |want|)
  {
    var before := FilmStands(f, gap, agg, items, n, k);
    var shown := FilmStands(f, gap, agg, items, next, k);
    assert Frame(f, gap, agg, items, n, k) && Frame(f, gap, agg, items, next, k);
    EndShutsAll(gap, items, n, k, f(n).1.0, before);
    Compare(k, gap, agg, f(next).0, f(next).1, shown, f(next).2);
    WantedAre(items, next, k, gap, agg);
    var got, want := ForKey(f(next).1.1, k), Wanted(items, next, k, gap, agg);
    assert |multiset(got)| == |got| && |multiset(want)| == |want|;
  }

  // ---------- the two ways to go wrong ----------

  lemma OpenTwo(gap: int, agg: Agg, items: seq<Item>, a: Event, b: Event, k: Key)
    requires |items| > 2 && items[0] == Data(a) && items[1] == Data(b) && a.key == b.key == k && a.ts + gap < b.ts
    ensures ListOf(SessionRun(gap, agg, map[], items, 2).0, k) == [NewSession(a.ts, a.value), NewSession(b.ts, b.value)]
  {
    var one := [NewSession(a.ts, a.value)];
    assert SessionRun(gap, agg, map[], items, 0) == (map[], []);
    assert ListOf(SessionRun(gap, agg, map[], items, 1).0, k) == one;
    assert one[1..] == [];
    assert Insert(one, b.ts, b.value, gap) == one + Insert([], b.ts, b.value, gap);
  }

  /** An event that bridges two open sessions leaves two where there is one run. */
  lemma BridgesDoNotMerge(agg: Agg, k: Key) returns (items: seq<Item>)
    ensures InReach(10, items) && items != [] && items[|items| - 1].Done?
    ensures |ForKey(SessionRun(10, agg, map[], items, |items|).1, k)| > |Wanted(items, |items|, k, 10, agg)|
  {
    var a, b, c := Event(0, 1, k), Event(20, 1, k), Event(10, 1, k);
    items := [Data(a), Data(b), Data(c), Done];
    OpenTwo(10, agg, items, a, b, k);
    var list := ListOf(SessionRun(10, agg, map[], items, 2).0, k);
    assert NearAt(list, 0, 10, 10) && NearAt(list, 1, 10, 10);
    assert !WelcomeAt(10, agg, items, 2, k);
    SessionsAreRunsIff(10, agg, items, k);
  }

  /** An event at the watermark that ended its session starts another. */
  lemma TheEdgeIsCut(agg: Agg, k: Key) returns (items: seq<Item>)
    ensures InReach(10, items) && items != [] && items[|items| - 1].Done?
    ensures |ForKey(SessionRun(10, agg, map[], items, |items|).1, k)| > |Wanted(items, |items|, k, 10, agg)|
  {
    var a, c := Event(0, 1, k), Event(10, 1, k);
    items := [Data(a), Watermark(10), Data(c), Done];
    ReportedOne(agg, items, a, k);
    assert !WelcomeAt(10, agg, items, 2, k);
    SessionsAreRunsIff(10, agg, items, k);
  }

  lemma ReportedOne(agg: Agg, items: seq<Item>, a: Event, k: Key)
    requires |items| > 2 && items[0] == Data(a) && items[1] == Watermark(a.ts + 10) && a.key == k
    ensures SessionResult(NewSession(a.ts, a.value), k, agg) in ForKey(SessionRun(10, agg, map[], items, 2).1, k)
  {
    var one, w := [NewSession(a.ts, a.value)], a.ts + 10;
    var run := SessionRun(10, agg, map[], items, 1);
    assert SessionRun(10, agg, map[], items, 0) == (map[], []);
    assert ListOf(run.0, k) == one && run.1 == [];
    assert Spaced(one, 10) && OverCount(one, 10, w) == 1;
    ClosingOfKey(run.0, 10, agg, w, Passed(w), k);
    var closing := ClosingSessions(run.0, 10, agg, w) + [Passed(w)];
    assert [] + closing == closing && one[..1] == one;
    assert ResultsOf(one, k, agg)[0] in ResultsOf(one, k, agg);
  }
}
