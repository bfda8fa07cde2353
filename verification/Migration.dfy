/** Failover and migration planning (crates/server/src/migration.rs): the plans of
    all members together send each partition to exactly the new holders that
    lack it, so no replica ever goes without its data while a holder survives. */
module Migration {
  import opened Basics
  import opened Membership

  // ---------- failover without joins ----------

  /** `now` is `was` with some members dead. */
  ghost predicate OnlyDeaths(was: View, now: View) {
    && was.members == now.members
    && was.backups == now.backups
    && |was.alive| == |now.alive|
    && forall i :: 0 <= i < |now.alive| && now.alive[i] ==> was.alive[i]
  }

  /** Position `k` of `s` is the first one live in `alive`. */
  ghost predicate FirstLiveOf(s: seq<nat>, alive: seq<bool>, k: nat) {
    && k < |s| && s[k] < |alive| && alive[s[k]]
    && forall e :: 0 <= e < k ==> s[e] < |alive| && !alive[s[e]]
  }

  /** The first live member of a walk is the first one still live of the old walk. */
  lemma {:induction false} WalkAfterDeaths(was: seq<bool>, now: seq<bool>, home: nat, j: nat) returns (k: nat)
    requires |was| == |now| && home < |was| && j <= |was|
    requires forall i :: 0 <= i < |now| && now[i] ==> was[i]
    requires LiveFrom(now, home, j) != []
    ensures FirstLiveOf(LiveFrom(was, home, j), now, k) && LiveFrom(was, home, j)[k] == LiveFrom(now, home, j)[0]
    decreases |was| - j
  {
    var i := At(home, j, |was|);
    if now[i] {
      k := 0;
    } else {
      k := WalkAfterDeaths(was, now, home, j + 1);
      if was[i] {
        ShiftFirst(i, LiveFrom(was, home, j + 1), now, k);
        k := k + 1;
      }
    }
  }

  lemma ShiftFirst(i: nat, s: seq<nat>, alive: seq<bool>, k: nat)
    requires FirstLiveOf(s, alive, k) && i < |alive| && !alive[i]
    ensures FirstLiveOf([i] + s, alive, k + 1)
  {
  }

  /** Some old holder of `p` is still alive. */
  ghost predicate Spared(was: View, now: View, p: nat)
    requires 0 < |was.alive|
  {
    exists e :: 0 <= e < |Holders(was, p)| && Holders(was, p)[e] < |now.alive| && now.alive[Holders(was, p)[e]]
  }

  /** Failover lands on the data: after deaths that spare some old holder of a
      partition, its new owner is the first old holder spared. */
  lemma FailoverLandsOnData(was: View, now: View, p: nat) returns (k: nat)
    requires 0 < |was.alive| && OnlyDeaths(was, now) && Spared(was, now, p)
    ensures FirstLiveOf(Holders(was, p), now.alive, k)
    ensures Holders(now, p) != [] && Holders(now, p)[0] == Holders(was, p)[k]
  {
    RingIsLive(now, p);
    RingIsLive(was, p);
    var e :| 0 <= e < |Holders(was, p)| && Holders(was, p)[e] < |now.alive| && now.alive[Holders(was, p)[e]];
    assert Holders(was, p)[e] == Ring(was, p)[e] && Ring(was, p)[e] in LiveSet(now.alive);
    k := WalkAfterDeaths(was.alive, now.alive, Home(was, p), 0);
  }

  /** As long as no more members die than there are backups, and someone is left,
      every partition has a holder spared. */
  lemma FewDeathsSpare(was: View, now: View, p: nat)
    requires 0 < |was.alive| && OnlyDeaths(was, now) && LiveSet(now.alive) != {}
    requires |LiveSet(was.alive) - LiveSet(now.alive)| <= was.backups
    ensures Spared(was, now, p)
  {
    RingIsLive(now, p);
    RingIsLive(was, p);
    var k := WalkAfterDeaths(was.alive, now.alive, Home(was, p), 0);
    var dead := Ring(was, p)[..k];
    DistinctSize(dead);
    assert Elems(dead) <= LiveSet(was.alive) - LiveSet(now.alive);
    SubsetSize(Elems(dead), LiveSet(was.alive) - LiveSet(now.alive));
    assert Holders(was, p)[k] == Ring(was, p)[k];
  }

  /** An owner that survives deaths stays the owner. */
  lemma SurvivingOwnerStays(was: View, now: View, p: nat)
    requires 0 < |was.alive| && OnlyDeaths(was, now) && LiveSet(was.alive) != {}
    requires Holders(was, p)[0] < |now.alive| && now.alive[Holders(was, p)[0]]
    ensures Holders(now, p)[0] == Holders(was, p)[0]
  {
    RingIsLive(was, p);
    RingIsLive(now, p);
    assert Ring(was, p)[0] in Ring(now, p);
    var k := WalkAfterDeaths(was.alive, now.alive, Home(was, p), 0);
  }

  // ---------- plans ----------

  function UuidsOf(v: View, hs: seq<nat>): seq<Uuid>
    requires forall k :: 0 <= k < |hs| ==> hs[k] < |v.members|
  {
    seq(|hs|, k requires 0 <= k < |hs| => v.members[hs[k]].uuid)
  }

  lemma HoldersInRange(v: View, p: nat)
    requires Wf(v) && 0 < |v.members|
    ensures forall k :: 0 <= k < |Holders(v, p)| ==> Holders(v, p)[k] < |v.members|
  {
    RingIsLive(v, p);
    assert forall k :: 0 <= k < |Ring(v, p)| ==> Ring(v, p)[k] in Ring(v, p);
  }

  function HolderUuids(v: View, p: nat): seq<Uuid>
    requires Wf(v) && 0 < |v.members|
  {
    HoldersInRange(v, p);
    UuidsOf(v, Holders(v, p))
  }

  predicate AliveIn(v: View, u: Uuid)
    requires Wf(v)
  {
    exists i :: 0 <= i < |v.members| && v.alive[i] && v.members[i].uuid == u
  }

  /** The first of `us` that is alive in `v`. */
  function FirstAlive(us: seq<Uuid>, v: View): Option<Uuid>
    requires Wf(v)
  {
    if us == [] then None
    else if AliveIn(v, us[0]) then Some(us[0])
    else FirstAlive(us[1..], v)
  }

  function Sender(was: View, now: View, p: nat): Option<Uuid>
    requires Wf(was) && Wf(now) && 0 < |was.members|
  {
    FirstAlive(HolderUuids(was, p), now)
  }

  /** `self` is the first old holder of `p` still alive, and `h` is a new holder
      that did not hold `p` before. */
  ghost predicate Owes(was: View, now: View, self: Uuid, p: nat, h: nat)
    requires Wf(was) && Wf(now) && 0 < |was.members| && 0 < |now.members|
  {
    && Sender(was, now, p) == Some(self)
    && h in Holders(now, p) && h < |now.members| && now.members[h].uuid !in HolderUuids(was, p)
  }

  lemma {:induction false} FirstAliveIs(us: seq<Uuid>, v: View)
    requires Wf(v)
    ensures FirstAlive(us, v).None? ==> forall u :: u in us ==> !AliveIn(v, u)
    ensures FirstAlive(us, v).Some? ==> FirstAlive(us, v).value in us && AliveIn(v, FirstAlive(us, v).value)
  {
    if us != [] && !AliveIn(v, us[0]) { FirstAliveIs(us[1..], v); }
  }

  /** The planner: exactly the transfers a member owes, each listed once. */
  method Plan(was: View, now: View, count: nat, self: Uuid) returns (out: seq<(nat, nat)>)
    requires Wf(was) && Wf(now)
    ensures was.members == [] || now.members == [] ==> out == []
    ensures was.members != [] && now.members != [] ==>
              forall x :: x in out <==> x.0 < count && Owes(was, now, self, x.0, x.1)
    ensures Distinct(out)
  {
    out := [];
    if |was.members| == 0 || |now.members| == 0 {
      return;
    }
    for p := 0 to count
      invariant forall x :: x in out <==> x.0 < p && Owes(was, now, self, x.0, x.1)
      invariant Distinct(out)
    {
      var one := PlanPartition(was, now, p, self);
      JoinPlans(out, one, p);
      out := out + one;
    }
  }

  lemma JoinPlans(a: seq<(nat, nat)>, b: seq<(nat, nat)>, p: nat)
    requires Distinct(a) && Distinct(b)
    requires (forall x :: x in a ==> x.0 < p) && (forall x :: x in b ==> x.0 == p)
    ensures Distinct(a + b)
  {
    forall i, j | 0 <= i < |a| && 0 <= j < |b| ensures a[i] != b[j] {
      assert a[i] in a && b[j] in b;
    }
  }

  method PlanPartition(was: View, now: View, p: nat, self: Uuid) returns (out: seq<(nat, nat)>)
    requires Wf(was) && Wf(now) && 0 < |was.members| && 0 < |now.members|
    ensures forall x :: x in out <==> x.0 == p && Owes(was, now, self, p, x.1)
    ensures Distinct(out)
  {
    var had := ReadHolderUuids(was, p);
    var sender := FirstAlive(had, now);
    out := [];
    if sender != Some(self) {
      return;
    }
    FirstAliveIs(had, now);
    var owner := Owner(now, p);
    var backups := BackupsOf(now, p);
    var hs := [owner] + backups;
    HoldersInRange(now, p);
    HoldersOnce(now, p);
    assert hs == Holders(now, p);
    out := Lacking(now, hs, self, had, p);
  }

  /** Those of the positions `hs` whose uuid is neither `self` nor in `had`. */
  method Lacking(now: View, hs: seq<nat>, self: Uuid, had: seq<Uuid>, p: nat) returns (out: seq<(nat, nat)>)
    requires Distinct(hs) && forall k :: 0 <= k < |hs| ==> hs[k] < |now.members|
    requires self in had
    ensures forall x :: x in out <==> x.0 == p && x.1 in hs && x.1 < |now.members| && now.members[x.1].uuid !in had
    ensures Distinct(out)
  {
    out := [];
    for k := 0 to |hs|
      invariant forall x :: x in out <==>
                  x.0 == p && x.1 in hs[..k] && x.1 < |now.members| && now.members[x.1].uuid !in had
      invariant Distinct(out)
    {
      var u := now.members[hs[k]].uuid;
      assert hs[..k + 1] == hs[..k] + [hs[k]] && hs[k] !in hs[..k];
      if u != self && u !in had {
        out := out + [(p, hs[k])];
      }
    }
    assert hs[..|hs|] == hs;
  }

  lemma HoldersOnce(v: View, p: nat)
    requires 0 < |v.alive|
    ensures Distinct(Holders(v, p))
  {
    RingIsLive(v, p);
  }

  method ReadHolderUuids(v: View, p: nat) returns (us: seq<Uuid>)
    requires Wf(v) && 0 < |v.members|
    ensures us == HolderUuids(v, p)
  {
    var owner := Owner(v, p);
    var backups := BackupsOf(v, p);
    HoldersInRange(v, p);
    assert [owner] + backups == Holders(v, p);
    us := [v.members[owner].uuid];
    for k := 0 to |backups|
      invariant us == UuidsOf(v, ([owner] + backups)[..k + 1])
    {
      us := us + [v.members[backups[k]].uuid];
    }
    assert ([owner] + backups)[..|backups| + 1] == Holders(v, p);
  }

  /** A new holder that lacks `p` is owed it by exactly one member, an old holder
      still alive, if there is any, and by nobody otherwise. */
  lemma OneSender(was: View, now: View, p: nat, h: nat)
    requires Wf(was) && Wf(now) && 0 < |was.members| && 0 < |now.members|
    requires h in Holders(now, p) && h < |now.members| && now.members[h].uuid !in HolderUuids(was, p)
    ensures (exists a :: Owes(was, now, a, p, h)) <==> exists u :: u in HolderUuids(was, p) && AliveIn(now, u)
    ensures forall a, b :: Owes(was, now, a, p, h) && Owes(was, now, b, p, h) ==> a == b
    ensures forall a :: Owes(was, now, a, p, h) ==> a in HolderUuids(was, p) && AliveIn(now, a)
  {
    FirstAliveIs(HolderUuids(was, p), now);
    var sender := Sender(was, now, p);
    if sender.Some? { assert Owes(was, now, sender.value, p, h); }
  }

  lemma {:induction false} FirstAliveAt(us: seq<Uuid>, v: View, k: nat)
    requires Wf(v) && k < |us| && AliveIn(v, us[k]) && forall e :: 0 <= e < k ==> !AliveIn(v, us[e])
    ensures FirstAlive(us, v) == Some(us[k])
    decreases k
  {
    if k > 0 { FirstAliveAt(us[1..], v, k - 1); }
  }

  /** After deaths, the planner's sender of a partition is its new owner. */
  lemma OwnerIsSender(was: View, now: View, p: nat) returns (k: nat)
    requires Wf(was) && Wf(now) && 0 < |was.members| && UniqueUuids(was)
    requires OnlyDeaths(was, now) && Spared(was, now, p)
    ensures k < |Holders(was, p)| && Holders(now, p) != [] && Holders(now, p)[0] == Holders(was, p)[k] < |now.members|
    ensures Sender(was, now, p) == Some(now.members[Holders(now, p)[0]].uuid)
  {
    k := FailoverLandsOnData(was, now, p);
    HoldersInRange(was, p);
    var hs, us := Holders(was, p), HolderUuids(was, p);
    forall e | 0 <= e < k ensures !AliveIn(now, us[e]) {
      assert now.members[hs[e]].uuid == us[e] && !now.alive[hs[e]];
    }
    FirstAliveAt(us, now, k);
  }

  // ---------- the data ----------

  /** Which member has the data of which partition. */
  type Data = set<(Uuid, nat)>

  /** Sender `i` has partition `p` and owes it to position `h`. */
  ghost predicate Sends(was: View, now: View, count: nat, has: Data, i: nat, p: nat, h: nat)
    requires Wf(was) && Wf(now)
  {
    && 0 < |was.members| && i < |now.members| && now.alive[i] && p < count && h < |now.members|
    && (now.members[i].uuid, p) in has
    && Owes(was, now, now.members[i].uuid, p, h)
  }

  /** What the plans of the members alive in `now` deliver. */
  ghost function Delivered(was: View, now: View, count: nat, has: Data): Data
    requires Wf(was) && Wf(now)
  {
    set i: nat, p: nat, h: nat {:trigger Sends(was, now, count, has, i, p, h)} |
      i < |now.members| && p < count && h < |now.members| && Sends(was, now, count, has, i, p, h) ::
      (now.members[h].uuid, p)
  }

  /** Members dead in either view have nothing; the rest keep what they had. */
  ghost function Migrated(was: View, now: View, count: nat, has: Data): Data
    requires Wf(was) && Wf(now)
  {
    (set x | x in has && AliveIn(was, x.0) && AliveIn(now, x.0)) + Delivered(was, now, count, has)
  }

  /** Every holder of `p` has its data. */
  ghost predicate Populated(v: View, has: Data, p: nat)
    requires Wf(v)
  {
    0 < |v.members| ==> forall u :: u in HolderUuids(v, p) ==> (u, p) in has
  }

  /** Some holder of `p` is alive in both views. */
  ghost predicate Survives(was: View, now: View, p: nat)
    requires Wf(was) && Wf(now)
  {
    0 < |was.members| && exists u :: u in HolderUuids(was, p) && AliveIn(was, u) && AliveIn(now, u)
  }

  lemma HolderUuidIs(v: View, p: nat, u: Uuid) returns (h: nat)
    requires Wf(v) && 0 < |v.members| && u in HolderUuids(v, p)
    ensures h in Holders(v, p) && h < |v.members| && v.members[h].uuid == u
  {
    HoldersInRange(v, p);
    var k :| 0 <= k < |Holders(v, p)| && HolderUuids(v, p)[k] == u;
    h := Holders(v, p)[k];
  }

  lemma SomeoneLive(v: View, u: Uuid)
    requires Wf(v) && AliveIn(v, u)
    ensures LiveSet(v.alive) != {}
  {
    var i :| 0 <= i < |v.members| && v.alive[i] && v.members[i].uuid == u;
    assert i in LiveSet(v.alive);
  }

  /** Holders are alive as soon as anyone is. */
  lemma HolderIsAlive(v: View, p: nat, u: Uuid)
    requires Wf(v) && 0 < |v.members| && LiveSet(v.alive) != {} && u in HolderUuids(v, p)
    ensures AliveIn(v, u)
  {
    var h := HolderUuidIs(v, p, u);
    HoldersAreLive(v, p);
  }

  /** Migration keeps every replica populated: if all old holders of `p` have its
      data and one of them survives, then once the plans are delivered all new
      holders of `p` have it. */
  lemma MigrationPopulates(was: View, now: View, count: nat, has: Data, p: nat)
    requires Wf(was) && Wf(now) && p < count && Populated(was, has, p) && Survives(was, now, p)
    ensures Populated(now, Migrated(was, now, count, has), p)
  {
    var w :| w in HolderUuids(was, p) && AliveIn(was, w) && AliveIn(now, w);
    SomeoneLive(was, w);
    SomeoneLive(now, w);
    FirstAliveIs(HolderUuids(was, p), now);
    var sender := Sender(was, now, p).value;
    var i :| 0 <= i < |now.members| && now.alive[i] && now.members[i].uuid == sender;
    forall u | u in HolderUuids(now, p) ensures (u, p) in Migrated(was, now, count, has) {
      HolderIsAlive(now, p, u);
      if u in HolderUuids(was, p) {
        HolderIsAlive(was, p, u);
      } else {
        var h := HolderUuidIs(now, p, u);
        assert Sends(was, now, count, has, i, p, h);
      }
    }
  }
}
